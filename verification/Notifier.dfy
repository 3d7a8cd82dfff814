/** Stale and recovery alerts with a cooldown (internal/notify/notify.go). */
module Notifier {
  import opened CalendarData

  /** A user's preferences, as far as the cooldown goes; the times are in nanoseconds. */
  datatype Preferences = Preferences(cooldownMinutes: Option<int>)

  const MINUTE := 60_000_000_000
  const TWO_63 := 0x8000_0000_0000_0000

  /** The value of an int64 computation that gives `x` in unbounded arithmetic. */
  function Wrap(x: int): int {
    (x + TWO_63) % (2 * TWO_63) - TWO_63
  }

  const MINUTE_RANGE := 153_722_867

  /** The user's cooldown if there is one, negative ones included, and otherwise the configured one. In the range of a
      64-bit duration the product is exact; beyond, it is the 64-bit value congruent to it. */
  function CooldownPeriod(configured: int, prefs: Option<Preferences>): (period: int)
    ensures prefs.None? || prefs.value.cooldownMinutes.None? ==> period == configured
    ensures prefs.Some? && prefs.value.cooldownMinutes.Some? ==>
      var minutes := prefs.value.cooldownMinutes.value;
      && -TWO_63 <= period < TWO_63 && (period - minutes * MINUTE) % (2 * TWO_63) == 0
      && (-MINUTE_RANGE <= minutes <= MINUTE_RANGE ==> period == minutes * MINUTE)
  {
    if prefs.Some? && prefs.value.cooldownMinutes.Some? then
      var x := prefs.value.cooldownMinutes.value * MINUTE;
      WrapIsCongruent(x);
      Wrap(x)
    else configured
  }

  lemma WrapIsCongruent(x: int)
    ensures (Wrap(x) - x) % (2 * TWO_63) == 0
  {
    var n := (x + TWO_63) / (2 * TWO_63);
    assert Wrap(x) - x == 2 * TWO_63 * -n;
  }

  /** The notifier's memory: which sources are stale, and when each was last alerted about. */
  datatype Memory = Memory(stale: map<string, bool>, last: map<string, int>) {
    predicate IsStale(source: string) {
      source in stale && stale[source]
    }

    function Forget(source: string): Memory {
      Memory(stale - {source}, last - {source})
    }
  }

  const FRESH := Memory(map[], map[])

  /** A call: a stale alert with its effective cooldown and its two clock readings, a recovery alert, or a clear. */
  datatype Call =
    | Stale(source: string, cooldown: int, checked: int, stamped: int)
    | Recovery(source: string)
    | Clear(source: string)

  /** Whether the call sends an alert. */
  predicate Sends(a: Memory, call: Call) {
    match call
    case Stale(source, cooldown, checked, _) =>
      !(a.IsStale(source) && source in a.last && checked - a.last[source] < cooldown)
    case Recovery(source) => a.IsStale(source)
    case Clear(_) => false
  }

  function After(a: Memory, call: Call): Memory {
    match call
    case Stale(source, _, _, stamped) =>
      if Sends(a, call) then Memory(a.stale[source := true], a.last[source := stamped]) else a
    case Recovery(source) => if a.IsStale(source) then a.Forget(source) else a
    case Clear(source) => a.Forget(source)
  }

  class AlertSender {
    const cooldownPeriod: int
    var staleState: map<string, bool>
    var lastAlertTimes: map<string, int>

    ghost function Abs(): Memory
      reads this
    {
      Memory(staleState, lastAlertTimes)
    }

    constructor (cooldownPeriod: int)
      ensures Abs() == FRESH && this.cooldownPeriod == cooldownPeriod
    {
      this.cooldownPeriod := cooldownPeriod;
      staleState, lastAlertTimes := map[], map[];
    }

    /** `checked` and `stamped` are the clock readings of the test and of the update. */
    method SendStaleAlert(source: string, checked: int, stamped: int) returns (sent: bool)
      modifies this
      ensures sent == Sends(old(Abs()), Stale(source, cooldownPeriod, checked, stamped))
      ensures Abs() == After(old(Abs()), Stale(source, cooldownPeriod, checked, stamped))
    {
      sent := SendAfterCooldown(source, cooldownPeriod, checked, stamped);
    }

    method SendStaleAlertWithPrefs(source: string, prefs: Option<Preferences>, checked: int, stamped: int)
      returns (sent: bool)
      modifies this
      ensures sent == Sends(old(Abs()), Stale(source, CooldownPeriod(cooldownPeriod, prefs), checked, stamped))
      ensures Abs() == After(old(Abs()), Stale(source, CooldownPeriod(cooldownPeriod, prefs), checked, stamped))
    {
      sent := SendAfterCooldown(source, CooldownPeriod(cooldownPeriod, prefs), checked, stamped);
    }

    /** The section under the notifier's mutex that both forms share. */
    method SendAfterCooldown(source: string, cooldown: int, checked: int, stamped: int) returns (sent: bool)
      modifies this
      ensures sent == Sends(old(Abs()), Stale(source, cooldown, checked, stamped))
      ensures Abs() == After(old(Abs()), Stale(source, cooldown, checked, stamped))
    {
      if source in staleState && staleState[source] {
        if source in lastAlertTimes && checked - lastAlertTimes[source] < cooldown {
          return false;
        }
      }
      staleState := staleState[source := true];
      lastAlertTimes := lastAlertTimes[source := stamped];
      return true;
    }

    /** Both forms of the recovery alert. */
    method SendRecoveryAlert(source: string) returns (sent: bool)
      modifies this
      ensures sent == Sends(old(Abs()), Recovery(source)) && Abs() == After(old(Abs()), Recovery(source))
    {
      sent := source in staleState && staleState[source];
      if sent {
        staleState := staleState - {source};
        lastAlertTimes := lastAlertTimes - {source};
      }
    }

    method ClearStaleState(source: string)
      modifies this
      ensures Abs() == After(old(Abs()), Clear(source))
    {
      staleState := staleState - {source};
      lastAlertTimes := lastAlertTimes - {source};
    }
  }

  // ---- Whole runs ----

  /** The memory after the first `n` calls. */
  function Recall(calls: seq<Call>, n: nat): Memory
    requires n <= |calls|
  {
    if n == 0 then FRESH else After(Recall(calls, n - 1), calls[n - 1])
  }

  predicate AlertsAt(calls: seq<Call>, k: nat, source: string)
    requires k < |calls|
  {
    calls[k].Stale? && calls[k].source == source && Sends(Recall(calls, k), calls[k])
  }

  predicate RecoversAt(calls: seq<Call>, k: nat, source: string)
    requires k < |calls|
  {
    calls[k] == Recovery(source) && Sends(Recall(calls, k), calls[k])
  }

  /** A recovery that was sent, or a clear that found the source stale. */
  predicate ResetsAt(calls: seq<Call>, k: nat, source: string)
    requires k < |calls|
  {
    RecoversAt(calls, k, source) || (calls[k] == Clear(source) && Recall(calls, k).IsStale(source))
  }

  function Alerts(calls: seq<Call>, source: string, m: nat, n: nat): nat
    requires m <= n <= |calls|
  {
    if m == n then 0 else Alerts(calls, source, m, n - 1) + if AlertsAt(calls, n - 1, source) then 1 else 0
  }

  function Resets(calls: seq<Call>, source: string, m: nat, n: nat): nat
    requires m <= n <= |calls|
  {
    if m == n then 0 else Resets(calls, source, m, n - 1) + if ResetsAt(calls, n - 1, source) then 1 else 0
  }

  /** The clock never runs backwards. */
  ghost predicate Monotone(calls: seq<Call>) {
    && (forall k :: 0 <= k < |calls| && calls[k].Stale? ==> calls[k].checked <= calls[k].stamped)
    && (forall j, k :: 0 <= j < k < |calls| && calls[j].Stale? && calls[k].Stale? ==>
            calls[j].stamped <= calls[k].checked)
  }

  /** The stale flag is only ever true, and comes with the time of the last alert. */
  lemma {:induction false} FlagsAgree(calls: seq<Call>, n: nat, source: string)
    requires n <= |calls|
    ensures source in Recall(calls, n).stale <==> source in Recall(calls, n).last
    ensures Recall(calls, n).IsStale(source) <==> source in Recall(calls, n).last
  {
    if n > 0 {
      FlagsAgree(calls, n - 1, source);
    }
  }

  /** What one call does to one source. */
  lemma StepOnSource(calls: seq<Call>, n: nat, source: string)
    requires n < |calls|
    ensures
      var a, a' := Recall(calls, n), Recall(calls, n + 1);
      if AlertsAt(calls, n, source) then
        && source in a'.last && a'.last[source] == calls[n].stamped
        && (source in a.last ==> calls[n].checked - a.last[source] >= calls[n].cooldown)
      else if ResetsAt(calls, n, source) then source in a.last && source !in a'.last
      else (source in a.last <==> source in a'.last) && (source in a.last ==> a'.last[source] == a.last[source])
    ensures !(AlertsAt(calls, n, source) && ResetsAt(calls, n, source))
  {
    FlagsAgree(calls, n, source);
  }

  /** `k` is the latest alert about the source, and it was not reset since. */
  ghost predicate Pending(calls: seq<Call>, n: nat, source: string, k: nat) {
    && k < n <= |calls| && AlertsAt(calls, k, source)
    && forall i :: k < i < n ==>
            !AlertsAt(calls, i, source) && !RecoversAt(calls, i, source) && calls[i] != Clear(source)
  }

  /** The memory of a source is its latest alert that no recovery or clear has followed. */
  lemma {:induction false} MemoryIsPending(calls: seq<Call>, n: nat, source: string)
    requires n <= |calls|
    ensures source in Recall(calls, n).last <==> exists k: nat :: Pending(calls, n, source, k)
    ensures forall k: nat :: Pending(calls, n, source, k) ==>
      source in Recall(calls, n).last && Recall(calls, n).last[source] == calls[k].stamped
  {
    if n > 0 {
      MemoryIsPending(calls, n - 1, source);
      StepOnSource(calls, n - 1, source);
      FlagsAgree(calls, n - 1, source);
      hide Recall, AlertsAt, Pending;
      forall k: nat
        ensures Pending(calls, n, source, k)
          <==> if AlertsAt(calls, n - 1, source) then k == n - 1
               else Pending(calls, n - 1, source, k) && Untouched(calls, n - 1, source)
      {
        PendingNext(calls, n, source, k);
      }
      if source in Recall(calls, n).last && !AlertsAt(calls, n - 1, source) {
        var k: nat :| Pending(calls, n - 1, source, k);
        assert Pending(calls, n, source, k);
      } else if AlertsAt(calls, n - 1, source) {
        assert Pending(calls, n, source, n - 1);
      }
    }
  }

  /** Call `k` neither sends a recovery of the source nor clears it. */
  predicate Untouched(calls: seq<Call>, k: nat, source: string)
    requires k < |calls|
  {
    !RecoversAt(calls, k, source) && calls[k] != Clear(source)
  }

  lemma PendingNext(calls: seq<Call>, n: nat, source: string, k: nat)
    requires 0 < n <= |calls|
    ensures Pending(calls, n, source, k)
      <==> if AlertsAt(calls, n - 1, source) then k == n - 1
           else Pending(calls, n - 1, source, k) && Untouched(calls, n - 1, source)
  {
    hide AlertsAt, RecoversAt;
  }

  /** A recovery is sent exactly when a stale alert was sent since the last recovery or clear. */
  lemma RecoveryFollowsAlert(calls: seq<Call>, n: nat, source: string)
    requires n < |calls| && calls[n] == Recovery(source)
    ensures Sends(Recall(calls, n), calls[n]) <==> exists k: nat :: Pending(calls, n, source, k)
  {
    MemoryIsPending(calls, n, source);
    FlagsAgree(calls, n, source);
  }

  /** A stale alert is withheld exactly when the latest one, not yet followed by a recovery or clear, is less than the
      cooldown ago. */
  lemma WithheldInCooldown(calls: seq<Call>, n: nat)
    requires n < |calls| && calls[n].Stale?
    ensures !Sends(Recall(calls, n), calls[n])
      <==> exists k: nat ::
             Pending(calls, n, calls[n].source, k) && calls[n].checked - calls[k].stamped < calls[n].cooldown
  {
    MemoryIsPending(calls, n, calls[n].source);
    FlagsAgree(calls, n, calls[n].source);
  }

  // ---- The counting bound ----

  /** In `calls[m..n]` the source's cooldowns are at least `c` and its clock readings lie in [from, to]. */
  ghost predicate InSpan(calls: seq<Call>, source: string, m: nat, n: nat, c: int, from: int, to: int) {
    n <= |calls| && forall k :: m <= k < n && calls[k].Stale? && calls[k].source == source ==>
      c <= calls[k].cooldown && from <= calls[k].stamped <= to
  }

  /** How many cooldowns fit into the span. */
  function Periods(span: int, c: int): int
    requires 0 < c
  {
    span / c
  }

  lemma MulMonotone(x: int, y: int, c: int)
    requires 0 < c
    ensures x <= y ==> x * c <= y * c
  {
  }

  lemma PeriodsIsGreatest(q: int, span: int, c: int)
    requires 0 < c && q * c <= span
    ensures q <= Periods(span, c)
  {
    assert span == span / c * c + span % c;
    MulMonotone(span / c + 1, q, c);
  }

  lemma PeriodsGrow(x: int, y: int, c: int)
    requires 0 < c && x <= y
    ensures Periods(x, c) <= Periods(y, c)
    ensures x + c <= y ==> Periods(x, c) + 1 <= Periods(y, c)
    ensures 0 <= x ==> 0 <= Periods(x, c)
  {
    assert x == x / c * c + x % c;
    PeriodsIsGreatest(x / c, y, c);
    if x + c <= y {
      PeriodsIsGreatest(x / c + 1, y, c);
    }
  }

  /** While the source is stale its latest alert pays for all of them but one; otherwise the resets do. */
  lemma {:induction false} AlertsArePaid(calls: seq<Call>, source: string, m: nat, n: nat, c: int, from: int, to: int)
    requires Monotone(calls) && m <= n <= |calls| && 0 < c && from <= to && InSpan(calls, source, m, n, c, from, to)
    requires forall k :: 0 <= k < n && calls[k].Stale? && calls[k].source == source ==> calls[k].stamped <= to
    ensures
      var a := Recall(calls, n);
      if source !in a.last then Alerts(calls, source, m, n) <= Resets(calls, source, m, n) + Periods(to - from, c)
      else if from <= a.last[source] then
        a.last[source] <= to && Alerts(calls, source, m, n)
          <= Resets(calls, source, m, n) + 1 + Periods(a.last[source] - from, c)
      else Alerts(calls, source, m, n) == 0
    decreases n
  {
    hide Recall, AlertsAt, ResetsAt, Periods;
    if m == n {
      NothingToPay(calls, source, n, c, from, to);
    } else {
      StepOnSource(calls, n - 1, source);
      PeriodsGrow(0, to - from, c);
      var last := Recall(calls, n - 1).last;
      if AlertsAt(calls, n - 1, source) {
        var stamped := AlertTime(calls, source, n - 1);
        PeriodsGrow(0, stamped - from, c);
        if source !in last {
          AlertsArePaid(calls, source, m, n - 1, c, from, stamped);
        } else {
          AlertsArePaid(calls, source, m, n - 1, c, from, to);
          PeriodsGrow(last[source] - from, stamped - from, c);
        }
      } else {
        AlertsArePaid(calls, source, m, n - 1, c, from, to);
        if source in last {
          PeriodsGrow(last[source] - from, to - from, c);
        }
      }
    }
  }

  function AlertTime(calls: seq<Call>, source: string, k: nat): (stamped: int)
    requires k < |calls| && AlertsAt(calls, k, source)
    ensures calls[k].Stale? && calls[k].source == source && stamped == calls[k].stamped
  {
    calls[k].stamped
  }

  lemma NothingToPay(calls: seq<Call>, source: string, n: nat, c: int, from: int, to: int)
    requires n <= |calls| && 0 < c && from <= to
    requires forall k :: 0 <= k < n && calls[k].Stale? && calls[k].source == source ==> calls[k].stamped <= to
    ensures 0 <= Periods(to - from, c)
    ensures
      var last := Recall(calls, n).last;
      source in last ==> last[source] <= to && (from <= last[source] ==> 0 <= Periods(last[source] - from, c))
  {
    MemoryIsPending(calls, n, source);
    PeriodsGrow(0, to - from, c);
    var last := Recall(calls, n).last;
    if source in last && from <= last[source] {
      PeriodsGrow(0, last[source] - from, c);
    }
  }

  /** Within a span of `t` in which the cooldowns are at least `c`, a source gets at most t / c + 1 stale alerts, and
      one more for each recovery sent and each clear of a stale source. */
  lemma AlertsAreBounded(calls: seq<Call>, source: string, m: nat, n: nat, c: int, from: int, t: nat)
    requires Monotone(calls) && m <= n <= |calls| && 0 < c && InSpan(calls, source, m, n, c, from, from + t)
    ensures Alerts(calls, source, m, n) <= t / c + 1 + Resets(calls, source, m, n)
  {
    if k :| m <= k < n && calls[k].Stale? && calls[k].source == source {
      hide Recall, Alerts, Resets, AlertsAt, ResetsAt;
      AlertsArePaid(calls, source, m, n, c, from, from + t);
      var last := Recall(calls, n).last;
      if source in last && from <= last[source] {
        PeriodsGrow(last[source] - from, t, c);
      }
      PeriodsGrow(0, t, c);
    } else {
      NoAlerts(calls, source, m, n);
      PeriodsGrow(0, t, c);
    }
  }

  lemma {:induction false} NoAlerts(calls: seq<Call>, source: string, m: nat, n: nat)
    requires m <= n <= |calls| && forall k :: m <= k < n ==> !(calls[k].Stale? && calls[k].source == source)
    ensures Alerts(calls, source, m, n) == 0
    decreases n
  {
    if m < n {
      NoAlerts(calls, source, m, n - 1);
    }
  }
}
