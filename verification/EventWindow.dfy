/** The sliding date window (`filterEventsByDate`, internal/caldav/sync.go). Times are integers; how one layout reads
    a start time is left to the parser passed in. */
module EventWindow {
  import opened CalendarData

  type Parser = (string, string) -> Option<int>

  const LAYOUTS: seq<string> :=
    ["20060102T150405Z", "20060102T150405", "20060102", "2006-01-02T15:04:05Z", "2006-01-02"]

  /** The reading of the first layout that fits. */
  function FirstReading(layouts: seq<string>, start: string, parse: Parser): Option<int> {
    if layouts == [] then None
    else if parse(layouts[0], start).Some? then parse(layouts[0], start)
    else FirstReading(layouts[1..], start, parse)
  }

  function StartOf(e: Event, parse: Parser): Option<int> {
    if e.start == "" then None else FirstReading(LAYOUTS, e.start, parse)
  }

  predicate Visible(e: Event, cutoff: int, parse: Parser) {
    StartOf(e, parse).None? || StartOf(e, parse).value > cutoff
  }

  /** The visible events, in their order. */
  function Window(events: seq<Event>, cutoff: int, parse: Parser): (r: seq<Event>)
    ensures forall e :: e in r <==> e in events && Visible(e, cutoff, parse)
  {
    if events == [] then []
    else
      var last := events[|events| - 1];
      assert events == events[..|events| - 1] + [last];
      Window(events[..|events| - 1], cutoff, parse) + if Visible(last, cutoff, parse) then [last] else []
  }

  lemma FirstReadingSkips(layouts: seq<string>, start: string, parse: Parser, n: nat)
    requires n <= |layouts|
    requires forall i :: 0 <= i < n ==> parse(layouts[i], start).None?
    ensures FirstReading(layouts, start, parse) == FirstReading(layouts[n..], start, parse)
  {
    if n > 0 {
      FirstReadingSkips(layouts[1..], start, parse, n - 1);
      assert layouts[1..][n - 1..] == layouts[n..];
    }
  }

  /** Layout `k` is the first that reads the start. */
  ghost predicate ReadsFirst(start: string, parse: Parser, k: int) {
    0 <= k < |LAYOUTS| && parse(LAYOUTS[k], start).Some? && forall j :: 0 <= j < k ==> parse(LAYOUTS[j], start).None?
  }

  ghost predicate Unreadable(start: string, parse: Parser) {
    start == "" || forall k :: 0 <= k < |LAYOUTS| ==> parse(LAYOUTS[k], start).None?
  }

  lemma {:induction false} FirstReadingIs(layouts: seq<string>, start: string, parse: Parser, k: nat)
    requires k < |layouts| && parse(layouts[k], start).Some?
    requires forall j :: 0 <= j < k ==> parse(layouts[j], start).None?
    ensures FirstReading(layouts, start, parse) == parse(layouts[k], start)
  {
    FirstReadingSkips(layouts, start, parse, k);
  }

  lemma VisibleIff(e: Event, cutoff: int, parse: Parser)
    ensures Unreadable(e.start, parse) ==> Visible(e, cutoff, parse)
    ensures forall k :: e.start != "" && ReadsFirst(e.start, parse, k) ==>
      (Visible(e, cutoff, parse) <==> parse(LAYOUTS[k], e.start).value > cutoff)
  {
    if e.start != "" && Unreadable(e.start, parse) {
      FirstReadingSkips(LAYOUTS, e.start, parse, |LAYOUTS|);
    }
    forall k | e.start != "" && ReadsFirst(e.start, parse, k)
      ensures Visible(e, cutoff, parse) <==> parse(LAYOUTS[k], e.start).value > cutoff
    {
      FirstReadingIs(LAYOUTS, e.start, parse, k);
    }
  }

  /** The window keeps the order and judges each event by itself. */
  lemma {:induction false} WindowAppends(a: seq<Event>, b: seq<Event>, cutoff: int, parse: Parser)
    ensures Window(a + b, cutoff, parse) == Window(a, cutoff, parse) + Window(b, cutoff, parse)
    ensures |b| == 1 ==> Window(b, cutoff, parse) == if Visible(b[0], cutoff, parse) then b else []
  {
    hide Visible;
    if b == [] {
      assert a + b == a;
    } else {
      assert (a + b)[..|a + b| - 1] == a + b[..|b| - 1];
      WindowAppends(a, b[..|b| - 1], cutoff, parse);
    }
  }

  /** An event without a readable start is always kept, any other if and only if its first reading is after the cutoff.
      The loop of the source, including its test against the current time, which is read again for every event.
      Since that reading is never before the cutoff, the test adds nothing. */
  method FilterEventsByDate(events: seq<Event>, cutoff: int, clock: nat -> int, parse: Parser)
    returns (filtered: seq<Event>)
    requires forall i :: clock(i) >= cutoff
    ensures filtered == Window(events, cutoff, parse)
    ensures forall e :: e in filtered ==> e in events
    ensures forall e :: e in events && Unreadable(e.start, parse) ==> e in filtered
    ensures forall e, k :: e in events && e.start != "" && ReadsFirst(e.start, parse, k) ==>
      (e in filtered <==> parse(LAYOUTS[k], e.start).value > cutoff)
  {
    filtered := [];
    for i := 0 to |events|
      invariant filtered == Window(events[..i], cutoff, parse)
    {
      var e := events[i];
      assert events[..i + 1][..i] == events[..i];
      if e.start == "" {
        filtered := filtered + [e];
        continue;
      }
      var reading: Option<int> := None;
      var n := 0;
      while n < |LAYOUTS| && reading.None?
        invariant n <= |LAYOUTS|
        invariant reading.None? ==> forall k :: 0 <= k < n ==> parse(LAYOUTS[k], e.start).None?
        invariant reading.Some? ==> reading == FirstReading(LAYOUTS, e.start, parse)
      {
        reading := parse(LAYOUTS[n], e.start);
        FirstReadingSkips(LAYOUTS, e.start, parse, n);
        n := n + 1;
      }
      if reading.None? {
        FirstReadingSkips(LAYOUTS, e.start, parse, |LAYOUTS|);
        filtered := filtered + [e];
        continue;
      }
      if reading.value > cutoff || reading.value > clock(i) {
        filtered := filtered + [e];
      }
    }
    assert events[..|events|] == events;
    forall e | e in events
      ensures Unreadable(e.start, parse) ==> e in filtered
      ensures forall k :: e.start != "" && ReadsFirst(e.start, parse, k) ==>
        (e in filtered <==> parse(LAYOUTS[k], e.start).value > cutoff)
    {
      VisibleIff(e, cutoff, parse);
    }
  }

  /** Moving the cutoff later only takes events away. */
  lemma {:induction false} WindowShrinks(events: seq<Event>, early: int, late: int, parse: Parser)
    requires early <= late
    ensures Window(Window(events, early, parse), late, parse) == Window(events, late, parse)
  {
    if events != [] {
      var last, before := events[|events| - 1], events[..|events| - 1];
      WindowShrinks(before, early, late, parse);
      if Visible(last, early, parse) {
        var w := Window(before, early, parse) + [last];
        assert w[..|w| - 1] == Window(before, early, parse);
      } else {
        assert Window(events, early, parse) == Window(before, early, parse);
      }
    }
  }
}
