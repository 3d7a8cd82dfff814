/** The synced_events rows of one source calendar (internal/db/queries.go). */
module RecordTable {
  import opened CalendarData
  import opened Reconcile

  class SyncedEvents {
    var rows: Records

    constructor ()
      ensures rows == map[]
    {
      rows := map[];
    }

    method GetSyncedEvents(fails: bool) returns (found: Option<Records>)
      ensures found == if fails then None else Some(rows)
    {
      found := if fails then None else Some(rows);
    }

    /** Updates the row if there is one, and otherwise inserts it. */
    method UpsertSyncedEvent(uid: string, now: int, fails: bool)
      modifies this
      ensures rows == if fails then old(rows) else old(rows)[uid := now]
    {
      if fails {
        return;
      }
      var affected := if uid in rows then 1 else 0;
      rows := map u | u in rows :: if u == uid then now else rows[u];
      if affected == 0 {
        rows := rows + map[uid := now];
      }
    }

    method DeleteSyncedEvent(uid: string, fails: bool)
      modifies this
      ensures rows == if fails then old(rows) else old(rows) - {uid}
    {
      if !fails {
        rows := rows - {uid};
      }
    }
  }
}
