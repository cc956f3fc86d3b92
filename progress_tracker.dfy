/** The `ingestion_progress` table and the statements that read and write it
    (backend/progress_tracker.py, plus the stop and archive updates issued by the
    ingestion page). One row per session, keyed by `session_id`. */
module ProgressTracker {
  import opened Wrappers
  import opened Json
  import StableSort

  const Running := "RUNNING"
  const Completed := "COMPLETED"
  const Archived := "ARCHIVED"
  const Abandoned := "ABANDONED"
  const StoppingNote := "Stopping gracefully..."

  /** One row. Timestamps are abstract clock readings; `status` is free text, as in the
      table's VARCHAR column. */
  datatype Row = Row(
    sessionId: string,
    status: string,
    totalFiles: int,
    processedFiles: int,
    currentFile: Option<string>,
    startedAt: int,
    updatedAt: int,
    metadata: map<string, Json>,
    errors: seq<string>)

  type Table = map<string, Row>

  /** The UNIQUE constraint on `session_id`: each row sits under its own id. */
  predicate WellKeyed(t: Table) {
    forall k :: k in t ==> t[k].sessionId == k
  }

  /** `if error:` in `update_progress`. */
  predicate HasError(error: Option<string>) {
    error.Some? && error.value != ""
  }

  /** `start_ingestion`: insert a RUNNING row, or reset an existing one in place. The upsert
      leaves `current_file` out of its UPDATE SET list, so a restarted session keeps it. */
  function Start(t: Table, sessionId: string, totalFiles: int, metadata: Option<map<string, Json>>, now: int): (r: Table)
    ensures r.Keys == t.Keys + {sessionId}
    ensures forall k :: k in t && k != sessionId ==> r[k] == t[k]
    ensures var row := r[sessionId];
      row.sessionId == sessionId && row.status == Running && row.totalFiles == totalFiles
      && row.processedFiles == 0 && row.errors == [] && row.startedAt == now && row.updatedAt == now
      && row.metadata == (if metadata.Some? then metadata.value else map[])
    ensures r[sessionId].currentFile == if sessionId in t then t[sessionId].currentFile else None
    ensures WellKeyed(t) ==> WellKeyed(r)
  {
    var current := if sessionId in t then t[sessionId].currentFile else None;
    t[sessionId := Row(sessionId, Running, totalFiles, 0, current, now, now, metadata.GetOr(map[]), [])]
  }

  /** `update_progress`: set the counters and the current file; a non-empty error is also
      appended to `errors`. An unknown session matches no row and nothing changes. */
  function Update(t: Table, sessionId: string, processedFiles: int, currentFile: Option<string>,
                  error: Option<string>, now: int): (r: Table)
    ensures r.Keys == t.Keys
    ensures forall k :: k in t && k != sessionId ==> r[k] == t[k]
    ensures sessionId !in t ==> r == t
    ensures sessionId in t ==>
      var (old_, new_) := (t[sessionId], r[sessionId]);
      new_.processedFiles == processedFiles && new_.currentFile == currentFile && new_.updatedAt == now
      && new_.status == old_.status && new_.totalFiles == old_.totalFiles && new_.startedAt == old_.startedAt
      && new_.metadata == old_.metadata && new_.sessionId == old_.sessionId
      && new_.errors == old_.errors + (if HasError(error) then [error.value] else [])
  {
    if sessionId !in t then t
    else
      var row := t[sessionId];
      var errors := if HasError(error) then row.errors + [error.value] else row.errors;
      t[sessionId := row.(processedFiles := processedFiles, currentFile := currentFile,
                          updatedAt := now, errors := errors)]
  }

  /** `finish_ingestion`: set the status (whatever it was) and the update time only. */
  function Finish(t: Table, sessionId: string, status: string, now: int): (r: Table)
    ensures r.Keys == t.Keys
    ensures forall k :: k in t && k != sessionId ==> r[k] == t[k]
    ensures sessionId in t ==> r[sessionId] == t[sessionId].(status := status, updatedAt := now)
  {
    if sessionId in t then t[sessionId := t[sessionId].(status := status, updatedAt := now)] else t
  }

  /** `UPDATE ... SET status = 'ARCHIVED', current_file = 'Stopping gracefully...'` (Stop). */
  function Stop(t: Table, sessionId: string): (r: Table)
    ensures r.Keys == t.Keys
    ensures forall k :: k in t && k != sessionId ==> r[k] == t[k]
    ensures sessionId in t ==> r[sessionId] == t[sessionId].(status := Archived, currentFile := Some(StoppingNote))
  {
    if sessionId in t then t[sessionId := t[sessionId].(status := Archived, currentFile := Some(StoppingNote))] else t
  }

  /** `UPDATE ... SET status = 'ARCHIVED'` (Clear Completed Session). */
  function Archive(t: Table, sessionId: string): (r: Table)
    ensures r.Keys == t.Keys
    ensures forall k :: k in t && k != sessionId ==> r[k] == t[k]
    ensures sessionId in t ==> r[sessionId] == t[sessionId].(status := Archived)
  {
    if sessionId in t then t[sessionId := t[sessionId].(status := Archived)] else t
  }

  /** `jsonb_set(metadata, '{key}', value)` on one session's row. */
  function SetMetadata(t: Table, sessionId: string, key: string, value: Json): (r: Table)
    ensures r.Keys == t.Keys
    ensures forall k :: k in t && k != sessionId ==> r[k] == t[k]
    ensures sessionId in t ==> r[sessionId] == t[sessionId].(metadata := t[sessionId].metadata[key := value])
  {
    if sessionId in t then t[sessionId := t[sessionId].(metadata := t[sessionId].metadata[key := value])] else t
  }

  /** `get_progress`: the row, or None. The dictionary's `or {}` / `or []` defaults never
      apply, because every row is written with an object and an array. */
  function Progress(t: Table, sessionId: string): (r: Option<Row>)
    ensures r.Some? <==> sessionId in t
    ensures WellKeyed(t) && r.Some? ==> r.value.sessionId == sessionId
  {
    if sessionId in t then Some(t[sessionId]) else None
  }

  /** Right after `start_ingestion` the session reads back as RUNNING with nothing processed,
      no errors and the given total, whatever was stored under that id before. */
  lemma StartThenProgress(t: Table, sessionId: string, totalFiles: int, metadata: Option<map<string, Json>>, now: int)
    ensures var p := Progress(Start(t, sessionId, totalFiles, metadata, now), sessionId);
      p.Some? && p.value.status == Running && p.value.processedFiles == 0 && p.value.totalFiles == totalFiles
      && p.value.errors == [] && p.value.startedAt == now
  {
  }

  /** Progress updates accumulate errors: an error reported once stays, and the count of
      errors rises by one per non-empty error. */
  lemma {:induction false} ErrorsAccumulate(t: Table, sessionId: string, processed: int, current: Option<string>,
                                            e1: string, e2: string, now1: int, now2: int)
    requires sessionId in t && e1 != "" && e2 != ""
    ensures var t2 := Update(Update(t, sessionId, processed, current, Some(e1), now1), sessionId, processed + 1, current, Some(e2), now2);
      t2[sessionId].errors == t[sessionId].errors + [e1, e2]
  {
    var t1 := Update(t, sessionId, processed, current, Some(e1), now1);
    assert t1[sessionId].errors == t[sessionId].errors + [e1];
    var t2 := Update(t1, sessionId, processed + 1, current, Some(e2), now2);
    assert t2[sessionId].errors == t1[sessionId].errors + [e2];
  }

  /** Stopping a session ends it for the stop check: its status is one the worker treats as
      a stop request, and it no longer counts as RUNNING. */
  lemma StopEndsRunning(t: Table, sessionId: string)
    requires sessionId in t
    ensures Stop(t, sessionId)[sessionId].status in {Archived, Abandoned}
    ensures Stop(t, sessionId)[sessionId].status != Running
    ensures Archive(t, sessionId)[sessionId].status != Running
  {
  }

  function NegStartedAt(r: Row): int { -r.startedAt }

  predicate DistinctIds(r: seq<Row>) {
    forall i, j :: 0 <= i < j < |r| ==> r[i].sessionId != r[j].sessionId
  }

  lemma {:induction false} InsertKeepsDistinct(x: Row, r: seq<Row>)
    requires DistinctIds(r)
    requires forall i :: 0 <= i < |r| ==> r[i].sessionId != x.sessionId
    ensures DistinctIds(StableSort.Insert(x, r, NegStartedAt))
  {
    if r != [] && NegStartedAt(x) >= NegStartedAt(r[0]) {
      var tail := r[1..];
      assert DistinctIds(tail) by {
        forall i, j | 0 <= i < j < |tail| ensures tail[i].sessionId != tail[j].sessionId {
          assert tail[i] == r[i + 1] && tail[j] == r[j + 1];
        }
      }
      InsertKeepsDistinct(x, tail);
      var rest := StableSort.Insert(x, tail, NegStartedAt);
      StableSort.InsertMembers(x, tail, NegStartedAt);
      forall j | 0 <= j < |rest| ensures rest[j].sessionId != r[0].sessionId {
        assert rest[j] in rest;
        if rest[j] != x {
          var k :| 0 <= k < |tail| && tail[k] == rest[j];
          assert tail[k] == r[k + 1];
        }
      }
      var out := [r[0]] + rest;
      forall i, j | 0 <= i < j < |out| ensures out[i].sessionId != out[j].sessionId {
        if i > 0 { assert out[i] == rest[i - 1] && out[j] == rest[j - 1]; }
      }
    }
  }

  class Ledger {
    var rows: Table

    ghost predicate Valid()
      reads this
    {
      WellKeyed(rows)
    }

    constructor ()
      ensures Valid() && rows == map[]
    {
      rows := map[];
    }

    method StartIngestion(sessionId: string, totalFiles: int, metadata: Option<map<string, Json>>, now: int)
      requires Valid()
      modifies this
      ensures Valid() && rows == Start(old(rows), sessionId, totalFiles, metadata, now)
    {
      rows := Start(rows, sessionId, totalFiles, metadata, now);
    }

    method UpdateProgress(sessionId: string, processedFiles: int, currentFile: Option<string>, error: Option<string>, now: int)
      requires Valid()
      modifies this
      ensures Valid() && rows == Update(old(rows), sessionId, processedFiles, currentFile, error, now)
    {
      rows := Update(rows, sessionId, processedFiles, currentFile, error, now);
    }

    method FinishIngestion(sessionId: string, now: int, status: string := Completed)
      requires Valid()
      modifies this
      ensures Valid() && rows == Finish(old(rows), sessionId, status, now)
    {
      rows := Finish(rows, sessionId, status, now);
    }

    method RequestStop(sessionId: string)
      requires Valid()
      modifies this
      ensures Valid() && rows == Stop(old(rows), sessionId)
    {
      rows := Stop(rows, sessionId);
    }

    method ArchiveSession(sessionId: string)
      requires Valid()
      modifies this
      ensures Valid() && rows == Archive(old(rows), sessionId)
    {
      rows := Archive(rows, sessionId);
    }

    method SetMetadataKey(sessionId: string, key: string, value: Json)
      requires Valid()
      modifies this
      ensures Valid() && rows == SetMetadata(old(rows), sessionId, key, value)
    {
      rows := SetMetadata(rows, sessionId, key, value);
    }

    function GetProgress(sessionId: string): (r: Option<Row>)
      reads this
      requires Valid()
      ensures r.Some? <==> sessionId in rows
      ensures r.Some? ==> r.value == rows[sessionId] && r.value.sessionId == sessionId
    {
      Progress(rows, sessionId)
    }

    /** `get_all_active_sessions`: every RUNNING row exactly once, newest start first. */
    method GetAllActiveSessions() returns (r: seq<Row>)
      requires Valid()
      ensures forall i :: 0 <= i < |r| ==>
        r[i].sessionId in rows && rows[r[i].sessionId] == r[i] && r[i].status == Running
      ensures forall k :: k in rows && rows[k].status == Running ==>
        exists i :: 0 <= i < |r| && r[i].sessionId == k
      ensures DistinctIds(r)
      ensures forall i, j :: 0 <= i < j < |r| ==> r[i].startedAt >= r[j].startedAt
    {
      var todo := rows.Keys;
      r := [];
      while todo != {}
        invariant todo <= rows.Keys
        invariant forall i :: 0 <= i < |r| ==>
          r[i].sessionId in rows.Keys - todo && rows[r[i].sessionId] == r[i] && r[i].status == Running
        invariant forall k :: k in rows.Keys - todo && rows[k].status == Running ==>
          exists i :: 0 <= i < |r| && r[i].sessionId == k
        invariant DistinctIds(r)
        invariant StableSort.SortedBy(r, NegStartedAt)
        decreases |todo|
      {
        var k :| k in todo;
        if rows[k].status == Running {
          var x := rows[k];
          StableSort.InsertSorted(x, r, NegStartedAt);
          StableSort.InsertMembers(x, r, NegStartedAt);
          InsertKeepsDistinct(x, r);
          var r' := StableSort.Insert(x, r, NegStartedAt);
          forall i | 0 <= i < |r'|
            ensures r'[i].sessionId in rows.Keys - (todo - {k}) && rows[r'[i].sessionId] == r'[i] && r'[i].status == Running
          {
            assert r'[i] in r';
          }
          forall k2 | k2 in rows.Keys - (todo - {k}) && rows[k2].status == Running
            ensures exists i :: 0 <= i < |r'| && r'[i].sessionId == k2
          {
            if k2 == k {
              assert x in r';
            } else {
              var i :| 0 <= i < |r| && r[i].sessionId == k2;
              assert r[i] in r';
            }
          }
          r := r';
        }
        todo := todo - {k};
      }
    }
  }
}
