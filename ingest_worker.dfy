/** The background ingestion worker (ingestion/ingest_worker.py): its log file name, its stop
    check against the progress table, and the summary it writes back into the session's
    metadata. The candidate-by-candidate ingestion it drives is an input here: either the
    summary lines it returned or the error it raised. */
module IngestWorker {
  import opened Wrappers
  import opened Strings
  import opened Paths
  import opened Json
  import opened ProgressTracker

  // ---------------------------------------------------------------- log file name

  /** A wall-clock reading (the worker calls `datetime.now()`). */
  datatype DateTime = DateTime(year: nat, month: nat, day: nat, hour: nat, minute: nat, second: nat)

  predicate SaneClock(c: DateTime) {
    1000 <= c.year <= 9999 && 1 <= c.month <= 12 && 1 <= c.day <= 31
    && c.hour < 24 && c.minute < 60 && c.second < 60
  }

  lemma {:induction false} NatToStringLength(n: nat)
    ensures n < 10 ==> |NatToString(n)| == 1
    ensures 10 <= n < 100 ==> |NatToString(n)| == 2
    ensures 100 <= n < 1000 ==> |NatToString(n)| == 3
    ensures 1000 <= n < 10000 ==> |NatToString(n)| == 4
  {
    if n >= 10 {
      NatToStringLength(n / 10);
      assert |NatToString(n)| == |NatToString(n / 10)| + 1;
    }
  }

  /** A field printed with at least two digits, as `%m`, `%d`, `%H`, `%M`, `%S` do. */
  function Pad2(n: nat): (r: string)
    ensures n < 100 ==> |r| == 2
    ensures forall i :: 0 <= i < |r| ==> IsDigit(r[i])
  {
    NatToStringLength(n);
    if n < 10 then "0" + NatToString(n) else NatToString(n)
  }

  /** `strftime("%Y%m%d_%H%M%S")`. */
  function Timestamp(c: DateTime): string {
    NatToString(c.year) + Pad2(c.month) + Pad2(c.day) + "_" + Pad2(c.hour) + Pad2(c.minute) + Pad2(c.second)
  }

  /** For any clock reading of a four-digit year the stamp is fifteen characters: eight
      digits, an underscore, six digits (so log names sort by time). */
  lemma {:induction false} TimestampShape(c: DateTime)
    requires SaneClock(c)
    ensures var s := Timestamp(c);
      |s| == 15 && s[8] == '_' && forall i :: 0 <= i < 15 && i != 8 ==> IsDigit(s[i])
  {
    NatToStringLength(c.year);
    NatToStringLength(c.month);
    NatToStringLength(c.day);
    NatToStringLength(c.hour);
    NatToStringLength(c.minute);
    NatToStringLength(c.second);
    var y := NatToString(c.year);
    var s := Timestamp(c);
    assert s == y + Pad2(c.month) + Pad2(c.day) + "_" + Pad2(c.hour) + Pad2(c.minute) + Pad2(c.second);
    forall i | 0 <= i < 15 && i != 8 ensures IsDigit(s[i]) {
      if i < 4 { assert s[i] == y[i]; }
      else if i < 6 { assert s[i] == Pad2(c.month)[i - 4]; }
      else if i < 8 { assert s[i] == Pad2(c.day)[i - 6]; }
      else if i < 11 { assert s[i] == Pad2(c.hour)[i - 9]; }
      else if i < 13 { assert s[i] == Pad2(c.minute)[i - 11]; }
      else { assert s[i] == Pad2(c.second)[i - 13]; }
    }
  }

  const LogsDirName := "ingestion_logs"
  const WorkerFailed := "\U{274C} Worker process failed for session "
  const LogSaved := "\U{1F4C4} Detailed log saved to: "
  const StoppedGracefully := "\U{1F6D1} Ingestion stopped gracefully for session "
  const CompletedSuccessfully := "\U{2705} Ingestion completed successfully for session "
  const WorkerCompleted := "\n\U{2705} Worker process completed for session "
  const ProcessedPrefix := "\U{1F4CB} Processed "
  const SummaryTitle := "INGESTION SUMMARY"
  /** Widths of the `=` rules around the header and the summary. */
  const HeaderRule: nat := 80
  const SummaryRule: nat := 50

  /** `ingestion_log_{session_id[:8]}_{timestamp}.txt`. */
  function LogFileName(sessionId: string, timestamp: string): string {
    "ingestion_log_" + PyPrefix(sessionId, 8) + "_" + timestamp + ".txt"
  }

  /** The log file lives in `ingestion_logs` beside the root folder. */
  function LogFilePath(rootFolder: string, sessionId: string, timestamp: string): (p: string)
    ensures EndsWith(p, LogFileName(sessionId, timestamp))
    ensures StartsWith(p, PathJoin(DirName(rootFolder), LogsDirName))
  {
    var dir := PathJoin(DirName(rootFolder), LogsDirName);
    if dir == [] || EndsWith(dir, "/") then dir + LogFileName(sessionId, timestamp)
    else dir + "/" + LogFileName(sessionId, timestamp)
  }

  /** `LogFilePath` is `os.path.join(logs_dir, name)`, and the name carries at most the first
      eight characters of the session id. */
  lemma LogFilePathIsJoin(rootFolder: string, sessionId: string, timestamp: string)
    ensures LogFilePath(rootFolder, sessionId, timestamp)
         == PathJoin(PathJoin(DirName(rootFolder), LogsDirName), LogFileName(sessionId, timestamp))
    ensures |LogFileName(sessionId, timestamp)| <= 14 + 8 + 1 + |timestamp| + 4
  {
  }

  // ---------------------------------------------------------------- stop check

  /** What `check_should_stop`'s SELECT produced. */
  datatype StatusRead = ReadFailed(error: string) | NoRow | Found(status: string)

  function ReadStatus(t: Table, sessionId: string): StatusRead {
    if sessionId in t then Found(t[sessionId].status) else NoRow
  }

  /** True only for a row whose status is ABANDONED or ARCHIVED; a missing row and a failed
      query both mean "keep going". */
  function ShouldStop(read: StatusRead): (stop: bool)
    ensures stop ==> read.Found?
  {
    match read
    case Found(s) => s == Abandoned || s == Archived
    case _ => false
  }

  /** The line `check_should_stop` writes to the log, if any. */
  function StopCheckLog(read: StatusRead): (lines: seq<string>)
    ensures |lines| <= 1
    ensures ShouldStop(read) ==> lines == ["\U{1F6D1} Stop signal detected: status = " + read.status]
  {
    match read
    case Found(s) => if s == Abandoned || s == Archived then ["\U{1F6D1} Stop signal detected: status = " + s] else []
    case ReadFailed(e) => ["\U{26A0}\U{FE0F} Error checking stop signal: " + e]
    case NoRow => []
  }

  /** The stop button is seen by the next stop check, while a freshly (re)started session,
      a progress update, and an unknown session never signal a stop. */
  lemma StopIsObserved(t: Table, sessionId: string, n: int, m: Option<map<string, Json>>, now: int,
                       p: int, f: Option<string>, e: Option<string>)
    ensures sessionId in t ==> ShouldStop(ReadStatus(Stop(t, sessionId), sessionId))
    ensures sessionId in t ==> ShouldStop(ReadStatus(Archive(t, sessionId), sessionId))
    ensures !ShouldStop(ReadStatus(Start(t, sessionId, n, m, now), sessionId))
    ensures ShouldStop(ReadStatus(Update(t, sessionId, p, f, e, now), sessionId)) == ShouldStop(ReadStatus(t, sessionId))
    ensures sessionId !in t ==> !ShouldStop(ReadStatus(t, sessionId))
  {
  }

  // ---------------------------------------------------------------- write-back

  /** The two `jsonb_set` updates committed together: the summary lines, then the log path. */
  function WriteBack(t: Table, sessionId: string, summaryLogs: seq<string>, logFile: string): (r: Table)
    ensures r.Keys == t.Keys
    ensures forall k :: k in t && k != sessionId ==> r[k] == t[k]
  {
    SetMetadata(SetMetadata(t, sessionId, "summary_logs", StrArray(summaryLogs)), sessionId, "log_file_path", Str(logFile))
  }

  /** After the write-back the session's metadata holds both keys, keeps every other key it
      had, and nothing else in the row (status, counters, errors) moves. */
  lemma WriteBackEffect(t: Table, sessionId: string, summaryLogs: seq<string>, logFile: string)
    requires sessionId in t
    ensures var row := WriteBack(t, sessionId, summaryLogs, logFile)[sessionId];
      row.metadata["summary_logs"] == StrArray(summaryLogs)
      && row.metadata["log_file_path"] == Str(logFile)
      && (forall k :: k in t[sessionId].metadata && k != "summary_logs" && k != "log_file_path" ==>
            k in row.metadata && row.metadata[k] == t[sessionId].metadata[k])
      && row.metadata.Keys == t[sessionId].metadata.Keys + {"summary_logs", "log_file_path"}
      && row == t[sessionId].(metadata := row.metadata)
  {
  }

  // ---------------------------------------------------------------- the worker

  function Repeat(c: char, n: nat): (r: string)
    ensures |r| == n && forall i :: 0 <= i < n ==> r[i] == c
  {
    if n == 0 then "" else Repeat(c, n - 1) + [c]
  }

  /** Lines of either part of a concatenation are lines of the whole. */
  lemma AppendedMembers(a: seq<string>, b: seq<string>)
    ensures forall x :: x in a ==> x in a + b
    ensures forall x :: x in b ==> x in a + b
  {
    forall x | x in b ensures x in a + b {
      var i :| 0 <= i < |b| && b[i] == x;
      assert (a + b)[|a| + i] == x;
    }
  }

  function Header(sessionId: string, rootFolder: string, maxWorkers: int, logFile: string): seq<string> {
    [Repeat('=', HeaderRule),
     "INGESTION SESSION: " + sessionId,
     "ROOT FOLDER: " + rootFolder,
     "MAX WORKERS: " + IntToString(maxWorkers),
     "LOG FILE: " + logFile,
     Repeat('=', HeaderRule)]
  }

  /** The part of `run_ingestion_worker` after a successful ingestion: the stop check's
      lines, the summary, and the summary stored in the session's metadata unless the
      store fails. */
  method Summarize(ledger: Ledger, sessionId: string, summaryLogs: seq<string>, read: StatusRead,
                   storeError: Option<string>, logFile: string)
    returns (tail: seq<string>, raised: Option<string>)
    requires ledger.Valid()
    modifies ledger
    ensures ledger.Valid() && raised == storeError
    ensures ledger.rows == if raised.None? then WriteBack(old(ledger.rows), sessionId, summaryLogs, logFile)
      else old(ledger.rows)
    ensures |tail| > |StopCheckLog(read)| && tail[..|StopCheckLog(read)|] == StopCheckLog(read)
    ensures tail[|StopCheckLog(read)|] == (if ShouldStop(read) then StoppedGracefully else CompletedSuccessfully) + sessionId
    ensures forall line :: line in summaryLogs ==> line in tail
    ensures raised.None? ==> tail[|tail| - 1] == LogSaved + logFile
  {
    tail := StopCheckLog(read);
    ghost var checked := tail;
    if ShouldStop(read) {
      tail := tail + [StoppedGracefully + sessionId];
    } else {
      tail := tail + [CompletedSuccessfully + sessionId];
    }
    tail := tail + ["\n" + Repeat('=', SummaryRule), SummaryTitle, Repeat('=', SummaryRule)];
    ghost var before := tail;
    tail := tail + summaryLogs;
    AppendedMembers(before, summaryLogs);
    if storeError.Some? {
      raised := storeError;
    } else {
      ledger.SetMetadataKey(sessionId, "summary_logs", StrArray(summaryLogs));
      ledger.SetMetadataKey(sessionId, "log_file_path", Str(logFile));
      ghost var mid := tail;
      tail := tail + [WorkerCompleted + sessionId,
                      ProcessedPrefix + NatToString(|summaryLogs|) + " items",
                      LogSaved + logFile];
      AppendedMembers(mid, tail[|mid|..]);
      assert tail == mid + tail[|mid|..];
      raised := None;
    }
    assert tail[..|checked|] == checked;
  }

  /** `run_ingestion_worker`. `ingest` is what the stoppable candidate ingestion returned or
      raised; `stopReadError` and `storeError` make the stop query or the summary store fail;
      `traceback` stands for `traceback.format_exc()`. Returns the log-file lines (without
      their time prefix) and the exception re-raised, if any. */
  method RunIngestionWorker(ledger: Ledger, rootFolder: string, sessionId: string, maxWorkers: int,
                            clock: DateTime, ingest: Result<seq<string>>, stopReadError: Option<string>,
                            storeError: Option<string>, traceback: string)
    returns (log: seq<string>, raised: Option<string>)
    requires ledger.Valid()
    modifies ledger
    ensures ledger.Valid()
    ensures raised.Some? <==> ingest.Err? || storeError.Some?
    ensures ingest.Err? ==> raised == Some(ingest.error)
    ensures ledger.rows == if raised.None?
      then WriteBack(old(ledger.rows), sessionId, ingest.value, LogFilePath(rootFolder, sessionId, Timestamp(clock)))
      else old(ledger.rows)
    ensures |log| >= 6 && log[..6] == Header(sessionId, rootFolder, maxWorkers, LogFilePath(rootFolder, sessionId, Timestamp(clock)))
    ensures raised.Some? ==>
      log[|log| - 1] == traceback && log[|log| - 2] == WorkerFailed + sessionId + ": " + raised.value
    ensures ingest.Ok? ==> forall line :: line in ingest.value ==> line in log
    ensures raised.None? ==>
      log[|log| - 1] == LogSaved + LogFilePath(rootFolder, sessionId, Timestamp(clock))
  {
    var logFile := LogFilePath(rootFolder, sessionId, Timestamp(clock));
    var header := Header(sessionId, rootFolder, maxWorkers, logFile);
    log, raised := RunLogged(ledger, sessionId, header, logFile, ingest, stopReadError, storeError, traceback);
  }

  /** The worker once its log file is named and its header written. */
  method RunLogged(ledger: Ledger, sessionId: string, header: seq<string>, logFile: string,
                   ingest: Result<seq<string>>, stopReadError: Option<string>,
                   storeError: Option<string>, traceback: string)
    returns (log: seq<string>, raised: Option<string>)
    requires ledger.Valid()
    modifies ledger
    ensures ledger.Valid()
    ensures raised.Some? <==> ingest.Err? || storeError.Some?
    ensures ingest.Err? ==> raised == Some(ingest.error)
    ensures ledger.rows == if raised.None? then WriteBack(old(ledger.rows), sessionId, ingest.value, logFile)
      else old(ledger.rows)
    ensures |log| >= |header| && log[..|header|] == header
    ensures raised.Some? ==>
      |log| >= |header| + 2 && log[|log| - 1] == traceback && log[|log| - 2] == WorkerFailed + sessionId + ": " + raised.value
    ensures ingest.Ok? ==> forall line :: line in ingest.value ==> line in log
    ensures raised.None? ==> |log| > |header| && log[|log| - 1] == LogSaved + logFile
  {
    var tail: seq<string> := [];
    if ingest.Err? {
      raised := Some(ingest.error);
    } else {
      var read := if stopReadError.Some? then ReadFailed(stopReadError.value) else ReadStatus(ledger.rows, sessionId);
      tail, raised := Summarize(ledger, sessionId, ingest.value, read, storeError, logFile);
    }
    if raised.Some? {
      ghost var mid := tail;
      tail := tail + [WorkerFailed + sessionId + ": " + raised.value, traceback];
      assert tail == mid + tail[|mid|..];
    }
    log := header + tail;
    assert log[..|header|] == header;
    AppendedMembers(header, tail);
  }
}
