/** ingestion/ingest_all.py: one candidate folder split into its metadata ("mikomiko") and
    normal resumes, and the loop that collects every candidate's summary lines as the
    workers finish. The directory listings, the two ingest phases and the order in which
    the workers complete are inputs. */
module IngestAll {
  import opened Wrappers
  import opened Strings

  const NoCandidates := "\U{26A0}\U{FE0F} No candidates found in the folder."

  /** `f.lower().endswith((".pdf", ".docx"))`. */
  predicate IsResumeFile(name: string) {
    EndsWith(Lower(name), ".pdf") || EndsWith(Lower(name), ".docx")
  }

  /** `"mikomiko" in os.path.basename(f).lower()`, on a directory entry's name. */
  predicate IsMikomiko(name: string) {
    Contains(Lower(name), "mikomiko")
  }

  function ResumeFiles(entries: seq<string>): (files: seq<string>)
    ensures forall f :: f in files <==> f in entries && IsResumeFile(f)
    ensures |files| <= |entries|
  {
    if entries == [] then []
    else (if IsResumeFile(entries[0]) then [entries[0]] else []) + ResumeFiles(entries[1..])
  }

  /** The files of `files` on one side of the split, in listing order. */
  function Side(files: seq<string>, mikomiko: bool): (r: seq<string>)
    ensures forall f :: f in r <==> f in files && IsMikomiko(f) == mikomiko
  {
    if files == [] then []
    else (if IsMikomiko(files[|files| - 1]) == mikomiko then Side(files[..|files| - 1], mikomiko) + [files[|files| - 1]]
          else Side(files[..|files| - 1], mikomiko))
  }

  /** The split is a partition: each file lands on exactly one side, none is lost. */
  lemma {:induction false} SplitIsPartition(files: seq<string>)
    ensures multiset(Side(files, true)) + multiset(Side(files, false)) == multiset(files)
    ensures |Side(files, true)| + |Side(files, false)| == |files|
  {
    if files != [] {
      var init := files[..|files| - 1];
      SplitIsPartition(init);
      assert files == init + [files[|files| - 1]];
    }
  }

  /** A candidate folder: missing, or the names it lists. */
  datatype Folder = Missing | Listing(entries: seq<string>)

  /** What an ingest phase did: raised, or returned a list of summary lines or None. */
  datatype Phase = Raised(error: string) | Returned(summary: Option<seq<string>>)

  /** `summary_logs.append(summary[0])`: indexing None or an empty list raises. */
  function FirstLine(p: Phase): (r: Result<string>)
    ensures r.Ok? <==> p.Returned? && p.summary.Some? && p.summary.value != []
    ensures r.Ok? ==> r.value == p.summary.value[0]
  {
    match p
    case Raised(e) => Err(e)
    case Returned(None) => Err("'NoneType' object is not subscriptable")
    case Returned(Some(s)) => if s == [] then Err("list index out of range") else Ok(s[0])
  }

  /** The summary lines `process_candidate` returns, or the error it raises. */
  function CandidateLines(folder: Folder, metadataPhase: Phase, normalPhase: Phase): Result<seq<string>> {
    if folder.Missing? then Ok([])
    else
      var files := ResumeFiles(folder.entries);
      if files == [] then Ok([])
      else
        var first :=
          if Side(files, true) == [] then Ok([])
          else match FirstLine(metadataPhase)
            case Err(e) => Err(e)
            case Ok(l) => Ok([l]);
        if first.Err? then first
        else if Side(files, false) == [] then first
        else match FirstLine(normalPhase)
          case Err(e) => Err(e)
          case Ok(l) => Ok(first.value + [l])
  }

  /** `process_candidate`: list the resume files, split them, run each non-empty side's
      phase and keep the first line of its summary. */
  method ProcessCandidate(folder: Folder, metadataPhase: Phase, normalPhase: Phase)
    returns (r: Result<seq<string>>)
    ensures r == CandidateLines(folder, metadataPhase, normalPhase)
  {
    if folder.Missing? {
      return Ok([]);
    }
    var files := ResumeFiles(folder.entries);
    if files == [] {
      return Ok([]);
    }
    var mik: seq<string> := [];
    var normal: seq<string> := [];
    var i := 0;
    while i < |files|
      invariant 0 <= i <= |files|
      invariant mik == Side(files[..i], true) && normal == Side(files[..i], false)
    {
      assert files[..i + 1][..i] == files[..i];
      if IsMikomiko(files[i]) {
        mik := mik + [files[i]];
      } else {
        normal := normal + [files[i]];
      }
      i := i + 1;
    }
    assert files[..i] == files;
    assert mik == Side(files, true) && normal == Side(files, false);
    var logs: seq<string> := [];
    if mik != [] {
      var line := FirstLine(metadataPhase);
      if line.Err? {
        return Err(line.error);
      }
      assert logs + [line.value] == [line.value];
      logs := logs + [line.value];
    }
    if normal != [] {
      var line := FirstLine(normalPhase);
      if line.Err? {
        return Err(line.error);
      }
      logs := logs + [line.value];
    }
    return Ok(logs);
  }

  /** A missing folder or one without resume files yields no lines; otherwise at most one
      line per phase, the metadata phase's first. */
  lemma CandidateLinesShape(folder: Folder, metadataPhase: Phase, normalPhase: Phase)
    ensures folder.Missing? || ResumeFiles(folder.entries) == [] ==> CandidateLines(folder, metadataPhase, normalPhase) == Ok([])
    ensures var r := CandidateLines(folder, metadataPhase, normalPhase);
      r.Ok? ==> |r.value| <= 2
    ensures (folder.Listing? && Side(ResumeFiles(folder.entries), true) != [] && Side(ResumeFiles(folder.entries), false) != []
      && CandidateLines(folder, metadataPhase, normalPhase).Ok?) ==>
        CandidateLines(folder, metadataPhase, normalPhase).value
        == [metadataPhase.summary.value[0], normalPhase.summary.value[0]]
  {
  }

  /** The normal phase returning None (no pdf to read) makes `process_candidate` raise. */
  lemma NormalNoneRaises(folder: Folder, metadataPhase: Phase)
    requires folder.Listing? && Side(ResumeFiles(folder.entries), false) != []
    ensures CandidateLines(folder, metadataPhase, Returned(None)).Err?
  {
    var files := ResumeFiles(folder.entries);
    assert files != [] by { assert Side(files, false)[0] in files; }
  }

  // ================================================================ ingest_all_candidates

  /** The order the workers finish in: each candidate exactly once. */
  predicate IsCompletionOrder(order: seq<nat>, n: nat) {
    |order| == n && (forall k :: 0 <= k < |order| ==> order[k] < n) && multiset(order) == multiset(Range(n))
  }

  /** A completion order names every candidate. */
  lemma CompletionOrderCovers(order: seq<nat>, n: nat)
    requires IsCompletionOrder(order, n)
    ensures forall c :: 0 <= c < n ==> c in order
  {
    forall c | 0 <= c < n ensures c in order {
      assert Range(n)[c] == c;
      assert c in multiset(Range(n));
    }
  }

  /** The lines collected when candidates complete in `order`: a failed candidate adds
      nothing, a successful one its whole list. */
  function Collected(outcomes: seq<Result<seq<string>>>, order: seq<nat>): seq<string>
    requires forall k :: 0 <= k < |order| ==> order[k] < |outcomes|
  {
    if order == [] then []
    else
      var o := outcomes[order[|order| - 1]];
      Collected(outcomes, order[..|order| - 1]) + (if o.Ok? then o.value else [])
  }

  /** The progress callback's arguments: (completed, total, candidate). */
  datatype Tick = Tick(completed: nat, total: nat, candidate: string)

  /** `ingest_all_candidates`: `Err` for a root that is not a directory, the warning for no
      candidates, else the lines in completion order with one callback per candidate. */
  method IngestAllCandidates(rootIsDir: bool, candidates: seq<string>, outcomes: seq<Result<seq<string>>>,
                             order: seq<nat>, hasCallback: bool)
    returns (r: Result<seq<string>>, ticks: seq<Tick>)
    requires |outcomes| == |candidates| && IsCompletionOrder(order, |candidates|)
    ensures !rootIsDir ==> r.Err? && ticks == []
    ensures rootIsDir && candidates == [] ==> r == Ok([NoCandidates]) && ticks == []
    ensures rootIsDir && candidates != [] ==> r == Ok(Collected(outcomes, order))
    ensures rootIsDir && candidates != [] && hasCallback ==>
      |ticks| == |candidates|
      && forall k :: 0 <= k < |ticks| ==> ticks[k] == Tick(k + 1, |candidates|, candidates[order[k]])
    ensures !hasCallback ==> ticks == []
  {
    ticks := [];
    if !rootIsDir {
      return Err("is not a directory"), ticks;
    }
    var total := |candidates|;
    if total == 0 {
      return Ok([NoCandidates]), ticks;
    }
    var logs: seq<string> := [];
    var completed := 0;
    while completed < |order|
      invariant 0 <= completed <= |order|
      invariant logs == Collected(outcomes, order[..completed])
      invariant hasCallback ==>
        (|ticks| == completed && forall k :: 0 <= k < completed ==> ticks[k] == Tick(k + 1, total, candidates[order[k]]))
      invariant !hasCallback ==> ticks == []
    {
      var person := candidates[order[completed]];
      var result := outcomes[order[completed]];
      assert order[..completed + 1][..completed] == order[..completed];
      if result.Ok? {
        logs := logs + result.value;
      }
      completed := completed + 1;
      if hasCallback {
        ticks := ticks + [Tick(completed, total, person)];
      }
    }
    assert order[..completed] == order;
    return Ok(logs), ticks;
  }

  /** The callback's counter runs 1, 2, ..., total: once per candidate, success or not. */
  lemma TicksCountUp(ticks: seq<Tick>, candidates: seq<string>, order: seq<nat>)
    requires IsCompletionOrder(order, |candidates|) && |ticks| == |candidates|
    requires forall k :: 0 <= k < |ticks| ==> ticks[k] == Tick(k + 1, |candidates|, candidates[order[k]])
    ensures forall k, l :: 0 <= k < l < |ticks| ==> ticks[k].completed < ticks[l].completed
    ensures |ticks| > 0 ==> ticks[|ticks| - 1].completed == ticks[|ticks| - 1].total
    ensures forall c :: 0 <= c < |candidates| ==> exists k :: 0 <= k < |ticks| && ticks[k].candidate == candidates[c]
  {
    CompletionOrderCovers(order, |candidates|);
    forall c | 0 <= c < |candidates|
      ensures exists k :: 0 <= k < |ticks| && ticks[k].candidate == candidates[c]
    {
      assert c in order;
      var k :| 0 <= k < |order| && order[k] == c;
      assert ticks[k].candidate == candidates[c];
    }
  }

  /** Collecting two batches one after the other is collecting their concatenation. */
  lemma {:induction false} CollectedConcat(outcomes: seq<Result<seq<string>>>, a: seq<nat>, b: seq<nat>)
    requires forall k :: 0 <= k < |a| ==> a[k] < |outcomes|
    requires forall k :: 0 <= k < |b| ==> b[k] < |outcomes|
    ensures Collected(outcomes, a + b) == Collected(outcomes, a) + Collected(outcomes, b)
    decreases |b|
  {
    if b == [] {
      assert a + b == a;
    } else {
      var binit := b[..|b| - 1];
      CollectedConcat(outcomes, a, binit);
      assert (a + b)[..|a + b| - 1] == a + binit;
    }
  }

  /** The lines one candidate adds. */
  function LinesOf(o: Result<seq<string>>): seq<string> {
    if o.Ok? then o.value else []
  }

  /** Taking the candidate at position `j` out of an order takes its lines out. */
  lemma CollectedRemoveAt(outcomes: seq<Result<seq<string>>>, b: seq<nat>, j: nat)
    requires forall k :: 0 <= k < |b| ==> b[k] < |outcomes|
    requires j < |b|
    ensures multiset(Collected(outcomes, b))
      == multiset(Collected(outcomes, b[..j] + b[j + 1..])) + multiset(LinesOf(outcomes[b[j]]))
  {
    var p, x, q := b[..j], b[j], b[j + 1..];
    var px := p + [x];
    assert b == px + q;
    CollectedConcat(outcomes, px, q);
    assert px[..|px| - 1] == p;
    assert Collected(outcomes, px) == Collected(outcomes, p) + LinesOf(outcomes[x]);
    CollectedConcat(outcomes, p, q);
    var cp, cx, cq := Collected(outcomes, p), LinesOf(outcomes[x]), Collected(outcomes, q);
    assert multiset((cp + cx) + cq) == multiset(cp + cq) + multiset(cx);
  }

  /** Removing one occurrence of `x` from two orders with the same multiset keeps them equal. */
  lemma MultisetRemove(a: seq<nat>, b: seq<nat>, j: nat)
    requires a != [] && j < |b| && b[j] == a[|a| - 1] && multiset(a) == multiset(b)
    ensures multiset(a[..|a| - 1]) == multiset(b[..j] + b[j + 1..])
  {
    var x := b[j];
    assert a == a[..|a| - 1] + [x];
    assert b == b[..j] + [x] + b[j + 1..];
    assert multiset(b) == multiset(b[..j] + b[j + 1..]) + multiset{x};
    assert multiset(a) == multiset(a[..|a| - 1]) + multiset{x};
    assert multiset(a[..|a| - 1]) == multiset(a) - multiset{x};
    assert multiset(b[..j] + b[j + 1..]) == multiset(b) - multiset{x};
  }

  /** Thread scheduling changes only the order of the collected lines: any two orders
      holding the same candidates collect the same multiset of lines. */
  lemma {:induction false} CollectedOrderIndependent(outcomes: seq<Result<seq<string>>>, a: seq<nat>, b: seq<nat>)
    requires forall k :: 0 <= k < |a| ==> a[k] < |outcomes|
    requires forall k :: 0 <= k < |b| ==> b[k] < |outcomes|
    requires multiset(a) == multiset(b)
    ensures multiset(Collected(outcomes, a)) == multiset(Collected(outcomes, b))
    decreases |a|
  {
    if a != [] {
      var x := a[|a| - 1];
      assert x in multiset(b) by { assert x in multiset(a); }
      var j :| 0 <= j < |b| && b[j] == x;
      var rest := b[..j] + b[j + 1..];
      MultisetRemove(a, b, j);
      CollectedOrderIndependent(outcomes, a[..|a| - 1], rest);
      CollectedRemoveAt(outcomes, b, j);
      assert Collected(outcomes, a) == Collected(outcomes, a[..|a| - 1]) + LinesOf(outcomes[x]);
    } else {
      assert |b| == |multiset(b)|;
    }
  }
}
