/** backend/helpers.py: the file-name matcher used to read back the model's ranking, the
    merge of a comparative ranking into the first-round judgments, the candidate-key check
    of an e-mail request, and the final ordering of skill-match results. Model replies and
    `json.loads` are inputs. */
module BackendHelpers {
  import opened Wrappers
  import opened Strings
  import opened Json
  import StableSort
  import IngestPg

  // ================================================================ find_best_match

  /** `s.lower().replace(' ', '').replace('-', '').replace('_', '')`. */
  function Clean(s: string): string {
    ReplaceAll(ReplaceAll(ReplaceAll(Lower(s), " ", ""), "-", ""), "_", "")
  }

  /** `set(s.lower().replace(' ', ''))`. */
  function CharSet(s: string): set<char> {
    var t := ReplaceAll(Lower(s), " ", "");
    set i | 0 <= i < |t| :: t[i]
  }

  /** `|A & B| / |A | B| > 0.8` (0 when the union is empty), compared exactly. */
  predicate Similar(a: string, b: string) {
    var A := CharSet(a);
    var B := CharSet(b);
    5 * |A * B| > 4 * |A + B|
  }

  /** The four tests of the cascade, by level: exact, case-insensitive, equal once
      lower-cased without spaces, hyphens and underscores, and character-set similarity. */
  predicate MatchesAt(level: nat, returned: string, f: string) {
    if level == 1 then f == returned
    else if level == 2 then Lower(f) == Lower(returned)
    else if level == 3 then Clean(f) == Clean(returned)
    else if level == 4 then Similar(returned, f)
    else false
  }

  /** The first file matching at `level`, or `|files|`. */
  function FirstMatch(level: nat, returned: string, files: seq<string>): (k: nat)
    ensures k <= |files| && (k < |files| ==> MatchesAt(level, returned, files[k]))
    ensures forall j :: 0 <= j < k ==> !MatchesAt(level, returned, files[j])
  {
    if files == [] then 0
    else if MatchesAt(level, returned, files[0]) then 0
    else
      var k := FirstMatch(level, returned, files[1..]);
      assert forall j :: 1 <= j < |files| ==> files[j] == files[1..][j - 1];
      1 + k
  }

  /** The earliest level with a hit, or 5. */
  function Level(returned: string, files: seq<string>): (l: nat)
    ensures 1 <= l <= 5
  {
    if FirstMatch(1, returned, files) < |files| then 1
    else if FirstMatch(2, returned, files) < |files| then 2
    else if FirstMatch(3, returned, files) < |files| then 3
    else if FirstMatch(4, returned, files) < |files| then 4
    else 5
  }

  /** The cascade's answer: at the earliest level with a hit, the first file hit. */
  function BestMatch(returned: string, files: seq<string>): Option<string> {
    var l := Level(returned, files);
    if l == 5 then None else Some(files[FirstMatch(l, returned, files)])
  }

  /** The result is None or one of the files; None exactly when no file matches at any
      level; otherwise it matches at the earliest level with a hit, and no file matches at
      an earlier level. */
  lemma BestMatchFacts(returned: string, files: seq<string>)
    ensures BestMatch(returned, files).Some? ==> BestMatch(returned, files).value in files
    ensures BestMatch(returned, files).None? <==>
      forall l, f :: 1 <= l <= 4 && f in files ==> !MatchesAt(l, returned, f)
    ensures var l := Level(returned, files);
      l <= 4 ==> (MatchesAt(l, returned, BestMatch(returned, files).value)
        && forall l', f :: 1 <= l' < l && f in files ==> !MatchesAt(l', returned, f))
  {
    var l := Level(returned, files);
    if l == 5 {
      forall l', f | 1 <= l' <= 4 && f in files ensures !MatchesAt(l', returned, f) {
        var j :| 0 <= j < |files| && files[j] == f;
        assert FirstMatch(l', returned, files) == |files|;
      }
    } else {
      forall l', f | 1 <= l' < l && f in files ensures !MatchesAt(l', returned, f) {
        var j :| 0 <= j < |files| && files[j] == f;
        assert FirstMatch(l', returned, files) == |files|;
      }
      var k := FirstMatch(l, returned, files);
      assert MatchesAt(l, returned, files[k]);
    }
  }

  /** The first three levels are nested: each catches at least what the one before it
      does. */
  lemma LevelsNested(returned: string, f: string)
    ensures MatchesAt(1, returned, f) ==> MatchesAt(2, returned, f)
    ensures MatchesAt(2, returned, f) ==> MatchesAt(3, returned, f)
  {
  }

  /** An exactly listed name comes back as itself. */
  lemma ExactWins(returned: string, files: seq<string>)
    requires returned in files
    ensures BestMatch(returned, files) == Some(returned)
  {
    var j :| 0 <= j < |files| && files[j] == returned;
    assert FirstMatch(1, returned, files) <= j;
  }

  /** The similarity test is symmetric, and every name with a non-space character is
      similar to itself. */
  lemma SimilarFacts(a: string, b: string)
    ensures Similar(a, b) <==> Similar(b, a)
    ensures CharSet(a) != {} ==> Similar(a, a)
  {
    assert CharSet(a) * CharSet(b) == CharSet(b) * CharSet(a);
    assert CharSet(a) + CharSet(b) == CharSet(b) + CharSet(a);
    assert CharSet(a) * CharSet(a) == CharSet(a) && CharSet(a) + CharSet(a) == CharSet(a);
  }

  /** One level of the cascade as the source writes it: a scan returning the first hit. */
  method ScanLevel(level: nat, returned: string, files: seq<string>) returns (k: nat)
    ensures k == FirstMatch(level, returned, files)
  {
    k := 0;
    while k < |files|
      invariant k <= |files| && forall j :: 0 <= j < k ==> !MatchesAt(level, returned, files[j])
    {
      if MatchesAt(level, returned, files[k]) {
        FirstIsUnique(level, returned, files, k);
        return;
      }
      k := k + 1;
    }
    FirstIsUnique(level, returned, files, k);
  }

  /** The first hit is determined by the scan's two facts. */
  lemma FirstIsUnique(level: nat, returned: string, files: seq<string>, k: nat)
    requires k <= |files| && (k < |files| ==> MatchesAt(level, returned, files[k]))
    requires forall j :: 0 <= j < k ==> !MatchesAt(level, returned, files[j])
    ensures k == FirstMatch(level, returned, files)
  {
  }

  /** `find_best_match`: the four scans in order, returning the first hit. */
  method FindBestMatch(returned: string, files: seq<string>) returns (r: Option<string>)
    ensures r == BestMatch(returned, files)
  {
    if returned in files {
      ExactWins(returned, files);
      return Some(returned);
    }
    assert FirstMatch(1, returned, files) == |files|;
    var level := 2;
    while level <= 4
      invariant 2 <= level <= 5
      invariant forall l :: 1 <= l < level ==> FirstMatch(l, returned, files) == |files|
    {
      var k := ScanLevel(level, returned, files);
      if k < |files| {
        return Some(files[k]);
      }
      level := level + 1;
    }
    r := None;
  }

  // ================================================================ _comparative_reranking

  /** One item of a results dict: the file name and its judgment. */
  datatype Entry = Entry(filename: string, data: map<string, Json>)

  function Names(rs: seq<Entry>): (ns: seq<string>)
    ensures |ns| == |rs| && forall i :: 0 <= i < |rs| ==> ns[i] == rs[i].filename
  {
    if rs == [] then [] else [rs[0].filename] + Names(rs[1..])
  }

  /** A dict has each key once. */
  predicate Distinct(rs: seq<Entry>) {
    forall i, j :: 0 <= i < j < |rs| ==> rs[i].filename != rs[j].filename
  }

  /** The position of `name`, or `|rs|`. */
  function Find(rs: seq<Entry>, name: string): (k: nat)
    ensures k <= |rs| && (k < |rs| ==> rs[k].filename == name)
    ensures forall i :: 0 <= i < k ==> rs[i].filename != name
  {
    if rs == [] then 0
    else if rs[0].filename == name then 0
    else
      var k := Find(rs[1..], name);
      assert forall i :: 1 <= i < |rs| ==> rs[i] == rs[1..][i - 1];
      1 + k
  }

  /** `d[name] = data` on an insertion-ordered dict: replaced in place when present,
      appended otherwise. */
  function Put(rs: seq<Entry>, name: string, data: map<string, Json>): (r: seq<Entry>)
    ensures var k := Find(rs, name);
      r == if k < |rs| then rs[k := Entry(name, data)] else rs + [Entry(name, data)]
  {
    var k := Find(rs, name);
    if k < |rs| then rs[k := Entry(name, data)] else rs + [Entry(name, data)]
  }

  lemma PutFacts(rs: seq<Entry>, name: string, data: map<string, Json>)
    requires Distinct(rs)
    ensures Distinct(Put(rs, name, data))
    ensures forall n :: n in Names(Put(rs, name, data)) <==> n in Names(rs) || n == name
    ensures forall e :: e in Put(rs, name, data) ==> e in rs || e == Entry(name, data)
  {
    var r := Put(rs, name, data);
    forall n | n in Names(rs) || n == name ensures n in Names(r) {
      if n == name {
        var k := Find(rs, name);
        if k < |rs| { assert Names(r)[k] == n; } else { assert Names(r)[|rs|] == n; }
      } else {
        var i :| 0 <= i < |rs| && Names(rs)[i] == n;
        assert Names(r)[i] == n;
      }
    }
  }

  const SummaryField := "summary_txt"
  const RankField := "rank_position"
  const ReasonField := "ranking_reasoning"

  /** `data.pop("summary_txt", None)` on a copy. */
  function DropSummary(d: map<string, Json>): (r: map<string, Json>)
    ensures SummaryField !in r
    ensures forall k :: k in r <==> k in d && k != SummaryField
    ensures forall k :: k in r ==> r[k] == d[k]
  {
    d - {SummaryField}
  }

  /** A copy of the judgment with a rank and a ranking reason and without the summary
      text; every other field is kept. */
  function Ranked(d: map<string, Json>, rank: Json, reason: Json): (r: map<string, Json>)
    ensures SummaryField !in r
    ensures RankField in r && r[RankField] == rank && ReasonField in r && r[ReasonField] == reason
    ensures forall k :: k in d && k != SummaryField && k != RankField && k != ReasonField ==> k in r && r[k] == d[k]
  {
    assert SummaryField != RankField && SummaryField != ReasonField;
    DropSummary(d)[RankField := rank][ReasonField := reason]
  }

  const NotRanked := "Not included in comparative ranking"
  const FallbackReason := "Fallback ranking due to analysis error"

  /** A single candidate: rank 1, summary text removed. */
  function SingleRanks(initial: seq<Entry>): (r: seq<Entry>)
    ensures |r| == |initial| && forall i :: 0 <= i < |r| ==>
      r[i].filename == initial[i].filename && SummaryField !in r[i].data
      && RankField in r[i].data && r[i].data[RankField] == Num(1)
  {
    assert SummaryField != RankField;
    if initial == [] then []
    else [Entry(initial[0].filename, DropSummary(initial[0].data[RankField := Num(1)]))] + SingleRanks(initial[1..])
  }

  /** The fallback: ranks 1..n in the dict's order. */
  function FallbackFrom(initial: seq<Entry>, i: nat): (r: seq<Entry>)
    requires i <= |initial|
    ensures |r| == |initial| - i && forall j :: 0 <= j < |r| ==>
      r[j] == Entry(initial[i + j].filename, Ranked(initial[i + j].data, Num(i + j + 1), Str(FallbackReason)))
    decreases |initial| - i
  {
    if i == |initial| then []
    else [Entry(initial[i].filename, Ranked(initial[i].data, Num(i + 1), Str(FallbackReason)))] + FallbackFrom(initial, i + 1)
  }

  /** Iterating a decoded `rankings` value after taking its `len`: a list gives its items;
      an empty object or string gives nothing; a non-empty one gives strings, whose
      indexing by "filename" raises, as do `len` and iteration of anything else. */
  function Items(j: Json): Result<seq<Json>> {
    match j
    case Arr(items) => Ok(items)
    case Obj(m) => if m == map[] then Ok([]) else Err("TypeError")
    case Str(s) => if s == "" then Ok([]) else Err("TypeError")
    case _ => Err("TypeError")
  }

  /** `initial_results[name]`. */
  function DataOf(initial: seq<Entry>, name: string): map<string, Json> {
    var k := Find(initial, name);
    if k < |initial| then initial[k].data else map[]
  }

  /** One ranking entry merged into `final`: a non-object entry or a missing key raises,
      a non-string file name raises in the matcher, an unmatched (or empty, hence falsy)
      match is skipped, and a match is stored under the matched name. */
  function ApplyOne(initial: seq<Entry>, final: seq<Entry>, rd: Json): Result<seq<Entry>> {
    if !rd.Obj? then Err("TypeError")
    else if "filename" !in rd.fields then Err("KeyError")
    else if !rd.fields["filename"].Str? then Err("AttributeError")
    else match BestMatch(rd.fields["filename"].s, Names(initial))
      case None => Ok(final)
      case Some(m) =>
        if m == "" then Ok(final)
        else if RankField !in rd.fields || ReasonField !in rd.fields then Err("KeyError")
        else Ok(Put(final, m, Ranked(DataOf(initial, m), rd.fields[RankField], rd.fields[ReasonField])))
  }

  /** The ranking entries from `i` on, merged into `final`. */
  function ApplyFrom(initial: seq<Entry>, final: seq<Entry>, rankings: seq<Json>, i: nat): Result<seq<Entry>>
    requires i <= |rankings|
    decreases |rankings| - i
  {
    if i == |rankings| then Ok(final)
    else match ApplyOne(initial, final, rankings[i])
      case Err(e) => Err(e)
      case Ok(next) => ApplyFrom(initial, next, rankings, i + 1)
  }

  /** The entry given to a candidate the ranking missed. */
  function Missing(e: Entry, n: nat): Entry {
    Entry(e.filename, Ranked(e.data, Num(n + 1), Str(NotRanked)))
  }

  /** The initial entries from `i` on that the ranking missed, appended with the default
      rank. */
  function AddMissingFrom(initial: seq<Entry>, final: seq<Entry>, n: nat, i: nat): seq<Entry>
    requires i <= |initial|
    decreases |initial| - i
  {
    if i == |initial| then final
    else if initial[i].filename in Names(final) then AddMissingFrom(initial, final, n, i + 1)
    else AddMissingFrom(initial, final + [Missing(initial[i], n)], n, i + 1)
  }

  /** The reply with fence lines removed when it starts with a fence, as both ranking and
      intent detection do after stripping it. */
  function Unfence(reply: string): string {
    var r := Strip(reply);
    if StartsWith(r, "```") then Strip(IngestPg.CleanReply(r)) else r
  }

  /** The `rankings` list of a decoded reply (`.get("rankings", [])`). */
  function RankingsOf(j: Json): Result<seq<Json>> {
    if !j.Obj? then Err("AttributeError")
    else Items(if "rankings" in j.fields then j.fields["rankings"] else Arr([]))
  }

  /** After a reply that decodes: the merged ranking, or the exception it raises. */
  function MergeRanking(initial: seq<Entry>, j: Json): Result<seq<Entry>> {
    match RankingsOf(j)
    case Err(e) => Err(e)
    case Ok(rankings) =>
      match ApplyFrom(initial, [], rankings, 0)
      case Err(e) => Err(e)
      case Ok(final) => Ok(AddMissingFrom(initial, final, |rankings|, 0))
  }

  /** The three fields the ranking prompt reads from every judgment. */
  predicate PromptReady(d: map<string, Json>) {
    "candidate_key" in d && "reasoning" in d && "transferability" in d
  }

  /** Every judgment has the fields the ranking prompt reads. */
  predicate AllReady(initial: seq<Entry>) {
    forall i :: 0 <= i < |initial| ==> PromptReady(initial[i].data)
  }

  /** `_comparative_reranking`, given the model's reply (or the exception it raised). */
  function Rerank(initial: seq<Entry>, reply: Result<string>, decode: string -> Option<Json>): Result<seq<Entry>> {
    if |initial| <= 1 then Ok(SingleRanks(initial))
    else if !AllReady(initial) then Err("KeyError")
    else if reply.Err? then (if reply.error == "ValueError" then Ok(FallbackFrom(initial, 0)) else Err(reply.error))
    else match decode(Unfence(reply.value))
      case None => Ok(FallbackFrom(initial, 0))
      case Some(j) => MergeRanking(initial, j)
  }

  /** What the merge keeps: distinct names, all of them initial names, no summary text. */
  predicate MergedShape(initial: seq<Entry>, final: seq<Entry>) {
    Distinct(final) && (forall e :: e in final ==> SummaryField !in e.data)
    && forall n :: n in Names(final) ==> n in Names(initial)
  }

  lemma ApplyOneFacts(initial: seq<Entry>, final: seq<Entry>, rd: Json)
    requires MergedShape(initial, final)
    ensures ApplyOne(initial, final, rd).Ok? ==> var r := ApplyOne(initial, final, rd).value;
      MergedShape(initial, r) && forall n :: n in Names(final) ==> n in Names(r)
  {
    if rd.Obj? && "filename" in rd.fields && rd.fields["filename"].Str? {
      var bm := BestMatch(rd.fields["filename"].s, Names(initial));
      BestMatchFacts(rd.fields["filename"].s, Names(initial));
      if bm.Some? && bm.value != "" && RankField in rd.fields && ReasonField in rd.fields {
        PutFacts(final, bm.value, Ranked(DataOf(initial, bm.value), rd.fields[RankField], rd.fields[ReasonField]));
      }
    }
  }

  lemma {:induction false} ApplyFacts(initial: seq<Entry>, final: seq<Entry>, rankings: seq<Json>, i: nat)
    requires i <= |rankings| && MergedShape(initial, final)
    ensures ApplyFrom(initial, final, rankings, i).Ok? ==> var r := ApplyFrom(initial, final, rankings, i).value;
      MergedShape(initial, r) && forall n :: n in Names(final) ==> n in Names(r)
    decreases |rankings| - i
  {
    if i < |rankings| {
      ApplyOneFacts(initial, final, rankings[i]);
      var next := ApplyOne(initial, final, rankings[i]);
      if next.Ok? {
        ApplyFacts(initial, next.value, rankings, i + 1);
      }
    }
  }

  /** A defaulted entry: rank n + 1, the default reason, no summary text. */
  predicate Defaulted(e: Entry, n: nat) {
    SummaryField !in e.data && RankField in e.data && e.data[RankField] == Num(n + 1)
    && ReasonField in e.data && e.data[ReasonField] == Str(NotRanked)
  }

  /** Adding the missing entries only appends, and every appended entry is a defaulted
      initial one. */
  lemma {:induction false} AddMissingAppends(initial: seq<Entry>, final: seq<Entry>, n: nat, i: nat)
    requires i <= |initial|
    ensures var r := AddMissingFrom(initial, final, n, i);
      final <= r && forall k :: |final| <= k < |r| ==> Defaulted(r[k], n) && r[k].filename in Names(initial)
    decreases |initial| - i
  {
    if i < |initial| {
      if initial[i].filename in Names(final) {
        AddMissingAppends(initial, final, n, i + 1);
      } else {
        var e := Missing(initial[i], n);
        AddMissingAppends(initial, final + [e], n, i + 1);
        var r := AddMissingFrom(initial, final + [e], n, i + 1);
        assert r[|final|] == (final + [e])[|final|] == e;
        assert Names(initial)[i] == e.filename;
      }
    }
  }

  /** Appending an entry under a new name keeps a dict's names distinct. */
  lemma AppendFresh(final: seq<Entry>, e: Entry)
    requires Distinct(final) && e.filename !in Names(final)
    ensures Distinct(final + [e]) && Names(final + [e]) == Names(final) + [e.filename]
  {
    var f2 := final + [e];
    forall a, b | 0 <= a < b < |f2| ensures f2[a].filename != f2[b].filename {
      if b == |final| {
        assert Names(final)[a] == f2[a].filename;
      }
    }
  }

  /** Adding the missing entries leaves every initial name present exactly once. */
  lemma {:induction false} AddMissingNames(initial: seq<Entry>, final: seq<Entry>, n: nat, i: nat)
    requires i <= |initial| && Distinct(final)
    requires forall m :: m in Names(final) ==> m in Names(initial)
    requires forall j :: 0 <= j < i ==> initial[j].filename in Names(final)
    ensures var r := AddMissingFrom(initial, final, n, i);
      Distinct(r) && forall m :: m in Names(r) <==> m in Names(initial)
    decreases |initial| - i
  {
    if i == |initial| {
      AllNamesPresent(initial, final);
    } else if initial[i].filename in Names(final) {
      AddMissingNames(initial, final, n, i + 1);
    } else {
      AddMissingStep(initial, final, n, i);
      AddMissingNames(initial, final + [Missing(initial[i], n)], n, i + 1);
    }
  }

  lemma AllNamesPresent(initial: seq<Entry>, final: seq<Entry>)
    requires forall j :: 0 <= j < |initial| ==> initial[j].filename in Names(final)
    ensures forall m :: m in Names(initial) ==> m in Names(final)
  {
    forall m | m in Names(initial) ensures m in Names(final) {
      var j :| 0 <= j < |initial| && Names(initial)[j] == m;
    }
  }

  /** Appending a missed candidate keeps the preconditions of `AddMissingNames`. */
  lemma AddMissingStep(initial: seq<Entry>, final: seq<Entry>, n: nat, i: nat)
    requires i < |initial| && Distinct(final) && initial[i].filename !in Names(final)
    requires forall m :: m in Names(final) ==> m in Names(initial)
    requires forall j :: 0 <= j < i ==> initial[j].filename in Names(final)
    ensures var f2 := final + [Missing(initial[i], n)];
      Distinct(f2) && (forall m :: m in Names(f2) ==> m in Names(initial))
      && forall j :: 0 <= j < i + 1 ==> initial[j].filename in Names(f2)
  {
    var e := Missing(initial[i], n);
    AppendFresh(final, e);
    assert Names(initial)[i] == e.filename;
  }

  /** One or no candidate: each entry gets rank 1 and loses its summary text. */
  lemma RerankSingle(initial: seq<Entry>, reply: Result<string>, decode: string -> Option<Json>)
    requires |initial| <= 1
    ensures Rerank(initial, reply, decode).Ok?
    ensures var r := Rerank(initial, reply, decode).value;
      Names(r) == Names(initial)
      && forall e :: e in r ==> SummaryField !in e.data && RankField in e.data && e.data[RankField] == Num(1)
  {
  }

  /** A ranking that merges: every initial file is present once and nothing else is, no
      entry keeps its summary text, and each file the ranking did not place comes after
      the placed ones with rank len(rankings) + 1 and the default reason. */
  lemma RerankMerged(initial: seq<Entry>, j: Json)
    requires Distinct(initial)
    ensures MergeRanking(initial, j).Ok? ==> var r := MergeRanking(initial, j).value;
      Distinct(r) && (forall e :: e in r ==> SummaryField !in e.data)
      && (forall m :: m in Names(r) <==> m in Names(initial))
    ensures MergeRanking(initial, j).Ok? ==>
      var n := |RankingsOf(j).value|;
      var placed := ApplyFrom(initial, [], RankingsOf(j).value, 0).value;
      var r := MergeRanking(initial, j).value;
      placed <= r && forall k :: |placed| <= k < |r| ==> Defaulted(r[k], n)
  {
    var rankings := RankingsOf(j);
    if rankings.Ok? {
      ApplyFacts(initial, [], rankings.value, 0);
      var placed := ApplyFrom(initial, [], rankings.value, 0);
      if placed.Ok? {
        AddMissingAppends(initial, placed.value, |rankings.value|, 0);
        AddMissingNames(initial, placed.value, |rankings.value|, 0);
        var r := AddMissingFrom(initial, placed.value, |rankings.value|, 0);
        forall e | e in r ensures SummaryField !in e.data {
          var k :| 0 <= k < |r| && r[k] == e;
          if k < |placed.value| {
            assert e == placed.value[k];
          }
        }
      }
    }
  }

  /** An undecodable reply, or a `ValueError` from the model call, falls back to ranks
      1..n in the dict's order. */
  lemma RerankFallback(initial: seq<Entry>, reply: Result<string>, decode: string -> Option<Json>)
    requires |initial| >= 2 && AllReady(initial)
    requires (reply.Ok? && decode(Unfence(reply.value)).None?) || reply == Err("ValueError")
    ensures Rerank(initial, reply, decode).Ok?
    ensures var r := Rerank(initial, reply, decode).value;
      |r| == |initial| && forall i :: 0 <= i < |r| ==>
        (r[i].filename == initial[i].filename && SummaryField !in r[i].data
         && RankField in r[i].data && r[i].data[RankField] == Num(i + 1))
  {
    if reply.Ok? {
      RerankOfReply(initial, reply, decode);
    }
  }

  /** With several prompt-ready candidates and a reply, `Rerank` is decided by the
      decoded reply alone. */
  lemma RerankOfReply(initial: seq<Entry>, reply: Result<string>, decode: string -> Option<Json>)
    requires |initial| >= 2 && AllReady(initial)
    requires reply.Ok?
    ensures Rerank(initial, reply, decode)
            == match decode(Unfence(reply.value)) case None => Ok(FallbackFrom(initial, 0)) case Some(j) => MergeRanking(initial, j)
  {
  }

  /** One pass of the merge loop's body. */
  method ApplyStep(initial: seq<Entry>, available: seq<string>, final: seq<Entry>, rd: Json) returns (r: Result<seq<Entry>>)
    requires available == Names(initial)
    ensures r == ApplyOne(initial, final, rd)
  {
    if !rd.Obj? {
      return Err("TypeError");
    }
    if "filename" !in rd.fields {
      return Err("KeyError");
    }
    var returned := rd.fields["filename"];
    if !returned.Str? {
      return Err("AttributeError");
    }
    var matched := FindBestMatch(returned.s, available);
    if matched.None? || matched.value == "" {
      return Ok(final);
    }
    if RankField !in rd.fields || ReasonField !in rd.fields {
      return Err("KeyError");
    }
    r := Ok(Put(final, matched.value, Ranked(DataOf(initial, matched.value), rd.fields[RankField], rd.fields[ReasonField])));
  }

  /** The merge loop of the source, over the ranking entries. */
  method ApplyRankings(initial: seq<Entry>, rankings: seq<Json>) returns (r: Result<seq<Entry>>)
    ensures r == ApplyFrom(initial, [], rankings, 0)
  {
    var final: seq<Entry> := [];
    var available := Names(initial);
    var i := 0;
    while i < |rankings|
      invariant 0 <= i <= |rankings|
      invariant ApplyFrom(initial, final, rankings, i) == ApplyFrom(initial, [], rankings, 0)
    {
      var next := ApplyStep(initial, available, final, rankings[i]);
      if next.Err? {
        return Err(next.error);
      }
      final := next.value;
      i := i + 1;
    }
    r := Ok(final);
  }

  /** The loop adding the candidates the ranking missed. */
  method AddMissing(initial: seq<Entry>, final: seq<Entry>, n: nat) returns (r: seq<Entry>)
    ensures r == AddMissingFrom(initial, final, n, 0)
  {
    r := final;
    var i := 0;
    while i < |initial|
      invariant 0 <= i <= |initial|
      invariant AddMissingFrom(initial, r, n, i) == AddMissingFrom(initial, final, n, 0)
    {
      if initial[i].filename !in Names(r) {
        r := r + [Missing(initial[i], n)];
      }
      i := i + 1;
    }
  }

  /** The fallback loop, numbering from 1. */
  method Fallback(initial: seq<Entry>) returns (r: seq<Entry>)
    ensures r == FallbackFrom(initial, 0)
  {
    r := [];
    var i := 0;
    while i < |initial|
      invariant 0 <= i <= |initial| && r + FallbackFrom(initial, i) == FallbackFrom(initial, 0)
    {
      var entry := Entry(initial[i].filename, Ranked(initial[i].data, Num(i + 1), Str(FallbackReason)));
      assert FallbackFrom(initial, i) == [entry] + FallbackFrom(initial, i + 1);
      assert r + [entry] + FallbackFrom(initial, i + 1) == r + FallbackFrom(initial, i);
      r := r + [entry];
      i := i + 1;
    }
    assert r + [] == r;
  }

  /** The prompt-building loop's reads, as a check. */
  method AllPromptReady(initial: seq<Entry>) returns (ok: bool)
    ensures ok <==> AllReady(initial)
  {
    var i := 0;
    while i < |initial|
      invariant 0 <= i <= |initial| && forall j :: 0 <= j < i ==> PromptReady(initial[j].data)
    {
      if !PromptReady(initial[i].data) {
        return false;
      }
      i := i + 1;
    }
    return true;
  }

  /** `_comparative_reranking`. */
  method ComparativeReranking(initial: seq<Entry>, reply: Result<string>, decode: string -> Option<Json>)
    returns (r: Result<seq<Entry>>)
    ensures r == Rerank(initial, reply, decode)
  {
    if |initial| <= 1 {
      return Ok(SingleRanks(initial));
    }
    var ready := AllPromptReady(initial);
    if !ready {
      return Err("KeyError");
    }
    if reply.Err? && reply.error == "ValueError" {
      var fallback := Fallback(initial);
      return Ok(fallback);
    }
    if reply.Err? {
      return Err(reply.error);
    }
    var decoded := decode(Unfence(reply.value));
    if decoded.None? {
      var fallback := Fallback(initial);
      return Ok(fallback);
    }
    var rankings := RankingsOf(decoded.value);
    if rankings.Err? {
      return Err(rankings.error);
    }
    var placed := ApplyRankings(initial, rankings.value);
    if placed.Err? {
      return Err(placed.error);
    }
    var merged := AddMissing(initial, placed.value, |rankings.value|);
    r := Ok(merged);
  }

  // ================================================================ detect_email_intent

  const RequiredKeys: seq<string> := ["is_email_request", "template_type", "candidate_key", "extracted_fields"]

  /** `{'is_email_request': False}`. */
  const NotEmail: map<string, Json> := map["is_email_request" := Bool(false)]

  /** `all(field in j for field in keys)`, which stops at the first miss. */
  function AllIn(keys: seq<string>, j: Json): Result<bool> {
    if keys == [] then Ok(true)
    else match KeyIn(keys[0], j)
      case Err(e) => Err(e)
      case Ok(found) => if !found then Ok(false) else AllIn(keys[1..], j)
  }

  lemma {:induction false} AllInObject(keys: seq<string>, m: map<string, Json>)
    ensures AllIn(keys, Obj(m)) == Ok(forall k :: k in keys ==> k in m)
  {
    if keys != [] {
      AllInObject(keys[1..], m);
      assert forall k :: k in keys ==> k == keys[0] || k in keys[1..];
    }
  }

  /** Either string contains the other, lower-cased. */
  predicate Fuzzy(asked: string, key: string) {
    Contains(Lower(key), Lower(asked)) || Contains(Lower(asked), Lower(key))
  }

  /** The first key that fuzzily matches, or `|keys|`. */
  function FirstFuzzy(asked: string, keys: seq<string>): (k: nat)
    ensures k <= |keys| && (k < |keys| ==> Fuzzy(asked, keys[k]))
    ensures forall i :: 0 <= i < k ==> !Fuzzy(asked, keys[i])
  {
    if keys == [] then 0
    else if Fuzzy(asked, keys[0]) then 0
    else
      var k := FirstFuzzy(asked, keys[1..]);
      assert forall i :: 1 <= i < |keys| ==> keys[i] == keys[1..][i - 1];
      1 + k
  }

  function NotFound(asked: string): string {
    "Candidate '" + asked + "' not found in current results"
  }

  /** The candidate check on a decoded intent with the four keys. */
  function Resolve(intent: map<string, Json>, keys: seq<string>): Result<map<string, Json>> {
    if "is_email_request" !in intent || "candidate_key" !in intent then Err("KeyError")
    else
    var ck := intent["candidate_key"];
    if !(Truthy(intent["is_email_request"]) && Truthy(ck)) then Ok(intent)
    else if ck.Str? && ck.s in keys then Ok(intent)
    else if !ck.Str? then Err("AttributeError")
    else
      var k := FirstFuzzy(ck.s, keys);
      if k < |keys| then Ok(intent["candidate_key" := Str(keys[k])])
      else Ok(intent["candidate_key" := Null]["intent" := Str(NotFound(ck.s))])
  }

  /** `detect_email_intent` after the model call. */
  function EmailIntent(reply: Result<string>, decode: string -> Option<Json>, keys: seq<string>): Result<map<string, Json>> {
    if reply.Err? then (if reply.error == "ValueError" then Ok(NotEmail) else Err(reply.error))
    else match decode(Unfence(reply.value))
      case None => Ok(NotEmail)
      case Some(j) =>
        match AllIn(RequiredKeys, j)
        case Err(e) => Err(e)
        case Ok(all) =>
          if !all then Ok(NotEmail)
          else if !j.Obj? then Err("TypeError")
          else Resolve(j.fields, keys)
  }

  /** A reply that does not decode, or a `ValueError` from the model call, is not an
      e-mail request; any other failure of the call propagates. */
  lemma IntentFallback(reply: Result<string>, decode: string -> Option<Json>, keys: seq<string>)
    ensures (reply.Ok? && decode(Unfence(reply.value)).None?) || reply == Err("ValueError") ==>
      EmailIntent(reply, decode, keys) == Ok(NotEmail)
    ensures reply.Err? && reply.error != "ValueError" ==> EmailIntent(reply, decode, keys) == Err(reply.error)
  {
  }

  /** A decoded object missing any of the four keys is not an e-mail request. */
  lemma IntentMissingKey(reply: Result<string>, decode: string -> Option<Json>, keys: seq<string>, m: map<string, Json>, k: string)
    requires reply.Ok? && decode(Unfence(reply.value)) == Some(Obj(m))
    requires k in RequiredKeys && k !in m
    ensures EmailIntent(reply, decode, keys) == Ok(NotEmail)
  {
    AllInObject(RequiredKeys, m);
  }

  /** An e-mail request naming an unknown candidate: the name becomes the first key that
      fuzzily matches it, or None with an explanation; nothing else changes. A known
      name, or a request that is not for e-mail, comes back unchanged. */
  lemma ResolveFacts(intent: map<string, Json>, keys: seq<string>)
    requires "is_email_request" in intent && "candidate_key" in intent
    ensures Resolve(intent, keys).Ok? ==> var r := Resolve(intent, keys).value;
      (forall k :: k in intent && k != "candidate_key" && k != "intent" ==> k in r && r[k] == intent[k])
      && (r["candidate_key"] == intent["candidate_key"]
          || (exists i :: 0 <= i < |keys| && r["candidate_key"] == Str(keys[i]) && Fuzzy(intent["candidate_key"].s, keys[i])
                && forall j :: 0 <= j < i ==> !Fuzzy(intent["candidate_key"].s, keys[j]))
          || (r["candidate_key"] == Null && (forall i :: 0 <= i < |keys| ==> !Fuzzy(intent["candidate_key"].s, keys[i]))
                && r["intent"] == Str(NotFound(intent["candidate_key"].s))))
    ensures var ck := intent["candidate_key"];
      (!(Truthy(intent["is_email_request"]) && Truthy(ck)) || (ck.Str? && ck.s in keys)) ==> Resolve(intent, keys) == Ok(intent)
  {
    var ck := intent["candidate_key"];
    if Truthy(intent["is_email_request"]) && Truthy(ck) && ck.Str? && ck.s !in keys {
      var k := FirstFuzzy(ck.s, keys);
      if k < |keys| {
        assert Resolve(intent, keys).value["candidate_key"] == Str(keys[k]);
      }
    }
  }

  /** What callers read from an intent: the request flag is always there; a request also
      carries the other required keys, and a truthy candidate key in it is text. */
  lemma IntentShape(reply: Result<string>, decode: string -> Option<Json>, keys: seq<string>)
    ensures EmailIntent(reply, decode, keys).Ok? ==> var m := EmailIntent(reply, decode, keys).value;
      "is_email_request" in m
      && (Truthy(m["is_email_request"]) ==>
            "template_type" in m && "candidate_key" in m && "extracted_fields" in m
            && (Truthy(m["candidate_key"]) ==> m["candidate_key"].Str?))
  {
    if reply.Ok? {
      var d := decode(Unfence(reply.value));
      if d.Some? {
        EmailIntentDecoded(reply, decode, keys, d.value);
        if d.value.Obj? && AllIn(RequiredKeys, d.value).Ok? && AllIn(RequiredKeys, d.value).value {
          var intent := d.value.fields;
          AllInObject(RequiredKeys, intent);
          assert RequiredKeys[0] in RequiredKeys && RequiredKeys[1] in RequiredKeys;
          assert RequiredKeys[2] in RequiredKeys && RequiredKeys[3] in RequiredKeys;
          ResolveShape(intent, keys);
        }
      }
    }
  }

  /** The candidate check keeps every key and the request flag, and leaves a truthy
      candidate key only as text. */
  lemma ResolveShape(intent: map<string, Json>, keys: seq<string>)
    requires "is_email_request" in intent && "candidate_key" in intent
    ensures Resolve(intent, keys).Ok? ==>
      (forall k :: k in intent ==> k in Resolve(intent, keys).value)
      && Resolve(intent, keys).value["is_email_request"] == intent["is_email_request"]
      && (Truthy(intent["is_email_request"]) && Truthy(Resolve(intent, keys).value["candidate_key"])
          ==> Resolve(intent, keys).value["candidate_key"].Str?)
  {
    var ck := intent["candidate_key"];
    if Truthy(intent["is_email_request"]) && Truthy(ck) && ck.Str? && ck.s !in keys {
      var k := FirstFuzzy(ck.s, keys);
      if k < |keys| {
        assert Resolve(intent, keys) == Ok(intent["candidate_key" := Str(keys[k])]);
      } else {
        assert Resolve(intent, keys) == Ok(intent["candidate_key" := Null]["intent" := Str(NotFound(ck.s))]);
      }
    }
  }

  /** `detect_email_intent` on the model's reply, with the source's `for ... else` search. */
  method DetectEmailIntent(reply: Result<string>, decode: string -> Option<Json>, keys: seq<string>)
    returns (r: Result<map<string, Json>>)
    ensures r == EmailIntent(reply, decode, keys)
  {
    if reply.Err? && reply.error == "ValueError" {
      return Ok(NotEmail);
    }
    if reply.Err? {
      return Err(reply.error);
    }
    var decoded := decode(Unfence(reply.value));
    if decoded.None? {
      return Ok(NotEmail);
    }
    var j := decoded.value;
    EmailIntentDecoded(reply, decode, keys, j);
    var all := AllIn(RequiredKeys, j);
    if all.Err? {
      return Err(all.error);
    }
    if !all.value {
      return Ok(NotEmail);
    }
    if !j.Obj? {
      return Err("TypeError");
    }
    var intent := j.fields;
    AllInObject(RequiredKeys, intent);
    assert RequiredKeys[0] in RequiredKeys && RequiredKeys[2] in RequiredKeys;
    r := ResolveCandidate(intent, keys);
  }

  /** `detect_email_intent` once the reply decoded to `j`, one step unfolded. */
  lemma EmailIntentDecoded(reply: Result<string>, decode: string -> Option<Json>, keys: seq<string>, j: Json)
    requires reply.Ok? && decode(Unfence(reply.value)) == Some(j)
    ensures EmailIntent(reply, decode, keys)
            == match AllIn(RequiredKeys, j)
               case Err(e) => Err(e)
               case Ok(all) => if !all then Ok(NotEmail) else if !j.Obj? then Err("TypeError") else Resolve(j.fields, keys)
  {
  }

  /** The candidate check of `detect_email_intent` on an intent holding the four keys. */
  method ResolveCandidate(intent: map<string, Json>, keys: seq<string>) returns (r: Result<map<string, Json>>)
    requires "is_email_request" in intent && "candidate_key" in intent
    ensures r == Resolve(intent, keys)
  {
    var ck := intent["candidate_key"];
    if !(Truthy(intent["is_email_request"]) && Truthy(ck)) || (ck.Str? && ck.s in keys) {
      return Ok(intent);
    }
    if !ck.Str? {
      return Err("AttributeError");
    }
    var k := FindFuzzy(ck.s, keys);
    if k < |keys| {
      return Ok(intent["candidate_key" := Str(keys[k])]);
    }
    r := Ok(intent["candidate_key" := Null]["intent" := Str(NotFound(ck.s))]);
  }

  /** The source's `for key in keys: ... break` search for a fuzzy match. */
  method FindFuzzy(asked: string, keys: seq<string>) returns (k: nat)
    ensures k == FirstFuzzy(asked, keys)
  {
    k := 0;
    while k < |keys|
      invariant 0 <= k <= |keys| && forall p :: 0 <= p < k ==> !Fuzzy(asked, keys[p])
    {
      if Fuzzy(asked, keys[k]) {
        FirstFuzzyIs(asked, keys, k);
        return;
      }
      k := k + 1;
    }
    FirstFuzzyIs(asked, keys, k);
  }

  /** `FirstFuzzy` is the first matching position, or the length. */
  lemma FirstFuzzyIs(asked: string, keys: seq<string>, k: nat)
    requires k <= |keys| && (k < |keys| ==> Fuzzy(asked, keys[k]))
    requires forall p :: 0 <= p < k ==> !Fuzzy(asked, keys[p])
    ensures FirstFuzzy(asked, keys) == k
  {
    var q := FirstFuzzy(asked, keys);
  }

  // ================================================================ _handle_skill_matching_query

  /** `x.get("rank_position", 999)` as a sort key: a number (a boolean compares as 0 or 1),
      a string, or a value Python orders against nothing. */
  datatype RankKey = NumRank(n: int) | TextRank(s: string) | Unordered

  function RankOf(e: Entry): RankKey {
    if "rank_position" !in e.data then NumRank(999)
    else match e.data["rank_position"]
      case Num(n) => NumRank(n)
      case Bool(b) => NumRank(if b then 1 else 0)
      case Str(s) => TextRank(s)
      case _ => Unordered
  }

  function RankNum(e: Entry): int {
    if RankOf(e).NumRank? then RankOf(e).n else 0
  }

  function RankText(e: Entry): string {
    if RankOf(e).TextRank? then RankOf(e).s else ""
  }

  predicate AllNumRanks(results: seq<Entry>) {
    forall i :: 0 <= i < |results| ==> RankOf(results[i]).NumRank?
  }

  predicate AllTextRanks(results: seq<Entry>) {
    forall i :: 0 <= i < |results| ==> RankOf(results[i]).TextRank?
  }

  /** Python's `<=` on the rank keys of two results: numbers as numbers, strings as text,
      and nothing across kinds. */
  predicate RankLe(a: Entry, b: Entry) {
    match (RankOf(a), RankOf(b))
    case (NumRank(m), NumRank(n)) => m <= n
    case (TextRank(x), TextRank(y)) => StableSort.TextLe(x, y)
    case _ => false
  }

  /** `sorted(results.items(), key=rank)[:context_limit]`: numeric ranks sort as numbers,
      string ranks as text, and two or more results whose ranks Python cannot compare
      with each other raise; a single result is never compared. */
  function TopByRank(results: seq<Entry>, limit: int): Result<seq<Entry>> {
    if AllNumRanks(results) then Ok(PyPrefix(StableSort.SortBy(results, RankNum), limit))
    else if AllTextRanks(results) then Ok(PyPrefix(StableSort.SortByText(results, RankText), limit))
    else if |results| >= 2 then Err("TypeError")
    else Ok(PyPrefix(results, limit))
  }

  /** The shape of a prefix of a permutation of the results. */
  predicate KeptPrefix(results: seq<Entry>, limit: int, t: seq<Entry>) {
    |t| == (if limit < |results| then limit else |results|)
    && multiset(t) <= multiset(results)
    && (forall e :: e in t ==> e in results)
    && (limit >= |results| ==> multiset(t) == multiset(results))
  }

  lemma PrefixOfPermutation(results: seq<Entry>, sorted: seq<Entry>, limit: int)
    requires limit >= 0 && multiset(sorted) == multiset(results) && |sorted| == |results|
    ensures KeptPrefix(results, limit, PyPrefix(sorted, limit)) && PyPrefix(sorted, limit) <= sorted
  {
    var t := PyPrefix(sorted, limit);
    assert sorted == t + sorted[|t|..];
    forall e | e in t ensures e in results {
      assert e in multiset(sorted);
    }
    if limit >= |results| {
      assert t == sorted;
    }
  }

  lemma TopByNumber(results: seq<Entry>, limit: int)
    requires limit >= 0 && AllNumRanks(results)
    ensures var t := TopByRank(results, limit).value;
      KeptPrefix(results, limit, t) && (forall i, j :: 0 <= i < j < |t| ==> RankLe(t[i], t[j]))
      && (forall e, d :: e in t && d in multiset(results) - multiset(t) ==> RankLe(e, d))
      && forall v :: StableSort.WithKey(t, RankNum, v) <= StableSort.WithKey(results, RankNum, v)
  {
    var sorted := StableSort.SortBy(results, RankNum);
    StableSort.SortByFacts(results, RankNum);
    PrefixOfPermutation(results, sorted, limit);
    var t := TopByRank(results, limit).value;
    StableSort.SortedPrefixFacts(results, RankNum, t);
    forall i, j | 0 <= i < j < |t| ensures RankLe(t[i], t[j]) {
      assert t[i] == sorted[i] && t[j] == sorted[j];
      assert t[i] in results && t[j] in results;
    }
    forall e, d | e in t && d in multiset(results) - multiset(t) ensures RankLe(e, d) {
      assert e in results && d in results;
    }
  }

  lemma TopByText(results: seq<Entry>, limit: int)
    requires limit >= 0 && !AllNumRanks(results) && AllTextRanks(results)
    ensures var t := TopByRank(results, limit).value;
      KeptPrefix(results, limit, t) && (forall i, j :: 0 <= i < j < |t| ==> RankLe(t[i], t[j]))
      && (forall e, d :: e in t && d in multiset(results) - multiset(t) ==> RankLe(e, d))
      && forall v :: StableSort.WithText(t, RankText, v) <= StableSort.WithText(results, RankText, v)
  {
    var sorted := StableSort.SortByText(results, RankText);
    StableSort.SortByTextFacts(results, RankText);
    PrefixOfPermutation(results, sorted, limit);
    var t := TopByRank(results, limit).value;
    StableSort.SortedTextPrefixFacts(results, RankText, t);
    forall i, j | 0 <= i < j < |t| ensures RankLe(t[i], t[j]) {
      assert t[i] == sorted[i] && t[j] == sorted[j];
      assert t[i] in results && t[j] in results;
    }
    forall e, d | e in t && d in multiset(results) - multiset(t) ensures RankLe(e, d) {
      assert e in results && d in results;
    }
  }

  /** The sort succeeds exactly when there is at most one result or all ranks are of one
      orderable kind; then the kept results are ordered by rank (a missing rank counting
      as 999), there are min(limit, n) of them, they are results (each at most as often as
      it occurs), no dropped result ranks before a kept one, among equal ranks the kept ones
      come first in the dict's order, and a limit covering all keeps them all. */
  lemma TopByRankFacts(results: seq<Entry>, limit: int)
    requires limit >= 0
    ensures TopByRank(results, limit).Ok? <==> |results| < 2 || AllNumRanks(results) || AllTextRanks(results)
    ensures TopByRank(results, limit).Ok? ==> var t := TopByRank(results, limit).value;
      KeptPrefix(results, limit, t) && (forall i, j :: 0 <= i < j < |t| ==> RankLe(t[i], t[j]))
      && (forall e, d :: e in t && d in multiset(results) - multiset(t) ==> RankLe(e, d))
    ensures AllNumRanks(results) ==> var t := TopByRank(results, limit).value;
      forall v :: StableSort.WithKey(t, RankNum, v) <= StableSort.WithKey(results, RankNum, v)
    ensures AllTextRanks(results) ==> var t := TopByRank(results, limit).value;
      forall v :: StableSort.WithText(t, RankText, v) <= StableSort.WithText(results, RankText, v)
  {
    if results == [] {
      assert TopByRank(results, limit).value == [];
    }
    if AllNumRanks(results) {
      TopByNumber(results, limit);
    } else if AllTextRanks(results) {
      TopByText(results, limit);
    } else if |results| < 2 {
      PrefixOfPermutation(results, results, limit);
    }
  }
}
