/** ingestion/helpers.py: text chunking for retrieval, the work-duration bucket, the three
    field normalisers built around a model reply, and the chunk metadata kept beside the
    vector index. A model call is an input: `Ok(reply)` or `Err` when the call raised. */
module IngestionHelpers {
  import opened Wrappers
  import opened Strings

  const ChunkSize := 512
  const ChunkOverlap := 50

  // ================================================================ chunk_text

  function Max(a: int, b: int): (r: int)
    ensures r >= a && r >= b && (r == a || r == b)
  {
    if a >= b then a else b
  }

  function Min(a: int, b: int): (r: int)
    ensures r <= a && r <= b && (r == a || r == b)
  {
    if a <= b then a else b
  }

  /** Where the window starting at `start` ends: at a '.' (kept) or a ' ' past the middle of
      the window, else a full window; the last window runs off the end of the text. */
  function WindowEnd(text: string, start: nat, size: int): (end: int)
    requires size > 0 && start < |text|
    ensures start < end <= start + size
    ensures start + size < |text| ==> end <= |text|
  {
    var end := start + size;
    if end < |text| then
      var lastPeriod := RFind(text, '.', start, end);
      var lastSpace := RFind(text, ' ', start, end);
      if lastPeriod > start + size / 2 then lastPeriod + 1
      else if lastSpace > start + size / 2 then lastSpace
      else end
    else end
  }

  /** The windows the loop visits from `start` on, as (start, end) with end clamped. */
  function Windows(text: string, start: nat, size: int, overlap: int): (w: seq<(nat, nat)>)
    requires size > 0 && start < |text|
    ensures |w| >= 1 && w[0].0 == start
    ensures forall i :: 0 <= i < |w| ==> w[i].0 < w[i].1 <= |text| && w[i].1 - w[i].0 <= size
    decreases |text| - start
  {
    var end := WindowEnd(text, start, size);
    var next := Max(start + 1, end - overlap);
    [(start, Min(end, |text|))] + (if next >= |text| then [] else Windows(text, next, size, overlap))
  }

  /** The chunks produced from the windows: each window stripped, empty ones dropped. */
  function StrippedNonEmpty(text: string, w: seq<(nat, nat)>): seq<string>
    requires forall i :: 0 <= i < |w| ==> w[i].0 <= w[i].1 <= |text|
  {
    if w == [] then []
    else
      var c := Strip(text[w[0].0..w[0].1]);
      (if c != "" then [c] else []) + StrippedNonEmpty(text, w[1..])
  }

  /** The chunks of the windows from `start` on; none once `start` is past the text. */
  function ChunksFrom(text: string, start: nat, size: int, overlap: int): seq<string>
    requires size > 0
  {
    if start < |text| then StrippedNonEmpty(text, Windows(text, start, size, overlap)) else []
  }

  /** What `chunk_text` returns. */
  function Chunks(text: string, size: int, overlap: int): seq<string>
    requires size > 0
  {
    if |text| <= size then [text] else ChunksFrom(text, 0, size, overlap)
  }

  /** The end of the window at `start`, as the loop of `chunk_text` finds it. */
  method FindWindowEnd(text: string, start: nat, chunkSize: int) returns (end: int)
    requires chunkSize > 0 && start < |text|
    ensures end == WindowEnd(text, start, chunkSize)
  {
    end := start + chunkSize;
    if end < |text| {
      var lastPeriod := RFind(text, '.', start, end);
      var lastSpace := RFind(text, ' ', start, end);
      if lastPeriod > start + chunkSize / 2 {
        end := lastPeriod + 1;
      } else if lastSpace > start + chunkSize / 2 {
        end := lastSpace;
      }
    }
  }

  /** `chunk_text`. */
  method ChunkText(text: string, chunkSize: int := ChunkSize, overlap: int := ChunkOverlap) returns (chunks: seq<string>)
    requires chunkSize > 0
    ensures chunks == Chunks(text, chunkSize, overlap)
  {
    if |text| <= chunkSize {
      return [text];
    }
    chunks := [];
    var start: nat := 0;
    while start < |text|
      invariant chunks + ChunksFrom(text, start, chunkSize, overlap) == ChunksFrom(text, 0, chunkSize, overlap)
      decreases |text| - start
    {
      var end := FindWindowEnd(text, start, chunkSize);
      var chunk := Strip(text[start..Min(end, |text|)]);
      var next := Max(start + 1, end - overlap);
      var piece := if chunk != "" then [chunk] else [];
      WindowStep(text, start, chunkSize, overlap, end, next, chunk, piece);
      Regroup(chunks, piece, ChunksFrom(text, next, chunkSize, overlap));
      chunks := chunks + piece;
      start := next;
    }
    assert chunks + [] == chunks;
  }

  lemma Regroup<T>(a: seq<T>, b: seq<T>, c: seq<T>)
    ensures (a + b) + c == a + (b + c)
  {
  }

  /** One turn of the loop: the first window's chunk, then the chunks from the next start. */
  lemma WindowStep(text: string, start: nat, size: int, overlap: int, end: int, next: nat, chunk: string, piece: seq<string>)
    requires size > 0 && start < |text|
    requires end == WindowEnd(text, start, size) && next == Max(start + 1, end - overlap)
    requires chunk == Strip(text[start..Min(end, |text|)]) && piece == if chunk != "" then [chunk] else []
    ensures ChunksFrom(text, start, size, overlap) == piece + ChunksFrom(text, next, size, overlap)
  {
    var w := Windows(text, start, size, overlap);
    assert w[0] == (start, Min(end, |text|));
    assert w[1..] == if next >= |text| then [] else Windows(text, next, size, overlap);
    assert ChunksFrom(text, start, size, overlap) == StrippedNonEmpty(text, w);
    assert ChunksFrom(text, next, size, overlap) == StrippedNonEmpty(text, w[1..]);
  }

  lemma StripIdempotent(s: string)
    ensures Strip(Strip(s)) == Strip(s)
  {
    var r := Strip(s);
    assert LStrip(r) == r;
    assert RStrip(r) == r;
  }

  /** Each chunk is non-empty, already stripped and at most `size` characters long. */
  predicate CleanChunks(cs: seq<string>, size: int) {
    forall i :: 0 <= i < |cs| ==> cs[i] != "" && Strip(cs[i]) == cs[i] && |cs[i]| <= size
  }

  lemma CleanChunksConcat(a: seq<string>, b: seq<string>, size: int)
    requires CleanChunks(a, size) && CleanChunks(b, size)
    ensures CleanChunks(a + b, size)
  {
    forall i | 0 <= i < |a + b| ensures (a + b)[i] != "" && Strip((a + b)[i]) == (a + b)[i] && |(a + b)[i]| <= size {
      if i < |a| { assert (a + b)[i] == a[i]; } else { assert (a + b)[i] == b[i - |a|]; }
    }
  }

  lemma {:induction false} StrippedNonEmptyFacts(text: string, w: seq<(nat, nat)>, size: int)
    requires forall i :: 0 <= i < |w| ==> w[i].0 <= w[i].1 <= |text| && w[i].1 - w[i].0 <= size
    ensures CleanChunks(StrippedNonEmpty(text, w), size)
  {
    if w != [] {
      var c := Strip(text[w[0].0..w[0].1]);
      var head := if c != "" then [c] else [];
      StrippedNonEmptyFacts(text, w[1..], size);
      StripIdempotent(text[w[0].0..w[0].1]);
      assert StrippedNonEmpty(text, w) == head + StrippedNonEmpty(text, w[1..]);
      CleanChunksConcat(head, StrippedNonEmpty(text, w[1..]), size);
    }
  }

  /** Every chunk of a text longer than the chunk size is non-empty, already stripped and at
      most `size` characters long; a text that fits is returned whole as the only chunk. */
  lemma ChunkShape(text: string, size: int, overlap: int)
    requires size > 0
    ensures |text| <= size ==> Chunks(text, size, overlap) == [text]
    ensures |text| > size ==> CleanChunks(Chunks(text, size, overlap), size)
  {
    if |text| > size {
      StrippedNonEmptyFacts(text, Windows(text, 0, size, overlap), size);
    }
  }

  /** With a non-negative overlap the windows leave no gap: they start at 0, each one starts
      no later than its predecessor ends, and the last one reaches the end of the text. So
      every character of the text falls inside a window that a chunk was cut from. */
  lemma {:induction false} WindowsCover(text: string, start: nat, size: int, overlap: int)
    requires size > 0 && start < |text| && overlap >= 0
    ensures var w := Windows(text, start, size, overlap);
      w[|w| - 1].1 == |text|
      && forall i :: 0 < i < |w| ==> w[i].0 <= w[i - 1].1 && w[i - 1].0 < w[i].0
    decreases |text| - start
  {
    var end := WindowEnd(text, start, size);
    var next := Max(start + 1, end - overlap);
    if next < |text| {
      WindowsCover(text, next, size, overlap);
      var w := Windows(text, start, size, overlap);
      var rest := Windows(text, next, size, overlap);
      assert w == [(start, Min(end, |text|))] + rest;
      assert next <= Min(end, |text|);
    }
  }

  // ================================================================ compute_months_between

  /** The bucket for a span of `days` (`(d2 - d1).days`), compared in months of 30 days as
      the source does: below 2, 2 to 4, 5 to 7, and everything else. */
  function DurationBucketAsWritten(days: int): string {
    var months := days as real / 30.0;
    if months < 2.0 then "0-2 MONTHS"
    else if 2.0 <= months <= 4.0 then "2-4 MONTHS"
    else if 5.0 <= months <= 7.0 then "5-7 MONTHS"
    else "MORE THAN 7 MONTHS"
  }

  /** The bucket boundaries in whole days, and the gap the comparisons leave. */
  lemma AsWrittenBucketDays(days: int)
    ensures DurationBucketAsWritten(days) == "0-2 MONTHS" <==> days < 60
    ensures DurationBucketAsWritten(days) == "2-4 MONTHS" <==> 60 <= days <= 120
    ensures DurationBucketAsWritten(days) == "5-7 MONTHS" <==> 150 <= days <= 210
    ensures DurationBucketAsWritten(days) == "MORE THAN 7 MONTHS" <==> (120 < days < 150 || 210 < days)
  {
  }

  /** A span of four and a half months is reported as more than seven. */
  lemma AsWrittenGap()
    ensures DurationBucketAsWritten(135) == "MORE THAN 7 MONTHS"
  {
    AsWrittenBucketDays(135);
  }

  /** Buckets with no gap: a span between four and five months stays in "2-4 MONTHS". */
  function DurationBucket(days: int): string {
    var months := days as real / 30.0;
    if months < 2.0 then "0-2 MONTHS"
    else if months < 5.0 then "2-4 MONTHS"
    else if months <= 7.0 then "5-7 MONTHS"
    else "MORE THAN 7 MONTHS"
  }

  function BucketRank(b: string): int {
    if b == "0-2 MONTHS" then 0 else if b == "2-4 MONTHS" then 1 else if b == "5-7 MONTHS" then 2 else 3
  }

  /** The corrected buckets are monotone in the length of the span, say "MORE THAN 7 MONTHS"
      exactly for spans over 210 days, and agree with the source wherever the source's
      comparisons cover the span. */
  lemma DurationBucketFacts(d1: int, d2: int)
    ensures d1 <= d2 ==> BucketRank(DurationBucket(d1)) <= BucketRank(DurationBucket(d2))
    ensures DurationBucket(d1) == "MORE THAN 7 MONTHS" <==> d1 > 210
    ensures !(120 < d1 < 150) ==> DurationBucket(d1) == DurationBucketAsWritten(d1)
  {
  }

  /** `compute_months_between`: `parse` stands for `dateutil.parser.parse`, giving a day
      number or failing; either failure yields None. The bucket is the source's own, gap
      included. */
  function MonthsBetween(fromDate: string, toDate: string, parse: string -> Option<int>): (r: Option<string>)
    ensures r.Some? <==> parse(fromDate).Some? && parse(toDate).Some?
    ensures r.Some? ==> var d := parse(toDate).value - parse(fromDate).value;
      (r.value == "0-2 MONTHS" <==> d < 60) && (r.value == "2-4 MONTHS" <==> 60 <= d <= 120)
      && (r.value == "5-7 MONTHS" <==> 150 <= d <= 210)
      && (r.value == "MORE THAN 7 MONTHS" <==> (120 < d < 150 || 210 < d))
  {
    var d1 := parse(fromDate);
    var d2 := parse(toDate);
    if d1.None? || d2.None? then None
    else
      AsWrittenBucketDays(d2.value - d1.value);
      Some(DurationBucketAsWritten(d2.value - d1.value))
  }

  /** `compute_months_between` with the corrected buckets: it fails exactly where the
      source fails and differs from it only on spans of 121 to 149 days. */
  function MonthsBetweenCorrected(fromDate: string, toDate: string, parse: string -> Option<int>): (r: Option<string>)
    ensures r.Some? <==> MonthsBetween(fromDate, toDate, parse).Some?
    ensures r.Some? ==> var d := parse(toDate).value - parse(fromDate).value;
      (r.value == "MORE THAN 7 MONTHS" <==> d > 210)
      && (!(120 < d < 150) ==> r == MonthsBetween(fromDate, toDate, parse))
  {
    var d1 := parse(fromDate);
    var d2 := parse(toDate);
    if d1.None? || d2.None? then None
    else
      DurationBucketFacts(d2.value - d1.value, d2.value - d1.value);
      Some(DurationBucket(d2.value - d1.value))
  }

  // ================================================================ shared reply handling

  /** `s[1:-1]` when `s` starts and ends with a double quote. */
  function Unquote(s: string): (r: string)
    ensures |r| <= |s|
    ensures !(StartsWith(s, "\"") && EndsWith(s, "\"")) ==> r == s
  {
    if StartsWith(s, "\"") && EndsWith(s, "\"") then (if |s| >= 2 then s[1..|s| - 1] else "") else s
  }

  predicate BlankInput(s: Option<string>) {
    s.None? || Strip(s.value) == ""
  }

  // ================================================================ normalize_university

  /** `normalize_university`: the reply's first line (the reply is stripped first), without
      surrounding quotes; the raw value when the input is blank, the call fails, the reply is
      empty, or the first line is empty after unquoting. */
  function NormalizeUniversity(reply: Result<string>, university: Option<string>): (r: Option<string>)
    ensures BlankInput(university) ==> r == university
    ensures !BlankInput(university) ==> r.Some? && r.value != ""
    ensures reply.Err? ==> r == university
  {
    if BlankInput(university) then university
    else if reply.Err? then university
    else
      var lines := SplitLines(Strip(reply.value));
      if lines == [] then university
      else
        var first := Unquote(Strip(lines[0]));
        if first != "" then Some(first) else university
  }

  lemma OneLineUnquote(s: string)
    requires OneLine(s)
    ensures OneLine(Unquote(s))
  {
    if StartsWith(s, "\"") && EndsWith(s, "\"") && |s| >= 2 {
      OneLineSlice(s, 1, |s| - 1);
    }
  }

  /** A normalised name that differs from the input came from the reply and is one line. */
  lemma NormalizeUniversityOneLine(reply: Result<string>, university: Option<string>)
    ensures var r := NormalizeUniversity(reply, university);
      r != university ==> reply.Ok? && r.Some? && OneLine(r.value)
  {
    if reply.Ok? {
      var lines := SplitLines(Strip(reply.value));
      if lines != [] {
        SplitLinesOneLine(Strip(reply.value), 0);
        OneLineStrip(lines[0]);
        OneLineUnquote(Strip(lines[0]));
      }
    }
  }

  // ================================================================ normalize_partfull_time

  const FullTime := "FULLTIME"
  const PartTime := "PARTTIME"

  /** The keyword fallback used when the model's answer is not one of the two labels. */
  function PartFullHeuristic(raw: string): (r: string)
    ensures r == FullTime || r == PartTime || r == raw
    ensures Contains(Lower(raw), "full") ==> r == FullTime
    ensures r == PartTime ==> !Contains(Lower(raw), "full") && Strip(Lower(raw)) != "ft"
  {
    var lower := Lower(raw);
    if Contains(lower, "full") || Strip(lower) == "ft" then FullTime
    else if Contains(lower, "part") || Strip(lower) == "pt" then PartTime
    else raw
  }

  /** `normalize_partfull_time`: blank input comes back unchanged; otherwise the model's first
      non-blank line, unquoted and upper-cased, if it is one of the two labels; otherwise (and
      when the call fails) the keyword fallback on the raw value. */
  function NormalizePartFull(reply: Result<string>, raw: Option<string>): (r: Option<string>)
    ensures BlankInput(raw) ==> r == raw
    ensures !BlankInput(raw) ==> r.Some? && (r.value == FullTime || r.value == PartTime || r == raw)
    ensures !BlankInput(raw) && reply.Err? ==> r == Some(PartFullHeuristic(raw.value))
  {
    if BlankInput(raw) then raw
    else if reply.Err? then Some(PartFullHeuristic(raw.value))
    else
      var first := FirstNonBlank(SplitLines(Strip(reply.value)));
      var normalized := Upper(Unquote(first));
      if normalized == FullTime || normalized == PartTime then Some(normalized)
      else Some(PartFullHeuristic(raw.value))
  }

  /** A model answer naming a label (in any case, quoted or not) is taken over the raw text. */
  /** What the model's first line reads as, for a reply that is a single clean line. */
  lemma FirstLineOfCleanReply(s: string)
    requires s != [] && OneLine(s) && !IsSpace(s[0]) && !IsSpace(s[|s| - 1])
    ensures FirstNonBlank(SplitLines(Strip(s))) == s
  {
    StripClean(s);
    SplitLinesSingle(s);
    assert !Strings.Blank(s) by { assert !IsSpace(s[0]); }
    assert FirstNonBlankIndex([s]) == 0;
  }

  lemma LabelReply(reply: string, raw: string)
    requires Strip(raw) != ""
    requires var n := Upper(Unquote(FirstNonBlank(SplitLines(Strip(reply))))); n == FullTime || n == PartTime
    ensures NormalizePartFull(Ok(reply), Some(raw)) == Some(Upper(Unquote(FirstNonBlank(SplitLines(Strip(reply))))))
  {
  }

  /** A clean upper-case one-line reply reads back as itself. */
  lemma BareWordReadsBack(w: string)
    requires w != [] && OneLine(w) && !IsSpace(w[0]) && !IsSpace(w[|w| - 1]) && w[0] != '"'
    requires forall j :: 0 <= j < |w| ==> !('a' <= w[j] <= 'z')
    ensures Upper(Unquote(FirstNonBlank(SplitLines(Strip(w))))) == w
  {
    FirstLineOfCleanReply(w);
    assert Unquote(w) == w;
    UpperIdentity(w);
  }

  /** The same reply wrapped in double quotes reads back as the bare word. */
  lemma QuotedWordReadsBack(w: string)
    requires w != [] && OneLine(w) && !IsSpace(w[0]) && !IsSpace(w[|w| - 1]) && w[0] != '"'
    requires forall j :: 0 <= j < |w| ==> !('a' <= w[j] <= 'z')
    ensures Upper(Unquote(FirstNonBlank(SplitLines(Strip("\"" + w + "\""))))) == w
  {
    var q := "\"" + w + "\"";
    assert OneLine(q) by {
      forall j | 0 <= j < |q| ensures !IsLineBreak(q[j]) {
        if 0 < j < |q| - 1 { assert q[j] == w[j - 1]; }
      }
    }
    FirstLineOfCleanReply(q);
    assert Unquote(q) == w;
    UpperIdentity(w);
  }

  /** The two labels, bare or quoted, read back as themselves. */
  lemma LabelReadsBack(lbl: string)
    requires lbl == FullTime || lbl == PartTime
    ensures Upper(Unquote(FirstNonBlank(SplitLines(Strip(lbl))))) == lbl
    ensures Upper(Unquote(FirstNonBlank(SplitLines(Strip("\"" + lbl + "\""))))) == lbl
  {
    BareWordReadsBack(lbl);
    QuotedWordReadsBack(lbl);
  }

  lemma ModelLabelWins(raw: string, lbl: string)
    requires Strip(raw) != ""
    requires lbl == FullTime || lbl == PartTime
    ensures NormalizePartFull(Ok(lbl), Some(raw)) == Some(lbl)
    ensures NormalizePartFull(Ok("\"" + lbl + "\""), Some(raw)) == Some(lbl)
  {
    LabelReadsBack(lbl);
    LabelReply(lbl, raw);
    LabelReply("\"" + lbl + "\"", raw);
  }

  // ================================================================ normalize_salary

  predicate IsWordChar(c: char) {
    ('a' <= c <= 'z') || ('A' <= c <= 'Z') || IsDigit(c) || c == '_'
  }

  /** `w` occurs in `s` at `i` with a word boundary on both sides. */
  predicate WordAt(s: string, w: string, i: nat) {
    i + |w| <= |s| && s[i..i + |w|] == w
    && (i == 0 || !IsWordChar(s[i - 1]))
    && (i + |w| == |s| || !IsWordChar(s[i + |w|]))
  }

  function HasWordFrom(s: string, w: string, i: nat): (b: bool)
    ensures b <==> exists j :: i <= j <= |s| && WordAt(s, w, j)
    decreases |s| - i
  {
    if i > |s| then false else WordAt(s, w, i) || HasWordFrom(s, w, i + 1)
  }

  /** `re.search(r"\b(nil|null)\b", s, re.IGNORECASE)`. */
  predicate MentionsNil(s: string) {
    HasWordFrom(Lower(s), "nil", 0) || HasWordFrom(Lower(s), "null", 0)
  }

  predicate IsDigitOrComma(c: char) { IsDigit(c) || c == ',' }

  /** Length of the run of characters satisfying `p` at the start of `s`. */
  function RunOf(s: string, p: char -> bool): (n: nat)
    ensures n <= |s| && forall i :: 0 <= i < n ==> p(s[i])
    ensures n < |s| ==> !p(s[n])
  {
    if s != [] && p(s[0]) then 1 + RunOf(s[1..], p) else 0
  }

  function IndexWhere(s: string, p: char -> bool): (i: nat)
    ensures i <= |s| && (i < |s| ==> p(s[i]))
    ensures forall j :: 0 <= j < i ==> !p(s[j])
  {
    if s == [] then 0 else if p(s[0]) then 0 else 1 + IndexWhere(s[1..], p)
  }

  /** `re.search(r"[\d,]+(?:\.\d+)?", s)`: the leftmost match, if any. */
  function NumberMatch(s: string): (m: Option<string>)
    ensures m.Some? ==> m.value != [] && IsDigitOrComma(m.value[0])
    ensures m.None? <==> forall i :: 0 <= i < |s| ==> !IsDigitOrComma(s[i])
  {
    var i := IndexWhere(s, IsDigitOrComma);
    if i == |s| then None
    else
      var rest := s[i..];
      var j := RunOf(rest, IsDigitOrComma);
      if j + 1 < |rest| && rest[j] == '.' && IsDigit(rest[j + 1]) then
        Some(rest[..j + 1 + RunOf(rest[j + 1..], IsDigit)])
      else Some(rest[..j])
  }

  function RemoveCommas(s: string): (r: string)
    ensures forall i :: 0 <= i < |r| ==> r[i] != ','
    ensures forall i :: 0 <= i < |r| ==> r[i] in s
  {
    if s == [] then []
    else
      var t := RemoveCommas(s[1..]);
      assert forall i :: 0 <= i < |t| ==> t[i] in s by {
        forall i | 0 <= i < |t| ensures t[i] in s {
          var k :| 0 <= k < |s[1..]| && s[1..][k] == t[i];
          assert s[k + 1] == t[i];
        }
      }
      (if s[0] == ',' then [] else [s[0]]) + t
  }

  /** The line the salary is read from: the reply's first non-blank line, or the raw text's
      when the call failed. */
  function SalaryLine(reply: Result<string>, raw: string): string {
    var text := if reply.Ok? then Strip(reply.value) else raw;
    FirstNonBlank(SplitLines(text))
  }

  /** `normalize_salary` as written. */
  function NormalizeSalaryAsWritten(reply: Result<string>, raw: Option<string>): (r: string)
    ensures raw.None? || raw.value == "" || MentionsNil(raw.value) ==> r == "any"
    ensures forall i :: 0 <= i < |r| ==> r[i] != ','
  {
    if raw.None? || raw.value == "" || MentionsNil(raw.value) then "any"
    else
      var first := SalaryLine(reply, raw.value);
      if Lower(first) == "any" then "any"
      else match NumberMatch(first)
        case None => "any"
        case Some(m) => RemoveCommas(m)
  }

  function CommaRunValue(n: nat): (r: string)
    ensures |r| == n && forall i :: 0 <= i < n ==> r[i] == ','
  {
    if n == 0 then "" else CommaRunValue(n - 1) + ","
  }

  lemma {:induction false} RemoveCommasOfCommas(s: string)
    requires forall i :: 0 <= i < |s| ==> s[i] == ','
    ensures RemoveCommas(s) == ""
  {
    if s != [] { RemoveCommasOfCommas(s[1..]); }
  }

  lemma SalaryFromMatch(reply: Result<string>, raw: string)
    requires raw != "" && !MentionsNil(raw) && Lower(SalaryLine(reply, raw)) != "any"
    requires NumberMatch(SalaryLine(reply, raw)).Some?
    ensures NormalizeSalaryAsWritten(reply, Some(raw)) == RemoveCommas(NumberMatch(SalaryLine(reply, raw)).value)
  {
  }

  /** Without the model the salary is read from the raw text; a clean single line is its
      own first line. */
  lemma CleanRawIsSalaryLine(error: string, raw: string)
    requires raw != [] && OneLine(raw) && !IsSpace(raw[0]) && !IsSpace(raw[|raw| - 1])
    ensures SalaryLine(Err(error), raw) == raw
  {
    SplitLinesSingle(raw);
    assert !Strings.Blank(raw) by { assert !IsSpace(raw[0]); }
    assert FirstNonBlankIndex([raw]) == 0;
    StripClean(raw);
  }

  /** In a text with a comma but no digit, the number pattern matches a run of commas. */
  lemma CommaOnlyMatch(s: string)
    requires ',' in s && forall i :: 0 <= i < |s| ==> !IsDigit(s[i])
    ensures NumberMatch(s).Some? && forall k :: 0 <= k < |NumberMatch(s).value| ==> NumberMatch(s).value[k] == ','
  {
    var i := IndexWhere(s, IsDigitOrComma);
    var rest := s[i..];
    var j := RunOf(rest, IsDigitOrComma);
    assert forall k :: 0 <= k < j ==> rest[k] == s[i + k];
  }

  /** Without the model, a one-line salary with a comma but no digit (and no "nil"/"null")
      is stored as the empty string. */
  lemma SalaryCommaOnly(error: string, raw: string)
    requires raw != [] && OneLine(raw) && !IsSpace(raw[0]) && !IsSpace(raw[|raw| - 1])
    requires !MentionsNil(raw) && Lower(raw) != "any"
    requires ',' in raw && forall i :: 0 <= i < |raw| ==> !IsDigit(raw[i])
    ensures NormalizeSalaryAsWritten(Err(error), Some(raw)) == ""
  {
    CleanRawIsSalaryLine(error, raw);
    CommaOnlyMatch(raw);
    RemoveCommasOfCommas(NumberMatch(raw).value);
    SalaryFromMatch(Err(error), raw);
  }

  /** A word cannot occur where its first letter does not. */
  lemma {:induction false} NoFirstLetterNoWord(s: string, w: string, i: nat)
    requires w != [] && forall k :: 0 <= k < |s| ==> s[k] != w[0]
    ensures !HasWordFrom(s, w, i)
    decreases |s| - i
  {
    if i <= |s| {
      if i + |w| <= |s| { assert s[i..i + |w|][0] == s[i]; }
      NoFirstLetterNoWord(s, w, i + 1);
    }
  }

  /** A text without the letter n mentions neither "nil" nor "null". */
  lemma NoLetterNNoNil(s: string)
    requires forall i :: 0 <= i < |s| ==> s[i] != 'n' && s[i] != 'N'
    ensures !MentionsNil(s)
  {
    var lo := Lower(s);
    assert forall k :: 0 <= k < |lo| ==> lo[k] != 'n';
    NoFirstLetterNoWord(lo, "nil", 0);
    NoFirstLetterNoWord(lo, "null", 0);
  }

  /** The shape of the example salary text. */
  lemma ExampleSalaryShape(raw: string)
    requires raw == "TBD, flexible"
    ensures raw != [] && OneLine(raw) && !IsSpace(raw[0]) && !IsSpace(raw[|raw| - 1])
    ensures ',' in raw && forall i :: 0 <= i < |raw| ==> !IsDigit(raw[i])
  {
    assert raw[3] == ',';
  }

  /** The example salary text is neither "any" nor a "nil"/"null" mention. */
  lemma ExampleSalaryWords(raw: string)
    requires raw == "TBD, flexible"
    ensures !MentionsNil(raw) && Lower(raw) != "any"
  {
    NoLetterNNoNil(raw);
    assert |Lower(raw)| == 13;
  }

  /** The concrete case: "TBD, flexible" with the model call failing. */
  lemma SalaryAsWrittenEmpty()
    ensures NormalizeSalaryAsWritten(Err("timeout"), Some("TBD, flexible")) == ""
  {
    ExampleSalaryShape("TBD, flexible");
    ExampleSalaryWords("TBD, flexible");
    SalaryCommaOnly("timeout", "TBD, flexible");
  }

  /** `normalize_salary` with the evident intent kept: a match without a digit means "any". */
  function NormalizeSalary(reply: Result<string>, raw: Option<string>): (r: string)
    ensures raw.None? || raw.value == "" || MentionsNil(raw.value) ==> r == "any"
    ensures r != ""
    ensures r != "any" ==> forall i :: 0 <= i < |r| ==> IsDigit(r[i]) || r[i] == '.'
  {
    if raw.None? || raw.value == "" || MentionsNil(raw.value) then "any"
    else
      var first := SalaryLine(reply, raw.value);
      if Lower(first) == "any" then "any"
      else match NumberMatch(first)
        case None => "any"
        case Some(m) =>
          var digits := RemoveCommas(m);
          if digits == "" then "any"
          else
            NumberMatchChars(first);
            assert forall i :: 0 <= i < |digits| ==> digits[i] in m;
            digits
  }

  /** Every character of a match is a digit, a comma or the decimal point. */
  lemma NumberMatchChars(s: string)
    ensures NumberMatch(s).Some? ==> forall c :: c in NumberMatch(s).value ==> IsDigitOrComma(c) || c == '.'
  {
    var i := IndexWhere(s, IsDigitOrComma);
    if i < |s| {
      var rest := s[i..];
      var j := RunOf(rest, IsDigitOrComma);
      if j + 1 < |rest| && rest[j] == '.' && IsDigit(rest[j + 1]) {
        var k := RunOf(rest[j + 1..], IsDigit);
        forall p | j < p < j + 1 + k ensures IsDigit(rest[p]) {
          assert rest[p] == rest[j + 1..][p - j - 1];
        }
        FractionChars(rest, j, k);
      } else {
        RunChars(rest, j);
      }
    }
  }

  /** A run of digits and commas holds nothing else. */
  lemma RunChars(rest: string, j: nat)
    requires j <= |rest| && forall p :: 0 <= p < j ==> IsDigitOrComma(rest[p])
    ensures forall c :: c in rest[..j] ==> IsDigitOrComma(c) || c == '.'
  {
    forall c | c in rest[..j] ensures IsDigitOrComma(c) || c == '.' {
      var p :| 0 <= p < j && rest[..j][p] == c;
      assert rest[p] == c;
    }
  }

  /** Digits and commas, the decimal point, then digits: nothing else. */
  lemma FractionChars(rest: string, j: nat, k: nat)
    requires j < |rest| && rest[j] == '.' && j + 1 + k <= |rest|
    requires forall p :: 0 <= p < j ==> IsDigitOrComma(rest[p])
    requires forall p :: j < p < j + 1 + k ==> IsDigit(rest[p])
    ensures forall c :: c in rest[..j + 1 + k] ==> IsDigitOrComma(c) || c == '.'
  {
    var m := rest[..j + 1 + k];
    forall c | c in m ensures IsDigitOrComma(c) || c == '.' {
      var p :| 0 <= p < |m| && m[p] == c;
      assert m[p] == rest[p];
    }
  }

  /** The corrected normaliser differs from the source only where the source answers "". */
  lemma SalaryCorrectionIsMinimal(reply: Result<string>, raw: Option<string>)
    ensures NormalizeSalaryAsWritten(reply, raw) != "" ==>
      NormalizeSalary(reply, raw) == NormalizeSalaryAsWritten(reply, raw)
    ensures NormalizeSalaryAsWritten(reply, raw) == "" ==> NormalizeSalary(reply, raw) == "any"
  {
  }

  // ================================================================ FAISS metadata

  /** One stored chunk: the four parallel metadata lists read position by position. */
  datatype ChunkEntry = ChunkEntry(chunk: string, candidateKey: string, filename: string, chunkId: string)

  type Vector = seq<real>

  function ChunkId(candidateKey: string, filename: string, position: nat): string {
    candidateKey + "_" + filename + "_" + NatToString(position)
  }

  /** The entries `add_to_faiss_index` appends when `n` entries are already stored. */
  function NewEntries(chunks: seq<string>, candidateKey: string, filename: string, n: nat): (r: seq<ChunkEntry>)
    ensures |r| == |chunks|
    ensures forall i :: 0 <= i < |r| ==>
      r[i] == ChunkEntry(chunks[i], candidateKey, filename, ChunkId(candidateKey, filename, n + i))
  {
    if chunks == [] then []
    else NewEntries(chunks[..|chunks| - 1], candidateKey, filename, n)
         + [ChunkEntry(chunks[|chunks| - 1], candidateKey, filename, ChunkId(candidateKey, filename, n + |chunks| - 1))]
  }

  lemma NatToStringInjective(a: nat, b: nat)
    requires NatToString(a) == NatToString(b)
    ensures a == b
  {
    NatToStringRoundTrip(a);
    NatToStringRoundTrip(b);
  }

  /** Two ids of the same file are equal only for the same position. */
  lemma ChunkIdInjective(candidateKey: string, filename: string, a: nat, b: nat)
    requires ChunkId(candidateKey, filename, a) == ChunkId(candidateKey, filename, b)
    ensures a == b
  {
    var prefix := candidateKey + "_" + filename + "_";
    assert NatToString(a) == ChunkId(candidateKey, filename, a)[|prefix|..];
    assert NatToString(b) == ChunkId(candidateKey, filename, b)[|prefix|..];
    NatToStringInjective(a, b);
  }

  /** The ids one call hands out are pairwise distinct. */
  lemma NewIdsDistinct(chunks: seq<string>, candidateKey: string, filename: string, n: nat)
    ensures forall i, j :: 0 <= i < j < |chunks| ==>
      NewEntries(chunks, candidateKey, filename, n)[i].chunkId != NewEntries(chunks, candidateKey, filename, n)[j].chunkId
  {
    var r := NewEntries(chunks, candidateKey, filename, n);
    forall i, j | 0 <= i < j < |r| ensures r[i].chunkId != r[j].chunkId {
      if r[i].chunkId == r[j].chunkId {
        ChunkIdInjective(candidateKey, filename, n + i, n + j);
      }
    }
  }

  predicate Matches(e: ChunkEntry, candidateKey: string, filename: string) {
    e.candidateKey == candidateKey && e.filename == filename
  }

  /** The entries that survive a removal, in their original order. */
  function Kept(entries: seq<ChunkEntry>, candidateKey: string, filename: string): seq<ChunkEntry> {
    if entries == [] then []
    else Kept(entries[..|entries| - 1], candidateKey, filename)
         + (if Matches(entries[|entries| - 1], candidateKey, filename) then [] else [entries[|entries| - 1]])
  }

  /** Their positions, used to copy the surviving vectors. */
  function KeptPositions(entries: seq<ChunkEntry>, candidateKey: string, filename: string): (p: seq<nat>)
    ensures forall i :: 0 <= i < |p| ==> p[i] < |entries|
  {
    if entries == [] then []
    else KeptPositions(entries[..|entries| - 1], candidateKey, filename)
         + (if Matches(entries[|entries| - 1], candidateKey, filename) then [] else [|entries| - 1])
  }

  function Pick<T>(s: seq<T>, positions: seq<nat>): (r: seq<T>)
    requires forall i :: 0 <= i < |positions| ==> positions[i] < |s|
    ensures |r| == |positions| && forall i :: 0 <= i < |r| ==> r[i] == s[positions[i]]
  {
    if positions == [] then [] else Pick(s, positions[..|positions| - 1]) + [s[positions[|positions| - 1]]]
  }

  /** Removal keeps exactly the other entries: none of the removed file's remain, every
      other entry is kept, nothing new appears, and `Kept` is the pick at the recorded
      positions (so the surviving entries keep their order). */
  lemma {:induction false} KeptFacts(entries: seq<ChunkEntry>, candidateKey: string, filename: string)
    ensures var k := Kept(entries, candidateKey, filename);
      (forall i :: 0 <= i < |k| ==> !Matches(k[i], candidateKey, filename))
      && (forall e :: e in entries && !Matches(e, candidateKey, filename) ==> e in k)
      && (forall e :: e in k ==> e in entries)
  {
    if entries != [] {
      var init := entries[..|entries| - 1];
      KeptFacts(init, candidateKey, filename);
      assert entries == init + [entries[|entries| - 1]];
    }
  }

  lemma {:induction false} KeptIsPick(entries: seq<ChunkEntry>, candidateKey: string, filename: string)
    ensures Kept(entries, candidateKey, filename) == Pick(entries, KeptPositions(entries, candidateKey, filename))
  {
    if entries != [] {
      var init := entries[..|entries| - 1];
      KeptIsPick(init, candidateKey, filename);
      var p := KeptPositions(init, candidateKey, filename);
      assert Pick(entries, p) == Pick(init, p) by {
        PickPrefix(init, entries, p);
      }
      var q := KeptPositions(entries, candidateKey, filename);
      if !Matches(entries[|entries| - 1], candidateKey, filename) {
        assert q[..|q| - 1] == p;
      }
    }
  }

  lemma {:induction false} PickPrefix<T>(a: seq<T>, b: seq<T>, p: seq<nat>)
    requires a <= b && forall i :: 0 <= i < |p| ==> p[i] < |a|
    ensures Pick(b, p) == Pick(a, p)
  {
    if p != [] { PickPrefix(a, b, p[..|p| - 1]); }
  }

  /** Nothing is removed exactly when no entry belongs to the file. */
  lemma {:induction false} KeptAllIff(entries: seq<ChunkEntry>, candidateKey: string, filename: string)
    ensures |Kept(entries, candidateKey, filename)| == |entries|
        <==> forall i :: 0 <= i < |entries| ==> !Matches(entries[i], candidateKey, filename)
  {
    if entries != [] {
      var init := entries[..|entries| - 1];
      KeptAllIff(init, candidateKey, filename);
      KeptLength(init, candidateKey, filename);
      assert forall i :: 0 <= i < |init| ==> init[i] == entries[i];
    }
  }

  lemma {:induction false} KeptLength(entries: seq<ChunkEntry>, candidateKey: string, filename: string)
    ensures |Kept(entries, candidateKey, filename)| <= |entries|
  {
    if entries != [] { KeptLength(entries[..|entries| - 1], candidateKey, filename); }
  }

  /** Removing twice removes nothing more. */
  lemma {:induction false} KeptIdempotent(entries: seq<ChunkEntry>, candidateKey: string, filename: string)
    ensures Kept(Kept(entries, candidateKey, filename), candidateKey, filename) == Kept(entries, candidateKey, filename)
  {
    if entries != [] {
      var init := entries[..|entries| - 1];
      var last := entries[|entries| - 1];
      KeptIdempotent(init, candidateKey, filename);
      var ki := Kept(init, candidateKey, filename);
      if !Matches(last, candidateKey, filename) {
        var s := ki + [last];
        assert Kept(entries, candidateKey, filename) == s;
        assert s[..|s| - 1] == ki;
        assert s[|s| - 1] == last;
        assert Kept(s, candidateKey, filename) == Kept(ki, candidateKey, filename) + [last];
      } else {
        assert Kept(entries, candidateKey, filename) == ki;
      }
    }
  }

  /** The metadata store beside the vector index: one vector per stored entry. */
  class FaissStore {
    var vectors: seq<Vector>
    var entries: seq<ChunkEntry>

    ghost predicate Valid()
      reads this
    {
      |vectors| == |entries|
    }

    constructor ()
      ensures Valid() && vectors == [] && entries == []
    {
      vectors := [];
      entries := [];
    }

    /** `add_to_faiss_index`: nothing when either list is empty; otherwise the vectors and
        one entry per chunk, numbered from the current entry count. */
    method AddChunks(chunks: seq<string>, embeddings: seq<Vector>, candidateKey: string, filename: string)
      requires Valid()
      requires chunks == [] || embeddings == [] || |chunks| == |embeddings|
      modifies this
      ensures Valid()
      ensures chunks == [] || embeddings == [] ==> vectors == old(vectors) && entries == old(entries)
      ensures chunks != [] && embeddings != [] ==>
        vectors == old(vectors) + embeddings
        && entries == old(entries) + NewEntries(chunks, candidateKey, filename, |old(entries)|)
    {
      if chunks == [] || embeddings == [] {
        return;
      }
      vectors := vectors + embeddings;
      var i := 0;
      ghost var start := entries;
      while i < |chunks|
        invariant 0 <= i <= |chunks|
        invariant entries == start + NewEntries(chunks[..i], candidateKey, filename, |start|)
        invariant vectors == old(vectors) + embeddings
      {
        assert chunks[..i + 1][..i] == chunks[..i];
        entries := entries + [ChunkEntry(chunks[i], candidateKey, filename, ChunkId(candidateKey, filename, |entries|))];
        i := i + 1;
      }
      assert chunks[..i] == chunks;
    }

    /** `remove_candidate_from_faiss` as written: the store is rebuilt from the other entries
        only when some, but not all, entries belong to the file. Returns whether it was. */
    method RemoveCandidateAsWritten(candidateKey: string, filename: string) returns (rebuilt: bool)
      requires Valid()
      modifies this
      ensures Valid()
      ensures var k := Kept(old(entries), candidateKey, filename);
        rebuilt == (|k| < |old(entries)| && |k| > 0)
        && entries == (if rebuilt then k else old(entries))
        && vectors == (if rebuilt then Pick(old(vectors), KeptPositions(old(entries), candidateKey, filename)) else old(vectors))
    {
      var keep, positions := KeepOthers(candidateKey, filename);
      rebuilt := |positions| < |entries| && |positions| > 0;
      if rebuilt {
        vectors := Pick(vectors, positions);
        entries := keep;
      }
    }

    /** Removal that also empties the store when every entry belongs to the file. */
    method RemoveCandidate(candidateKey: string, filename: string) returns (removed: nat)
      requires Valid()
      modifies this
      ensures Valid()
      ensures entries == Kept(old(entries), candidateKey, filename)
      ensures vectors == Pick(old(vectors), KeptPositions(old(entries), candidateKey, filename))
      ensures removed == |old(entries)| - |entries|
    {
      var keep, positions := KeepOthers(candidateKey, filename);
      KeptLength(entries, candidateKey, filename);
      removed := |entries| - |keep|;
      if |positions| < |entries| {
        vectors := Pick(vectors, positions);
        entries := keep;
      } else {
        KeptAllWhenNoneRemoved(entries, candidateKey, filename);
        PickAll(vectors);
      }
    }

    /** The scan over the zipped metadata lists. */
    method KeepOthers(candidateKey: string, filename: string) returns (keep: seq<ChunkEntry>, positions: seq<nat>)
      requires Valid()
      ensures keep == Kept(entries, candidateKey, filename)
      ensures positions == KeptPositions(entries, candidateKey, filename)
      ensures |keep| == |positions|
    {
      keep, positions := [], [];
      var i := 0;
      while i < |entries|
        invariant 0 <= i <= |entries|
        invariant keep == Kept(entries[..i], candidateKey, filename)
        invariant positions == KeptPositions(entries[..i], candidateKey, filename)
      {
        assert entries[..i + 1][..i] == entries[..i];
        if !Matches(entries[i], candidateKey, filename) {
          keep := keep + [entries[i]];
          positions := positions + [i];
        }
        i := i + 1;
      }
      assert entries[..i] == entries;
      KeptIsPick(entries, candidateKey, filename);
    }
  }

  lemma {:induction false} KeptAllWhenNoneRemoved(entries: seq<ChunkEntry>, candidateKey: string, filename: string)
    requires |KeptPositions(entries, candidateKey, filename)| >= |entries|
    ensures Kept(entries, candidateKey, filename) == entries
    ensures KeptPositions(entries, candidateKey, filename) == Range(|entries|)
  {
    if entries != [] {
      var init, last := entries[..|entries| - 1], entries[|entries| - 1];
      assert KeptPositions(entries, candidateKey, filename)
        == KeptPositions(init, candidateKey, filename) + (if Matches(last, candidateKey, filename) then [] else [|init|]);
      KeptPositionsLength(init, candidateKey, filename);
      assert !Matches(last, candidateKey, filename);
      KeptAllWhenNoneRemoved(init, candidateKey, filename);
      assert Kept(entries, candidateKey, filename) == Kept(init, candidateKey, filename) + [last];
      assert entries == init + [last];
      assert Range(|entries|) == Range(|init|) + [|init|];
    }
  }

  lemma {:induction false} KeptPositionsLength(entries: seq<ChunkEntry>, candidateKey: string, filename: string)
    ensures |KeptPositions(entries, candidateKey, filename)| <= |entries|
  {
    if entries != [] { KeptPositionsLength(entries[..|entries| - 1], candidateKey, filename); }
  }

  lemma PickAll<T>(s: seq<T>)
    ensures Pick(s, Range(|s|)) == s
  {
  }

  /** Removing a file whose chunks are the only ones stored leaves them all in place. */
  method AsWrittenLeavesStaleChunks() returns (store: FaissStore)
    ensures store.Valid() && |store.entries| == 1 && Matches(store.entries[0], "alice", "cv.pdf")
  {
    store := new FaissStore();
    store.AddChunks(["Python developer"], [[1.0]], "alice", "cv.pdf");
    var rebuilt := store.RemoveCandidateAsWritten("alice", "cv.pdf");
  }

  /** The corrected removal leaves nothing of the file behind in the same situation. */
  method CorrectedRemovesAll() returns (store: FaissStore)
    ensures store.Valid() && store.entries == []
  {
    store := new FaissStore();
    store.AddChunks(["Python developer"], [[1.0]], "alice", "cv.pdf");
    var removed := store.RemoveCandidate("alice", "cv.pdf");
  }
}
