/** ingestion/ingest_normal.py: merging the per-page experience sections of a resume, the
    summary paragraph built from them, the JSON payload cut out of a model reply, the
    ranking of skill categories, the category-score table and the shape of what
    `ingest_resume_normal` returns. Model replies, their decoding and the database are
    inputs. */
module IngestNormal {
  import opened Wrappers
  import opened Strings
  import opened Json
  import StableSort

  // ================================================================ section merge

  /** One section of a page: its heading and its entries. */
  datatype Section = Section(name: string, entries: seq<Json>)

  /** One page of the resume: skipped (the model call failed, the reply did not decode or
      had no "sections"), or the sections it lists. */
  datatype PageOutcome = Skipped | Page(sections: seq<Section>)

  function Names(agg: seq<Section>): (r: seq<string>)
    ensures |r| == |agg| && forall i :: 0 <= i < |agg| ==> r[i] == agg[i].name
  {
    if agg == [] then [] else Names(agg[..|agg| - 1]) + [agg[|agg| - 1].name]
  }

  predicate DistinctNames(agg: seq<Section>) {
    forall i, j :: 0 <= i < j < |agg| ==> agg[i].name != agg[j].name
  }

  /** `next((s for s in aggregated if s["section_name"] == name), None)`, as a position;
      `|agg|` stands for None. */
  function FindSection(agg: seq<Section>, name: string): (k: nat)
    ensures k <= |agg| && (k < |agg| ==> agg[k].name == name)
    ensures forall j :: 0 <= j < k ==> agg[j].name != name
  {
    if agg == [] then 0
    else if agg[0].name == name then 0
    else 1 + FindSection(agg[1..], name)
  }

  /** Merging one section: a new heading is appended with its entries, a known one gets
      the entries appended to its own. */
  function AddSection(agg: seq<Section>, sec: Section): seq<Section> {
    var k := FindSection(agg, sec.name);
    if k == |agg| then agg + [Section(sec.name, sec.entries)]
    else agg[k := Section(agg[k].name, agg[k].entries + sec.entries)]
  }

  function AddSections(agg: seq<Section>, secs: seq<Section>): seq<Section> {
    if secs == [] then agg else AddSection(AddSections(agg, secs[..|secs| - 1]), secs[|secs| - 1])
  }

  /** Every section of every page that was not skipped, in page order. */
  function AllSections(pages: seq<PageOutcome>): seq<Section> {
    if pages == [] then []
    else
      var last := pages[|pages| - 1];
      AllSections(pages[..|pages| - 1]) + (if last.Page? then last.sections else [])
  }

  /** What `extract_summary_from_pdf` returns under "sections". */
  function Merged(pages: seq<PageOutcome>): seq<Section> {
    AddSections([], AllSections(pages))
  }

  /** The merge loop of `extract_summary_from_pdf`, page by page. */
  method MergeSections(pages: seq<PageOutcome>) returns (agg: seq<Section>)
    ensures agg == Merged(pages)
  {
    agg := [];
    var p := 0;
    while p < |pages|
      invariant 0 <= p <= |pages|
      invariant agg == AddSections([], AllSections(pages[..p]))
    {
      assert pages[..p + 1][..p] == pages[..p];
      assert AllSections(pages[..p + 1])
        == AllSections(pages[..p]) + (if pages[p].Page? then pages[p].sections else []);
      if pages[p].Page? {
        AddSectionsConcat([], AllSections(pages[..p]), pages[p].sections);
        agg := MergePage(agg, pages[p].sections);
      } else {
        assert AllSections(pages[..p]) + [] == AllSections(pages[..p]);
      }
      p := p + 1;
    }
    assert pages[..p] == pages;
  }

  /** The sections of one page merged into the aggregate, one after the other. */
  method MergePage(agg0: seq<Section>, secs: seq<Section>) returns (agg: seq<Section>)
    ensures agg == AddSections(agg0, secs)
  {
    agg := agg0;
    var s := 0;
    while s < |secs|
      invariant 0 <= s <= |secs|
      invariant agg == AddSections(agg0, secs[..s])
    {
      assert secs[..s + 1][..s] == secs[..s];
      var name := secs[s].name;
      var k := LocateSection(agg, name);
      if k == |agg| {
        agg := agg + [Section(name, secs[s].entries)];
      } else {
        agg := agg[k := Section(agg[k].name, agg[k].entries + secs[s].entries)];
      }
      s := s + 1;
    }
    assert secs[..s] == secs;
  }

  /** The search for an existing section with the same heading. */
  method LocateSection(agg: seq<Section>, name: string) returns (k: nat)
    ensures k == FindSection(agg, name)
  {
    k := 0;
    while k < |agg| && agg[k].name != name
      invariant 0 <= k <= |agg|
      invariant forall j :: 0 <= j < k ==> agg[j].name != name
    {
      k := k + 1;
    }
    FindSectionUnique(agg, name, k);
  }

  /** The first position holding `name` is the one `FindSection` names. */
  lemma FindSectionUnique(agg: seq<Section>, name: string, k: nat)
    requires k <= |agg| && (k < |agg| ==> agg[k].name == name)
    requires forall j :: 0 <= j < k ==> agg[j].name != name
    ensures k == FindSection(agg, name)
  {
  }

  lemma {:induction false} AddSectionsConcat(agg: seq<Section>, a: seq<Section>, b: seq<Section>)
    ensures AddSections(agg, a + b) == AddSections(AddSections(agg, a), b)
    decreases |b|
  {
    if b == [] {
      assert a + b == a;
    } else {
      AddSectionsConcat(agg, a, b[..|b| - 1]);
      assert (a + b)[..|a + b| - 1] == a + b[..|b| - 1];
    }
  }

  /** A skipped page leaves the aggregate as it was. */
  lemma SkippedPageNoChange(pages: seq<PageOutcome>)
    ensures Merged(pages + [Skipped]) == Merged(pages)
  {
    assert (pages + [Skipped])[..|pages|] == pages;
    assert AllSections(pages + [Skipped]) == AllSections(pages) + [];
    assert AllSections(pages) + [] == AllSections(pages);
  }

  /** Merging one section keeps the headings distinct. */
  lemma AddSectionDistinct(agg: seq<Section>, sec: Section)
    requires DistinctNames(agg)
    ensures DistinctNames(AddSection(agg, sec))
  {
  }

  /** It adds its heading at the end if the heading is new, and changes no heading else. */
  lemma AddSectionNames(agg: seq<Section>, sec: Section)
    ensures Names(AddSection(agg, sec)) == (if sec.name in Names(agg) then Names(agg) else Names(agg) + [sec.name])
  {
    var k := FindSection(agg, sec.name);
    if k == |agg| {
      assert sec.name !in Names(agg);
    } else {
      assert Names(agg)[k] == sec.name;
    }
  }

  /** It appends its entries to its heading's and to no other heading's. */
  lemma AddSectionEntries(agg: seq<Section>, sec: Section, n: string)
    ensures EntriesOf(AddSection(agg, sec), n) == EntriesOf(agg, n) + (if n == sec.name then sec.entries else [])
  {
    var r := AddSection(agg, sec);
    var k := FindSection(agg, sec.name);
    var f := FindSection(agg, n);
    if k == |agg| && n == sec.name {
      FindSectionUnique(r, n, |agg|);
    } else if k == |agg| && f == |agg| {
      FindSectionUnique(r, n, |r|);
    } else {
      FindSectionUnique(r, n, f);
    }
  }

  /** The entries gathered under heading `n` (none when it is absent). */
  function EntriesOf(agg: seq<Section>, n: string): seq<Json> {
    var k := FindSection(agg, n);
    if k < |agg| then agg[k].entries else []
  }

  /** The headings in first-appearance order, each once. */
  function FirstAppearance(names: seq<string>): seq<string> {
    if names == [] then []
    else
      var init := FirstAppearance(names[..|names| - 1]);
      if names[|names| - 1] in names[..|names| - 1] then init else init + [names[|names| - 1]]
  }

  /** The entries of all sections named `n`, in order. */
  function AllEntriesNamed(secs: seq<Section>, n: string): seq<Json> {
    if secs == [] then []
    else
      var last := secs[|secs| - 1];
      AllEntriesNamed(secs[..|secs| - 1], n) + (if last.name == n then last.entries else [])
  }

  /** Headings of the merge are pairwise distinct and in first-appearance order; the entries
      under each are those of every section with that heading, in page order. */
  lemma {:induction false} MergeFacts(secs: seq<Section>)
    ensures DistinctNames(AddSections([], secs))
    ensures Names(AddSections([], secs)) == FirstAppearance(Names(secs))
    ensures forall n :: EntriesOf(AddSections([], secs), n) == AllEntriesNamed(secs, n)
  {
    if secs != [] {
      var init, last := secs[..|secs| - 1], secs[|secs| - 1];
      MergeFacts(init);
      var a := AddSections([], init);
      AddSectionDistinct(a, last);
      AddSectionNames(a, last);
      forall n ensures EntriesOf(AddSections([], secs), n) == AllEntriesNamed(secs, n) {
        AddSectionEntries(a, last, n);
      }
      assert Names(secs)[..|secs| - 1] == Names(init);
      MergeNamesAre(init);
      assert (last.name in Names(a)) == (last.name in Names(init));
    }
  }

  /** The merged headings are exactly the headings that occur. */
  lemma {:induction false} MergeNamesAre(secs: seq<Section>)
    ensures forall n :: n in Names(AddSections([], secs)) <==> n in Names(secs)
  {
    if secs != [] {
      var init, last := secs[..|secs| - 1], secs[|secs| - 1];
      MergeNamesAre(init);
      AddSectionNames(AddSections([], init), last);
      assert Names(secs) == Names(init) + [last.name];
    }
  }

  // ================================================================ extract_summary_paragraph

  /** `for x in j:` over a decoded value, as far as the loop bodies here can survive it: a
      list yields its items; an empty dict or string yields nothing; a non-empty dict or
      string yields strings, on which the body's `.get` raises; anything else raises. */
  function Iterate(j: Json): (r: Result<seq<Json>>)
    ensures j.Arr? ==> r == Ok(j.items)
  {
    match j
    case Arr(items) => Ok(items)
    case Obj(m) => if m == map[] then Ok([]) else Err("'str' object has no attribute 'get'")
    case Str(s) => if s == "" then Ok([]) else Err("'str' object has no attribute 'get'")
    case _ => Err("object is not iterable")
  }

  /** `d.get(key, default)` on a dict. */
  function Get(d: map<string, Json>, key: string, default: Json): Json {
    if key in d then d[key] else default
  }

  /** A piece of the paragraph: non-empty, with no surrounding whitespace. */
  predicate CleanPart(p: string) {
    p != "" && !IsSpace(p[0]) && !IsSpace(p[|p| - 1])
  }

  /** `entry.get("summary", "").strip()`, kept when non-empty. */
  function EntryPart(entry: Json): (r: Result<seq<string>>)
    ensures r.Ok? ==> forall i :: 0 <= i < |r.value| ==> CleanPart(r.value[i])
    ensures r.Ok? ==> |r.value| <= 1
  {
    if !entry.Obj? then Err("object has no attribute 'get'")
    else
      var s := Get(entry.fields, "summary", Str(""));
      if !s.Str? then Err("object has no attribute 'strip'")
      else
        var c := Strip(s.s);
        if c != "" then assert CleanPart([c][0]); Ok([c]) else Ok([])
  }

  function EntriesParts(entries: seq<Json>): (r: Result<seq<string>>)
    ensures r.Ok? ==> forall i :: 0 <= i < |r.value| ==> CleanPart(r.value[i])
  {
    if entries == [] then Ok([])
    else
      var init := EntriesParts(entries[..|entries| - 1]);
      var last := EntryPart(entries[|entries| - 1]);
      if init.Err? then init else if last.Err? then last else Ok(init.value + last.value)
  }

  function SectionParts(section: Json): (r: Result<seq<string>>)
    ensures r.Ok? ==> forall i :: 0 <= i < |r.value| ==> CleanPart(r.value[i])
  {
    if !section.Obj? then Err("object has no attribute 'get'")
    else
      var entries := Iterate(Get(section.fields, "entries", Arr([])));
      if entries.Err? then Err(entries.error) else EntriesParts(entries.value)
  }

  function SectionsParts(sections: seq<Json>): (r: Result<seq<string>>)
    ensures r.Ok? ==> forall i :: 0 <= i < |r.value| ==> CleanPart(r.value[i])
  {
    if sections == [] then Ok([])
    else
      var init := SectionsParts(sections[..|sections| - 1]);
      var last := SectionParts(sections[|sections| - 1]);
      if init.Err? then init else if last.Err? then last else Ok(init.value + last.value)
  }

  /** `extract_summary_paragraph`: `decoded` is what `json.loads` made of the text (None when
      it raised a decode error); other errors propagate as `Err`. */
  function SummaryParagraph(text: string, decoded: Option<Json>): Result<string> {
    if text == "" || decoded.None? then Ok("")
    else if !decoded.value.Obj? || "sections" !in decoded.value.fields then Ok("")
    else
      var sections := Iterate(decoded.value.fields["sections"]);
      if sections.Err? then Err(sections.error)
      else
        var parts := SectionsParts(sections.value);
        if parts.Err? then Err(parts.error) else Ok(Join(parts.value, " "))
  }

  /** The nested loops of `extract_summary_paragraph`. */
  method ExtractSummaryParagraph(text: string, decoded: Option<Json>) returns (r: Result<string>)
    ensures r == SummaryParagraph(text, decoded)
  {
    if text == "" || decoded.None? {
      return Ok("");
    }
    var data := decoded.value;
    if !data.Obj? || "sections" !in data.fields {
      return Ok("");
    }
    var sections := Iterate(data.fields["sections"]);
    if sections.Err? {
      return Err(sections.error);
    }
    var parts: seq<string> := [];
    var i := 0;
    while i < |sections.value|
      invariant 0 <= i <= |sections.value|
      invariant SectionsParts(sections.value[..i]) == Ok(parts)
    {
      assert sections.value[..i + 1][..i] == sections.value[..i];
      var sp := SectionParts(sections.value[i]);
      if sp.Err? {
        SectionsPartsErr(sections.value, i + 1);
        SectionsPartsErrExtends(sections.value, i + 1);
        return Err(sp.error);
      }
      parts := parts + sp.value;
      i := i + 1;
    }
    assert sections.value[..i] == sections.value;
    return Ok(Join(parts, " "));
  }

  /** An error in the first `n` sections is the error of the whole loop. */
  lemma {:induction false} SectionsPartsErrExtends(sections: seq<Json>, n: nat)
    requires n <= |sections| && SectionsParts(sections[..n]).Err?
    ensures SectionsParts(sections) == SectionsParts(sections[..n])
    decreases |sections| - n
  {
    if n < |sections| {
      assert sections[..n + 1][..n] == sections[..n];
      SectionsPartsErrExtends(sections, n + 1);
    } else {
      assert sections[..n] == sections;
    }
  }

  /** Once one section raises, so does the whole loop. */
  lemma {:induction false} SectionsPartsErr(sections: seq<Json>, n: nat)
    requires 0 < n <= |sections|
    requires SectionsParts(sections[..n - 1]).Ok? && SectionParts(sections[n - 1]).Err?
    ensures SectionsParts(sections[..n]) == Err(SectionParts(sections[n - 1]).error)
  {
    assert sections[..n][..n - 1] == sections[..n - 1];
  }

  /** Joining clean pieces with single spaces gives a clean paragraph, empty exactly when
      there are no pieces, that contains each piece. */
  lemma {:induction false} JoinCleanParts(parts: seq<string>)
    requires forall i :: 0 <= i < |parts| ==> CleanPart(parts[i])
    ensures Join(parts, " ") == "" <==> parts == []
    ensures Strip(Join(parts, " ")) == Join(parts, " ")
    ensures forall i :: 0 <= i < |parts| ==> Contains(Join(parts, " "), parts[i])
  {
    var j := Join(parts, " ");
    if |parts| == 1 {
      StripClean(j);
      assert Contains(j, parts[0]);
    } else if |parts| > 1 {
      var rest := Join(parts[1..], " ");
      JoinCleanParts(parts[1..]);
      assert j == parts[0] + " " + rest;
      assert j[|j| - 1] == rest[|rest| - 1];
      StripClean(j);
      assert Contains(j, parts[0]) by { assert parts[0] <= j; }
      forall i | 1 <= i < |parts| ensures Contains(j, parts[i]) {
        assert parts[1..][i - 1] == parts[i];
        ContainsSuffix(parts[0] + " ", rest, parts[i]);
      }
    }
  }

  lemma {:induction false} ContainsSuffix(a: string, b: string, p: string)
    requires Contains(b, p)
    ensures Contains(a + b, p)
    decreases |a|
  {
    if a != [] {
      ContainsSuffix(a[1..], b, p);
      assert (a + b)[1..] == a[1..] + b;
    } else {
      assert a + b == b;
    }
  }

  /** The paragraph has no surrounding whitespace, and holds every non-blank summary. */
  lemma ParagraphIsClean(text: string, decoded: Option<Json>)
    requires SummaryParagraph(text, decoded).Ok?
    ensures var p := SummaryParagraph(text, decoded).value; Strip(p) == p
  {
    if text != "" && decoded.Some? && decoded.value.Obj? && "sections" in decoded.value.fields {
      var sections := Iterate(decoded.value.fields["sections"]);
      JoinCleanParts(SectionsParts(sections.value).value);
    }
  }

  // ================================================================ safe_parse_json

  predicate IsBrace(c: char) { c == '{' || c == '}' }

  /** Length of the run of backticks `s` starts with. */
  function Backticks(s: string): (n: nat)
    ensures n <= |s| && forall i :: 0 <= i < n ==> s[i] == '`'
    ensures n < |s| ==> s[n] != '`'
  {
    if s != [] && s[0] == '`' then 1 + Backticks(s[1..]) else 0
  }

  /** Length of the run of backticks `s` ends with. */
  function TrailingBackticks(s: string): (n: nat)
    ensures n <= |s| && forall i :: |s| - n <= i < |s| ==> s[i] == '`'
  {
    if s != [] && s[|s| - 1] == '`' then 1 + TrailingBackticks(s[..|s| - 1]) else 0
  }

  /** Where the opening fence of `re.sub(r"^```+json\s*|\s*```+$", "", s, flags=re.I)`
      ends: three or more backticks, "json" in any case and the whitespace after it;
      0 when the text does not open with a fence. */
  function OpenFenceEnd(s: string): (a: nat)
    ensures a <= |s| && forall i :: 0 <= i < a ==> !IsBrace(s[i])
  {
    var k := Backticks(s);
    if k >= 3 && k + 4 <= |s| && Lower(s[k..k + 4]) == "json" then
      OpenFenceNoBrace(s, k);
      |s| - |LStrip(s[k + 4..])|
    else 0
  }

  /** The backticks, the word "json" and the whitespace after it hold no brace. */
  lemma OpenFenceNoBrace(s: string, k: nat)
    requires k == Backticks(s) && k + 4 <= |s| && Lower(s[k..k + 4]) == "json"
    ensures |LStrip(s[k + 4..])| <= |s| - k - 4
    ensures forall i :: 0 <= i < |s| - |LStrip(s[k + 4..])| ==> !IsBrace(s[i])
  {
    var w := s[k..k + 4];
    JsonWordNoBrace(w);
    forall i | k <= i < k + 4 ensures !IsBrace(s[i]) {
      assert s[i] == w[i - k];
    }
    var rest := s[k + 4..];
    var n := |s| - |LStrip(rest)|;
    forall i | k + 4 <= i < n ensures IsSpace(s[i]) {
      assert s[i] == rest[i - (k + 4)];
    }
    NoBraceSplit(s, k, k + 4, n);
  }

  /** Backticks, then brace-free text, then whitespace: no brace anywhere. */
  lemma NoBraceSplit(s: string, k: nat, m: nat, n: nat)
    requires k <= m <= n <= |s|
    requires forall i :: 0 <= i < k ==> s[i] == '`'
    requires forall i :: k <= i < m ==> !IsBrace(s[i])
    requires forall i :: m <= i < n ==> IsSpace(s[i])
    ensures forall i :: 0 <= i < n ==> !IsBrace(s[i])
  {
    forall i | m <= i < n ensures !IsBrace(s[i]) {
      SpaceNotBrace(s[i]);
    }
  }

  lemma JsonWordNoBrace(w: string)
    requires Lower(w) == "json"
    ensures forall i :: 0 <= i < |w| ==> !IsBrace(w[i])
  {
    forall i | 0 <= i < |w| ensures !IsBrace(w[i]) {
      assert LowerChar(w[i]) == "json"[i];
    }
  }

  /** Where the closing fence of the same substitution starts: the whitespace before a
      final run of three or more backticks; `|t|` when the text does not close with one. */
  function CloseFenceStart(t: string): (b: nat)
    ensures b <= |t| && forall i :: b <= i < |t| ==> !IsBrace(t[i])
  {
    var m := TrailingBackticks(t);
    if m >= 3 then
      var body := t[..|t| - m];
      var r := RStrip(body);
      assert forall i :: |r| <= i < |body| ==> t[i] == body[i];
      |r|
    else |t|
  }

  lemma NoBraceInTail(s: string, a: nat, b: nat)
    requires a + b <= |s| && forall i :: b <= i < |s| - a ==> !IsBrace(s[a..][i])
    ensures forall i :: a + b <= i < |s| ==> !IsBrace(s[i])
  {
    forall i | a + b <= i < |s| ensures !IsBrace(s[i]) {
      assert s[i] == s[a..][i - a];
    }
  }

  /** The text the substitution keeps: `s[a..b]`. */
  function FenceBounds(s: string): (ab: (nat, nat))
    ensures ab.0 <= ab.1 <= |s|
    ensures forall i :: 0 <= i < ab.0 ==> !IsBrace(s[i])
    ensures forall i :: ab.1 <= i < |s| ==> !IsBrace(s[i])
  {
    var a := OpenFenceEnd(s);
    var b := CloseFenceStart(s[a..]);
    NoBraceInTail(s, a, b);
    (a, a + b)
  }

  /** The text `safe_parse_json` searches: the reply stripped, then its fences cut. */
  function Unfenced(reply: string): string {
    var s := Strip(reply);
    var ab := FenceBounds(s);
    s[ab.0..ab.1]
  }

  /** `re.search(r"(\{.*\})", s, re.DOTALL)`: from the first '{' to the last '}' after it. */
  function Payload(s: string): (r: Option<string>)
    ensures r.Some? ==> |r.value| >= 2 && r.value[0] == '{' && r.value[|r.value| - 1] == '}'
  {
    var i := IndexOf(s, '{');
    var j := LastIndexOf(s, '}');
    if i < j then Some(s[i..j + 1]) else None
  }

  /** There is a payload exactly when some '{' comes before some '}'; it then starts at the
      first '{' and ends at the last '}'. */
  lemma PayloadFacts(s: string)
    ensures Payload(s).Some? <==> exists i, j :: 0 <= i < j < |s| && s[i] == '{' && s[j] == '}'
    ensures forall i, j ::
      (0 <= i < j < |s| && s[i] == '{' && s[j] == '}'
       && (forall k :: 0 <= k < i ==> s[k] != '{') && (forall k :: j < k < |s| ==> s[k] != '}'))
      ==> Payload(s) == Some(s[i..j + 1])
  {
    if exists i', j' :: 0 <= i' < j' < |s| && s[i'] == '{' && s[j'] == '}' {
      var i', j' :| 0 <= i' < j' < |s| && s[i'] == '{' && s[j'] == '}';
      assert IndexOf(s, '{') <= i' && j' <= LastIndexOf(s, '}');
    }
  }

  /** `safe_parse_json`: the payload decoded, or an error when there is none or it does not
      decode. */
  function SafeParseJson(reply: string, decode: string -> Option<Json>): (r: Result<Json>)
    ensures Payload(Unfenced(reply)).None? ==> r == Err("No JSON object found in LLM reply")
  {
    match Payload(Unfenced(reply))
    case None => Err("No JSON object found in LLM reply")
    case Some(p) => match decode(p)
      case None => Err("JSONDecodeError")
      case Some(j) => Ok(j)
  }

  /** Cutting brace-free text off both ends does not move the payload. */
  lemma PayloadOfSlice(s: string, a: nat, b: nat)
    requires a <= b <= |s|
    requires forall i :: 0 <= i < a ==> !IsBrace(s[i])
    requires forall i :: b <= i < |s| ==> !IsBrace(s[i])
    ensures Payload(s[a..b]) == Payload(s)
  {
    var t := s[a..b];
    var i, j := IndexOf(t, '{'), LastIndexOf(t, '}');
    var i', j' := IndexOf(s, '{'), LastIndexOf(s, '}');
    FirstInSlice(s, a, b, '{', i);
    LastInSlice(s, a, b, '}', j);
    PayloadIs(t, i, j);
    PayloadIs(s, i', j');
    if i < j {
      SliceOfSlice(s, a, b, i, j + 1, i', j' + 1);
    }
    SamePayload(t, s, i, j, i', j');
  }

  /** Two texts whose payload bounds agree in whether they hold a payload, and whose
      payloads are the same text when they do, have the same payload. */
  lemma SamePayload(t: string, s: string, i: nat, j: int, i': nat, j': int)
    requires j < |t| && j' < |s|
    requires Payload(t) == if i < j then Some(t[i..j + 1]) else None
    requires Payload(s) == if i' < j' then Some(s[i'..j' + 1]) else None
    requires i < j <==> i' < j'
    requires i < j ==> t[i..j + 1] == s[i'..j' + 1]
    ensures Payload(t) == Payload(s)
  {
  }

  /** `Payload` given the first '{' and the last '}'. */
  lemma PayloadIs(s: string, i: nat, j: int)
    requires i == IndexOf(s, '{') && j == LastIndexOf(s, '}')
    ensures Payload(s) == if i < j then Some(s[i..j + 1]) else None
  {
  }

  /** A slice of a slice is the slice between the shifted bounds `p` and `q`. */
  lemma SliceOfSlice(s: string, a: nat, b: nat, i: nat, j: nat, p: nat, q: nat)
    requires a <= b <= |s| && i <= j <= b - a && p == a + i && q == a + j
    ensures s[a..b][i..j] == s[p..q]
  {
    forall k | 0 <= k < j - i ensures s[a..b][i..j][k] == s[p..q][k] {
      assert s[a..b][i..j][k] == s[p + k];
    }
  }

  /** The first `c` of a slice outside of which `c` does not occur is the first of the
      whole text. */
  lemma FirstInSlice(s: string, a: nat, b: nat, c: char, i: nat)
    requires a <= b <= |s| && i == IndexOf(s[a..b], c)
    requires forall k :: 0 <= k < a ==> s[k] != c
    requires forall k :: b <= k < |s| ==> s[k] != c
    ensures IndexOf(s, c) == if i < b - a then a + i else |s|
  {
    var t := s[a..b];
    var r := if i < |t| then a + i else |s|;
    forall k | 0 <= k < r ensures s[k] != c {
      if a <= k < b { assert s[k] == t[k - a]; }
    }
    if i < |t| { assert s[a + i] == t[i]; }
    IndexOfIs(s, c, r);
  }

  /** The last `c` of a slice outside of which `c` does not occur is the last of the
      whole text. */
  lemma LastInSlice(s: string, a: nat, b: nat, c: char, j: int)
    requires a <= b <= |s| && j == LastIndexOf(s[a..b], c)
    requires forall k :: 0 <= k < a ==> s[k] != c
    requires forall k :: b <= k < |s| ==> s[k] != c
    ensures LastIndexOf(s, c) == if j >= 0 then a + j else -1
  {
    var t := s[a..b];
    var r := if j >= 0 then a + j else -1;
    forall k | r < k < |s| ensures s[k] != c {
      if a <= k < b { assert s[k] == t[k - a]; }
    }
    if j >= 0 { assert s[a + j] == t[j]; }
    LastIndexOfIs(s, c, r);
  }

  /** The fences and surrounding whitespace hold no braces, so the payload is the one
      between the first '{' and the last '}' of the reply as it came. */
  lemma UnfencedKeepsPayload(reply: string)
    ensures Payload(Unfenced(reply)) == Payload(reply)
  {
    StripKeepsPayload(reply);
    var s := Strip(reply);
    var ab := FenceBounds(s);
    PayloadOfSlice(s, ab.0, ab.1);
  }

  /** Whitespace is not a brace, so stripping does not move the payload either. */
  lemma StripKeepsPayload(reply: string)
    ensures Payload(Strip(reply)) == Payload(reply)
  {
    LStripKeepsPayload(reply);
    RStripKeepsPayload(LStrip(reply));
  }

  lemma SpaceNotBrace(c: char)
    requires IsSpace(c)
    ensures !IsBrace(c)
  {
  }

  lemma LStripKeepsPayload(s: string)
    ensures Payload(LStrip(s)) == Payload(s)
  {
    var a := |s| - |LStrip(s)|;
    forall i | 0 <= i < a ensures !IsBrace(s[i]) { SpaceNotBrace(s[i]); }
    PayloadOfSlice(s, a, |s|);
    assert s[a..|s|] == LStrip(s);
  }

  lemma RStripKeepsPayload(s: string)
    ensures Payload(RStrip(s)) == Payload(s)
  {
    var r := RStrip(s);
    forall i | |r| <= i < |s| ensures !IsBrace(s[i]) { SpaceNotBrace(s[i]); }
    PayloadOfSlice(s, 0, |r|);
    assert s[0..|r|] == r;
  }

  // ================================================================ classify_skills_by_category

  datatype Category = Category(id: int, name: string)

  /** One result row: the category, the mentions the model listed and its score. */
  datatype CategoryScore = CategoryScore(id: int, name: string, mentions: Json, score: int)

  /** Python's `int(x)` on a decoded value: integers and booleans convert, a string of
      decimal digits with an optional sign (and surrounding whitespace) converts,
      everything else raises. */
  function IntOf(j: Json): Option<int> {
    match j
    case Num(n) => Some(n)
    case Bool(b) => Some(if b then 1 else 0)
    case Str(s) => ParseInt(s)
    case _ => None
  }

  /** The row for one category given the model's reply: empty mentions and score 0 when
      anything in parsing raises. */
  function ScoreCategory(cat: Category, reply: string, decode: string -> Option<Json>): CategoryScore {
    RowFor(cat, SafeParseJson(Strip(reply), decode))
  }

  /** The row for a category given its decoded reply (or the decoding error). */
  function RowFor(cat: Category, parsed: Result<Json>): CategoryScore {
    match ParsedScore(parsed)
    case None => CategoryScore(cat.id, cat.name, Arr([]), 0)
    case Some((mentions, n)) => CategoryScore(cat.id, cat.name, mentions, n)
  }

  /** The reply's mentions (`.get("mentions", [])`) and `int` of its score
      (`.get("score", 0)`), or nothing when decoding, `.get` or `int` raises. */
  function ParsedScore(parsed: Result<Json>): Option<(Json, int)> {
    match parsed
    case Err(_) => None
    case Ok(payload) => PayloadScore(payload)
  }

  /** The mentions and the score of a decoded reply; `.get` on anything but an object
      and `int` of a score it cannot read raise. */
  function PayloadScore(payload: Json): Option<(Json, int)> {
    if !payload.Obj? then None
    else match IntOf(Get(payload.fields, "score", Num(0)))
      case None => None
      case Some(n) => Some((Get(payload.fields, "mentions", Arr([])), n))
  }

  /** The row carries the category's id and name; a reply that does not parse gives empty
      mentions and score 0, and a parsed object with a readable score gives that score and
      its mentions. */
  lemma RowForFacts(cat: Category, parsed: Result<Json>)
    ensures RowFor(cat, parsed).id == cat.id && RowFor(cat, parsed).name == cat.name
    ensures parsed.Err? ==> RowFor(cat, parsed).mentions == Arr([]) && RowFor(cat, parsed).score == 0
    ensures (parsed.Ok? && parsed.value.Obj? && IntOf(Get(parsed.value.fields, "score", Num(0))).Some?) ==>
      RowFor(cat, parsed).score == IntOf(Get(parsed.value.fields, "score", Num(0))).value
      && RowFor(cat, parsed).mentions == Get(parsed.value.fields, "mentions", Arr([]))
  {
  }

  function Scores(cats: seq<Category>, replies: seq<string>, decode: string -> Option<Json>): (r: seq<CategoryScore>)
    requires |replies| == |cats|
    ensures |r| == |cats|
  {
    if cats == [] then []
    else Scores(cats[..|cats| - 1], replies[..|replies| - 1], decode)
         + [ScoreCategory(cats[|cats| - 1], replies[|replies| - 1], decode)]
  }

  /** One row per category, in category order, each the row for that category's reply. */
  lemma {:induction false} ScoresAt(cats: seq<Category>, replies: seq<string>, decode: string -> Option<Json>, i: int)
    requires |replies| == |cats| && 0 <= i < |cats|
    ensures Scores(cats, replies, decode)[i] == ScoreCategory(cats[i], replies[i], decode)
    ensures Scores(cats, replies, decode)[i].id == cats[i].id
  {
    if i < |cats| - 1 {
      ScoresAt(cats[..|cats| - 1], replies[..|replies| - 1], decode, i);
    }
  }

  /** Scoring one more category appends its row. */
  lemma ScoresSnoc(cats: seq<Category>, replies: seq<string>, decode: string -> Option<Json>, i: nat)
    requires |replies| == |cats| && i < |cats|
    ensures Scores(cats[..i + 1], replies[..i + 1], decode)
            == Scores(cats[..i], replies[..i], decode) + [ScoreCategory(cats[i], replies[i], decode)]
  {
    var c, r := cats[..i + 1], replies[..i + 1];
    assert c[..|c| - 1] == cats[..i] && r[..|r| - 1] == replies[..i];
    assert Scores(c, r, decode) == Scores(cats[..i], replies[..i], decode) + [ScoreCategory(c[|c| - 1], r[|r| - 1], decode)];
    assert c[|c| - 1] == cats[i] && r[|r| - 1] == replies[i];
  }

  function NegScore(c: CategoryScore): int { -c.score }

  /** `sorted(results, key=lambda x: x["score"], reverse=True)[:top_k]`. */
  function TopK(results: seq<CategoryScore>, topK: int): seq<CategoryScore> {
    PyPrefix(StableSort.SortBy(results, NegScore), topK)
  }

  /** The position of the first failing model call, or the number of replies. */
  function FirstFailed(replies: seq<Result<string>>): (k: nat)
    ensures k <= |replies| && (k < |replies| ==> replies[k].Err?)
    ensures forall i :: 0 <= i < k ==> replies[i].Ok?
  {
    if replies == [] then 0
    else if replies[0].Err? then 0
    else
      var k := FirstFailed(replies[1..]);
      assert forall i :: 1 <= i < k + 1 ==> replies[i] == replies[1..][i - 1];
      1 + k
  }

  /** The text of an answered call; a failed one reads as "". */
  function ReplyText(reply: Result<string>): string {
    if reply.Ok? then reply.value else ""
  }

  /** The text of each call. */
  function Answers(replies: seq<Result<string>>): (r: seq<string>)
    ensures |r| == |replies|
  {
    seq(|replies|, i requires 0 <= i < |replies| => ReplyText(replies[i]))
  }

  /** The scoring loop: the rows of all categories, or the exception of the first model
      call that raises (it runs outside the `try`, so it propagates and later categories
      are never asked). */
  function ScoredOrFailed(cats: seq<Category>, replies: seq<Result<string>>, decode: string -> Option<Json>)
    : Result<seq<CategoryScore>>
    requires |replies| == |cats|
  {
    var k := FirstFailed(replies);
    if k < |replies| then Err(replies[k].error) else Ok(Scores(cats, Answers(replies), decode))
  }

  /** `classify_skills_by_category`: the scored rows sorted and cut at top_k, or the
      propagated failure of a model call. */
  function Classify(cats: seq<Category>, replies: seq<Result<string>>, decode: string -> Option<Json>, topK: int)
    : Result<seq<CategoryScore>>
    requires |replies| == |cats|
  {
    match ScoredOrFailed(cats, replies, decode)
    case Err(e) => Err(e)
    case Ok(results) => Ok(TopK(results, topK))
  }

  /** The classification fails exactly when some model call fails, with the first such
      failure; otherwise it ranks the rows of every category's reply. */
  lemma ClassifyFacts(cats: seq<Category>, replies: seq<Result<string>>, decode: string -> Option<Json>, topK: int)
    requires |replies| == |cats|
    ensures Classify(cats, replies, decode, topK).Ok? <==> forall i :: 0 <= i < |replies| ==> replies[i].Ok?
    ensures Classify(cats, replies, decode, topK).Err? ==>
      (exists i :: 0 <= i < |replies| && replies[i] == Err(Classify(cats, replies, decode, topK).error)
                   && forall j :: 0 <= j < i ==> replies[j].Ok?)
    ensures Classify(cats, replies, decode, topK).Ok? ==>
      Classify(cats, replies, decode, topK).value == TopK(Scores(cats, Answers(replies), decode), topK)
  {
    var k := FirstFailed(replies);
    if k < |replies| {
      assert replies[k] == Err(Classify(cats, replies, decode, topK).error);
    }
  }

  /** `classify_skills_by_category`, with the outcome of the model call for each category. */
  method ClassifySkills(cats: seq<Category>, replies: seq<Result<string>>, decode: string -> Option<Json>, topK: int := 5)
    returns (top: Result<seq<CategoryScore>>)
    requires |replies| == |cats|
    ensures top == Classify(cats, replies, decode, topK)
  {
    var results := ScoreAll(cats, replies, decode);
    if results.Err? {
      return Err(results.error);
    }
    top := Ok(TopK(results.value, topK));
  }

  /** The loop of `classify_skills_by_category` over the categories. */
  method ScoreAll(cats: seq<Category>, replies: seq<Result<string>>, decode: string -> Option<Json>)
    returns (results: Result<seq<CategoryScore>>)
    requires |replies| == |cats|
    ensures results == ScoredOrFailed(cats, replies, decode)
  {
    var answers := Answers(replies);
    var rows: seq<CategoryScore> := [];
    var i := 0;
    while i < |cats|
      invariant 0 <= i <= |cats|
      invariant i <= FirstFailed(replies)
      invariant rows == Scores(cats[..i], answers[..i], decode)
    {
      var reply := replies[i];
      if reply.Err? {
        FailedAt(replies, i);
        return Err(reply.error);
      }
      rows := ScoreNext(cats, answers, decode, i, rows);
      i := i + 1;
    }
    assert cats[..i] == cats && answers[..i] == answers;
    FailedAt(replies, i);
    results := Ok(rows);
  }

  /** One pass of the scoring loop: the row of category `i` appended. */
  method ScoreNext(cats: seq<Category>, answers: seq<string>, decode: string -> Option<Json>, i: nat,
                   rows: seq<CategoryScore>) returns (next: seq<CategoryScore>)
    requires |answers| == |cats| && i < |cats| && rows == Scores(cats[..i], answers[..i], decode)
    ensures next == Scores(cats[..i + 1], answers[..i + 1], decode)
  {
    ScoresSnoc(cats, answers, decode, i);
    next := rows + [ScoreCategory(cats[i], answers[i], decode)];
  }

  /** A failure at `i` after answered calls is the first failure; none is `|replies|`. */
  lemma FailedAt(replies: seq<Result<string>>, i: nat)
    requires i <= |replies| && (i < |replies| ==> replies[i].Err?)
    requires i <= FirstFailed(replies)
    ensures FirstFailed(replies) == i
  {
  }

  /** The ranking keeps min(top_k, n) rows, by score from high to low: they are rows of the
      results (each at most as often as it occurs), no dropped row scores higher than a kept
      one, and among rows of equal score the kept ones are the first in category order;
      asking for every category keeps every row. */
  lemma TopKFacts(results: seq<CategoryScore>, topK: int)
    requires topK >= 0
    ensures var t := TopK(results, topK);
      |t| == (if topK < |results| then topK else |results|)
      && (forall i, j :: 0 <= i < j < |t| ==> t[i].score >= t[j].score)
      && (forall i :: 0 <= i < |t| ==> t[i] in results)
    ensures var t := TopK(results, topK);
      multiset(t) <= multiset(results)
      && (forall e, d :: e in t && d in multiset(results) - multiset(t) ==> e.score >= d.score)
      && forall v :: StableSort.WithKey(t, NegScore, v) <= StableSort.WithKey(results, NegScore, v)
    ensures topK >= |results| ==> multiset(TopK(results, topK)) == multiset(results)
    ensures topK >= |results| ==>
      forall v :: StableSort.WithKey(TopK(results, topK), NegScore, v) == StableSort.WithKey(results, NegScore, v)
  {
    var sorted := StableSort.SortBy(results, NegScore);
    StableSort.SortByFacts(results, NegScore);
    var t := TopK(results, topK);
    assert t <= sorted;
    StableSort.SortedPrefixFacts(results, NegScore, t);
    forall i, j | 0 <= i < j < |t| ensures t[i].score >= t[j].score {
      assert t[i] == sorted[i] && t[j] == sorted[j];
      assert NegScore(sorted[i]) <= NegScore(sorted[j]);
    }
    forall i | 0 <= i < |t| ensures t[i] in results {
      assert t[i] == sorted[i];
      assert sorted[i] in multiset(sorted);
    }
    if topK >= |results| {
      assert t == sorted;
    }
  }

  // ================================================================ upsert_category_scores

  /** The key of `resume_category_score`. */
  datatype ScoreKey = ScoreKey(candidateKey: string, filename: string, categoryId: int)

  /** A row of the table: the score and the mentions stored as JSON. */
  datatype ScoreRow = ScoreRow(score: int, mentions: Json)

  /** The table after the upserts, one per classified row, in order. */
  function Upserted(rows: map<ScoreKey, ScoreRow>, candidateKey: string, filename: string,
                    classified: seq<CategoryScore>): map<ScoreKey, ScoreRow>
  {
    if classified == [] then rows
    else
      var last := classified[|classified| - 1];
      Upserted(rows, candidateKey, filename, classified[..|classified| - 1])
        [ScoreKey(candidateKey, filename, last.id) := ScoreRow(last.score, last.mentions)]
  }

  /** The position of the last row for category `id`, or -1. */
  function LastWithId(classified: seq<CategoryScore>, id: int): (k: int)
    ensures -1 <= k < |classified| && (k >= 0 ==> classified[k].id == id)
    ensures forall i :: k < i < |classified| ==> classified[i].id != id
  {
    if classified == [] then -1
    else if classified[|classified| - 1].id == id then |classified| - 1
    else LastWithId(classified[..|classified| - 1], id)
  }

  /** After the upserts the table holds one row per key; a classified category's row holds
      its (last) score and mentions; every other key, including other resumes', is as it
      was. */
  lemma {:induction false} UpsertedRows(rows: map<ScoreKey, ScoreRow>, candidateKey: string, filename: string,
                                        classified: seq<CategoryScore>, key: ScoreKey)
    ensures var t := Upserted(rows, candidateKey, filename, classified);
      var k := LastWithId(classified, key.categoryId);
      if key.candidateKey == candidateKey && key.filename == filename && k >= 0 then
        key in t && t[key] == ScoreRow(classified[k].score, classified[k].mentions)
      else
        (key in t <==> key in rows) && (key in rows ==> t[key] == rows[key])
  {
    if classified != [] {
      UpsertedRows(rows, candidateKey, filename, classified[..|classified| - 1], key);
    }
  }

  /** The table of category scores, updated in place by `upsert_category_scores`. */
  class CategoryScoreTable {
    var rows: map<ScoreKey, ScoreRow>

    constructor ()
      ensures rows == map[]
    {
      rows := map[];
    }

    /** `upsert_category_scores`: one insert-or-update per classified row. */
    method UpsertCategoryScores(candidateKey: string, filename: string, classified: seq<CategoryScore>)
      modifies this
      ensures rows == Upserted(old(rows), candidateKey, filename, classified)
    {
      var i := 0;
      while i < |classified|
        invariant 0 <= i <= |classified|
        invariant rows == Upserted(old(rows), candidateKey, filename, classified[..i])
      {
        assert classified[..i + 1][..i] == classified[..i];
        var entry := classified[i];
        rows := rows[ScoreKey(candidateKey, filename, entry.id) := ScoreRow(entry.score, entry.mentions)];
        i := i + 1;
      }
      assert classified[..i] == classified;
    }
  }

  // ================================================================ ingest_resume_normal

  /** `glob.glob(os.path.join(folder, "*.pdf"))` on the folder's names: case-sensitive, and
      `*` does not match a leading dot. */
  predicate GlobPdf(name: string) {
    EndsWith(name, ".pdf") && !StartsWith(name, ".")
  }

  function PdfNames(entries: seq<string>): (r: seq<string>)
    ensures forall f :: f in r <==> f in entries && GlobPdf(f)
  {
    if entries == [] then []
    else (if GlobPdf(entries[0]) then [entries[0]] else []) + PdfNames(entries[1..])
  }

  function DoneLine(fname: string): string {
    "  \U{2713} Done with " + fname + "."
  }

  /** `ingest_resume_normal`: None when the folder holds no pdf, else one line per pdf. */
  method IngestResumeNormal(entries: seq<string>) returns (r: Option<seq<string>>)
    ensures r.None? <==> PdfNames(entries) == []
    ensures r.Some? ==> (|r.value| == |PdfNames(entries)|
      && forall i :: 0 <= i < |r.value| ==> r.value[i] == DoneLine(PdfNames(entries)[i]))
  {
    var pdfs := PdfNames(entries);
    if pdfs == [] {
      return None;
    }
    var logs: seq<string> := [];
    var i := 0;
    while i < |pdfs|
      invariant 0 <= i <= |pdfs|
      invariant |logs| == i && forall k :: 0 <= k < i ==> logs[k] == DoneLine(pdfs[k])
    {
      logs := logs + [DoneLine(pdfs[i])];
      i := i + 1;
    }
    return Some(logs);
  }
}
