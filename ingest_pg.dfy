/** ingestion/ingest_pg.py: the first-page metadata extraction (ten fields merged page by
    page from the vision model's JSON replies) and the folder loop that converts, extracts,
    uploads and upserts one `resumes_metadata` row per resume. Model replies, `json.loads`,
    date parsing, the PDF conversion and the upload are inputs. */
module IngestPg {
  import opened Wrappers
  import opened Strings
  import opened Json
  import Paths
  import IngestAll
  import H = IngestionHelpers

  // ================================================================ extract_fields_with_qwen

  /** The keys of the `fields` dict. */
  datatype Field = Email | WorkDuration | University | AppliedPosition | Salary | PartOrFull
                 | IsCreditBearing | Citizenship | FromDate | ToDate

  /** The key's text, as the reply spells it. */
  function Name(k: Field): string {
    match k
    case Email => "email"
    case WorkDuration => "work_duration_category"
    case University => "university"
    case AppliedPosition => "applied_position"
    case Salary => "salary"
    case PartOrFull => "part_or_full"
    case IsCreditBearing => "is_credit_bearing"
    case Citizenship => "citizenship"
    case FromDate => "from_date"
    case ToDate => "to_date"
  }

  /** The keys in the dict's insertion order, which is the order of the key loop. */
  const FieldNames: seq<Field> := [Email, WorkDuration, University, AppliedPosition, Salary, PartOrFull,
    IsCreditBearing, Citizenship, FromDate, ToDate]

  /** The fields that no normalisation step rewrites. */
  predicate IsRaw(k: Field) {
    k.Email? || k.AppliedPosition? || k.IsCreditBearing? || k.Citizenship? || k.FromDate? || k.ToDate?
  }

  /** The `fields` dict: always exactly the ten keys, so it is a record. */
  datatype Fields = Fields(email: Option<string>, workDuration: Option<string>, university: Option<string>,
                           appliedPosition: Option<string>, salary: Option<string>, partOrFull: Option<string>,
                           isCreditBearing: Option<string>, citizenship: Option<string>,
                           fromDate: Option<string>, toDate: Option<string>)

  /** `fields[k]`. */
  function Get(f: Fields, k: Field): Option<string> {
    match k
    case Email => f.email
    case WorkDuration => f.workDuration
    case University => f.university
    case AppliedPosition => f.appliedPosition
    case Salary => f.salary
    case PartOrFull => f.partOrFull
    case IsCreditBearing => f.isCreditBearing
    case Citizenship => f.citizenship
    case FromDate => f.fromDate
    case ToDate => f.toDate
  }

  /** `fields[k] = v`: that key changes, no other. */
  function Set(f: Fields, k: Field, v: Option<string>): (r: Fields)
    ensures Get(r, k) == v && forall k' :: k' != k ==> Get(r, k') == Get(f, k')
  {
    match k
    case Email => f.(email := v)
    case WorkDuration => f.(workDuration := v)
    case University => f.(university := v)
    case AppliedPosition => f.(appliedPosition := v)
    case Salary => f.(salary := v)
    case PartOrFull => f.(partOrFull := v)
    case IsCreditBearing => f.(isCreditBearing := v)
    case Citizenship => f.(citizenship := v)
    case FromDate => f.(fromDate := v)
    case ToDate => f.(toDate := v)
  }

  /** Every key is listed once in the loop order. */
  lemma FieldNamesCoverKeys(k: Field)
    ensures k in FieldNames
  {
    match k {
      case Email => assert FieldNames[0] == k;
      case WorkDuration => assert FieldNames[1] == k;
      case University => assert FieldNames[2] == k;
      case AppliedPosition => assert FieldNames[3] == k;
      case Salary => assert FieldNames[4] == k;
      case PartOrFull => assert FieldNames[5] == k;
      case IsCreditBearing => assert FieldNames[6] == k;
      case Citizenship => assert FieldNames[7] == k;
      case FromDate => assert FieldNames[8] == k;
      case ToDate => assert FieldNames[9] == k;
    }
  }

  function InitialFields(): (f: Fields)
    ensures forall k :: Get(f, k).None?
  {
    Fields(None, None, None, None, None, None, None, None, None, None)
  }

  /** A decoded reply value as a field value: a string, or null. */
  function FieldValue(j: Json): Option<string> {
    if j.Str? then Some(j.s) else None
  }

  /** Python truthiness of a field value. */
  predicate Truthy(v: Option<string>) { v.Some? && v.value != "" }

  /** One iteration of `for key in fields: if fields[key] is None and key in j:
      fields[key] = j[key]`; indexing anything but an object by the key raises. */
  function MergeKey(f: Fields, key: Field, j: Json): (r: Result<Fields>)
    ensures r.Ok? ==> forall k :: k != key ==> Get(r.value, k) == Get(f, k)
    ensures r.Ok? && Get(f, key).Some? ==> r.value == f
  {
    if Get(f, key).Some? then Ok(f)
    else match KeyIn(Name(key), j)
      case Err(e) => Err(e)
      case Ok(found) =>
        if !found then Ok(f)
        else if j.Obj? then Ok(Set(f, key, FieldValue(j.fields[Name(key)])))
        else Err("TypeError")
  }

  /** The whole key loop, in key order. */
  function MergeKeys(f: Fields, keys: seq<Field>, j: Json): Result<Fields>
    decreases |keys|
  {
    if keys == [] then Ok(f)
    else match MergeKey(f, keys[0], j)
      case Err(e) => Err(e)
      case Ok(g) => MergeKeys(g, keys[1..], j)
  }

  /** The merge never overwrites a value that is set and leaves keys outside `keys`
      alone. */
  lemma {:induction false} MergeKeysFacts(f: Fields, keys: seq<Field>, j: Json)
    ensures MergeKeys(f, keys, j).Ok? ==> var g := MergeKeys(f, keys, j).value;
      (forall k :: Get(f, k).Some? ==> Get(g, k) == Get(f, k)) && (forall k :: k !in keys ==> Get(g, k) == Get(f, k))
    decreases |keys|
  {
    if keys != [] {
      var r := MergeKey(f, keys[0], j);
      if r.Ok? {
        MergeKeysFacts(r.value, keys[1..], j);
      }
    }
  }

  /** From an object the merge never fails, and takes exactly the reply's value for each
      unset key the reply has; the reply's other keys are ignored. */
  lemma {:induction false} MergeObject(f: Fields, keys: seq<Field>, m: map<string, Json>)
    requires forall a, b :: 0 <= a < b < |keys| ==> keys[a] != keys[b]
    ensures MergeKeys(f, keys, Obj(m)).Ok?
    ensures forall k :: k in keys ==> (Get(MergeKeys(f, keys, Obj(m)).value, k) ==
      (if Get(f, k).None? && Name(k) in m then FieldValue(m[Name(k)]) else Get(f, k)))
    decreases |keys|
  {
    if keys != [] {
      var g := MergeKey(f, keys[0], Obj(m)).value;
      MergeObject(g, keys[1..], m);
      MergeKeysFacts(g, keys[1..], Obj(m));
      assert keys[0] !in keys[1..];
      forall k | k in keys
        ensures Get(MergeKeys(f, keys, Obj(m)).value, k) ==
          (if Get(f, k).None? && Name(k) in m then FieldValue(m[Name(k)]) else Get(f, k))
      {
        if k != keys[0] {
          assert k in keys[1..];
        }
      }
    }
  }

  /** The key loop of one page, run on the dict in place. */
  method MergeReply(f: Fields, j: Json) returns (r: Result<Fields>)
    ensures r == MergeKeys(f, FieldNames, j)
  {
    var fields := f;
    var i := 0;
    while i < |FieldNames|
      invariant 0 <= i <= |FieldNames|
      invariant MergeKeys(fields, FieldNames[i..], j) == MergeKeys(f, FieldNames, j)
    {
      var key := FieldNames[i];
      assert FieldNames[i..][0] == key && FieldNames[i..][1..] == FieldNames[i + 1..];
      MergeKeysStep(fields, FieldNames[i..], j);
      ghost var step := MergeKey(fields, key, j);
      if Get(fields, key).None? {
        var found := KeyIn(Name(key), j);
        if found.Err? {
          return Err(found.error);
        }
        if found.value {
          if !j.Obj? {
            return Err("TypeError");
          }
          fields := Set(fields, key, FieldValue(j.fields[Name(key)]));
        }
      }
      assert step == Ok(fields);
      i := i + 1;
    }
    assert FieldNames[i..] == [];
    r := Ok(fields);
  }

  /** One unfolding of the key loop. */
  lemma MergeKeysStep(f: Fields, keys: seq<Field>, j: Json)
    requires keys != []
    ensures MergeKeys(f, keys, j) == match MergeKey(f, keys[0], j) case Err(e) => Err(e) case Ok(g) => MergeKeys(g, keys[1..], j)
  {
  }

  /** A line the cleaning step drops: it starts with ``` once stripped. */
  predicate FenceLine(line: string) { StartsWith(Strip(line), "```") }

  function KeptLines(lines: seq<string>): (r: seq<string>)
    ensures forall l :: l in r <==> l in lines && !FenceLine(l)
  {
    if lines == [] then []
    else (if FenceLine(lines[0]) then [] else [lines[0]]) + KeptLines(lines[1..])
  }

  /** `"\n".join(line for line in reply.splitlines() if not line.strip().startswith("```"))`. */
  function CleanReply(reply: string): string {
    Join(KeptLines(SplitLines(reply)), "\n")
  }

  /** The four model replies a page can draw: the extraction itself and the university,
      part/full-time and salary normalisations. */
  datatype PageReplies = PageReplies(extract: Result<string>, university: Result<string>,
                                     partFull: Result<string>, salary: Result<string>)

  /** The four normalisation steps of one page. */
  datatype Normalisers = Normalisers(months: (string, string) -> Option<string>,
                                     university: Option<string> -> Option<string>,
                                     partFull: Option<string> -> Option<string>,
                                     salary: Option<string> -> string)

  /** The normalisers of ingestion/helpers.py, each fed the model reply this page drew for
      it; `parse` stands for the date parser. */
  function PageNormalisers(p: PageReplies, parse: string -> Option<int>): Normalisers {
    Normalisers((a, b) => H.MonthsBetween(a, b, parse),
                u => H.NormalizeUniversity(p.university, u),
                s => H.NormalizePartFull(p.partFull, s),
                s => H.NormalizeSalaryAsWritten(p.salary, s))
  }

  /** The duration bucket, recomputed from the two dates when both are truthy. */
  function WithBucket(f: Fields, n: Normalisers): (r: Fields)
    ensures r == f.(workDuration := r.workDuration)
  {
    if Truthy(f.fromDate) && Truthy(f.toDate) then f.(workDuration := n.months(f.fromDate.value, f.toDate.value))
    else f
  }

  /** The normalisation after a merge: the duration bucket when both dates are truthy, the
      university and part/full-time labels when truthy, and the salary always. */
  function Normalized(f: Fields, n: Normalisers): (r: Fields)
    ensures r.salary.Some? && r.workDuration == WithBucket(f, n).workDuration
    ensures forall k :: IsRaw(k) ==> Get(r, k) == Get(f, k)
  {
    var f1 := WithBucket(f, n);
    var f2 := if Truthy(f1.university) then f1.(university := n.university(f1.university)) else f1;
    var f3 := if Truthy(f2.partOrFull) then f2.(partOrFull := n.partFull(f2.partOrFull)) else f2;
    f3.(salary := Some(n.salary(f3.salary)))
  }

  /** One page: a failed model call or an unparsable reply leaves the fields as they are. */
  function PageStep(f: Fields, p: PageReplies, decode: string -> Option<Json>, parse: string -> Option<int>): Result<Fields> {
    if p.extract.Err? then Ok(f)
    else match decode(Strip(CleanReply(p.extract.value)))
      case None => Ok(f)
      case Some(j) =>
        match MergeKeys(f, FieldNames, j)
        case Err(e) => Err(e)
        case Ok(g) => Ok(Normalized(g, PageNormalisers(p, parse)))
  }

  /** `all(fields[k] is not None for k in fields)`. */
  predicate AllSet(f: Fields) { forall k :: Get(f, k).Some? }

  /** The page loop from page `i` on, stopping after the first page that leaves every field
      set. */
  function ExtractFrom(f: Fields, pages: seq<PageReplies>, i: nat, decode: string -> Option<Json>,
                       parse: string -> Option<int>): Result<Fields>
    requires i <= |pages|
    decreases |pages| - i
  {
    if i == |pages| then Ok(f)
    else match PageStep(f, pages[i], decode, parse)
      case Err(e) => Err(e)
      case Ok(g) => if AllSet(g) then Ok(g) else ExtractFrom(g, pages, i + 1, decode, parse)
  }

  /** The loop's exit test, field by field. */
  lemma AllSetFields(f: Fields)
    ensures AllSet(f) <==> (f.email.Some? && f.workDuration.Some? && f.university.Some? && f.appliedPosition.Some?
      && f.salary.Some? && f.partOrFull.Some? && f.isCreditBearing.Some? && f.citizenship.Some?
      && f.fromDate.Some? && f.toDate.Some?)
  {
    assert Get(f, Email) == f.email && Get(f, WorkDuration) == f.workDuration && Get(f, University) == f.university;
    assert Get(f, AppliedPosition) == f.appliedPosition && Get(f, Salary) == f.salary && Get(f, PartOrFull) == f.partOrFull;
    assert Get(f, IsCreditBearing) == f.isCreditBearing && Get(f, Citizenship) == f.citizenship;
    assert Get(f, FromDate) == f.fromDate && Get(f, ToDate) == f.toDate;
  }

  /** One page of the loop body, on the dict in place. */
  method ReadPage(fields: Fields, page: PageReplies, decode: string -> Option<Json>, parse: string -> Option<int>)
    returns (r: Result<Fields>)
    ensures r == PageStep(fields, page, decode, parse)
  {
    if page.extract.Err? {
      return Ok(fields);
    }
    var decoded := decode(Strip(CleanReply(page.extract.value)));
    if decoded.None? {
      return Ok(fields);
    }
    var merged := MergeReply(fields, decoded.value);
    if merged.Err? {
      return Err(merged.error);
    }
    r := Ok(Normalized(merged.value, PageNormalisers(page, parse)));
  }

  /** `extract_fields_with_qwen`: the page loop over the dict of ten fields. */
  method ExtractFieldsWithQwen(pages: seq<PageReplies>, decode: string -> Option<Json>, parse: string -> Option<int>)
    returns (r: Result<Fields>)
    ensures r == ExtractFrom(InitialFields(), pages, 0, decode, parse)
  {
    var fields := InitialFields();
    var i := 0;
    while i < |pages|
      invariant 0 <= i <= |pages|
      invariant ExtractFrom(fields, pages, i, decode, parse) == ExtractFrom(InitialFields(), pages, 0, decode, parse)
    {
      var step := ReadPage(fields, pages[i], decode, parse);
      if step.Err? {
        return Err(step.error);
      }
      fields := step.value;
      AllSetFields(fields);
      if fields.email.Some? && fields.workDuration.Some? && fields.university.Some? && fields.appliedPosition.Some?
        && fields.salary.Some? && fields.partOrFull.Some? && fields.isCreditBearing.Some?
        && fields.citizenship.Some? && fields.fromDate.Some? && fields.toDate.Some?
      {
        return Ok(fields);
      }
      i := i + 1;
    }
    r := Ok(fields);
  }

  /** A failed model call or an unparsable reply changes nothing. */
  lemma PageSkipped(f: Fields, p: PageReplies, decode: string -> Option<Json>, parse: string -> Option<int>)
    requires p.extract.Err? || decode(Strip(CleanReply(p.extract.value))).None?
    ensures PageStep(f, p, decode, parse) == Ok(f)
  {
  }

  /** A page never overwrites a raw field that is set, and a page that is read always leaves
      the salary set. */
  lemma PageKeepsRaw(f: Fields, p: PageReplies, decode: string -> Option<Json>, parse: string -> Option<int>, k: Field)
    requires IsRaw(k) && Get(f, k).Some?
    ensures PageStep(f, p, decode, parse).Ok? ==> Get(PageStep(f, p, decode, parse).value, k) == Get(f, k)
    ensures PageStep(f, p, decode, parse).Ok? && PageStep(f, p, decode, parse) != Ok(f) ==>
      PageStep(f, p, decode, parse).value.salary.Some?
  {
    if p.extract.Ok? {
      var d := decode(Strip(CleanReply(p.extract.value)));
      if d.Some? {
        MergeKeysFacts(f, FieldNames, d.value);
      }
    }
  }

  /** The duration bucket after a page: recomputed from the two dates when both are truthy
      (None when either fails to parse), otherwise what the merge left. */
  lemma NormalizedBucket(f: Fields, p: PageReplies, parse: string -> Option<int>)
    ensures Truthy(f.fromDate) && Truthy(f.toDate) ==>
      Normalized(f, PageNormalisers(p, parse)).workDuration == H.MonthsBetween(f.fromDate.value, f.toDate.value, parse)
    ensures !(Truthy(f.fromDate) && Truthy(f.toDate)) ==>
      Normalized(f, PageNormalisers(p, parse)).workDuration == f.workDuration
  {
  }

  /** Once a raw field is set it keeps its value to the end. */
  lemma {:induction false} ExtractKeepsRaw(f: Fields, pages: seq<PageReplies>, i: nat, decode: string -> Option<Json>,
                                           parse: string -> Option<int>, k: Field)
    requires i <= |pages| && IsRaw(k) && Get(f, k).Some?
    ensures ExtractFrom(f, pages, i, decode, parse).Ok? ==> Get(ExtractFrom(f, pages, i, decode, parse).value, k) == Get(f, k)
    decreases |pages| - i
  {
    if i < |pages| {
      PageKeepsRaw(f, pages[i], decode, parse, k);
      var s := PageStep(f, pages[i], decode, parse);
      if s.Ok? && !AllSet(s.value) {
        ExtractKeepsRaw(s.value, pages, i + 1, decode, parse, k);
      }
    }
  }

  /** The loop stops at the first page that sets every field: pages after it are never
      read. */
  lemma {:induction false} ExtractStops(f: Fields, pages: seq<PageReplies>, more: seq<PageReplies>, i: nat,
                                        decode: string -> Option<Json>, parse: string -> Option<int>)
    requires i < |pages|
    requires ExtractFrom(f, pages, i, decode, parse).Ok? && AllSet(ExtractFrom(f, pages, i, decode, parse).value)
    ensures ExtractFrom(f, pages + more, i, decode, parse) == ExtractFrom(f, pages, i, decode, parse)
    decreases |pages| - i
  {
    assert (pages + more)[i] == pages[i];
    var s := PageStep(f, pages[i], decode, parse);
    if s.Ok? && !AllSet(s.value) && i + 1 < |pages| {
      ExtractStops(s.value, pages, more, i + 1, decode, parse);
    }
  }

  // ================================================================ resumes_metadata

  /** One row of `resumes_metadata` (keyed by file name); `pdf_url` is not among its
      columns. */
  datatype ResumeRow = ResumeRow(candidateKey: string, email: Option<string>, workDuration: Option<string>,
                                 university: Option<string>, appliedPosition: Option<string>,
                                 salary: Option<string>, partOrFull: Option<string>,
                                 isCreditBearing: Option<string>, citizenship: Option<string>,
                                 fromDate: Option<string>, toDate: Option<string>)

  function RowOf(candidateKey: string, f: Fields): (r: ResumeRow)
    ensures r.candidateKey == candidateKey && r.workDuration == f.workDuration
  {
    ResumeRow(candidateKey, f.email, f.workDuration, f.university, f.appliedPosition, f.salary, f.partOrFull,
              f.isCreditBearing, f.citizenship, f.fromDate, f.toDate)
  }

  // ================================================================ ingest_all_resumes

  const NoResumeFiles := "\U{26A0}\U{FE0F} No PDF/DOCX files found in the folder."

  function ConvertErrorLine(fname: string, error: string): string {
    "\U{274C} ERROR converting " + fname + " to PDF: " + error
  }

  function NoPagesLine(pdf: string): string {
    "\U{26A0}\U{FE0F} No pages in " + pdf + ", skipping."
  }

  function SkippedLine(pdf: string): string {
    "\U{26A0}\U{FE0F} " + pdf + " skipped (no valid work_duration_category)."
  }

  function DoneLine(pdf: string): string {
    "\U{2713} Done with " + pdf
  }

  predicate IsDocx(fname: string) { EndsWith(Lower(fname), ".docx") }

  /** The PDF a file is processed as: `<stem>.pdf` for a .docx, the file itself otherwise. */
  function ProcessingName(fname: string): (r: string)
    ensures IsDocx(fname) ==> EndsWith(r, ".pdf")
    ensures !IsDocx(fname) ==> r == fname
  {
    if IsDocx(fname) then Paths.StripExt(fname) + ".pdf" else fname
  }

  /** `file_type` passed to the upload. */
  function FileType(fname: string): (t: string)
    ensures t == "mikomiko" <==> IngestAll.IsMikomiko(fname)
    ensures t == "mikomiko" || t == "resume"
  {
    if IngestAll.IsMikomiko(fname) then "mikomiko" else "resume"
  }

  /** What happens outside the model for one file: the conversion's error (for a .docx), the
      number of rendered first pages, and the extraction's outcome. */
  datatype FileRun = FileRun(conversionError: Option<string>, pageCount: nat, extracted: Result<Fields>)

  /** An upload request: the PDF processed and its file type. */
  datatype Upload = Upload(pdf: string, fileType: string)

  /** The state the folder loop builds: the summary lines, the uploads, the table, and the
      error that ended the loop, if any. */
  datatype Run = Run(lines: seq<string>, uploads: seq<Upload>, rows: map<string, ResumeRow>, error: Option<string>)

  datatype FileOutcome = Logged(line: string) | Stored(pdf: string, fields: Fields) | Raised(error: string)

  function FileStep(fname: string, run: FileRun): FileOutcome {
    var pdf := ProcessingName(fname);
    if IsDocx(fname) && run.conversionError.Some? then Logged(ConvertErrorLine(fname, run.conversionError.value))
    else if run.pageCount == 0 then Logged(NoPagesLine(pdf))
    else match run.extracted
      case Err(e) => Raised(e)
      case Ok(f) => if f.workDuration.None? then Logged(SkippedLine(pdf)) else Stored(pdf, f)
  }

  /** The state after one more file. */
  function Step(st: Run, candidateKey: string, fname: string, run: FileRun): (r: Run)
    ensures st.error.None? && !FileStep(fname, run).Raised? ==> r.error.None? && |r.lines| == |st.lines| + 1
  {
    match FileStep(fname, run)
    case Raised(e) => st.(error := Some(e))
    case Logged(line) => st.(lines := st.lines + [line])
    case Stored(pdf, f) =>
      st.(lines := st.lines + [DoneLine(pdf)], uploads := st.uploads + [Upload(pdf, FileType(fname))],
          rows := st.rows[pdf := RowOf(candidateKey, f)])
  }

  /** The summary line of a file that does not raise. */
  function LineFor(fname: string, run: FileRun): string {
    match FileStep(fname, run)
    case Logged(t) => t
    case Stored(pdf, _) => DoneLine(pdf)
    case Raised(_) => ""
  }

  /** The folder loop from file `i` on; an exception ends it. */
  function IngestFrom(st: Run, candidateKey: string, files: seq<string>, runs: seq<FileRun>, i: nat): Run
    requires |runs| == |files| && i <= |files|
    decreases |files| - i
  {
    if i == |files| || st.error.Some? then st
    else IngestFrom(Step(st, candidateKey, files[i], runs[i]), candidateKey, files, runs, i + 1)
  }

  /** One file of the loop, when nothing has raised yet. */
  lemma IngestFromStep(st: Run, candidateKey: string, files: seq<string>, runs: seq<FileRun>, i: nat)
    requires |runs| == |files| && i < |files| && st.error.None?
    ensures IngestFrom(st, candidateKey, files, runs, i)
      == IngestFrom(Step(st, candidateKey, files[i], runs[i]), candidateKey, files, runs, i + 1)
  {}

  /** Once a file has raised, the loop is over. */
  lemma IngestFromDone(st: Run, candidateKey: string, files: seq<string>, runs: seq<FileRun>, i: nat)
    requires |runs| == |files| && i <= |files| && st.error.Some?
    ensures IngestFrom(st, candidateKey, files, runs, i) == st
  {}

  /** What `ingest_all_resumes` returns for a finished loop: the exception, or the summary lines. */
  function Outcome(st: Run): (r: Result<seq<string>>)
    ensures r.Ok? <==> st.error.None?
    ensures r.Ok? ==> r.value == st.lines
  {
    if st.error.Some? then Err(st.error.value) else Ok(st.lines)
  }

  /** Without an exception there is one summary line per file, appended in order, and a
      file's line says what happened to it. */
  lemma {:induction false} IngestLines(st: Run, candidateKey: string, files: seq<string>, runs: seq<FileRun>, i: nat)
    requires |runs| == |files| && i <= |files| && st.error.None?
    ensures var r := IngestFrom(st, candidateKey, files, runs, i);
      r.error.None? ==> (|r.lines| == |st.lines| + |files| - i && st.lines <= r.lines
        && forall j :: i <= j < |files| ==> r.lines[|st.lines| + j - i] == LineFor(files[j], runs[j]))
    decreases |files| - i
  {
    if i < |files| {
      var next := Step(st, candidateKey, files[i], runs[i]);
      assert IngestFrom(st, candidateKey, files, runs, i) == IngestFrom(next, candidateKey, files, runs, i + 1);
      if next.error.None? {
        StepLine(st, candidateKey, files[i], runs[i]);
        IngestLines(next, candidateKey, files, runs, i + 1);
        var r := IngestFrom(next, candidateKey, files, runs, i + 1);
        if r.error.None? {
          forall j | i <= j < |files| ensures r.lines[|st.lines| + j - i] == LineFor(files[j], runs[j]) {
            if j == i {
              assert next.lines[|st.lines|] == LineFor(files[i], runs[i]);
              assert next.lines <= r.lines && |st.lines| < |next.lines|;
            } else {
              assert |st.lines| + j - i == |next.lines| + j - (i + 1);
              assert r.lines[|next.lines| + j - (i + 1)] == LineFor(files[j], runs[j]);
            }
          }
        }
      }
    }
  }

  /** A step that does not raise appends the file's summary line. */
  lemma StepLine(st: Run, candidateKey: string, fname: string, run: FileRun)
    requires Step(st, candidateKey, fname, run).error.None?
    ensures Step(st, candidateKey, fname, run).lines == st.lines + [LineFor(fname, run)]
  {
  }

  /** The loop ends in an exception exactly when some file's extraction raises. */
  lemma {:induction false} IngestRaises(st: Run, candidateKey: string, files: seq<string>, runs: seq<FileRun>, i: nat)
    requires |runs| == |files| && i <= |files| && st.error.None?
    ensures IngestFrom(st, candidateKey, files, runs, i).error.Some? <==>
      exists j :: i <= j < |files| && FileStep(files[j], runs[j]).Raised?
    decreases |files| - i
  {
    if i < |files| {
      var next := Step(st, candidateKey, files[i], runs[i]);
      if next.error.None? {
        IngestRaises(next, candidateKey, files, runs, i + 1);
      }
    }
  }

  /** One step writes at most one row, for the candidate and with a duration bucket. */
  lemma StepWritesOnlyDated(st: Run, candidateKey: string, fname: string, run: FileRun)
    ensures var r := Step(st, candidateKey, fname, run);
      r.rows.Keys >= st.rows.Keys
      && forall k :: k in r.rows ==>
        (k in st.rows && r.rows[k] == st.rows[k]) || (r.rows[k].candidateKey == candidateKey && r.rows[k].workDuration.Some?)
  {
  }

  /** Every row the loop writes belongs to the candidate and has a duration bucket: a resume
      without one is never upserted; all other rows are as they were. */
  lemma {:induction false} IngestWritesOnlyDated(st: Run, candidateKey: string, files: seq<string>, runs: seq<FileRun>, i: nat)
    requires |runs| == |files| && i <= |files|
    ensures var r := IngestFrom(st, candidateKey, files, runs, i);
      forall k :: k in r.rows ==>
        (k in st.rows && r.rows[k] == st.rows[k]) || (r.rows[k].candidateKey == candidateKey && r.rows[k].workDuration.Some?)
    ensures IngestFrom(st, candidateKey, files, runs, i).rows.Keys >= st.rows.Keys
    decreases |files| - i
  {
    if i < |files| && st.error.None? {
      var next := Step(st, candidateKey, files[i], runs[i]);
      StepWritesOnlyDated(st, candidateKey, files[i], runs[i]);
      IngestWritesOnlyDated(next, candidateKey, files, runs, i + 1);
    }
  }

  /** The `resumes_metadata` table. */
  class ResumeTable {
    var rows: map<string, ResumeRow>

    constructor ()
      ensures rows == map[]
    {
      rows := map[];
    }

    /** `upsert_resume_metadata`: insert or replace the row keyed by the file name. */
    method UpsertResumeMetadata(filename: string, candidateKey: string, f: Fields)
      modifies this
      ensures rows == old(rows)[filename := RowOf(candidateKey, f)]
    {
      rows := rows[filename := RowOf(candidateKey, f)];
    }

    /** The loop body of `ingest_all_resumes` for one file. */
    method IngestFile(fname: string, candidateKey: string, run: FileRun, logs: seq<string>, uploads: seq<Upload>)
      returns (logs': seq<string>, uploads': seq<Upload>, error: Option<string>)
      modifies this
      ensures Step(Run(logs, uploads, old(rows), None), candidateKey, fname, run) == Run(logs', uploads', rows, error)
    {
      var pdf := ProcessingName(fname);
      logs', uploads', error := logs, uploads, None;
      if IsDocx(fname) && run.conversionError.Some? {
        logs' := logs + [ConvertErrorLine(fname, run.conversionError.value)];
      } else if run.pageCount == 0 {
        logs' := logs + [NoPagesLine(pdf)];
      } else if run.extracted.Err? {
        error := Some(run.extracted.error);
      } else if run.extracted.value.workDuration.None? {
        logs' := logs + [SkippedLine(pdf)];
      } else {
        uploads' := uploads + [Upload(pdf, FileType(fname))];
        UpsertResumeMetadata(pdf, candidateKey, run.extracted.value);
        logs' := logs + [DoneLine(pdf)];
      }
    }

    /** The loop of `ingest_all_resumes`: the files in order, stopping at the first exception. */
    method IngestFiles(files: seq<string>, candidateKey: string, runs: seq<FileRun>)
      returns (logs: seq<string>, uploads: seq<Upload>, error: Option<string>)
      requires |runs| == |files|
      modifies this
      ensures Run(logs, uploads, rows, error) == IngestFrom(Run([], [], old(rows), None), candidateKey, files, runs, 0)
    {
      logs, uploads, error := [], [], None;
      ghost var start := Run([], [], rows, None);
      var i := 0;
      while i < |files|
        invariant 0 <= i <= |files| && error.None?
        invariant IngestFrom(Run(logs, uploads, rows, None), candidateKey, files, runs, i)
          == IngestFrom(start, candidateKey, files, runs, 0)
      {
        ghost var before := Run(logs, uploads, rows, None);
        IngestFromStep(before, candidateKey, files, runs, i);
        logs, uploads, error := IngestFile(files[i], candidateKey, runs[i], logs, uploads);
        if error.Some? {
          IngestFromDone(Run(logs, uploads, rows, error), candidateKey, files, runs, i + 1);
          return;
        }
        i := i + 1;
      }
    }

    /** `ingest_all_resumes` on a folder listing, with one run per listed resume file. */
    method IngestAllResumes(entries: seq<string>, candidateKey: string, runs: seq<FileRun>)
      returns (r: Result<seq<string>>, uploads: seq<Upload>)
      requires |runs| == |IngestAll.ResumeFiles(entries)|
      modifies this
      ensures IngestAll.ResumeFiles(entries) == [] ==> r == Ok([NoResumeFiles]) && uploads == [] && rows == old(rows)
      ensures IngestAll.ResumeFiles(entries) != [] ==>
        rows == IngestFrom(Run([], [], old(rows), None), candidateKey, IngestAll.ResumeFiles(entries), runs, 0).rows
        && uploads == IngestFrom(Run([], [], old(rows), None), candidateKey, IngestAll.ResumeFiles(entries), runs, 0).uploads
        && r == Outcome(IngestFrom(Run([], [], old(rows), None), candidateKey, IngestAll.ResumeFiles(entries), runs, 0))
    {
      var files := IngestAll.ResumeFiles(entries);
      if |files| == 0 {
        return Ok([NoResumeFiles]), [];
      }
      var logs, error;
      logs, uploads, error := IngestFiles(files, candidateKey, runs);
      r := if error.Some? then Err(error.value) else Ok(logs);
    }
  }
}
