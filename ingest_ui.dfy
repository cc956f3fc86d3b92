/** frontend/ingest_ui.py: the pure and step-by-step logic inside the Streamlit page —
    the candidate filter's WHERE clause and parameters, the choice of the mikomiko file
    pair for a manual add, and how summary log lines are shown. Rendering, the database
    cursor and `os.listdir` are outside the model; the folder listing and the user's
    selections are parameters. The stop and clear buttons' status writes are
    `ProgressTracker.Ledger.RequestStop` and `ArchiveSession`. */
module IngestUi {
  import opened Wrappers
  import opened Strings

  // ================================================================ filter builder

  /** One query parameter: a list for `ANY(%s)`, a skill name, or a salary bound. */
  datatype Param = Values(items: seq<string>) | Word(text: string) | Number(value: int)

  /** The page's selections: six multiselects, the skills multiselect and the salary
      range dropdown. */
  datatype Selections = Selections(
    workDuration: seq<string>, university: seq<string>, appliedPosition: seq<string>,
    partOrFull: seq<string>, creditBearing: seq<string>, citizenship: seq<string>,
    skills: seq<string>, salary: string)

  /** The clauses and parameters built so far. */
  datatype Built = Built(clauses: seq<string>, params: seq<Param>)

  const Placeholder: string := "%s"

  /** `"rm.<column> = ANY(%s)"`. */
  function ListClause(column: string): string {
    "rm." + column + " = ANY(" + Placeholder + ")"
  }

  const SkillCondition: string := "(" + Placeholder + " = ANY(rn.skills_categories))"

  const SalaryHead: string :=
    "(rm.salary = 'any' OR " + "(rm.salary ~ '^[0-9]+$' " + "AND CAST(rm.salary " + "AS INTEGER) BETWEEN "

  /** The salary clause, with its two placeholders. */
  const SalaryClause: string := SalaryHead + Placeholder + " AND " + Placeholder + "))"

  /** `n` copies of `s`. */
  function Repeat(s: string, n: nat): (r: seq<string>)
    ensures |r| == n && forall i :: 0 <= i < n ==> r[i] == s
  {
    if n == 0 then [] else Repeat(s, n - 1) + [s]
  }

  /** `"(" + " OR ".join(skills_conditions) + ")"` for `n` selected skills. */
  function SkillsClause(n: nat): string {
    "(" + Join(Repeat(SkillCondition, n), " OR ") + ")"
  }

  /** One `Word` parameter per skill, in order. */
  function Words(skills: seq<string>): (r: seq<Param>)
    ensures |r| == |skills| && forall i :: 0 <= i < |skills| ==> r[i] == Word(skills[i])
  {
    if skills == [] then [] else Words(skills[..|skills| - 1]) + [Word(skills[|skills| - 1])]
  }

  /** A non-empty list selection adds its clause and the list as one parameter. */
  function AddList(b: Built, column: string, selected: seq<string>): Built {
    if selected == [] then b else Built(b.clauses + [ListClause(column)], b.params + [Values(selected)])
  }

  /** Selected skills add one OR-clause and one parameter per skill. */
  function AddSkills(b: Built, skills: seq<string>): Built {
    if skills == [] then b else Built(b.clauses + [SkillsClause(|skills|)], b.params + Words(skills))
  }

  /** `low_str, high_str = sel_salary.split("-"); int(low_str), int(high_str)`: `None`
      where Python raises `ValueError`. */
  function ParseSalary(salary: string): Option<(int, int)> {
    var parts := Split(salary, "-");
    if |parts| != 2 then None
    else match (ParseInt(parts[0]), ParseInt(parts[1]))
      case (Some(low), Some(high)) => Some((low, high))
      case _ => None
  }

  /** "ANY" adds nothing; a range adds the salary clause and its two bounds. */
  function AddSalary(b: Built, salary: string): Result<Built> {
    if salary == "ANY" then Ok(b)
    else match ParseSalary(salary)
      case None => Err("ValueError")
      case Some((low, high)) => Ok(Built(b.clauses + [SalaryClause], b.params + [Number(low), Number(high)]))
  }

  /** The six list filters, in the page's fixed order. */
  function Columns(s: Selections): seq<(string, seq<string>)> {
    [("work_duration_category", s.workDuration), ("university", s.university),
     ("applied_position", s.appliedPosition), ("part_or_full", s.partOrFull),
     ("is_credit_bearing", s.creditBearing), ("citizenship", s.citizenship)]
  }

  function ListFilters(s: Selections): Built {
    var b := AddList(Built([], []), "work_duration_category", s.workDuration);
    var b := AddList(b, "university", s.university);
    var b := AddList(b, "applied_position", s.appliedPosition);
    var b := AddList(b, "part_or_full", s.partOrFull);
    var b := AddList(b, "is_credit_bearing", s.creditBearing);
    AddList(b, "citizenship", s.citizenship)
  }

  /** The clauses and parameters of a selection, or the error the salary parse raises. */
  function Filter(s: Selections): Result<Built> {
    AddSalary(AddSkills(ListFilters(s), s.skills), s.salary)
  }

  /** `" AND " + " AND ".join(clauses)`, or "" without clauses. */
  function Where(clauses: seq<string>): string {
    if clauses == [] then "" else " AND " + Join(clauses, " AND ")
  }

  /** The text appended to `WHERE 1=1` and the parameter list the query runs with. */
  function FilterQuery(s: Selections): Result<(string, seq<Param>)> {
    match Filter(s)
    case Ok(b) => Ok((Where(b.clauses), b.params))
    case Err(e) => Err(e)
  }

  /** The filter button's handler: clauses and parameters appended step by step. */
  method BuildFilter(s: Selections) returns (r: Result<(string, seq<Param>)>)
    ensures r == FilterQuery(s)
  {
    var clauses: seq<string> := [];
    var params: seq<Param> := [];
    if s.workDuration != [] {
      clauses := clauses + [ListClause("work_duration_category")];
      params := params + [Values(s.workDuration)];
    }
    if s.university != [] {
      clauses := clauses + [ListClause("university")];
      params := params + [Values(s.university)];
    }
    if s.appliedPosition != [] {
      clauses := clauses + [ListClause("applied_position")];
      params := params + [Values(s.appliedPosition)];
    }
    if s.partOrFull != [] {
      clauses := clauses + [ListClause("part_or_full")];
      params := params + [Values(s.partOrFull)];
    }
    if s.creditBearing != [] {
      clauses := clauses + [ListClause("is_credit_bearing")];
      params := params + [Values(s.creditBearing)];
    }
    if s.citizenship != [] {
      clauses := clauses + [ListClause("citizenship")];
      params := params + [Values(s.citizenship)];
    }
    assert Built(clauses, params) == ListFilters(s);
    if s.skills != [] {
      var conditions: seq<string> := [];
      var skillParams: seq<Param> := [];
      var i := 0;
      while i < |s.skills|
        invariant 0 <= i <= |s.skills|
        invariant conditions == Repeat(SkillCondition, i)
        invariant skillParams == Words(s.skills[..i])
      {
        assert s.skills[..i + 1][..i] == s.skills[..i];
        conditions := conditions + [SkillCondition];
        skillParams := skillParams + [Word(s.skills[i])];
        i := i + 1;
      }
      assert s.skills[..i] == s.skills;
      params := params + skillParams;
      if conditions != [] {
        clauses := clauses + ["(" + Join(conditions, " OR ") + ")"];
      }
    }
    assert Built(clauses, params) == AddSkills(ListFilters(s), s.skills);
    if s.salary != "ANY" {
      var bounds := ParseSalary(s.salary);
      if bounds.None? {
        return Err("ValueError");
      }
      clauses := clauses + [SalaryClause];
      params := params + [Number(bounds.value.0), Number(bounds.value.1)];
    }
    var whereClause := if clauses != [] then " AND " + Join(clauses, " AND ") else "";
    r := Ok((whereClause, params));
  }

  // ---------------------------------------------------------------- placeholder count

  function Count(s: string): nat { CountOf(s, Placeholder) }

  /** Text without '%' holds no placeholder. */
  lemma {:induction false} CountPlain(s: string)
    requires '%' !in s
    ensures Count(s) == 0
    decreases |s|
  {
    if |s| >= 2 {
      assert s[0] != '%' && Placeholder[0] == '%';
      assert !(Placeholder <= s);
      CountPlain(s[1..]);
    }
  }

  lemma CountPlaceholder()
    ensures Count(Placeholder) == 1
  {
    assert Placeholder[2..] == [];
  }

  /** Placeholders add up across a cut after a character other than '%'. */
  lemma CountSplit(a: string, b: string)
    requires a != [] && a[|a| - 1] != '%'
    ensures Count(a + b) == Count(a) + Count(b)
  {
    CountConcat2(a, b, Placeholder);
  }

  lemma ListClauseCount(column: string)
    requires '%' !in column
    ensures Count(ListClause(column)) == 1
  {
    var head := "rm." + column + " = ANY(";
    CountPlain(head);
    CountPlain(")");
    CountPlaceholder();
    CountSplit(head, Placeholder);
    CountSplit(head + Placeholder, ")");
  }

  lemma SkillConditionCount()
    ensures Count(SkillCondition) == 1
  {
    var tail := " = ANY(rn.skills_categories))";
    CountPlain("(");
    CountPlain(tail);
    CountPlaceholder();
    CountSplit("(", Placeholder);
    CountSplit("(" + Placeholder, tail);
  }

  lemma SalaryHeadPlain()
    ensures '%' !in SalaryHead
  {
    assert '%' !in "(rm.salary = 'any' OR ";
    assert '%' !in "(rm.salary ~ '^[0-9]+$' ";
    assert '%' !in "AND CAST(rm.salary ";
    assert '%' !in "AS INTEGER) BETWEEN ";
  }

  lemma SalaryClauseCount()
    ensures Count(SalaryClause) == 2
  {
    SalaryHeadPlain();
    CountPlain(SalaryHead);
    CountPlain(" AND ");
    CountPlain("))");
    CountPlaceholder();
    var a := SalaryHead + Placeholder;
    var b := a + " AND ";
    var c := b + Placeholder;
    CountSplit(SalaryHead, Placeholder);
    CountSplit(a, " AND ");
    CountSplit(b, Placeholder);
    CountSplit(c, "))");
  }

  /** A clause ends with ')', never with '%'. */
  predicate Closed(c: string) { c != [] && c[|c| - 1] == ')' }

  function SumCounts(parts: seq<string>): nat {
    if parts == [] then 0 else Count(parts[0]) + SumCounts(parts[1..])
  }

  lemma {:induction false} SumCountsAppend(parts: seq<string>, c: string)
    ensures SumCounts(parts + [c]) == SumCounts(parts) + Count(c)
  {
    if parts != [] {
      assert (parts + [c])[1..] == parts[1..] + [c];
      SumCountsAppend(parts[1..], c);
    } else {
      assert parts + [c] == [c];
    }
  }

  lemma {:induction false} SumCountsRepeat(s: string, n: nat)
    ensures SumCounts(Repeat(s, n)) == n * Count(s)
  {
    if n > 0 {
      SumCountsRepeat(s, n - 1);
      SumCountsAppend(Repeat(s, n - 1), s);
    }
  }

  /** The placeholders of joined closed parts are those of the parts. */
  lemma {:induction false} CountJoin(parts: seq<string>, sep: string)
    requires forall i :: 0 <= i < |parts| ==> Closed(parts[i])
    requires '%' !in sep && sep != [] && sep[|sep| - 1] != '%'
    ensures Count(Join(parts, sep)) == SumCounts(parts)
    ensures parts != [] ==> Closed(Join(parts, sep))
  {
    if |parts| == 1 {
      assert parts[1..] == [];
    } else if |parts| > 1 {
      CountJoin(parts[1..], sep);
      var rest := Join(parts[1..], sep);
      CountPlain(sep);
      CountSplit(parts[0], sep);
      CountSplit(parts[0] + sep, rest);
    } else {
      CountPlain("");
    }
  }

  lemma SkillsClauseCount(n: nat)
    requires n > 0
    ensures Count(SkillsClause(n)) == n && Closed(SkillsClause(n))
  {
    var conds := Repeat(SkillCondition, n);
    CountJoin(conds, " OR ");
    SumCountsRepeat(SkillCondition, n);
    SkillConditionCount();
    var j := Join(conds, " OR ");
    CountPlain("(");
    CountPlain(")");
    CountSplit("(", j);
    CountSplit("(" + j, ")");
  }

  /** Every clause is closed and the placeholders of all clauses number the parameters. */
  predicate Balanced(b: Built) {
    (forall i :: 0 <= i < |b.clauses| ==> Closed(b.clauses[i]))
    && SumCounts(b.clauses) == |b.params|
  }

  lemma AddListBalanced(b: Built, column: string, selected: seq<string>)
    requires Balanced(b) && '%' !in column
    ensures Balanced(AddList(b, column, selected))
  {
    if selected != [] {
      SumCountsAppend(b.clauses, ListClause(column));
      ListClauseCount(column);
    }
  }

  lemma AddSkillsBalanced(b: Built, skills: seq<string>)
    requires Balanced(b)
    ensures Balanced(AddSkills(b, skills))
  {
    if skills != [] {
      SumCountsAppend(b.clauses, SkillsClause(|skills|));
      SkillsClauseCount(|skills|);
    }
  }

  lemma AddSalaryBalanced(b: Built, salary: string)
    requires Balanced(b)
    ensures AddSalary(b, salary).Ok? ==> Balanced(AddSalary(b, salary).value)
  {
    if salary != "ANY" && ParseSalary(salary).Some? {
      SumCountsAppend(b.clauses, SalaryClause);
      SalaryClauseCount();
    }
  }

  lemma ListFiltersBalanced(s: Selections)
    ensures Balanced(ListFilters(s))
  {
    var b0 := Built([], []);
    var b1 := AddList(b0, "work_duration_category", s.workDuration);
    var b2 := AddList(b1, "university", s.university);
    var b3 := AddList(b2, "applied_position", s.appliedPosition);
    var b4 := AddList(b3, "part_or_full", s.partOrFull);
    var b5 := AddList(b4, "is_credit_bearing", s.creditBearing);
    AddListBalanced(b0, "work_duration_category", s.workDuration);
    AddListBalanced(b1, "university", s.university);
    AddListBalanced(b2, "applied_position", s.appliedPosition);
    AddListBalanced(b3, "part_or_full", s.partOrFull);
    AddListBalanced(b4, "is_credit_bearing", s.creditBearing);
    AddListBalanced(b5, "citizenship", s.citizenship);
  }

  /** The WHERE text holds exactly as many "%s" placeholders as there are parameters. */
  lemma FilterPlaceholders(s: Selections)
    ensures FilterQuery(s).Ok? ==> Count(FilterQuery(s).value.0) == |FilterQuery(s).value.1|
  {
    ListFiltersBalanced(s);
    AddSkillsBalanced(ListFilters(s), s.skills);
    AddSalaryBalanced(AddSkills(ListFilters(s), s.skills), s.salary);
    if Filter(s).Ok? {
      var b := Filter(s).value;
      if b.clauses != [] {
        CountJoin(b.clauses, " AND ");
        CountPlain(" AND ");
        CountSplit(" AND ", Join(b.clauses, " AND "));
      } else {
        CountPlain("");
      }
    }
  }

  // ---------------------------------------------------------------- order and shape

  /** Reference listing: the clause of each non-empty list selection, in order. */
  function ListedClauses(cols: seq<(string, seq<string>)>): seq<string> {
    if cols == [] then []
    else (if cols[0].1 == [] then [] else [ListClause(cols[0].0)]) + ListedClauses(cols[1..])
  }

  /** Reference listing: the parameter of each non-empty list selection, in order. */
  function ListedParams(cols: seq<(string, seq<string>)>): seq<Param> {
    if cols == [] then []
    else (if cols[0].1 == [] then [] else [Values(cols[0].1)]) + ListedParams(cols[1..])
  }

  /** Applying the list steps one column after another. */
  function AddLists(b: Built, cols: seq<(string, seq<string>)>): Built
    decreases |cols|
  {
    if cols == [] then b else AddLists(AddList(b, cols[0].0, cols[0].1), cols[1..])
  }

  lemma {:induction false} AddListsAppends(b: Built, cols: seq<(string, seq<string>)>)
    ensures AddLists(b, cols) == Built(b.clauses + ListedClauses(cols), b.params + ListedParams(cols))
    decreases |cols|
  {
    if cols == [] {
      assert b.clauses + [] == b.clauses && b.params + [] == b.params;
    } else {
      var b1 := AddList(b, cols[0].0, cols[0].1);
      AddListsAppends(b1, cols[1..]);
      var c0: seq<string> := if cols[0].1 == [] then [] else [ListClause(cols[0].0)];
      var p0: seq<Param> := if cols[0].1 == [] then [] else [Values(cols[0].1)];
      assert b1 == Built(b.clauses + c0, b.params + p0);
      assert b.clauses + c0 + ListedClauses(cols[1..]) == b.clauses + (c0 + ListedClauses(cols[1..]));
      assert b.params + p0 + ListedParams(cols[1..]) == b.params + (p0 + ListedParams(cols[1..]));
    }
  }

  lemma ListFiltersInOrder(s: Selections)
    ensures ListFilters(s) == Built(ListedClauses(Columns(s)), ListedParams(Columns(s)))
  {
    var cols := Columns(s);
    var b0 := Built([], []);
    var b1 := AddList(b0, "work_duration_category", s.workDuration);
    var b2 := AddList(b1, "university", s.university);
    var b3 := AddList(b2, "applied_position", s.appliedPosition);
    var b4 := AddList(b3, "part_or_full", s.partOrFull);
    var b5 := AddList(b4, "is_credit_bearing", s.creditBearing);
    var b6 := AddList(b5, "citizenship", s.citizenship);
    assert AddLists(b0, cols) == AddLists(b1, cols[1..]);
    assert AddLists(b1, cols[1..]) == AddLists(b2, cols[2..]) by { assert cols[1..][1..] == cols[2..]; }
    assert AddLists(b2, cols[2..]) == AddLists(b3, cols[3..]) by { assert cols[2..][1..] == cols[3..]; }
    assert AddLists(b3, cols[3..]) == AddLists(b4, cols[4..]) by { assert cols[3..][1..] == cols[4..]; }
    assert AddLists(b4, cols[4..]) == AddLists(b5, cols[5..]) by { assert cols[4..][1..] == cols[5..]; }
    assert AddLists(b5, cols[5..]) == AddLists(b6, cols[6..]) by { assert cols[5..][1..] == cols[6..]; }
    assert cols[6..] == [];
    AddListsAppends(b0, cols);
  }

  /** The filter's clauses and parameters: one clause and one list parameter per
      non-empty list selection in the page's order, then the skills OR-clause with one
      parameter per skill, then the salary clause with the low and the high bound.
      Only a salary range that does not parse fails. */
  lemma FilterShape(s: Selections)
    ensures Filter(s).Ok? <==> (s.salary == "ANY" || ParseSalary(s.salary).Some?)
    ensures Filter(s).Ok? ==>
      var b := Filter(s).value;
      var ranged := s.salary != "ANY";
      b.clauses == ListedClauses(Columns(s)) + (if s.skills != [] then [SkillsClause(|s.skills|)] else [])
                   + (if ranged then [SalaryClause] else [])
      && b.params == ListedParams(Columns(s)) + Words(s.skills)
                   + (if ranged then [Number(ParseSalary(s.salary).value.0), Number(ParseSalary(s.salary).value.1)] else [])
  {
    ListFiltersInOrder(s);
    var l := ListFilters(s);
    assert Words([]) == [];
    assert l.clauses + [] == l.clauses && l.params + [] == l.params;
  }

  /** No list selection chosen means no listed clause. */
  lemma {:induction false} ListedClausesEmpty(cols: seq<(string, seq<string>)>)
    ensures ListedClauses(cols) == [] <==> forall i :: 0 <= i < |cols| ==> cols[i].1 == []
  {
    if cols != [] {
      ListedClausesEmpty(cols[1..]);
      assert forall i :: 1 <= i < |cols| ==> cols[i] == cols[1..][i - 1];
    }
  }

  /** The WHERE text is empty exactly when nothing is selected and the salary is "ANY". */
  lemma EmptyWhere(s: Selections)
    ensures FilterQuery(s).Ok? ==>
      (FilterQuery(s).value.0 == "" <==>
       (forall i :: 0 <= i < |Columns(s)| ==> Columns(s)[i].1 == []) && s.skills == [] && s.salary == "ANY")
  {
    FilterShape(s);
    ListedClausesEmpty(Columns(s));
  }

  /** Every entry of the dropdown, `"<low>-<high>"`, parses back to its two bounds. */
  lemma SalaryRangeRoundTrip(low: nat, high: nat)
    ensures ParseSalary(NatToString(low) + "-" + NatToString(high)) == Some((low, high))
  {
    var a := NatToString(low);
    var b := NatToString(high);
    assert '-' !in a && '-' !in b by {
      assert forall i :: 0 <= i < |a| ==> IsDigit(a[i]);
      assert forall i :: 0 <= i < |b| ==> IsDigit(b[i]);
    }
    SplitAtChar(a, b, '-');
    SplitNoChar(b, '-');
    ParseIntRoundTrip(low);
    ParseIntRoundTrip(high);
  }

  // ================================================================ manual add: the file pair

  /** `f.lower().endswith(('.pdf', '.docx'))`. */
  predicate IsResumeFile(f: string) { EndsWith(Lower(f), ".pdf") || EndsWith(Lower(f), ".docx") }

  /** `"mikomiko" in f.lower()`. */
  predicate IsMikomiko(f: string) { Contains(Lower(f), "mikomiko") }

  /** The folder's PDF/DOCX files, in listing order. */
  function ResumeFiles(listing: seq<string>): seq<string> {
    if listing == [] then []
    else ResumeFiles(listing[..|listing| - 1])
         + (if IsResumeFile(listing[|listing| - 1]) then [listing[|listing| - 1]] else [])
  }

  /** The files kept are exactly the listing's PDF/DOCX files. */
  lemma {:induction false} ResumeFilesFacts(listing: seq<string>, f: string)
    ensures f in ResumeFiles(listing) <==> f in listing && IsResumeFile(f)
    ensures |ResumeFiles(listing)| <= |listing|
  {
    if listing != [] {
      var init := listing[..|listing| - 1];
      ResumeFilesFacts(init, f);
      assert listing == init + [listing[|listing| - 1]];
    }
  }

  /** Why a folder is refused. */
  datatype PairError = WrongCount(found: seq<string>) | NoMikomiko | NoOther

  /** The outcome of "Extract Fields": the mikomiko file and the other one, or the
      refusal shown. */
  datatype PairChoice = Chosen(miko: string, other: string) | Refused(reason: PairError)

  /** The last file the loop assigns to `miko_file`. */
  function LastMikomiko(files: seq<string>): Option<string> {
    if files == [] then None
    else if IsMikomiko(files[|files| - 1]) then Some(files[|files| - 1])
    else LastMikomiko(files[..|files| - 1])
  }

  /** The last file the loop assigns to `other_file`. */
  function LastOther(files: seq<string>): Option<string> {
    if files == [] then None
    else if !IsMikomiko(files[|files| - 1]) then Some(files[|files| - 1])
    else LastOther(files[..|files| - 1])
  }

  function SelectPair(listing: seq<string>): PairChoice {
    Choose(ResumeFiles(listing))
  }

  /** The choice made from the folder's PDF/DOCX files. */
  function Choose(files: seq<string>): PairChoice {
    if |files| != 2 then Refused(WrongCount(files))
    else match (LastMikomiko(files), LastOther(files))
      case (None, _) => Refused(NoMikomiko)
      case (_, None) => Refused(NoOther)
      case (Some(m), Some(o)) => Chosen(m, o)
  }

  /** The "Extract Fields" checks: count the PDF/DOCX files, then sort them into the
      mikomiko file and the other one. */
  method ChoosePair(listing: seq<string>) returns (c: PairChoice)
    ensures c == SelectPair(listing)
  {
    var files := ResumeFiles(listing);
    if |files| != 2 {
      return Refused(WrongCount(files));
    }
    var miko: Option<string> := None;
    var other: Option<string> := None;
    for i := 0 to |files|
      invariant miko == LastMikomiko(files[..i])
      invariant other == LastOther(files[..i])
    {
      assert files[..i + 1][..i] == files[..i];
      if IsMikomiko(files[i]) {
        miko := Some(files[i]);
      } else {
        other := Some(files[i]);
      }
    }
    assert files[..|files|] == files;
    if miko.None? {
      c := Refused(NoMikomiko);
    } else if other.None? {
      c := Refused(NoOther);
    } else {
      c := Chosen(miko.value, other.value);
    }
  }

  /** A folder is accepted exactly when it holds two PDF/DOCX files of which exactly one
      has "mikomiko" in its name; the pair is then those two files, sorted. Two mikomiko
      files are refused as `NoOther`, none as `NoMikomiko`. */
  lemma ChooseFacts(files: seq<string>)
    ensures Choose(files).Chosen? <==> |files| == 2 && IsMikomiko(files[0]) != IsMikomiko(files[1])
    ensures Choose(files).Chosen? ==>
      IsMikomiko(Choose(files).miko) && !IsMikomiko(Choose(files).other)
      && multiset{Choose(files).miko, Choose(files).other} == multiset(files)
    ensures |files| != 2 <==> Choose(files) == Refused(WrongCount(files))
    ensures |files| == 2 && IsMikomiko(files[0]) && IsMikomiko(files[1]) ==> Choose(files) == Refused(NoOther)
    ensures |files| == 2 && !IsMikomiko(files[0]) && !IsMikomiko(files[1]) ==> Choose(files) == Refused(NoMikomiko)
  {
    if |files| == 2 {
      LastOfTwo(files);
      assert files == [files[0], files[1]];
    }
  }

  /** With two files, the later one wins each role it can take. */
  lemma LastOfTwo(files: seq<string>)
    requires |files| == 2
    ensures LastMikomiko(files) ==
      if IsMikomiko(files[1]) then Some(files[1]) else if IsMikomiko(files[0]) then Some(files[0]) else None
    ensures LastOther(files) ==
      if !IsMikomiko(files[1]) then Some(files[1]) else if !IsMikomiko(files[0]) then Some(files[0]) else None
  {
    var a := files[0];
    assert files[..1] == [a] && [a][..0] == [];
    assert LastMikomiko([a]) == if IsMikomiko(a) then Some(a) else None;
    assert LastOther([a]) == if IsMikomiko(a) then None else Some(a);
  }

  // ================================================================ summary logs

  const CheckMark: string := "\U{2713}"
  const WarningSign: string := "\U{26A0}\U{FE0F}"
  const CrossMark: string := "\U{274C}"
  const GreenTick: string := "\U{2705}"

  /** How one summary log line is shown. */
  datatype Shown = Success(markdown: string) | Warning(text: string) | Failure(text: string) | PlainText(text: string)

  /** The first matching prefix wins: check mark, then warning sign, then cross. */
  function ShowLog(log: string): Shown {
    if StartsWith(log, CheckMark) then Success(GreenTick + " " + log[1..])
    else if StartsWith(log, WarningSign) then Warning(log)
    else if StartsWith(log, CrossMark) then Failure(log)
    else PlainText(log)
  }

  /** Each kind is decided by the leading characters alone; a success line drops exactly
      its check mark behind a green tick, and every other line is shown as it is. */
  lemma ShowLogFacts(log: string)
    ensures ShowLog(log).Success? <==> log != [] && log[0] == '\U{2713}'
    ensures ShowLog(log).Warning? <==> |log| >= 2 && log[0] == '\U{26A0}' && log[1] == '\U{FE0F}'
    ensures ShowLog(log).Failure? <==> log != [] && log[0] == '\U{274C}'
    ensures ShowLog(log).Success? ==> log == CheckMark + ShowLog(log).markdown[2..]
    ensures !ShowLog(log).Success? ==> ShowLog(log).text == log
  {
    if log != [] && log[0] == '\U{2713}' {
      var m := GreenTick + " " + log[1..];
      assert m[2..] == log[1..];
      assert log == CheckMark + log[1..];
    }
    if |log| >= 2 {
      assert StartsWith(log, WarningSign) <==> log[..2] == WarningSign;
    }
  }

  /** The summary panel: one shown item per log line, in order. */
  method ShowLogs(logs: seq<string>) returns (shown: seq<Shown>)
    ensures |shown| == |logs| && forall i :: 0 <= i < |logs| ==> shown[i] == ShowLog(logs[i])
  {
    shown := [];
    for i := 0 to |logs|
      invariant |shown| == i && forall k :: 0 <= k < i ==> shown[k] == ShowLog(logs[k])
    {
      shown := shown + [ShowLog(logs[i])];
    }
  }
}
