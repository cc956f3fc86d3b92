/** backend/email_service.py: construction of the service from the environment, the
    `{name}` placeholder substitution, the candidate-row-to-variables mapping and the order
    in which `send_template_email` reports failures. Database reads and the SMTP send
    are parameters. */
module EmailService {
  import opened Wrappers
  import opened Strings

  // ================================================================ construction

  datatype Service = Service(smtpServer: string, smtpPort: int, senderEmail: string, senderPassword: string,
                             senderName: string)

  /** `os.getenv(name, default)`. */
  function GetEnv(env: map<string, string>, name: string, default: string): string {
    if name in env then env[name] else default
  }

  predicate Set(env: map<string, string>, name: string) { name in env && env[name] != "" }

  /** `EmailService()`: `int()` of the port raises first; then an unset or empty sender
      address or password raises ValueError. */
  function NewService(env: map<string, string>): Result<Service> {
    match ParseInt(GetEnv(env, "SMTP_PORT", "587"))
    case None => Err("ValueError: invalid literal for int()")
    case Some(port) =>
      if !Set(env, "EMAIL_ADDRESS") || !Set(env, "EMAIL_PASSWORD") then
        Err("ValueError: EMAIL_ADDRESS and EMAIL_PASSWORD must be set in environment variables")
      else Ok(Service(GetEnv(env, "SMTP_SERVER", "smtp.gmail.com"), port, env["EMAIL_ADDRESS"], env["EMAIL_PASSWORD"],
                      GetEnv(env, "EMAIL_FROM_NAME", "HR Team")))
  }

  /** Construction succeeds exactly when the port parses and both credentials are set;
      the server, port and sender name fall back to smtp.gmail.com, 587 and "HR Team". */
  lemma NewServiceFacts(env: map<string, string>)
    ensures NewService(env).Ok? <==>
      ParseInt(GetEnv(env, "SMTP_PORT", "587")).Some? && Set(env, "EMAIL_ADDRESS") && Set(env, "EMAIL_PASSWORD")
    ensures NewService(env).Ok? ==> var s := NewService(env).value;
      s.senderEmail == env["EMAIL_ADDRESS"] && s.senderPassword == env["EMAIL_PASSWORD"]
      && ("SMTP_SERVER" !in env ==> s.smtpServer == "smtp.gmail.com")
      && ("EMAIL_FROM_NAME" !in env ==> s.senderName == "HR Team")
  {
  }

  /** The default port text reads as 587. */
  lemma DefaultPort()
    ensures ParseInt("587") == Some(587)
  {
    ParseIntRoundTrip(587);
    PrintedPort();
  }

  /** `str(587)` is "587", digit by digit. */
  lemma PrintedPort()
    ensures IntToString(587) == "587"
  {
    assert NatToString(5) == ['5'];
    assert NatToString(58) == ['5'] + ['8'];
    assert NatToString(587) == ['5'] + ['8'] + ['7'];
    assert ['5'] + ['8'] + ['7'] == ['5', '8', '7'];
  }

  /** Without SMTP_PORT the port is 587. */
  lemma NewServicePort(env: map<string, string>)
    requires "SMTP_PORT" !in env && Set(env, "EMAIL_ADDRESS") && Set(env, "EMAIL_PASSWORD")
    ensures NewService(env).Ok? && NewService(env).value.smtpPort == 587
  {
    DefaultPort();
  }

  // ================================================================ render_template

  /** An insertion-ordered dict of template variables; a value is text or None. */
  type Variables = seq<(string, Option<string>)>

  function Placeholder(key: string): (p: string)
    ensures |p| == |key| + 2
  {
    "{" + key + "}"
  }

  /** `str(value or '')` for a text-or-None value. */
  function ValueText(v: Option<string>): string {
    match v case None => "" case Some(s) => s
  }

  /** The template after substituting each variable in order. */
  function Render(template: string, vars: Variables): string
    decreases |vars|
  {
    if vars == [] then template
    else Render(ReplaceAll(template, Placeholder(vars[0].0), ValueText(vars[0].1)), vars[1..])
  }

  /** `render_template`: a loop reassigning `rendered`. */
  method RenderTemplate(template: string, vars: Variables) returns (rendered: string)
    ensures rendered == Render(template, vars)
  {
    rendered := template;
    var i := 0;
    while i < |vars|
      invariant 0 <= i <= |vars| && Render(rendered, vars[i..]) == Render(template, vars)
    {
      assert vars[i..][1..] == vars[i + 1..];
      rendered := ReplaceAll(rendered, Placeholder(vars[i].0), ValueText(vars[i].1));
      i := i + 1;
    }
  }

  /** A template with none of the variables' placeholders, in particular one with no
      placeholder at all, comes back unchanged. */
  lemma {:induction false} RenderUntouched(template: string, vars: Variables)
    requires forall k :: 0 <= k < |vars| ==> !Contains(template, Placeholder(vars[k].0))
    ensures Render(template, vars) == template
    decreases |vars|
  {
    if vars != [] {
      ReplaceAbsent(template, Placeholder(vars[0].0), ValueText(vars[0].1));
      assert forall k :: 0 <= k < |vars[1..]| ==> vars[1..][k] == vars[k + 1];
      RenderUntouched(template, vars[1..]);
    }
  }

  /** One variable: the template's pieces between occurrences of `{key}`, joined with
      the value's text, which is empty for None. */
  lemma RenderOne(template: string, key: string, v: Option<string>)
    ensures Render(template, [(key, v)]) == Join(Split(template, Placeholder(key)), ValueText(v))
    ensures v.None? || v == Some("") ==> Render(template, [(key, v)]) == Join(Split(template, Placeholder(key)), "")
  {
    ReplaceIsSplitJoin(template, Placeholder(key), ValueText(v));
  }

  /** Substituting two dicts in turn is substituting their concatenation. */
  lemma {:induction false} RenderConcat(template: string, a: Variables, b: Variables)
    ensures Render(template, a + b) == Render(Render(template, a), b)
    decreases |a|
  {
    if a != [] {
      assert (a + b)[0] == a[0] && (a + b)[1..] == a[1..] + b;
      RenderConcat(ReplaceAll(template, Placeholder(a[0].0), ValueText(a[0].1)), a[1..], b);
    } else {
      assert a + b == b;
    }
  }

  // ================================================================ get_candidate_info

  /** The `resumes_metadata` columns the lookup selects. */
  datatype CandidateRow = CandidateRow(candidateKey: string, email: Option<string>, university: Option<string>,
                                       appliedPosition: Option<string>, salary: Option<string>,
                                       partOrFull: Option<string>, fromDate: Option<string>, toDate: Option<string>)

  predicate Truthy(v: Option<string>) { v.Some? && v.value != "" }

  /** The variables built from a row, in the source's key order. */
  function CandidateVariables(row: CandidateRow, company: string, senderName: string): Variables {
    var duration := if Truthy(row.fromDate) && Truthy(row.toDate) then row.fromDate.value + " to " + row.toDate.value
                    else "TBD";
    [("candidate_name", Some(row.candidateKey)), ("email", row.email), ("university", row.university),
     ("position", row.appliedPosition), ("applied_position", row.appliedPosition), ("salary", row.salary),
     ("duration", Some(duration)), ("start_date", Some(if Truthy(row.fromDate) then row.fromDate.value else "TBD")),
     ("company", Some(company)), ("sender_name", Some(senderName)),
     ("employment_type", Some(if row.partOrFull == Some("FULLTIME") then "Full-time" else "Part-time")),
     ("from_date", row.fromDate), ("to_date", row.toDate)]
  }

  /** `d.get(key)` on an ordered dict: the first entry with that key. */
  function Lookup(vars: Variables, key: string): Option<Option<string>>
    decreases |vars|
  {
    if vars == [] then None
    else if vars[0].0 == key then Some(vars[0].1)
    else Lookup(vars[1..], key)
  }

  /** `get_candidate_info`: None on a failed read or a missing row; the company name
      defaults to "Pensees Company". */
  function GetCandidateInfo(row: Result<Option<CandidateRow>>, env: map<string, string>, s: Service): Option<Variables> {
    if row.Err? || row.value.None? then None
    else Some(CandidateVariables(row.value.value, GetEnv(env, "COMPANY_NAME", "Pensees Company"), s.senderName))
  }

  /** The copied variables: the position and the applied position are both the row's
      applied position, and the address is the row's. */
  lemma CandidateVariablesFacts(row: CandidateRow, company: string, senderName: string)
    ensures Lookup(CandidateVariables(row, company, senderName), "position") == Some(row.appliedPosition)
    ensures Lookup(CandidateVariables(row, company, senderName), "applied_position") == Some(row.appliedPosition)
    ensures Lookup(CandidateVariables(row, company, senderName), "email") == Some(row.email)
  {
    var vars := CandidateVariables(row, company, senderName);
    LookupAt(vars, "email", 1);
    LookupAt(vars, "position", 3);
    LookupAt(vars, "applied_position", 4);
  }

  /** The derived variables: the duration is "<from> to <to>" when both dates are set and
      "TBD" otherwise; the start date falls back to "TBD"; the employment type is
      "Full-time" exactly for FULLTIME and "Part-time" otherwise, None included. */
  lemma DerivedVariablesFacts(row: CandidateRow, company: string, senderName: string)
    ensures Lookup(CandidateVariables(row, company, senderName), "duration") == Some(Some(
      if Truthy(row.fromDate) && Truthy(row.toDate) then row.fromDate.value + " to " + row.toDate.value else "TBD"))
    ensures Lookup(CandidateVariables(row, company, senderName), "start_date")
      == Some(Some(if Truthy(row.fromDate) then row.fromDate.value else "TBD"))
    ensures Lookup(CandidateVariables(row, company, senderName), "employment_type") == Some(Some("Full-time"))
      <==> row.partOrFull == Some("FULLTIME")
    ensures row.partOrFull != Some("FULLTIME") ==>
      Lookup(CandidateVariables(row, company, senderName), "employment_type") == Some(Some("Part-time"))
  {
    var vars := CandidateVariables(row, company, senderName);
    LookupAt(vars, "duration", 6);
    LookupAt(vars, "start_date", 7);
    LookupAt(vars, "employment_type", 10);
  }

  /** The entry at `k` is what a lookup finds when no earlier entry has its key. */
  lemma {:induction false} LookupAt(vars: Variables, key: string, k: nat)
    requires k < |vars| && vars[k].0 == key && forall j :: 0 <= j < k ==> vars[j].0 != key
    ensures Lookup(vars, key) == Some(vars[k].1)
    decreases k
  {
    if k > 0 {
      LookupAt(vars[1..], key, k - 1);
    }
  }

  // ================================================================ send_template_email

  datatype Template = Template(subject: string, body: string)

  /** `get_email_template`: None on a failed read or a missing row. */
  function GetEmailTemplate(row: Result<Option<Template>>): Option<Template> {
    if row.Err? then None else row.value
  }

  /** The reply dict: success with the sent message, or failure with an error. */
  datatype SendResult = Sent(message: string, subject: string, body: string) | Failed(error: string)

  /** `str()` of a text-or-None value in an f-string. */
  function PyStr(v: Option<string>): string {
    match v case None => "None" case Some(s) => s
  }

  /** `send_template_email`, given the two table reads and the SMTP outcome for a
      recipient, subject and body. */
  function SendTemplateEmail(s: Service, env: map<string, string>, candidateKey: string, templateName: string,
                             templates: string -> Result<Option<Template>>,
                             candidates: string -> Result<Option<CandidateRow>>,
                             send: (Option<string>, string, string) -> bool): SendResult
  {
    match GetEmailTemplate(templates(templateName))
    case None => Failed("Template " + templateName + " not found")
    case Some(t) =>
      match GetCandidateInfo(candidates(candidateKey), env, s)
      case None => Failed("Candidate " + candidateKey + " not found")
      case Some(info) =>
        var to := candidates(candidateKey).value.value.email;
        var subject := Render(t.subject, info);
        var body := Render(t.body, info);
        if send(to, subject, body) then Sent("Email sent successfully to " + PyStr(to) + " via Gmail SMTP", subject, body)
        else Failed("Failed to send email via Gmail SMTP")
  }

  /** A missing template is reported whatever the candidate table and the mailer would
      do. */
  lemma TemplateCheckedFirst(s: Service, env: map<string, string>, candidateKey: string, templateName: string,
                             templates: string -> Result<Option<Template>>,
                             candidates1: string -> Result<Option<CandidateRow>>,
                             candidates2: string -> Result<Option<CandidateRow>>,
                             send1: (Option<string>, string, string) -> bool,
                             send2: (Option<string>, string, string) -> bool)
    requires GetEmailTemplate(templates(templateName)).None?
    ensures SendTemplateEmail(s, env, candidateKey, templateName, templates, candidates1, send1)
         == SendTemplateEmail(s, env, candidateKey, templateName, templates, candidates2, send2)
         == Failed("Template " + templateName + " not found")
  {
  }

  /** With the template found, a missing candidate is reported whatever the mailer would
      do. */
  lemma CandidateCheckedSecond(s: Service, env: map<string, string>, candidateKey: string, templateName: string,
                               templates: string -> Result<Option<Template>>,
                               candidates: string -> Result<Option<CandidateRow>>,
                               send1: (Option<string>, string, string) -> bool,
                               send2: (Option<string>, string, string) -> bool)
    requires GetEmailTemplate(templates(templateName)).Some?
    requires GetCandidateInfo(candidates(candidateKey), env, s).None?
    ensures SendTemplateEmail(s, env, candidateKey, templateName, templates, candidates, send1)
         == SendTemplateEmail(s, env, candidateKey, templateName, templates, candidates, send2)
         == Failed("Candidate " + candidateKey + " not found")
  {
  }

  /** With both found, the mail goes to the candidate's address with the template's
      subject and body rendered from the candidate's variables; success is reported
      exactly when the send does. */
  lemma SendOutcome(s: Service, env: map<string, string>, candidateKey: string, templateName: string,
                    templates: string -> Result<Option<Template>>,
                    candidates: string -> Result<Option<CandidateRow>>,
                    send: (Option<string>, string, string) -> bool)
    requires GetEmailTemplate(templates(templateName)).Some?
    requires GetCandidateInfo(candidates(candidateKey), env, s).Some?
    ensures var t := GetEmailTemplate(templates(templateName)).value;
      var info := GetCandidateInfo(candidates(candidateKey), env, s).value;
      var r := SendTemplateEmail(s, env, candidateKey, templateName, templates, candidates, send);
      (r.Sent? <==> send(candidates(candidateKey).value.value.email, Render(t.subject, info), Render(t.body, info)))
      && (r.Sent? ==> r.subject == Render(t.subject, info) && r.body == Render(t.body, info))
      && (r.Failed? ==> r.error == "Failed to send email via Gmail SMTP")
  {
  }
}
