/** frontend/email_ui_helpers.py: the chat's e-mail flow as a state machine over the
    session's pending e-mail. Intent detection is `BackendHelpers.EmailIntent`; the
    mailer call (`send_template_email_with_fields`, which is not part of this model) and
    the regular chat answer are inputs. */
module EmailUi {
  import opened Wrappers
  import opened Strings
  import opened Json
  import BackendHelpers

  /** `st.session_state.pending_email`. */
  datatype Pending = Pending(candidateKey: string, templateType: string, extractedFields: Json, recipientEmail: string)

  /** The mailer's outcome: an exception, or its reply dict, a missing key shown as None. */
  datatype MailerReply =
    | Raised(exception: string)
    | Returned(success: bool, previewMode: bool, message: Option<string>, error: Option<string>,
               recipientEmail: Option<string>, subject: Option<string>, body: Option<string>)

  const ConfirmWords: seq<string> := ["send", "yes", "confirm", "ok", "proceed", "y"]
  const CancelWords: seq<string> := ["cancel", "no", "stop", "abort", "n"]

  const SendError := "\U{274C} Error sending email: "
  const PrepareError := "\U{274C} Error preparing email: "
  const PreviewFailed := "Failed to prepare email preview"

  const Cancelled := "\U{1F4E7} Email sending cancelled."
  const PreviewReady := "\U{1F4E7} Email Preview - Please review before sending:\n\n\U{26A0}\U{FE0F} **Confirmation Required:** Reply with **'send'**, **'yes'**, or **'confirm'** to send this email, or **'cancel'** to abort."

  /** `user_input.lower().strip()`. */
  function Response(input: string): string { Strip(Lower(input)) }

  /** `str(KeyError(key))`. */
  function KeyErrorText(key: string): string { "'" + key + "'" }

  const ReminderHead := "\U{26A0}\U{FE0F} **Please respond to the pending email first!**\n\n"
    + "There is an email to **"
  const ReminderMiddle := "** waiting for your confirmation.\n\n"
    + "Please reply with:\n"
    + "\U{2022} **'send'**, **'yes'**, **'confirm'**, **'ok'**, **'proceed'** to send the email\n"
    + "\U{2022} **'cancel'**, **'no'**, **'stop'**, **'abort'** to cancel the email\n\n"
    + "Your response '"
  const ReminderTail := "' was not recognized as a clear confirmation or cancellation.\n"
    + "I cannot process other requests until you decide on this email."

  /** `_generate_pending_email_reminder`. */
  function Reminder(candidateKey: string, input: string): string {
    ReminderHead + candidateKey + ReminderMiddle + input + ReminderTail
  }

  /** `_send_pending_email`: the reply dict's `subject` and `body` are read before the
      message; a missing key raises inside the `try`. */
  function SendReply(sent: MailerReply): string {
    match sent
    case Raised(e) => SendError + e
    case Returned(success, _, message, error, _, subject, body) =>
      if success then
        if subject.None? then SendError + KeyErrorText("subject")
        else if body.None? then SendError + KeyErrorText("body")
        else if message.None? then SendError + KeyErrorText("message")
        else "\U{2705} " + message.value
      else if error.None? then SendError + KeyErrorText("error")
      else "\U{274C} " + error.value
  }

  /** `handle_email_confirmation`: the reply and whether to clear the pending e-mail. */
  function Confirmation(pending: Option<Pending>, input: string, sent: MailerReply): (r: (Option<string>, bool))
    ensures pending.Some? ==> r.0.Some?
  {
    if pending.None? then (None, false)
    else if Response(input) in ConfirmWords then (Some(SendReply(sent)), true)
    else if Response(input) in CancelWords then (Some(Cancelled), true)
    else (Some(Reminder(pending.value.candidateKey, input)), false)
  }

  /** With nothing pending there is no reply and nothing to clear. With an e-mail pending
      there is always a reply; the pending e-mail is cleared exactly when the normalised
      answer is one of the confirm or cancel words; a confirm word sends, a cancel word
      cancels, and anything else reminds. */
  lemma ConfirmationFacts(pending: Option<Pending>, input: string, sent: MailerReply)
    ensures pending.None? ==> Confirmation(pending, input, sent) == (None, false)
    ensures pending.Some? ==> var (reply, clear) := Confirmation(pending, input, sent);
      reply.Some?
      && (clear <==> Response(input) in ConfirmWords || Response(input) in CancelWords)
      && (Response(input) in ConfirmWords ==> reply.value == SendReply(sent))
      && (Response(input) in CancelWords ==> reply.value == Cancelled)
      && (!clear ==> reply.value == Reminder(pending.value.candidateKey, input))
  {
    assert forall w :: w in ConfirmWords ==> w !in CancelWords;
  }

  /** What one step produced: the reply (an exception propagates as Err) and the e-mail
      it left pending, if it stored one. */
  datatype Outcome = Outcome(reply: Result<Option<string>>, stored: Option<Pending>)

  /** `_show_email_preview`, whose display reads the recipient, subject and body; a
      pending e-mail is stored only for a successful reply in preview mode. */
  function Preview(candidateKey: string, templateType: string, fields: Json, preview: MailerReply): Outcome {
    match preview
    case Raised(e) => Outcome(Ok(Some(PrepareError + e)), None)
    case Returned(success, previewMode, _, error, recipient, subject, body) =>
      if success && previewMode then
        if recipient.None? then Outcome(Ok(Some(PrepareError + KeyErrorText("recipient_email"))), None)
        else if subject.None? then Outcome(Ok(Some(PrepareError + KeyErrorText("subject"))), None)
        else if body.None? then Outcome(Ok(Some(PrepareError + KeyErrorText("body"))), None)
        else Outcome(Ok(Some(PreviewReady)), Some(Pending(candidateKey, templateType, fields, recipient.value)))
      else Outcome(Ok(Some("\U{274C} " + (if error.Some? then error.value else PreviewFailed))), None)
  }

  const NoCandidateHead := "\U{274C} I understand you want to send an email, but I couldn't identify which candidate you're referring to. Available candidates in current results: "

  function NoCandidateText(keys: seq<string>): string {
    NoCandidateHead + Join(keys, ", ")
  }

  const NoTemplateHead := "\U{274C} I understand you want to send an email to "
  const NoTemplateTail := ", but I couldn't determine what type of email. Available types: offer, rejection, interview."

  function NoTemplateText(candidateKey: string): string {
    NoTemplateHead + candidateKey + NoTemplateTail
  }

  /** `handle_email_request` on the detected intent: None for a non-e-mail intent; a
      missing candidate, then a missing template type, give an error reply; a template
      type that is not text raises when the preview formats it. A missing key raises
      KeyError, and a truthy candidate key that is not text is refused; neither comes out
      of `BackendHelpers.EmailIntent` (see `BackendHelpers.IntentShape`). */
  function Request(intent: Result<map<string, Json>>, keys: seq<string>, preview: MailerReply): Outcome {
    match Route(intent, keys)
    case Raise(e) => Outcome(Err(e), None)
    case Reply(r) => Outcome(Ok(r), None)
    case ToPreview(ck, tt, fields) => Preview(ck, tt, fields, preview)
  }

  /** Where a detected intent leads before the preview. */
  datatype Routing = Raise(e: string) | Reply(r: Option<string>) | ToPreview(candidateKey: string, templateType: string, fields: Json)

  function Route(intent: Result<map<string, Json>>, keys: seq<string>): Routing {
    match intent
    case Err(e) => Raise(e)
    case Ok(m) =>
      if "is_email_request" !in m then Raise("KeyError")
      else if !Truthy(m["is_email_request"]) then Reply(None)
      else if "template_type" !in m || "candidate_key" !in m then Raise("KeyError")
      else
        var ck := m["candidate_key"];
        var tt := m["template_type"];
        if !Truthy(ck) then Reply(Some(NoCandidateText(keys)))
        else if !ck.Str? then Raise("TypeError")
        else if !Truthy(tt) then Reply(Some(NoTemplateText(ck.s)))
        else if !tt.Str? then Raise("AttributeError")
        else ToPreview(ck.s, tt.s, if "extracted_fields" in m then m["extracted_fields"] else Obj(map[]))
  }

  /** `process_user_input`: the reply and the pending e-mail afterwards. */
  function Process(pending: Option<Pending>, input: string, intent: Result<map<string, Json>>,
                   keys: seq<string>, preview: MailerReply, sent: MailerReply, chat: string): (Result<string>, Option<Pending>)
  {
    if pending.Some? then
      var (reply, clear) := Confirmation(pending, input, sent);
      (Ok(reply.value), if clear then None else pending)
    else
      var o := Request(intent, keys, preview);
      match o.reply
      case Err(e) => (Err(e), None)
      case Ok(r) => (Ok(if r.Some? && r.value != "" then r.value else chat), o.stored)
  }

  /** While an e-mail is pending, the reply is the confirmation's whatever the intent,
      preview and chat would have been, and the e-mail stays pending exactly when the
      answer was neither a confirm nor a cancel word. */
  lemma PendingBlocks(pending: Option<Pending>, input: string, sent: MailerReply,
                      intent1: Result<map<string, Json>>, keys1: seq<string>, preview1: MailerReply, chat1: string,
                      intent2: Result<map<string, Json>>, keys2: seq<string>, preview2: MailerReply, chat2: string)
    requires pending.Some?
    ensures Process(pending, input, intent1, keys1, preview1, sent, chat1)
         == Process(pending, input, intent2, keys2, preview2, sent, chat2)
    ensures var (r, after) := Process(pending, input, intent1, keys1, preview1, sent, chat1);
      r == Ok(Confirmation(pending, input, sent).0.value)
      && (after.None? <==> Response(input) in ConfirmWords || Response(input) in CancelWords)
      && (after.Some? ==> after == pending)
  {
    ConfirmationFacts(pending, input, sent);
    ProcessPending(pending, input, intent1, keys1, preview1, sent, chat1);
    ProcessPending(pending, input, intent2, keys2, preview2, sent, chat2);
  }

  /** A new pending e-mail is stored only by a preview that succeeded in preview mode and
      returned a recipient, subject and body; it records the intent's candidate and
      template type and the recipient the mailer returned. */
  lemma StoredOnlyByPreview(input: string, intent: Result<map<string, Json>>,
                            keys: seq<string>, preview: MailerReply, sent: MailerReply, chat: string)
    ensures var (_, after) := Process(None, input, intent, keys, preview, sent, chat);
      after.Some? ==>
        preview.Returned? && preview.success && preview.previewMode
        && preview.recipientEmail.Some? && preview.subject.Some? && preview.body.Some?
        && after.value.recipientEmail == preview.recipientEmail.value
        && intent.Ok? && "candidate_key" in intent.value && "template_type" in intent.value
        && intent.value["candidate_key"] == Str(after.value.candidateKey)
        && intent.value["template_type"] == Str(after.value.templateType)
  {
  }

  /** A reply that is not an e-mail request goes to the regular chat, and nothing is
      stored. */
  lemma NotEmailGoesToChat(input: string, intent: Result<map<string, Json>>,
                           keys: seq<string>, preview: MailerReply, sent: MailerReply, chat: string)
    requires intent.Ok? && "is_email_request" in intent.value && !Truthy(intent.value["is_email_request"])
    ensures Process(None, input, intent, keys, preview, sent, chat) == (Ok(chat), None)
  {
  }

  /** An e-mail request without a usable candidate is answered with the list of known
      candidates before the template type is looked at, and nothing is stored. */
  lemma MissingCandidateFirst(input: string, intent: Result<map<string, Json>>,
                              keys: seq<string>, preview: MailerReply, sent: MailerReply, chat: string)
    requires intent.Ok? && "is_email_request" in intent.value && Truthy(intent.value["is_email_request"])
    requires "template_type" in intent.value && "candidate_key" in intent.value
    requires !Truthy(intent.value["candidate_key"])
    ensures Process(None, input, intent, keys, preview, sent, chat) == (Ok(NoCandidateText(keys)), None)
  {
    assert Route(intent, keys) == Reply(Some(NoCandidateText(keys)));
    NoCandidateTextNonEmpty(keys);
  }

  /** `Process` with an e-mail pending, one step unfolded. */
  lemma ProcessPending(pending: Option<Pending>, input: string, intent: Result<map<string, Json>>,
                       keys: seq<string>, preview: MailerReply, sent: MailerReply, chat: string)
    requires pending.Some?
    ensures var (reply, clear) := Confirmation(pending, input, sent);
      Process(pending, input, intent, keys, preview, sent, chat) == (Ok(reply.value), if clear then None else pending)
  {
  }

  /** `Process` with nothing pending, one step unfolded. */
  lemma ProcessRequest(input: string, intent: Result<map<string, Json>>,
                       keys: seq<string>, preview: MailerReply, sent: MailerReply, chat: string)
    ensures var o := Request(intent, keys, preview);
      Process(None, input, intent, keys, preview, sent, chat)
      == match o.reply
         case Err(e) => (Err(e), None)
         case Ok(r) => (Ok(if r.Some? && r.value != "" then r.value else chat), o.stored)
  {
  }

  lemma NoCandidateTextNonEmpty(keys: seq<string>)
    ensures NoCandidateText(keys) != ""
  {
    assert |NoCandidateHead| > 0;
  }

  /** The session: the e-mail waiting for confirmation, if any. */
  class EmailSession {
    var pending: Option<Pending>

    constructor()
      ensures pending.None?
    {
      pending := None;
    }

    /** `handle_email_confirmation`, which reads the pending e-mail and changes nothing. */
    method HandleEmailConfirmation(input: string, sent: MailerReply) returns (reply: Option<string>, clear: bool)
      ensures (reply, clear) == Confirmation(pending, input, sent)
    {
      if pending.None? {
        return None, false;
      }
      var response := Response(input);
      if response in ConfirmWords {
        reply := Some(SendReply(sent));
        clear := true;
      } else if response in CancelWords {
        reply := Some(Cancelled);
        clear := true;
      } else {
        reply := Some(Reminder(pending.value.candidateKey, input));
        clear := false;
      }
    }

    /** `_show_email_preview`: stores the pending e-mail on a successful preview. */
    method ShowEmailPreview(candidateKey: string, templateType: string, fields: Json, preview: MailerReply)
      returns (reply: string)
      modifies this
      ensures var o := Preview(candidateKey, templateType, fields, preview);
        o.reply == Ok(Some(reply)) && pending == (if o.stored.Some? then o.stored else old(pending))
    {
      if preview.Raised? {
        return PrepareError + preview.exception;
      }
      if !(preview.success && preview.previewMode) {
        var error := if preview.error.Some? then preview.error.value else PreviewFailed;
        return "\U{274C} " + error;
      }
      if preview.recipientEmail.None? {
        return PrepareError + KeyErrorText("recipient_email");
      }
      if preview.subject.None? {
        return PrepareError + KeyErrorText("subject");
      }
      if preview.body.None? {
        return PrepareError + KeyErrorText("body");
      }
      pending := Some(Pending(candidateKey, templateType, fields, preview.recipientEmail.value));
      reply := PreviewReady;
    }

    /** `handle_email_request`, after `detect_email_intent`. */
    method HandleEmailRequest(intent: Result<map<string, Json>>, keys: seq<string>, preview: MailerReply)
      returns (r: Result<Option<string>>)
      modifies this
      ensures var o := Request(intent, keys, preview);
        r == o.reply && pending == (if o.stored.Some? then o.stored else old(pending))
    {
      var route := Route(intent, keys);
      match route
      case Raise(e) =>
        r := Err(e);
      case Reply(reply) =>
        r := Ok(reply);
      case ToPreview(candidateKey, templateType, fields) =>
        var reply := ShowEmailPreview(candidateKey, templateType, fields, preview);
        r := Ok(Some(reply));
    }

    /** `process_user_input`: a pending e-mail takes the input first, and is deleted exactly
      when the confirmation says so; otherwise an e-mail request, and then the chat. */
    method ProcessUserInput(input: string, modelReply: Result<string>, decode: string -> Option<Json>,
                            keys: seq<string>, preview: MailerReply, sent: MailerReply, chat: string)
      returns (r: Result<string>)
      modifies this
      ensures (r, pending) == Process(old(pending), input, BackendHelpers.EmailIntent(modelReply, decode, keys),
                                      keys, preview, sent, chat)
    {
      if pending.Some? {
        var reply, clear := HandleEmailConfirmation(input, sent);
        ProcessPending(pending, input, BackendHelpers.EmailIntent(modelReply, decode, keys), keys, preview, sent, chat);
        if clear {
          pending := None;
        }
        return Ok(reply.value);
      }
      var intent := BackendHelpers.DetectEmailIntent(modelReply, decode, keys);
      ProcessRequest(input, intent, keys, preview, sent, chat);
      var emailReply := HandleEmailRequest(intent, keys, preview);
      if emailReply.Err? {
        return Err(emailReply.error);
      }
      if emailReply.value.Some? && emailReply.value.value != "" {
        return Ok(emailReply.value.value);
      }
      r := Ok(chat);
    }
  }
}
