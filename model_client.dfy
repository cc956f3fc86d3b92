/** backend/model.py: the request body `Qwen2VLClient` sends to the vLLM chat endpoint.
    The HTTP call itself is outside the model; `os.path.abspath` depends on the working
    directory and is a parameter. */
module ModelClient {
  import opened Wrappers
  import opened Json

  /** The client's settings, fixed at construction. */
  datatype Client = Client(endpoint: string, model: string, temperature: real, timeout: real)

  /** One item of a list-valued user content. */
  datatype Part = ImageUrl(url: string) | Text(text: string) | Extra(item: Json)

  /** User content is either a plain string or a list of typed items. */
  datatype Content = Plain(text: string) | Parts(parts: seq<Part>)

  datatype Message = Message(role: string, content: Content)

  datatype Payload = Payload(model: string, messages: seq<Message>, temperature: real)

  /** `f"file://{abs_path}"`. */
  function FileUrl(absPath: string): string { "file://" + absPath }

  /** `if extra_messages:` — present and non-empty. */
  predicate HasExtras(extras: Option<seq<Json>>) { extras.Some? && extras.value != [] }

  /** The case where the user content is sent as the question string itself. */
  predicate TextOnly(question: Option<string>, imagePath: Option<string>, extras: Option<seq<Json>>) {
    imagePath.None? && question.Some? && !HasExtras(extras)
  }

  function ExtraParts(items: seq<Json>): (r: seq<Part>)
    ensures |r| == |items| && forall k :: 0 <= k < |items| ==> r[k] == Extra(items[k])
  {
    if items == [] then [] else [Extra(items[0])] + ExtraParts(items[1..])
  }

  /** The `type_entries` list: the image, then the question, then the extra items. */
  function TypeEntries(question: Option<string>, imagePath: Option<string>, extras: Option<seq<Json>>,
                       abspath: string -> string): seq<Part>
  {
    (if imagePath.Some? then [ImageUrl(FileUrl(abspath(imagePath.value)))] else [])
    + (if question.Some? then [Text(question.value)] else [])
    + (if HasExtras(extras) then ExtraParts(extras.value) else [])
  }

  /** `_build_payload`. */
  function BuildPayload(c: Client, question: Option<string>, imagePath: Option<string>, systemPrompt: string,
                        extras: Option<seq<Json>>, abspath: string -> string): Payload
  {
    var user := if TextOnly(question, imagePath, extras) then Plain(question.value)
                else Parts(TypeEntries(question, imagePath, extras, abspath));
    Payload(c.model, [Message("system", Plain(systemPrompt)), Message("user", user)], c.temperature)
  }

  /** Exactly two messages, the system prompt first and then the user turn; the model
      name and temperature are the client's. */
  lemma PayloadShape(c: Client, question: Option<string>, imagePath: Option<string>, systemPrompt: string,
                     extras: Option<seq<Json>>, abspath: string -> string)
    ensures var p := BuildPayload(c, question, imagePath, systemPrompt, extras, abspath);
      |p.messages| == 2 && p.messages[0] == Message("system", Plain(systemPrompt))
      && p.messages[1].role == "user" && p.model == c.model && p.temperature == c.temperature
  {
  }

  /** The user content is the plain question exactly when there is no image, there is a
      question and there are no extra items. */
  lemma PlainIffTextOnly(c: Client, question: Option<string>, imagePath: Option<string>, systemPrompt: string,
                         extras: Option<seq<Json>>, abspath: string -> string)
    ensures var content := BuildPayload(c, question, imagePath, systemPrompt, extras, abspath).messages[1].content;
      (content.Plain? <==> TextOnly(question, imagePath, extras))
      && (content.Plain? ==> content.text == question.value)
  {
  }

  /** Otherwise the content is a list: the image entry (with a `file://` URL of the
      absolute path) if there is an image, then the question if there is one, then the
      extra items in order; with no inputs it is empty. */
  lemma {:induction false} PartsLayout(c: Client, question: Option<string>, imagePath: Option<string>, systemPrompt: string,
                    extras: Option<seq<Json>>, abspath: string -> string)
    requires !TextOnly(question, imagePath, extras)
    ensures var content := BuildPayload(c, question, imagePath, systemPrompt, extras, abspath).messages[1].content;
      var i := if imagePath.Some? then 1 else 0;
      var q := if question.Some? then 1 else 0;
      var n := if HasExtras(extras) then |extras.value| else 0;
      content.Parts? && |content.parts| == i + q + n
      && (imagePath.Some? ==> content.parts[0] == ImageUrl(FileUrl(abspath(imagePath.value))))
      && (question.Some? ==> content.parts[i] == Text(question.value))
      && (forall k :: 0 <= k < n ==> content.parts[i + q + k] == Extra(extras.value[k]))
  {
    var head := (if imagePath.Some? then [ImageUrl(FileUrl(abspath(imagePath.value)))] else [])
      + (if question.Some? then [Text(question.value)] else []);
    var tail := if HasExtras(extras) then ExtraParts(extras.value) else [];
    assert TypeEntries(question, imagePath, extras, abspath) == head + tail;
    var n := if HasExtras(extras) then |extras.value| else 0;
    assert |tail| == n;
    forall k | 0 <= k < n ensures (head + tail)[|head| + k] == Extra(extras.value[k]) {
      assert (head + tail)[|head| + k] == tail[k];
    }
  }

  /** With neither image, question nor extra items, the content is the empty list. */
  lemma NoInputs(c: Client, systemPrompt: string, extras: Option<seq<Json>>, abspath: string -> string)
    requires !HasExtras(extras)
    ensures BuildPayload(c, None, None, systemPrompt, extras, abspath).messages[1].content == Parts([])
  {
  }
}
