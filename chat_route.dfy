/** The chat endpoint: it validates the request body, puts the workspace system
    prompt in front of a conversation that has none, writes the selected document's
    context into the last user turn, and passes the result to the completion service
    (a parameter here). */
module ChatRoute {
  import opened Wrappers
  import opened Seqs

  datatype Role = User | Assistant | System

  /** A chat turn; `context` is the optional field a client may send along. */
  datatype ChatMessage = ChatMessage(role: Role, content: string, context: Option<string>)

  /** What the `messages` field of the JSON body holds. */
  datatype MessagesField = Missing | NotArray | Messages(msgs: seq<ChatMessage>)

  datatype RequestBody = RequestBody(messages: MessagesField, context: Option<string>)

  datatype ResponseBody = ErrorBody(error: string) | MessageBody(message: ChatMessage)

  datatype Response = Response(status: int, body: ResponseBody)

  const MessagesRequired: string := "Messages are required and must be an array"
  const KeyMissing: string := "OpenAI API key is not configured"
  const UnknownError: string := "An error occurred during the request"

  /** The workspace system prompt sent ahead of a conversation without one. */
  const SystemPrompt: string := @"You are an intelligent, embedded assistant inside a Notion-style productivity workspace. Users rely on you to help write, organize, brainstorm, and plan — using both their direct input and contextual documents (such as meeting notes, task lists, and personal pages).

Your tone is focused, friendly, and efficient — like a helpful teammate, not a chatbot. Always prioritize structure and clarity over long explanations.

---

IMPORTANT BEHAVIOR GUIDELINES:

- Assume you have access to relevant user documents and can reference their content directly.
- If the user refers to ""this doc"", ""last meeting"", or a page name, assume related content is provided via context injection.
- Never say ""As an AI"" or mention your model, OpenAI, or any limitations unless explicitly asked.
- Be proactive in offering suggestions, especially when dealing with vague or open-ended prompts.
- Always keep answers concise, organized, and actionable.

---

IMPORTANT FORMATTING GUIDELINES:

- Use **bold** or *italic* for emphasis when needed.
- Use `inline code` for referencing commands, tags, or database properties.
- Use `-` for bullet points and `1.` for numbered lists.
- Use `##` and `###` for section titles and clear hierarchy.
- When sharing multi-line content or commands, wrap in triple backticks (```) for code blocks.
- Use Markdown tables when displaying structured data.
- Preserve line breaks and spacing for maximum readability.
- Respond in clean Markdown, compatible with Notion-style editors.

---

EXAMPLES OF HOW YOU CAN HELP:

- Summarize messy notes into clean sections
- Extract to-do lists or next actions
- Turn bullet points into formatted meeting agendas
- Reformat text into task tables or timelines
- Brainstorm ideas or next steps based on content
- Edit or rewrite documents with better clarity and flow

Always structure your output in a way that's easy for the user to read, copy, or paste into their workspace. Never add unnecessary explanations or preambles unless clarity requires it.

When unsure, ask a brief clarifying question instead of assuming."

  const SystemMessage: ChatMessage := ChatMessage(System, SystemPrompt, None)

  /** A JavaScript string value in a condition: absent and empty are both false. */
  predicate Truthy(s: Option<string>) {
    s.Some? && s.value != ""
  }

  /** The message of a thrown value: an `Error`'s message, or the fixed text for
      anything else (`None`). */
  function ErrorText(thrown: Option<string>): (r: string)
    ensures thrown.Some? ==> r == thrown.value
    ensures thrown.None? ==> r == UnknownError
  {
    thrown.GetOr(UnknownError)
  }

  /** The body passes validation when `messages` is a non-empty array: it fails when
      the field is missing, is not an array, or is an empty array. */
  predicate ValidMessages(m: MessagesField): (r: bool)
    ensures !r <==> m.Missing? || m.NotArray? || (m.Messages? && |m.msgs| == 0)
  {
    m.Messages? && m.msgs != []
  }

  predicate HasSystem(msgs: seq<ChatMessage>) {
    exists i :: 0 <= i < |msgs| && msgs[i].role == System
  }

  /** The conversation sent on: unchanged when it has a system turn, otherwise the
      system prompt in front of it. */
  function WithSystemPrompt(msgs: seq<ChatMessage>): (r: seq<ChatMessage>)
    ensures HasSystem(msgs) ==> r == msgs
    ensures !HasSystem(msgs) ==> |r| == |msgs| + 1 && r[0] == SystemMessage && r[1..] == msgs
    ensures HasSystem(r)
  {
    if HasSystem(msgs) then msgs else [SystemMessage] + msgs
  }

  /** A conversation without a system turn gets exactly one. */
  lemma OneSystemTurnAdded(msgs: seq<ChatMessage>)
    requires !HasSystem(msgs)
    ensures Count(WithSystemPrompt(msgs), IsSystem) == 1
  {
    var r := WithSystemPrompt(msgs);
    assert r == [SystemMessage] + msgs;
    FilterConcat([SystemMessage], msgs, IsSystem);
    FilterSingleton(SystemMessage, IsSystem);
    FilterNone(msgs, IsSystem);
  }

  /** Adding the prompt twice adds it once. */
  lemma WithSystemPromptIdempotent(msgs: seq<ChatMessage>)
    ensures WithSystemPrompt(WithSystemPrompt(msgs)) == WithSystemPrompt(msgs)
  {
  }

  function IsUser(m: ChatMessage): bool {
    m.role == User
  }

  function IsSystem(m: ChatMessage): bool {
    m.role == System
  }

  /** The index of the last user turn, found as the source finds it: `findIndex` on
      the reversed list, mapped back by `length - 1 - index`. It is the largest index
      whose role is user, and absent exactly when there is no user turn. */
  function LastUserIndex(msgs: seq<ChatMessage>): (r: Option<nat>)
    ensures r.None? <==> forall j :: 0 <= j < |msgs| ==> msgs[j].role != User
    ensures r.Some? ==> r.value < |msgs| && msgs[r.value].role == User &&
                        forall j :: r.value < j < |msgs| ==> msgs[j].role != User
  {
    var rev := Reverse(msgs);
    match FindIndex(rev, IsUser)
    case None =>
      assert forall j :: 0 <= j < |msgs| ==> msgs[j] == rev[|msgs| - 1 - j];
      None
    case Some(k) =>
      var idx := |msgs| - 1 - k;
      assert forall j :: idx < j < |msgs| ==> msgs[j] == rev[|msgs| - 1 - j];
      Some(idx)
  }

  /** The text of the rewritten user turn. */
  function WithContext(context: string, content: string): string {
    "--- Context ---\n" + context + "\n--- End Context ---\n\n" + content
  }

  /** Context injection: with a non-empty context and some user turn, the last user
      turn becomes a user turn carrying only the wrapped text (its `context` field
      dropped); every other turn, and the length, stay as they were. */
  function Inject(msgs: seq<ChatMessage>, context: Option<string>): (r: seq<ChatMessage>)
    ensures |r| == |msgs|
    ensures !Truthy(context) || LastUserIndex(msgs).None? ==> r == msgs
    ensures Truthy(context) && LastUserIndex(msgs).Some? ==>
              var k := LastUserIndex(msgs).value;
              r[k] == ChatMessage(User, WithContext(context.value, msgs[k].content), None) &&
              forall j :: 0 <= j < |msgs| && j != k ==> r[j] == msgs[j]
    ensures forall j :: 0 <= j < |msgs| ==> r[j].role == msgs[j].role
  {
    if !Truthy(context) then msgs
    else match LastUserIndex(msgs)
      case None => msgs
      case Some(k) => msgs[k := ChatMessage(User, WithContext(context.value, msgs[k].content), None)]
  }

  /** Injection keeps every role, so the last user turn is still where it was. */
  lemma InjectKeepsLastUser(msgs: seq<ChatMessage>, context: Option<string>)
    ensures LastUserIndex(Inject(msgs, context)) == LastUserIndex(msgs)
  {
    var r := Inject(msgs, context);
    match LastUserIndex(msgs)
    case None =>
    case Some(k) =>
      var q := LastUserIndex(r);
      assert q.Some?;
      assert q.value == k;
  }

  /** The rewrite of `openaiMessages[actualIndex]` in place. */
  method InjectContext(a: array<ChatMessage>, context: Option<string>)
    modifies a
    ensures a[..] == Inject(old(a[..]), context)
  {
    if Truthy(context) {
      var idx := LastUserIndex(a[..]);
      if idx.Some? {
        var k := idx.value;
        a[k] := ChatMessage(User, WithContext(context.value, a[k].content), None);
      }
    }
  }

  /** The conversation handed to the completion service for a valid body. */
  function Outgoing(msgs: seq<ChatMessage>, context: Option<string>): (r: seq<ChatMessage>)
    ensures |r| == if HasSystem(msgs) then |msgs| else |msgs| + 1
    ensures HasSystem(r)
    ensures !HasSystem(msgs) ==> r[0] == SystemMessage
  {
    var w := WithSystemPrompt(msgs);
    var r := Inject(w, context);
    var s :| 0 <= s < |w| && w[s].role == System;
    assert r[s].role == System;
    r
  }

  /** `POST`. `body` is the parsed JSON or the message of the parse error; `apiKey`
      is the configured key; `complete` stands for the completion call, returning the
      first choice's message or the message of what it threw. Validation comes
      before the key check; anything thrown becomes a 500 carrying its message. */
  method Post(body: Result<RequestBody, Option<string>>, apiKey: Option<string>,
              complete: seq<ChatMessage> -> Result<ChatMessage, Option<string>>)
    returns (resp: Response)
    ensures body.Err? ==> resp == Response(500, ErrorBody(ErrorText(body.error)))
    ensures body.Ok? && !ValidMessages(body.value.messages) ==>
              resp == Response(400, ErrorBody(MessagesRequired))
    ensures body.Ok? && ValidMessages(body.value.messages) && !Truthy(apiKey) ==>
              resp == Response(500, ErrorBody(KeyMissing))
    ensures body.Ok? && ValidMessages(body.value.messages) && Truthy(apiKey) ==>
              var sent := Outgoing(body.value.messages.msgs, body.value.context);
              resp == match complete(sent)
                      case Ok(m) => Response(200, MessageBody(m))
                      case Err(e) => Response(500, ErrorBody(ErrorText(e)))
  {
    if body.Err? {
      return Response(500, ErrorBody(ErrorText(body.error)));
    }
    var b := body.value;
    if !ValidMessages(b.messages) {
      return Response(400, ErrorBody(MessagesRequired));
    }
    if !Truthy(apiKey) {
      return Response(500, ErrorBody(KeyMissing));
    }
    var msgs := WithSystemPrompt(b.messages.msgs);
    var a := new ChatMessage[|msgs|](i requires 0 <= i < |msgs| => msgs[i]);
    assert a[..] == msgs;
    InjectContext(a, b.context);
    match complete(a[..])
    case Ok(m) => resp := Response(200, MessageBody(m));
    case Err(e) => resp := Response(500, ErrorBody(ErrorText(e)));
  }
}
