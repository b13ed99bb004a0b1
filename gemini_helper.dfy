/**
 * The chat bookkeeping of the floating helper (components/GeminiHelper.tsx): the history starts
 * with one greeting, `handleSend` appends the user's message and builds the request from the
 * history, and the outcome of the model call appends exactly one model message.
 *
 * `handleSend` awaits the model call once, so it is modelled as two methods: `BeginSend` runs up to
 * the call and returns the request it would send, `FinishSend` runs after it with the call's
 * outcome as input.
 */
module GeminiHelper {

  import opened Wrappers
  import JsString

  datatype Role = User | Model

  /** A history entry (`ChatMessage` of types.ts); `timestamp` is the `Date.now()` reading. */
  datatype ChatMessage = ChatMessage(role: Role, text: string, timestamp: int)

  /** One turn of the request: `{ role, parts: [{ text }] }`. */
  datatype TextPart = TextPart(text: string)
  datatype Content = Content(role: Role, parts: seq<TextPart>)

  /** The `generateContent` call made (its system instruction text is left out). */
  datatype Request = Request(model: string, contents: seq<Content>)

  /** What the model call produced: a response whose `text` may be missing, or a thrown error. */
  datatype Reply = Replied(text: Option<string>) | Failed

  const Greeting: string :=
    "Hi! I'm your Deployment Copilot. Feeling stuck or scared? Tell me what error you're seeing, or ask me to explain a term like 'DNS' or 'Repo'."
  const FallbackText: string := "I'm having trouble connecting to the deployment satellites. Try again?"
  const GlitchText: string := "I ran into a glitch. Please check your internet or try again."
  const ChatModel: string := "gemini-3-flash-preview"

  /** The guard of `handleSend`: the input is not blank after trimming and an API key is set. */
  predicate CanSend(input: string, apiKey: Option<string>): (b: bool)
    ensures b <==> JsString.Trim(input) != [] && apiKey.Some? && apiKey.value != []
  {
    JsString.TrimEmptyIffBlank(input);
    !JsString.IsBlank(input) && apiKey.Some? && apiKey.value != []
  }

  function ToContent(m: ChatMessage): (c: Content)
    ensures c.role == m.role && c.parts == [TextPart(m.text)]
  {
    Content(m.role, [TextPart(m.text)])
  }

  /**
   * The request contents: every prior message in order as a turn of its own role carrying its
   * text, followed by the new user turn.
   */
  function RequestContents(history: seq<ChatMessage>, userText: string): (r: seq<Content>)
    ensures |r| == |history| + 1
    ensures forall i :: 0 <= i < |history| ==> r[i].role == history[i].role && r[i].parts == [TextPart(history[i].text)]
    ensures r[|history|] == Content(User, [TextPart(userText)])
  {
    seq(|history|, i requires 0 <= i < |history| => ToContent(history[i])) + [Content(User, [TextPart(userText)])]
  }

  /** The texts a request carries, turn by turn. */
  function Texts(contents: seq<Content>): (r: seq<string>)
    requires forall i :: 0 <= i < |contents| ==> |contents[i].parts| == 1
    ensures |r| == |contents|
  {
    seq(|contents|, i requires 0 <= i < |contents| => contents[i].parts[0].text)
  }

  /** The texts of the history, in order. */
  function MessageTexts(history: seq<ChatMessage>): (r: seq<string>)
    ensures |r| == |history|
  {
    seq(|history|, i requires 0 <= i < |history| => history[i].text)
  }

  /** The request carries the conversation so far, then the new text, and nothing else. */
  lemma RequestCarriesConversation(history: seq<ChatMessage>, userText: string)
    ensures var c := RequestContents(history, userText);
      (forall i :: 0 <= i < |c| ==> |c[i].parts| == 1) && Texts(c) == MessageTexts(history) + [userText]
  {
    var c := RequestContents(history, userText);
    assert forall i :: 0 <= i < |c| ==> |c[i].parts| == 1;
    var t := Texts(c);
    var m := MessageTexts(history) + [userText];
    forall i | 0 <= i < |t| ensures t[i] == m[i] {
      if i < |history| {
        assert c[i].parts == [TextPart(history[i].text)];
      }
    }
  }

  /** The model message appended after the call: the reply when non-empty, else the fallback; the glitch text on failure. */
  function ReplyText(reply: Reply): (r: string)
    ensures r != []
    ensures reply.Failed? ==> r == GlitchText
    ensures reply.Replied? && reply.text.Some? && reply.text.value != [] ==> r == reply.text.value
    ensures reply.Replied? && (reply.text.None? || reply.text.value == []) ==> r == FallbackText
  {
    match reply
    case Failed => GlitchText
    case Replied(text) => if text.Some? && text.value != [] then text.value else FallbackText
  }

  class ChatHelper {
    var isOpen: bool
    var input: string
    var messages: seq<ChatMessage>
    var loading: bool

    /** Mounting at clock reading `now`: closed, empty input, the greeting alone in the history. */
    constructor(now: int)
      ensures !isOpen && input == [] && !loading
      ensures messages == [ChatMessage(Model, Greeting, now)]
    {
      isOpen := false;
      input := [];
      messages := [ChatMessage(Model, Greeting, now)];
      loading := false;
    }

    /** The launcher button opens the panel, the close button closes it. */
    method SetOpen(open: bool)
      modifies this
      ensures isOpen == open && input == old(input) && messages == old(messages) && loading == old(loading)
    {
      isOpen := open;
    }

    /** The input's `onChange`. */
    method SetInput(text: string)
      modifies this
      ensures input == text && isOpen == old(isOpen) && messages == old(messages) && loading == old(loading)
    {
      input := text;
    }

    /**
     * `handleSend` up to the model call.  A blank input or a missing key returns at once with
     * nothing changed; otherwise the user message is appended, the input cleared, loading set,
     * and the request built from the history as it was before the append.
     */
    method BeginSend(apiKey: Option<string>, now: int) returns (request: Option<Request>)
      modifies this
      ensures isOpen == old(isOpen)
      ensures !CanSend(old(input), apiKey) ==>
        request.None? && input == old(input) && messages == old(messages) && loading == old(loading)
      ensures CanSend(old(input), apiKey) ==>
        && messages == old(messages) + [ChatMessage(User, old(input), now)]
        && input == [] && loading
        && request == Some(Request(ChatModel, RequestContents(old(messages), old(input))))
    {
      if !CanSend(input, apiKey) {
        return None;
      }
      var userMsg := ChatMessage(User, input, now);
      var contents := RequestContents(messages, input);
      assert contents == RequestContents(old(messages), old(input));
      messages := messages + [userMsg];
      input := [];
      loading := true;
      request := Some(Request(ChatModel, contents));
    }

    /** `handleSend` after the model call: append one model message and stop loading. */
    method FinishSend(reply: Reply, now: int)
      modifies this
      ensures messages == old(messages) + [ChatMessage(Model, ReplyText(reply), now)]
      ensures !loading && input == old(input) && isOpen == old(isOpen)
    {
      messages := messages + [ChatMessage(Model, ReplyText(reply), now)];
      loading := false;
    }
  }

  // ---------------------------------------------------------------- the history over a session

  /** What can happen to the history: a send attempt, or the outcome of a call arriving. */
  datatype ChatEvent = Send(input: string, apiKey: Option<string>, now: int) | Outcome(reply: Reply, now: int)

  /** The history after one event, as `BeginSend` and `FinishSend` leave it. */
  function History(history: seq<ChatMessage>, e: ChatEvent): (r: seq<ChatMessage>)
    ensures history <= r && |r| <= |history| + 1
    ensures e.Outcome? ==> r == history + [ChatMessage(Model, ReplyText(e.reply), e.now)]
    ensures e.Send? ==> (|r| == |history| + 1 <==> CanSend(e.input, e.apiKey))
  {
    match e
    case Send(input, apiKey, now) =>
      if CanSend(input, apiKey) then history + [ChatMessage(User, input, now)] else history
    case Outcome(reply, now) => history + [ChatMessage(Model, ReplyText(reply), now)]
  }

  function Replay(history: seq<ChatMessage>, events: seq<ChatEvent>): (r: seq<ChatMessage>)
    ensures |history| <= |r| <= |history| + |events|
    decreases |events|
  {
    if events == [] then history else Replay(History(history, events[0]), events[1..])
  }

  /** The number of events that add a message: accepted sends and outcomes. */
  function Appends(events: seq<ChatEvent>): (n: nat)
    ensures n <= |events|
    decreases |events|
  {
    if events == [] then 0
    else
      (if events[0].Outcome? || CanSend(events[0].input, events[0].apiKey) then 1 else 0) + Appends(events[1..])
  }

  /**
   * The history is append-only: over any run of events the earlier history stays a prefix, one
   * message is added per accepted send or outcome, and the greeting stays first.
   */
  lemma {:induction false} HistoryAppendOnly(history: seq<ChatMessage>, events: seq<ChatEvent>)
    ensures history <= Replay(history, events)
    ensures |Replay(history, events)| == |history| + Appends(events)
    decreases |events|
  {
    if events != [] {
      HistoryAppendOnly(History(history, events[0]), events[1..]);
    }
  }

  lemma GreetingStaysFirst(now: int, events: seq<ChatEvent>)
    ensures var h := Replay([ChatMessage(Model, Greeting, now)], events);
      |h| >= 1 && h[0] == ChatMessage(Model, Greeting, now)
  {
    HistoryAppendOnly([ChatMessage(Model, Greeting, now)], events);
  }
}
