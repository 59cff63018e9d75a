/** The Gemini chat provider of the API (CapstoneProject/apps/api/src/providers/gemini.ts).

    The provider turns the conversation into the SDK's shape: the first `system`
    message becomes the system instruction, the other messages become `user`/`model`
    contents, all but the last form the chat history and the last one is sent. In
    streaming mode it brackets the streamed text between a `start` and an `end` event and
    accumulates it. The SDK itself is not modelled: what it does for one call (an error
    when sending, the streamed chunk texts, the reply text, an error when reading the
    usage figures) is a parameter, and what the provider hands to it is an output. */
module GeminiProvider {
  import opened Wrappers
  import opened Strings

  datatype ChatMessage = ChatMessage(role: string, content: string)

  /** A Gemini content: `{ role, parts: [{ text }] }`. */
  datatype Content = Content(role: string, text: string)

  /** What `onStream` receives. */
  datatype StreamChunk = StartEvent | TextDelta(delta: string) | EndEvent

  /** A thrown value: an `Error` with its message, or anything else. */
  datatype JsError = ErrorObject(message: string) | NonErrorValue

  /** The SDK's behaviour for one call: an error from `getGenerativeModel` or
      `startChat`, an error when sending, the streamed chunk texts, the reply text, and an
      error when reading the usage figures. */
  datatype SdkRun = SdkRun(setupError: Option<JsError>, sendError: Option<JsError>, chunks: seq<string>,
                           text: string, usageError: Option<JsError>)

  /** The arguments of `startChat` and of the send call. */
  datatype SdkRequest = SdkRequest(model: string, history: seq<Content>, systemInstruction: Option<string>,
                                   message: Option<Content>)

  datatype ChatResponse = ChatResponse(id: string, provider: string, model: string, content: string)

  datatype Outcome = Returned(response: ChatResponse) | Thrown(message: string)

  const DefaultModel := "gemini-pro"
  const NotEnabledText := "Gemini provider is not enabled. Set GEMINI_API_KEY in .env"
  const ApiErrorPrefix := "Gemini API error: "
  /** The `TypeError` of reading `parts` from the missing last message. */
  const MissingPartsText := "Cannot read properties of undefined (reading 'parts')"

  /** The message of the error rethrown from the `catch` block. */
  function ApiErrorText(e: JsError): (msg: string)
    ensures ApiErrorPrefix <= msg
    ensures e.NonErrorValue? ==> msg == ApiErrorPrefix + "Unknown error"
  {
    ApiErrorPrefix + (if e.ErrorObject? then e.message else "Unknown error")
  }

  // ---------------------------------------------------------------------------
  // Message conversion

  /** `messages.find(m => m.role === 'system')?.content`. */
  function SystemPrompt(messages: seq<ChatMessage>): (r: Option<string>)
    ensures r.None? <==> forall i :: 0 <= i < |messages| ==> messages[i].role != "system"
    ensures r.Some? ==> exists i :: 0 <= i < |messages| && messages[i].role == "system" &&
                                    messages[i].content == r.value &&
                                    forall j :: 0 <= j < i ==> messages[j].role != "system"
  {
    if messages == [] then None
    else if messages[0].role == "system" then Some(messages[0].content)
    else
      var r := SystemPrompt(messages[1..]);
      assert forall i :: 1 <= i < |messages| ==> messages[i] == messages[1..][i - 1];
      assert r.Some? ==> exists i :: 1 <= i < |messages| && messages[i].role == "system" &&
                                     messages[i].content == r.value &&
                                     forall j :: 0 <= j < i ==> messages[j].role != "system" by {
        if r.Some? {
          var i :| 0 <= i < |messages[1..]| && messages[1..][i].role == "system" &&
                   messages[1..][i].content == r.value &&
                   forall j :: 0 <= j < i ==> messages[1..][j].role != "system";
          assert messages[i + 1] == messages[1..][i];
        }
      }
      r
  }

  /** One non-system message in the SDK's shape: role `user` stays `user`, every other
      role becomes `model`; the text is kept. */
  function ToContent(m: ChatMessage): Content {
    Content(if m.role == "user" then "user" else "model", m.content)
  }

  /** `messages.filter(m => m.role !== 'system').map(...)`. */
  function Convert(messages: seq<ChatMessage>): (r: seq<Content>)
    ensures |r| <= |messages|
    ensures forall c :: c in r ==> c.role == "user" || c.role == "model"
    ensures forall c :: c in r <==> exists m :: m in messages && m.role != "system" && c == ToContent(m)
  {
    if messages == [] then []
    else
      var head := if messages[0].role == "system" then [] else [ToContent(messages[0])];
      var rest := Convert(messages[1..]);
      assert forall m :: m in messages <==> m == messages[0] || m in messages[1..];
      head + rest
  }

  /** Conversion goes message by message, so it keeps the order of the conversation. */
  lemma {:induction false} ConvertAppend(a: seq<ChatMessage>, b: seq<ChatMessage>)
    ensures Convert(a + b) == Convert(a) + Convert(b)
  {
    if a == [] {
      assert a + b == b;
    } else {
      assert (a + b)[0] == a[0] && (a + b)[1..] == a[1..] + b;
      ConvertAppend(a[1..], b);
    }
  }

  /** A conversation without system messages converts one to one, position by position. */
  lemma {:induction false} ConvertWithoutSystem(messages: seq<ChatMessage>)
    requires forall i :: 0 <= i < |messages| ==> messages[i].role != "system"
    ensures |Convert(messages)| == |messages|
    ensures forall i :: 0 <= i < |messages| ==> Convert(messages)[i] == ToContent(messages[i])
  {
    if messages != [] {
      ConvertWithoutSystem(messages[1..]);
      var r := Convert(messages);
      assert r == [ToContent(messages[0])] + Convert(messages[1..]);
      forall i | 1 <= i < |messages| ensures r[i] == ToContent(messages[i]) {
        assert r[i] == Convert(messages[1..])[i - 1];
        assert messages[1..][i - 1] == messages[i];
      }
    }
  }

  /** `chatMessages.slice(0, -1)`. */
  function History(converted: seq<Content>): seq<Content> {
    if converted == [] then [] else converted[..|converted| - 1]
  }

  /** `chatMessages[chatMessages.length - 1]`, undefined for an empty list. */
  function LastContent(converted: seq<Content>): Option<Content> {
    if converted == [] then None else Some(converted[|converted| - 1])
  }

  /** The history and the message sent together are the whole converted conversation,
      in order; an empty conversation has no history and nothing to send. */
  lemma HistoryThenLast(converted: seq<Content>)
    ensures converted != [] ==> LastContent(converted).Some? &&
                                History(converted) + [LastContent(converted).value] == converted
    ensures converted == [] ==> History(converted) == [] && LastContent(converted).None?
    ensures |History(converted)| == if converted == [] then 0 else |converted| - 1
  {
  }

  // ---------------------------------------------------------------------------
  // Streaming

  /** The text events the loop forwards for the chunk texts: one per non-empty text. */
  function StreamEvents(chunks: seq<string>): (r: seq<StreamChunk>)
    ensures forall i :: 0 <= i < |r| ==> r[i].TextDelta? && r[i].delta != ""
    ensures |r| <= |chunks|
  {
    if chunks == [] then []
    else
      var last := chunks[|chunks| - 1];
      StreamEvents(chunks[..|chunks| - 1]) + (if last != "" then [TextDelta(last)] else [])
  }


  /** The text carried by the delta events, in order. */
  function DeltaText(events: seq<StreamChunk>): string {
    if events == [] then ""
    else
      var last := events[|events| - 1];
      DeltaText(events[..|events| - 1]) + (if last.TextDelta? then last.delta else "")
  }

  /** The returned content is exactly what the forwarded deltas spell out. */
  lemma {:induction false} DeltasSpellContent(chunks: seq<string>)
    ensures DeltaText(StreamEvents(chunks)) == Concat(chunks)
  {
    if chunks != [] {
      var init, last := chunks[..|chunks| - 1], chunks[|chunks| - 1];
      DeltasSpellContent(init);
      if last != "" {
        var e := StreamEvents(init) + [TextDelta(last)];
        assert e[..|e| - 1] == StreamEvents(init);
      } else {
        assert StreamEvents(init) + [] == StreamEvents(init);
        assert Concat(init) + last == Concat(init);
      }
    }
  }

  // ---------------------------------------------------------------------------
  // The provider

  class Provider {
    var enabled: bool
    /** Whether `client` holds an SDK client. */
    var hasClient: bool

    /** `enabled` comes from the configuration; a client is made only when an API key is
        set, and a failure to make it disables the provider. */
    constructor (configEnabled: bool, apiKey: string, clientInitFails: bool)
      ensures enabled == (configEnabled && !(apiKey != "" && clientInitFails))
      ensures hasClient == (configEnabled && apiKey != "" && !clientInitFails)
    {
      enabled := configEnabled;
      hasClient := false;
      new;
      if enabled && apiKey != "" {
        if clientInitFails {
          enabled := false;
        } else {
          hasClient := true;
        }
      }
    }

    function IsEnabled(): (r: bool)
      reads this
      ensures r == enabled
    {
      enabled
    }

    /** The `for await (const chunk of result.stream)` loop: every chunk's text is
        added to the full text, and each non-empty one is forwarded as a delta. */
    static method ForwardChunks(chunks: seq<string>) returns (fullText: string, deltas: seq<StreamChunk>)
      ensures fullText == Concat(chunks) && deltas == StreamEvents(chunks)
    {
      fullText, deltas := "", [];
      var i := 0;
      while i < |chunks|
        invariant 0 <= i <= |chunks|
        invariant fullText == Concat(chunks[..i])
        invariant deltas == StreamEvents(chunks[..i])
      {
        var text := chunks[i];
        assert chunks[..i + 1][..i] == chunks[..i];
        if text != "" {
          fullText := fullText + text;
          deltas := deltas + [TextDelta(text)];
        }
        i := i + 1;
      }
      assert chunks[..i] == chunks;
    }

    /** `chat(req, onStream)`: `streaming` says whether `onStream` was given, `emitted`
        is what it received, `request` the arguments the provider builds for `startChat`
        and the send call, and `id` the generated response id. */
    method Chat(messages: seq<ChatMessage>, model: Option<string>, streaming: bool, sdk: SdkRun, id: string)
      returns (outcome: Outcome, emitted: seq<StreamChunk>, request: Option<SdkRequest>)
      ensures !(enabled && hasClient) ==> outcome == Thrown(NotEnabledText) && emitted == [] && request == None
      ensures enabled && hasClient ==>
        var converted := Convert(messages);
        request == Some(SdkRequest(model.GetOr(DefaultModel), History(converted), SystemPrompt(messages),
                                   LastContent(converted)))
      ensures outcome.Thrown? && outcome.message != NotEnabledText ==> ApiErrorPrefix <= outcome.message
      ensures !streaming ==> emitted == []
      ensures emitted != [] ==> emitted[0] == StartEvent
      ensures enabled && hasClient && sdk.setupError.Some? ==>
        outcome == Thrown(ApiErrorText(sdk.setupError.value)) && emitted == []
      ensures enabled && hasClient && streaming && sdk.setupError.None? ==> |emitted| >= 1 && emitted[0] == StartEvent
      ensures enabled && hasClient && sdk.setupError.None? && Convert(messages) == [] ==>
        outcome == Thrown(ApiErrorText(ErrorObject(MissingPartsText)))
      ensures enabled && hasClient && sdk.setupError.None? && Convert(messages) != [] && sdk.sendError.Some? ==>
        outcome == Thrown(ApiErrorText(sdk.sendError.value))
      ensures enabled && hasClient && streaming && sdk.setupError.None? &&
              (Convert(messages) == [] || sdk.sendError.Some?) ==>
        emitted == [StartEvent]
      ensures enabled && hasClient && streaming && sdk.setupError.None? && Convert(messages) != [] &&
              sdk.sendError.None? ==>
        && emitted == [StartEvent] + StreamEvents(sdk.chunks) + [EndEvent]
        && outcome == if sdk.usageError.Some? then Thrown(ApiErrorText(sdk.usageError.value))
                      else Returned(ChatResponse(id, "gemini", model.GetOr(DefaultModel), Concat(sdk.chunks)))
      ensures enabled && hasClient && !streaming && sdk.setupError.None? && Convert(messages) != [] &&
              sdk.sendError.None? ==>
        outcome == if sdk.usageError.Some? then Thrown(ApiErrorText(sdk.usageError.value))
                   else Returned(ChatResponse(id, "gemini", model.GetOr(DefaultModel), sdk.text))
    {
      emitted := [];
      if !enabled || !hasClient {
        return Thrown(NotEnabledText), [], None;
      }
      var modelName := model.GetOr(DefaultModel);
      var systemPrompt := SystemPrompt(messages);
      var chatMessages := Convert(messages);
      var lastMessage := LastContent(chatMessages);
      request := Some(SdkRequest(modelName, History(chatMessages), systemPrompt, lastMessage));
      if sdk.setupError.Some? {
        return Thrown(ApiErrorText(sdk.setupError.value)), [], request;
      }

      if streaming {
        emitted := [StartEvent];
        if lastMessage.None? {
          return Thrown(ApiErrorText(ErrorObject(MissingPartsText))), emitted, request;
        }
        if sdk.sendError.Some? {
          return Thrown(ApiErrorText(sdk.sendError.value)), emitted, request;
        }
        var fullText, deltas := ForwardChunks(sdk.chunks);
        emitted := emitted + deltas + [EndEvent];
        if sdk.usageError.Some? {
          return Thrown(ApiErrorText(sdk.usageError.value)), emitted, request;
        }
        outcome := Returned(ChatResponse(id, "gemini", modelName, fullText));
      } else {
        if lastMessage.None? {
          return Thrown(ApiErrorText(ErrorObject(MissingPartsText))), emitted, request;
        }
        if sdk.sendError.Some? {
          return Thrown(ApiErrorText(sdk.sendError.value)), emitted, request;
        }
        if sdk.usageError.Some? {
          return Thrown(ApiErrorText(sdk.usageError.value)), emitted, request;
        }
        outcome := Returned(ChatResponse(id, "gemini", modelName, sdk.text));
      }
    }
  }

  /** In streaming mode the events are `start`, then one delta per non-empty chunk text,
      then `end`; `start` and `end` occur once each, and the deltas spell out the content
      the call returns. */
  lemma StreamShape(chunks: seq<string>)
    ensures var e := [StartEvent] + StreamEvents(chunks) + [EndEvent];
      && e[0] == StartEvent && e[|e| - 1] == EndEvent
      && (forall i :: 0 < i < |e| - 1 ==> e[i].TextDelta? && e[i].delta != "")
      && DeltaText(e[1..|e| - 1]) == Concat(chunks)
  {
    var e := [StartEvent] + StreamEvents(chunks) + [EndEvent];
    assert e[1..|e| - 1] == StreamEvents(chunks);
    DeltasSpellContent(chunks);
  }
}
