/** The turn engine: `chat_with_cfo`, which streams the assistant's reply
    into a copy of the conversation and post-processes the full reply with
    `process_message`, and the Gradio callbacks `respond` (with its
    "already generating" gate) and `stop_generation`.

    The model's stream is an input: whether opening it raises, then the
    chunks, each the text `chunk.choices[0].delta.content` or `None` when
    that access raised or gave `None`. */
module ChatEngine {
  import opened Support
  import opened ToolDirective
  import opened ToolGateway

  const ApiError: string := "CFO：接口调用异常："

  datatype Role = User | Assistant

  /** One entry `{"role": ..., "content": ...}` of the conversation. */
  datatype Turn = Turn(role: Role, content: string)

  /** One value `(updated_conv, "", generating)` yielded by
      `chat_with_cfo`, as the transcript was when it was yielded. */
  datatype Update = Update(transcript: seq<Turn>, generating: bool)

  /** The text of one chunk; a missing one counts as empty. */
  function ChunkText(c: Option<string>): string {
    match c
    case None => ""
    case Some(s) => s
  }

  /** `partial_response` after the chunks: their non-empty texts, in
      order. */
  function Texts(chunks: seq<Option<string>>): (r: seq<string>)
    ensures |r| <= |chunks|
    ensures forall k :: 0 <= k < |r| ==> r[k] != ""
  {
    if chunks == [] then []
    else
      var t := ChunkText(chunks[|chunks| - 1]);
      Texts(chunks[..|chunks| - 1]) + (if t != "" then [t] else [])
  }

  /** The reply as streamed: every chunk's text, in order. */
  function Flatten(chunks: seq<Option<string>>): (r: string)
    ensures r == "" <==> forall k :: 0 <= k < |chunks| ==> ChunkText(chunks[k]) == ""
  {
    if chunks == [] then "" else Flatten(chunks[..|chunks| - 1]) + ChunkText(chunks[|chunks| - 1])
  }

  /** The `True` updates for the texts `parts`, one per text. */
  function Streamed(base: seq<Turn>, parts: seq<string>): (r: seq<Update>)
    ensures |r| == |parts|
    ensures forall k :: 0 <= k < |r| ==> r[k].generating
  {
    if parts == [] then []
    else Streamed(base, parts[..|parts| - 1]) + [Update(base + [Turn(Assistant, Join(parts))], true)]
  }

  lemma StreamedStep(base: seq<Turn>, parts: seq<string>, text: string)
    ensures Streamed(base, parts + [text])
         == Streamed(base, parts) + [Update(base + [Turn(Assistant, Join(parts + [text]))], true)]
  {
    assert (parts + [text])[..|parts|] == parts;
  }

  /** After the `k`-th text, the turn after `base` holds the texts so far. */
  lemma {:induction false} StreamedAt(base: seq<Turn>, parts: seq<string>, k: nat)
    requires k < |parts|
    ensures Streamed(base, parts)[k] == Update(base + [Turn(Assistant, Join(parts[..k + 1]))], true)
  {
    var init := parts[..|parts| - 1];
    if k == |parts| - 1 {
      assert parts[..k + 1] == parts;
    } else {
      StreamedAt(base, init, k);
      assert init[..k + 1] == parts[..k + 1];
    }
  }

  /** The transcript of the last update of a stream that opened. */
  function FinalTranscript(base: seq<Turn>, parts: seq<string>, hideTools: bool, gateway: string -> string): (r: seq<Turn>)
    ensures AddsAtMostReply(r, base)
    ensures r == base <==> parts == []
  {
    if parts == [] then base
    else base + [Turn(Assistant, ProcessMessage(Join(parts), hideTools, gateway).text)]
  }

  /** The values `chat_with_cfo(conversation, user_message)` yields. */
  function ChatUpdates(conversation: seq<Turn>, userMessage: string, opening: Outcome,
                       chunks: seq<Option<string>>, hideTools: bool, gateway: string -> string): (r: seq<Update>)
    ensures |r| >= 1 && !r[|r| - 1].generating
    ensures forall k :: 0 <= k < |r| - 1 ==> r[k].generating
    ensures opening.Raises? ==> |r| == 1
    ensures opening.Returns? ==> |r| == |Texts(chunks)| + 1
  {
    var base := conversation + [Turn(User, userMessage)];
    match opening
    case Raises(m) => [Update(base + [Turn(Assistant, ApiError + m)], false)]
    case Returns =>
      var parts := Texts(chunks);
      Streamed(base, parts) + [Update(FinalTranscript(base, parts, hideTools, gateway), false)]
  }

  /** The payloads `chat_with_cfo` hands to the gateway through
      `process_message`. */
  function ChatToolRequests(opening: Outcome, chunks: seq<Option<string>>, hideTools: bool, gateway: string -> string): (r: seq<string>)
    ensures |r| <= 1
    ensures opening.Raises? ==> r == []
    ensures r != [] ==> opening.Returns? && Extract(Join(Texts(chunks)), hideTools).active
  {
    if opening.Raises? then [] else ProcessMessage(Join(Texts(chunks)), hideTools, gateway).toolRequests
  }

  /** `chat_with_cfo(conversation, user_message)`: the loop over the stream
      appends to `partial_response` and writes the reply so far into the
      transcript's last turn, then the full reply is post-processed. */
  method ChatWithCfo(conversation: seq<Turn>, userMessage: string, opening: Outcome,
                     chunks: seq<Option<string>>, hideTools: bool, gateway: string -> string)
      returns (updates: seq<Update>, toolRequests: seq<string>)
    ensures updates == ChatUpdates(conversation, userMessage, opening, chunks, hideTools, gateway)
    ensures toolRequests == ChatToolRequests(opening, chunks, hideTools, gateway)
  {
    var transcript := conversation + [Turn(User, userMessage)];
    if opening.Raises? {
      transcript := transcript + [Turn(Assistant, ApiError + opening.message)];
      updates := [Update(transcript, false)];
      toolRequests := [];
      return;
    }
    ghost var base := transcript;
    var parts: seq<string> := [];
    updates := [];
    var i := 0;
    while i < |chunks|
      invariant 0 <= i <= |chunks|
      invariant parts == Texts(chunks[..i])
      invariant transcript == if parts == [] then base else base + [Turn(Assistant, Join(parts))]
      invariant updates == Streamed(base, parts)
    {
      assert chunks[..i + 1][..i] == chunks[..i] && chunks[..i + 1][i] == chunks[i];
      var content := ChunkText(chunks[i]);
      if content != "" {
        StreamedStep(base, parts, content);
        parts := parts + [content];
        var current := Join(parts);
        if transcript[|transcript| - 1].role == User {
          transcript := transcript + [Turn(Assistant, current)];
        } else {
          assert transcript[..|transcript| - 1] == base;
          transcript := transcript[..|transcript| - 1] + [transcript[|transcript| - 1].(content := current)];
        }
        assert transcript == base + [Turn(Assistant, current)];
        updates := updates + [Update(transcript, true)];
      }
      i := i + 1;
    }
    assert chunks[..i] == chunks;
    var processed := ProcessMessage(Join(parts), hideTools, gateway);
    if transcript[|transcript| - 1].role == Assistant {
      transcript := transcript[..|transcript| - 1] + [transcript[|transcript| - 1].(content := processed.text)];
    }
    updates := updates + [Update(transcript, false)];
    toolRequests := processed.toolRequests;
  }

  // ---------------------------------------------------------------------
  // Properties of the stream

  /** Joining the non-empty texts gives the whole streamed reply. */
  lemma {:induction false} JoinTexts(chunks: seq<Option<string>>)
    ensures Join(Texts(chunks)) == Flatten(chunks)
  {
    if chunks != [] {
      var init := chunks[..|chunks| - 1];
      var t := ChunkText(chunks[|chunks| - 1]);
      JoinTexts(init);
      JoinAppend(Texts(init), if t != "" then [t] else []);
      if t != "" {
        assert Join([t]) == Join([t][..0]) + t;
      }
    }
  }

  /** The texts of two stretches of the stream, one after the other, are
      the texts of both. */
  lemma {:induction false} TextsAppend(a: seq<Option<string>>, b: seq<Option<string>>)
    ensures Texts(a + b) == Texts(a) + Texts(b)
    decreases |b|
  {
    if b == [] {
      assert a + b == a;
    } else {
      var b' := b[..|b| - 1];
      assert (a + b)[..|a + b| - 1] == a + b';
      assert (a + b)[|a + b| - 1] == b[|b| - 1];
      TextsAppend(a, b');
    }
  }

  /** The stream has no text exactly when every chunk is empty or
      missing. */
  lemma {:induction false} TextsEmptyIff(chunks: seq<Option<string>>)
    ensures Texts(chunks) == [] <==> forall i :: 0 <= i < |chunks| ==> ChunkText(chunks[i]) == ""
  {
    if chunks != [] {
      var init := chunks[..|chunks| - 1];
      var t := ChunkText(chunks[|chunks| - 1]);
      TextsEmptyIff(init);
      assert Texts(chunks) == Texts(init) + (if t != "" then [t] else []);
      assert Texts(chunks) == [] <==> Texts(init) == [] && t == "";
      assert forall i :: 0 <= i < |init| ==> init[i] == chunks[i];
    }
  }

  /** Each non-empty chunk `i` yields one `True` update, the `k`-th where
      `k` counts the non-empty chunks before it, whose transcript is the
      conversation, the user turn and an assistant turn holding everything
      streamed up to and including chunk `i`. */
  lemma StreamingUpdate(conversation: seq<Turn>, userMessage: string, chunks: seq<Option<string>>,
                        hideTools: bool, gateway: string -> string, i: nat)
    requires i < |chunks| && ChunkText(chunks[i]) != ""
    ensures var r, k := ChatUpdates(conversation, userMessage, Returns, chunks, hideTools, gateway), |Texts(chunks[..i])|;
      && |Texts(chunks[..i + 1])| == k + 1
      && k < |r| - 1
      && r[k] == Update(conversation + [Turn(User, userMessage), Turn(Assistant, Flatten(chunks[..i + 1]))], true)
  {
    var a := chunks[..i + 1];
    var t := ChunkText(chunks[i]);
    assert a[..|a| - 1] == chunks[..i] && a[|a| - 1] == chunks[i];
    assert Texts(a) == Texts(chunks[..i]) + [t];
    assert chunks == a + chunks[i + 1..];
    TextsAppend(a, chunks[i + 1..]);
    var k := |Texts(chunks[..i])|;
    assert Texts(chunks)[..k + 1] == Texts(a);
    JoinTexts(a);
    var base := conversation + [Turn(User, userMessage)];
    StreamedAt(base, Texts(chunks), k);
    assert base + [Turn(Assistant, Flatten(a))] == conversation + [Turn(User, userMessage), Turn(Assistant, Flatten(a))];
  }

  /** When something was streamed, the last update is `False` and adds one
      assistant turn holding `process_message` of the whole reply. */
  lemma FinalUpdate(conversation: seq<Turn>, userMessage: string, chunks: seq<Option<string>>,
                    hideTools: bool, gateway: string -> string, i: nat)
    requires i < |chunks| && ChunkText(chunks[i]) != ""
    ensures var r := ChatUpdates(conversation, userMessage, Returns, chunks, hideTools, gateway);
      r[|r| - 1] == Update(conversation + [Turn(User, userMessage),
                                           Turn(Assistant, ProcessMessage(Flatten(chunks), hideTools, gateway).text)], false)
  {
    TextsEmptyIff(chunks);
    var parts := Texts(chunks);
    assert parts != [];
    var base := conversation + [Turn(User, userMessage)];
    var r := ChatUpdates(conversation, userMessage, Returns, chunks, hideTools, gateway);
    assert r == Streamed(base, parts) + [Update(FinalTranscript(base, parts, hideTools, gateway), false)];
    JoinTexts(chunks);
    var t := Turn(Assistant, ProcessMessage(Flatten(chunks), hideTools, gateway).text);
    assert FinalTranscript(base, parts, hideTools, gateway) == base + [t];
    assert base + [t] == conversation + [Turn(User, userMessage), t];
  }

  /** When every chunk is empty or missing, the only update is `False` and
      its transcript ends with the user turn: no assistant turn is added. */
  lemma AllChunksEmpty(conversation: seq<Turn>, userMessage: string, chunks: seq<Option<string>>,
                       hideTools: bool, gateway: string -> string)
    requires forall i :: 0 <= i < |chunks| ==> ChunkText(chunks[i]) == ""
    ensures ChatUpdates(conversation, userMessage, Returns, chunks, hideTools, gateway)
         == [Update(conversation + [Turn(User, userMessage)], false)]
    ensures ChatToolRequests(Returns, chunks, hideTools, gateway) == []
  {
    TextsEmptyIff(chunks);
    assert NoDirective("");
  }

  /** A stream that cannot be opened gives one `False` update ending with
      the error turn, and no tool request. */
  lemma OpenFailure(conversation: seq<Turn>, userMessage: string, m: string, chunks: seq<Option<string>>,
                    hideTools: bool, gateway: string -> string)
    ensures ChatUpdates(conversation, userMessage, Raises(m), chunks, hideTools, gateway)
         == [Update(conversation + [Turn(User, userMessage), Turn(Assistant, ApiError + m)], false)]
    ensures ChatToolRequests(Raises(m), chunks, hideTools, gateway) == []
  {
    var base := conversation + [Turn(User, userMessage)];
    assert base + [Turn(Assistant, ApiError + m)] == conversation + [Turn(User, userMessage), Turn(Assistant, ApiError + m)];
  }

  /** `t` is `base` followed by at most one assistant turn. */
  predicate AddsAtMostReply(t: seq<Turn>, base: seq<Turn>) {
    && |base| <= |t| <= |base| + 1
    && t[..|base|] == base
    && (|t| == |base| + 1 ==> t[|base|].role == Assistant)
  }

  lemma AddsReply(base: seq<Turn>, extra: seq<Turn>)
    requires |extra| <= 1 && forall k :: 0 <= k < |extra| ==> extra[k].role == Assistant
    ensures AddsAtMostReply(base + extra, base)
  {
    assert (base + extra)[..|base|] == base;
  }

  /** Every update starts with the conversation as given and the user turn,
      and adds at most one assistant turn after them. */
  lemma ConversationKept(conversation: seq<Turn>, userMessage: string, opening: Outcome,
                         chunks: seq<Option<string>>, hideTools: bool, gateway: string -> string)
    ensures var r := ChatUpdates(conversation, userMessage, opening, chunks, hideTools, gateway);
      forall k :: 0 <= k < |r| ==> AddsAtMostReply(r[k].transcript, conversation + [Turn(User, userMessage)])
  {
    var r := ChatUpdates(conversation, userMessage, opening, chunks, hideTools, gateway);
    forall k | 0 <= k < |r|
      ensures AddsAtMostReply(r[k].transcript, conversation + [Turn(User, userMessage)])
    {
      KeptAt(conversation, userMessage, opening, chunks, hideTools, gateway, k);
    }
  }

  lemma KeptAt(conversation: seq<Turn>, userMessage: string, opening: Outcome,
               chunks: seq<Option<string>>, hideTools: bool, gateway: string -> string, k: nat)
    requires k < |ChatUpdates(conversation, userMessage, opening, chunks, hideTools, gateway)|
    ensures AddsAtMostReply(ChatUpdates(conversation, userMessage, opening, chunks, hideTools, gateway)[k].transcript,
                            conversation + [Turn(User, userMessage)])
  {
    var r := ChatUpdates(conversation, userMessage, opening, chunks, hideTools, gateway);
    var base := conversation + [Turn(User, userMessage)];
    if opening.Raises? {
      AddsReply(base, [Turn(Assistant, ApiError + opening.message)]);
    } else {
      var parts := Texts(chunks);
      assert r == Streamed(base, parts) + [Update(FinalTranscript(base, parts, hideTools, gateway), false)];
      if k < |parts| {
        StreamedAt(base, parts, k);
        AddsReply(base, [Turn(Assistant, Join(parts[..k + 1]))]);
      } else if parts == [] {
        AddsReply(base, []);
        assert base + [] == base;
      } else {
        AddsReply(base, [Turn(Assistant, ProcessMessage(Join(parts), hideTools, gateway).text)]);
      }
    }
  }

  // ---------------------------------------------------------------------
  // The Gradio callbacks

  /** One value `(chatbot, state, msg, generating)` yielded by `respond`. */
  datatype RespondOutput = RespondOutput(chatbot: seq<Turn>, state: seq<Turn>, input: string, generating: bool)

  /** `respond(user_message, conversation, generating)`: while a reply is
      being generated, the request is echoed back once and no stream is
      started; otherwise each update of `chat_with_cfo` is shown, stored
      and clears the input box. */
  method Respond(userMessage: string, conversation: seq<Turn>, generating: bool, opening: Outcome,
                 chunks: seq<Option<string>>, hideTools: bool, gateway: string -> string)
      returns (outputs: seq<RespondOutput>, toolRequests: seq<string>)
    ensures generating ==> outputs == [RespondOutput(conversation, conversation, userMessage, true)] && toolRequests == []
    ensures !generating ==>
      var u := ChatUpdates(conversation, userMessage, opening, chunks, hideTools, gateway);
      && |outputs| == |u|
      && (forall k :: 0 <= k < |u| ==> outputs[k] == RespondOutput(u[k].transcript, u[k].transcript, "", u[k].generating))
      && toolRequests == ChatToolRequests(opening, chunks, hideTools, gateway)
  {
    if generating {
      outputs := [RespondOutput(conversation, conversation, userMessage, generating)];
      toolRequests := [];
      return;
    }
    var updates;
    updates, toolRequests := ChatWithCfo(conversation, userMessage, opening, chunks, hideTools, gateway);
    outputs := Present(updates);
  }

  /** The loop `async for ... yield updated_conv, updated_conv, "", is_generating`. */
  method Present(updates: seq<Update>) returns (outputs: seq<RespondOutput>)
    ensures |outputs| == |updates|
    ensures forall k :: 0 <= k < |updates| ==>
      outputs[k] == RespondOutput(updates[k].transcript, updates[k].transcript, "", updates[k].generating)
  {
    outputs := [];
    for j := 0 to |updates|
      invariant |outputs| == j
      invariant forall k :: 0 <= k < j ==>
        outputs[k] == RespondOutput(updates[k].transcript, updates[k].transcript, "", updates[k].generating)
    {
      outputs := outputs + [RespondOutput(updates[j].transcript, updates[j].transcript, "", updates[j].generating)];
    }
  }

  /** `stop_generation(conversation)`: keeps the conversation and clears the
      flag, so the next `respond` passes its gate. */
  function StopGeneration(conversation: seq<Turn>): (r: (seq<Turn>, bool))
    ensures r.0 == conversation && !r.1
  {
    (conversation, false)
  }
}
