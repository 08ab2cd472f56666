/**
 * The third-party integration handler of agents: when an agent is backed by
 * Dify or Coze, the conversation is forwarded there and the platform's
 * server-sent event stream is read back. The stream arrives in decoded
 * chunks; the reader keeps a buffer, handles every complete line and keeps
 * the unfinished last one for the next chunk. Each platform's lines update
 * the answer text, the platform's conversation id, the token usage and the
 * frames forwarded to the client. `JSON.parse` of a payload is a parameter
 * (`None` when it throws); HTTP, the clock and the suggested-question fetch
 * are left out.
 */
module ThirdParty {
  import opened Wrappers
  import opened Text
  import opened MessageContext
  import opened AgentChat

  predicate Truthy(s: Option<string>) { s.Some? && s.value != "" }

  // ---------------------------------------------------------------- configuration

  /** An agent's `createMode`: third-party mode is any mode other than `direct`. */
  function IsThirdPartyIntegrationEnabled(createMode: Option<string>): (r: bool)
    ensures r <==> createMode.Some? && createMode.value != "" && createMode.value != "direct"
  {
    Truthy(createMode) && createMode.value != "direct"
  }

  datatype ThirdPartyConfig = ThirdPartyConfig(apiKey: Option<string>, baseURL: Option<string>, appId: Option<string>)

  /** `getThirdPartyConfig`: the request's configuration wins over the agent's; it is usable only with a key and a URL. */
  function GetThirdPartyConfig(fromDto: Option<ThirdPartyConfig>, fromAgent: Option<ThirdPartyConfig>): (r: Option<ThirdPartyConfig>)
    ensures r.Some? ==> Truthy(r.value.apiKey) && Truthy(r.value.baseURL)
    ensures fromDto.Some? ==> (r.Some? <==> Truthy(fromDto.value.apiKey) && Truthy(fromDto.value.baseURL)) && (r.Some? ==> r == fromDto)
    ensures fromDto.None? ==> (r.Some? <==> fromAgent.Some? && Truthy(fromAgent.value.apiKey) && Truthy(fromAgent.value.baseURL)) &&
                              (r.Some? ==> r == fromAgent)
  {
    var config := if fromDto.Some? then fromDto else fromAgent;
    if config.None? || !Truthy(config.value.apiKey) || !Truthy(config.value.baseURL) then None else config
  }

  /** `extractUserMessage`: the text of the last user message; a list without one is refused. */
  function ExtractUserMessage(messages: seq<Message>): Result<string, string> {
    match LastUserMessage(messages)
    case None => Err("消息列表中没有用户消息")
    case Some(m) => Ok(m.content)
  }

  lemma ExtractUserMessageMeaning(messages: seq<Message>)
    ensures ExtractUserMessage(messages).Err? <==> forall j :: 0 <= j < |messages| ==> messages[j].role != User
    ensures ExtractUserMessage(messages).Ok? ==>
      exists i :: 0 <= i < |messages| && messages[i].role == User && ExtractUserMessage(messages).value == messages[i].content &&
                  forall j :: i < j < |messages| ==> messages[j].role != User
  {
    LastUserMessageAtIndex(messages);
    if LastUserIndex(messages).Some? {
      var i := LastUserIndex(messages).value;
      assert messages[i].role == User;
    }
  }

  // ---------------------------------------------------------------- the line buffer

  /** All chunks read so far, in order. */
  function Concat(chunks: seq<string>): string {
    if chunks == [] then "" else Concat(chunks[..|chunks| - 1]) + chunks[|chunks| - 1]
  }

  /** The complete lines of a text: every piece before the last newline. */
  function CompleteLines(s: string): (r: seq<string>)
    ensures forall k :: 0 <= k < |r| ==> '\n' !in r[k]
  {
    var pieces := Split(s, '\n');
    pieces[..|pieces| - 1]
  }

  /** What is left after the last newline. */
  function Rest(s: string): (r: string)
    ensures '\n' !in r
  {
    var pieces := Split(s, '\n');
    pieces[|pieces| - 1]
  }

  /** Handling lines one after the other. */
  function FoldLines<S>(lines: seq<string>, init: S, step: (S, string) -> S): S {
    if lines == [] then init else step(FoldLines(lines[..|lines| - 1], init, step), lines[|lines| - 1])
  }

  lemma JoinAppendLast(xs: seq<string>, b: string, c: string, sep: char)
    ensures Join(xs + [b + c], sep) == Join(xs + [b], sep) + c
    decreases |xs|
  {
    if |xs| >= 1 {
      assert (xs + [b + c])[1..] == xs[1..] + [b + c];
      assert (xs + [b])[1..] == xs[1..] + [b];
      JoinAppendLast(xs[1..], b, c, sep);
    }
  }

  lemma JoinFlatten(xs: seq<string>, ys: seq<string>, sep: char)
    requires |ys| >= 1
    ensures Join(xs + ys, sep) == Join(xs + [Join(ys, sep)], sep)
    decreases |xs|
  {
    if |xs| >= 1 {
      assert (xs + ys)[1..] == xs[1..] + ys;
      assert (xs + [Join(ys, sep)])[1..] == xs[1..] + [Join(ys, sep)];
      JoinFlatten(xs[1..], ys, sep);
      assert Join(xs + ys, sep) == xs[0] + [sep] + Join(xs[1..] + ys, sep);
      assert Join(xs + [Join(ys, sep)], sep) == xs[0] + [sep] + Join(xs[1..] + [Join(ys, sep)], sep);
    } else {
      assert xs + ys == ys;
      assert xs + [Join(ys, sep)] == [Join(ys, sep)];
    }
  }

  /**
   * The read loop: each chunk is appended to the buffer, the buffer's
   * complete lines are handled by `step` and its unfinished last line kept.
   * At the end the lines handled are the complete lines of the whole stream,
   * however it was chunked, and the buffer holds what followed the last
   * newline, which is never handled.
   */
  method ReadLines<S>(chunks: seq<string>, init: S, step: (S, string) -> S) returns (s: S, buffer: string)
    ensures s == FoldLines(CompleteLines(Concat(chunks)), init, step)
    ensures buffer == Rest(Concat(chunks))
    ensures Join(CompleteLines(Concat(chunks)) + [buffer], '\n') == Concat(chunks)
  {
    s := init;
    buffer := "";
    ghost var handled: seq<string> := [];
    for i := 0 to |chunks|
      invariant Join(handled + [buffer], '\n') == Concat(chunks[..i])
      invariant '\n' !in buffer && forall k :: 0 <= k < |handled| ==> '\n' !in handled[k]
      invariant s == FoldLines(handled, init, step)
    {
      ConcatStep(chunks, i);
      var lines := Split(buffer + chunks[i], '\n');
      BufferStep(handled, buffer, chunks[i], lines);
      ghost var before := handled;
      var complete := lines[..|lines| - 1];
      FoldLinesAppend(handled, complete, init, step);
      s := HandleLines(s, complete, step);
      handled := handled + complete;
      buffer := lines[|lines| - 1];
      assert handled + [buffer] == before + lines by {
        assert lines == complete + [buffer];
      }
    }
    assert chunks[..|chunks|] == chunks;
    LinesOfBuffer(handled, buffer, Concat(chunks));
  }

  /** The inner loop: each complete line of the buffer goes to `step`, in order. */
  method HandleLines<S>(s0: S, lines: seq<string>, step: (S, string) -> S) returns (s: S)
    ensures s == FoldLines(lines, s0, step)
  {
    s := s0;
    for j := 0 to |lines|
      invariant s == FoldLines(lines[..j], s0, step)
    {
      assert lines[..j + 1][..j] == lines[..j];
      s := step(s, lines[j]);
    }
    assert lines[..|lines|] == lines;
  }

  /** Handling two runs of lines is handling them joined. */
  lemma {:induction false} FoldLinesAppend<S>(a: seq<string>, b: seq<string>, init: S, step: (S, string) -> S)
    ensures FoldLines(a + b, init, step) == FoldLines(b, FoldLines(a, init, step), step)
  {
    if b != [] {
      assert (a + b)[..|a + b| - 1] == a + b[..|b| - 1];
      FoldLinesAppend(a, b[..|b| - 1], init, step);
    } else {
      assert a + b == a;
    }
  }

  lemma ConcatStep(chunks: seq<string>, i: nat)
    requires i < |chunks|
    ensures Concat(chunks[..i + 1]) == Concat(chunks[..i]) + chunks[i]
  {
    assert chunks[..i + 1][..i] == chunks[..i];
  }

  /** Appending a chunk to the buffer and splitting it: the handled lines and the new pieces still join to the text read. */
  lemma BufferStep(handled: seq<string>, buffer: string, chunk: string, lines: seq<string>)
    requires lines == Split(buffer + chunk, '\n')
    ensures Join(handled + lines, '\n') == Join(handled + [buffer], '\n') + chunk
  {
    JoinAppendLast(handled, buffer, chunk, '\n');
    JoinFlatten(handled, lines, '\n');
  }

  /** Once the text is read, the handled lines are its complete lines and the buffer what follows them. */
  lemma LinesOfBuffer(handled: seq<string>, buffer: string, text: string)
    requires Join(handled + [buffer], '\n') == text
    requires '\n' !in buffer && forall k :: 0 <= k < |handled| ==> '\n' !in handled[k]
    ensures handled == CompleteLines(text) && buffer == Rest(text)
  {
    SplitJoin(handled + [buffer], '\n');
    assert (handled + [buffer])[..|handled|] == handled;
  }

  // ---------------------------------------------------------------- shared pieces

  /** The payload of a `data:` line, when it is not empty and not `[DONE]`. */
  function DataPayload(line: string): (r: Option<string>)
    ensures r.Some? ==> StartsWith(Trim(line), "data:") && r.value != "" && r.value != "[DONE]"
  {
    var t := Trim(line);
    if !StartsWith(t, "data:") then None
    else
      var json := Trim(t[5..]);
      if json == "" || json == "[DONE]" then None else Some(json)
  }

  datatype RawUsage = RawUsage(total: Option<int>, prompt: Option<int>, completion: Option<int>)

  datatype Usage = Usage(totalTokens: int, promptTokens: int, completionTokens: int)

  function OrZero(n: Option<int>): int { if n.Some? then n.value else 0 }

  /** The usage reported to the caller, a missing count being 0. */
  function UsageOf(u: RawUsage): Usage {
    Usage(OrZero(u.total), OrZero(u.prompt), OrZero(u.completion))
  }

  /** The frames written to the client. */
  datatype Frame =
    | Chunk(text: string)
    | Reasoning(text: string)
    | ToolStarted(platform: string, tool: string)
    | ToolFinished(platform: string, tool: string, output: Option<string>)
    | Context(knowledge: Option<string>)
    | Suggestions(items: seq<Option<string>>)

  /** The text of the chunk frames, in order. */
  function ChunkText(frames: seq<Frame>): string {
    if frames == [] then ""
    else ChunkText(frames[..|frames| - 1]) + (if frames[|frames| - 1].Chunk? then frames[|frames| - 1].text else "")
  }

  lemma ChunkTextSnoc(frames: seq<Frame>, f: Frame)
    ensures ChunkText(frames + [f]) == ChunkText(frames) + (if f.Chunk? then f.text else "")
  {
    assert (frames + [f])[..|frames|] == frames;
  }

  // ---------------------------------------------------------------- Dify

  /** The fields of a Dify event the handler reads. */
  datatype DifyEvent = DifyEvent(event: string, answer: Option<string>, conversationId: Option<string>, messageId: Option<string>,
                                 thought: Option<string>, tool: Option<string>, observation: Option<string>, usage: Option<RawUsage>)

  datatype DifyState = DifyState(fullContent: string, conversationId: string, messageId: string, tokenUsage: Option<Usage>, frames: seq<Frame>)

  /** The state before the first line: `conversationId || ""`. */
  function DifyInit(conversationId: Option<string>): DifyState {
    DifyState("", if conversationId.Some? then conversationId.value else "", "", None, [])
  }

  /** Whether an event carries answer text. */
  predicate DifyAnswers(ev: DifyEvent) {
    (ev.event == "message" || ev.event == "agent_message") && Truthy(ev.answer)
  }

  function DifyEventStep(s: DifyState, ev: DifyEvent): DifyState {
    if DifyAnswers(ev) then
      s.(fullContent := s.fullContent + ev.answer.value, frames := s.frames + [Chunk(ev.answer.value)])
    else if ev.event == "agent_thought" then
      var toolName := if Truthy(ev.tool) then ev.tool.value else "unknown_tool";
      var reasoning := if Truthy(ev.thought) && Truthy(ev.tool) then [Reasoning(ev.thought.value)] else [];
      var started := if Truthy(ev.tool) then [ToolStarted("Dify", toolName)] else [];
      var finished := if Truthy(ev.observation) then [ToolFinished("Dify", toolName, ev.observation)] else [];
      s.(frames := s.frames + reasoning + started + finished)
    else if ev.event == "message_end" then
      s.(messageId := if Truthy(ev.messageId) then ev.messageId.value else s.messageId,
         tokenUsage := if ev.usage.Some? then Some(UsageOf(ev.usage.value)) else s.tokenUsage)
    else s
  }

  /** The event of a data line whose payload parses. */
  function LineEvent(line: string, parse: string -> Option<DifyEvent>): (r: Option<DifyEvent>)
    ensures r.Some? <==> DataPayload(line).Some? && parse(DataPayload(line).value).Some?
    ensures r.Some? ==> r == parse(DataPayload(line).value)
  {
    match DataPayload(line)
    case None => None
    case Some(json) => parse(json)
  }

  /** One line of the Dify stream. */
  function DifyLine(s: DifyState, line: string, parse: string -> Option<DifyEvent>): DifyState {
    match LineEvent(line, parse)
    case None => s
    case Some(ev) =>
      DifyEventStep(s.(conversationId := if Truthy(ev.conversationId) then ev.conversationId.value else s.conversationId), ev)
  }

  function DifyStep(parse: string -> Option<DifyEvent>): (DifyState, string) -> DifyState {
    (s: DifyState, line: string) => DifyLine(s, line, parse)
  }

  /** The Dify lines handled one after the other. */
  function DifyFold(lines: seq<string>, init: DifyState, parse: string -> Option<DifyEvent>): DifyState {
    if lines == [] then init else DifyLine(DifyFold(lines[..|lines| - 1], init, parse), lines[|lines| - 1], parse)
  }

  lemma {:induction false} DifyFoldIsFoldLines(lines: seq<string>, init: DifyState, parse: string -> Option<DifyEvent>)
    ensures FoldLines(lines, init, DifyStep(parse)) == DifyFold(lines, init, parse)
  {
    if lines != [] {
      DifyFoldIsFoldLines(lines[..|lines| - 1], init, parse);
    }
  }

  /** The events of the parsed data lines, in order. */
  function DifyEvents(lines: seq<string>, parse: string -> Option<DifyEvent>): (r: seq<DifyEvent>)
    ensures |r| <= |lines|
  {
    if lines == [] then []
    else
      var e := LineEvent(lines[|lines| - 1], parse);
      DifyEvents(lines[..|lines| - 1], parse) + (if e.Some? then [e.value] else [])
  }

  /** The answer texts of a list of events, joined. */
  function Answers(events: seq<DifyEvent>): string {
    if events == [] then ""
    else Answers(events[..|events| - 1]) + (if DifyAnswers(events[|events| - 1]) then events[|events| - 1].answer.value else "")
  }

  /** The non-empty conversation ids of a list of events, in order. */
  function ConversationIds(events: seq<DifyEvent>): seq<string> {
    if events == [] then []
    else
      var ev := events[|events| - 1];
      ConversationIds(events[..|events| - 1]) + (if Truthy(ev.conversationId) then [ev.conversationId.value] else [])
  }

  /** A line that is not a data line with a payload leaves everything as it was. */
  lemma DifyIgnoresOtherLines(s: DifyState, line: string, parse: string -> Option<DifyEvent>)
    requires DataPayload(line).None?
    ensures DifyLine(s, line, parse) == s
  {
  }

  /** What one event does to the answer, the chunk text and the frames sent before. */
  lemma DifyEventStepMeaning(q: DifyState, ev: DifyEvent)
    ensures var s := DifyEventStep(q, ev);
      var added := if DifyAnswers(ev) then ev.answer.value else "";
      && s.fullContent == q.fullContent + added
      && ChunkText(s.frames) == ChunkText(q.frames) + added
      && s.conversationId == q.conversationId
      && |s.frames| >= |q.frames| && s.frames[..|q.frames|] == q.frames
  {
    DifyAnswerStep(q, ev);
    DifyThoughtStep(q, ev);
    DifyQuietStep(q, ev);
  }

  lemma DifyAnswerStep(q: DifyState, ev: DifyEvent)
    ensures DifyAnswers(ev) ==>
      var s := DifyEventStep(q, ev);
      && s.fullContent == q.fullContent + ev.answer.value
      && ChunkText(s.frames) == ChunkText(q.frames) + ev.answer.value
      && s.conversationId == q.conversationId
      && |s.frames| >= |q.frames| && s.frames[..|q.frames|] == q.frames
  {
    if DifyAnswers(ev) {
      var s := DifyEventStep(q, ev);
      assert s.frames == q.frames + [Chunk(ev.answer.value)];
      ChunkTextSnoc(q.frames, Chunk(ev.answer.value));
    }
  }

  lemma DifyThoughtStep(q: DifyState, ev: DifyEvent)
    ensures !DifyAnswers(ev) && ev.event == "agent_thought" ==>
      var s := DifyEventStep(q, ev);
      && s.fullContent == q.fullContent
      && ChunkText(s.frames) == ChunkText(q.frames)
      && s.conversationId == q.conversationId
      && |s.frames| >= |q.frames| && s.frames[..|q.frames|] == q.frames
  {
    if !DifyAnswers(ev) && ev.event == "agent_thought" {
      var s := DifyEventStep(q, ev);
      var toolName := if Truthy(ev.tool) then ev.tool.value else "unknown_tool";
      var reasoning := if Truthy(ev.thought) && Truthy(ev.tool) then [Reasoning(ev.thought.value)] else [];
      var started := if Truthy(ev.tool) then [ToolStarted("Dify", toolName)] else [];
      var finished := if Truthy(ev.observation) then [ToolFinished("Dify", toolName, ev.observation)] else [];
      var more := reasoning + started + finished;
      assert s.frames == q.frames + more;
      NoChunks(q.frames, more);
    }
  }

  lemma DifyQuietStep(q: DifyState, ev: DifyEvent)
    ensures !DifyAnswers(ev) && ev.event != "agent_thought" ==>
      var s := DifyEventStep(q, ev);
      s.fullContent == q.fullContent && s.frames == q.frames && s.conversationId == q.conversationId
  {
  }

  /** What one line does: nothing, unless it is a data line whose payload parses. */
  lemma DifyLineMeaning(p: DifyState, line: string, parse: string -> Option<DifyEvent>)
    ensures var s := DifyLine(p, line, parse);
      if LineEvent(line, parse).Some? then
        var ev := LineEvent(line, parse).value;
        var added := if DifyAnswers(ev) then ev.answer.value else "";
        && s.fullContent == p.fullContent + added
        && ChunkText(s.frames) == ChunkText(p.frames) + added
        && s.conversationId == (if Truthy(ev.conversationId) then ev.conversationId.value else p.conversationId)
        && |s.frames| >= |p.frames| && s.frames[..|p.frames|] == p.frames
      else s == p
  {
    if LineEvent(line, parse).Some? {
      var ev := LineEvent(line, parse).value;
      DifyEventStepMeaning(p.(conversationId := if Truthy(ev.conversationId) then ev.conversationId.value else p.conversationId), ev);
    }
  }

  /**
   * After any lines, the answer is the starting answer followed by the
   * answers of the `message` and `agent_message` events in order.
   */
  lemma {:induction false} DifyFoldContent(lines: seq<string>, init: DifyState, parse: string -> Option<DifyEvent>)
    ensures DifyFold(lines, init, parse).fullContent == init.fullContent + Answers(DifyEvents(lines, parse))
  {
    if lines != [] {
      var prefix := lines[..|lines| - 1];
      var line := lines[|lines| - 1];
      DifyFoldContent(prefix, init, parse);
      var p := DifyFold(prefix, init, parse);
      var s := DifyFold(lines, init, parse);
      DifyLineMeaning(p, line, parse);
      var pe := DifyEvents(prefix, parse);
      assert s == DifyLine(p, line, parse);
      if LineEvent(line, parse).Some? {
        var ev := LineEvent(line, parse).value;
        var added := if DifyAnswers(ev) then ev.answer.value else "";
        assert DifyEvents(lines, parse) == pe + [ev];
        EventsSnoc(pe, ev);
        AppendAssoc(init.fullContent, Answers(pe), added);
      } else {
        assert DifyEvents(lines, parse) == pe;
      }
    }
  }

  /** After any lines, the chunks sent to the client spell out exactly the added answer. */
  lemma {:induction false} DifyFoldChunks(lines: seq<string>, init: DifyState, parse: string -> Option<DifyEvent>)
    ensures ChunkText(DifyFold(lines, init, parse).frames) == ChunkText(init.frames) + Answers(DifyEvents(lines, parse))
  {
    if lines != [] {
      var prefix := lines[..|lines| - 1];
      var line := lines[|lines| - 1];
      DifyFoldChunks(prefix, init, parse);
      var p := DifyFold(prefix, init, parse);
      var s := DifyFold(lines, init, parse);
      DifyLineMeaning(p, line, parse);
      var pe := DifyEvents(prefix, parse);
      assert s == DifyLine(p, line, parse);
      if LineEvent(line, parse).Some? {
        var ev := LineEvent(line, parse).value;
        var added := if DifyAnswers(ev) then ev.answer.value else "";
        assert DifyEvents(lines, parse) == pe + [ev];
        EventsSnoc(pe, ev);
        AppendAssoc(ChunkText(init.frames), Answers(pe), added);
      } else {
        assert DifyEvents(lines, parse) == pe;
      }
    }
  }

  /** After any lines, the conversation id is the last non-empty one seen, else the starting one. */
  lemma {:induction false} DifyFoldConversation(lines: seq<string>, init: DifyState, parse: string -> Option<DifyEvent>)
    ensures var ids := ConversationIds(DifyEvents(lines, parse));
      DifyFold(lines, init, parse).conversationId == (if ids == [] then init.conversationId else ids[|ids| - 1])
  {
    if lines != [] {
      var prefix := lines[..|lines| - 1];
      var line := lines[|lines| - 1];
      DifyFoldConversation(prefix, init, parse);
      var p := DifyFold(prefix, init, parse);
      assert DifyFold(lines, init, parse) == DifyLine(p, line, parse);
      DifyLineConversation(p, line, parse);
      DifyEventsIds(lines, parse);
      var ids := ConversationIds(DifyEvents(prefix, parse));
      var e := LineEvent(line, parse);
      if e.Some? && Truthy(e.value.conversationId) {
        var v := e.value.conversationId.value;
        assert (ids + [v])[|ids + [v]| - 1] == v;
      } else {
        assert ids + [] == ids;
      }
    }
  }

  /** One line sets the conversation id when its event carries a non-empty one. */
  lemma DifyLineConversation(p: DifyState, line: string, parse: string -> Option<DifyEvent>)
    ensures var e := LineEvent(line, parse);
      DifyLine(p, line, parse).conversationId ==
        if e.Some? && Truthy(e.value.conversationId) then e.value.conversationId.value else p.conversationId
  {
    if LineEvent(line, parse).Some? {
      var ev := LineEvent(line, parse).value;
      DifyEventStepMeaning(p.(conversationId := if Truthy(ev.conversationId) then ev.conversationId.value else p.conversationId), ev);
    }
  }

  lemma DifyEventsIds(lines: seq<string>, parse: string -> Option<DifyEvent>)
    requires lines != []
    ensures var e := LineEvent(lines[|lines| - 1], parse);
      ConversationIds(DifyEvents(lines, parse)) ==
        ConversationIds(DifyEvents(lines[..|lines| - 1], parse)) +
        (if e.Some? && Truthy(e.value.conversationId) then [e.value.conversationId.value] else [])
  {
    var pe := DifyEvents(lines[..|lines| - 1], parse);
    var e := LineEvent(lines[|lines| - 1], parse);
    if e.Some? {
      assert DifyEvents(lines, parse) == pe + [e.value];
      EventsSnoc(pe, e.value);
    } else {
      assert DifyEvents(lines, parse) == pe;
      assert pe + [] == pe;
    }
  }

  lemma EventsSnoc(pe: seq<DifyEvent>, ev: DifyEvent)
    ensures Answers(pe + [ev]) == Answers(pe) + (if DifyAnswers(ev) then ev.answer.value else "")
    ensures ConversationIds(pe + [ev]) == ConversationIds(pe) + (if Truthy(ev.conversationId) then [ev.conversationId.value] else [])
  {
    assert (pe + [ev])[..|pe|] == pe;
  }

  /** Frames without chunks add nothing to the chunk text. */
  lemma {:induction false} NoChunks(frames: seq<Frame>, more: seq<Frame>)
    requires forall k :: 0 <= k < |more| ==> !more[k].Chunk?
    ensures ChunkText(frames + more) == ChunkText(frames)
    decreases |more|
  {
    if more == [] {
      assert frames + more == frames;
    } else {
      var last := more[|more| - 1];
      assert !last.Chunk?;
      assert frames + more == (frames + more[..|more| - 1]) + [last];
      ChunkTextSnoc(frames + more[..|more| - 1], last);
      NoChunks(frames, more[..|more| - 1]);
    }
  }

  datatype StreamResult = StreamResult(fullContent: string, conversationId: string, tokenUsage: Option<Usage>)

  /**
   * The Dify stream: the result is that of handling the complete lines of
   * the whole stream; `messageId` is the one the suggested questions are
   * asked for.
   */
  method DifyStream(chunks: seq<string>, conversationId: Option<string>, parse: string -> Option<DifyEvent>)
    returns (r: StreamResult, messageId: string, frames: seq<Frame>)
    ensures var s := DifyFold(CompleteLines(Concat(chunks)), DifyInit(conversationId), parse);
      r == StreamResult(s.fullContent, s.conversationId, s.tokenUsage) && messageId == s.messageId && frames == s.frames
  {
    var s, _ := ReadLines(chunks, DifyInit(conversationId), DifyStep(parse));
    DifyFoldIsFoldLines(CompleteLines(Concat(chunks)), DifyInit(conversationId), parse);
    r := StreamResult(s.fullContent, s.conversationId, s.tokenUsage);
    messageId := s.messageId;
    frames := s.frames;
  }

  /**
   * Of a Dify stream, the answer is the joined `message`/`agent_message`
   * answers of its complete lines, which is also what the chunk frames
   * spell out; the conversation id is the last non-empty one, else the one
   * the request brought (or empty).
   */
  lemma DifyStreamMeaning(lines: seq<string>, conversationId: Option<string>, parse: string -> Option<DifyEvent>)
    ensures var s := DifyFold(lines, DifyInit(conversationId), parse);
      var events := DifyEvents(lines, parse);
      var ids := ConversationIds(events);
      && s.fullContent == Answers(events)
      && ChunkText(s.frames) == s.fullContent
      && s.conversationId == (if ids != [] then ids[|ids| - 1] else if conversationId.Some? then conversationId.value else "")
  {
    var init := DifyInit(conversationId);
    var answers := Answers(DifyEvents(lines, parse));
    DifyFoldContent(lines, init, parse);
    DifyFoldChunks(lines, init, parse);
    DifyFoldConversation(lines, init, parse);
    assert init.fullContent + answers == answers;
    assert ChunkText(init.frames) + answers == answers;
  }

  // ---------------------------------------------------------------- Coze

  /** The fields of a Coze `data:` payload the handler reads. */
  datatype CozeData = CozeData(conversationId: Option<string>, kind: Option<string>, role: Option<string>,
                               content: Option<string>, usage: Option<RawUsage>)

  /**
   * The parsers a Coze stream needs: the payload; a function call's content
   * (`None` when it throws, else its `name`); a verbose message's content
   * (`None` when it throws, else its data when `msg_type` is `reasoning`).
   */
  datatype CozeParsers = CozeParsers(data: string -> Option<CozeData>, call: string -> Option<Option<string>>,
                                     verbose: string -> Option<Option<string>>)

  datatype CozeState = CozeState(eventType: string, fullContent: string, conversationId: string, tokenUsage: Option<Usage>, frames: seq<Frame>)

  function CozeInit(conversationId: Option<string>): CozeState {
    CozeState("", "", if conversationId.Some? then conversationId.value else "", None, [])
  }

  const MessageDelta := "conversation.message.delta"
  const MessageCompleted := "conversation.message.completed"
  const ChatCompleted := "conversation.chat.completed"

  /** `content || fallback`. */
  function ContentOr(content: Option<string>, fallback: string): string {
    if Truthy(content) then content.value else fallback
  }

  /** Whether a payload is an answer delta under the current event type. */
  predicate IsAnswerDelta(eventType: string, d: CozeData) {
    eventType == MessageDelta && d.role == Some("assistant") && d.kind == Some("answer")
  }

  function CozeDataStep(s: CozeState, d: CozeData, p: CozeParsers): CozeState {
    if IsAnswerDelta(s.eventType, d) then
      var content := ContentOr(d.content, "");
      s.(fullContent := s.fullContent + content, frames := s.frames + [Chunk(content)])
    else if s.eventType == MessageCompleted && d.role == Some("assistant") then
      if d.kind == Some("function_call") then
        match p.call(ContentOr(d.content, "{}"))
        case None => s
        case Some(name) => s.(frames := s.frames + [ToolStarted("Coze", if Truthy(name) then name.value else "unknown_tool")])
      else if d.kind == Some("tool_output") then s.(frames := s.frames + [ToolFinished("Coze", "tool", d.content)])
      else if d.kind == Some("verbose") then
        match p.verbose(ContentOr(d.content, "{}"))
        case Some(Some(reasoning)) => s.(frames := s.frames + [Reasoning(reasoning)])
        case _ => s
      else if d.kind == Some("knowledge") then s.(frames := s.frames + [Context(d.content)])
      else if d.kind == Some("follow_up") then s.(frames := s.frames + [Suggestions([d.content])])
      else s
    else if s.eventType == ChatCompleted && d.usage.Some? then s.(tokenUsage := Some(UsageOf(d.usage.value)))
    else s
  }

  /** One line of the Coze stream: an `event:` line sets the type the following `data:` lines are read under. */
  function CozeLine(s: CozeState, line: string, p: CozeParsers): CozeState {
    var t := Trim(line);
    if t == "" then s
    else if StartsWith(t, "event:") then s.(eventType := Trim(t[6..]))
    else match DataPayload(line)
      case None => s
      case Some(json) =>
        match p.data(json)
        case None => s
        case Some(d) =>
          CozeDataStep(s.(conversationId := if Truthy(d.conversationId) then d.conversationId.value else s.conversationId), d, p)
  }

  function CozeStep(p: CozeParsers): (CozeState, string) -> CozeState {
    (s: CozeState, line: string) => CozeLine(s, line, p)
  }

  /** The answer text one payload adds: the content of an assistant answer delta, else nothing. */
  function CozeAdded(eventType: string, d: CozeData): string {
    if IsAnswerDelta(eventType, d) then ContentOr(d.content, "") else ""
  }

  /** A payload adds its delta to the answer and sends exactly that as chunk text. */
  lemma CozeDataStepContent(s: CozeState, d: CozeData, p: CozeParsers)
    ensures var s' := CozeDataStep(s, d, p);
      && s'.fullContent == s.fullContent + CozeAdded(s.eventType, d)
      && ChunkText(s'.frames) == ChunkText(s.frames) + CozeAdded(s.eventType, d)
  {
    var s' := CozeDataStep(s, d, p);
    if IsAnswerDelta(s.eventType, d) {
      ChunkTextSnoc(s.frames, Chunk(ContentOr(d.content, "")));
    } else if s'.frames != s.frames {
      var f := s'.frames[|s'.frames| - 1];
      assert s'.frames == s.frames + [f];
      ChunkTextSnoc(s.frames, f);
    }
  }

  /** The answer text one line adds: only a parsed data payload that is an answer delta under the current event type adds any. */
  function CozeLineAdded(s: CozeState, line: string, p: CozeParsers): string {
    var t := Trim(line);
    if t == "" || StartsWith(t, "event:") then ""
    else match DataPayload(line)
      case None => ""
      case Some(json) =>
        match p.data(json)
        case None => ""
        case Some(d) => CozeAdded(s.eventType, d)
  }

  /**
   * A line adds to the answer exactly its added text, and sends exactly that
   * as chunk text; every other line leaves the answer and the chunk text alone.
   */
  lemma CozeLineContent(s: CozeState, line: string, p: CozeParsers)
    ensures var s' := CozeLine(s, line, p);
      && s'.fullContent == s.fullContent + CozeLineAdded(s, line, p)
      && ChunkText(s'.frames) == ChunkText(s.frames) + CozeLineAdded(s, line, p)
  {
    CozeDataLine(s, line, p);
    CozeOtherLine(s, line, p);
  }

  /** Whether a line is a `data:` line whose payload parses. */
  predicate IsCozeData(line: string, p: CozeParsers) {
    var t := Trim(line);
    t != "" && !StartsWith(t, "event:") && DataPayload(line).Some? && p.data(DataPayload(line).value).Some?
  }

  lemma CozeDataLine(s: CozeState, line: string, p: CozeParsers)
    ensures IsCozeData(line, p) ==>
      var s' := CozeLine(s, line, p);
      && s'.fullContent == s.fullContent + CozeLineAdded(s, line, p)
      && ChunkText(s'.frames) == ChunkText(s.frames) + CozeLineAdded(s, line, p)
  {
    if IsCozeData(line, p) {
      var d := p.data(DataPayload(line).value).value;
      var s1 := s.(conversationId := if Truthy(d.conversationId) then d.conversationId.value else s.conversationId);
      assert CozeLine(s, line, p) == CozeDataStep(s1, d, p);
      assert CozeLineAdded(s, line, p) == CozeAdded(s1.eventType, d);
      CozeDataStepContent(s1, d, p);
    }
  }

  lemma CozeOtherLine(s: CozeState, line: string, p: CozeParsers)
    ensures !IsCozeData(line, p) ==>
      && CozeLine(s, line, p).fullContent == s.fullContent && CozeLine(s, line, p).frames == s.frames
      && CozeLineAdded(s, line, p) == ""
  {
    var t := Trim(line);
    if t == "" || StartsWith(t, "event:") {
      assert CozeLineAdded(s, line, p) == "";
      assert CozeLine(s, line, p) == (if t == "" then s else s.(eventType := Trim(t[6..])));
    } else if !IsCozeData(line, p) {
      assert CozeLineAdded(s, line, p) == "";
      assert CozeLine(s, line, p) == s;
    }
  }

  /** Only a parsed data payload that is an assistant answer delta under `conversation.message.delta` adds text. */
  lemma CozeLineAddedOnlyDelta(s: CozeState, line: string, p: CozeParsers)
    requires CozeLineAdded(s, line, p) != ""
    ensures DataPayload(line).Some? && p.data(DataPayload(line).value).Some?
    ensures IsAnswerDelta(s.eventType, p.data(DataPayload(line).value).value)
  {
  }

  /** An `event:` line changes nothing but the current event type. */
  lemma CozeEventLine(s: CozeState, line: string, p: CozeParsers)
    requires StartsWith(Trim(line), "event:")
    ensures CozeLine(s, line, p) == s.(eventType := Trim(Trim(line)[6..]))
  {
  }

  /** The Coze handler's state after the given lines. */
  function CozeFold(lines: seq<string>, init: CozeState, p: CozeParsers): CozeState {
    if lines == [] then init else CozeLine(CozeFold(lines[..|lines| - 1], init, p), lines[|lines| - 1], p)
  }

  lemma {:induction false} CozeFoldIsFoldLines(lines: seq<string>, init: CozeState, p: CozeParsers)
    ensures FoldLines(lines, init, CozeStep(p)) == CozeFold(lines, init, p)
  {
    if lines != [] {
      CozeFoldIsFoldLines(lines[..|lines| - 1], init, p);
    }
  }

  /** The answer text the lines add, line by line. */
  function CozeAnswer(lines: seq<string>, init: CozeState, p: CozeParsers): string {
    if lines == [] then ""
    else
      var prefix := lines[..|lines| - 1];
      CozeAnswer(prefix, init, p) + CozeLineAdded(CozeFold(prefix, init, p), lines[|lines| - 1], p)
  }

  /** Over any lines, the answer grows by exactly the text the lines add. */
  lemma {:induction false} CozeFoldContent(lines: seq<string>, init: CozeState, p: CozeParsers)
    ensures CozeFold(lines, init, p).fullContent == init.fullContent + CozeAnswer(lines, init, p)
  {
    if lines != [] {
      var prefix := lines[..|lines| - 1];
      var line := lines[|lines| - 1];
      CozeFoldContent(prefix, init, p);
      var q := CozeFold(prefix, init, p);
      assert CozeFold(lines, init, p) == CozeLine(q, line, p);
      assert CozeAnswer(lines, init, p) == CozeAnswer(prefix, init, p) + CozeLineAdded(q, line, p);
      CozeLineContent(q, line, p);
    }
  }

  /** Over any lines, the chunk frames spell out exactly the text the lines add. */
  lemma {:induction false} CozeFoldChunks(lines: seq<string>, init: CozeState, p: CozeParsers)
    ensures ChunkText(CozeFold(lines, init, p).frames) == ChunkText(init.frames) + CozeAnswer(lines, init, p)
  {
    if lines != [] {
      var prefix := lines[..|lines| - 1];
      var line := lines[|lines| - 1];
      CozeFoldChunks(prefix, init, p);
      var q := CozeFold(prefix, init, p);
      var added := CozeLineAdded(q, line, p);
      var before := ChunkText(q.frames);
      CozeLineContent(q, line, p);
      var s := CozeLine(q, line, p);
      assert ChunkText(s.frames) == before + added;
      assert CozeFold(lines, init, p) == s;
      var start := ChunkText(init.frames);
      var sofar := CozeAnswer(prefix, init, p);
      assert before == start + sofar;
      assert CozeAnswer(lines, init, p) == sofar + added;
      assert before + added == start + (sofar + added);
    }
  }

  /** The Coze stream: the result is that of handling the complete lines of the whole stream. */
  method CozeStream(chunks: seq<string>, conversationId: Option<string>, p: CozeParsers)
    returns (r: StreamResult, frames: seq<Frame>)
    ensures var s := CozeFold(CompleteLines(Concat(chunks)), CozeInit(conversationId), p);
      r == StreamResult(s.fullContent, s.conversationId, s.tokenUsage) && frames == s.frames
    ensures ChunkText(frames) == r.fullContent
  {
    var s, _ := ReadLines(chunks, CozeInit(conversationId), CozeStep(p));
    var lines := CompleteLines(Concat(chunks));
    CozeFoldIsFoldLines(lines, CozeInit(conversationId), p);
    CozeFoldContent(lines, CozeInit(conversationId), p);
    CozeFoldChunks(lines, CozeInit(conversationId), p);
    r := StreamResult(s.fullContent, s.conversationId, s.tokenUsage);
    frames := s.frames;
  }

  // ---------------------------------------------------------------- the conversation context

  /** The metadata key a platform's conversation id is stored under. */
  function ContextKey(platform: string): string {
    platform + "_conversation_id"
  }

  /** `prepareThirdPartyContext`: the conversation id the request carries to the platform. */
  function PrepareContext(metadata: Option<map<string, string>>, platform: string): Option<string> {
    if metadata.None? then None
    else
      var key := ContextKey(platform);
      if key in metadata.value && metadata.value[key] != "" then Some(metadata.value[key]) else None
  }

  lemma ContextKeyInjective(a: string, b: string)
    requires ContextKey(a) == ContextKey(b)
    ensures a == b
  {
    assert a == ContextKey(a)[..|a|];
    assert b == ContextKey(b)[..|b|];
  }

  /**
   * A stored id is used only for its own platform: storing one for another
   * platform changes nothing, and storing a non-empty one for this platform
   * makes it the one used.
   */
  lemma PrepareContextPerPlatform(metadata: map<string, string>, platform: string, other: string, id: string)
    ensures other != platform ==> PrepareContext(Some(metadata[ContextKey(other) := id]), platform) == PrepareContext(Some(metadata), platform)
    ensures id != "" ==> PrepareContext(Some(metadata[ContextKey(platform) := id]), platform) == Some(id)
    ensures PrepareContext(None, platform).None?
  {
    if other != platform && ContextKey(other) == ContextKey(platform) {
      ContextKeyInjective(other, platform);
    }
  }
}
