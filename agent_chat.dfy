/**
 * The pure helpers of the agent chat service: the streaming precondition,
 * the last user message, quick-command replacement, the merge of the agent's
 * stored configuration with the request, the conversation title, and the
 * message-count limit.
 */
module AgentChat {
  import opened Wrappers
  import opened Text
  import opened MessageContext

  datatype ResponseMode = Blocking | Streaming

  /** `handleChat` refuses streaming mode when no response object is given. */
  function CheckResponseMode(mode: ResponseMode, hasResponse: bool): (r: Result<(), string>)
    ensures r.Err? <==> mode == Streaming && !hasResponse
    ensures r.Err? ==> r.error == "Streaming mode requires response object"
  {
    if mode == Streaming && !hasResponse then Err("Streaming mode requires response object") else Ok(())
  }

  /** `messages.filter(m => m.role === "user")`. */
  function UserMessages(messages: seq<Message>): (r: seq<Message>)
    ensures |r| <= |messages|
    ensures forall m :: m in r ==> m in messages && m.role == User
  {
    if messages == [] then []
    else (if messages[0].role == User then [messages[0]] else []) + UserMessages(messages[1..])
  }

  /** The last user message, `filter(...).slice(-1)[0]`. */
  function LastUserMessage(messages: seq<Message>): Option<Message>
  {
    var users := UserMessages(messages);
    if users == [] then None else Some(Slice(users, -1)[0])
  }

  /** Reference definition: the index of the last user message. */
  function LastUserIndex(messages: seq<Message>): (r: Option<nat>)
    ensures r.Some? ==> r.value < |messages| && messages[r.value].role == User
    ensures r.Some? ==> forall j :: r.value < j < |messages| ==> messages[j].role != User
    ensures r.None? ==> forall j :: 0 <= j < |messages| ==> messages[j].role != User
  {
    if messages == [] then None
    else if messages[|messages| - 1].role == User then Some(|messages| - 1)
    else LastUserIndex(messages[..|messages| - 1])
  }

  lemma {:induction false} UserMessagesSnoc(messages: seq<Message>, m: Message)
    ensures UserMessages(messages + [m]) == UserMessages(messages) + (if m.role == User then [m] else [])
  {
    if messages == [] {
      assert [m][1..] == [];
    } else {
      assert (messages + [m])[1..] == messages[1..] + [m];
      UserMessagesSnoc(messages[1..], m);
    }
  }

  /** The filtered last user message is the message at the last user index. */
  lemma {:induction false} LastUserMessageAtIndex(messages: seq<Message>)
    ensures LastUserMessage(messages) == match LastUserIndex(messages) case None => None case Some(i) => Some(messages[i])
  {
    if messages != [] {
      var init := messages[..|messages| - 1];
      var last := messages[|messages| - 1];
      assert messages == init + [last];
      UserMessagesSnoc(init, last);
      if last.role != User {
        LastUserMessageAtIndex(init);
      }
    }
  }

  /** The request body fields the helpers touch. */
  datatype ChatRequest = ChatRequest(messages: seq<Message>, conversationId: Option<string>, saveConversation: Option<bool>)

  /** `applyQuickCommandContent`: a matched command with content replaces the last message by a user message. */
  function ApplyQuickCommand(dto: ChatRequest, matched: bool, content: Option<string>): (r: ChatRequest)
    ensures !matched || content.None? || content == Some("") ==> r == dto
    ensures matched && content.Some? && content.value != "" ==>
      r.conversationId == dto.conversationId && r.saveConversation == dto.saveConversation &&
      |r.messages| >= 1 && r.messages[|r.messages| - 1] == Message(User, content.value, None) &&
      r.messages[..|r.messages| - 1] == (if dto.messages == [] then [] else dto.messages[..|dto.messages| - 1])
  {
    if !matched || content.None? || content.value == "" then dto
    else
      var kept := if dto.messages == [] then [] else dto.messages[..|dto.messages| - 1];
      dto.(messages := kept + [Message(User, content.value, None)])
  }

  /**
   * `mergeConfigurations`: `mcpServers` of the request is copied to
   * `mcpServerIds`, undefined request fields are dropped, and what is left
   * overrides the agent's own fields. `None` stands for `undefined`.
   */
  function MergeConfigurations<V>(agent: map<string, V>, dto: map<string, Option<V>>): (r: map<string, V>)
    ensures forall k :: k in r <==> k in agent || (k in DtoConfig(dto) && DtoConfig(dto)[k].Some?)
  {
    var dtoConfig := DtoConfig(dto);
    var validConfig := map k | k in dtoConfig && dtoConfig[k].Some? :: dtoConfig[k].value;
    agent + validConfig
  }

  /** `{ ...dto, mcpServerIds: dto.mcpServers }`. */
  function DtoConfig<V>(dto: map<string, Option<V>>): map<string, Option<V>>
  {
    dto["mcpServerIds" := if "mcpServers" in dto then dto["mcpServers"] else None]
  }

  /** Defined request fields win, other agent fields stay, and mcpServers lands in mcpServerIds. */
  lemma MergeConfigurationsMeaning<V>(agent: map<string, V>, dto: map<string, Option<V>>, k: string)
    ensures k != "mcpServerIds" && k in dto && dto[k].Some? ==> k in MergeConfigurations(agent, dto) && MergeConfigurations(agent, dto)[k] == dto[k].value
    ensures k != "mcpServerIds" && (k !in dto || dto[k].None?) && k in agent ==> k in MergeConfigurations(agent, dto) && MergeConfigurations(agent, dto)[k] == agent[k]
    ensures "mcpServers" in dto && dto["mcpServers"].Some? ==> MergeConfigurations(agent, dto)["mcpServerIds"] == dto["mcpServers"].value
    ensures ("mcpServers" !in dto || dto["mcpServers"].None?) ==>
      ("mcpServerIds" in MergeConfigurations(agent, dto) <==> "mcpServerIds" in agent) &&
      ("mcpServerIds" in agent ==> MergeConfigurations(agent, dto)["mcpServerIds"] == agent["mcpServerIds"])
  {
  }

  /** `generateConversationTitle`: titles longer than 20 characters are cut to 20 and get "...". */
  function ConversationTitle(message: string): (r: string)
    ensures |r| <= 23
    ensures |message| <= 20 ==> r == message
    ensures |message| > 20 ==> |r| == 23 && r[..20] == message[..20] && r[20..] == "..."
  {
    if |message| > 20 then message[..20] + "..." else message
  }

  /** A title is its own title: the cut is applied once. */
  lemma ConversationTitleIdempotent(message: string)
    ensures ConversationTitle(ConversationTitle(message)) == ConversationTitle(message)
  {
    var t := ConversationTitle(message);
    if |message| > 20 {
      assert t[..20] + "..." == t;
    }
  }

  /** The title of a new conversation: the first message's text, or "新对话" when it has none. */
  function InitialTitle(firstText: Option<string>): (r: string)
    ensures firstText.None? || firstText == Some("") ==> r == "新对话"
    ensures firstText.Some? && firstText.value != "" ==> r == ConversationTitle(firstText.value)
    ensures r != ""
  {
    ConversationTitle(if firstText.None? || firstText.value == "" then "新对话" else firstText.value)
  }

  /** `limitMessagesByContext`: the list, or its last maxContext messages. */
  function LimitMessagesByContext(messages: seq<Message>, maxContext: Option<int>): (r: seq<Message>)
    ensures maxContext.None? || maxContext == Some(0) || |messages| <= maxContext.value ==> r == messages
    ensures maxContext.Some? && maxContext.value > 0 && |messages| > maxContext.value ==>
      |r| == maxContext.value && r == messages[|messages| - maxContext.value..]
    ensures maxContext.Some? && maxContext.value < 0 ==>
      r == messages[if -maxContext.value > |messages| then |messages| else -maxContext.value..]
  {
    if maxContext.None? || maxContext.value == 0 || |messages| <= maxContext.value then messages
    else Slice(messages, -maxContext.value)
  }
}
