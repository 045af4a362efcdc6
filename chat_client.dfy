/**
 * The conversation ledger of `ChatClient`: an append-only history of role/content messages that
 * starts with one system message, grows by a user message and then an assistant reply per
 * prompt, and renders as a transcript that leaves the system messages out. The model behind the
 * client is a value of functions from the history to a reply.
 */
module Chat {
  import opened Wrappers

  datatype ChatRole = System | User | Assistant {
    /** `ChatRole.ToString()`: the role's lower-case wire name. */
    function Name(): string {
      match this
      case System => "system"
      case User => "user"
      case Assistant => "assistant"
    }
  }

  datatype ChatMessage = ChatMessage(role: ChatRole, text: string)

  const DefaultSystemPrompt := "You are a helpful AI assistant. Answer the user's questions in a friendly and informative manner."

  /** A tool handed to the constructor: the function it wraps, named, and its description. */
  datatype ToolSpec = ToolSpec(name: string, description: string)

  /** `ChatOptions` with the tools turned into callable functions, in the order given. */
  datatype ChatOptions = ChatOptions(tools: seq<ToolSpec>)

  /** Plain text, or JSON following the schema of the type a structured prompt asks for. */
  datatype ResponseFormat = PlainText | JsonSchema(schema: string)

  /** A failed model call, or a structured reply that does not decode into the requested type. */
  datatype ModelError = ModelFailure(reason: string) | UndecodableReply(text: string)

  /** The model behind `IChatClient`: the reply it gives to a history, and the fragments it
      streams for one. Either call may fail. */
  datatype ModelClient = ModelClient(
    respond: (seq<ChatMessage>, Option<ChatOptions>, ResponseFormat) -> Result<string, ModelError>,
    stream: (seq<ChatMessage>, Option<ChatOptions>) -> Result<seq<string>, ModelError>)

  /** The options the constructor builds: present exactly for a non-empty tool list. */
  function OptionsFor(tools: Option<seq<ToolSpec>>): (r: Option<ChatOptions>)
    ensures r.Some? <==> tools.Some? && tools.value != []
    ensures r.Some? ==> r.value.tools == tools.value
  {
    if tools.Some? && |tools.value| > 0 then Some(ChatOptions(tools.value)) else None
  }

  /** The shape every history keeps: the system prompt first and nowhere else, and every reply
      right after the prompt it answers. */
  predicate WellFormed(history: seq<ChatMessage>) {
    && |history| >= 1
    && history[0].role == System
    && (forall k :: 1 <= k < |history| ==> history[k].role != System)
    && (forall k :: 1 <= k < |history| && history[k].role == Assistant ==> history[k - 1].role == User)
  }

  class ChatClient {
    /** The model, wrapped for function invocation when there are tools. */
    const client: ModelClient
    const chatOptions: Option<ChatOptions>
    /** Whether `client` is the `FunctionInvokingChatClient` wrapper. */
    const invokesFunctions: bool
    var chatHistory: seq<ChatMessage>

    ghost predicate Valid()
      reads this
    {
      WellFormed(chatHistory) && (invokesFunctions <==> chatOptions.Some?)
    }

    /** `new ChatClient(client, systemPrompt, tools)`: options and function invocation only for
        a non-empty tool list; the history starts with the system prompt, or the default one. */
    constructor(client: ModelClient, systemPrompt: Option<string>, tools: Option<seq<ToolSpec>>)
      ensures Valid()
      ensures chatHistory == [ChatMessage(System, systemPrompt.GetOr(DefaultSystemPrompt))]
      ensures chatOptions == OptionsFor(tools)
      ensures invokesFunctions <==> tools.Some? && tools.value != []
      ensures this.client == client
    {
      this.client := client;
      var options: Option<ChatOptions> := None;
      if tools.Some? && |tools.value| > 0 {
        options := Some(ChatOptions(tools.value));
      }
      chatOptions := options;
      chatHistory := [ChatMessage(System, systemPrompt.GetOr(DefaultSystemPrompt))];
      invokesFunctions := options.Some?;
    }

    /** `PromptAsync(prompt)`: records the prompt, asks the model with the whole history, records
        the reply and returns it. When the model fails the prompt stays recorded, unanswered. */
    method Prompt(prompt: string) returns (r: Result<string, ModelError>)
      requires Valid()
      modifies this
      ensures Valid()
      ensures var asked := old(chatHistory) + [ChatMessage(User, prompt)];
              && r == client.respond(asked, chatOptions, PlainText)
              && (r.Ok? ==> chatHistory == asked + [ChatMessage(Assistant, r.value)])
              && (r.Err? ==> chatHistory == asked)
    {
      chatHistory := chatHistory + [ChatMessage(User, prompt)];
      var response := client.respond(chatHistory, chatOptions, PlainText);
      if response.Err? {
        return Err(response.error);
      }
      chatHistory := chatHistory + [ChatMessage(Assistant, response.value)];
      return Ok(response.value);
    }

    /** `PromptAsync<T>(prompt)`: as `Prompt`, asking for JSON that follows `schema`; the reply
        text is recorded before it is decoded, so a reply that does not decode is still in the
        history. */
    method PromptStructured<T>(prompt: string, schema: string, decode: string -> Option<T>)
      returns (r: Result<T, ModelError>)
      requires Valid()
      modifies this
      ensures Valid()
      ensures var asked := old(chatHistory) + [ChatMessage(User, prompt)];
              var reply := client.respond(asked, chatOptions, JsonSchema(schema));
              && (reply.Err? ==> r == Err(reply.error) && chatHistory == asked)
              && (reply.Ok? ==> chatHistory == asked + [ChatMessage(Assistant, reply.value)])
              && (reply.Ok? && decode(reply.value).Some? ==> r == Ok(decode(reply.value).value))
              && (reply.Ok? && decode(reply.value).None? ==> r == Err(UndecodableReply(reply.value)))
    {
      chatHistory := chatHistory + [ChatMessage(User, prompt)];
      var response := client.respond(chatHistory, chatOptions, JsonSchema(schema));
      if response.Err? {
        return Err(response.error);
      }
      chatHistory := chatHistory + [ChatMessage(Assistant, response.value)];
      var result := decode(response.value);
      if result.None? {
        return Err(UndecodableReply(response.value));
      }
      return Ok(result.value);
    }

    /** `StreamPromptAsync(prompt)`: records the prompt and hands back the model's fragments; the
        streamed reply is never recorded. */
    method StreamPrompt(prompt: string) returns (r: Result<seq<string>, ModelError>)
      requires Valid()
      modifies this
      ensures Valid()
      ensures chatHistory == old(chatHistory) + [ChatMessage(User, prompt)]
      ensures r == client.stream(chatHistory, chatOptions)
    {
      chatHistory := chatHistory + [ChatMessage(User, prompt)];
      r := client.stream(chatHistory, chatOptions);
    }

    /** `GetChatHistoryString()`: in a valid session, the blocks of every message after the
        system prompt, in order. */
    function GetChatHistoryString(): (s: string)
      reads this
      ensures s == Transcript(chatHistory)
      ensures Valid() ==> s == Blocks(chatHistory[1..])
    {
      assert Valid() ==> Conversation(chatHistory) == chatHistory[1..] by {
        if Valid() {
          ConversationOfWellFormed(chatHistory);
        }
      }
      Blocks(Conversation(chatHistory))
    }

    /** `GetChatHistory()`: every message, the system prompt included, in order. */
    function GetChatHistory(): (h: seq<ChatMessage>)
      reads this
      requires Valid()
      ensures h != [] && h[0].role == System && WellFormed(h)
    {
      chatHistory
    }
  }

  // -----------------------------------------------------------------------------------------------
  // The transcript

  /** The messages the transcript shows: all but the system ones, in order. */
  function Conversation(history: seq<ChatMessage>): seq<ChatMessage>
    decreases |history|
  {
    if history == [] then []
    else
      var last := history[|history| - 1];
      Conversation(history[..|history| - 1]) + (if last.role == System then [] else [last])
  }

  /** One message in the transcript: a `----` line, the role and a colon, then the content,
      with no line break after it. */
  function Block(m: ChatMessage): string {
    "----\n" + m.role.Name() + ":\n" + m.text
  }

  /** The blocks of the messages, concatenated with nothing in between. */
  function Blocks(messages: seq<ChatMessage>): string
    decreases |messages|
  {
    if messages == [] then ""
    else Blocks(messages[..|messages| - 1]) + Block(messages[|messages| - 1])
  }

  function Transcript(history: seq<ChatMessage>): string {
    Blocks(Conversation(history))
  }

  lemma ConversationSnoc(history: seq<ChatMessage>, m: ChatMessage)
    ensures Conversation(history + [m]) ==
            Conversation(history) + (if m.role == System then [] else [m])
  {
    assert (history + [m])[..|history|] == history;
  }

  lemma BlocksSnoc(messages: seq<ChatMessage>, m: ChatMessage)
    ensures Blocks(messages + [m]) == Blocks(messages) + Block(m)
  {
    assert (messages + [m])[..|messages|] == messages;
  }

  /** The transcript shows exactly the messages that are not system messages. */
  lemma {:induction false} ConversationMembers(history: seq<ChatMessage>)
    ensures forall m :: m in Conversation(history) <==> m in history && m.role != System
    decreases |history|
  {
    if history != [] {
      var init := history[..|history| - 1];
      var last := history[|history| - 1];
      assert history == init + [last];
      ConversationMembers(init);
    }
  }

  /** In a well-formed history the transcript shows every message after the system prompt. */
  lemma {:induction false} ConversationOfWellFormed(history: seq<ChatMessage>)
    requires WellFormed(history)
    ensures Conversation(history) == history[1..]
    decreases |history|
  {
    if |history| == 1 {
      assert Conversation(history) == Conversation([]) + [];
    } else {
      var init := history[..|history| - 1];
      var last := history[|history| - 1];
      assert history == init + [last];
      ConversationOfWellFormed(init);
      ConversationSnoc(init, last);
      assert history[1..] == init[1..] + [last];
    }
  }

  /** A system message anywhere in the history is left out of the conversation shown. */
  lemma {:induction false} ConversationSkipsSystem(before: seq<ChatMessage>, system: ChatMessage, after: seq<ChatMessage>)
    requires system.role == System
    ensures Conversation(before + [system] + after) == Conversation(before + after)
    decreases |after|
  {
    if after == [] {
      assert before + [system] + after == before + [system];
      assert before + after == before;
      ConversationSnoc(before, system);
    } else {
      var init := after[..|after| - 1];
      var last := after[|after| - 1];
      var withSystem := before + [system] + init;
      var without := before + init;
      assert before + [system] + after == withSystem + [last];
      assert before + after == without + [last];
      ConversationSkipsSystem(before, system, init);
      ConversationSnoc(withSystem, last);
      ConversationSnoc(without, last);
    }
  }

  /** A system message anywhere in the history leaves the transcript unchanged. */
  lemma SystemMessagesLeftOut(before: seq<ChatMessage>, system: ChatMessage, after: seq<ChatMessage>)
    requires system.role == System
    ensures Transcript(before + [system] + after) == Transcript(before + after)
  {
    ConversationSkipsSystem(before, system, after);
  }

  /** A new session's transcript is empty, whatever its system prompt. */
  lemma NewSessionTranscript(systemPrompt: string)
    ensures Transcript([ChatMessage(System, systemPrompt)]) == ""
  {
    ConversationSnoc([], ChatMessage(System, systemPrompt));
  }

  /** An answered prompt adds its two blocks to the transcript, the prompt's first. */
  lemma AnsweredPromptTranscript(history: seq<ChatMessage>, prompt: string, reply: string)
    ensures Transcript(history + [ChatMessage(User, prompt)] + [ChatMessage(Assistant, reply)]) ==
            Transcript(history) + Block(ChatMessage(User, prompt)) + Block(ChatMessage(Assistant, reply))
  {
    var asked := history + [ChatMessage(User, prompt)];
    ConversationSnoc(history, ChatMessage(User, prompt));
    ConversationSnoc(asked, ChatMessage(Assistant, reply));
    BlocksSnoc(Conversation(history), ChatMessage(User, prompt));
    BlocksSnoc(Conversation(asked), ChatMessage(Assistant, reply));
  }

  /** A streamed or failed prompt adds only the prompt's block. */
  lemma UnansweredPromptTranscript(history: seq<ChatMessage>, prompt: string)
    ensures Transcript(history + [ChatMessage(User, prompt)]) ==
            Transcript(history) + Block(ChatMessage(User, prompt))
  {
    ConversationSnoc(history, ChatMessage(User, prompt));
    BlocksSnoc(Conversation(history), ChatMessage(User, prompt));
  }

  /** After one answered prompt the transcript is the prompt's block followed directly by the
      reply's, so the prompt's content runs straight into the reply's `----` line. */
  lemma OneExchangeTranscript(systemPrompt: string, prompt: string, reply: string)
    ensures Transcript([ChatMessage(System, systemPrompt), ChatMessage(User, prompt), ChatMessage(Assistant, reply)]) ==
            Block(ChatMessage(User, prompt)) + Block(ChatMessage(Assistant, reply))
  {
    var system := ChatMessage(System, systemPrompt);
    var user := ChatMessage(User, prompt);
    var assistant := ChatMessage(Assistant, reply);
    assert [system, user, assistant] == [system] + [user] + [assistant];
    AnsweredPromptTranscript([system], prompt, reply);
    NewSessionTranscript(systemPrompt);
  }

  // -----------------------------------------------------------------------------------------------
  // Prompts and replies

  function CountRole(history: seq<ChatMessage>, role: ChatRole): nat
    decreases |history|
  {
    if history == [] then 0
    else CountRole(history[..|history| - 1], role) + (if history[|history| - 1].role == role then 1 else 0)
  }

  /** Every reply answers a prompt: a well-formed history never holds more assistant messages
      than user messages, and one that ends with an unanswered prompt holds fewer. */
  lemma {:induction false} RepliesNeverOutnumberPrompts(history: seq<ChatMessage>)
    requires WellFormed(history)
    ensures CountRole(history, Assistant) <= CountRole(history, User)
    ensures history[|history| - 1].role == User ==> CountRole(history, Assistant) < CountRole(history, User)
    decreases |history|
  {
    if |history| > 1 {
      var init := history[..|history| - 1];
      assert WellFormed(init) by {
        forall k | 1 <= k < |init| && init[k].role == Assistant ensures init[k - 1].role == User {
          assert history[k].role == Assistant;
        }
      }
      RepliesNeverOutnumberPrompts(init);
    }
  }

  /** An answered prompt keeps a history well formed; so does an unanswered one. */
  lemma PromptKeepsWellFormed(history: seq<ChatMessage>, prompt: string, reply: string)
    requires WellFormed(history)
    ensures WellFormed(history + [ChatMessage(User, prompt)])
    ensures WellFormed(history + [ChatMessage(User, prompt)] + [ChatMessage(Assistant, reply)])
  {
  }
}
