/** The agent's graph state of src/graph/state.ts: a message list merged by
    concatenation and a user name merged by overwriting. */
module State {
  import opened Wrappers

  /** An argument value of a tool call, as far as the schema tells values
      apart. */
  datatype Arg = Str(s: string) | NonString

  datatype ToolCall = ToolCall(id: string, name: string, args: map<string, Arg>)

  /** The conversation's messages; `Ai` is the model's reply, possibly
      asking for tool calls. */
  datatype Message =
    | Human(content: string)
    | Ai(content: string, toolCalls: seq<ToolCall>)
    | ToolResult(content: string, toolCallId: string)
    | System(content: string)

  /** `userName` is `string | null`; None is null. */
  datatype AgentState = AgentState(messages: seq<Message>, userName: Option<string>)

  /** A node's partial state: None for a key the update leaves out. */
  datatype Update = Update(messages: Option<seq<Message>>, userName: Option<Option<string>>)

  /** The messages reducer `x.concat(y)`: the existing messages stay, in
      order, and the new ones follow them. */
  function ReduceMessages(x: seq<Message>, y: seq<Message>): (r: seq<Message>)
    ensures |r| == |x| + |y|
    ensures r[..|x|] == x && r[|x|..] == y
  {
    x + y
  }

  /** The userName reducer: the current value is ignored. */
  function ReduceUserName(current: Option<string>, next: Option<string>): (r: Option<string>)
    ensures r == next
  {
    next
  }

  const DefaultMessages: seq<Message> := []
  const DefaultUserName: Option<string> := None

  /** The state of a thread before any update. */
  const Initial: AgentState := AgentState(DefaultMessages, DefaultUserName)

  /** Merging a node's update into the state, key by key. */
  function Apply(s: AgentState, u: Update): (r: AgentState)
    ensures u.messages.None? ==> r.messages == s.messages
    ensures u.messages.Some? ==> r.messages == ReduceMessages(s.messages, u.messages.value)
    ensures r.userName == (if u.userName.Some? then u.userName.value else s.userName)
  {
    AgentState(
      if u.messages.Some? then ReduceMessages(s.messages, u.messages.value) else s.messages,
      if u.userName.Some? then ReduceUserName(s.userName, u.userName.value) else s.userName)
  }

  /** Two updates as one: messages in order, the later user name winning. */
  function Combine(u1: Update, u2: Update): Update
  {
    Update(
      if u1.messages.Some? && u2.messages.Some? then Some(u1.messages.value + u2.messages.value)
      else if u1.messages.Some? then u1.messages else u2.messages,
      if u2.userName.Some? then u2.userName else u1.userName)
  }

  /** The default message list is the reducer's identity, on both sides. */
  lemma DefaultIsIdentity(x: seq<Message>)
    ensures ReduceMessages(x, DefaultMessages) == x
    ensures ReduceMessages(DefaultMessages, x) == x
  {
  }

  /** Applying two updates in turn is applying their combination once. */
  lemma ApplyTwice(s: AgentState, u1: Update, u2: Update)
    ensures Apply(Apply(s, u1), u2) == Apply(s, Combine(u1, u2))
  {
    if u1.messages.Some? && u2.messages.Some? {
      assert s.messages + u1.messages.value + u2.messages.value
          == s.messages + (u1.messages.value + u2.messages.value);
    }
  }

  /** Setting the user name twice to the same value is setting it once. */
  lemma UserNameIdempotent(s: AgentState, name: Option<string>)
    ensures var u := Update(None, Some(name));
      Apply(Apply(s, u), u) == Apply(s, u) && Apply(s, u).userName == name
  {
  }

  /** Updates never lose messages: the state's messages are a prefix of
      the messages after any update. */
  lemma MessagesOnlyGrow(s: AgentState, u: Update)
    ensures s.messages <= Apply(s, u).messages
  {
  }
}
