# slack-jira-agent, modelled in Dafny

slack-jira-agent is a Slack assistant. A webhook receives Slack events,
skips redeliveries with the help of a MongoDB collection of processed
event ids, greets new assistant threads and forwards each new user message
to a processing function. That function runs a LangGraph agent: a Gemini
model, prompted as a Jira product-management assistant, loops with a
`create_jira_issue` tool until it gives a final answer. Beside the agent,
a Jira client turns Markdown descriptions into Atlassian Document Format
(ADF) and creates issues, and a server-sent-events (SSE) reader consumes
event streams.

This project models the logic of those pieces:

- `sse.dfy` (module `Sse`): the SSE reader of `src/gateway/sse.ts`.
  - Class `SseReader` keeps the text buffer and the events handed to
    `onMessage`.
  - `Feed` is the inner `indexOf("\n\n")` loop, `Dispatch` handles one frame
    and `ReadFrame` is the line-by-line `for` loop over a mutable record.
  - `FetchSse` adds the HTTP status and null-body errors and the routing of
    errors to `onError`.
  - The frames, the records and the delivered events are specified by
    functions (`Frames`, `Remainder`, `FrameRecord`, `EventsOf`), and their
    properties are lemmas.
- `jira.dfy` (module `Jira`): `src/gateway/jira.ts`.
  - The configuration check and the Markdown-token-to-ADF conversion.
  - The issue request body with its defaults and its fields that are
    present only when truthy.
  - The assignee choice, the error messages, the browse URL, and `sendIssue`
    as a function of the results of its two HTTP calls.
- `state.dfy` (module `State`): the graph state of `src/graph/state.ts`,
  with its two reducers and their defaults.
- `agent.dfy` (module `Agent`): `src/graph/agent.ts`.
  - The system prompt and the model node.
  - The routing decision.
  - The agent/tools graph, run by a `while` loop (`RunGraph`).
  - `runAgent`'s thread id and its reply selection.
- `tools.dfy` (module `Tools`): `src/graph/tools.ts`, the placeholder tool.
  It covers the argument schema, the made-up issue id, the reply, and the
  registry of bound tools.
- `db.dfy` (module `Db`): `src/db.ts`, as class `ProcessedEventsStore`.
  - The fields are the cached client, the index flag, the collection's
    event ids and its TTL index.
  - Remote call outcomes are boolean parameters.
- `slack_events.dfy` (module `SlackEvents`): the webhook `handler` of
  `src/slack-events.ts`, written against the store, with the Slack calls
  and the invoke recorded in an effect log.
- `text.dfy` (module `Text`) and `wrappers.dfy` (module `Wrappers`) hold the
  JavaScript string operations the code relies on and the stock types:
  - `split`, `join`;
  - `trim`, with the ECMAScript whitespace set;
  - decimal formatting of numbers;
  - JavaScript truthiness of an optional string.

External services are not modelled; they become inputs:

| External | In the model |
|---|---|
| HTTP responses | values |
| Markdown lexer output | a `Token` sequence |
| chat model | a function from the messages it is sent to its reply |
| prebuilt tool node | a function from the messages to the tool messages |
| checkpointer | a function from a thread id to the saved state |
| clock, `Math.random` | parameters |

Points where the model follows the code as written:

- Only `create_jira_issue` is registered (`src/graph/tools.ts:39`); there is
  no development-delegate tool.
- The agent loop has no round cap of its own. The model bounds it with a
  `fuel` parameter and reports when the fuel ran out, without claiming a
  specific limit.
- The SSE reader is a loose reading of section 9.2.6 of the WHATWG HTML
  Living Standard, and the model follows the code rather than the standard:
  - only `"\n\n"` ends a frame;
  - field values are trimmed;
  - data values that arrive while the accumulated data is still empty add
    no line break;
  - a trailing partial frame is never delivered.
- The "no account" message of `src/gateway/jira.ts:92` is mis-encoded in the
  source ("encontrÃ³"); the model keeps the text as written.

## Model

| member | source | states |
|---|---|---|
| Text.Split | src/gateway/sse.ts:66 | `split` always yields at least one piece |
| Text.SplitPiecesHaveNoSeparator | src/gateway/sse.ts:66 | no piece of a split contains the separator |
| Text.JoinSplit | src/gateway/sse.ts:66 | joining the pieces with the separator gives back the text (split loses nothing) |
| Text.SplitJoin | src/gateway/sse.ts:66 | splitting a join of separator-free pieces gives back the pieces |
| Text.JoinEmptyHead | src/gateway/sse.ts:71 | a join whose first piece is empty starts with the separator, then the join of the rest |
| Text.JoinCharHead | src/gateway/sse.ts:71 | a join starts with the first character of its first piece, then the join with that character dropped |
| Text.SplitSeparatorFirst | src/gateway/sse.ts:66 | a leading separator yields an empty first piece before the pieces of the rest |
| Text.SplitOtherFirst | src/gateway/sse.ts:66 | any other leading character is prepended to the first piece of the rest |
| Text.TrimStartSpec | src/gateway/sse.ts:72 | the result is a suffix of the input, does not start with whitespace, and only whitespace was removed |
| Text.TrimEndSpec | src/gateway/sse.ts:72 | the result is a prefix of the input, does not end with whitespace, and only whitespace was removed |
| Text.TrimIsCore | src/gateway/sse.ts:72 | `trim` yields a contiguous slice of the input, with whitespace-only text on both sides and no whitespace at either end |
| Text.TrimIdempotent | src/gateway/sse.ts:72 | trimming twice is trimming once |
| Text.DigitChar | src/gateway/sse.ts:34 | the character is the decimal digit of the value |
| Text.NatToString | src/gateway/sse.ts:34 | the decimal text is non-empty, all digits, and has no leading zero except for 0 |
| Text.DigitValue | src/gateway/sse.ts:34 | a digit's value is below ten |
| Text.ParseNatToString | src/graph/agent.ts:175 | reading the decimal text back gives the number |
| Text.NatToStringInjective | src/graph/tools.ts:17 | distinct numbers have distinct decimal texts |
| Text.Join | src/gateway/sse.ts:71-72 | `parts.join(sep)`: "" for no parts, the piece itself for one, pieces separated by `sep` otherwise; `JoinSplit` and `SplitJoin` make it the inverse of `Split` |
| Text.IsJsWhitespace | src/gateway/sse.ts:72 | the ECMAScript WhiteSpace and LineTerminator characters `trim` removes |
| Text.TrimStart | src/gateway/sse.ts:72 | `trimStart`: whitespace removed from the front; characterised by `TrimStartSpec` |
| Text.TrimEnd | src/gateway/sse.ts:72 | `trimEnd`: whitespace removed from the back; characterised by `TrimEndSpec` |
| Text.Trim | src/gateway/sse.ts:72-76 | `trim`, both ends; characterised by `TrimIsCore` and `TrimIdempotent` |
| Sse.BoundaryIndexFrom | src/gateway/sse.ts:57 | the search from `k` gives -1 or an index at or after `k` with room for "\n\n" |
| Sse.BoundaryIndex | src/gateway/sse.ts:57 | `indexOf("\n\n")` is -1 or a position with room for the delimiter |
| Sse.BoundaryIndexFromSpec | src/gateway/sse.ts:57 | the search from `k` finds the first "\n\n" at or after `k`, and -1 exactly when there is none |
| Sse.BoundaryIndexSpec | src/gateway/sse.ts:57 | `indexOf("\n\n")` is the first delimiter, and -1 exactly when the text has none |
| Sse.FramesStep | src/gateway/sse.ts:57-59 | one extraction cuts the text before the first delimiter off as a frame, and the buffer becomes the text after it |
| Sse.FramesDone | src/gateway/sse.ts:57 | with no delimiter no frame is extracted and the buffer stays |
| Sse.FramesReassemble | src/gateway/sse.ts:57-59 | the extracted frames, each followed by "\n\n", then the remaining buffer, give back the buffer before extraction |
| Sse.DelimitedStep | src/gateway/sse.ts:57-59 | the delimited frames start with the first frame and its "\n\n", then the delimited frames of what follows |
| Sse.SplitAtBoundary | src/gateway/sse.ts:57-59 | the text is the first frame, "\n\n" and the text after the delimiter |
| Sse.NoBoundaryLeft | src/gateway/sse.ts:57 | after the inner loop neither the buffer nor any extracted frame contains "\n\n" |
| Sse.BoundaryIndexAppend | src/gateway/sse.ts:53-57 | appending text does not move an existing first delimiter |
| Sse.FramesAppend | src/gateway/sse.ts:46-59 | reading `s + t` extracts the frames of `s`, then the frames of what remained of `s` followed by `t`: the chunking of the stream does not change the frames |
| Sse.ApplyLineFields | src/gateway/sse.ts:69-77 | an `event:` or `id:` line sets that field to the trimmed value after the prefix, and lines that are not `data:` lines leave the data alone |
| Sse.FrameEvent | src/gateway/sse.ts:61-83 | a frame starting with ':' yields no event; a non-comment frame yields its record exactly when the record's data is non-empty |
| Sse.EventsOfSnoc | src/gateway/sse.ts:57-83 | handling one more frame extends the delivered events by that frame's events |
| Sse.EventsOfOne | src/gateway/sse.ts:81-83 | a single frame delivers its own event, if any |
| Sse.EventsOfAppend | src/gateway/sse.ts:57-83 | the events of consecutive frames are the events of each, in stream order |
| Sse.EventsOfBounds | src/gateway/sse.ts:81-83 | at most one event per frame, and every delivered event has non-empty data |
| Sse.CutStep | src/gateway/sse.ts:57-59 | one pass of the inner loop: the frames of the whole input are those cut so far, the new frame, then the frames of the shortened buffer; the final remainder is unchanged |
| Sse.DeliverStep | src/gateway/sse.ts:81-83 | dispatching one more frame extends the deliveries to those of the frames cut so far plus that frame |
| Sse.ReadStep | src/gateway/sse.ts:46-59 | one more chunk read: the frames, remainder and events of the stream so far plus that chunk are those of the buffer plus that chunk |
| Sse.DropLeadingEmpty | src/gateway/sse.ts:71 | what remains starts with a non-empty value, or is empty |
| Sse.DropLeadingEmptyAppend | src/gateway/sse.ts:71-72 | a further value is kept after a non-empty one, and dropped while everything so far was empty |
| Sse.JoinAppend | src/gateway/sse.ts:71-72 | adding a value to a non-empty list adds the separator and the value |
| Sse.JoinNonEmpty | src/gateway/sse.ts:71 | a join whose first piece is non-empty is non-empty |
| Sse.DataIsJoinedValues | src/gateway/sse.ts:69-72 | the data is the trimmed `data:` values joined by "\n", with no separator for values arriving while the data is still empty |
| Sse.EventIsLastEventLine | src/gateway/sse.ts:73-74 | `event` is the trimmed value of the last `event:` line, and undefined without one |
| Sse.IdIsLastIdLine | src/gateway/sse.ts:75-76 | `id` is the trimmed value of the last `id:` line, and undefined without one |
| Sse.OtherLinesIgnored | src/gateway/sse.ts:68-79 | dropping every line that is not a `data:`, `event:` or `id:` line leaves the record unchanged |
| Sse.ReadFrame | src/gateway/sse.ts:65-79 | the `for` loop over the lines builds exactly the frame's record |
| Sse.SseReader.constructor | src/gateway/sse.ts:43 | an empty buffer and nothing delivered |
| Sse.SseReader.Feed | src/gateway/sse.ts:53-84 | after a chunk the buffer is what follows the last delimiter of old buffer + chunk, and the delivered events grow by the events of its complete frames |
| Sse.SseReader.Dispatch | src/gateway/sse.ts:61-83 | one frame delivers its event, if any, and nothing else |
| Sse.SseReader.ProcessStream | src/gateway/sse.ts:45-86 | after all chunks the buffer and deliveries are those of the concatenated stream, whatever the chunking |
| Sse.FetchSse | src/gateway/sse.ts:20-97 | an ok response with a body delivers exactly the events of the body's complete frames; a failed fetch, non-ok status or null body delivers nothing and routes its message to `onError` when given, otherwise to the console |
| Sse.NoBoundaryNoEvents | src/gateway/sse.ts:46-59 | a stream without "\n\n" delivers nothing, and its trailing fragment stays in the buffer |
| Sse.Frames | src/gateway/sse.ts:57-59 | the frames the inner loop cuts off, in order: the text before each first "\n\n"; pinned down by `FramesStep`, `FramesDone`, `FramesReassemble` and `FramesAppend` |
| Sse.Remainder | src/gateway/sse.ts:57-59 | what the inner loop leaves in the buffer: the text after the last cut "\n\n"; `NoBoundaryLeft` shows it holds no delimiter |
| Sse.IsDataLine | src/gateway/sse.ts:69 | `line.startsWith("data:")` |
| Sse.IsEventLine | src/gateway/sse.ts:73 | `line.startsWith("event:")` |
| Sse.IsIdLine | src/gateway/sse.ts:75 | `line.startsWith("id:")` |
| Sse.ApplyLine | src/gateway/sse.ts:68-77 | one pass of the line loop: a `data:` line appends its trimmed value after a "\n" once data is non-empty, `event:` and `id:` overwrite their field, other lines change nothing; `ApplyLineFields` states the per-field effect |
| Sse.ReadLines | src/gateway/sse.ts:65-79 | the record after the lines, read in order from `{data: ""}`; `DataIsJoinedValues`, `EventIsLastEventLine`, `IdIsLastIdLine` and `OtherLinesIgnored` characterise it |
| Sse.FrameRecord | src/gateway/sse.ts:65-79 | the record of a frame split on "\n"; `ReadFrame` proves the loop builds it |
| Sse.Delivered | src/gateway/sse.ts:81-83 | what `onMessage` receives for one frame: its event or nothing; `EventsOfBounds` bounds it |
| Sse.HttpErrorMessage | src/gateway/sse.ts:34 | the message thrown for a non-ok status, with the status in decimal |
| Jira.LoadConfig | src/gateway/jira.ts:5-11 | the configuration loads exactly when domain, email and token are all truthy; otherwise the module fails with the missing-configuration message |
| Jira.TableLayout | src/gateway/jira.ts:37-66 | header row first when there is a header, its cells `tableHeader`s with strong text; then the body rows in order with plain `tableCell`s; missing text becomes "" |
| Jira.ConvertToken | src/gateway/jira.ts:21-70 | a token yields a block exactly when it is a paragraph, heading or table |
| Jira.MarkdownToAdf | src/gateway/jira.ts:72 | the document's version is 1 |
| Jira.BlockCount | src/gateway/jira.ts:69-70 | one block per supported token, so never more blocks than tokens, and as many exactly when every token is supported |
| Jira.BlocksAppend | src/gateway/jira.ts:21-70 | the conversion follows token order |
| Jira.RowRoundTrip | src/gateway/jira.ts:38-63 | the cell texts of a converted header or body row read back, in order, with missing text as "" |
| Jira.TokenRoundTrip | src/gateway/jira.ts:22-66 | a paragraph, heading (text and depth) or table (header and rows, in order) reads back from its block |
| Jira.HeaderTableRoundTrip | src/gateway/jira.ts:37-66 | a table with a header reads back its header cells, then each body row, in order |
| Jira.PlainTableRoundTrip | src/gateway/jira.ts:37-66 | a table without a header reads back its body rows in order, its first row not taken for a header |
| Jira.ReadBackCons | src/gateway/jira.ts:21-70 | reading back extends block by block |
| Jira.DocumentRoundTrip | src/gateway/jira.ts:18-73 | reading the document back gives exactly the supported tokens, in token order |
| Jira.IfTruthy | src/gateway/jira.ts:154-160 | a field is present exactly when its value is truthy, and then carries that value |
| Jira.BuildFields | src/gateway/jira.ts:129-162 | issue type defaults to "Task" and priority to "Medium" when omitted; dates and parent present exactly when truthy, and then the given values; priority only when non-empty; methodology only when non-empty, as `{value}` options in order; the other fields copied |
| Jira.AssigneeId | src/gateway/jira.ts:80-96 | the first account's id; the "no user" error when the search finds none; the search's own failure when it fails |
| Jira.AxiosDetail | src/gateway/jira.ts:186-187 | the joined `errorMessages` when that text is non-empty, otherwise the error's message |
| Jira.ThrownMessage | src/gateway/jira.ts:184-191 | axios failures are rethrown as the prefix plus the detail, other errors unchanged |
| Jira.UrlRoundTrip | src/gateway/jira.ts:182 | the issue key reads back from the browse URL |
| Jira.SendIssue | src/gateway/jira.ts:128-193 | a body is posted exactly when the assignee lookup succeeds, and it is the built fields with the converted description; an issue and its browse URL result exactly when the POST then succeeds; otherwise the thrown message is the search failure's, the no-account message, or the POST failure's, each through the Axios mapping |
| Jira.NoAccountNoIssue | src/gateway/jira.ts:88-95 | an email no account matches posts nothing and fails with the "no user" message |
| Jira.FirstAccountAssigned | src/gateway/jira.ts:95 | with several matches the first account is the assignee |
| Jira.RemoteDetailReported | src/gateway/jira.ts:184-191 | a rejected POST's error messages are joined into the thrown message; a non-axios error is rethrown as is |
| Jira.CellText | src/gateway/jira.ts:44 | `cell.text || ""`: missing text becomes "" |
| Jira.HeaderCell | src/gateway/jira.ts:52-62 | a header cell: `tableHeader` holding a paragraph whose text is strong; `TableLayout` and `RowRoundTrip` state its shape and readback |
| Jira.BodyCell | src/gateway/jira.ts:40-46 | a body cell: `tableCell` holding a paragraph of plain text |
| Jira.HeaderRow | src/gateway/jira.ts:50-63 | the header `tableRow`, one header cell per header cell of the token, in order |
| Jira.BodyRow | src/gateway/jira.ts:38-47 | a body `tableRow`, one cell per cell of the row, in order |
| Jira.ConvertTable | src/gateway/jira.ts:37-66 | a table block: the body rows, with the header row put in front when there is a header; `TableLayout`, `HeaderTableRoundTrip` and `PlainTableRoundTrip` state it |
| Jira.Supported | src/gateway/jira.ts:22-69 | the token types the conversion keeps: paragraph, heading and table |
| Jira.Blocks | src/gateway/jira.ts:21-70 | `tokens.map(...).filter(Boolean)`: one block per supported token, in order; `BlockCount`, `BlocksAppend` and `DocumentRoundTrip` state it |
| Jira.OrDefault | src/gateway/jira.ts:129-140 | a destructuring default: only an omitted property takes the default |
| Jira.NoAccountMessage | src/gateway/jira.ts:92 | the message thrown when the user search finds no account, naming the email (with the text as written in the source) |
| Jira.IssueUrl | src/gateway/jira.ts:182 | the browse URL of a new issue; `UrlRoundTrip` recovers the key from it |
| State.ReduceMessages | src/graph/state.ts:9 | lengths add; the old messages are a prefix and the new ones the rest |
| State.ReduceUserName | src/graph/state.ts:15 | the new value wins whatever the current one |
| State.Apply | src/graph/state.ts:7-18 | keys an update leaves out keep their value; messages go through the concatenating reducer; a given user name overwrites |
| State.DefaultIsIdentity | src/graph/state.ts:9-10 | the default empty list is an identity of the messages reducer on both sides |
| State.ApplyTwice | src/graph/state.ts:7-18 | applying two updates in turn equals applying their combination once |
| State.UserNameIdempotent | src/graph/state.ts:15-16 | setting the same user name twice is setting it once |
| State.MessagesOnlyGrow | src/graph/state.ts:9 | no update loses messages |
| Tools.SchemaIssues | src/graph/tools.ts:25-35 | a required key is reported exactly when it is not a string argument, and `issueType` exactly when it is given and not a string |
| Tools.ParseArgs | src/graph/tools.ts:25-35 | a rejection names at least one key |
| Tools.ParseArgsAccepts | src/graph/tools.ts:25-35 | the schema accepts exactly when the three required fields are strings and `issueType` is absent or a string; accepted values are kept and `issueType` defaults to "Task" |
| Tools.IssueNumber | src/graph/tools.ts:17 | the issue number is between 1 and 1000 |
| Tools.ReplyNamesIdTwice | src/graph/tools.ts:17-20 | the reply is "Issue " + id, the fixed middle and browse prefix, then the same id |
| Tools.ReplyDeterminedByNumber | src/graph/tools.ts:9-21 | the reply depends only on the issue number, and distinct numbers give distinct replies |
| Tools.Invoke | src/graph/tools.ts:8-37 | the tool replies exactly when the schema accepts the arguments, with the reply for the parsed arguments |
| Tools.FindTool | src/graph/tools.ts:23-39 | a call finds a registered tool exactly when it names "create_jira_issue" |
| Tools.IsStringArg | src/graph/tools.ts:26-28 | a required schema key: present and a string |
| Tools.IssueTypeValid | src/graph/tools.ts:29-34 | `issueType` is optional: absent, or a string |
| Tools.IssueId | src/graph/tools.ts:17 | `JIRA-` followed by the issue number in decimal |
| Tools.Reply | src/graph/tools.ts:17-20 | the tool's reply: the id, then the browse URL ending in the same id; `ReplyNamesIdTwice` and `ReplyDeterminedByNumber` state it |
| Agent.PromptNamesUser | src/graph/agent.ts:51-62 | the prompt names the user exactly when the user name is truthy, and then names that user, between the fixed text before and after |
| Agent.PromptDistinguishesUsers | src/graph/agent.ts:56-60 | equal prompts have the same truthiness of user name and, when truthy, the same name |
| Agent.CallModelNode | src/graph/agent.ts:45-118 | the node's update is the model's single reply to the system prompt followed by the conversation, and leaves the user name alone |
| Agent.AgentTurnAppendsReply | src/graph/agent.ts:114-117 | an agent turn adds exactly one message, the model's reply; the system message is never stored |
| Agent.ShouldContinue | src/graph/agent.ts:124-136 | routes to the tools exactly when the last message is an AI message with tool calls; an empty history ends |
| Agent.RunExtends | src/graph/agent.ts:139-144 | a run that has not reached END, extended by the node the edges allow after its last step, is still a run |
| Agent.ToolsReturnToAgent | src/graph/agent.ts:144 | in a run the tool node is always followed by the agent |
| Agent.RunGraph | src/graph/agent.ts:139-150 | the loop's trace is a run: nodes in the order of the edges, never past END, each state the previous one after its node; it finishes exactly after an agent turn asking for no tools, and otherwise uses up the fuel; messages only grow and the user name stays |
| Agent.ThreadId | src/graph/agent.ts:175 | the given thread id when truthy, otherwise the decimal text of the clock reading, which reads back as that reading |
| Agent.FinalReply | src/graph/agent.ts:178-182 | the last message's content when it is an AI message, otherwise the fixed fallback text |
| Agent.FreshThreadStart | src/graph/agent.ts:166-169 | on a thread with nothing saved the run starts from exactly the input as a human message, with the given user name |
| Agent.RunAgent | src/graph/agent.ts:161-183 | the graph is run from the thread's saved state with the input merged in: the trace is a run from that state and `final` its last state; a reply is given exactly when the run reached END, and it is the last AI message's text; otherwise the fuel was used up; the saved messages plus the input are a prefix of the final messages and the user name is the given one |
| Agent.NameSentence | src/graph/agent.ts:56-60 | the sentence naming a truthy user name, else a bare "\n" |
| Agent.SystemPrompt | src/graph/agent.ts:51-112 | the fixed head, the name sentence, the fixed tail; `PromptNamesUser` and `PromptDistinguishesUsers` state what it carries |
| Agent.AgentUpdate | src/graph/agent.ts:114-117 | the agent node's update: the model's reply to the system message followed by the history; `AgentTurnAppendsReply` states its effect |
| Agent.ToolsUpdate | src/graph/agent.ts:121 | the tool node's update: the tool messages for the history |
| Agent.WantsTools | src/graph/agent.ts:128-132 | the last message is an AI message with at least one tool call |
| Agent.Step | src/graph/agent.ts:139-144 | the state after running one node, merged through the reducers |
| Agent.FollowsEdges | src/graph/agent.ts:139-144 | the order of nodes the edges allow: START to agent, agent to tools exactly when tools were asked for, agent to END otherwise, tools back to agent |
| Agent.IsRun | src/graph/agent.ts:139-144 | a run of the graph: nodes in the order of the edges, each state the previous one after its node |
| Agent.NoStepAfterEnd | src/graph/agent.ts:124-144 | a run that reached END (an agent turn asking for no tools) has no further step |
| Agent.EdgesStopAtEnd | src/graph/agent.ts:124-135 | after an agent turn that asked for no tools the edges allow no node at all |
| Agent.InputUpdate | src/graph/agent.ts:166-169 | the graph's input: the user's message as a human message, and the user name |
| Db.ExpirationIsOneWeek | src/db.ts:7 | processed events expire after 604800 seconds |
| Db.Connect | src/db.ts:39-69 | getMongoClient's effect on the connection state: nothing changes without a URI or with a cached client; otherwise one more client is created, it is cached exactly when it connects, and the index state changes only then |
| Db.ConnectReuses | src/db.ts:47-51 | once a client is cached, a later connect changes nothing, whatever its outcomes would have been |
| Db.ProcessedEventsStore.constructor | src/db.ts:3-10 | no client and the index not ensured when the module loads |
| Db.ProcessedEventsStore.EnsureIndex | src/db.ts:12-37 | once ensured, nothing changes; otherwise the TTL index is created only when missing, and the flag is set only when the check (and any creation) succeeded |
| Db.ProcessedEventsStore.GetClient | src/db.ts:39-70 | no client without a URI; a cached client is returned without reconnecting; a new client is cached only after its connect succeeded, then the index is ensured, and the new connection state is the one `Connect` gives from the old (`ClientStep`) |
| Db.ProcessedEventsStore.IsEventProcessed | src/db.ts:72-88 | true exactly when a client is obtained, the lookup succeeds and the id is stored; never changes the stored ids; the connection state changes as in getting a client (`ClientStep`) |
| Db.ProcessedEventsStore.MarkEventAsProcessed | src/db.ts:90-105 | the id is stored exactly when a client is obtained and the insert succeeds; errors change nothing; the connection state changes as in getting a client (`ClientStep`) |
| Db.ProcessedEventsStore.Close | src/db.ts:109-120 | a successful close forgets the client and the index flag; without a client nothing changes |
| Db.MarkThenCheck | src/db.ts:72-105 | after a successful mark, the lookup finds the event |
| Db.Unconfigured | src/db.ts:39-105 | without a URI lookups say false and marks change nothing |
| Db.ProcessedEventsStore.Reachable | src/db.ts:39-64 | an operation gets a client: a URI is configured and a client is cached or the connect succeeds |
| Db.ProcessedEventsStore.ClientStep | src/db.ts:39-69 | the connection state after obtaining a client is the one `Connect` gives from the state before |
| SlackEvents.ThreadOf | src/slack-events.ts:29 | `thread_ts` when truthy, otherwise `ts` |
| SlackEvents.Classify | src/slack-events.ts:14-66 | the route of a body: verification, greeting, forwarding a user message (type "message", no bot id, no subtype, non-empty text), or a failure on an unparsable body or missing event |
| SlackEvents.Handle | src/slack-events.ts:9-126 | challenge echoed with 200; greeting sent without touching the store; a processed event answered "Event already processed" with no effect; otherwise status set, processor invoked, and the event marked only after a successful invoke, with 500 and no mark on a failed invoke; for a forwarded event the connection state is the one left by the lookup's `Connect` and, when the event is marked, the mark's `Connect` after it; other bodies 200 with no effect; failures 500 |
| SlackEvents.Redelivery | src/slack-events.ts:67-98 | with the database up, a second delivery of a forwarded message is answered "Event already processed" with no effect |
| SlackEvents.GreetingThread | src/slack-events.ts:39-40 | `assistant_thread?.thread_ts || event_ts` |
| SlackEvents.GreetingChannel | src/slack-events.ts:41 | `assistant_thread?.channel_id` |
| SlackEvents.GreetingUser | src/slack-events.ts:42 | `assistant_thread?.user_id` |
| SlackEvents.IsUserMessage | src/slack-events.ts:61-66 | a user's message: type "message", no bot id, no subtype, some text |

## Left out

- Byte decoding (`TextDecoder`), request headers and the `fetch` options: the body arrives as decoded text chunks.
- Sse.FetchSse: a `reader.read()` that rejects in mid-stream, and an `onMessage` that throws, are not modelled. Reads are taken to succeed and callbacks not to throw, so the events delivered before such an error are not captured.
- "\r\n" line endings: the code recognises only "\n\n" and "\n", and so does the model.
- The `marked` lexer: its tokens are the input. Only paragraph, heading and table tokens are told apart, and inline Markdown inside their text is not parsed.
- The axios transport is not modelled, and neither is Basic authentication with its base64 header.
  - The same goes for the query encoding of the user search, the API endpoint URLs and the JSON encoding of request and response bodies.
  - A search result that is not an array is not modelled: the accounts are a sequence.
- Logging (`console.*`) everywhere.
- The Gemini model, LangGraph's `StateGraph` executor, `ToolNode` and the MongoDB checkpointer are oracles.
  - Tool-result ordering inside `ToolNode` is not modelled.
- Agent.RunAgent: takes the system prompt's fixed text as a parameter, like the graph members it calls; the deployed agent always passes `Agent.Prompt`.
- Agent.RunAgent: the checkpointer is taken to merge the input into the thread's saved state with the state's reducers.
- Agent.RunAgent: when the graph has not reached its end within `fuel` node runs, the model returns no reply. The source shows no round cap, and whatever limit LangGraph applies is not modelled.
- `lastMessage.content as string`: message content is always text here.
- The system prompt's text is carried by `Agent.Prompt` as given in `src/graph/agent.ts:51-112`. The prompt lemmas hold for any fixed text before and after the name sentence.
- `Math.random` and `Date.now` are parameters, the random draw as a real in [0, 1).
- The zod error messages are not modelled: a rejection names the offending keys.
- The tool's console output of its arguments is not modelled: the tool makes no other use of them.
- MongoDB: TTL expiry is not modelled, so stored ids never disappear.
- Db.ProcessedEventsStore.constructor: an index already present under the TTL index's name is taken to be that index, with its field and expiry. The source checks only the name, so an index of that name with other options is a state the model does not start from.
  - Documents are a set of event ids, so duplicate documents are not distinguished.
  - The database and collection names are constants that no operation depends on.
  - The driver's own connection pooling and reconnection are not modelled.
- Db.ProcessedEventsStore.GetClient: a client whose connect failed is dropped without being closed, as in the source. Nothing about its resources is modelled.
- The greeting's Slack blocks, the user-name lookup and the Slack status and message calls (`src/slack.ts`) are effects in the log, not calls. `src/slack.ts` is not part of this model.
- The Lambda invoke payload is the parsed body itself, not its JSON text. `TARGET_LAMBDA_ARN` is not modelled.
- SlackEvents.Handle: a forwarded event's final set of stored ids is stated as "unchanged, or with the event id added after a successful invoke". The added case is pinned down only when the mark's connect and insert succeed.
- `src/slack-agent.ts` (the processing Lambda) and `lib/slack-jira-agent-stack.ts` (deployment) are not part of this model.
