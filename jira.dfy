/** The Jira client of src/gateway/jira.ts: the Markdown-to-Atlassian-
    Document-Format conversion, the request body of an issue, the assignee
    lookup, the error messages and the browse URL.

    The Markdown lexer is not modelled: its output is the `Token` input.
    The two HTTP calls are not made: their results are inputs. */
module Jira {
  import opened Wrappers
  import opened Text

  /* ---------------------------------------------------------------------- */
  /* Configuration                                                           */
  /* ---------------------------------------------------------------------- */

  datatype JiraConfig = JiraConfig(domain: string, email: string, apiToken: string)

  const MissingConfigMessage: string := "Missing required Jira configuration in environment variables"

  /** Loading the module: all three settings must be truthy, otherwise the
      module throws. */
  function LoadConfig(domain: Option<string>, email: Option<string>, apiToken: Option<string>): (r: Result<JiraConfig, string>)
    ensures r.Ok? <==> Truthy(domain) && Truthy(email) && Truthy(apiToken)
    ensures r.Ok? ==> r.value == JiraConfig(domain.value, email.value, apiToken.value)
    ensures r.Err? ==> r.error == MissingConfigMessage
  {
    if !Truthy(domain) || !Truthy(email) || !Truthy(apiToken) then Err(MissingConfigMessage)
    else Ok(JiraConfig(domain.value, email.value, apiToken.value))
  }

  /* ---------------------------------------------------------------------- */
  /* Markdown tokens and ADF nodes                                           */
  /* ---------------------------------------------------------------------- */

  /** A table cell as the lexer gives it; its text may be missing. */
  datatype Cell = Cell(text: Option<string>)

  /** The lexer tokens the conversion distinguishes; every other token type
      is `Other`. */
  datatype Token =
    | Paragraph(text: string)
    | Heading(depth: nat, text: string)
    | Table(header: Option<seq<Cell>>, rows: seq<seq<Cell>>)
    | Other(kind: string)

  datatype Mark = Strong

  /** ADF block and inline nodes; a text node without marks is written
      without a `marks` key. */
  datatype Node =
    | TextNode(text: string, marks: seq<Mark>)
    | ParagraphNode(content: seq<Node>)
    | HeadingNode(level: nat, content: seq<Node>)
    | TableNode(content: seq<Node>)
    | TableRowNode(content: seq<Node>)
    | TableHeaderNode(content: seq<Node>)
    | TableCellNode(content: seq<Node>)

  /** `{type: "doc", version, content}`. */
  datatype Doc = Doc(version: nat, content: seq<Node>)

  /** `cell.text || ""`. */
  function CellText(c: Cell): string
  {
    if Truthy(c.text) then c.text.value else ""
  }

  function HeaderCell(c: Cell): Node
  {
    TableHeaderNode([ParagraphNode([TextNode(CellText(c), [Strong])])])
  }

  function BodyCell(c: Cell): Node
  {
    TableCellNode([ParagraphNode([TextNode(CellText(c), [])])])
  }

  function HeaderRow(header: seq<Cell>): Node
  {
    TableRowNode(seq(|header|, j requires 0 <= j < |header| => HeaderCell(header[j])))
  }

  function BodyRow(row: seq<Cell>): Node
  {
    TableRowNode(seq(|row|, j requires 0 <= j < |row| => BodyCell(row[j])))
  }

  /** A table: the body rows in order, preceded by the header row when the
      token has a header (an empty header array is truthy too). */
  function ConvertTable(header: Option<seq<Cell>>, rows: seq<seq<Cell>>): Node
  {
    var body := seq(|rows|, i requires 0 <= i < |rows| => BodyRow(rows[i]));
    TableNode(if header.Some? then [HeaderRow(header.value)] + body else body)
  }

  /** The layout of a table: the header row first when there is a header,
      each of its cells a `tableHeader` whose text is marked strong; then
      one row per body row, in order, each cell a plain `tableCell`; a
      missing cell text becomes "". */
  lemma TableLayout(header: Option<seq<Cell>>, rows: seq<seq<Cell>>)
    ensures var n, off := ConvertTable(header, rows), if header.Some? then 1 else 0;
      && |n.content| == off + |rows|
      && (header.Some? ==> |n.content[0].content| == |header.value|)
      && (header.Some? ==> forall j :: 0 <= j < |header.value| ==>
            n.content[0].content[j] == TableHeaderNode([ParagraphNode([TextNode(CellText(header.value[j]), [Strong])])]))
      && (forall i :: 0 <= i < |rows| ==> |n.content[off + i].content| == |rows[i]|)
      && (forall i, j :: 0 <= i < |rows| && 0 <= j < |rows[i]| ==>
            n.content[off + i].content[j] == TableCellNode([ParagraphNode([TextNode(CellText(rows[i][j]), [])])]))
  {
  }

  predicate Supported(t: Token)
  {
    t.Paragraph? || t.Heading? || t.Table?
  }

  /** The block for one token, or None for a token type the conversion
      drops. */
  function ConvertToken(t: Token): (r: Option<Node>)
    ensures r.Some? <==> Supported(t)
  {
    match t
    case Paragraph(text) => Some(ParagraphNode([TextNode(text, [])]))
    case Heading(depth, text) => Some(HeadingNode(depth, [TextNode(text, [])]))
    case Table(header, rows) => Some(ConvertTable(header, rows))
    case Other(_) => None
  }

  /** `tokens.map(...).filter(Boolean)`. */
  function Blocks(tokens: seq<Token>): seq<Node>
  {
    if tokens == [] then []
    else
      (match ConvertToken(tokens[0]) case Some(n) => [n] case None => []) + Blocks(tokens[1..])
  }

  /** `markdownToADF`, given the lexer's tokens. */
  function MarkdownToAdf(tokens: seq<Token>): (d: Doc)
    ensures d.version == 1
  {
    Doc(1, Blocks(tokens))
  }

  /** The supported tokens, in order. */
  function SupportedTokens(tokens: seq<Token>): seq<Token>
  {
    if tokens == [] then []
    else (if Supported(tokens[0]) then [tokens[0]] else []) + SupportedTokens(tokens[1..])
  }

  /** Unsupported tokens are dropped and nothing else is: the document has
      one block per supported token, so at most one per token, and exactly
      one per token when every token is supported. */
  lemma {:induction false} BlockCount(tokens: seq<Token>)
    ensures |MarkdownToAdf(tokens).content| == |SupportedTokens(tokens)| <= |tokens|
    ensures |MarkdownToAdf(tokens).content| == |tokens| <==> forall i :: 0 <= i < |tokens| ==> Supported(tokens[i])
    decreases |tokens|
  {
    if tokens != [] {
      BlockCount(tokens[1..]);
      assert forall i :: 1 <= i < |tokens| ==> tokens[i] == tokens[1..][i - 1];
    }
  }

  /** The conversion follows token order: converting two runs of tokens one
      after the other is converting them together. */
  lemma {:induction false} BlocksAppend(a: seq<Token>, b: seq<Token>)
    ensures Blocks(a + b) == Blocks(a) + Blocks(b)
    decreases |a|
  {
    if a == [] {
      assert a + b == b;
    } else {
      assert (a + b)[0] == a[0];
      assert (a + b)[1..] == a[1..] + b;
      BlocksAppend(a[1..], b);
    }
  }

  /* ---------------------------------------------------------------------- */
  /* Reading a token back from its block                                     */
  /* ---------------------------------------------------------------------- */

  /** The single text of a paragraph holding one text node. */
  function ParagraphText(n: Node): Option<string>
  {
    if n.ParagraphNode? && |n.content| == 1 && n.content[0].TextNode? then Some(n.content[0].text) else None
  }

  /** The text of a header or body cell. */
  function CellNodeText(n: Node): Option<string>
  {
    if (n.TableHeaderNode? || n.TableCellNode?) && |n.content| == 1 then ParagraphText(n.content[0]) else None
  }

  function RowCells(row: Node): seq<Cell>
  {
    if row.TableRowNode? then
      seq(|row.content|, j requires 0 <= j < |row.content| => Cell(CellNodeText(row.content[j])))
    else []
  }

  /** A row whose cells are header cells, and which has at least one. */
  predicate IsHeaderRow(row: Node)
  {
    row.TableRowNode? && |row.content| > 0 && forall j :: 0 <= j < |row.content| ==> row.content[j].TableHeaderNode?
  }

  /** The token a block was made from, as far as the document shows it: a
      table's first row is its header when it is made of header cells. */
  function BlockToToken(n: Node): Option<Token>
  {
    match n
    case ParagraphNode(_) =>
      if ParagraphText(n).Some? then Some(Paragraph(ParagraphText(n).value)) else None
    case HeadingNode(level, content) =>
      if |content| == 1 && content[0].TextNode? then Some(Heading(level, content[0].text)) else None
    case TableNode(rows) =>
      if |rows| > 0 && IsHeaderRow(rows[0]) then
        Some(Table(Some(RowCells(rows[0])), seq(|rows| - 1, i requires 0 <= i < |rows| - 1 => RowCells(rows[i + 1]))))
      else
        Some(Table(None, seq(|rows|, i requires 0 <= i < |rows| => RowCells(rows[i]))))
    case _ => None
  }

  /** What the document keeps of a cell: its text, "" when it was missing. */
  function NormalCell(c: Cell): Cell
  {
    Cell(Some(CellText(c)))
  }

  function NormalRow(row: seq<Cell>): seq<Cell>
  {
    seq(|row|, j requires 0 <= j < |row| => NormalCell(row[j]))
  }

  /** What the document keeps of a token. */
  function Normalize(t: Token): Token
  {
    match t
    case Table(header, rows) =>
      Table(if header.Some? then Some(NormalRow(header.value)) else None,
            seq(|rows|, i requires 0 <= i < |rows| => NormalRow(rows[i])))
    case _ => t
  }

  /** A token the document can tell apart: not a table whose header array
      is empty (its header row would be an empty row, like an empty body
      row). */
  predicate Distinguishable(t: Token)
  {
    !(t.Table? && t.header == Some([]))
  }

  lemma RowRoundTrip(row: seq<Cell>)
    ensures RowCells(BodyRow(row)) == NormalRow(row)
    ensures RowCells(HeaderRow(row)) == NormalRow(row)
  {
  }

  /** A table with a header reads back as its header row and its body
      rows, in order. */
  lemma HeaderTableRoundTrip(header: seq<Cell>, rows: seq<seq<Cell>>)
    requires |header| > 0
    ensures BlockToToken(ConvertTable(Some(header), rows)) == Some(Normalize(Table(Some(header), rows)))
  {
    var body := seq(|rows|, i requires 0 <= i < |rows| => BodyRow(rows[i]));
    var n := ConvertTable(Some(header), rows);
    assert n.content == [HeaderRow(header)] + body;
    assert IsHeaderRow(n.content[0]);
    RowRoundTrip(header);
    var back := seq(|n.content| - 1, i requires 0 <= i < |n.content| - 1 => RowCells(n.content[i + 1]));
    var normal := seq(|rows|, i requires 0 <= i < |rows| => NormalRow(rows[i]));
    forall i | 0 <= i < |rows|
      ensures back[i] == normal[i]
    {
      assert n.content[i + 1] == BodyRow(rows[i]);
      RowRoundTrip(rows[i]);
    }
    assert back == normal;
  }

  /** A table without a header reads back as its body rows, in order: a
      body row never looks like a header row. */
  lemma PlainTableRoundTrip(rows: seq<seq<Cell>>)
    ensures BlockToToken(ConvertTable(None, rows)) == Some(Normalize(Table(None, rows)))
  {
    var n := ConvertTable(None, rows);
    assert |rows| > 0 ==> !IsHeaderRow(n.content[0]) by {
      if |rows| > 0 && |rows[0]| > 0 {
        assert n.content[0].content[0] == BodyCell(rows[0][0]);
      }
    }
    var back := seq(|n.content|, i requires 0 <= i < |n.content| => RowCells(n.content[i]));
    var normal := seq(|rows|, i requires 0 <= i < |rows| => NormalRow(rows[i]));
    forall i | 0 <= i < |rows|
      ensures back[i] == normal[i]
    {
      assert n.content[i] == BodyRow(rows[i]);
      RowRoundTrip(rows[i]);
    }
    assert back == normal;
  }

  /** Each supported token can be read back from its block, up to missing
      cell texts becoming "": paragraphs and headings keep their text and
      depth, tables keep their header and their rows in order. */
  lemma TokenRoundTrip(t: Token)
    requires Supported(t) && Distinguishable(t)
    ensures BlockToToken(ConvertToken(t).value) == Some(Normalize(t))
  {
    if t.Table? {
      if t.header.Some? {
        HeaderTableRoundTrip(t.header.value, t.rows);
      } else {
        PlainTableRoundTrip(t.rows);
      }
    }
  }

  function BlocksToTokens(blocks: seq<Node>): seq<Option<Token>>
  {
    seq(|blocks|, k requires 0 <= k < |blocks| => BlockToToken(blocks[k]))
  }

  function NormalizeAll(tokens: seq<Token>): seq<Option<Token>>
  {
    seq(|tokens|, k requires 0 <= k < |tokens| => Some(Normalize(tokens[k])))
  }

  lemma ReadBackCons(n: Node, blocks: seq<Node>, t: Token, tokens: seq<Token>)
    requires BlockToToken(n) == Some(Normalize(t))
    requires BlocksToTokens(blocks) == NormalizeAll(tokens)
    ensures BlocksToTokens([n] + blocks) == NormalizeAll([t] + tokens)
  {
    var l, r := BlocksToTokens([n] + blocks), NormalizeAll([t] + tokens);
    assert |blocks| == |BlocksToTokens(blocks)| == |tokens|;
    forall k | 0 <= k < |l| ensures l[k] == r[k] {
      if k > 0 {
        assert ([n] + blocks)[k] == blocks[k - 1];
        assert ([t] + tokens)[k] == tokens[k - 1];
        assert BlocksToTokens(blocks)[k - 1] == NormalizeAll(tokens)[k - 1];
      }
    }
  }

  /** Reading the whole document back gives the supported tokens, in
      token order. */
  lemma {:induction false} DocumentRoundTrip(tokens: seq<Token>)
    requires forall i :: 0 <= i < |tokens| ==> Distinguishable(tokens[i])
    ensures BlocksToTokens(MarkdownToAdf(tokens).content) == NormalizeAll(SupportedTokens(tokens))
    decreases |tokens|
  {
    if tokens != [] {
      assert forall i :: 0 <= i < |tokens| - 1 ==> tokens[1..][i] == tokens[i + 1];
      DocumentRoundTrip(tokens[1..]);
      var t := tokens[0];
      if Supported(t) {
        TokenRoundTrip(t);
        ReadBackCons(ConvertToken(t).value, Blocks(tokens[1..]), t, SupportedTokens(tokens[1..]));
        assert Blocks(tokens) == [ConvertToken(t).value] + Blocks(tokens[1..]);
        assert SupportedTokens(tokens) == [t] + SupportedTokens(tokens[1..]);
      } else {
        assert Blocks(tokens) == Blocks(tokens[1..]);
        assert SupportedTokens(tokens) == SupportedTokens(tokens[1..]);
      }
    }
  }

  /* ---------------------------------------------------------------------- */
  /* The request body                                                        */
  /* ---------------------------------------------------------------------- */

  /** `SendIssueInput`; None stands for an omitted optional property. */
  datatype IssueInput = IssueInput(
    projectKey: string,
    summary: string,
    description: string,
    issueType: Option<string>,
    assigneeEmailAddress: string,
    uatDeployDate: Option<string>,
    prodDeployDate: Option<string>,
    priority: Option<string>,
    methodology: Option<seq<string>>,
    parentIssueKey: Option<string>)

  /** `{value: m}`, one selected option of a multi-select field. */
  datatype SelectOption = SelectOption(value: string)

  /** `requestBody.fields`; each Option field is a key that is present only
      when Some: `customfield_11942` (UAT date), `customfield_11896`
      (production date), `priority`, `customfield_12155` (methodology) and
      `parent`. */
  datatype IssueFields = IssueFields(
    projectKey: string,
    summary: string,
    description: Doc,
    issueTypeName: string,
    assigneeId: string,
    uatDeployDate: Option<string>,
    prodDeployDate: Option<string>,
    priority: Option<string>,
    methodology: Option<seq<SelectOption>>,
    parentKey: Option<string>)

  const DefaultIssueType: string := "Task"
  const DefaultPriority: string := "Medium"

  /** `value ?? default` as a destructuring default: only an omitted
      property takes the default. */
  function OrDefault<T>(o: Option<T>, default: T): T
  {
    if o.Some? then o.value else default
  }

  /** The field if the value is truthy, else no key. */
  function IfTruthy(o: Option<string>): (r: Option<string>)
    ensures r.Some? <==> Truthy(o)
    ensures r.Some? ==> r == o
  {
    if Truthy(o) then o else None
  }

  /** The request body built in `sendIssue`, after the defaults. */
  function BuildFields(input: IssueInput, description: Doc, assigneeId: string): (f: IssueFields)
    ensures f.issueTypeName == OrDefault(input.issueType, DefaultIssueType)
    ensures input.issueType.None? ==> f.issueTypeName == "Task"
    ensures input.priority.None? ==> f.priority == Some("Medium")
    ensures input.priority.Some? ==> (f.priority.Some? <==> input.priority.value != "")
    ensures f.priority.Some? ==> f.priority.value == OrDefault(input.priority, DefaultPriority)
    ensures f.uatDeployDate.Some? <==> Truthy(input.uatDeployDate)
    ensures f.uatDeployDate.Some? ==> f.uatDeployDate == input.uatDeployDate
    ensures f.prodDeployDate.Some? <==> Truthy(input.prodDeployDate)
    ensures f.prodDeployDate.Some? ==> f.prodDeployDate == input.prodDeployDate
    ensures f.parentKey.Some? <==> Truthy(input.parentIssueKey)
    ensures f.parentKey.Some? ==> f.parentKey == input.parentIssueKey
    ensures f.methodology.Some? <==> input.methodology.Some? && |input.methodology.value| > 0
    ensures f.methodology.Some? ==> |f.methodology.value| == |input.methodology.value|
    ensures f.methodology.Some? ==>
              forall i :: 0 <= i < |f.methodology.value| ==> f.methodology.value[i].value == input.methodology.value[i]
    ensures f.projectKey == input.projectKey && f.summary == input.summary
    ensures f.description == description && f.assigneeId == assigneeId
  {
    var priority := OrDefault(input.priority, DefaultPriority);
    var methodology := OrDefault(input.methodology, []);
    IssueFields(
      input.projectKey,
      input.summary,
      description,
      OrDefault(input.issueType, DefaultIssueType),
      assigneeId,
      IfTruthy(input.uatDeployDate),
      IfTruthy(input.prodDeployDate),
      if priority != "" then Some(priority) else None,
      if |methodology| > 0
        then Some(seq(|methodology|, i requires 0 <= i < |methodology| => SelectOption(methodology[i])))
        else None,
      IfTruthy(input.parentIssueKey))
  }

  /* ---------------------------------------------------------------------- */
  /* The calls and their errors                                              */
  /* ---------------------------------------------------------------------- */

  /** A rejected axios call (with the response's `errorMessages`, if any)
      or any other thrown error. */
  datatype Failure =
    | AxiosError(errorMessages: Option<seq<string>>, message: string)
    | OtherError(message: string)

  /** An account the user search returned. */
  datatype Account = Account(accountId: string)

  function NoAccountMessage(email: string): string
  {
    "No se encontrÃ³ un usuario con el email: " + email
  }

  /** `getAssigneeUserID`: the first account the search returned; an error
      when it returned none; the search's own failure when it failed. */
  function AssigneeId(email: string, search: Result<seq<Account>, Failure>): (r: Result<string, Failure>)
    ensures search.Ok? && |search.value| > 0 ==> r == Ok(search.value[0].accountId)
    ensures search.Ok? && |search.value| == 0 ==> r == Err(OtherError(NoAccountMessage(email)))
    ensures search.Err? ==> r == Err(search.error)
  {
    match search
    case Err(e) => Err(e)
    case Ok(accounts) =>
      if |accounts| == 0 then Err(OtherError(NoAccountMessage(email))) else Ok(accounts[0].accountId)
  }

  const CreateErrorPrefix: string := "Error al crear el issue en Jira: "

  /** `errorMessages?.join(", ") || error.message`. */
  function AxiosDetail(errorMessages: Option<seq<string>>, message: string): (r: string)
    ensures errorMessages.Some? && Join(errorMessages.value, ", ") != "" ==> r == Join(errorMessages.value, ", ")
    ensures errorMessages.None? || Join(errorMessages.value, ", ") == "" ==> r == message
  {
    if errorMessages.Some? && Join(errorMessages.value, ", ") != "" then Join(errorMessages.value, ", ") else message
  }

  /** The message of the error `sendIssue` throws for a failure: axios
      errors are wrapped with the prefix and the remote detail, others are
      rethrown as they are. */
  function ThrownMessage(e: Failure): (m: string)
    ensures e.AxiosError? ==> m == CreateErrorPrefix + AxiosDetail(e.errorMessages, e.message)
    ensures e.OtherError? ==> m == e.message
  {
    match e
    case AxiosError(messages, message) => CreateErrorPrefix + AxiosDetail(messages, message)
    case OtherError(message) => message
  }

  const BrowseInfix: string := ".atlassian.net/browse/"

  function IssueUrl(domain: string, key: string): string
  {
    "https://" + domain + BrowseInfix + key
  }

  /** The key at the end of a browse URL of the domain. */
  function KeyOfUrl(domain: string, url: string): Option<string>
  {
    var prefix := "https://" + domain + BrowseInfix;
    if prefix <= url then Some(url[|prefix|..]) else None
  }

  /** The browse URL names the issue: the key can be read back from it. */
  lemma UrlRoundTrip(domain: string, key: string)
    ensures KeyOfUrl(domain, IssueUrl(domain, key)) == Some(key)
  {
    var prefix := "https://" + domain + BrowseInfix;
    assert IssueUrl(domain, key) == prefix + key;
    assert (prefix + key)[|prefix|..] == key;
  }

  datatype CreatedIssue = CreatedIssue(issueKey: string, issueUrl: string)

  /** What `sendIssue` did: the body it posted, if it got that far, and the
      issue or the message of the error it threw. */
  datatype SendTrace = SendTrace(posted: Option<IssueFields>, outcome: Result<CreatedIssue, string>)

  /** `sendIssue`: `tokens` is the lexer's reading of the description,
      `search` the user search's result and `post` the issue POST's result
      (the new key). The lookup comes first, so a failed lookup posts
      nothing. */
  function SendIssue(config: JiraConfig, input: IssueInput, tokens: seq<Token>,
                     search: Result<seq<Account>, Failure>, post: Result<string, Failure>): (t: SendTrace)
    ensures t.posted.Some? <==> AssigneeId(input.assigneeEmailAddress, search).Ok?
    ensures t.posted.Some? ==>
              t.posted.value == BuildFields(input, MarkdownToAdf(tokens), AssigneeId(input.assigneeEmailAddress, search).value)
    ensures t.outcome.Ok? <==> t.posted.Some? && post.Ok?
    ensures t.outcome.Ok? ==> t.outcome.value == CreatedIssue(post.value, IssueUrl(config.domain, post.value))
    ensures search.Err? ==> t.outcome == Err(ThrownMessage(search.error))
    ensures search.Ok? && |search.value| == 0 ==> t.outcome == Err(NoAccountMessage(input.assigneeEmailAddress))
    ensures search.Ok? && |search.value| > 0 && post.Err? ==> t.outcome == Err(ThrownMessage(post.error))
  {
    match AssigneeId(input.assigneeEmailAddress, search)
    case Err(e) => SendTrace(None, Err(ThrownMessage(e)))
    case Ok(id) =>
      var fields := BuildFields(input, MarkdownToAdf(tokens), id);
      match post
      case Ok(key) => SendTrace(Some(fields), Ok(CreatedIssue(key, IssueUrl(config.domain, key))))
      case Err(e) => SendTrace(Some(fields), Err(ThrownMessage(e)))
  }

  /** An email no account matches: the call fails with the lookup error
      and no issue is posted. */
  lemma NoAccountNoIssue(config: JiraConfig, input: IssueInput, tokens: seq<Token>, post: Result<string, Failure>)
    ensures var t := SendIssue(config, input, tokens, Ok([]), post);
      t.posted == None && t.outcome == Err(NoAccountMessage(input.assigneeEmailAddress))
  {
  }

  /** Several matching accounts: the first one is assigned. */
  lemma FirstAccountAssigned(config: JiraConfig, input: IssueInput, tokens: seq<Token>,
                             accounts: seq<Account>, post: Result<string, Failure>)
    requires |accounts| > 0
    ensures SendIssue(config, input, tokens, Ok(accounts), post).posted.value.assigneeId == accounts[0].accountId
  {
  }

  /** A rejected POST whose response lists error messages: they are joined
      into the thrown message. */
  lemma RemoteDetailReported(config: JiraConfig, input: IssueInput, tokens: seq<Token>, accounts: seq<Account>)
    requires |accounts| > 0
    ensures SendIssue(config, input, tokens, Ok(accounts), Err(AxiosError(Some(["Invalid project"]), "Request failed"))).outcome
      == Err("Error al crear el issue en Jira: Invalid project")
    ensures SendIssue(config, input, tokens, Ok(accounts), Err(OtherError("Network Error"))).outcome
      == Err("Network Error")
  {
    assert Join(["Invalid project"], ", ") == "Invalid project";
    assert CreateErrorPrefix + "Invalid project" == "Error al crear el issue en Jira: Invalid project";
  }
}
