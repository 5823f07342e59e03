/** The placeholder `create_jira_issue` tool of src/graph/tools.ts: its
    argument schema, its made-up issue id and its reply, and the tool
    registry the agent is bound to. */
module Tools {
  import opened Wrappers
  import opened Text
  import opened State

  const ToolName: string := "create_jira_issue"
  const ToolDescription: string := "Crea un nuevo issue en Jira con los detalles proporcionados."

  /** The arguments once the schema has accepted them. */
  datatype IssueArgs = IssueArgs(projectKey: string, summary: string, description: string, issueType: string)

  const DefaultIssueType: string := "Task"

  const RequiredKeys: seq<string> := ["projectKey", "summary", "description"]

  /** A required string argument: present and a string. */
  predicate IsStringArg(args: map<string, Arg>, key: string)
  {
    key in args && args[key].Str?
  }

  /** `issueType` is optional: absent, or a string. */
  predicate IssueTypeValid(args: map<string, Arg>)
  {
    "issueType" !in args || args["issueType"].Str?
  }

  /** The keys the schema rejects, in schema order. */
  function SchemaIssues(args: map<string, Arg>): (r: seq<string>)
    ensures forall k :: k in RequiredKeys ==> (k in r <==> !IsStringArg(args, k))
    ensures "issueType" in r <==> !IssueTypeValid(args)
  {
    (if IsStringArg(args, "projectKey") then [] else ["projectKey"])
    + (if IsStringArg(args, "summary") then [] else ["summary"])
    + (if IsStringArg(args, "description") then [] else ["description"])
    + (if IssueTypeValid(args) then [] else ["issueType"])
  }

  /** Parsing a call's arguments with the schema: unknown keys are dropped,
      an absent `issueType` becomes "Task", and any missing or non-string
      field rejects the call, naming every offending key. */
  function ParseArgs(args: map<string, Arg>): (r: Result<IssueArgs, seq<string>>)
    ensures r.Err? ==> |r.error| > 0
  {
    var issues := SchemaIssues(args);
    if issues != [] then Err(issues)
    else
      Ok(IssueArgs(args["projectKey"].s, args["summary"].s, args["description"].s,
                   if "issueType" in args then args["issueType"].s else DefaultIssueType))
  }

  /** The schema accepts exactly the calls whose three required fields are
      strings and whose `issueType`, if given, is a string; accepted
      fields keep their values. */
  lemma ParseArgsAccepts(args: map<string, Arg>)
    ensures ParseArgs(args).Ok? <==>
              IsStringArg(args, "projectKey") && IsStringArg(args, "summary")
              && IsStringArg(args, "description") && IssueTypeValid(args)
    ensures ParseArgs(args).Ok? ==>
              var a := ParseArgs(args).value;
              && Str(a.projectKey) == args["projectKey"] && Str(a.summary) == args["summary"]
              && Str(a.description) == args["description"]
              && a.issueType == (if "issueType" in args then args["issueType"].s else "Task")
  {
    var issues := SchemaIssues(args);
    if issues == [] {
      assert "projectKey" in RequiredKeys && "summary" in RequiredKeys && "description" in RequiredKeys;
    }
  }

  /** `Math.floor(Math.random() * 1000) + 1` for a random draw `r` in
      [0, 1). */
  function IssueNumber(r: real): (n: int)
    requires 0.0 <= r < 1.0
    ensures 1 <= n <= 1000
  {
    (r * 1000.0).Floor + 1
  }

  function IssueId(n: nat): string
  {
    "JIRA-" + NatToString(n)
  }

  const BrowsePrefix: string := "https://your-jira-instance.atlassian.net/browse/"
  const ReplyMiddle: string := " creado exitosamente. URL: "

  /** The tool's reply for issue number `n`; the arguments are only
      logged. */
  function Reply(args: IssueArgs, n: nat): string
  {
    "Issue " + IssueId(n) + ReplyMiddle + BrowsePrefix + IssueId(n)
  }

  /** The reply names one id, twice: once after "Issue " and once at the
      end of the URL. */
  lemma ReplyNamesIdTwice(args: IssueArgs, n: nat)
    ensures var r, id := Reply(args, n), IssueId(n);
      && r[..6 + |id|] == "Issue " + id
      && r[|r| - |id|..] == id
      && r[6 + |id|..|r| - |id|] == ReplyMiddle + BrowsePrefix
  {
    var id := IssueId(n);
    var r := Reply(args, n);
    assert r == "Issue " + id + (ReplyMiddle + BrowsePrefix) + id;
  }

  /** The reply depends on the issue number only, and distinct numbers
      give distinct replies. */
  lemma ReplyDeterminedByNumber(a: IssueArgs, b: IssueArgs, m: nat, n: nat)
    ensures Reply(a, n) == Reply(b, n)
    ensures Reply(a, m) == Reply(b, n) ==> m == n
  {
    if Reply(a, m) == Reply(b, n) {
      var r := Reply(a, m);
      ReplyNamesIdTwice(a, m);
      ReplyNamesIdTwice(b, n);
      var im, inn := IssueId(m), IssueId(n);
      assert |r| == 6 + |ReplyMiddle + BrowsePrefix| + 2 * |im|;
      assert |r| == 6 + |ReplyMiddle + BrowsePrefix| + 2 * |inn|;
      assert im == r[|r| - |im|..] == inn;
      assert NatToString(m) == im[5..] == inn[5..] == NatToString(n);
      NatToStringInjective(m, n);
    }
  }

  /** The reply the tool gives a call, or the schema's rejection. */
  function Invoke(args: map<string, Arg>, n: nat): (r: Result<string, seq<string>>)
    ensures r.Ok? <==> ParseArgs(args).Ok?
    ensures r.Ok? ==> r.value == Reply(ParseArgs(args).value, n)
  {
    match ParseArgs(args)
    case Ok(a) => Ok(Reply(a, n))
    case Err(e) => Err(e)
  }

  datatype ToolSpec = ToolSpec(name: string, description: string)

  /** `tools`: the only tool the model is bound to. */
  const Registry: seq<ToolSpec> := [ToolSpec(ToolName, ToolDescription)]

  /** The registered tool a call names, if any. */
  function FindTool(name: string): (r: Option<ToolSpec>)
    ensures r.Some? <==> name == "create_jira_issue"
    ensures r.Some? ==> r.value in Registry && r.value.name == name
  {
    if name == ToolName then Some(Registry[0]) else None
  }
}
