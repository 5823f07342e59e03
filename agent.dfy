/** The LangGraph agent of src/graph/agent.ts: the system prompt, the
    model node, the routing decision, the agent/tools loop and `runAgent`.

    The chat model, the prebuilt tool node and the checkpointer are not
    modelled; they are function parameters: `model` maps the messages sent
    to it (system message first) to its reply, `toolNode` maps the
    conversation to the tool messages it appends, and `checkpoint` maps a
    thread id to the state saved for that thread. */
module Agent {
  import opened Wrappers
  import opened Text
  import opened State

  /* ---------------------------------------------------------------------- */
  /* The system prompt                                                       */
  /* ---------------------------------------------------------------------- */

  /** The prompt's role paragraph, before the user-name sentence. */
  const PromptHead: string :=
    "# Role\n"
    + "Eres un **Agente de "
    + "Product Management para "
    + "Jira**.  \n"
    + "Tu especialidad es "
    + "transformar texto libre "
    + "(español o inglés) en "
    + "artefactos **listos "
    + "para Jira** (épicas, "
    + "historias de usuario y "
    + "subtareas técnicas), "
    + "accionando las "
    + "herramienta "
    + "`create_jira_issue` "
    + "cuando corresponda."

  /** The opening of the user-name sentence: a space, then the words. */
  const NameIntro: string :=
    " "
    + "El usuario que te "
    + "esta haciendo la "
    + "petición se llama "

  /** The prompt's instructions, rules and context, after the user-name
      sentence. */
  const PromptTail: string :=
    "\n"
    + "# Instructions\n"
    + "1. **Detecta el tipo de "
    + "petición**  \n"
    + "   - **Épica** → "
    + "genera:  \n"
    + "     - **Título**  \n"
    + "     - **Descripción**  "
    + "\n"
    + "     - **Objetivo de "
    + "negocio**  \n"
    + "     - **Tech Lead**, "
    + "**Assignee**, "
    + "**Reporter**  \n"
    + "     - **Methodology**, "
    + "**Quarter**, "
    + "**Priority**, **Epic "
    + "type**  \n"
    + "     - **Release "
    + "note**, **Fix "
    + "versions**, **Env**  \n"
    + "     - **Definition of "
    + "Ready** y **Definition "
    + "of Done** "
    + "(etiquetas/“chips” que "
    + "usa el equipo)  \n"
    + "     - Cualquier otro "
    + "campo obligatorio que "
    + "exija Jira Cloud de "
    + "Kushki.\n"
    + "   - **Historia de "
    + "usuario** → genera:  \n"
    + "     - Formato “Como "
    + "\\<rol\\> quiero "
    + "\\<qué\\> para \\<por "
    + "qué\\>”.  \n"
    + "     - Tabla de "
    + "**criterios de "
    + "aceptación** con "
    + "columnas **Dado que | "
    + "Cuando | Entonces**.  \n"
    + "     - **Priority**, "
    + "**Components**, **Story "
    + "Points**.  \n"
    + "     - **Subtareas "
    + "técnicas** si es "
    + "necesario (API, BD, QA, "
    + "documentación…).  \n"
    + "2. **Uso de "
    + "herramientas**  \n"
    + "   - Después de que el "
    + "usuario **apruebe** la "
    + "épica o historias, "
    + "invoca:  \n"
    + "     - "
    + "`create_jira_issue` "
    + "para crear epicas, "
    + "historias y subtareas "
    + "(relacionándolas a la "
    + "épica) en Jira.  \n"
    + "   - Si la tarea "
    + "requiere desarrollo de "
    + "código, puedes usar la "
    + "herramienta "
    + "`send_task_to_developement`. "
    + "**Pregunta siempre al "
    + "usuario si desea enviar "
    + "la tarea al agente de "
    + "desarrollo antes de "
    + "usar esta "
    + "herramienta.**  \n"
    + "     - Puedes usarla "
    + "después de crear un "
    + "issue en Jira, "
    + "proporcionando el "
    + "`query` con todo el "
    + "markdown de la "
    + "historia, epica o "
    + "subtarea. \n"
    + "     - También puedes "
    + "usarla directamente "
    + "para una solicitud de "
    + "desarrollo de código "
    + "sin un issue de Jira "
    + "previo, proporcionando "
    + "solo el `query`. \n"
    + "3. **Solicitud de datos "
    + "faltantes**  \n"
    + "   - Si falta algún "
    + "campo requerido, "
    + "**pregunta "
    + "explícitamente** al "
    + "usuario antes de "
    + "ejecutar las "
    + "herramientas.  \n"
    + "   - Resume las "
    + "preguntas en una lista "
    + "clara y concisa.  \n"
    + "4. **Formato de "
    + "salida**  \n"
    + "   - Responde en "
    + "**Markdown**.  \n"
    + "   - Encierra tablas "
    + "con `|` y usa "
    + "encabezados `###` para "
    + "secciones principales.  "
    + "\n"
    + "   - Destaca los "
    + "nombres de campos "
    + "obligatorios en "
    + "**negritas** la primera "
    + "vez que aparezcan.\n"
    + "\n"
    + "# Rules\n"
    + "1. Responde en español "
    + "salvo que el usuario "
    + "escriba en otro "
    + "idioma.  \n"
    + "2. No inventes "
    + "requisitos ni valores; "
    + "adhiérete al input o a "
    + "buenas prácticas "
    + "explícitas.  \n"
    + "3. Pregunta como máximo "
    + "dos veces para aclarar "
    + "ambigüedades antes de "
    + "generar artefactos.  \n"
    + "4. Mantén consistencia "
    + "terminológica: "
    + "*branch*, "
    + "*comerceCode*, "
    + "*transaction-rule-processor*, "
    + "etc.  \n"
    + "5. Protege datos "
    + "sensibles; no reveles "
    + "credenciales ni "
    + "información interna no "
    + "solicitada.  \n"
    + "6. Longitud "
    + "recomendada: ≤ 400 "
    + "palabras por épica, ≤ "
    + "250 palabras por "
    + "historia.\n"
    + "\n"
    + "# Additional Context\n"
    + "- La instancia es "
    + "**Jira Cloud** con "
    + "flujo Kanban "
    + "estándard.  \n"
    + "- Campos de épica e "
    + "historia pueden variar; "
    + "pregúntalos si no "
    + "aparecen en la "
    + "entrada.  \n"
    + "- Kushki trabaja en "
    + "ambiente fintech y usa "
    + "Appian como consumidor "
    + "del API.  \n"
    + "- Normativa interna "
    + "exige **Definition of "
    + "Ready** con etiquetas: "
    + "“Tener sesiones de 3 "
    + "amigos”, “HU debe ser "
    + "INVEST”, etc.\n"
    + "\n"
    + "# Reducing "
    + "Hallucinations\n"
    + "- Señala cualquier "
    + "**suposición** (“Se "
    + "asume que…”) y pídele "
    + "al usuario "
    + "confirmarla.  \n"
    + "- No generes "
    + "identificadores API ni "
    + "esquemas BD que el "
    + "usuario no "
    + "proporcione.  \n"
    + "- Usa exactamente los "
    + "nombres de campos "
    + "enviados; si detectas "
    + "inconsistencias, "
    + "pregunta antes.  \n"
    + "- Antes de invocar "
    + "`create_jira_epic` o "
    + "`create_jira_issue`, "
    + "verifica que todos los "
    + "campos requeridos estén "
    + "presentes o hayan sido "
    + "aprobados por el "
    + "usuario.\n"

  /** The fixed text of the system prompt, around the user-name sentence.
      The nodes take it as a value; `runAgent` uses `Prompt`. */
  datatype PromptText = PromptText(head: string, tail: string)

  const Prompt: PromptText := PromptText(PromptHead, PromptTail)

  /** The sentence naming the user when the state has a truthy user name,
      else a bare line break. */
  function NameSentence(userName: Option<string>): string
  {
    if Truthy(userName) then NameIntro + userName.value + ".\n" else "\n"
  }

  /** The system prompt for a user name. */
  function SystemPrompt(text: PromptText, userName: Option<string>): string
  {
    text.head + NameSentence(userName) + text.tail
  }

  /** The user name a system prompt mentions, read back from the prompt. */
  function NameInPrompt(text: PromptText, p: string): Option<string>
  {
    var lead := text.head + NameIntro;
    var trail := ".\n" + text.tail;
    if |lead| + |trail| <= |p| && p[..|lead|] == lead && p[|p| - |trail|..] == trail
    then Some(p[|lead|..|p| - |trail|])
    else None
  }

  /** The prompt names the user exactly when the user name is truthy, and
      then names that user. */
  lemma {:induction false} PromptNamesUser(text: PromptText, userName: Option<string>)
    ensures NameInPrompt(text, SystemPrompt(text, userName)) == (if Truthy(userName) then userName else None)
  {
    var p := SystemPrompt(text, userName);
    var lead := text.head + NameIntro;
    var trail := ".\n" + text.tail;
    if Truthy(userName) {
      assert p == lead + userName.value + trail;
      assert p[..|lead|] == lead;
      assert p[|p| - |trail|..] == trail;
      assert p[|lead|..|p| - |trail|] == userName.value;
    } else {
      assert p == text.head + "\n" + text.tail;
      if |lead| <= |p| {
        assert p[|text.head|] == '\n';
        assert lead[|text.head|] == NameIntro[0];
        assert p[..|lead|] != lead;
      }
    }
  }

  /** Distinct truthy user names give distinct prompts, and a truthy user
      name never gives the prompt of a missing one. */
  lemma PromptDistinguishesUsers(text: PromptText, a: Option<string>, b: Option<string>)
    requires SystemPrompt(text, a) == SystemPrompt(text, b)
    ensures Truthy(a) <==> Truthy(b)
    ensures Truthy(a) ==> a == b
  {
    PromptNamesUser(text, a);
    PromptNamesUser(text, b);
  }

  /* ---------------------------------------------------------------------- */
  /* The nodes                                                               */
  /* ---------------------------------------------------------------------- */

  /** The agent node's update: the model, asked with the system prompt
      ahead of the conversation, adds its reply and nothing else. */
  function AgentUpdate(text: PromptText, s: AgentState, model: seq<Message> -> Message): Update
  {
    Update(Some([model([System(SystemPrompt(text, s.userName))] + s.messages)]), None)
  }

  /** `callModelNode`, building the prompt piece by piece. */
  method CallModelNode(text: PromptText, s: AgentState, model: seq<Message> -> Message) returns (u: Update)
    ensures u == AgentUpdate(text, s, model)
  {
    var content := text.head;
    if Truthy(s.userName) {
      content := content + NameIntro + s.userName.value + ".\n";
    } else {
      content := content + "\n";
    }
    content := content + text.tail;
    assert content == SystemPrompt(text, s.userName);
    var response := model([System(content)] + s.messages);
    u := Update(Some([response]), None);
  }

  /** A model turn appends exactly the model's reply: the system message
      reaches the model but is never stored, and the user name stays. */
  lemma AgentTurnAppendsReply(text: PromptText, s: AgentState, model: seq<Message> -> Message)
    ensures var r := Apply(s, AgentUpdate(text, s, model));
      && r.messages == s.messages + [model([System(SystemPrompt(text, s.userName))] + s.messages)]
      && |r.messages| == |s.messages| + 1
      && r.userName == s.userName
  {
  }

  /** The tool node's update: the tool messages it produces. */
  function ToolsUpdate(s: AgentState, toolNode: seq<Message> -> seq<Message>): Update
  {
    Update(Some(toolNode(s.messages)), None)
  }

  datatype Route = ToTools | ToEnd

  /** The last message is an AI message asking for at least one tool. */
  predicate WantsTools(messages: seq<Message>)
  {
    |messages| > 0 && messages[|messages| - 1].Ai? && |messages[|messages| - 1].toolCalls| > 0
  }

  /** `shouldContinueNode`. */
  function ShouldContinue(messages: seq<Message>): (r: Route)
    ensures r == ToTools <==> WantsTools(messages)
    ensures messages == [] ==> r == ToEnd
  {
    if |messages| == 0 then ToEnd
    else
      var last := messages[|messages| - 1];
      if last.Ai? && |last.toolCalls| > 0 then ToTools else ToEnd
  }

  /* ---------------------------------------------------------------------- */
  /* The graph                                                               */
  /* ---------------------------------------------------------------------- */

  datatype NodeName = AgentNode | ToolsNode

  /** The state after running one node. */
  function Step(text: PromptText, s: AgentState, node: NodeName, model: seq<Message> -> Message,
                toolNode: seq<Message> -> seq<Message>): AgentState
  {
    match node
    case AgentNode => Apply(s, AgentUpdate(text, s, model))
    case ToolsNode => Apply(s, ToolsUpdate(s, toolNode))
  }

  /** The state before step `i` of a run from `start`. */
  function Before(start: AgentState, states: seq<AgentState>, i: nat): AgentState
    requires i <= |states|
  {
    if i == 0 then start else states[i - 1]
  }

  /** The order of `trace` keeps to the graph's edges: it begins at the
      agent, the tool node runs exactly after an agent turn whose reply
      (in `states`) asked for tools, and an agent turn that asked for none
      is the last step (the graph has reached END). */
  predicate FollowsEdges(trace: seq<NodeName>, states: seq<AgentState>)
  {
    && |trace| == |states|
    && (|trace| > 0 ==> trace[0] == AgentNode)
    && (forall i :: 0 < i < |trace| ==>
          (trace[i] == ToolsNode <==> trace[i - 1] == AgentNode && WantsTools(states[i - 1].messages)))
    && (forall i :: 0 <= i < |trace| - 1 ==> trace[i] == ToolsNode || WantsTools(states[i].messages))
  }

  /** `trace` and `states` are a run of the graph from `start`: the nodes
      follow the edges, and each state is the one before it after the
      node run. */
  predicate IsRun(text: PromptText, start: AgentState, trace: seq<NodeName>, states: seq<AgentState>,
                  model: seq<Message> -> Message, toolNode: seq<Message> -> seq<Message>)
  {
    && FollowsEdges(trace, states)
    && (forall i :: 0 <= i < |trace| ==> states[i] == Step(text, Before(start, states, i), trace[i], model, toolNode))
  }

  /** A run grows by the node the edges allow after its last step. */
  lemma RunExtends(text: PromptText, start: AgentState, trace: seq<NodeName>, states: seq<AgentState>,
                   model: seq<Message> -> Message, toolNode: seq<Message> -> seq<Message>, node: NodeName)
    requires IsRun(text, start, trace, states, model, toolNode)
    requires |trace| == 0 ==> node == AgentNode
    requires |trace| > 0 ==>
               (node == ToolsNode <==> trace[|trace| - 1] == AgentNode && WantsTools(states[|states| - 1].messages))
    requires |trace| > 0 ==> trace[|trace| - 1] == ToolsNode || WantsTools(states[|states| - 1].messages)
    ensures IsRun(text, start, trace + [node],
                  states + [Step(text, Before(start, states, |states|), node, model, toolNode)], model, toolNode)
  {
    var trace', states' := trace + [node], states + [Step(text, Before(start, states, |states|), node, model, toolNode)];
    forall i | 0 <= i < |trace'|
      ensures states'[i] == Step(text, Before(start, states', i), trace'[i], model, toolNode)
    {
      assert Before(start, states', i) == Before(start, states, i);
      if i < |trace| {
        assert states'[i] == states[i] && trace'[i] == trace[i];
      }
    }
    forall i | 0 < i < |trace'|
      ensures trace'[i] == ToolsNode <==> trace'[i - 1] == AgentNode && WantsTools(states'[i - 1].messages)
    {
      assert trace'[i - 1] == trace[i - 1] && states'[i - 1] == states[i - 1];
      if i < |trace| {
        assert trace'[i] == trace[i];
      }
    }
    forall i | 0 <= i < |trace'| - 1
      ensures trace'[i] == ToolsNode || WantsTools(states'[i].messages)
    {
      assert trace'[i] == trace[i] && states'[i] == states[i];
    }
  }

  /** Nothing runs after END: a run whose last step is an agent turn that
      asked for no tools has no extension. */
  lemma NoStepAfterEnd(text: PromptText, start: AgentState, trace: seq<NodeName>, states: seq<AgentState>,
                       model: seq<Message> -> Message, toolNode: seq<Message> -> seq<Message>,
                       node: NodeName, next: AgentState)
    requires |trace| == |states| > 0
    requires trace[|trace| - 1] == AgentNode && !WantsTools(states[|states| - 1].messages)
    ensures !IsRun(text, start, trace + [node], states + [next], model, toolNode)
  {
    EdgesStopAtEnd(trace, states, node, next);
  }

  /** The edges allow no node after an agent turn that asked for no tools. */
  lemma EdgesStopAtEnd(trace: seq<NodeName>, states: seq<AgentState>, node: NodeName, next: AgentState)
    requires |trace| == |states| > 0
    requires trace[|trace| - 1] == AgentNode && !WantsTools(states[|states| - 1].messages)
    ensures !FollowsEdges(trace + [node], states + [next])
  {
    var trace', states' := trace + [node], states + [next];
    var i := |trace| - 1;
    assert trace'[i] == AgentNode && states'[i] == states[i];
    assert !(trace'[i] == ToolsNode || WantsTools(states'[i].messages));
  }

  /** In a run the tool node always hands back to the agent, and never
      runs twice in a row. */
  lemma ToolsReturnToAgent(text: PromptText, start: AgentState, trace: seq<NodeName>, states: seq<AgentState>,
                           model: seq<Message> -> Message, toolNode: seq<Message> -> seq<Message>)
    requires IsRun(text, start, trace, states, model, toolNode)
    ensures forall i :: 0 <= i < |trace| - 1 && trace[i] == ToolsNode ==> trace[i + 1] == AgentNode
  {
    forall i | 0 <= i < |trace| - 1 && trace[i] == ToolsNode
      ensures trace[i + 1] == AgentNode
    {
      assert trace[i + 1] == ToolsNode ==> trace[i] == AgentNode;
    }
  }

  /** The graph `START -> agent`, `agent -> tools | END`, `tools -> agent`,
      run for at most `fuel` node executions. `trace` lists the nodes run,
      `states` the state after each, and `finished` says whether the run
      reached END, which it does right after an agent turn that asked for
      no tools. */
  method RunGraph(text: PromptText, start: AgentState, model: seq<Message> -> Message,
                  toolNode: seq<Message> -> seq<Message>, fuel: nat)
    returns (final: AgentState, trace: seq<NodeName>, states: seq<AgentState>, finished: bool)
    ensures IsRun(text, start, trace, states, model, toolNode)
    ensures |trace| <= fuel && (fuel > 0 ==> |trace| > 0)
    ensures final == Before(start, states, |states|)
    ensures finished <==> |trace| > 0 && trace[|trace| - 1] == AgentNode && !WantsTools(final.messages)
    ensures !finished ==> |trace| == fuel
    ensures start.messages <= final.messages && final.userName == start.userName
  {
    final, trace, states, finished := start, [], [], false;
    var next := AgentNode;
    while !finished && |trace| < fuel
      invariant IsRun(text, start, trace, states, model, toolNode)
      invariant |trace| <= fuel
      invariant |trace| == 0 ==> next == AgentNode && !finished
      invariant final == Before(start, states, |states|)
      invariant next == ToolsNode <==> |trace| > 0 && trace[|trace| - 1] == AgentNode && WantsTools(final.messages)
      invariant finished <==> |trace| > 0 && trace[|trace| - 1] == AgentNode && !WantsTools(final.messages)
      invariant start.messages <= final.messages && final.userName == start.userName
      decreases fuel - |trace|
    {
      var u: Update;
      if next == AgentNode {
        u := CallModelNode(text, final, model);
      } else {
        u := ToolsUpdate(final, toolNode);
      }
      var node, prev := next, final;
      assert |trace| > 0 ==> prev == states[|states| - 1];
      RunExtends(text, start, trace, states, model, toolNode, node);
      final := Apply(final, u);
      assert final == Step(text, prev, node, model, toolNode);
      MessagesOnlyGrow(prev, u);
      trace, states := trace + [node], states + [final];
      if node == ToolsNode {
        next := AgentNode;
      } else if ShouldContinue(final.messages) == ToTools {
        next := ToolsNode;
      } else {
        finished := true;
      }
    }
  }

  /* ---------------------------------------------------------------------- */
  /* runAgent                                                                */
  /* ---------------------------------------------------------------------- */

  const NoReply: string := "No se pudo obtener una respuesta del agente."

  /** `threadId || Date.now().toString()`, with the clock reading `now`. */
  function ThreadId(threadId: Option<string>, now: nat): (t: string)
    ensures Truthy(threadId) ==> t == threadId.value
    ensures !Truthy(threadId) ==> t == NatToString(now) && ParseDigits(t) == now
  {
    ParseNatToString(now);
    if Truthy(threadId) then threadId.value else NatToString(now)
  }

  /** The reply `runAgent` gives for the final messages. */
  function FinalReply(messages: seq<Message>): (r: string)
    ensures |messages| > 0 && messages[|messages| - 1].Ai? ==> r == messages[|messages| - 1].content
    ensures !(|messages| > 0 && messages[|messages| - 1].Ai?) ==> r == NoReply
  {
    if |messages| > 0 && messages[|messages| - 1].Ai? then messages[|messages| - 1].content else NoReply
  }

  /** The input `runAgent` gives the graph: the user's message and name. */
  function InputUpdate(input: string, userName: Option<string>): Update
  {
    Update(Some([Human(input)]), Some(userName))
  }

  /** On a thread with nothing saved the run starts from exactly one human
      message, the input, and the given user name. */
  lemma FreshThreadStart(input: string, userName: Option<string>)
    ensures Apply(Initial, InputUpdate(input, userName)) == AgentState([Human(input)], userName)
  {
  }

  /** `runAgent`: the state saved for the thread, with the input merged in,
      is run through the graph; the reply is None when the graph did not
      reach END within `fuel` steps. `text` is the system prompt's fixed
      text, `Prompt` in the deployed agent. */
  method RunAgent(text: PromptText, input: string, userName: Option<string>, threadId: Option<string>, now: nat,
                  checkpoint: string -> AgentState, model: seq<Message> -> Message,
                  toolNode: seq<Message> -> seq<Message>, fuel: nat)
    returns (thread: string, final: AgentState, trace: seq<NodeName>, states: seq<AgentState>,
             steps: nat, reply: Option<string>)
    ensures thread == ThreadId(threadId, now)
    ensures var start := Apply(checkpoint(thread), InputUpdate(input, userName));
      && IsRun(text, start, trace, states, model, toolNode)
      && final == Before(start, states, |states|)
    ensures steps == |trace| && steps <= fuel
    ensures reply.Some? <==> |trace| > 0 && trace[|trace| - 1] == AgentNode && !WantsTools(final.messages)
    ensures reply.Some? ==> reply.value == FinalReply(final.messages)
    ensures reply.None? ==> steps == fuel
    ensures checkpoint(thread).messages + [Human(input)] <= final.messages
    ensures final.userName == userName
  {
    thread := ThreadId(threadId, now);
    var start := Apply(checkpoint(thread), InputUpdate(input, userName));
    var finished;
    final, trace, states, finished := RunGraph(text, start, model, toolNode, fuel);
    steps := |trace|;
    if finished {
      reply := Some(FinalReply(final.messages));
    } else {
      reply := None;
    }
  }
}
