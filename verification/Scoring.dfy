/** Nodes, and how a task is placed on them. */
module Scoring {
  import opened Text
  import opened Contexts
  import opened ContextFit
  import opened Tasks

  datatype Status = Joining | Ready | Busy | Draining | Offline

  datatype Model = Model(clusterKey: string, parameterCountB: real, contextWindow: int, parallelSlots: int,
                         capabilities: set<TaskType>)

  /** The telemetry that scoring looks at. */
  datatype Resources = Resources(cpuPercent: Option<real>, onBattery: bool, decodeRate: Option<real>)

  datatype Node = Node(id: string, isServer: bool, status: Status, model: Option<Model>,
                       resources: Option<Resources>, currentTask: Option<string>, lastHeartbeat: Option<int>,
                       offlineSince: Option<int>, lastTaskSeconds: int)

  datatype Session = Session(clusterKey: string, pinnedNode: Option<string>)

  /** What scheduling reads besides the table: sessions, and their logs. */
  datatype World = World(sessions: map<string, Session>, logs: map<string, seq<Item>>)

  /** `parallel_slots or 1`. */
  function Slots(model: Model): int
  {
    if model.parallelSlots == 0 then 1 else model.parallelSlots
  }

  /** Can the registry offer this node? */
  predicate IsReady(n: Node)
  {
    n.model.Some? &&
    if Slots(n.model.value) <= 1 then n.status.Ready? && n.currentTask.None?
    else n.status.Ready? || n.status.Busy?
  }

  // --------------------------------------------------------------------- placement

  /** The cluster prefix, empty for any, and the preferred node. */
  function Placement(w: World, request: Request): (string, Option<string>)
  {
    if request.sessionId != "" && request.sessionId in w.sessions then
      var s := w.sessions[request.sessionId];
      (if s.clusterKey != "" then s.clusterKey else request.hint, s.pinnedNode)
    else (request.hint, None)
  }

  /** The prompt and the messages that the node would run. */
  function Payload(w: World, request: Request, n: Node): (string, seq<Message>)
  {
    var log := if request.sessionId in w.logs then w.logs[request.sessionId] else [];
    var compiled := if request.recordTurns && request.sessionId != "" && n.model.Some?
                    then Compile(log, n.model.value.contextWindow, request.maxOutput).Messages() else [];
    if compiled != [] then (Joined(compiled), compiled)
    else if request.messages != [] then (Joined(request.messages), request.messages)
    else (request.prompt, [])
  }

  predicate InCluster(cluster: string, n: Node)
  {
    cluster == "" || (n.model.Some? && cluster <= n.model.value.clusterKey)
  }

  // ----------------------------------------------------------------------- scoring

  const REFUSED: real := -1000000000.0

  function Least(a: real, b: real): real
  {
    if a <= b then a else b
  }

  function CapabilityScore(kind: TaskType, model: Model): real
  {
    if kind in model.capabilities then 200.0
    else if kind.Summarization? && Chat in model.capabilities then 200.0
    else -80.0
  }

  function SizeScore(tokens: nat, model: Model): real
  {
    model.parameterCountB * Least(tokens as real / 1000.0, 4.0) * 10.0
    - if tokens < 250 then model.parameterCountB else 0.0
  }

  function LoadScore(resources: Option<Resources>): real
  {
    match resources
    case None => -10.0
    case Some(r) =>
      (if r.cpuPercent.Some? then -(r.cpuPercent.value * 0.5) else 0.0)
      + (if r.onBattery then -25.0 else 0.0)
      + if r.decodeRate.Some? && r.decodeRate.value != 0.0 then Least(r.decodeRate.value, 100.0) * 0.5 else 0.0
  }

  /** `score`, for a node with a model. */
  function Score(request: Request, n: Node, prompt: string, preferred: Option<string>): real
    requires n.model.Some?
  {
    var model := n.model.value;
    if !FitsWindow(prompt, model.contextWindow, request.maxOutput) then REFUSED
    else
      (if preferred == Some(n.id) && n.id != "" then 5000.0 else 0.0)
      + CapabilityScore(request.kind, model)
      + SizeScore(PromptTokens(prompt), model)
      + LoadScore(n.resources)
  }

  /** The score of a placement. */
  function Worth(w: World, request: Request, n: Node): real
    requires n.model.Some?
  {
    Score(request, n, Payload(w, request, n).0, Placement(w, request).1)
  }

  /** May this task run on this node? */
  predicate Eligible(w: World, request: Request, n: Node)
  {
    n.model.Some? && InCluster(Placement(w, request).0, n) && Worth(w, request, n) > REFUSED
  }

  /** Numbers a machine would report. */
  predicate Sane(n: Node)
  {
    && n.model.Some?
    && 0.0 <= n.model.value.parameterCountB <= 1000000.0
    && (n.resources.Some? && n.resources.value.cpuPercent.Some? ==>
          0.0 <= n.resources.value.cpuPercent.value <= 100.0)
    && (n.resources.Some? && n.resources.value.decodeRate.Some? ==> n.resources.value.decodeRate.value >= 0.0)
  }

  lemma {:induction false} SizeBounds(tokens: nat, model: Model)
    requires 0.0 <= model.parameterCountB <= 1000000.0
    ensures SizeScore(tokens, model) >= -1000000.0
  {
    var p, l := model.parameterCountB, Least(tokens as real / 1000.0, 4.0);
    assert l >= 0.0;
    NonNegative(p, l);
  }

  lemma {:induction false} NonNegative(p: real, l: real)
    requires p >= 0.0 && l >= 0.0
    ensures p * l >= 0.0
  {
  }

  /** The mark for refusal is out of reach of every sane score, so a task is eligible
      exactly where the cluster is right and the prompt fits with its output. */
  lemma {:induction false} EligibleIffFits(w: World, request: Request, n: Node)
    requires Sane(n)
    ensures Eligible(w, request, n)
            <==> InCluster(Placement(w, request).0, n)
                 && FitsWindow(Payload(w, request, n).0, n.model.value.contextWindow, request.maxOutput)
  {
    SizeBounds(PromptTokens(Payload(w, request, n).0), n.model.value);
    var load := LoadScore(n.resources);
    assert load >= -75.0;
  }

  /** A session's turn is eligible on every node of its cluster that has room for
      three tokens, however long the log, as long as few messages make the cut. */
  lemma {:induction false} SessionTurnEligible(w: World, request: Request, n: Node)
    requires Sane(n) && InCluster(Placement(w, request).0, n)
    requires request.recordTurns && request.sessionId != "" && request.sessionId in w.logs
    requires Sorted(w.logs[request.sessionId])
    requires Room(n.model.value.contextWindow, request.maxOutput) >= 3
    requires 0 < |Compile(w.logs[request.sessionId], n.model.value.contextWindow, request.maxOutput).Messages()| <= 68
    ensures Eligible(w, request, n)
  {
    CompiledPasses(w.logs[request.sessionId], n.model.value.contextWindow, request.maxOutput);
    EligibleIffFits(w, request, n);
  }
}
