/** The compaction job: the request that is submitted for a plan, and the nodes that can
    ever run it. */
module CompactionJobs {
  import opened Text
  import opened Contexts
  import opened ContextFit
  import opened Tasks
  import opened Scoring
  import opened Scheduling
  import opened Dispatching
  import opened RouterRuns
  import Plans = Compaction

  const COMPACT_INSTRUCTIONS: string :=
    "Summarize this conversation for a coding assistant. "
    + "Preserve file paths, identifiers, unresolved errors, and the current goal. "
    + "Drop chit-chat. Do not keep full file dumps."

  /** `summary_max_output_tokens`: 15 percent of the window, but no more than leaves the
      safety margin, and never less than one token. Prompt and output fit the window
      whenever the prompt leaves room for one token. They fit with the safety margin left over,
      as the function is documented to make them, only when the prompt leaves it. */
  function SummaryMaxOutput(window: int, promptTokens: nat): (cap: nat)
    ensures promptTokens + cap <= window <==> promptTokens < window
    ensures promptTokens + cap + 256 <= window <==> promptTokens + 1 + 256 <= window
    ensures 1 <= cap <= 256 || 1 <= cap <= window * 15 / 100
    ensures promptTokens + 1 + 256 > window ==> cap == 1
    ensures promptTokens + cap + 256 < window ==> cap >= 256 && cap >= window * 15 / 100
  {
    var desired := Max(256, window * 15 / 100);
    var room := Max(1, window - SAFETY_TOKENS - promptTokens);
    if desired <= room then desired else room
  }

  /** A plan on its way: what the summariser is sent is estimated at `tokens`. */
  datatype Job = Job(plan: Plans.Plan, tokens: nat, maxOutput: int)

  function JobMessages(plan: Plans.Plan): seq<Message>
  {
    [Message("system", COMPACT_INSTRUCTIONS), Message("user", plan.prompt)]
  }

  /** The job for a plan that was made for a model with this window. */
  function JobFor(plan: Plans.Plan, window: int): Job
  {
    var tokens := PromptTokens(Joined(JobMessages(plan)));
    Job(plan, tokens, SummaryMaxOutput(window, tokens))
  }

  /** Does the job pass the router's test on a model with this window? */
  predicate Runs(job: Job, window: int)
  {
    job.tokens + job.maxOutput <= window
  }

  /** A job runs on the model it was planned for, or a larger one, exactly when its
      prompt is estimated below that model's window. */
  lemma {:induction false} RunsIff(plan: Plans.Plan, planned: int, window: int)
    requires planned <= window
    ensures Runs(JobFor(plan, planned), window) <==> JobFor(plan, planned).tokens < window
  {
    var tokens := JobFor(plan, planned).tokens;
    assert tokens < planned ==> tokens + SummaryMaxOutput(planned, tokens) <= planned;
  }

  // ---------------------------------------------------------------- in the queue

  /** The request that `_maybe_compact` submits. */
  function JobRequest(plan: Plans.Plan, window: int, sessionId: string, clusterKey: string, key: string): Request
  {
    Request("", key, Summarization, Joined(JobMessages(plan)), JobMessages(plan), sessionId, clusterKey,
            JobFor(plan, window).maxOutput, false)
  }

  /** Such a request, under whatever id, for whatever session. */
  predicate IsJob(request: Request, plan: Plans.Plan, window: int)
  {
    request == JobRequest(plan, window, request.sessionId, request.hint, request.key).(taskId := request.taskId)
  }

  /** Such a request is a summary of its own kind: it records no turns, shows the
      instructions and the plan's prompt, and caps the answer by the window. */
  lemma {:induction false} JobIs(request: Request, plan: Plans.Plan, window: int)
    requires IsJob(request, plan, window)
    ensures request.kind == Summarization && !request.recordTurns
    ensures |request.messages| == 2 && request.messages[0].role == "system" && request.messages[1].role == "user"
    ensures request.messages[1].content == plan.prompt && request.prompt == Joined(request.messages)
    ensures request.maxOutput == SummaryMaxOutput(window, Max(1, |request.prompt| / 4))
  {
  }

  /** A node of the cluster is eligible for the job exactly when the job runs there. */
  lemma {:induction false} JobEligibleIff(w: World, request: Request, n: Node, plan: Plans.Plan, window: int)
    requires Sane(n) && IsJob(request, plan, window)
    ensures Eligible(w, request, n)
            <==> InCluster(Placement(w, request).0, n) && Runs(JobFor(plan, window), n.model.value.contextWindow)
  {
    EligibleIffFits(w, request, n);
    assert Payload(w, request, n).0 == Joined(JobMessages(plan));
  }

  /** No node on offer could take the task. */
  ghost predicate NoneEligible(w: World, nodes: seq<Node>, request: Request)
  {
    forall n :: n in nodes ==> !Eligible(w, request, n)
  }

  /** In none of the passes of a run. */
  ghost predicate NeverEligible(steps: seq<Step>, request: Request)
  {
    forall k :: 0 <= k < |steps| && steps[k].Schedule? ==> NoneEligible(steps[k].w, steps[k].nodes, request)
  }

  lemma {:induction false} PassLeaves(e: Env, t: Table, id: string)
    requires Modelled(e.nodes) && Ordered(t) && AttemptsOk(t.rows, t.issued)
    requires id in t.rows && t.rows[id].state.Queued? && NoneEligible(e.w, e.nodes, t.rows[id].request)
    ensures id in Scheduled(e, t).t.rows && Scheduled(e, t).t.rows[id] == t.rows[id]
  {
    ScheduledDeals(e, t);
    if Scheduled(e, t).t.rows[id] != t.rows[id] {
      var k, n := AssignedBest(e, t, id);
    }
  }

  lemma {:induction false} StepLeaves(cfg: Config, caps: map<string, nat>, s: System, step: Step, id: string)
    requires Inv(cfg, caps, s) && Allowed(caps, s, step) && id in s.t.rows && s.t.rows[id].state.Queued?
    requires step.Schedule? ==> NoneEligible(step.w, step.nodes, s.t.rows[id].request)
    ensures id in Do(cfg, s, step).t.rows
    ensures Do(cfg, s, step).t.rows[id]
            == if step == Cancel(id) then s.t.rows[id].(state := Cancelled) else s.t.rows[id]
  {
    assert RowOk(cfg.maxAttempts, id, s.t.rows[id]);
    match step
    case Schedule(w, nodes, now) => PassLeaves(Env(cfg, w, nodes, now), s.t, id);
    case _ =>
  }

  /** A queued task for which no pass ever has an eligible node stays in the queue for
      good: nothing but a cancellation takes it out, and it never expires. */
  lemma {:induction false} WaitsForGood(cfg: Config, caps: map<string, nat>, s: System, steps: seq<Step>, id: string)
    requires Inv(cfg, caps, s) && AllAllowed(cfg, caps, s, steps) && id in s.t.rows && s.t.rows[id].state.Queued?
    requires NeverEligible(steps, s.t.rows[id].request)
    ensures id in Run(cfg, s, steps).t.rows
    ensures Run(cfg, s, steps).t.rows[id]
            == if Cancel(id) in steps then s.t.rows[id].(state := Cancelled) else s.t.rows[id]
  {
    if steps != [] {
      var init, last := steps[..|steps| - 1], steps[|steps| - 1];
      AllowedHead(cfg, caps, s, steps);
      RunKeeps(cfg, caps, s, init);
      assert NeverEligible(init, s.t.rows[id].request) by {
        assert forall k :: 0 <= k < |init| ==> init[k] == steps[k];
      }
      WaitsForGood(cfg, caps, s, init, id);
      assert steps == init + [last];
      if Cancel(id) !in init {
        StepLeaves(cfg, caps, Run(cfg, s, init), last, id);
      } else {
        FinalStep(cfg, caps, Run(cfg, s, init), last, id);
      }
    }
  }

  lemma {:induction false} FinalStep(cfg: Config, caps: map<string, nat>, s: System, step: Step, id: string)
    requires Inv(cfg, caps, s) && Allowed(caps, s, step) && id in s.t.rows && s.t.rows[id].state.Cancelled?
    ensures id in Do(cfg, s, step).t.rows && Do(cfg, s, step).t.rows[id] == s.t.rows[id]
  {
    match step
    case Schedule(w, nodes, now) => ScheduledDeals(Env(cfg, w, nodes, now), s.t);
    case _ =>
  }

  /** The nodes of every pass are sane, and too small for `tokens`. */
  ghost predicate AllTooSmall(steps: seq<Step>, tokens: nat)
  {
    forall k, n :: 0 <= k < |steps| && steps[k].Schedule? && n in steps[k].nodes ==>
      Sane(n) && n.model.value.contextWindow <= tokens
  }

  /** A compaction job whose prompt is estimated at the largest window on offer, or
      more, is never assigned: it waits in the queue for good. */
  lemma {:induction false} OversizedWaits(cfg: Config, caps: map<string, nat>, s: System, steps: seq<Step>, id: string,
                                          plan: Plans.Plan, window: int)
    requires Inv(cfg, caps, s) && AllAllowed(cfg, caps, s, steps) && id in s.t.rows && s.t.rows[id].state.Queued?
    requires IsJob(s.t.rows[id].request, plan, window) && AllTooSmall(steps, JobFor(plan, window).tokens)
    ensures id in Run(cfg, s, steps).t.rows
    ensures Run(cfg, s, steps).t.rows[id]
            == if Cancel(id) in steps then s.t.rows[id].(state := Cancelled) else s.t.rows[id]
  {
    var request := s.t.rows[id].request;
    forall k, n | 0 <= k < |steps| && steps[k].Schedule? && n in steps[k].nodes
      ensures !Eligible(steps[k].w, request, n)
    {
      JobEligibleIff(steps[k].w, request, n, plan, window);
    }
    WaitsForGood(cfg, caps, s, steps, id);
  }
}
