/** What the router answers: to submissions, and to results. */
module RouterReplies {
  import opened Text
  import opened Tasks
  import opened Scheduling
  import opened Dispatching
  import opened RouterRuns
  import opened RouterLaws

  // -------------------------------------------------------------------- submissions

  /** The tasks that are queued, assigned or running. */
  function Unfinished(rows: map<string, Row>): set<string>
  {
    set id | id in rows && (rows[id].state.Queued? || rows[id].state.Assigned? || rows[id].state.Running?)
  }

  predicate HasKey(rows: map<string, Row>, key: string)
  {
    exists id :: id in rows && rows[id].request.key == key
  }

  lemma {:induction false} KnownIs(rows: map<string, Row>, order: seq<string>, key: string)
    requires forall id :: id in order ==> id in rows
    ensures ByKey(rows, order, key).None? <==> forall id :: id in order ==> rows[id].request.key != key
    ensures ByKey(rows, order, key).Some? ==>
              var id := ByKey(rows, order, key).value; id in order && rows[id].request.key == key
  {
    if order != [] {
      assert order[0] in order && forall id :: id in order[1..] ==> id in order;
      KnownIs(rows, order[1..], key);
      assert forall id :: id in order ==> id == order[0] || id in order[1..];
    }
  }

  /** A submission: a key that is known already gets the id it was submitted under, and
      changes nothing; so does a full queue or an id that is taken; a new task is
      queued behind all others. */
  lemma {:induction false} SubmittedIs(cfg: Config, t: Table, request: Request, drawn: string, next: Table,
                                       reply: Submission, id: string)
    requires Ordered(t) && (next, reply) == Submitted(cfg, t, request, drawn)
    requires id == if request.taskId == "" then drawn else request.taskId
    ensures HasKey(t.rows, request.key) ==>
              next == t && reply.Accepted? && reply.id in t.rows && t.rows[reply.id].request.key == request.key
    ensures !HasKey(t.rows, request.key) ==>
              && (reply == QueueFull <==> |Unfinished(t.rows)| >= cfg.queueCap)
              && (reply == IdTaken <==> |Unfinished(t.rows)| < cfg.queueCap && id in t.rows)
              && (reply == QueueFull || reply == IdTaken ==> next == t)
              && (reply.Accepted? ==>
                    && reply.id == id && id !in t.rows && next.order == t.order + [id] && next.issued == t.issued
                    && next.rows == t.rows[id := Row(request.(taskId := id), Queued, None, None, None, 0, None)])
  {
    KnownIs(t.rows, t.order, request.key);
    assert Open(t.rows) == Unfinished(t.rows);
  }

  /** No two tasks were submitted under one key. */
  ghost predicate KeysDistinct(t: Table)
  {
    forall i, j :: i in t.rows && j in t.rows && t.rows[i].request.key == t.rows[j].request.key ==> i == j
  }

  lemma {:induction false} RequestKept(max: int, id: string, row: Row, next: Row)
    requires next == row || RowStep(max, id, row, next)
    ensures next.request == row.request
  {
  }

  lemma {:induction false} QuietKeys(max: int, t: Table, next: Table)
    requires TableStep(max, t, next) && next.rows.Keys == t.rows.Keys && KeysDistinct(t)
    ensures KeysDistinct(next)
  {
    forall id | id in t.rows ensures next.rows[id].request == t.rows[id].request {
      RequestKept(max, id, t.rows[id], next.rows[id]);
    }
  }

  lemma {:induction false} SubmitKeys(cfg: Config, t: Table, request: Request, drawn: string, next: Table,
                                      reply: Submission)
    requires TableOk(cfg.maxAttempts, t) && KeysDistinct(t) && (next, reply) == Submitted(cfg, t, request, drawn)
    ensures KeysDistinct(next)
  {
    SubmittedIs(cfg, t, request, drawn, next, reply, if request.taskId == "" then drawn else request.taskId);
    assert HasKey(t.rows, request.key) || forall id :: id in t.rows ==> t.rows[id].request.key != request.key;
  }

  lemma {:induction false} StepKeys(cfg: Config, caps: map<string, nat>, s: System, step: Step)
    requires Inv(cfg, caps, s) && Allowed(caps, s, step) && KeysDistinct(s.t)
    ensures KeysDistinct(Do(cfg, s, step).t)
  {
    if step.Submit? {
      var (next, reply) := Submitted(cfg, s.t, step.request, step.drawn);
      SubmitKeys(cfg, s.t, step.request, step.drawn, next, reply);
    } else {
      DoSteps(cfg, caps, s, step);
      SameKeys(cfg, caps, s, step);
      QuietKeys(cfg.maxAttempts, s.t, Do(cfg, s, step).t);
    }
  }

  lemma {:induction false} RunKeys(cfg: Config, caps: map<string, nat>, steps: seq<Step>)
    requires AllAllowed(cfg, caps, EMPTY, steps)
    ensures Inv(cfg, caps, Run(cfg, EMPTY, steps)) && KeysDistinct(Run(cfg, EMPTY, steps).t)
  {
    EmptyOk(cfg, caps);
    RunKeeps(cfg, caps, EMPTY, steps);
    if steps != [] {
      var init, last := steps[..|steps| - 1], steps[|steps| - 1];
      AllowedHead(cfg, caps, EMPTY, steps);
      RunKeys(cfg, caps, init);
      StepKeys(cfg, caps, Run(cfg, EMPTY, init), last);
    }
  }

  /** In every reachable state, submitting a known key again gives the one task that has
      it, whatever else the request says and however far the task has come. */
  lemma {:induction false} ResubmittedOnce(cfg: Config, caps: map<string, nat>, steps: seq<Step>, t: Table, id: string,
                                           request: Request, drawn: string)
    requires AllAllowed(cfg, caps, EMPTY, steps) && t == Run(cfg, EMPTY, steps).t
    requires id in t.rows && t.rows[id].request.key == request.key
    ensures Submitted(cfg, t, request, drawn) == (t, Accepted(id))
  {
    RunKeys(cfg, caps, steps);
    assert HasKey(t.rows, request.key);
    var (next, reply) := Submitted(cfg, t, request, drawn);
    SubmittedIs(cfg, t, request, drawn, next, reply, if request.taskId == "" then drawn else request.taskId);
  }

  // ------------------------------------------------------------------------ results

  /** Does a result message stand for the attempt that the task is waiting for? */
  predicate Awaits(rows: map<string, Row>, r: Outcome)
  {
    r.task in rows && (rows[r.task].state.Assigned? || rows[r.task].state.Running?)
    && rows[r.task].attempt == Some(r.attempt)
  }

  /** The answer to a result, and what becomes of the table. It is committed exactly when
      the task had no result before and has this one now. It is stale exactly when the
      task is not finished, and waits for another attempt or for none. A failure with
      attempts left requeues the task; anything else changes nothing. */
  lemma {:induction false} ResultedIs(max: int, t: Table, r: Outcome, next: Table, reply: Reply)
    requires TableOk(max, t) && (next, reply) == Resulted(max, t, r)
    ensures next.order == t.order && next.issued == t.issued && next.rows.Keys == t.rows.Keys
    ensures reply.Committed? <==>
              r.task in t.rows && t.rows[r.task].result.None? && next.rows[r.task].result == Some(r)
    ensures reply.Committed? <==> Awaits(t.rows, r) && (r.ok || t.rows[r.task].attempts >= max)
    ensures reply.Committed? ==>
              next.rows == t.rows[r.task := t.rows[r.task].(state := if r.ok then Succeeded else Failed,
                                                            result := Some(r))]
    ensures reply.StaleAttempt? <==> r.task in Unfinished(t.rows) && t.rows[r.task].attempt != Some(r.attempt)
    ensures Awaits(t.rows, r) && !r.ok && t.rows[r.task].attempts < max ==>
              next.rows == t.rows[r.task := t.rows[r.task].(state := Queued, node := None, attempt := None,
                                                            lease := None)]
    ensures !Awaits(t.rows, r) ==> next == t
  {
    if r.task in t.rows {
      assert RowOk(max, r.task, t.rows[r.task]);
      assert t.rows[r.task := t.rows[r.task]] == t.rows;
    }
  }

  /** A report of progress starts the task exactly when it is assigned, under that
      attempt; a cancellation ends it exactly when it is not finished. */
  lemma {:induction false} MovedIs(t: Table, id: string, attempt: nat)
    requires id in t.rows
    ensures Marked(t, id, attempt).rows[id]
            == (if t.rows[id].state.Assigned? && t.rows[id].attempt == Some(attempt)
                then t.rows[id].(state := Running) else t.rows[id])
    ensures Cancelling(t, id).rows[id]
            == if id in Unfinished(t.rows) then t.rows[id].(state := Cancelled) else t.rows[id]
    ensures forall other :: other in t.rows && other != id ==>
              Marked(t, id, attempt).rows[other] == Cancelling(t, id).rows[other] == t.rows[other]
  {
  }

  /** Is this step the arrival of a result that is answered as committed? */
  predicate CommitsFor(cfg: Config, s: System, step: Step, id: string)
  {
    step.Deliver? && step.report.outcome.task == id
    && Resulted(cfg.maxAttempts, s.t, step.report.outcome).1.Committed?
  }

  /** How often a result for the task was answered as committed. */
  function Commitments(cfg: Config, steps: seq<Step>, id: string): nat
  {
    if steps == [] then 0
    else Commitments(cfg, steps[..|steps| - 1], id)
         + if CommitsFor(cfg, Run(cfg, EMPTY, steps[..|steps| - 1]), steps[|steps| - 1], id) then 1 else 0
  }

  /** The task's result came with a message. */
  predicate Answered(t: Table, id: string)
  {
    id in t.rows && t.rows[id].result.Some? && t.rows[id].result != Some(NodeLost(id))
  }

  /** Some step of the run delivered the result that the task has. */
  predicate Delivered(steps: seq<Step>, r: Outcome)
  {
    exists k :: 0 <= k < |steps| && steps[k].Deliver? && steps[k].report.outcome == r
  }

  lemma {:induction false} DeliverAnswers(cfg: Config, caps: map<string, nat>, s: System, report: Report, id: string)
    requires Inv(cfg, caps, s) && report in s.reports
    ensures var next := Do(cfg, s, Deliver(report)).t;
            if CommitsFor(cfg, s, Deliver(report), id) then !Answered(s.t, id) && Answered(next, id)
            else Answered(next, id) == Answered(s.t, id)
    ensures CommitsFor(cfg, s, Deliver(report), id) ==>
              Do(cfg, s, Deliver(report)).t.rows[id].result == Some(report.outcome)
    ensures Answered(s.t, id) ==> Do(cfg, s, Deliver(report)).t.rows[id].result == s.t.rows[id].result
  {
    var r := report.outcome;
    var (next, reply) := Resulted(cfg.maxAttempts, s.t, r);
    ResultedIs(cfg.maxAttempts, s.t, r, next, reply);
    assert OrderOf(report) in s.orders;
    assert r.task in s.t.rows ==> RowOk(cfg.maxAttempts, r.task, s.t.rows[r.task]);
  }

  /** The task's answer is what it was. */
  predicate SameAnswer(t: Table, next: Table, id: string)
  {
    Answered(next, id) == Answered(t, id)
    && (Answered(t, id) ==> next.rows[id].result == t.rows[id].result)
  }

  lemma {:induction false} LostAnswers(max: int, t: Table, nodes: set<string>, id: string)
    requires TableOk(max, t)
    ensures SameAnswer(t, Lost(max, t, nodes), id)
  {
    if id in t.rows {
      assert RowOk(max, id, t.rows[id]);
    }
  }

  lemma {:induction false} PassAnswers(e: Env, t: Table, max: int, id: string)
    requires TableOk(max, t) && Modelled(e.nodes)
    ensures SameAnswer(t, Scheduled(e, t).t, id)
  {
    ScheduledDeals(e, t);
    if id in t.rows {
      assert RowOk(max, id, t.rows[id]);
    }
  }

  lemma {:induction false} SubmitAnswers(cfg: Config, t: Table, request: Request, drawn: string, id: string)
    requires TableOk(cfg.maxAttempts, t)
    ensures SameAnswer(t, Submitted(cfg, t, request, drawn).0, id)
  {
    var (next, reply) := Submitted(cfg, t, request, drawn);
    SubmittedIs(cfg, t, request, drawn, next, reply, if request.taskId == "" then drawn else request.taskId);
  }

  lemma {:induction false} QuietAnswers(cfg: Config, caps: map<string, nat>, s: System, step: Step, id: string)
    requires Inv(cfg, caps, s) && Allowed(caps, s, step) && !step.Deliver?
    ensures SameAnswer(s.t, Do(cfg, s, step).t, id)
  {
    match step
    case Submit(request, drawn) => SubmitAnswers(cfg, s.t, request, drawn, id);
    case Schedule(w, nodes, now) => PassAnswers(Env(cfg, w, nodes, now), s.t, cfg.maxAttempts, id);
    case LoseNode(node) => LostAnswers(cfg.maxAttempts, s.t, {node}, id);
    case Expire(now) => LostAnswers(cfg.maxAttempts, s.t, LateNodes(s.t.rows, now), id);
    case Progress(task, attempt) =>
    case Work(order, ok, text) =>
    case Cancel(task) =>
  }

  lemma {:induction false} DeliveredMore(steps: seq<Step>, r: Outcome)
    requires steps != []
    ensures Delivered(steps[..|steps| - 1], r) ==> Delivered(steps, r)
    ensures steps[|steps| - 1].Deliver? && steps[|steps| - 1].report.outcome == r ==> Delivered(steps, r)
  {
    var init := steps[..|steps| - 1];
    if Delivered(init, r) {
      var k :| 0 <= k < |init| && init[k].Deliver? && init[k].report.outcome == r;
      assert steps[k] == init[k];
    }
  }

  /** Every task is answered as committed at most once in a run, and once exactly when
      its result came with a message: with the answer, the server learns of the result,
      and of no result twice. */
  lemma {:induction false} CommittedOnce(cfg: Config, caps: map<string, nat>, steps: seq<Step>, id: string)
    requires AllAllowed(cfg, caps, EMPTY, steps)
    ensures Commitments(cfg, steps, id) == if Answered(Run(cfg, EMPTY, steps).t, id) then 1 else 0
    ensures Answered(Run(cfg, EMPTY, steps).t, id) ==> Delivered(steps, Run(cfg, EMPTY, steps).t.rows[id].result.value)
  {
    if steps != [] {
      var init, last := steps[..|steps| - 1], steps[|steps| - 1];
      AllowedHead(cfg, caps, EMPTY, steps);
      EmptyOk(cfg, caps);
      RunKeeps(cfg, caps, EMPTY, init);
      CommittedOnce(cfg, caps, init, id);
      if Answered(Run(cfg, EMPTY, steps).t, id) {
        DeliveredMore(steps, Run(cfg, EMPTY, steps).t.rows[id].result.value);
      }
      if last.Deliver? {
        DeliverAnswers(cfg, caps, Run(cfg, EMPTY, init), last.report, id);
      } else {
        QuietAnswers(cfg, caps, Run(cfg, EMPTY, init), last, id);
      }
    }
  }
}
