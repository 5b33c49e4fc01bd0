/** What the router promises over whole runs. */
module RouterLaws {
  import opened Text
  import opened Tally
  import opened Tasks
  import opened Scoring
  import opened Scheduling
  import opened Dispatching
  import opened RouterRuns
  import TaskRouter

  // ------------------------------------------------------------------ one step on

  lemma {:induction false} SameTable(max: int, t: Table)
    ensures TableStep(max, t, t)
  {
  }

  lemma {:induction false} DoSteps(cfg: Config, caps: map<string, nat>, s: System, step: Step)
    requires Inv(cfg, caps, s) && Allowed(caps, s, step)
    ensures TableStep(cfg.maxAttempts, s.t, Do(cfg, s, step).t)
  {
    match step
    case Submit(request, drawn) => SubmittedSteps(cfg, s.t, request, drawn);
    case Schedule(w, nodes, now) => ScheduledSteps(cfg.maxAttempts, Env(cfg, w, nodes, now), s.t);
    case Progress(task, attempt) => MarkedSteps(cfg.maxAttempts, s.t, task, attempt);
    case Work(order, ok, text) => SameTable(cfg.maxAttempts, s.t);
    case Deliver(report) => ResultedSteps(cfg.maxAttempts, s.t, report.outcome);
    case LoseNode(node) => LostSteps(cfg.maxAttempts, s.t, {node});
    case Expire(now) => LostSteps(cfg.maxAttempts, s.t, LateNodes(s.t.rows, now));
    case Cancel(task) => CancellingSteps(cfg.maxAttempts, s.t, task);
  }

  // ------------------------------------------------------- results are written once

  lemma {:induction false} FinalRow(max: int, id: string, row: Row, next: Row)
    requires Terminal(row) && (next == row || RowStep(max, id, row, next))
    ensures next == row
  {
  }

  /** A finished task never changes again: not its state, not its result, not the
      attempt and the node it stands for. */
  lemma {:induction false} FinalForGood(cfg: Config, caps: map<string, nat>, s: System, steps: seq<Step>, id: string)
    requires Inv(cfg, caps, s) && AllAllowed(cfg, caps, s, steps)
    requires id in s.t.rows && Terminal(s.t.rows[id])
    ensures id in Run(cfg, s, steps).t.rows && Run(cfg, s, steps).t.rows[id] == s.t.rows[id]
  {
    if steps != [] {
      var init, last := steps[..|steps| - 1], steps[|steps| - 1];
      AllowedHead(cfg, caps, s, steps);
      RunKeeps(cfg, caps, s, init);
      FinalForGood(cfg, caps, s, init, id);
      var before := Run(cfg, s, init);
      DoSteps(cfg, caps, before, last);
      FinalRow(cfg.maxAttempts, id, before.t.rows[id], Do(cfg, before, last).t.rows[id]);
    }
  }

  /** Once there, a result stays, in every continuation of every run. */
  lemma {:induction false} ResultOnce(cfg: Config, caps: map<string, nat>, s: System, steps: seq<Step>, id: string)
    requires Inv(cfg, caps, s) && AllAllowed(cfg, caps, s, steps)
    requires id in s.t.rows && s.t.rows[id].result.Some?
    ensures id in Run(cfg, s, steps).t.rows && Run(cfg, s, steps).t.rows[id].result == s.t.rows[id].result
  {
    assert RowOk(cfg.maxAttempts, id, s.t.rows[id]);
    FinalForGood(cfg, caps, s, steps, id);
  }

  // --------------------------------------------------- a message counts at most once

  /** The table has no more use for this result. */
  ghost predicate Spent(t: Table, r: Outcome)
  {
    && r.attempt <= t.issued
    && (r.task in t.rows ==> Terminal(t.rows[r.task]) || t.rows[r.task].attempt != Some(r.attempt))
  }

  lemma {:induction false} SpentIgnored(max: int, t: Table, r: Outcome)
    requires Spent(t, r)
    ensures Resulted(max, t, r).0 == t && !Resulted(max, t, r).1.Committed?
  {
    if r.task in t.rows {
      assert t.rows[r.task := t.rows[r.task]] == t.rows;
    }
  }

  lemma {:induction false} SpentRow(max: int, id: string, row: Row, next: Row, attempt: nat, issued: nat)
    requires RowOk(max, id, row) && (next == row || RowStep(max, id, row, next))
    requires next.attempt.Some? && next.attempt != row.attempt ==> issued < next.attempt.value
    requires attempt <= issued && (Terminal(row) || row.attempt != Some(attempt))
    ensures Terminal(next) || next.attempt != Some(attempt)
  {
  }

  lemma {:induction false} SpentStays(max: int, t: Table, next: Table, r: Outcome)
    requires TableOk(max, t) && TableStep(max, t, next) && Spent(t, r)
    ensures Spent(next, r)
  {
    if r.task in t.rows {
      assert RowOk(max, r.task, t.rows[r.task]);
      SpentRow(max, r.task, t.rows[r.task], next.rows[r.task], r.attempt, t.issued);
    }
  }

  lemma {:induction false} SpentRun(cfg: Config, caps: map<string, nat>, s: System, steps: seq<Step>, r: Outcome)
    requires Inv(cfg, caps, s) && AllAllowed(cfg, caps, s, steps) && Spent(s.t, r)
    ensures Spent(Run(cfg, s, steps).t, r)
  {
    if steps != [] {
      var init, last := steps[..|steps| - 1], steps[|steps| - 1];
      AllowedHead(cfg, caps, s, steps);
      RunKeeps(cfg, caps, s, init);
      SpentRun(cfg, caps, s, init, r);
      DoSteps(cfg, caps, Run(cfg, s, init), last);
      SpentStays(cfg.maxAttempts, Run(cfg, s, init).t, Do(cfg, Run(cfg, s, init), last).t, r);
    }
  }

  lemma {:induction false} DeliverSpends(max: int, t: Table, r: Outcome)
    requires TableOk(max, t) && r.attempt <= t.issued
    ensures Spent(Resulted(max, t, r).0, r)
  {
    if r.task in t.rows {
      assert RowOk(max, r.task, t.rows[r.task]);
      ResultRowSpends(max, r.task, t.rows[r.task], r);
    }
  }

  lemma {:induction false} ResultRowSpends(max: int, id: string, row: Row, r: Outcome)
    requires RowOk(max, id, row)
    ensures Terminal(ResultRow(max, row, r).0) || ResultRow(max, row, r).0.attempt != Some(r.attempt)
  {
  }

  /** However often the network repeats a result, and whatever happens in between, it
      has an effect on its first arrival at most. */
  lemma {:induction false} CountsOnce(cfg: Config, caps: map<string, nat>, s: System, steps: seq<Step>, report: Report)
    requires Inv(cfg, caps, s) && report in s.reports
    requires AllAllowed(cfg, caps, Do(cfg, s, Deliver(report)), steps)
    ensures var later := Run(cfg, Do(cfg, s, Deliver(report)), steps); Do(cfg, later, Deliver(report)) == later
  {
    var once := Do(cfg, s, Deliver(report));
    assert OrderOf(report) in s.orders;
    DeliverSpends(cfg.maxAttempts, s.t, report.outcome);
    DeliverKeeps(cfg, caps, s, report);
    SpentRun(cfg, caps, once, steps, report.outcome);
    SpentIgnored(cfg.maxAttempts, Run(cfg, once, steps).t, report.outcome);
  }

  // ----------------------------------------------------------- from the very start

  lemma {:induction false} EmptyOk(cfg: Config, caps: map<string, nat>)
    ensures Inv(cfg, caps, EMPTY)
  {
    forall node: string ensures |Held(EMPTY.t.rows, node)| <= CapOf(caps, node) {
      assert Held(EMPTY.t.rows, node) == {};
    }
  }

  /** The row stands for the latest assignment of its task: one that was sent to the
      row's node, and none was sent after it. */
  ghost predicate StandsForLatest(s: System, id: string, row: Row)
  {
    && row.node.Some? && row.attempt.Some?
    && Order(id, row.attempt.value, row.node.value) in s.orders
    && forall o :: o in s.orders && o.task == id ==> o.attempt <= row.attempt.value
  }

  /** The row's result was reported by the row's node under the row's attempt. */
  predicate FromLatest(s: System, row: Row)
  {
    && row.result.Some? && row.attempt == Some(row.result.value.attempt)
    && row.node.Some? && Report(row.node.value, row.result.value) in s.reports
  }

  lemma {:induction false} LatestHere(cfg: Config, caps: map<string, nat>, s: System, id: string)
    requires Inv(cfg, caps, s) && id in s.t.rows && s.t.rows[id].attempt.Some?
    ensures StandsForLatest(s, id, s.t.rows[id])
  {
  }

  ghost predicate SucceededByLatest(s: System, id: string, row: Row)
  {
    StandsForLatest(s, id, row) && FromLatest(s, row) && row.result.value.ok
  }

  ghost predicate FailedByLatest(cfg: Config, s: System, id: string, row: Row)
  {
    && StandsForLatest(s, id, row) && row.attempts == Limit(cfg.maxAttempts)
    && row.result.Some? && !row.result.value.ok
    && (FromLatest(s, row) || row.result.value == NodeLost(id))
  }

  lemma {:induction false} FinishedHere(cfg: Config, caps: map<string, nat>, s: System, id: string, row: Row)
    requires Inv(cfg, caps, s) && id in s.t.rows && row == s.t.rows[id]
    ensures row.state.Succeeded? ==> SucceededByLatest(s, id, row)
    ensures row.state.Failed? ==> FailedByLatest(cfg, s, id, row)
  {
    assert RowOk(cfg.maxAttempts, id, row) && Sourced(id, row, s.reports);
    if row.attempt.Some? {
      LatestHere(cfg, caps, s, id);
    }
    if row.state.Succeeded? && row.result.value == NodeLost(id) {
      assert false;
    }
  }

  /** A finished task was finished by its latest assignment. The result of a success
      was reported under the attempt of that assignment, by the node it went to. A
      failure used up the attempts, and was reported in the same way, or says that the
      node was lost. */
  lemma {:induction false} CommittedFromLatest(cfg: Config, caps: map<string, nat>, steps: seq<Step>, id: string,
                                               s: System)
    requires AllAllowed(cfg, caps, EMPTY, steps) && s == Run(cfg, EMPTY, steps) && id in s.t.rows
    ensures s.t.rows[id].state.Succeeded? ==> SucceededByLatest(s, id, s.t.rows[id])
    ensures s.t.rows[id].state.Failed? ==> FailedByLatest(cfg, s, id, s.t.rows[id])
  {
    EmptyOk(cfg, caps);
    RunKeeps(cfg, caps, EMPTY, steps);
    FinishedHere(cfg, caps, s, id, s.t.rows[id]);
  }

  /** In every reachable state, a node has at most its slots in flight. */
  lemma {:induction false} SlotCap(cfg: Config, caps: map<string, nat>, steps: seq<Step>, node: string)
    requires AllAllowed(cfg, caps, EMPTY, steps)
    ensures |Held(Run(cfg, EMPTY, steps).t.rows, node)| <= CapOf(caps, node)
  {
    EmptyOk(cfg, caps);
    RunKeeps(cfg, caps, EMPTY, steps);
  }

  /** A queued task always has an attempt left; no task exceeds its attempts. */
  lemma {:induction false} Budget(cfg: Config, caps: map<string, nat>, steps: seq<Step>, id: string)
    requires AllAllowed(cfg, caps, EMPTY, steps) && id in Run(cfg, EMPTY, steps).t.rows
    ensures Run(cfg, EMPTY, steps).t.rows[id].attempts <= (if cfg.maxAttempts >= 1 then cfg.maxAttempts else 1)
    ensures Run(cfg, EMPTY, steps).t.rows[id].state.Queued? ==>
              Run(cfg, EMPTY, steps).t.rows[id].attempts < (if cfg.maxAttempts >= 1 then cfg.maxAttempts else 1)
  {
    EmptyOk(cfg, caps);
    RunKeeps(cfg, caps, EMPTY, steps);
    assert RowOk(cfg.maxAttempts, id, Run(cfg, EMPTY, steps).t.rows[id]);
  }

  // -------------------------------------------------------------------- termination

  /** How much a row can still move. */
  function Weight(max: int, row: Row): nat
  {
    var left := if row.attempts <= Limit(max) then Limit(max) - row.attempts else 0;
    match row.state
    case Queued => 3 * left
    case Assigned => 3 * left + 2
    case Running => 3 * left + 1
    case _ => 0
  }

  lemma {:induction false} StepSpends(max: int, id: string, row: Row, next: Row)
    requires RowOk(max, id, row) && RowStep(max, id, row, next) && next != row
    ensures Weight(max, next) < Weight(max, row)
  {
  }

  function Weights(max: int, rows: map<string, Row>): map<string, nat>
  {
    map id | id in rows :: Weight(max, rows[id])
  }

  /** The tasks whose rows differ, among those of `rows`. */
  function Moved(rows: map<string, Row>, next: map<string, Row>): set<string>
  {
    set id | id in rows && id in next && next[id] != rows[id]
  }

  lemma {:induction false} MovesSpend(max: int, t: Table, next: Table)
    requires TableOk(max, t) && TableStep(max, t, next) && next.rows.Keys == t.rows.Keys
    ensures Sum(Weights(max, next.rows)) + |Moved(t.rows, next.rows)| <= Sum(Weights(max, t.rows))
  {
    var m, m' := Weights(max, t.rows), Weights(max, next.rows);
    var moved := Moved(t.rows, next.rows);
    forall id | id in m ensures m'[id] + (if id in moved then 1 else 0) <= m[id] {
      assert RowOk(max, id, t.rows[id]);
      if id in moved {
        StepSpends(max, id, t.rows[id], next.rows[id]);
      }
    }
    SumDrops(m, m', moved);
  }

  lemma {:induction false} SubmitAdds(cfg: Config, t: Table, request: Request, drawn: string)
    ensures var next := Submitted(cfg, t, request, drawn).0;
            && Sum(Weights(cfg.maxAttempts, next.rows))
               <= Sum(Weights(cfg.maxAttempts, t.rows)) + 3 * Limit(cfg.maxAttempts)
            && |Moved(t.rows, next.rows)| == 0
  {
    var next := Submitted(cfg, t, request, drawn).0;
    assert Moved(t.rows, next.rows) == {};
    var id := if request.taskId == "" then drawn else request.taskId;
    if next != t {
      var m := Weights(cfg.maxAttempts, t.rows);
      var row := NewRow(request.(taskId := id));
      assert Weights(cfg.maxAttempts, next.rows) == m[id := Weight(cfg.maxAttempts, row)];
      SumUpdate(m, id, Weight(cfg.maxAttempts, row));
    }
  }

  lemma {:induction false} SameKeys(cfg: Config, caps: map<string, nat>, s: System, step: Step)
    requires Inv(cfg, caps, s) && Allowed(caps, s, step) && !step.Submit?
    ensures Do(cfg, s, step).t.rows.Keys == s.t.rows.Keys
  {
    if step.Schedule? {
      ScheduledDeals(Env(cfg, step.w, step.nodes, step.now), s.t);
    }
  }

  /** Row changes over a run, counted row by row. */
  function Moves(cfg: Config, s: System, steps: seq<Step>): nat
  {
    if steps == [] then 0
    else
      var before := Run(cfg, s, steps[..|steps| - 1]);
      Moves(cfg, s, steps[..|steps| - 1]) + |Moved(before.t.rows, Do(cfg, before, steps[|steps| - 1]).t.rows)|
  }

  function Submissions(steps: seq<Step>): nat
  {
    if steps == [] then 0 else Submissions(steps[..|steps| - 1]) + if steps[|steps| - 1].Submit? then 1 else 0
  }

  lemma {:induction false} DoSpends(cfg: Config, caps: map<string, nat>, s: System, step: Step)
    requires Inv(cfg, caps, s) && Allowed(caps, s, step)
    ensures Sum(Weights(cfg.maxAttempts, Do(cfg, s, step).t.rows)) + |Moved(s.t.rows, Do(cfg, s, step).t.rows)|
            <= Sum(Weights(cfg.maxAttempts, s.t.rows)) + if step.Submit? then 3 * Limit(cfg.maxAttempts) else 0
  {
    if step.Submit? {
      SubmitAdds(cfg, s.t, step.request, step.drawn);
    } else {
      SameKeys(cfg, caps, s, step);
      DoSteps(cfg, caps, s, step);
      MovesSpend(cfg.maxAttempts, s.t, Do(cfg, s, step).t);
    }
  }

  /** Three moves for each attempt that each submission brings. */
  function Allowance(max: int, steps: seq<Step>): nat
  {
    if steps == [] then 0
    else Allowance(max, steps[..|steps| - 1]) + if steps[|steps| - 1].Submit? then 3 * Limit(max) else 0
  }

  lemma {:induction false} AllowanceIs(max: int, steps: seq<Step>)
    ensures Allowance(max, steps) == Submissions(steps) * (3 * Limit(max))
  {
    if steps != [] {
      AllowanceIs(max, steps[..|steps| - 1]);
      if steps[|steps| - 1].Submit? {
        OneMore(Submissions(steps[..|steps| - 1]), Submissions(steps), 3 * Limit(max));
      }
    }
  }

  lemma {:induction false} RunSpends(cfg: Config, caps: map<string, nat>, s: System, steps: seq<Step>)
    requires Inv(cfg, caps, s) && AllAllowed(cfg, caps, s, steps)
    ensures Sum(Weights(cfg.maxAttempts, Run(cfg, s, steps).t.rows)) + Moves(cfg, s, steps)
            <= Sum(Weights(cfg.maxAttempts, s.t.rows)) + Allowance(cfg.maxAttempts, steps)
  {
    if steps != [] {
      var init := steps[..|steps| - 1];
      AllowedHead(cfg, caps, s, steps);
      RunKeeps(cfg, caps, s, init);
      RunSpends(cfg, caps, s, init);
      DoSpends(cfg, caps, Run(cfg, s, init), steps[|steps| - 1]);
    }
  }

  /** A row moves at most three times for each attempt it may make, in every run. */
  lemma {:induction false} MovesBounded(cfg: Config, caps: map<string, nat>, steps: seq<Step>)
    requires AllAllowed(cfg, caps, EMPTY, steps)
    ensures Moves(cfg, EMPTY, steps) <= Submissions(steps) * (3 * Limit(cfg.maxAttempts))
  {
    EmptyOk(cfg, caps);
    RunSpends(cfg, caps, EMPTY, steps);
    AllowanceIs(cfg.maxAttempts, steps);
    assert Weights(cfg.maxAttempts, EMPTY.t.rows) == map[];
  }

  lemma {:induction false} WeightsBounded(max: int, rows: map<string, Row>)
    requires RowsOk(max, rows)
    ensures Sum(Weights(max, rows)) <= |rows| * (3 * Limit(max))
  {
    forall id | id in rows ensures Weight(max, rows[id]) <= 3 * Limit(max) {
      assert RowOk(max, id, rows[id]);
    }
    assert |Weights(max, rows)| == |rows| by { assert Weights(max, rows).Keys == rows.Keys; }
    SumBounded(Weights(max, rows), 3 * Limit(max));
  }

  /** With nothing new submitted, a run moves rows at most three times per attempt that
      each task may make; whatever steps it goes on taking change nothing. */
  lemma {:induction false} Terminates(cfg: Config, caps: map<string, nat>, s: System, steps: seq<Step>)
    requires Inv(cfg, caps, s) && AllAllowed(cfg, caps, s, steps) && Submissions(steps) == 0
    ensures Moves(cfg, s, steps) <= |s.t.rows| * (3 * Limit(cfg.maxAttempts))
  {
    RunSpends(cfg, caps, s, steps);
    AllowanceIs(cfg.maxAttempts, steps);
    WeightsBounded(cfg.maxAttempts, s.t.rows);
  }

  // ------------------------------------------------------------- attempts accounted

  function AttemptCounts(rows: map<string, Row>): map<string, nat>
  {
    map id | id in rows :: rows[id].attempts
  }

  /** Every attempt ever drawn is on some task's account. */
  ghost predicate Accounted(t: Table)
  {
    Sum(AttemptCounts(t.rows)) == t.issued
  }

  lemma {:induction false} AssignAccounts(e: Env, p: Pass, id: string, n: Node)
    requires id in p.t.rows && Accounted(p.t)
    ensures Accounted(Assign(e, p, id, n).t)
  {
    var d := AssignIs(e, p, id, n);
    var q := Assign(e, p, id, n);
    assert AttemptCounts(q.t.rows) == AttemptCounts(p.t.rows)[id := p.t.rows[id].attempts + 1];
    SumUpdate(AttemptCounts(p.t.rows), id, p.t.rows[id].attempts + 1);
  }

  lemma {:induction false} AtAccounts(e: Env, t: Table, k: nat)
    requires Modelled(e.nodes) && k <= |QueuedIds(t.rows, t.order)| && Accounted(t)
    ensures Accounted(At(e, t, k).t)
  {
    if k > 0 {
      AtAccounts(e, t, k - 1);
      AtSteps(e, t, k - 1);
      var p, id := At(e, t, k - 1), QueuedIds(t.rows, t.order)[k - 1];
      if id in p.t.rows {
        var choice := Choice(e.w, p.t.rows[id].request, Free(e.nodes, p.t.rows));
        if choice.Some? {
          AssignAccounts(e, p, id, choice.value);
        }
      }
    }
  }

  lemma {:induction false} ScheduleAccounts(e: Env, t: Table)
    requires Modelled(e.nodes) && Accounted(t)
    ensures Accounted(Scheduled(e, t).t)
  {
    AtAccounts(e, t, |QueuedIds(t.rows, t.order)|);
    AtEnds(e, t);
  }

  lemma {:induction false} SubmitAccounts(cfg: Config, t: Table, request: Request, drawn: string)
    requires Accounted(t)
    ensures Accounted(Submitted(cfg, t, request, drawn).0)
  {
    var next := Submitted(cfg, t, request, drawn).0;
    var id := if request.taskId == "" then drawn else request.taskId;
    if next != t {
      assert AttemptCounts(next.rows) == AttemptCounts(t.rows)[id := 0];
      SumUpdate(AttemptCounts(t.rows), id, 0);
    }
  }

  lemma {:induction false} ResultAccounts(max: int, t: Table, r: Outcome)
    requires Accounted(t)
    ensures Accounted(Resulted(max, t, r).0)
  {
    assert AttemptCounts(Resulted(max, t, r).0.rows) == AttemptCounts(t.rows);
  }

  lemma {:induction false} LostAccounts(max: int, t: Table, nodes: set<string>)
    requires Accounted(t)
    ensures Accounted(Lost(max, t, nodes))
  {
    assert AttemptCounts(Lost(max, t, nodes).rows) == AttemptCounts(t.rows);
  }

  lemma {:induction false} DoAccounts(cfg: Config, s: System, step: Step)
    requires Accounted(s.t)
    ensures Accounted(Do(cfg, s, step).t)
  {
    match step
    case Schedule(w, nodes, now) =>
      if Modelled(nodes) { ScheduleAccounts(Env(cfg, w, nodes, now), s.t); }
    case Submit(request, drawn) => SubmitAccounts(cfg, s.t, request, drawn);
    case Deliver(report) => ResultAccounts(cfg.maxAttempts, s.t, report.outcome);
    case LoseNode(node) => LostAccounts(cfg.maxAttempts, s.t, {node});
    case Expire(now) => LostAccounts(cfg.maxAttempts, s.t, LateNodes(s.t.rows, now));
    case Work(order, ok, text) =>
    case Progress(task, attempt) => assert AttemptCounts(Marked(s.t, task, attempt).rows) == AttemptCounts(s.t.rows);
    case Cancel(task) => assert AttemptCounts(Cancelling(s.t, task).rows) == AttemptCounts(s.t.rows);
  }

  /** Attempts are never lost and never counted twice, so no more assignments are ever
      drawn than the tasks' budgets allow. */
  lemma {:induction false} AttemptsAccounted(cfg: Config, caps: map<string, nat>, steps: seq<Step>)
    requires AllAllowed(cfg, caps, EMPTY, steps)
    ensures Accounted(Run(cfg, EMPTY, steps).t)
    ensures Run(cfg, EMPTY, steps).t.issued <= |Run(cfg, EMPTY, steps).t.rows| * Limit(cfg.maxAttempts)
  {
    AccountedRun(cfg, steps);
    EmptyOk(cfg, caps);
    RunKeeps(cfg, caps, EMPTY, steps);
    var rows := Run(cfg, EMPTY, steps).t.rows;
    forall id | id in rows ensures rows[id].attempts <= Limit(cfg.maxAttempts) {
      assert RowOk(cfg.maxAttempts, id, rows[id]);
    }
    assert |AttemptCounts(rows)| == |rows| by { assert AttemptCounts(rows).Keys == rows.Keys; }
    SumBounded(AttemptCounts(rows), Limit(cfg.maxAttempts));
  }

  lemma {:induction false} AccountedRun(cfg: Config, steps: seq<Step>)
    ensures Accounted(Run(cfg, EMPTY, steps).t)
  {
    if steps == [] {
      assert AttemptCounts(EMPTY.t.rows) == map[];
    } else {
      AccountedRun(cfg, steps[..|steps| - 1]);
      DoAccounts(cfg, Run(cfg, EMPTY, steps[..|steps| - 1]), steps[|steps| - 1]);
    }
  }

  // ------------------------------------------------------------------- lease expiry

  /** The rows after nodes are lost one after the other. */
  function LostInTurn(max: int, rows: map<string, Row>, nodes: seq<string>): (next: map<string, Row>)
    ensures next.Keys == rows.Keys
  {
    if nodes == [] then rows
    else LostRows(max, LostInTurn(max, rows, nodes[..|nodes| - 1]), {nodes[|nodes| - 1]})
  }

  /** The order in which nodes are lost does not matter, nor does losing one again. */
  lemma {:induction false} AnyOrder(max: int, rows: map<string, Row>, nodes: seq<string>)
    ensures LostInTurn(max, rows, nodes) == LostRows(max, rows, TaskRouter.Members(nodes))
  {
    if nodes == [] {
      TaskRouter.LostNone(max, rows);
    } else {
      var init, last := nodes[..|nodes| - 1], nodes[|nodes| - 1];
      AnyOrder(max, rows, init);
      TaskRouter.LostTwice(max, rows, TaskRouter.Members(init), last);
      assert nodes == init + [last];
      assert TaskRouter.Members(nodes) == TaskRouter.Members(init) + {last};
    }
  }

  /** On a node right now, under a lease that ended before `now`. */
  predicate Overdue(row: Row, now: int)
  {
    (row.state.Assigned? || row.state.Running?) && row.lease.Some? && row.lease.value < now
  }

  /** What becomes of a task whose node is lost: back to the queue, with nothing left of its
      assignment, while it has attempts; failed, and for that reason, when it has none. */
  function WithoutNode(max: int, id: string, row: Row): Row
  {
    if row.attempts < max then row.(state := Queued, node := None, attempt := None, lease := None)
    else row.(state := Failed, result := Some(Outcome(id, 0, false, "node lost; retry budget exhausted")))
  }

  /** Expiry is exact, per node, in whatever order the late rows are found: afterwards
      no lease in flight has run out; what moved is what was in flight on a node that
      held a late row; and it moved to the queue or, with its attempts used up, to
      failure. */
  lemma {:induction false} ExpiryExact(max: int, t: Table, now: int, nodes: seq<string>, id: string)
    requires TableOk(max, t) && id in t.rows && TaskRouter.Members(nodes) == LateNodes(t.rows, now)
    ensures var row := t.rows[id];
            var next := LostInTurn(max, t.rows, nodes)[id];
            && !Overdue(next, now)
            && (next != row <==> exists late :: late in t.rows && Overdue(t.rows[late], now)
                                               && (row.state.Assigned? || row.state.Running?)
                                               && t.rows[late].node == row.node)
            && (next != row ==> next == WithoutNode(max, id, row))
  {
    AnyOrder(max, t.rows, nodes);
    OneExpiry(max, t, now, id);
    assert forall late :: late in t.rows ==> (Late(t.rows[late], now) <==> Overdue(t.rows[late], now));
  }

  /** Losing one node does that to all that was in flight on it, and to nothing else. */
  lemma {:induction false} NodeLostIs(max: int, t: Table, node: string, id: string)
    requires id in t.rows
    ensures Lost(max, t, {node}).order == t.order && Lost(max, t, {node}).rows.Keys == t.rows.Keys
    ensures Lost(max, t, {node}).rows[id]
            == if (t.rows[id].state.Assigned? || t.rows[id].state.Running?) && t.rows[id].node == Some(node)
               then WithoutNode(max, id, t.rows[id]) else t.rows[id]
  {
  }

  lemma {:induction false} OneExpiry(max: int, t: Table, now: int, id: string)
    requires TableOk(max, t) && id in t.rows
    ensures var row := t.rows[id];
            var next := LostRows(max, t.rows, LateNodes(t.rows, now))[id];
            && !Late(next, now)
            && (next != row <==> exists late :: late in t.rows && Late(t.rows[late], now) && InFlight(row)
                                               && t.rows[late].node == row.node)
            && (next != row ==> next == if row.attempts < max then RequeueRow(row) else FinishRow(row, NodeLost(id)))
  {
    assert RowOk(max, id, t.rows[id]);
    var nodes := LateNodes(t.rows, now);
    var row := t.rows[id];
    if exists late :: late in t.rows && Late(t.rows[late], now) && InFlight(row) && t.rows[late].node == row.node {
      var late :| late in t.rows && Late(t.rows[late], now) && InFlight(row) && t.rows[late].node == row.node;
      assert t.rows[late].node.value in nodes;
    }
    if Late(t.rows[id], now) {
      assert t.rows[id].node.value in nodes;
    }
  }
}
