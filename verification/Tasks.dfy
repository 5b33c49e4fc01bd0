/** The task table: rows, and what each router operation makes of a row. */
module Tasks {
  import opened Text
  import opened Contexts

  datatype TaskType = Chat | CodeGeneration | CodeEdit | Summarization | Embedding | Other

  /** A task request; an empty `sessionId` or `hint` stands for none. */
  datatype Request = Request(taskId: string, key: string, kind: TaskType, prompt: string, messages: seq<Message>,
                             sessionId: string, hint: string, maxOutput: int, recordTurns: bool)

  datatype State = Queued | Assigned | Running | Succeeded | Failed | Cancelled | Expired

  /** A result message. Attempt ids count up from one; no attempt has id zero. */
  datatype Outcome = Outcome(task: string, attempt: nat, ok: bool, text: string)

  datatype Row = Row(request: Request, state: State, node: Option<string>, attempt: Option<nat>,
                     lease: Option<int>, attempts: nat, result: Option<Outcome>)

  /** Rows by id, the ids in order of submission, and the number of attempt ids drawn. */
  datatype Table = Table(rows: map<string, Row>, order: seq<string>, issued: nat)

  datatype Config = Config(leaseSeconds: int, codeLeaseSeconds: int, maxAttempts: int, queueCap: int)

  predicate InFlight(row: Row)
  {
    row.state.Assigned? || row.state.Running?
  }

  predicate Terminal(row: Row)
  {
    !InFlight(row) && !row.state.Queued?
  }

  /** Is the task on this node right now? */
  predicate On(row: Row, node: string)
  {
    InFlight(row) && row.node == Some(node)
  }

  // ------------------------------------------------------------- one row's moves

  function AssignRow(row: Row, node: string, attempt: nat, lease: int): Row
  {
    row.(state := Assigned, node := Some(node), attempt := Some(attempt), lease := Some(lease),
         attempts := row.attempts + 1)
  }

  function RequeueRow(row: Row): Row
  {
    row.(state := Queued, node := None, attempt := None, lease := None)
  }

  function FinishRow(row: Row, r: Outcome): Row
  {
    row.(state := if r.ok then Succeeded else Failed, result := Some(r))
  }

  function NodeLost(id: string): Outcome
  {
    Outcome(id, 0, false, "node lost; retry budget exhausted")
  }

  function LostRow(max: int, id: string, row: Row): Row
  {
    if row.attempts >= max then FinishRow(row, NodeLost(id)) else RequeueRow(row)
  }

  datatype Reply = Committed | NotCommitted | StaleAttempt

  /** `on_result` for the row it names. */
  function ResultRow(max: int, row: Row, r: Outcome): (Row, Reply)
  {
    if Terminal(row) then (row, NotCommitted)
    else if row.attempt != Some(r.attempt) then (row, StaleAttempt)
    else if !r.ok && row.attempts < max then (RequeueRow(row), NotCommitted)
    else (FinishRow(row, r), Committed)
  }

  /** Everything that may ever happen to a row once it is in the table. */
  predicate RowStep(max: int, id: string, row: Row, next: Row)
  {
    || (row.state.Queued? && next.node.Some? && next.attempt.Some? && next.lease.Some?
        && next == AssignRow(row, next.node.value, next.attempt.value, next.lease.value))
    || (row.state.Assigned? && next == row.(state := Running))
    || (InFlight(row) && row.attempts < max && next == RequeueRow(row))
    || (InFlight(row) && next.result.Some? && row.attempt == Some(next.result.value.attempt)
        && (next.result.value.ok || row.attempts >= max) && next == FinishRow(row, next.result.value))
    || (InFlight(row) && row.attempts >= max && next == FinishRow(row, NodeLost(id)))
    || (!Terminal(row) && next == row.(state := Cancelled))
  }

  // ------------------------------------------------------------- table operations

  function Marked(t: Table, id: string, attempt: nat): Table
  {
    if id in t.rows && t.rows[id].state.Assigned? && t.rows[id].attempt == Some(attempt)
    then t.(rows := t.rows[id := t.rows[id].(state := Running)]) else t
  }

  function Resulted(max: int, t: Table, r: Outcome): (Table, Reply)
  {
    if r.task !in t.rows then (t, NotCommitted)
    else
      var (row, reply) := ResultRow(max, t.rows[r.task], r);
      (t.(rows := t.rows[r.task := row]), reply)
  }

  function LostRows(max: int, rows: map<string, Row>, nodes: set<string>): map<string, Row>
  {
    map id | id in rows ::
      if InFlight(rows[id]) && rows[id].node.Some? && rows[id].node.value in nodes
      then LostRow(max, id, rows[id]) else rows[id]
  }

  /** `on_node_lost`, for several nodes at once. */
  function Lost(max: int, t: Table, nodes: set<string>): Table
  {
    t.(rows := LostRows(max, t.rows, nodes))
  }

  predicate Late(row: Row, now: int)
  {
    InFlight(row) && row.lease.Some? && row.lease.value < now
  }

  /** The nodes that hold a task whose lease has run out. */
  function LateNodes(rows: map<string, Row>, now: int): set<string>
  {
    set id | id in rows && Late(rows[id], now) && rows[id].node.Some? :: rows[id].node.value
  }

  function Cancelling(t: Table, id: string): Table
  {
    if id in t.rows && !Terminal(t.rows[id]) then t.(rows := t.rows[id := t.rows[id].(state := Cancelled)]) else t
  }

  // -------------------------------------------------------------------- submission

  datatype Submission = Accepted(id: string) | QueueFull | IdTaken

  /** The task a key was submitted under before. */
  function ByKey(rows: map<string, Row>, order: seq<string>, key: string): Option<string>
  {
    if order == [] then None
    else if order[0] in rows && rows[order[0]].request.key == key then Some(order[0])
    else ByKey(rows, order[1..], key)
  }

  function Open(rows: map<string, Row>): set<string>
  {
    set id | id in rows && !Terminal(rows[id])
  }

  function NewRow(request: Request): Row
  {
    Row(request, Queued, None, None, None, 0, None)
  }

  /** `submit`; `drawn` is the id made up when the request brings none. */
  function Submitted(cfg: Config, t: Table, request: Request, drawn: string): (Table, Submission)
  {
    var known := ByKey(t.rows, t.order, request.key);
    var id := if request.taskId == "" then drawn else request.taskId;
    if known.Some? then (t, Accepted(known.value))
    else if |Open(t.rows)| >= cfg.queueCap then (t, QueueFull)
    else if id in t.rows then (t, IdTaken)
    else (t.(rows := t.rows[id := NewRow(request.(taskId := id))], order := t.order + [id]), Accepted(id))
  }

  // --------------------------------------------------------------------- invariant

  function Limit(max: int): nat
  {
    if max >= 1 then max else 1
  }

  /** What every row keeps: a queued task has attempts left, a task in flight has a
      node, an attempt and a lease, and a result stands in finished rows only. */
  predicate RowOk(max: int, id: string, row: Row)
  {
    && row.attempts <= Limit(max)
    && (row.state.Queued? ==>
          row.attempts < Limit(max) && row.node.None? && row.attempt.None? && row.lease.None?)
    && (InFlight(row) ==> row.attempts >= 1 && row.node.Some? && row.attempt.Some? && row.lease.Some?)
    && (row.result.Some? <==> row.state.Succeeded? || row.state.Failed?)
    && !row.state.Expired?
    && (row.state.Succeeded? ==> row.result.value.ok && row.attempt == Some(row.result.value.attempt))
    && (row.state.Succeeded? || row.state.Failed? ==> row.node.Some? && row.attempt.Some?)
    && (row.state.Failed? ==>
          !row.result.value.ok && row.attempts == Limit(max)
          && (row.attempt == Some(row.result.value.attempt) || row.result.value == NodeLost(id)))
  }

  lemma {:induction false} StepKeepsOk(max: int, id: string, row: Row, next: Row)
    requires RowOk(max, id, row) && RowStep(max, id, row, next)
    ensures RowOk(max, id, next)
    ensures !Terminal(row)
  {
  }

  ghost predicate Ordered(t: Table)
  {
    && (forall k :: 0 <= k < |t.order| ==> t.order[k] in t.rows)
    && (forall id :: id in t.rows ==> id in t.order)
    && (forall j, k :: 0 <= j < k < |t.order| ==> t.order[j] != t.order[k])
  }

  ghost predicate RowsOk(max: int, rows: map<string, Row>)
  {
    forall id :: id in rows ==> RowOk(max, id, rows[id])
  }

  /** Every attempt a row holds was drawn, and no two rows hold the same. */
  ghost predicate AttemptsOk(rows: map<string, Row>, issued: nat)
  {
    && (forall id :: id in rows && rows[id].attempt.Some? ==> 1 <= rows[id].attempt.value <= issued)
    && (forall i, j :: i in rows && j in rows && i != j && rows[i].attempt.Some?
          ==> rows[i].attempt != rows[j].attempt)
  }

  ghost predicate TableOk(max: int, t: Table)
  {
    Ordered(t) && RowsOk(max, t.rows) && AttemptsOk(t.rows, t.issued)
  }

  /** Each row of `next` is a row of `t`, unmoved or moved once, or newly queued. */
  ghost predicate TableStep(max: int, t: Table, next: Table)
  {
    && t.rows.Keys <= next.rows.Keys
    && t.issued <= next.issued
    && (forall id :: id in t.rows ==> next.rows[id] == t.rows[id] || RowStep(max, id, t.rows[id], next.rows[id]))
    && (forall id :: id in next.rows && id !in t.rows ==> next.rows[id] == NewRow(next.rows[id].request))
    && (forall id :: id in t.rows && next.rows[id].attempt.Some? && next.rows[id].attempt != t.rows[id].attempt
          ==> t.issued < next.rows[id].attempt.value <= next.issued)
  }

  // ------------------------------------------------------------ the operations fit

  /** A row moves without drawing an attempt. */
  predicate QuietRow(max: int, id: string, row: Row, next: Row)
  {
    && (next == row || RowStep(max, id, row, next))
    && (next.attempt.Some? ==> next.attempt == row.attempt)
  }

  ghost predicate QuietRows(max: int, rows: map<string, Row>, next: map<string, Row>)
  {
    && next.Keys == rows.Keys
    && forall id :: id in rows ==> QuietRow(max, id, rows[id], next[id])
  }

  lemma {:induction false} QuietOk(max: int, rows: map<string, Row>, next: map<string, Row>, issued: nat)
    requires RowsOk(max, rows) && AttemptsOk(rows, issued) && QuietRows(max, rows, next)
    ensures RowsOk(max, next) && AttemptsOk(next, issued)
  {
    forall id | id in next ensures RowOk(max, id, next[id]) {
      assert QuietRow(max, id, rows[id], next[id]);
      if next[id] != rows[id] {
        StepKeepsOk(max, id, rows[id], next[id]);
      }
    }
    forall id | id in next && next[id].attempt.Some? ensures next[id].attempt == rows[id].attempt {
      assert QuietRow(max, id, rows[id], next[id]);
    }
  }

  lemma {:induction false} QuietSteps(max: int, t: Table, next: Table)
    requires TableOk(max, t) && next.order == t.order && next.issued == t.issued
    requires QuietRows(max, t.rows, next.rows)
    ensures TableOk(max, next) && TableStep(max, t, next)
  {
    QuietOk(max, t.rows, next.rows, t.issued);
    forall id | id in t.rows
      ensures next.rows[id] == t.rows[id] || RowStep(max, id, t.rows[id], next.rows[id])
      ensures next.rows[id].attempt.Some? ==> next.rows[id].attempt == t.rows[id].attempt
    {
      assert QuietRow(max, id, t.rows[id], next.rows[id]);
    }
  }

  lemma {:induction false} MarkedSteps(max: int, t: Table, id: string, attempt: nat)
    requires TableOk(max, t)
    ensures TableOk(max, Marked(t, id, attempt)) && TableStep(max, t, Marked(t, id, attempt))
  {
    QuietSteps(max, t, Marked(t, id, attempt));
  }

  lemma {:induction false} ResultRowSteps(max: int, id: string, row: Row, r: Outcome)
    requires RowOk(max, id, row)
    ensures QuietRow(max, id, row, ResultRow(max, row, r).0)
  {
  }

  lemma {:induction false} ResultedSteps(max: int, t: Table, r: Outcome)
    requires TableOk(max, t)
    ensures TableOk(max, Resulted(max, t, r).0) && TableStep(max, t, Resulted(max, t, r).0)
  {
    if r.task in t.rows {
      ResultRowSteps(max, r.task, t.rows[r.task], r);
    }
    QuietSteps(max, t, Resulted(max, t, r).0);
  }

  lemma {:induction false} LostRowSteps(max: int, id: string, row: Row)
    requires RowOk(max, id, row) && InFlight(row)
    ensures QuietRow(max, id, row, LostRow(max, id, row))
  {
  }

  lemma {:induction false} LostSteps(max: int, t: Table, nodes: set<string>)
    requires TableOk(max, t)
    ensures TableOk(max, Lost(max, t, nodes)) && TableStep(max, t, Lost(max, t, nodes))
  {
    forall id | id in t.rows ensures QuietRow(max, id, t.rows[id], LostRows(max, t.rows, nodes)[id]) {
      if InFlight(t.rows[id]) {
        LostRowSteps(max, id, t.rows[id]);
      }
    }
    QuietSteps(max, t, Lost(max, t, nodes));
  }

  lemma {:induction false} CancellingSteps(max: int, t: Table, id: string)
    requires TableOk(max, t)
    ensures TableOk(max, Cancelling(t, id)) && TableStep(max, t, Cancelling(t, id))
  {
    QuietSteps(max, t, Cancelling(t, id));
  }

  lemma {:induction false} NewOrdered(t: Table, id: string, row: Row, next: Table)
    requires Ordered(t) && id !in t.rows && next.rows == t.rows[id := row] && next.order == t.order + [id]
    ensures Ordered(next)
  {
    forall i | i in next.rows ensures i in next.order {
      if i == id {
        assert next.order[|t.order|] == id;
      } else {
        assert i in t.order;
      }
    }
  }

  lemma {:induction false} NewRowsOk(max: int, rows: map<string, Row>, issued: nat, id: string, request: Request)
    requires RowsOk(max, rows) && AttemptsOk(rows, issued) && id !in rows
    ensures RowsOk(max, rows[id := NewRow(request)]) && AttemptsOk(rows[id := NewRow(request)], issued)
  {
  }

  lemma {:induction false} SubmittedSteps(cfg: Config, t: Table, request: Request, drawn: string)
    requires TableOk(cfg.maxAttempts, t)
    ensures TableOk(cfg.maxAttempts, Submitted(cfg, t, request, drawn).0)
    ensures TableStep(cfg.maxAttempts, t, Submitted(cfg, t, request, drawn).0)
  {
    var next := Submitted(cfg, t, request, drawn).0;
    var id := if request.taskId == "" then drawn else request.taskId;
    if next != t {
      NewOrdered(t, id, NewRow(request.(taskId := id)), next);
      NewRowsOk(cfg.maxAttempts, t.rows, t.issued, id, request.(taskId := id));
    }
  }
}
