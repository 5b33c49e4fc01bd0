/** The router over whole runs, on a network that repeats, delays and reorders. */
module RouterRuns {
  import opened Text
  import opened Tally
  import opened Tasks
  import opened Scoring
  import opened Scheduling
  import opened Dispatching

  /** An assignment as it was sent to a node. */
  datatype Order = Order(task: string, attempt: nat, node: string)

  /** A result message and the node that sent it. */
  datatype Report = Report(from: string, outcome: Outcome)

  /** The table, every assignment sent so far and every result sent so far. Nothing
      is ever taken out of the network, so each message may arrive at any later time,
      any number of times, or never. */
  datatype System = System(t: Table, orders: set<Order>, reports: set<Report>)

  datatype Step =
    | Submit(request: Request, drawn: string)
    | Schedule(w: World, nodes: seq<Node>, now: int)
    | Progress(task: string, attempt: nat)
    | Work(order: Order, ok: bool, text: string)
    | Deliver(report: Report)
    | LoseNode(node: string)
    | Expire(now: int)
    | Cancel(task: string)

  function OrdersOf(out: seq<Dispatch>): set<Order>
  {
    set k | 0 <= k < |out| :: Order(out[k].task, out[k].attempt, out[k].node)
  }

  /** What the steps demand: nodes offer no more slots than they are known for, a node
      reports on what it was sent, and only what was reported arrives. */
  ghost predicate Allowed(caps: map<string, nat>, s: System, step: Step)
  {
    match step
    case Schedule(w, nodes, now) => Modelled(nodes) && Capped(nodes, caps)
    case Work(order, ok, text) => order in s.orders
    case Deliver(report) => report in s.reports
    case _ => true
  }

  function Do(cfg: Config, s: System, step: Step): System
  {
    match step
    case Submit(request, drawn) => s.(t := Submitted(cfg, s.t, request, drawn).0)
    case Schedule(w, nodes, now) =>
      if Modelled(nodes) then
        var p := Scheduled(Env(cfg, w, nodes, now), s.t);
        s.(t := p.t, orders := s.orders + OrdersOf(p.out))
      else s
    case Progress(task, attempt) => s.(t := Marked(s.t, task, attempt))
    case Work(order, ok, text) =>
      s.(reports := s.reports + {Report(order.node, Outcome(order.task, order.attempt, ok, text))})
    case Deliver(report) => s.(t := Resulted(cfg.maxAttempts, s.t, report.outcome).0)
    case LoseNode(node) => s.(t := Lost(cfg.maxAttempts, s.t, {node}))
    case Expire(now) => s.(t := Lost(cfg.maxAttempts, s.t, LateNodes(s.t.rows, now)))
    case Cancel(task) => s.(t := Cancelling(s.t, task))
  }

  function Run(cfg: Config, s: System, steps: seq<Step>): System
  {
    if steps == [] then s else Do(cfg, Run(cfg, s, steps[..|steps| - 1]), steps[|steps| - 1])
  }

  ghost predicate AllAllowed(cfg: Config, caps: map<string, nat>, s: System, steps: seq<Step>)
  {
    forall k :: 0 <= k < |steps| ==> Allowed(caps, Run(cfg, s, steps[..k]), steps[k])
  }

  const EMPTY: System := System(Table(map[], [], 0), {}, {})

  // ------------------------------------------------------------------- invariant

  /** Each attempt went to one task on one node, and was drawn before. */
  ghost predicate OrdersOk(orders: set<Order>, issued: nat)
  {
    && (forall o :: o in orders ==> 1 <= o.attempt <= issued)
    && (forall o, p :: o in orders && p in orders && o.attempt == p.attempt ==> o == p)
  }

  /** A row's node and attempt are those of an assignment that was sent. */
  ghost predicate RowsOrdered(rows: map<string, Row>, orders: set<Order>)
  {
    forall id :: id in rows && rows[id].attempt.Some? ==>
      rows[id].node.Some? && Order(id, rows[id].attempt.value, rows[id].node.value) in orders
  }

  /** No assignment of the task is later than the one its row stands for. */
  ghost predicate RowsLatest(rows: map<string, Row>, orders: set<Order>)
  {
    forall o :: o in orders && o.task in rows && rows[o.task].attempt.Some? ==>
      o.attempt <= rows[o.task].attempt.value
  }

  function OrderOf(report: Report): Order
  {
    Order(report.outcome.task, report.outcome.attempt, report.from)
  }

  ghost predicate ReportsOk(reports: set<Report>, orders: set<Order>)
  {
    forall report :: report in reports ==> OrderOf(report) in orders
  }

  /** A result that stands in a row was reported by the node the row names, or says
      that the node was lost. */
  predicate Sourced(id: string, row: Row, reports: set<Report>)
  {
    row.result.Some? ==>
      || (row.node.Some? && row.attempt == Some(row.result.value.attempt)
          && Report(row.node.value, row.result.value) in reports)
      || row.result.value == NodeLost(id)
  }

  ghost predicate RowsSourced(rows: map<string, Row>, reports: set<Report>)
  {
    forall id :: id in rows ==> Sourced(id, rows[id], reports)
  }

  ghost predicate Inv(cfg: Config, caps: map<string, nat>, s: System)
  {
    && TableOk(cfg.maxAttempts, s.t)
    && Within(s.t.rows, caps)
    && OrdersOk(s.orders, s.t.issued)
    && RowsOrdered(s.t.rows, s.orders) && RowsLatest(s.t.rows, s.orders)
    && ReportsOk(s.reports, s.orders)
    && RowsSourced(s.t.rows, s.reports)
  }

  // ----------------------------------------------------------- every step keeps it

  /** Rows move without an assignment, and any new result is in hand. */
  lemma {:induction false} QuietSystem(cfg: Config, caps: map<string, nat>, s: System, t: Table)
    requires Inv(cfg, caps, s) && t.order == s.t.order && t.issued == s.t.issued
    requires QuietRows(cfg.maxAttempts, s.t.rows, t.rows)
    requires RowsSourced(t.rows, s.reports)
    ensures Inv(cfg, caps, s.(t := t))
  {
    QuietSteps(cfg.maxAttempts, s.t, t);
    QuietWithin(cfg.maxAttempts, s.t.rows, t.rows, caps);
    QuietOrdered(cfg.maxAttempts, s.t.rows, t.rows, s.orders);
    QuietLatest(cfg.maxAttempts, s.t.rows, t.rows, s.orders);
  }

  lemma {:induction false} QuietLatest(max: int, rows: map<string, Row>, next: map<string, Row>, orders: set<Order>)
    requires RowsOk(max, rows) && QuietRows(max, rows, next) && RowsLatest(rows, orders)
    ensures RowsLatest(next, orders)
  {
    forall o | o in orders && o.task in next && next[o.task].attempt.Some?
      ensures o.attempt <= next[o.task].attempt.value
    {
      assert QuietRow(max, o.task, rows[o.task], next[o.task]);
      QuietNode(max, o.task, rows[o.task], next[o.task]);
    }
  }

  lemma {:induction false} QuietNode(max: int, id: string, row: Row, next: Row)
    requires RowOk(max, id, row) && QuietRow(max, id, row, next) && next.attempt.Some?
    ensures next.node == row.node && next.attempt == row.attempt
  {
  }

  lemma {:induction false} QuietOrdered(max: int, rows: map<string, Row>, next: map<string, Row>, orders: set<Order>)
    requires RowsOk(max, rows) && QuietRows(max, rows, next) && RowsOrdered(rows, orders)
    ensures RowsOrdered(next, orders)
  {
    forall id | id in next && next[id].attempt.Some?
      ensures next[id].node.Some? && Order(id, next[id].attempt.value, next[id].node.value) in orders
    {
      assert QuietRow(max, id, rows[id], next[id]);
      QuietNode(max, id, rows[id], next[id]);
    }
  }

  /** A result that counts comes from the node the task is on. */
  lemma {:induction false} FromItsNode(cfg: Config, caps: map<string, nat>, s: System, report: Report)
    requires Inv(cfg, caps, s) && report in s.reports && report.outcome.task in s.t.rows
    requires s.t.rows[report.outcome.task].attempt == Some(report.outcome.attempt)
    ensures s.t.rows[report.outcome.task].node == Some(report.from)
  {
    var row := s.t.rows[report.outcome.task];
    assert OrderOf(report) in s.orders;
    assert Order(report.outcome.task, row.attempt.value, row.node.value) in s.orders;
  }

  lemma {:induction false} DeliverKeeps(cfg: Config, caps: map<string, nat>, s: System, report: Report)
    requires Inv(cfg, caps, s) && report in s.reports
    ensures Inv(cfg, caps, Do(cfg, s, Deliver(report)))
  {
    var r := report.outcome;
    var t := Resulted(cfg.maxAttempts, s.t, r).0;
    if r.task in s.t.rows {
      var row := s.t.rows[r.task];
      ResultRowSteps(cfg.maxAttempts, r.task, row, r);
      if row.attempt == Some(r.attempt) {
        FromItsNode(cfg, caps, s, report);
      }
      assert Sourced(r.task, row, s.reports);
      assert Sourced(r.task, t.rows[r.task], s.reports);
      QuietSystem(cfg, caps, s, t);
    }
  }

  lemma {:induction false} LostSourced(max: int, rows: map<string, Row>, nodes: set<string>, reports: set<Report>)
    requires RowsOk(max, rows) && RowsSourced(rows, reports)
    ensures QuietRows(max, rows, LostRows(max, rows, nodes)) && RowsSourced(LostRows(max, rows, nodes), reports)
  {
    forall id | id in rows
      ensures QuietRow(max, id, rows[id], LostRows(max, rows, nodes)[id])
      ensures Sourced(id, LostRows(max, rows, nodes)[id], reports)
    {
      assert RowOk(max, id, rows[id]) && Sourced(id, rows[id], reports);
      if InFlight(rows[id]) {
        LostRowSteps(max, id, rows[id]);
      }
    }
  }

  lemma {:induction false} LostKeeps(cfg: Config, caps: map<string, nat>, s: System, nodes: set<string>)
    requires Inv(cfg, caps, s)
    ensures Inv(cfg, caps, s.(t := Lost(cfg.maxAttempts, s.t, nodes)))
  {
    LostSourced(cfg.maxAttempts, s.t.rows, nodes, s.reports);
    QuietSystem(cfg, caps, s, Lost(cfg.maxAttempts, s.t, nodes));
  }

  /** A change of one row's state leaves its result where it came from. */
  lemma {:induction false} OneSourced(rows: map<string, Row>, task: string, next: map<string, Row>,
                                      reports: set<Report>)
    requires RowsSourced(rows, reports) && next.Keys == rows.Keys
    requires forall id :: id in rows && id != task ==> next[id] == rows[id]
    requires task in rows ==> next[task].node == rows[task].node && next[task].attempt == rows[task].attempt
                              && next[task].result == rows[task].result
    ensures RowsSourced(next, reports)
  {
    forall id | id in next ensures Sourced(id, next[id], reports) {
      assert Sourced(id, rows[id], reports);
    }
  }

  lemma {:induction false} MarkedQuiet(max: int, t: Table, task: string, attempt: nat)
    ensures QuietRows(max, t.rows, Marked(t, task, attempt).rows)
  {
  }

  lemma {:induction false} CancellingQuiet(max: int, t: Table, task: string)
    ensures QuietRows(max, t.rows, Cancelling(t, task).rows)
  {
  }

  lemma {:induction false} MarkKeeps(cfg: Config, caps: map<string, nat>, s: System, task: string, attempt: nat)
    requires Inv(cfg, caps, s)
    ensures Inv(cfg, caps, s.(t := Marked(s.t, task, attempt)))
  {
    OneSourced(s.t.rows, task, Marked(s.t, task, attempt).rows, s.reports);
    MarkedQuiet(cfg.maxAttempts, s.t, task, attempt);
    QuietSystem(cfg, caps, s, Marked(s.t, task, attempt));
  }

  lemma {:induction false} CancelKeeps(cfg: Config, caps: map<string, nat>, s: System, task: string)
    requires Inv(cfg, caps, s)
    ensures Inv(cfg, caps, s.(t := Cancelling(s.t, task)))
  {
    OneSourced(s.t.rows, task, Cancelling(s.t, task).rows, s.reports);
    CancellingQuiet(cfg.maxAttempts, s.t, task);
    QuietSystem(cfg, caps, s, Cancelling(s.t, task));
  }

  lemma {:induction false} NewWithin(rows: map<string, Row>, id: string, request: Request, caps: map<string, nat>)
    requires Within(rows, caps) && id !in rows
    ensures Within(rows[id := NewRow(request)], caps)
  {
    forall node: string ensures |Held(rows[id := NewRow(request)], node)| <= CapOf(caps, node) {
      assert Held(rows[id := NewRow(request)], node) == Held(rows, node);
      assert |Held(rows, node)| <= CapOf(caps, node);
    }
  }

  lemma {:induction false} NewIdle(rows: map<string, Row>, id: string, row: Row, orders: set<Order>,
                                   reports: set<Report>)
    requires id !in rows && row.attempt.None? && row.result.None?
    requires RowsOrdered(rows, orders) && RowsLatest(rows, orders) && RowsSourced(rows, reports)
    ensures RowsOrdered(rows[id := row], orders) && RowsLatest(rows[id := row], orders)
    ensures RowsSourced(rows[id := row], reports)
  {
  }

  lemma {:induction false} SubmitKeeps(cfg: Config, caps: map<string, nat>, s: System, request: Request, drawn: string)
    requires Inv(cfg, caps, s)
    ensures Inv(cfg, caps, s.(t := Submitted(cfg, s.t, request, drawn).0))
  {
    var id := if request.taskId == "" then drawn else request.taskId;
    SubmittedSteps(cfg, s.t, request, drawn);
    if Submitted(cfg, s.t, request, drawn).0 != s.t {
      NewWithin(s.t.rows, id, request.(taskId := id), caps);
      NewIdle(s.t.rows, id, NewRow(request.(taskId := id)), s.orders, s.reports);
    }
  }

  lemma {:induction false} WorkKeeps(cfg: Config, caps: map<string, nat>, s: System, order: Order, ok: bool,
                                     text: string)
    requires Inv(cfg, caps, s) && order in s.orders
    ensures Inv(cfg, caps, Do(cfg, s, Work(order, ok, text)))
  {
    var report := Report(order.node, Outcome(order.task, order.attempt, ok, text));
    assert OrderOf(report) == order;
    forall id | id in s.t.rows ensures Sourced(id, s.t.rows[id], s.reports + {report}) {
      assert Sourced(id, s.t.rows[id], s.reports);
    }
  }

  /** The orders of a pass are its own attempts, each once. */
  lemma {:induction false} OutAttempts(t: Table, p: Pass)
    requires Dealing(t, p)
    ensures forall o :: o in OrdersOf(p.out) ==> t.issued < o.attempt <= p.t.issued
    ensures forall o, q :: o in OrdersOf(p.out) && q in OrdersOf(p.out) && o.attempt == q.attempt ==> o == q
  {
    forall k | 0 <= k < |p.out| ensures p.out[k].attempt == t.issued + 1 + k {
      assert DispatchOf(t.rows, p.t.rows, t.issued + 1 + k, p.out[k]);
    }
  }

  lemma {:induction false} OutOrders(t: Table, p: Pass, orders: set<Order>)
    requires Dealing(t, p) && OrdersOk(orders, t.issued) && RowsOrdered(t.rows, orders)
    ensures OrdersOk(orders + OrdersOf(p.out), p.t.issued)
    ensures RowsOrdered(p.t.rows, orders + OrdersOf(p.out))
  {
    var all := orders + OrdersOf(p.out);
    OutAttempts(t, p);
    forall id | id in p.t.rows && p.t.rows[id].attempt.Some?
      ensures p.t.rows[id].node.Some? && Order(id, p.t.rows[id].attempt.value, p.t.rows[id].node.value) in all
    {
      if p.t.rows[id] != t.rows[id] {
        assert Sent(p.out, id);
        var k :| 0 <= k < |p.out| && p.out[k].task == id;
        assert DispatchOf(t.rows, p.t.rows, t.issued + 1 + k, p.out[k]);
        assert Order(p.out[k].task, p.out[k].attempt, p.out[k].node) in OrdersOf(p.out);
      }
    }
  }

  /** An assignment of the pass is its task's latest. */
  lemma {:induction false} OutLatest(t: Table, p: Pass, orders: set<Order>)
    requires Dealing(t, p) && OrdersOk(orders, t.issued) && RowsLatest(t.rows, orders)
    ensures RowsLatest(p.t.rows, orders + OrdersOf(p.out))
  {
    forall o | o in orders + OrdersOf(p.out) && o.task in p.t.rows && p.t.rows[o.task].attempt.Some?
      ensures o.attempt <= p.t.rows[o.task].attempt.value
    {
      if o in orders {
        var row, next := t.rows[o.task], p.t.rows[o.task];
        assert next == row || DealtRow(row, next, t.issued, p.t.issued);
      } else {
        var k :| 0 <= k < |p.out| && o == Order(p.out[k].task, p.out[k].attempt, p.out[k].node);
        assert DispatchOf(t.rows, p.t.rows, t.issued + 1 + k, p.out[k]);
      }
    }
  }

  lemma {:induction false} DealtSourced(rows: map<string, Row>, next: map<string, Row>, before: nat, after: nat,
                                        reports: set<Report>)
    requires DealtRows(rows, next, before, after) && RowsSourced(rows, reports)
    requires forall id :: id in rows && rows[id].state.Queued? ==> rows[id].result.None?
    ensures RowsSourced(next, reports)
  {
    forall id | id in next ensures Sourced(id, next[id], reports) {
      assert Sourced(id, rows[id], reports);
      assert next[id] == rows[id] || DealtRow(rows[id], next[id], before, after);
    }
  }

  lemma {:induction false} ScheduleKeeps(cfg: Config, caps: map<string, nat>, s: System, e: Env)
    requires Inv(cfg, caps, s) && e.cfg == cfg && Modelled(e.nodes) && Capped(e.nodes, caps)
    ensures Inv(cfg, caps, s.(t := Scheduled(e, s.t).t, orders := s.orders + OrdersOf(Scheduled(e, s.t).out)))
  {
    var p := Scheduled(e, s.t);
    ScheduledDeals(e, s.t);
    ScheduledSteps(cfg.maxAttempts, e, s.t);
    ScheduledWithin(e, s.t, caps);
    OutOrders(s.t, p, s.orders);
    OutLatest(s.t, p, s.orders);
    QueuedNoResult(cfg.maxAttempts, s.t.rows);
    DealtSourced(s.t.rows, p.t.rows, s.t.issued, p.t.issued, s.reports);
    assert ReportsOk(s.reports, s.orders + OrdersOf(p.out));
  }

  lemma {:induction false} QueuedNoResult(max: int, rows: map<string, Row>)
    requires RowsOk(max, rows)
    ensures forall id :: id in rows && rows[id].state.Queued? ==> rows[id].result.None?
  {
    forall id | id in rows && rows[id].state.Queued? ensures rows[id].result.None? {
      assert RowOk(max, id, rows[id]);
    }
  }

  lemma {:induction false} DoKeeps(cfg: Config, caps: map<string, nat>, s: System, step: Step)
    requires Inv(cfg, caps, s) && Allowed(caps, s, step)
    ensures Inv(cfg, caps, Do(cfg, s, step))
  {
    match step
    case Submit(request, drawn) => SubmitKeeps(cfg, caps, s, request, drawn);
    case Schedule(w, nodes, now) => ScheduleKeeps(cfg, caps, s, Env(cfg, w, nodes, now));
    case Progress(task, attempt) => MarkKeeps(cfg, caps, s, task, attempt);
    case Work(order, ok, text) => WorkKeeps(cfg, caps, s, order, ok, text);
    case Deliver(report) => DeliverKeeps(cfg, caps, s, report);
    case LoseNode(node) => LostKeeps(cfg, caps, s, {node});
    case Expire(now) => LostKeeps(cfg, caps, s, LateNodes(s.t.rows, now));
    case Cancel(task) => CancelKeeps(cfg, caps, s, task);
  }

  lemma {:induction false} AllowedHead(cfg: Config, caps: map<string, nat>, s: System, steps: seq<Step>)
    requires steps != [] && AllAllowed(cfg, caps, s, steps)
    ensures AllAllowed(cfg, caps, s, steps[..|steps| - 1])
    ensures Allowed(caps, Run(cfg, s, steps[..|steps| - 1]), steps[|steps| - 1])
  {
    var init := steps[..|steps| - 1];
    forall k | 0 <= k < |init| ensures Allowed(caps, Run(cfg, s, init[..k]), init[k]) {
      assert init[..k] == steps[..k];
    }
  }

  /** Whatever happens, in whatever order: the table and the network stay consistent,
      and no node is ever given more than its slots. */
  lemma {:induction false} RunKeeps(cfg: Config, caps: map<string, nat>, s: System, steps: seq<Step>)
    requires Inv(cfg, caps, s) && AllAllowed(cfg, caps, s, steps)
    ensures Inv(cfg, caps, Run(cfg, s, steps))
  {
    if steps != [] {
      AllowedHead(cfg, caps, s, steps);
      RunKeeps(cfg, caps, s, steps[..|steps| - 1]);
      DoKeeps(cfg, caps, Run(cfg, s, steps[..|steps| - 1]), steps[|steps| - 1]);
    }
  }
}
