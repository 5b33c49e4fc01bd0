/** The router as it is: a table updated row by row. */
module TaskRouter {
  import opened Text
  import opened Tasks
  import opened Scoring
  import opened Scheduling
  import opened Dispatching
  import opened NodeRegistry

  // ------------------------------------------------------------------ queries

  /** The tasks in flight on a node, oldest first. */
  function FlightOn(rows: map<string, Row>, order: seq<string>, node: string): (ids: seq<string>)
    ensures forall id :: id in ids <==> id in order && id in rows && On(rows[id], node)
  {
    if order == [] then []
    else
      var last := order[|order| - 1];
      assert order == order[..|order| - 1] + [last];
      FlightOn(rows, order[..|order| - 1], node) + if last in rows && On(rows[last], node) then [last] else []
  }

  lemma {:induction false} FlightOnce(rows: map<string, Row>, order: seq<string>, node: string)
    requires Distinct(order)
    ensures Distinct(FlightOn(rows, order, node))
  {
    if order != [] {
      FlightOnce(rows, order[..|order| - 1], node);
      var ids := FlightOn(rows, order[..|order| - 1], node);
      assert forall k :: 0 <= k < |ids| ==> ids[k] in order[..|order| - 1];
    }
  }

  /** The nodes of the tasks whose lease has run out, once for each such task. */
  function LateList(rows: map<string, Row>, order: seq<string>, now: int): (nodes: seq<string>)
    ensures forall n :: n in nodes <==>
              exists id :: id in order && id in rows && Late(rows[id], now) && rows[id].node == Some(n)
  {
    if order == [] then []
    else
      var init, last := order[..|order| - 1], order[|order| - 1];
      assert order == init + [last];
      LateList(rows, init, now)
      + if last in rows && Late(rows[last], now) && rows[last].node.Some? then [rows[last].node.value] else []
  }

  function Members(s: seq<string>): (m: set<string>)
    ensures forall x :: x in m <==> x in s
  {
    set x | x in s
  }

  function Busy(rows: map<string, Row>): (nodes: set<string>)
  {
    set id | id in rows && InFlight(rows[id]) && rows[id].node.Some? :: rows[id].node.value
  }

  /** `GROUP BY assigned_node` over the tasks in flight. */
  function Counts(rows: map<string, Row>): map<string, nat>
  {
    map node | node in Busy(rows) :: |Held(rows, node)|
  }

  lemma {:induction false} CountsHeld(rows: map<string, Row>, node: string)
    ensures Count(Counts(rows), node) == |Held(rows, node)|
  {
    assert forall id :: id in rows && On(rows[id], node) ==> rows[id].node.value in Busy(rows);
    if node !in Busy(rows) {
      assert Held(rows, node) == {};
    }
  }

  function Count(counts: map<string, nat>, node: string): nat
  {
    if node in counts then counts[node] else 0
  }

  // ------------------------------------------------------ rows lost one at a time

  function LostSome(max: int, rows: map<string, Row>, ids: set<string>): map<string, Row>
  {
    map id | id in rows :: if id in ids then LostRow(max, id, rows[id]) else rows[id]
  }

  /** The ids that go back to the queue. */
  function Requeued(max: int, rows: map<string, Row>, ids: seq<string>): seq<string>
  {
    if ids == [] then []
    else
      var last := ids[|ids| - 1];
      Requeued(max, rows, ids[..|ids| - 1]) + if last in rows && rows[last].attempts < max then [last] else []
  }

  lemma {:induction false} RequeuedMembers(max: int, rows: map<string, Row>, ids: seq<string>)
    ensures forall id :: id in Requeued(max, rows, ids) <==> id in ids && id in rows && rows[id].attempts < max
    ensures Distinct(ids) ==> Distinct(Requeued(max, rows, ids))
  {
    if ids != [] {
      var init := ids[..|ids| - 1];
      assert ids == init + [ids[|ids| - 1]];
      RequeuedMembers(max, rows, init);
      assert forall k :: 0 <= k < |Requeued(max, rows, init)| ==> Requeued(max, rows, init)[k] in init;
    }
  }

  lemma {:induction false} LostSomeNext(max: int, rows: map<string, Row>, ids: set<string>, id: string)
    requires id in rows && id !in ids
    ensures LostSome(max, rows, ids)[id := LostRow(max, id, rows[id])] == LostSome(max, rows, ids + {id})
    ensures LostSome(max, rows, ids)[id] == rows[id]
  {
  }

  /** One more of the lost tasks is dealt with. */
  lemma {:induction false} LostNext(max: int, before: map<string, Row>, ids: seq<string>, k: nat, rows: map<string,
                                    Row>)
    requires k < |ids| && Distinct(ids) && ids[k] in before
    requires rows == LostSome(max, before, Members(ids[..k]))
    ensures ids[k] in rows && rows[ids[k]] == before[ids[k]]
    ensures rows[ids[k] := LostRow(max, ids[k], before[ids[k]])] == LostSome(max, before, Members(ids[..k + 1]))
    ensures Requeued(max, before, ids[..k + 1])
            == Requeued(max, before, ids[..k]) + if before[ids[k]].attempts < max then [ids[k]] else []
  {
    assert ids[..k + 1][..k] == ids[..k] && ids[..k + 1][k] == ids[k];
    assert ids[..k + 1] == ids[..k] + [ids[k]];
    assert Members(ids[..k + 1]) == Members(ids[..k]) + {ids[k]};
    LostSomeNext(max, before, Members(ids[..k]), ids[k]);
  }

  lemma {:induction false} LostNone(max: int, rows: map<string, Row>)
    ensures LostSome(max, rows, Members([])) == rows
    ensures LostRows(max, rows, Members([])) == rows
  {
  }

  lemma {:induction false} LostAll(max: int, t: Table, node: string)
    requires Ordered(t)
    ensures LostSome(max, t.rows, Members(FlightOn(t.rows, t.order, node))) == LostRows(max, t.rows, {node})
  {
    var ids := Members(FlightOn(t.rows, t.order, node));
    forall id | id in t.rows ensures id in ids <==> On(t.rows[id], node) {
      assert id in t.order;
    }
  }

  lemma {:induction false} LostTwice(max: int, rows: map<string, Row>, nodes: set<string>, node: string)
    ensures LostRows(max, LostRows(max, rows, nodes), {node}) == LostRows(max, rows, nodes + {node})
  {
    var once := LostRows(max, rows, nodes);
    forall id | id in rows
      ensures LostRows(max, once, {node})[id] == LostRows(max, rows, nodes + {node})[id]
    {
    }
  }

  lemma {:induction false} LateSame(t: Table, now: int)
    requires Ordered(t)
    ensures Members(LateList(t.rows, t.order, now)) == LateNodes(t.rows, now)
  {
    forall n | n in LateNodes(t.rows, now) ensures n in LateList(t.rows, t.order, now) {
      var id :| id in t.rows && Late(t.rows[id], now) && t.rows[id].node == Some(n);
      assert id in t.order;
    }
  }

  // ------------------------------------------------------------------ free nodes

  lemma {:induction false} FreeAppend(nodes: seq<Node>, n: Node, rows: map<string, Row>)
    ensures Free(nodes + [n], rows) == Free(nodes, rows) + if HasSlot(rows, n) then [n] else []
  {
    if nodes == [] {
      assert nodes + [n] == [n];
    } else {
      assert (nodes + [n])[1..] == nodes[1..] + [n];
      FreeAppend(nodes[1..], n, rows);
    }
  }

  function Drop(nodes: seq<Node>, id: string): seq<Node>
  {
    if nodes == [] then []
    else (if nodes[0].id == id then [] else [nodes[0]]) + Drop(nodes[1..], id)
  }

  lemma {:induction false} FreeSame(nodes: seq<Node>, rows: map<string, Row>, next: map<string, Row>)
    requires forall n :: n in nodes ==> (HasSlot(rows, n) <==> HasSlot(next, n))
    ensures Free(nodes, rows) == Free(nodes, next)
  {
    if nodes != [] {
      FreeSame(nodes[1..], rows, next);
    }
  }

  lemma {:induction false} FreeDrop(nodes: seq<Node>, rows: map<string, Row>, next: map<string, Row>, id: string)
    requires forall n :: n in nodes && n.id != id ==> (HasSlot(rows, n) <==> HasSlot(next, n))
    requires forall n :: n in nodes && n.id == id ==> !HasSlot(next, n)
    ensures Drop(Free(nodes, rows), id) == Free(nodes, next)
  {
    if nodes != [] {
      FreeDrop(nodes[1..], rows, next, id);
      if HasSlot(rows, nodes[0]) {
        assert Free(nodes, rows)[1..] == Free(nodes[1..], rows);
      } else {
        assert Free(nodes, rows) == Free(nodes[1..], rows);
      }
    }
  }

  lemma {:induction false} OneOfId(nodes: seq<Node>, n: Node, m: Node)
    requires DistinctIds(nodes) && n in nodes && m in nodes && n.id == m.id
    ensures n == m
  {
    var j :| 0 <= j < |nodes| && nodes[j] == n;
    var k :| 0 <= k < |nodes| && nodes[k] == m;
    assert j == k;
  }

  /** An assignment adds one to its node's tasks, and nothing to any other's. */
  lemma {:induction false} HeldGrowth(rows: map<string, Row>, id: string, node: string, attempt: nat, lease: int,
                                      next: map<string, Row>)
    requires id in rows && rows[id].state.Queued? && next == rows[id := AssignRow(rows[id], node, attempt, lease)]
    ensures |Held(next, node)| == |Held(rows, node)| + 1
    ensures forall other :: other != node ==> Held(next, other) == Held(rows, other)
  {
    HeldAfter(rows, id, node, attempt, lease, node);
    forall other | other != node ensures Held(next, other) == Held(rows, other) {
      HeldAfter(rows, id, node, attempt, lease, other);
      assert Held(rows, other) + {} == Held(rows, other);
    }
  }

  /** The ready list after an assignment: its node goes once it is full. */
  lemma {:induction false} FreeAfter(nodes: seq<Node>, rows: map<string, Row>, n: Node, next: map<string, Row>)
    requires DistinctIds(nodes) && Modelled(nodes) && n in nodes && HasSlot(rows, n)
    requires |Held(next, n.id)| == |Held(rows, n.id)| + 1
    requires forall other :: other != n.id ==> Held(next, other) == Held(rows, other)
    ensures |Held(next, n.id)| >= Slots(n.model.value) ==> Free(nodes, next) == Drop(Free(nodes, rows), n.id)
    ensures |Held(next, n.id)| < Slots(n.model.value) ==> Free(nodes, next) == Free(nodes, rows)
  {
    forall m | m in nodes && m.id == n.id ensures m == n {
      OneOfId(nodes, m, n);
    }
    if |Held(next, n.id)| >= Slots(n.model.value) {
      FreeDrop(nodes, rows, next, n.id);
    } else {
      FreeSame(nodes, rows, next);
    }
  }

  lemma {:induction false} TurnStuck(e: Env, p: Pass, id: string)
    requires Modelled(e.nodes) && Free(e.nodes, p.t.rows) == []
    ensures Turn(e, p, id) == p
  {
    if id in p.t.rows {
      assert Choice(e.w, p.t.rows[id].request, Free(e.nodes, p.t.rows)).None?;
    }
  }

  /** With no node free, the rest of the pass does nothing. */
  lemma {:induction false} AtStuck(e: Env, t: Table, k: nat, m: nat, p: Pass)
    requires Modelled(e.nodes) && k <= m <= |QueuedIds(t.rows, t.order)|
    requires p == At(e, t, k) && Free(e.nodes, p.t.rows) == []
    ensures At(e, t, m) == p
    decreases m
  {
    if k < m {
      AtStuck(e, t, k, m - 1, p);
      AtSteps(e, t, m - 1);
      TurnStuck(e, p, QueuedIds(t.rows, t.order)[m - 1]);
    }
  }

  // ---------------------------------------------------------------------- the class

  lemma {:induction false} HighestNext(scores: seq<real>, k: nat, at: nat)
    requires 1 <= k < |scores| && at == FirstHighest(scores[..k])
    ensures FirstHighest(scores[..k + 1]) == if scores[k] > scores[at] then k else at
  {
    assert scores[..k + 1][..k] == scores[..k] && scores[..k + 1][k] == scores[k];
  }

  method Highest(scores: seq<real>) returns (at: nat)
    requires scores != []
    ensures at == FirstHighest(scores)
  {
    at := 0;
    assert scores[..1] == [scores[0]];
    for k := 1 to |scores|
      invariant 0 <= at < k && at == FirstHighest(scores[..k])
    {
      HighestNext(scores, k, at);
      if scores[k] > scores[at] {
        at := k;
      }
    }
    assert scores[..|scores|] == scores;
  }

  /** Scores every candidate and takes the first of the highest. */
  method Rank(w: World, request: Request, candidates: seq<Node>) returns (best: Node)
    requires candidates != [] && Modelled(candidates)
    ensures best == Best(w, request, candidates)
  {
    var at := Highest(Scores(w, request, candidates));
    best := candidates[at];
  }

  /** Where a task goes: in its cluster, to the best score, unless that is a refusal. */
  method Choose(w: World, request: Request, ready: seq<Node>) returns (choice: Option<Node>)
    requires Modelled(ready)
    ensures choice == Choice(w, request, ready)
  {
    var matched := Matching(ready, Placement(w, request).0);
    if matched == [] { return None; }
    var best := Rank(w, request, matched);
    choice := if Worth(w, request, best) <= REFUSED then None else Some(best);
  }

  ghost predicate Tallies(active: map<string, nat>, rows: map<string, Row>)
  {
    forall node :: Count(active, node) == |Held(rows, node)|
  }

  lemma {:induction false} CountsTally(rows: map<string, Row>)
    ensures Tallies(Counts(rows), rows)
  {
    forall node ensures Count(Counts(rows), node) == |Held(rows, node)| {
      CountsHeld(rows, node);
    }
  }

  /** The nodes that are not at their slots already. */
  method Unfilled(nodes: seq<Node>, active: map<string, nat>, ghost rows: map<string, Row>) returns (ready: seq<Node>)
    requires Modelled(nodes) && Tallies(active, rows)
    ensures ready == Free(nodes, rows)
  {
    ready := [];
    for k := 0 to |nodes|
      invariant ready == Free(nodes[..k], rows)
    {
      assert nodes[..k + 1] == nodes[..k] + [nodes[k]];
      FreeAppend(nodes[..k], nodes[k], rows);
      assert Count(active, nodes[k].id) == |Held(rows, nodes[k].id)|;
      if Count(active, nodes[k].id) < Slots(nodes[k].model.value) {
        ready := ready + [nodes[k]];
      }
    }
    assert nodes[..|nodes|] == nodes;
  }

  /** Counts an assignment, and takes its node off the list once it is full. */
  method Fill(ghost nodes: seq<Node>, active: map<string, nat>, ready: seq<Node>, n: Node, ghost rows: map<string, Row>,
              ghost next: map<string, Row>) returns (active': map<string, nat>, ready': seq<Node>)
    requires DistinctIds(nodes) && Modelled(nodes) && n in nodes && HasSlot(rows, n)
    requires |Held(next, n.id)| == |Held(rows, n.id)| + 1
    requires forall other :: other != n.id ==> Held(next, other) == Held(rows, other)
    requires Tallies(active, rows) && ready == Free(nodes, rows)
    ensures Tallies(active', next) && ready' == Free(nodes, next)
  {
    FreeAfter(nodes, rows, n, next);
    assert Count(active, n.id) == |Held(rows, n.id)|;
    var count: nat := Count(active, n.id) + 1;
    active' := active[n.id := count];
    forall node ensures Count(active', node) == |Held(next, node)| {
      assert Count(active, node) == |Held(rows, node)|;
    }
    ready' := if count >= Slots(n.model.value) then Drop(ready, n.id) else ready;
  }

  /** The next queued task still waits, and its turn is the next of the pass. */
  lemma {:induction false} InTurn(e: Env, t: Table, k: nat, p: Pass, id: string)
    requires Modelled(e.nodes) && Ordered(t) && k < |QueuedIds(t.rows, t.order)|
    requires p == At(e, t, k) && id == QueuedIds(t.rows, t.order)[k]
    ensures id in p.t.rows && p.t.rows[id].state.Queued?
    ensures At(e, t, k + 1) == Turn(e, p, id)
  {
    AtWaits(e, t, k);
    AtSteps(e, t, k);
  }

  class Router {
    const cfg: Config
    const registry: Registry
    var rows: map<string, Row>
    var order: seq<string>
    var issued: nat

    function Value(): Table
      reads this
    {
      Table(rows, order, issued)
    }

    ghost predicate Valid()
      reads this
    {
      TableOk(cfg.maxAttempts, Value())
    }

    constructor (cfg: Config, registry: Registry)
      ensures Valid() && Value() == Table(map[], [], 0) && this.cfg == cfg && this.registry == registry
    {
      this.cfg := cfg;
      this.registry := registry;
      rows, order, issued := map[], [], 0;
    }

    method Submit(request: Request, drawn: string) returns (r: Submission)
      requires Valid()
      modifies this
      ensures Valid() && (Value(), r) == Submitted(cfg, old(Value()), request, drawn)
    {
      SubmittedSteps(cfg, Value(), request, drawn);
      var known := ByKey(rows, order, request.key);
      if known.Some? { return Accepted(known.value); }
      if |Open(rows)| >= cfg.queueCap { return QueueFull; }
      var id := if request.taskId == "" then drawn else request.taskId;
      if id in rows { return IdTaken; }
      rows := rows[id := NewRow(request.(taskId := id))];
      order := order + [id];
      r := Accepted(id);
    }

    method MarkRunning(task: string, attempt: nat)
      requires Valid()
      modifies this`rows
      ensures Valid() && Value() == Marked(old(Value()), task, attempt)
    {
      MarkedSteps(cfg.maxAttempts, Value(), task, attempt);
      if task in rows && rows[task].state.Assigned? && rows[task].attempt == Some(attempt) {
        rows := rows[task := rows[task].(state := Running)];
      }
    }

    method OnResult(r: Outcome) returns (reply: Reply)
      requires Valid()
      modifies this`rows
      ensures Valid() && (Value(), reply) == Resulted(cfg.maxAttempts, old(Value()), r)
      ensures reply.Committed? <==>
                r.task in old(rows) && old(rows)[r.task].result.None? && rows[r.task].result == Some(r)
      ensures reply.StaleAttempt? <==>
                r.task in old(rows) && !Terminal(old(rows)[r.task]) && old(rows)[r.task].attempt != Some(r.attempt)
    {
      ResultedSteps(cfg.maxAttempts, Value(), r);
      if r.task !in rows { return NotCommitted; }
      var row := rows[r.task];
      assert rows[r.task := row] == rows;
      if Terminal(row) { return NotCommitted; }
      if row.attempt != Some(r.attempt) { return StaleAttempt; }
      if !r.ok && row.attempts < cfg.maxAttempts {
        rows := rows[r.task := RequeueRow(row)];
        return NotCommitted;
      }
      rows := rows[r.task := FinishRow(row, r)];
      reply := Committed;
    }

    /** Requeues or fails what the node has in flight, and returns what it requeued. */
    method OnNodeLost(node: string) returns (requeued: seq<string>)
      requires Valid()
      modifies this`rows
      ensures Valid() && Value() == Lost(cfg.maxAttempts, old(Value()), {node})
      ensures requeued == Requeued(cfg.maxAttempts, old(rows), FlightOn(old(rows), order, node))
    {
      ghost var before := Value();
      var ids := FlightOn(rows, order, node);
      FlightOnce(rows, order, node);
      requeued := LoseTasks(ids);
      LostAll(cfg.maxAttempts, before, node);
      LostSteps(cfg.maxAttempts, before, {node});
    }

    method LoseTasks(ids: seq<string>) returns (requeued: seq<string>)
      requires Distinct(ids) && forall id :: id in ids ==> id in rows
      modifies this`rows
      ensures rows == LostSome(cfg.maxAttempts, old(rows), Members(ids))
      ensures requeued == Requeued(cfg.maxAttempts, old(rows), ids)
    {
      ghost var before := rows;
      requeued := [];
      LostNone(cfg.maxAttempts, rows);
      for k := 0 to |ids|
        invariant rows == LostSome(cfg.maxAttempts, before, Members(ids[..k]))
        invariant requeued == Requeued(cfg.maxAttempts, before, ids[..k])
      {
        var id := ids[k];
        assert id in ids;
        LostNext(cfg.maxAttempts, before, ids, k, rows);
        if rows[id].attempts >= cfg.maxAttempts {
          rows := rows[id := FinishRow(rows[id], NodeLost(id))];
        } else {
          rows := rows[id := RequeueRow(rows[id])];
          requeued := requeued + [id];
        }
      }
      assert ids[..|ids|] == ids;
    }

    /** Loses every node that holds a task past its lease; each task that goes back to
        the queue is returned once. */
    method ExpireLeases(now: int) returns (requeued: seq<string>)
      requires Valid()
      modifies this`rows
      ensures Valid() && Value() == Lost(cfg.maxAttempts, old(Value()), LateNodes(old(rows), now))
      ensures Distinct(requeued) && RequeuedFrom(cfg.maxAttempts, old(rows), LateNodes(old(rows), now), requeued)
    {
      ghost var before := Value();
      var nodes := LateList(rows, order, now);
      LateSame(before, now);
      requeued := [];
      LostNone(cfg.maxAttempts, rows);
      for k := 0 to |nodes|
        invariant Valid() && Value() == Lost(cfg.maxAttempts, before, Members(nodes[..k]))
        invariant Distinct(requeued)
        invariant RequeuedFrom(cfg.maxAttempts, before.rows, Members(nodes[..k]), requeued)
      {
        ghost var held := rows;
        var more := OnNodeLost(nodes[k]);
        ExpiredNext(cfg.maxAttempts, before, nodes, k, held, requeued, more);
        requeued := requeued + more;
      }
      assert nodes[..|nodes|] == nodes;
    }

    /** Writes an assignment to its row. */
    method AssignTo(ghost e: Env, w: World, now: int, id: string, n: Node, out: seq<Dispatch>)
      returns (more: seq<Dispatch>)
      requires id in rows && e.cfg == cfg && e.w == w && e.now == now
      modifies this`rows, this`issued
      ensures Pass(Value(), more) == Assign(e, Pass(old(Value()), out), id, n)
    {
      var d := Dispatch(id, issued + 1, n.id, LeaseEnd(cfg, rows[id].request, now), Wire(w, rows[id].request, n));
      rows := rows[id := AssignRow(rows[id], d.node, d.attempt, d.lease)];
      issued := issued + 1;
      more := out + [d];
    }

    /** The turn of one queued task. */
    method Serve(ghost e: Env, w: World, now: int, id: string, active: map<string, nat>, ready: seq<Node>,
                 out: seq<Dispatch>)
      returns (active': map<string, nat>, ready': seq<Node>, more: seq<Dispatch>)
      requires e.cfg == cfg && e.w == w && e.now == now && Modelled(e.nodes) && DistinctIds(e.nodes)
      requires id in rows && rows[id].state.Queued?
      requires Tallies(active, rows) && ready == Free(e.nodes, rows)
      modifies this`rows, this`issued
      ensures Pass(Value(), more) == Turn(e, Pass(old(Value()), out), id)
      ensures Tallies(active', rows) && ready' == Free(e.nodes, rows)
    {
      ghost var p, before := Pass(Value(), out), rows;
      var choice := Choose(w, rows[id].request, ready);
      if choice.None? { return active, ready, out; }
      more := AssignTo(e, w, now, id, choice.value, out);
      ghost var d := AssignIs(e, p, id, choice.value);
      HeldGrowth(before, id, choice.value.id, d.attempt, d.lease, rows);
      active', ready' := Fill(e.nodes, active, ready, choice.value, before, rows);
    }

    /** The queue is worked through until no node is free. */
    method ServeQueue(ghost e: Env, ghost before: Table, w: World, now: int, queued: seq<string>,
                      counts: map<string, nat>, free: seq<Node>) returns (out: seq<Dispatch>)
      requires e.cfg == cfg && e.w == w && e.now == now && Modelled(e.nodes) && DistinctIds(e.nodes)
      requires before == Value() && Ordered(before) && queued == QueuedIds(rows, order)
      requires Tallies(counts, rows) && free == Free(e.nodes, rows)
      modifies this`rows, this`issued
      ensures Pass(Value(), out) == Scheduled(e, before)
    {
      var active, ready, k := counts, free, 0;
      out := [];
      assert queued[..0] == [];
      while k < |queued| && ready != []
        invariant k <= |queued|
        invariant Pass(Value(), out) == At(e, before, k)
        invariant Tallies(active, rows)
        invariant ready == Free(e.nodes, rows)
      {
        InTurn(e, before, k, Pass(Value(), out), queued[k]);
        active, ready, out := Serve(e, w, now, queued[k], active, ready, out);
        k := k + 1;
      }
      if k < |queued| {
        AtStuck(e, before, k, |queued|, Pass(Value(), out));
      }
      AtEnds(e, before);
    }

    /** `schedule_pending`: the free nodes are kept up to date while the queue is
        worked through. */
    method SchedulePending(w: World, now: int) returns (out: seq<Dispatch>)
      requires Valid() && registry.Valid()
      modifies this`rows, this`issued
      ensures Valid()
      ensures Pass(Value(), out) == Scheduled(Env(cfg, w, ReadyOf(registry.nodes), now), old(Value()))
    {
      var nodes := registry.ReadyNodes();
      ReadyDistinct(registry.nodes);
      ghost var e, before := Env(cfg, w, nodes, now), Value();
      CountsTally(rows);
      var ready := Unfilled(nodes, Counts(rows), rows);
      out := ServeQueue(e, before, w, now, QueuedIds(rows, order), Counts(rows), ready);
      ScheduledSteps(cfg.maxAttempts, e, before);
    }

    method Cancel(task: string) returns (cancelled: bool)
      requires Valid()
      modifies this`rows
      ensures Valid() && Value() == Cancelling(old(Value()), task)
      ensures cancelled <==> Value() != old(Value())
    {
      CancellingSteps(cfg.maxAttempts, Value(), task);
      cancelled := task in rows && !Terminal(rows[task]);
      if cancelled {
        rows := rows[task := rows[task].(state := Cancelled)];
        assert rows[task].state.Cancelled?;
      }
    }
  }

  /** The requeued tasks are the ones in flight on the nodes, with attempts left. */
  ghost predicate RequeuedFrom(max: int, rows: map<string, Row>, nodes: set<string>, requeued: seq<string>)
  {
    forall id :: id in requeued <==>
      id in rows && InFlight(rows[id]) && rows[id].attempts < max && rows[id].node.Some? && rows[id].node.value in nodes
  }

  lemma {:induction false} MoreRequeued(max: int, t: Table, nodes: set<string>, node: string, held: map<string, Row>,
                                        requeued: seq<string>, more: seq<string>)
    requires Ordered(t) && held == LostRows(max, t.rows, nodes)
    requires Distinct(requeued) && RequeuedFrom(max, t.rows, nodes, requeued)
    requires Distinct(more)
    requires forall id :: id in more <==> id in FlightOn(held, t.order, node) && held[id].attempts < max
    ensures Distinct(requeued + more) && RequeuedFrom(max, t.rows, nodes + {node}, requeued + more)
  {
    forall id
      ensures id in more <==> id in t.rows && On(t.rows[id], node) && node !in nodes && t.rows[id].attempts < max
    {
      if id in t.rows {
        assert id in t.order;
      }
    }
    forall id ensures id in requeued + more <==> id in requeued || id in more {
    }
    forall j, k | 0 <= j < k < |requeued + more| ensures (requeued + more)[j] != (requeued + more)[k] {
      if j < |requeued| <= k {
        assert requeued[j] in requeued && more[k - |requeued|] in more;
      }
    }
  }

  lemma {:induction false} ExpiredNext(max: int, t: Table, nodes: seq<string>, k: nat, held: map<string, Row>,
                                       requeued: seq<string>, more: seq<string>)
    requires Ordered(t) && k < |nodes| && held == LostRows(max, t.rows, Members(nodes[..k]))
    requires Distinct(requeued) && RequeuedFrom(max, t.rows, Members(nodes[..k]), requeued)
    requires more == Requeued(max, held, FlightOn(held, t.order, nodes[k]))
    ensures LostRows(max, held, {nodes[k]}) == LostRows(max, t.rows, Members(nodes[..k + 1]))
    ensures Distinct(requeued + more) && RequeuedFrom(max, t.rows, Members(nodes[..k + 1]), requeued + more)
  {
    assert nodes[..k + 1] == nodes[..k] + [nodes[k]];
    assert Members(nodes[..k + 1]) == Members(nodes[..k]) + {nodes[k]};
    LostTwice(max, t.rows, Members(nodes[..k]), nodes[k]);
    FlightOnce(held, t.order, nodes[k]);
    RequeuedMembers(max, held, FlightOn(held, t.order, nodes[k]));
    MoreRequeued(max, t, Members(nodes[..k]), nodes[k], held, requeued, more);
  }
}
