/** What a scheduling pass does to the table, and what it sends out. */
module Dispatching {
  import opened Text
  import opened Tasks
  import opened Scoring
  import opened Scheduling

  /** A queued row that a pass assigned, with an attempt drawn in the pass. */
  predicate DealtRow(row: Row, next: Row, before: nat, after: nat)
  {
    && row.state.Queued? && next.node.Some? && next.attempt.Some? && next.lease.Some?
    && before < next.attempt.value <= after
    && next == AssignRow(row, next.node.value, next.attempt.value, next.lease.value)
  }

  ghost predicate DealtRows(rows: map<string, Row>, next: map<string, Row>, before: nat, after: nat)
  {
    && next.Keys == rows.Keys
    && forall id :: id in rows ==> next[id] == rows[id] || DealtRow(rows[id], next[id], before, after)
  }

  /** What was sent out says what became of the table: one dispatch an attempt, in the
      order the attempts were drawn. */
  ghost predicate OutMatches(rows: map<string, Row>, next: map<string, Row>, before: nat, out: seq<Dispatch>)
  {
    && (forall k :: 0 <= k < |out| ==> DispatchOf(rows, next, before + 1 + k, out[k]))
    && (forall id :: id in rows && id in next && next[id] != rows[id] ==> Sent(out, id))
  }

  predicate DispatchOf(rows: map<string, Row>, next: map<string, Row>, attempt: nat, d: Dispatch)
  {
    && d.task in rows && d.task in next && d.attempt == attempt && rows[d.task].state.Queued?
    && next[d.task] == AssignRow(rows[d.task], d.node, d.attempt, d.lease)
  }

  predicate Sent(out: seq<Dispatch>, id: string)
  {
    exists k :: 0 <= k < |out| && out[k].task == id
  }

  ghost predicate Dealing(t: Table, p: Pass)
  {
    && p.t.order == t.order
    && p.t.issued == t.issued + |p.out|
    && DealtRows(t.rows, p.t.rows, t.issued, p.t.issued)
    && AttemptsOk(p.t.rows, p.t.issued)
    && OutMatches(t.rows, p.t.rows, t.issued, p.out)
  }

  lemma {:induction false} AssignDealt(rows: map<string, Row>, next: map<string, Row>, before: nat, after: nat,
                                       id: string, node: string, lease: int)
    requires DealtRows(rows, next, before, after) && before <= after
    requires id in rows && rows[id].state.Queued? && next[id] == rows[id]
    ensures DealtRows(rows, next[id := AssignRow(next[id], node, after + 1, lease)], before, after + 1)
  {
  }

  lemma {:induction false} AssignDistinct(rows: map<string, Row>, issued: nat, id: string, node: string, lease: int)
    requires AttemptsOk(rows, issued) && id in rows
    ensures AttemptsOk(rows[id := AssignRow(rows[id], node, issued + 1, lease)], issued + 1)
  {
  }

  lemma {:induction false} AssignOut(rows: map<string, Row>, next: map<string, Row>, before: nat, out: seq<Dispatch>,
                                     d: Dispatch)
    requires OutMatches(rows, next, before, out)
    requires d.task in rows && rows[d.task].state.Queued? && d.task in next && next[d.task] == rows[d.task]
    requires d.attempt == before + |out| + 1
    ensures OutMatches(rows, next[d.task := AssignRow(next[d.task], d.node, d.attempt, d.lease)], before, out + [d])
  {
    var after := next[d.task := AssignRow(next[d.task], d.node, d.attempt, d.lease)];
    forall k | 0 <= k < |out + [d]| ensures DispatchOf(rows, after, before + 1 + k, (out + [d])[k]) {
      if k < |out| {
        assert DispatchOf(rows, next, before + 1 + k, out[k]);
        assert out[k].task != d.task;
      }
    }
    forall id | id in rows && id in after && after[id] != rows[id] ensures Sent(out + [d], id) {
      if id == d.task {
        assert (out + [d])[|out|] == d;
      } else {
        assert Sent(out, id);
        var k :| 0 <= k < |out| && out[k].task == id;
        assert (out + [d])[k].task == id;
      }
    }
  }

  lemma {:induction false} AssignIs(e: Env, p: Pass, id: string, n: Node) returns (d: Dispatch)
    requires id in p.t.rows
    ensures d.task == id && d.node == n.id && d.attempt == p.t.issued + 1
    ensures Assign(e, p, id, n).t.rows == p.t.rows[id := AssignRow(p.t.rows[id], d.node, d.attempt, d.lease)]
    ensures Assign(e, p, id, n).t.order == p.t.order && Assign(e, p, id, n).t.issued == p.t.issued + 1
    ensures Assign(e, p, id, n).out == p.out + [d]
  {
    var row := p.t.rows[id];
    d := Dispatch(id, p.t.issued + 1, n.id, LeaseEnd(e.cfg, row.request, e.now), Wire(e.w, row.request, n));
  }

  lemma {:induction false} DealsOne(t: Table, p: Pass, q: Pass, d: Dispatch)
    requires Dealing(t, p) && d.task in t.rows && t.rows[d.task].state.Queued? && p.t.rows[d.task] == t.rows[d.task]
    requires d.attempt == p.t.issued + 1
    requires q.t.rows == p.t.rows[d.task := AssignRow(p.t.rows[d.task], d.node, d.attempt, d.lease)]
    requires q.t.order == p.t.order && q.t.issued == p.t.issued + 1 && q.out == p.out + [d]
    ensures Dealing(t, q)
  {
    AssignDealt(t.rows, p.t.rows, t.issued, p.t.issued, d.task, d.node, d.lease);
    AssignDistinct(p.t.rows, p.t.issued, d.task, d.node, d.lease);
    AssignOut(t.rows, p.t.rows, t.issued, p.out, d);
  }

  lemma {:induction false} AssignDeals(e: Env, t: Table, p: Pass, id: string, n: Node)
    requires Dealing(t, p) && id in t.rows && t.rows[id].state.Queued? && p.t.rows[id] == t.rows[id]
    ensures Dealing(t, Assign(e, p, id, n))
  {
    var d := AssignIs(e, p, id, n);
    DealsOne(t, p, Assign(e, p, id, n), d);
  }

  lemma {:induction false} AtDealsOnce(e: Env, t: Table, k: nat)
    requires Modelled(e.nodes) && Ordered(t) && k < |QueuedIds(t.rows, t.order)|
    requires Dealing(t, At(e, t, k))
    ensures Dealing(t, At(e, t, k + 1))
  {
    AtWaits(e, t, k);
    AtSteps(e, t, k);
    var p, id := At(e, t, k), QueuedIds(t.rows, t.order)[k];
    var choice := Choice(e.w, p.t.rows[id].request, Free(e.nodes, p.t.rows));
    if choice.Some? {
      AssignDeals(e, t, p, id, choice.value);
    }
  }

  lemma {:induction false} AtDeals(e: Env, t: Table, k: nat)
    requires Modelled(e.nodes) && Ordered(t) && AttemptsOk(t.rows, t.issued) && k <= |QueuedIds(t.rows, t.order)|
    ensures Dealing(t, At(e, t, k))
  {
    if k > 0 {
      AtDeals(e, t, k - 1);
      AtDealsOnce(e, t, k - 1);
    }
  }

  /** A pass hands out each assignment once, under an attempt of its own, and changes
      nothing else. */
  lemma {:induction false} ScheduledDeals(e: Env, t: Table)
    requires Modelled(e.nodes) && Ordered(t) && AttemptsOk(t.rows, t.issued)
    ensures Dealing(t, Scheduled(e, t))
  {
    AtEnds(e, t);
    AtDeals(e, t, |QueuedIds(t.rows, t.order)|);
  }

  lemma {:induction false} ScheduledSteps(max: int, e: Env, t: Table)
    requires Modelled(e.nodes) && TableOk(max, t)
    ensures TableOk(max, Scheduled(e, t).t) && TableStep(max, t, Scheduled(e, t).t)
  {
    ScheduledDeals(e, t);
    DealtSteps(max, t, Scheduled(e, t).t);
  }

  lemma {:induction false} DealtRowOk(max: int, id: string, row: Row, next: Row, before: nat, after: nat)
    requires RowOk(max, id, row) && DealtRow(row, next, before, after)
    ensures RowOk(max, id, next) && RowStep(max, id, row, next)
  {
  }

  lemma {:induction false} DealtSteps(max: int, t: Table, next: Table)
    requires TableOk(max, t) && next.order == t.order && t.issued <= next.issued
    requires DealtRows(t.rows, next.rows, t.issued, next.issued) && AttemptsOk(next.rows, next.issued)
    ensures TableOk(max, next) && TableStep(max, t, next)
  {
    forall id | id in t.rows && next.rows[id] != t.rows[id]
      ensures RowOk(max, id, next.rows[id]) && RowStep(max, id, t.rows[id], next.rows[id])
      ensures t.issued < next.rows[id].attempt.value <= next.issued
    {
      DealtRowOk(max, id, t.rows[id], next.rows[id], t.issued, next.issued);
    }
  }

  // ---------------------------------------------------------------------- slot cap

  function CapOf(caps: map<string, nat>, node: string): nat
  {
    if node in caps then caps[node] else 0
  }

  /** No node has more tasks in flight than its cap. */
  ghost predicate Within(rows: map<string, Row>, caps: map<string, nat>)
  {
    forall node: string :: |Held(rows, node)| <= CapOf(caps, node)
  }

  /** The slots that nodes offer are within the caps. */
  ghost predicate Capped(nodes: seq<Node>, caps: map<string, nat>)
  {
    forall n :: n in nodes && n.model.Some? ==> Slots(n.model.value) <= CapOf(caps, n.id)
  }

  lemma {:induction false} AssignWithin(e: Env, p: Pass, id: string, n: Node, caps: map<string, nat>)
    requires Within(p.t.rows, caps) && id in p.t.rows && p.t.rows[id].state.Queued?
    requires HasSlot(p.t.rows, n) && Slots(n.model.value) <= CapOf(caps, n.id)
    ensures Within(Assign(e, p, id, n).t.rows, caps)
  {
    forall node: string ensures |Held(Assign(e, p, id, n).t.rows, node)| <= CapOf(caps, node) {
      HeldAfter(p.t.rows, id, n.id, p.t.issued + 1, LeaseEnd(e.cfg, p.t.rows[id].request, e.now), node);
      assert |Held(p.t.rows, node)| <= CapOf(caps, node);
    }
  }

  lemma {:induction false} AtWithinOnce(e: Env, t: Table, k: nat, caps: map<string, nat>)
    requires Modelled(e.nodes) && Ordered(t) && k < |QueuedIds(t.rows, t.order)|
    requires Within(At(e, t, k).t.rows, caps) && Capped(e.nodes, caps)
    ensures Within(At(e, t, k + 1).t.rows, caps)
  {
    AtWaits(e, t, k);
    AtSteps(e, t, k);
    var p, id := At(e, t, k), QueuedIds(t.rows, t.order)[k];
    var choice := Choice(e.w, p.t.rows[id].request, Free(e.nodes, p.t.rows));
    if choice.Some? {
      AssignWithin(e, p, id, choice.value, caps);
    }
  }

  lemma {:induction false} AtWithin(e: Env, t: Table, k: nat, caps: map<string, nat>)
    requires Modelled(e.nodes) && Ordered(t) && k <= |QueuedIds(t.rows, t.order)|
    requires Within(t.rows, caps) && Capped(e.nodes, caps)
    ensures Within(At(e, t, k).t.rows, caps)
  {
    if k > 0 {
      AtWithin(e, t, k - 1, caps);
      AtWithinOnce(e, t, k - 1, caps);
    }
  }

  lemma {:induction false} ScheduledWithin(e: Env, t: Table, caps: map<string, nat>)
    requires Modelled(e.nodes) && Ordered(t) && Within(t.rows, caps) && Capped(e.nodes, caps)
    ensures Within(Scheduled(e, t).t.rows, caps)
  {
    AtEnds(e, t);
    AtWithin(e, t, |QueuedIds(t.rows, t.order)|, caps);
  }

  /** Steps that assign nothing only free nodes. */
  lemma {:induction false} QuietWithin(max: int, rows: map<string, Row>, next: map<string, Row>, caps: map<string, nat>)
    requires Within(rows, caps) && RowsOk(max, rows) && RowsOk(max, next) && QuietRows(max, rows, next)
    ensures Within(next, caps)
  {
    forall node: string ensures |Held(next, node)| <= CapOf(caps, node) {
      forall id | id in Held(next, node) ensures id in Held(rows, node) {
        assert QuietRow(max, id, rows[id], next[id]);
      }
      Subset(Held(next, node), Held(rows, node));
      assert |Held(rows, node)| <= CapOf(caps, node);
    }
  }

  lemma {:induction false} Subset<T>(a: set<T>, b: set<T>)
    requires a <= b
    ensures |a| <= |b|
  {
    if a != {} {
      var x :| x in a;
      Subset(a - {x}, b - {x});
    }
  }
}
