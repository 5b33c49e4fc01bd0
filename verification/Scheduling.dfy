/** One scheduling pass: queued tasks in order, each to its best node with a free slot. */
module Scheduling {
  import opened Text
  import opened Contexts
  import opened Tasks
  import opened Scoring

  /** An assignment, and the request as it goes over the wire. */
  datatype Dispatch = Dispatch(task: string, attempt: nat, node: string, lease: int, wire: Request)

  /** The tasks that a node has in flight. */
  function Held(rows: map<string, Row>, node: string): set<string>
  {
    set id | id in rows && On(rows[id], node)
  }

  predicate HasSlot(rows: map<string, Row>, n: Node)
  {
    n.model.Some? && |Held(rows, n.id)| < Slots(n.model.value)
  }

  /** The nodes with a slot to spare, in order. */
  function Free(nodes: seq<Node>, rows: map<string, Row>): (free: seq<Node>)
    ensures forall n :: n in free <==> n in nodes && HasSlot(rows, n)
  {
    if nodes == [] then []
    else (if HasSlot(rows, nodes[0]) then [nodes[0]] else []) + Free(nodes[1..], rows)
  }

  function Matching(nodes: seq<Node>, cluster: string): (matched: seq<Node>)
    ensures forall n :: n in matched <==> n in nodes && InCluster(cluster, n)
  {
    if nodes == [] then []
    else (if InCluster(cluster, nodes[0]) then [nodes[0]] else []) + Matching(nodes[1..], cluster)
  }

  predicate Modelled(nodes: seq<Node>)
  {
    forall n :: n in nodes ==> n.model.Some?
  }

  function Scores(w: World, request: Request, nodes: seq<Node>): (scores: seq<real>)
    requires Modelled(nodes)
    ensures |scores| == |nodes|
    ensures forall k :: 0 <= k < |nodes| ==> scores[k] == Worth(w, request, nodes[k])
  {
    seq(|nodes|, k requires 0 <= k < |nodes| => Worth(w, request, nodes[k]))
  }

  /** The first of the highest scores. */
  function FirstHighest(scores: seq<real>): (best: nat)
    requires scores != []
    ensures best < |scores|
    ensures forall k :: 0 <= k < |scores| ==> scores[k] <= scores[best]
    ensures forall k :: 0 <= k < best ==> scores[k] < scores[best]
  {
    if |scores| == 1 then 0
    else
      var best := FirstHighest(scores[..|scores| - 1]);
      if scores[|scores| - 1] > scores[best] then |scores| - 1 else best
  }

  /** The first of the nodes that score highest, as a stable sort would put it. */
  function Best(w: World, request: Request, nodes: seq<Node>): (best: Node)
    requires nodes != [] && Modelled(nodes)
    ensures best in nodes
    ensures forall n :: n in nodes ==> Worth(w, request, n) <= Worth(w, request, best)
  {
    var scores := Scores(w, request, nodes);
    assert forall n :: n in nodes ==> exists k :: 0 <= k < |nodes| && nodes[k] == n;
    nodes[FirstHighest(scores)]
  }

  /** Where a task goes, if anywhere. */
  function Choice(w: World, request: Request, free: seq<Node>): (choice: Option<Node>)
    requires Modelled(free)
    ensures choice.Some? ==> choice.value in free && Eligible(w, request, choice.value)
    ensures choice.None? ==> forall n :: n in free ==> !Eligible(w, request, n)
    ensures choice.Some? ==> forall n :: n in free && Eligible(w, request, n) ==>
                               Worth(w, request, n) <= Worth(w, request, choice.value)
  {
    var matched := Matching(free, Placement(w, request).0);
    if matched == [] then
      assert forall n :: n in free && InCluster(Placement(w, request).0, n) ==> n in matched;
      None
    else
      var best := Best(w, request, matched);
      if Worth(w, request, best) <= REFUSED then None else Some(best)
  }

  function LeaseEnd(cfg: Config, request: Request, now: int): int
  {
    now + if request.kind.CodeEdit? then cfg.codeLeaseSeconds else cfg.leaseSeconds
  }

  function Wire(w: World, request: Request, n: Node): Request
  {
    var (prompt, messages) := Payload(w, request, n);
    request.(prompt := prompt, messages := messages)
  }

  /** What a pass reads. */
  datatype Env = Env(cfg: Config, w: World, nodes: seq<Node>, now: int)

  /** A pass in progress: the table, and what was sent out so far. */
  datatype Pass = Pass(t: Table, out: seq<Dispatch>)

  function Assign(e: Env, p: Pass, id: string, n: Node): Pass
    requires id in p.t.rows
  {
    var row := p.t.rows[id];
    var attempt := p.t.issued + 1;
    var lease := LeaseEnd(e.cfg, row.request, e.now);
    Pass(p.t.(rows := p.t.rows[id := AssignRow(row, n.id, attempt, lease)], issued := attempt),
         p.out + [Dispatch(id, attempt, n.id, lease, Wire(e.w, row.request, n))])
  }

  function Turn(e: Env, p: Pass, id: string): (q: Pass)
    requires Modelled(e.nodes)
  {
    if id !in p.t.rows then p
    else
      var choice := Choice(e.w, p.t.rows[id].request, Free(e.nodes, p.t.rows));
      if choice.None? then p else Assign(e, p, id, choice.value)
  }

  /** The pass after each of `ids` has had its turn. */
  function After(e: Env, p: Pass, ids: seq<string>): Pass
    requires Modelled(e.nodes)
  {
    if ids == [] then p
    else Turn(e, After(e, p, ids[..|ids| - 1]), ids[|ids| - 1])
  }

  /** The queued tasks, oldest first. */
  function QueuedIds(rows: map<string, Row>, order: seq<string>): (ids: seq<string>)
    ensures forall id :: id in ids <==> id in order && id in rows && rows[id].state.Queued?
  {
    if order == [] then []
    else
      var last := order[|order| - 1];
      assert order == order[..|order| - 1] + [last];
      QueuedIds(rows, order[..|order| - 1]) + if last in rows && rows[last].state.Queued? then [last] else []
  }

  /** `schedule_pending`. */
  function Scheduled(e: Env, t: Table): Pass
    requires Modelled(e.nodes)
  {
    After(e, Pass(t, []), QueuedIds(t.rows, t.order))
  }

  // -------------------------------------------------------------------- one turn

  predicate Distinct<T(==)>(ids: seq<T>)
  {
    forall j, k :: 0 <= j < k < |ids| ==> ids[j] != ids[k]
  }

  lemma {:induction false} QueuedOnce(rows: map<string, Row>, order: seq<string>)
    requires Distinct(order)
    ensures Distinct(QueuedIds(rows, order))
  {
    if order != [] {
      QueuedOnce(rows, order[..|order| - 1]);
      var ids := QueuedIds(rows, order[..|order| - 1]);
      assert forall k :: 0 <= k < |ids| ==> ids[k] in order[..|order| - 1];
    }
  }

  lemma {:induction false} HeldAfter(rows: map<string, Row>, id: string, node: string, attempt: nat, lease: int,
                                     other: string)
    requires id in rows && rows[id].state.Queued?
    ensures Held(rows[id := AssignRow(rows[id], node, attempt, lease)], other)
            == Held(rows, other) + if other == node then {id} else {}
    ensures id !in Held(rows, other)
  {
  }

  lemma {:induction false} FreeShrinks(rows: map<string, Row>, id: string, node: string, attempt: nat, lease: int,
                                       n: Node)
    requires id in rows && rows[id].state.Queued?
    requires HasSlot(rows[id := AssignRow(rows[id], node, attempt, lease)], n)
    ensures HasSlot(rows, n)
  {
    HeldAfter(rows, id, node, attempt, lease, n.id);
  }

  /** A pass leaves everything alone but the tasks it assigns. */
  ghost predicate Grows(p: Pass, q: Pass)
  {
    && q.t.order == p.t.order && q.t.rows.Keys == p.t.rows.Keys && p.t.issued <= q.t.issued
    && (forall id :: id in p.t.rows && !p.t.rows[id].state.Queued? ==> q.t.rows[id] == p.t.rows[id])
    && (forall id :: id in p.t.rows ==> q.t.rows[id].request == p.t.rows[id].request)
    && (forall n: Node :: HasSlot(q.t.rows, n) ==> HasSlot(p.t.rows, n))
    && p.out <= q.out
  }

  lemma {:induction false} AssignGrows(e: Env, p: Pass, id: string, n: Node)
    requires id in p.t.rows && p.t.rows[id].state.Queued?
    ensures Grows(p, Assign(e, p, id, n))
  {
    var q := Assign(e, p, id, n);
    forall m: Node | HasSlot(q.t.rows, m) ensures HasSlot(p.t.rows, m) {
      FreeShrinks(p.t.rows, id, n.id, p.t.issued + 1, LeaseEnd(e.cfg, p.t.rows[id].request, e.now), m);
    }
  }

  lemma {:induction false} GrowsOn(p: Pass, q: Pass, r: Pass)
    requires Grows(p, q) && Grows(q, r)
    ensures Grows(p, r)
  {
  }

  /** Before its turn, a task that was queued still is. */
  lemma {:induction false} StillQueued(e: Env, p: Pass, ids: seq<string>)
    requires Modelled(e.nodes)
    requires Distinct(ids) && forall id :: id in ids ==> id in p.t.rows && p.t.rows[id].state.Queued?
    ensures Grows(p, After(e, p, ids))
    ensures forall id :: id in p.t.rows && id !in ids ==> After(e, p, ids).t.rows[id] == p.t.rows[id]
  {
    if ids != [] {
      var init, last := ids[..|ids| - 1], ids[|ids| - 1];
      assert ids == init + [last];
      StillQueued(e, p, init);
      var q := After(e, p, init);
      assert last !in init;
      var choice := Choice(e.w, q.t.rows[last].request, Free(e.nodes, q.t.rows));
      if choice.Some? {
        AssignGrows(e, q, last, choice.value);
        GrowsOn(p, q, Assign(e, q, last, choice.value));
      }
    }
  }

  /** The pass when `k` of the queued tasks have had their turn. */
  function At(e: Env, t: Table, k: nat): Pass
    requires Modelled(e.nodes) && k <= |QueuedIds(t.rows, t.order)|
  {
    After(e, Pass(t, []), QueuedIds(t.rows, t.order)[..k])
  }

  lemma {:induction false} AfterNext(e: Env, p: Pass, ids: seq<string>, k: nat)
    requires Modelled(e.nodes) && k < |ids|
    ensures After(e, p, ids[..k + 1]) == Turn(e, After(e, p, ids[..k]), ids[k])
  {
    var front := ids[..k + 1];
    assert front[..|front| - 1] == ids[..k] && front[|front| - 1] == ids[k];
  }

  lemma {:induction false} AtSteps(e: Env, t: Table, k: nat)
    requires Modelled(e.nodes) && k < |QueuedIds(t.rows, t.order)|
    ensures At(e, t, k + 1)
            == Turn(e, At(e, t, k), QueuedIds(t.rows, t.order)[k])
  {
    AfterNext(e, Pass(t, []), QueuedIds(t.rows, t.order), k);
  }

  lemma {:induction false} AtEnds(e: Env, t: Table)
    requires Modelled(e.nodes)
    ensures Scheduled(e, t) == At(e, t, |QueuedIds(t.rows, t.order)|)
  {
    var ids := QueuedIds(t.rows, t.order);
    assert ids[..|ids|] == ids;
  }

  /** Until its turn comes a queued task waits; what has gone before only fills nodes. */
  lemma {:induction false} AtWaits(e: Env, t: Table, k: nat)
    requires Modelled(e.nodes) && Ordered(t) && k <= |QueuedIds(t.rows, t.order)|
    ensures Grows(Pass(t, []), At(e, t, k))
    ensures forall j :: k <= j < |QueuedIds(t.rows, t.order)| ==>
              var id := QueuedIds(t.rows, t.order)[j];
              id in t.rows && At(e, t, k).t.rows[id] == t.rows[id] && t.rows[id].state.Queued?
  {
    var ids := QueuedIds(t.rows, t.order);
    QueuedOnce(t.rows, t.order);
    assert forall j :: 0 <= j < |ids| ==> ids[j] in ids;
    StillQueued(e, Pass(t, []), ids[..k]);
  }

  lemma {:induction false} TurnGrows(e: Env, p: Pass, id: string)
    requires Modelled(e.nodes) && id in p.t.rows && p.t.rows[id].state.Queued?
    ensures Grows(p, Turn(e, p, id))
  {
    var choice := Choice(e.w, p.t.rows[id].request, Free(e.nodes, p.t.rows));
    if choice.Some? {
      AssignGrows(e, p, id, choice.value);
    }
  }

  lemma {:induction false} GrowsSame(p: Pass)
    ensures Grows(p, p)
  {
  }

  lemma {:induction false} AtGrowsOnce(e: Env, t: Table, k: nat)
    requires Modelled(e.nodes) && Ordered(t) && k < |QueuedIds(t.rows, t.order)|
    ensures Grows(At(e, t, k), At(e, t, k + 1))
  {
    AtWaits(e, t, k);
    AtSteps(e, t, k);
    TurnGrows(e, At(e, t, k), QueuedIds(t.rows, t.order)[k]);
  }

  lemma {:induction false} AtGrowsMore(e: Env, t: Table, p: Pass, k: nat)
    requires Modelled(e.nodes) && Ordered(t) && k < |QueuedIds(t.rows, t.order)|
    requires Grows(p, At(e, t, k))
    ensures Grows(p, At(e, t, k + 1))
  {
    AtGrowsOnce(e, t, k);
    GrowsOn(p, At(e, t, k), At(e, t, k + 1));
  }

  lemma {:induction false} AtGrows(e: Env, t: Table, j: nat, k: nat)
    requires Modelled(e.nodes) && Ordered(t) && j <= k <= |QueuedIds(t.rows, t.order)|
    ensures Grows(At(e, t, j), At(e, t, k))
    decreases k
  {
    if j == k {
      GrowsSame(At(e, t, j));
    } else {
      AtGrows(e, t, j, k - 1);
      AtGrowsMore(e, t, At(e, t, j), k - 1);
    }
  }

  lemma {:induction false} AssignedRow(e: Env, p: Pass, id: string, n: Node)
    requires id in p.t.rows
    ensures id in Assign(e, p, id, n).t.rows
    ensures Assign(e, p, id, n).t.rows[id]
            == AssignRow(p.t.rows[id], n.id, p.t.issued + 1, LeaseEnd(e.cfg, p.t.rows[id].request, e.now))
    ensures forall other :: other in p.t.rows && other != id ==> Assign(e, p, id, n).t.rows[other] == p.t.rows[other]
  {
  }

  lemma {:induction false} TurnOther(e: Env, p: Pass, id: string, other: string)
    requires Modelled(e.nodes) && other in p.t.rows && other != id
    ensures other in Turn(e, p, id).t.rows && Turn(e, p, id).t.rows[other] == p.t.rows[other]
  {
    if id in p.t.rows {
      var choice := Choice(e.w, p.t.rows[id].request, Free(e.nodes, p.t.rows));
      if choice.Some? {
        AssignedRow(e, p, id, choice.value);
      }
    }
  }

  lemma {:induction false} NotAgain(t: Table, j: nat, k: nat)
    requires Ordered(t) && j < k < |QueuedIds(t.rows, t.order)|
    ensures QueuedIds(t.rows, t.order)[j] != QueuedIds(t.rows, t.order)[k]
  {
    QueuedOnce(t.rows, t.order);
  }

  ghost predicate Reads(p: Pass, id: string, row: Row)
  {
    id in p.t.rows && p.t.rows[id] == row
  }

  lemma {:induction false} SettledOnce(e: Env, t: Table, ids: seq<string>, k: nat, m: nat, row: Row, p: Pass, q: Pass)
    requires Modelled(e.nodes) && Ordered(t) && ids == QueuedIds(t.rows, t.order) && k < m < |ids|
    requires p == At(e, t, m) && q == At(e, t, m + 1) && Reads(p, ids[k], row)
    ensures Reads(q, ids[k], row)
  {
    NotAgain(t, k, m);
    AtSteps(e, t, m);
    TurnOther(e, p, ids[m], ids[k]);
  }

  /** A task's turn settles it for the pass. */
  lemma {:induction false} Settled(e: Env, t: Table, ids: seq<string>, k: nat, m: nat, row: Row, p: Pass)
    requires Modelled(e.nodes) && Ordered(t) && ids == QueuedIds(t.rows, t.order) && k < m <= |ids|
    requires Reads(At(e, t, k + 1), ids[k], row) && p == At(e, t, m)
    ensures Reads(p, ids[k], row)
    decreases m
  {
    if m > k + 1 {
      var before := At(e, t, m - 1);
      Settled(e, t, ids, k, m - 1, row, before);
      SettledOnce(e, t, ids, k, m - 1, row, before, p);
    }
  }

  // ------------------------------------------------- what a whole pass guarantees

  /** The fate of a task is decided at its turn, from the nodes that are free then. */
  lemma {:induction false} Decided(e: Env, t: Table, k: nat, id: string, p: Pass)
    requires Modelled(e.nodes) && Ordered(t) && k < |QueuedIds(t.rows, t.order)|
    requires id == QueuedIds(t.rows, t.order)[k] && p == At(e, t, k)
    ensures id in t.rows && t.rows[id].state.Queued? && id in p.t.rows && p.t.rows[id] == t.rows[id]
    ensures id in Scheduled(e, t).t.rows
    ensures Scheduled(e, t).t.rows[id] == Turn(e, p, id).t.rows[id]
  {
    AtWaits(e, t, k);
    AtSteps(e, t, k);
    AtEnds(e, t);
    var ids := QueuedIds(t.rows, t.order);
    Settled(e, t, ids, k, |ids|, Turn(e, p, id).t.rows[id], Scheduled(e, t));
  }

  lemma {:induction false} TurnRow(e: Env, p: Pass, id: string, choice: Option<Node>)
    requires Modelled(e.nodes) && id in p.t.rows && p.t.rows[id].state.Queued?
    requires choice == Choice(e.w, p.t.rows[id].request, Free(e.nodes, p.t.rows))
    ensures id in Turn(e, p, id).t.rows
    ensures choice.None? ==> Turn(e, p, id).t.rows[id] == p.t.rows[id]
    ensures choice.Some? ==> Turn(e, p, id).t.rows[id].node == Some(choice.value.id)
    ensures choice.Some? ==> Turn(e, p, id).t.rows[id].state.Assigned?
  {
    if choice.Some? {
      assert Turn(e, p, id) == Assign(e, p, id, choice.value);
      AssignedRow(e, p, id, choice.value);
    }
  }

  /** At its turn, a task left queued had no node to go to. */
  lemma {:induction false} LeftQueued(e: Env, t: Table, k: nat, id: string,
                                      p: Pass, n: Node)
    requires Modelled(e.nodes) && Ordered(t) && k < |QueuedIds(t.rows, t.order)|
    requires id == QueuedIds(t.rows, t.order)[k] && p == At(e, t, k)
    requires id in Scheduled(e, t).t.rows && Scheduled(e, t).t.rows[id].state.Queued?
    requires n in e.nodes && HasSlot(p.t.rows, n)
    ensures id in t.rows && !Eligible(e.w, t.rows[id].request, n)
  {
    Decided(e, t, k, id, p);
    TurnRow(e, p, id, Choice(e.w, p.t.rows[id].request, Free(e.nodes, p.t.rows)));
  }

  /** The node a task got was free at its turn, and the best of those that were. */
  ghost predicate BestChoice(e: Env, request: Request, rows: map<string, Row>, n: Node)
  {
    && n in e.nodes && HasSlot(rows, n) && Eligible(e.w, request, n)
    && forall m :: m in e.nodes && HasSlot(rows, m) && Eligible(e.w, request, m)
         ==> Worth(e.w, request, m) <= Worth(e.w, request, n)
  }

  /** A turn that assigns the task makes the best choice there is. */
  lemma {:induction false} TurnBest(e: Env, p: Pass, id: string) returns (n: Node)
    requires Modelled(e.nodes) && id in p.t.rows && p.t.rows[id].state.Queued?
    requires Choice(e.w, p.t.rows[id].request, Free(e.nodes, p.t.rows)).Some?
    ensures BestChoice(e, p.t.rows[id].request, p.t.rows, n)
    ensures Choice(e.w, p.t.rows[id].request, Free(e.nodes, p.t.rows)) == Some(n)
  {
    var request := p.t.rows[id].request;
    n := Choice(e.w, request, Free(e.nodes, p.t.rows)).value;
    forall m | m in e.nodes && HasSlot(p.t.rows, m) && Eligible(e.w, request, m)
      ensures Worth(e.w, request, m) <= Worth(e.w, request, n)
    {
      assert m in Free(e.nodes, p.t.rows);
    }
  }

  // --------------------------------------------------------------- main theorems

  /** Maximal: no node with a slot to spare could take a task that is left queued. */
  ghost predicate Maximal(e: Env, rows: map<string, Row>)
  {
    forall id, n :: id in rows && rows[id].state.Queued? && n in e.nodes && HasSlot(rows, n)
      ==> !Eligible(e.w, rows[id].request, n)
  }

  lemma {:induction false} SlotsBefore(e: Env, t: Table, k: nat, p: Pass, n: Node)
    requires Modelled(e.nodes) && Ordered(t) && k <= |QueuedIds(t.rows, t.order)|
    requires p == At(e, t, k)
    requires HasSlot(Scheduled(e, t).t.rows, n)
    ensures HasSlot(p.t.rows, n)
  {
    AtEnds(e, t);
    AtGrows(e, t, k, |QueuedIds(t.rows, t.order)|);
  }

  lemma {:induction false} ScheduledGrows(e: Env, t: Table)
    requires Modelled(e.nodes) && Ordered(t)
    ensures Grows(Pass(t, []), Scheduled(e, t))
  {
    AtEnds(e, t);
    AtWaits(e, t, |QueuedIds(t.rows, t.order)|);
  }

  lemma {:induction false} WasQueued(e: Env, t: Table, id: string) returns (k: nat)
    requires Modelled(e.nodes) && Ordered(t) && id in t.rows && t.rows[id].state.Queued?
    ensures k < |QueuedIds(t.rows, t.order)| && id == QueuedIds(t.rows, t.order)[k]
  {
    assert id in QueuedIds(t.rows, t.order);
    k :| 0 <= k < |QueuedIds(t.rows, t.order)| && QueuedIds(t.rows, t.order)[k] == id;
  }

  lemma {:induction false} ScheduledMaximal(e: Env, t: Table)
    requires Modelled(e.nodes) && Ordered(t)
    ensures Maximal(e, Scheduled(e, t).t.rows)
  {
    var rows := Scheduled(e, t).t.rows;
    ScheduledGrows(e, t);
    forall id, n | id in rows && rows[id].state.Queued? && n in e.nodes && HasSlot(rows, n)
      ensures !Eligible(e.w, rows[id].request, n)
    {
      var k := WasQueued(e, t, id);
      var p := At(e, t, k);
      SlotsBefore(e, t, k, p, n);
      LeftQueued(e, t, k, id, p, n);
    }
  }

  /** Best fit: a task that was assigned got the best node of all that were eligible
      and free when its turn came. */
  lemma {:induction false} AssignedBest(e: Env, t: Table, id: string) returns (k: nat, n: Node)
    requires Modelled(e.nodes) && Ordered(t) && id in t.rows && t.rows[id].state.Queued?
    requires id in Scheduled(e, t).t.rows && !Scheduled(e, t).t.rows[id].state.Queued?
    ensures k < |QueuedIds(t.rows, t.order)| && QueuedIds(t.rows, t.order)[k] == id
    ensures BestChoice(e, t.rows[id].request, At(e, t, k).t.rows, n)
    ensures Scheduled(e, t).t.rows[id].node == Some(n.id)
  {
    k := WasQueued(e, t, id);
    var p := At(e, t, k);
    Decided(e, t, k, id, p);
    TurnRow(e, p, id, Choice(e.w, p.t.rows[id].request, Free(e.nodes, p.t.rows)));
    n := TurnBest(e, p, id);
  }
}
