/** A scheduling pass in terms of the order of submission alone: who is served when,
    and from which nodes. */
module QueueOrder {
  import opened Text
  import opened Tasks
  import opened Scoring
  import opened Scheduling

  /** The rows when the task at position `i` of the order has its turn: the tasks
      submitted before it are as the pass leaves them, all others as it found them. */
  function AtTurn(t: Table, next: map<string, Row>, i: nat): map<string, Row>
    requires i <= |t.order|
  {
    map id | id in t.rows :: if id in t.order[..i] && id in next then next[id] else t.rows[id]
  }

  predicate Takes(e: Env, request: Request, rows: map<string, Row>, n: Node)
  {
    HasSlot(rows, n) && Eligible(e.w, request, n)
  }

  /** The node at `x` can take the task, none scores higher, and none before it as high. */
  predicate FirstBest(e: Env, request: Request, rows: map<string, Row>, x: nat)
    requires Modelled(e.nodes)
  {
    && x < |e.nodes| && Takes(e, request, rows, e.nodes[x])
    && forall y :: 0 <= y < |e.nodes| && Takes(e, request, rows, e.nodes[y]) ==>
         && Worth(e.w, request, e.nodes[y]) <= Worth(e.w, request, e.nodes[x])
         && (y < x ==> Worth(e.w, request, e.nodes[y]) < Worth(e.w, request, e.nodes[x]))
  }

  // --------------------------------------------------------- positions in the queue

  lemma {:induction false} QueuedFront(rows: map<string, Row>, order: seq<string>, i: nat)
    requires i <= |order|
    ensures QueuedIds(rows, order[..i]) <= QueuedIds(rows, order)
  {
    if i == |order| {
      assert order[..i] == order;
    } else {
      var init := order[..|order| - 1];
      assert init[..i] == order[..i];
      QueuedFront(rows, init, i);
    }
  }

  lemma {:induction false} QueuedNext(rows: map<string, Row>, order: seq<string>, i: nat)
    requires i < |order| && order[i] in rows && rows[order[i]].state.Queued?
    ensures QueuedIds(rows, order[..i + 1]) == QueuedIds(rows, order[..i]) + [order[i]]
  {
    assert order[..i + 1][..i] == order[..i] && order[..i + 1][i] == order[i];
  }

  lemma {:induction false} QueuedPrefix(rows: map<string, Row>, order: seq<string>, i: nat)
    requires i <= |order|
    ensures QueuedIds(rows, order[..i]) <= QueuedIds(rows, order)
    ensures i < |order| && order[i] in rows && rows[order[i]].state.Queued? ==>
              |QueuedIds(rows, order[..i])| < |QueuedIds(rows, order)|
              && QueuedIds(rows, order)[|QueuedIds(rows, order[..i])|] == order[i]
  {
    QueuedFront(rows, order, i);
    if i < |order| && order[i] in rows && rows[order[i]].state.Queued? {
      QueuedFront(rows, order, i + 1);
      QueuedNext(rows, order, i);
      LastInFront(QueuedIds(rows, order[..i]), order[i], QueuedIds(rows, order));
    }
  }

  lemma {:induction false} LastInFront(front: seq<string>, x: string, whole: seq<string>)
    requires front + [x] <= whole
    ensures |front| < |whole| && whole[|front|] == x
  {
    assert (front + [x])[|front|] == x;
  }

  /** Where the pass stands when position `i` has its turn. */
  lemma {:induction false} TurnAt(e: Env, t: Table, i: nat, k: nat)
    requires Modelled(e.nodes) && Ordered(t) && i <= |t.order| && k == |QueuedIds(t.rows, t.order[..i])|
    ensures k <= |QueuedIds(t.rows, t.order)|
    ensures At(e, t, k).t.rows == AtTurn(t, Scheduled(e, t).t.rows, i)
  {
    var ids := QueuedIds(t.rows, t.order);
    QueuedPrefix(t.rows, t.order, i);
    assert ids[..k] == QueuedIds(t.rows, t.order[..i]);
    AtWaits(e, t, k);
    ScheduledGrows(e, t);
    forall id | id in t.rows && t.rows[id].state.Queued?
      ensures At(e, t, k).t.rows[id] == if id in t.order[..i] then Scheduled(e, t).t.rows[id] else t.rows[id]
    {
      RowAtTurn(e, t, i, k, id, ids);
    }
    SameRows(t, At(e, t, k).t.rows, Scheduled(e, t).t.rows, i);
  }

  lemma {:induction false} SameRows(t: Table, rows: map<string, Row>, next: map<string, Row>, i: nat)
    requires i <= |t.order| && rows.Keys == t.rows.Keys && next.Keys == t.rows.Keys
    requires forall id :: id in t.rows && !t.rows[id].state.Queued? ==> rows[id] == next[id] == t.rows[id]
    requires forall id :: id in t.rows && t.rows[id].state.Queued? ==>
               rows[id] == if id in t.order[..i] then next[id] else t.rows[id]
    ensures rows == AtTurn(t, next, i)
  {
  }

  lemma {:induction false} RowAtTurn(e: Env, t: Table, i: nat, k: nat, id: string, ids: seq<string>)
    requires Modelled(e.nodes) && Ordered(t) && i <= |t.order| && ids == QueuedIds(t.rows, t.order)
    requires k <= |ids| && ids[..k] == QueuedIds(t.rows, t.order[..i])
    requires id in t.rows && t.rows[id].state.Queued?
    ensures id in At(e, t, k).t.rows && id in Scheduled(e, t).t.rows
    ensures At(e, t, k).t.rows[id]
            == if id in t.order[..i] then Scheduled(e, t).t.rows[id] else t.rows[id]
  {
    assert id in t.order[..i] <==> id in ids[..k];
    var m := WasQueued(e, t, id);
    if m < k {
      assert ids[..k][m] == id;
      AlreadyHad(e, t, ids, m, k);
    } else {
      NotYet(e, t, ids, m, k);
      NotInFront(t, ids, m, k);
    }
  }

  lemma {:induction false} NotYet(e: Env, t: Table, ids: seq<string>, m: nat, k: nat)
    requires Modelled(e.nodes) && Ordered(t) && ids == QueuedIds(t.rows, t.order) && k <= m < |ids|
    ensures ids[m] in t.rows && ids[m] in At(e, t, k).t.rows && ids[m] in Scheduled(e, t).t.rows
    ensures At(e, t, k).t.rows[ids[m]] == t.rows[ids[m]]
  {
    AtWaits(e, t, k);
    ScheduledGrows(e, t);
  }

  lemma {:induction false} NotInFront(t: Table, ids: seq<string>, m: nat, k: nat)
    requires Ordered(t) && ids == QueuedIds(t.rows, t.order) && k <= m < |ids|
    ensures ids[m] !in ids[..k]
  {
    QueuedOnce(t.rows, t.order);
  }

  lemma {:induction false} AlreadyHad(e: Env, t: Table, ids: seq<string>, j: nat, k: nat)
    requires Modelled(e.nodes) && Ordered(t) && ids == QueuedIds(t.rows, t.order) && j < k <= |ids|
    ensures ids[j] in At(e, t, k).t.rows && ids[j] in Scheduled(e, t).t.rows
    ensures At(e, t, k).t.rows[ids[j]] == Scheduled(e, t).t.rows[ids[j]]
  {
    Decided(e, t, j, ids[j], At(e, t, j));
    AtSteps(e, t, j);
    var row := At(e, t, j + 1).t.rows[ids[j]];
    Settled(e, t, ids, j, k, row, At(e, t, k));
    AtEnds(e, t);
    Settled(e, t, ids, j, |ids|, row, Scheduled(e, t));
  }

  // ------------------------------------------------------------- the first of the best

  /** `f` is `nodes` without some that are not `wanted`; `x` is where its element at
      `b` stands, and every wanted node before is in `f` before. */
  ghost predicate Stands(nodes: seq<Node>, f: seq<Node>, wanted: set<Node>, b: nat, x: nat)
  {
    && b < |f| && x < |nodes| && nodes[x] == f[b]
    && forall y :: 0 <= y < x && nodes[y] in wanted ==> nodes[y] in f[..b]
  }

  lemma {:induction false} StandsFirst(nodes: seq<Node>, f: seq<Node>, wanted: set<Node>)
    requires nodes != [] && f != [] && f[0] == nodes[0]
    ensures Stands(nodes, f, wanted, 0, 0)
  {
  }

  lemma {:induction false} StandsLater(nodes: seq<Node>, f: seq<Node>, wanted: set<Node>, b: nat, x: nat,
                                       g: seq<Node>)
    requires nodes != [] && Stands(nodes[1..], g, wanted, b, x)
    requires f == if nodes[0] in wanted then [nodes[0]] + g else g
    ensures Stands(nodes, f, wanted, if nodes[0] in wanted then b + 1 else b, x + 1)
  {
    var c := if nodes[0] in wanted then b + 1 else b;
    assert nodes[0] in wanted ==> f[..c] == [nodes[0]] + g[..b];
    forall y | 0 <= y < x + 1 && nodes[y] in wanted ensures nodes[y] in f[..c] {
      if y > 0 {
        assert nodes[y] == nodes[1..][y - 1];
        assert nodes[y] in g[..b];
      }
    }
  }

  lemma {:induction false} FreePlace(nodes: seq<Node>, rows: map<string, Row>, b: nat, wanted: set<Node>)
      returns (x: nat)
    requires b < |Free(nodes, rows)| && forall n :: n in nodes ==> (n in wanted <==> HasSlot(rows, n))
    ensures Stands(nodes, Free(nodes, rows), wanted, b, x)
  {
    assert nodes[0] in nodes && forall n :: n in nodes[1..] ==> n in nodes;
    if nodes[0] in wanted && b == 0 {
      x := 0;
      StandsFirst(nodes, Free(nodes, rows), wanted);
    } else {
      var c := if nodes[0] in wanted then b - 1 else b;
      var z := FreePlace(nodes[1..], rows, c, wanted);
      x := z + 1;
      var g := Free(nodes[1..], rows);
      assert Free(nodes, rows) == if nodes[0] in wanted then [nodes[0]] + g else g;
      StandsLater(nodes, Free(nodes, rows), wanted, c, z, g);
    }
  }

  lemma {:induction false} MatchPlace(nodes: seq<Node>, cluster: string, b: nat, wanted: set<Node>) returns (x: nat)
    requires b < |Matching(nodes, cluster)| && forall n :: n in nodes ==> (n in wanted <==> InCluster(cluster, n))
    ensures Stands(nodes, Matching(nodes, cluster), wanted, b, x)
  {
    assert nodes[0] in nodes && forall n :: n in nodes[1..] ==> n in nodes;
    if nodes[0] in wanted && b == 0 {
      x := 0;
      StandsFirst(nodes, Matching(nodes, cluster), wanted);
    } else {
      var c := if nodes[0] in wanted then b - 1 else b;
      var z := MatchPlace(nodes[1..], cluster, c, wanted);
      x := z + 1;
      var g := Matching(nodes[1..], cluster);
      assert Matching(nodes, cluster) == if nodes[0] in wanted then [nodes[0]] + g else g;
      StandsLater(nodes, Matching(nodes, cluster), wanted, c, z, g);
    }
  }

  /** The place of the choice among the matching free nodes. */
  lemma {:induction false} ChoicePlace(w: World, request: Request, free: seq<Node>) returns (x: nat)
    requires Modelled(free) && Choice(w, request, free).Some?
    ensures x < |free| && free[x] == Choice(w, request, free).value
    ensures forall y :: 0 <= y < x && Eligible(w, request, free[y]) ==>
              Worth(w, request, free[y]) < Worth(w, request, free[x])
  {
    var matched := Matching(free, Placement(w, request).0);
    var b := BestPlace(w, request, matched);
    assert Choice(w, request, free) == Some(matched[b]);
    var wanted := set n | n in free && InCluster(Placement(w, request).0, n);
    x := MatchPlace(free, Placement(w, request).0, b, wanted);
    forall y | 0 <= y < x && Eligible(w, request, free[y])
      ensures Worth(w, request, free[y]) < Worth(w, request, free[x])
    {
      BelowBest(w, request, matched, b, free[y]);
    }
  }

  lemma {:induction false} BestPlace(w: World, request: Request, nodes: seq<Node>) returns (b: nat)
    requires Modelled(nodes) && nodes != []
    ensures b < |nodes| && Best(w, request, nodes) == nodes[b]
    ensures forall y :: 0 <= y < b ==> Worth(w, request, nodes[y]) < Worth(w, request, nodes[b])
  {
    var scores := Scores(w, request, nodes);
    b := FirstHighest(scores);
    forall y | 0 <= y < b ensures Worth(w, request, nodes[y]) < Worth(w, request, nodes[b]) {
      assert scores[y] < scores[b];
    }
  }

  lemma {:induction false} BelowBest(w: World, request: Request, nodes: seq<Node>, b: nat, n: Node)
    requires Modelled(nodes) && b < |nodes| && n in nodes[..b]
    requires forall y :: 0 <= y < b ==> Worth(w, request, nodes[y]) < Worth(w, request, nodes[b])
    ensures n.model.Some? && Worth(w, request, n) < Worth(w, request, nodes[b])
  {
    var z :| 0 <= z < b && nodes[..b][z] == n;
  }

  lemma {:induction false} ChoiceFirst(e: Env, request: Request, rows: map<string, Row>) returns (x: nat)
    requires Modelled(e.nodes) && Choice(e.w, request, Free(e.nodes, rows)).Some?
    ensures FirstBest(e, request, rows, x) && e.nodes[x] == Choice(e.w, request, Free(e.nodes, rows)).value
  {
    var free := Free(e.nodes, rows);
    var b := ChoicePlace(e.w, request, free);
    var wanted := set n | n in e.nodes && HasSlot(rows, n);
    x := FreePlace(e.nodes, rows, b, wanted);
    forall y | 0 <= y < |e.nodes| && Takes(e, request, rows, e.nodes[y])
      ensures Worth(e.w, request, e.nodes[y]) <= Worth(e.w, request, e.nodes[x])
      ensures y < x ==> Worth(e.w, request, e.nodes[y]) < Worth(e.w, request, e.nodes[x])
    {
      assert e.nodes[y] in free;
      if y < x {
        BeforeChoice(e.w, request, free, b, e.nodes[y]);
      }
    }
  }

  lemma {:induction false} BeforeChoice(w: World, request: Request, free: seq<Node>, b: nat, n: Node)
    requires b < |free| && Modelled(free) && n in free[..b] && Eligible(w, request, n)
    requires forall y :: 0 <= y < b && Eligible(w, request, free[y]) ==>
               Worth(w, request, free[y]) < Worth(w, request, free[b])
    ensures Worth(w, request, n) < Worth(w, request, free[b])
  {
    var z :| 0 <= z < b && free[..b][z] == n;
    assert free[z] == n;
  }

  // ---------------------------------------------------------------- main theorems

  lemma {:induction false} HadTurn(e: Env, t: Table, i: nat, id: string, k: nat, p: Pass, rows: map<string, Row>)
    requires Modelled(e.nodes) && Ordered(t) && i < |t.order| && id == t.order[i] && t.rows[id].state.Queued?
    requires k == |QueuedIds(t.rows, t.order[..i])| && rows == AtTurn(t, Scheduled(e, t).t.rows, i)
    ensures k < |QueuedIds(t.rows, t.order)| && id == QueuedIds(t.rows, t.order)[k] && At(e, t, k).t.rows == rows
    ensures id in rows && rows[id] == t.rows[id] && id in Scheduled(e, t).t.rows
    ensures p == At(e, t, k) ==> Scheduled(e, t).t.rows[id] == Turn(e, p, id).t.rows[id]
  {
    QueuedPrefix(t.rows, t.order, i);
    TurnAt(e, t, i, k);
    Decided(e, t, k, id, At(e, t, k));
  }

  lemma {:induction false} LeavesOthers(e: Env, t: Table, id: string)
    requires Modelled(e.nodes) && Ordered(t) && id in t.rows && !t.rows[id].state.Queued?
    ensures id in Scheduled(e, t).t.rows && Scheduled(e, t).t.rows[id] == t.rows[id]
  {
    ScheduledGrows(e, t);
  }

  lemma {:induction false} NoChoice(e: Env, request: Request, rows: map<string, Row>, n: Node)
    requires Modelled(e.nodes) && Choice(e.w, request, Free(e.nodes, rows)).None? && n in e.nodes
    ensures !Takes(e, request, rows, n)
  {
    if HasSlot(rows, n) {
      assert n in Free(e.nodes, rows);
    }
  }

  /** Nobody can take the task at its turn. */
  ghost predicate Stuck(e: Env, request: Request, rows: map<string, Row>)
  {
    forall n :: n in e.nodes ==> !Takes(e, request, rows, n)
  }

  /** The whole pass, by the order of submission: a task that was not queued stays as
      it is; a queued one goes to the first of the best nodes that can take it once all
      tasks submitted before it have been served, and stays queued if there is none. */
  lemma {:induction false} ServedInOrder(e: Env, t: Table, i: nat, id: string, rows: map<string, Row>,
                                         next: map<string, Row>) returns (x: nat)
    requires Modelled(e.nodes) && Ordered(t) && i < |t.order| && id == t.order[i]
    requires next == Scheduled(e, t).t.rows && rows == AtTurn(t, next, i)
    ensures id in next
    ensures !t.rows[id].state.Queued? || Stuck(e, t.rows[id].request, rows) ==> next[id] == t.rows[id]
    ensures t.rows[id].state.Queued? && !Stuck(e, t.rows[id].request, rows) ==>
              && FirstBest(e, t.rows[id].request, rows, x)
              && next[id].state.Assigned? && next[id].node == Some(e.nodes[x].id)
  {
    x := 0;
    if t.rows[id].state.Queued? {
      var k := |QueuedIds(t.rows, t.order[..i])|;
      QueuedPrefix(t.rows, t.order, i);
      var p := At(e, t, k);
      HadTurn(e, t, i, id, k, p, rows);
      x := OneTurn(e, p, id, next[id]);
    } else {
      LeavesOthers(e, t, id);
    }
  }

  lemma {:induction false} OneTurn(e: Env, p: Pass, id: string, row: Row) returns (x: nat)
    requires Modelled(e.nodes) && id in p.t.rows && p.t.rows[id].state.Queued?
    requires id in Turn(e, p, id).t.rows && row == Turn(e, p, id).t.rows[id]
    ensures Stuck(e, p.t.rows[id].request, p.t.rows) ==> row == p.t.rows[id]
    ensures !Stuck(e, p.t.rows[id].request, p.t.rows) ==>
              && FirstBest(e, p.t.rows[id].request, p.t.rows, x)
              && row.state.Assigned? && row.node == Some(e.nodes[x].id)
  {
    x := 0;
    var request := p.t.rows[id].request;
    var choice := Choice(e.w, request, Free(e.nodes, p.t.rows));
    TurnRow(e, p, id, choice);
    if choice.Some? {
      x := ChoiceFirst(e, request, p.t.rows);
      assert e.nodes[x] in e.nodes;
    } else {
      forall n | n in e.nodes ensures !Takes(e, request, p.t.rows, n) {
        NoChoice(e, request, p.t.rows, n);
      }
    }
  }

  /** What was served later only took slots away. */
  lemma {:induction false} SlotEarlier(e: Env, t: Table, i: nat, j: nat, n: Node)
    requires Modelled(e.nodes) && Ordered(t) && i <= j <= |t.order|
    requires HasSlot(AtTurn(t, Scheduled(e, t).t.rows, j), n)
    ensures HasSlot(AtTurn(t, Scheduled(e, t).t.rows, i), n)
  {
    var k, m := |QueuedIds(t.rows, t.order[..i])|, |QueuedIds(t.rows, t.order[..j])|;
    QueuedFront(t.rows, t.order[..j], i);
    assert t.order[..j][..i] == t.order[..i];
    TurnAt(e, t, i, k);
    TurnAt(e, t, j, m);
    SlotBefore(e, t, k, m, n);
  }

  lemma {:induction false} SlotBefore(e: Env, t: Table, k: nat, m: nat, n: Node)
    requires Modelled(e.nodes) && Ordered(t) && k <= m <= |QueuedIds(t.rows, t.order)|
    requires HasSlot(At(e, t, m).t.rows, n)
    ensures HasSlot(At(e, t, k).t.rows, n)
  {
    AtGrows(e, t, k, m);
  }

  /** No overtaking: when a task is left queued and one submitted after it is assigned,
      the node of the later one was not eligible for the earlier. */
  lemma {:induction false} NoOvertaking(e: Env, t: Table, i: nat, j: nat, next: map<string, Row>) returns (n: Node)
    requires Modelled(e.nodes) && Ordered(t) && i < j < |t.order| && next == Scheduled(e, t).t.rows
    requires t.rows[t.order[i]].state.Queued? && t.rows[t.order[j]].state.Queued?
    requires t.order[i] in next && next[t.order[i]].state.Queued?
    requires t.order[j] in next && !next[t.order[j]].state.Queued?
    ensures n in e.nodes && next[t.order[j]].node == Some(n.id)
    ensures !Eligible(e.w, t.rows[t.order[i]].request, n)
  {
    var x := ServedInOrder(e, t, j, t.order[j], AtTurn(t, next, j), next);
    n := e.nodes[x];
    SlotEarlier(e, t, i, j, n);
    var y := ServedInOrder(e, t, i, t.order[i], AtTurn(t, next, i), next);
    assert !Takes(e, t.rows[t.order[i]].request, AtTurn(t, next, i), n);
  }
}
