/** What a slow viewer loses: not only ticks, as the broadcaster's own comment has it,
    but any delta at the front of a full queue. */
module Losses {
  import opened Text
  import opened LineOps
  import opened Broadcast
  import opened LiveWorkspace
  import opened Replica

  /** What was lost is older than what is queued. */
  ghost predicate LostBefore(v: Viewer, seqno: nat)
  {
    && Ordered(v.queue, seqno)
    && forall d :: d in v.lost ==> d <= seqno && BeforeAll(d, v.queue)
  }

  ghost predicate BeforeAll(d: nat, q: seq<Message<Payload>>)
  {
    forall k :: 0 <= k < |q| && q[k].payload.Patched? ==> d < q[k].payload.delta.seqno
  }

  ghost predicate AllBefore(s: System)
  {
    forall k :: k in s.viewers ==> LostBefore(s.viewers[k], s.server.seqno)
  }

  lemma {:induction false} PresenceBefore(v: Viewer, m: Message<Payload>, seqno: nat)
    requires LostBefore(v, seqno) && m == Message("workspace.presence", Presence)
    ensures LostBefore(Publish(v, m), seqno)
  {
    OrderedMore(v.queue, seqno, m, seqno);
  }

  lemma {:induction false} DeltaBefore(v: Viewer, m: Message<Payload>, d: Delta, seqno: nat)
    requires LostBefore(v, seqno) && m == Message("workspace.delta", Patched(d)) && d.seqno == seqno + 1
    requires |v.queue| <= QUEUE_CAP
    ensures LostBefore(Publish(v, m), d.seqno)
    ensures Publish(v, m).lost == if Costs(v) then v.lost + {v.queue[0].payload.delta.seqno} else v.lost
    ensures Costs(v) ==> v.queue[0].payload.delta.seqno !in v.lost
  {
    OrderedMore(v.queue, seqno, m, d.seqno);
  }

  lemma {:induction false} DeliverBefore(v: Viewer, seqno: nat, copy: Option<Copy>)
    requires LostBefore(v, seqno) && v.queue != []
    ensures LostBefore(v.(queue := v.queue[1..], copy := copy), seqno)
  {
  }

  lemma {:induction false} SendBefore(s: System, p: Patch)
    requires Ok(s) && AllBefore(s)
    ensures AllBefore(Act(s, Send(p)))
  {
    var (server, reply) := Step(s.server, p);
    if reply.Accepted? {
      StepDescribes(s.server, p);
      var m := Message("workspace.delta", Patched(DeltaOf(reply)));
      forall k | k in s.viewers ensures LostBefore(Publish(s.viewers[k], m), server.seqno) {
        assert ViewerOk(s.viewers[k], s.server);
        DeltaBefore(s.viewers[k], m, DeltaOf(reply), s.server.seqno);
      }
    }
  }

  lemma {:induction false} ActBefore(s: System, a: Action)
    requires Ok(s) && AllBefore(s)
    ensures AllBefore(Act(s, a))
  {
    match a
    case Join(k) =>
    case Leave(k) =>
    case Sync(k) =>
    case Deliver(k) =>
      if k in s.viewers && s.viewers[k].queue != [] {
        var v := s.viewers[k];
        DeliverBefore(v, s.server.seqno, Handle(v.copy, v.queue[0].payload));
      }
    case Point =>
      var m := Message("workspace.presence", Presence);
      forall k | k in s.viewers ensures LostBefore(Publish(s.viewers[k], m), s.server.seqno) {
        PresenceBefore(s.viewers[k], m, s.server.seqno);
      }
    case Send(p) =>
      SendBefore(s, p);
  }

  lemma {:induction false} BehaveBefore(s: System, actions: seq<Action>)
    requires Ok(s) && AllBefore(s)
    ensures AllBefore(Behave(s, actions))
    decreases actions
  {
    if actions != [] {
      ActOk(s, actions[0]);
      ActBefore(s, actions[0]);
      BehaveBefore(Act(s, actions[0]), actions[1..]);
    }
  }

  /** In every reachable state, an accepted patch makes a viewer lose a delta exactly
      when its queue is full and starts with a delta that its copy still needs; and it
      is that delta that is lost. */
  lemma {:induction false} LosesIff(initial: map<string, string>, actions: seq<Action>, p: Patch, k: nat, v: Viewer)
    requires k in Reached(initial, actions).viewers && v == Reached(initial, actions).viewers[k]
    requires Step(Reached(initial, actions).server, p).1.Accepted?
    ensures var w := Act(Reached(initial, actions), Send(p)).viewers[k];
            && (w.lost != v.lost <==> Costs(v))
            && (Costs(v) ==> w.lost == v.lost + {v.queue[0].payload.delta.seqno})
  {
    var start, s := System(Created(initial), map[]), Reached(initial, actions);
    BehaveOk(start, actions);
    BehaveBefore(start, actions);
    StepDescribes(s.server, p);
    assert ViewerOk(v, s.server);
    var d := DeltaOf(Step(s.server, p).1);
    DeltaBefore(v, Message("workspace.delta", Patched(d)), d, s.server.seqno);
  }

  // ------------------------------------------------------------ and it does happen

  lemma {:induction false} BehaveMore(s: System, actions: seq<Action>, a: Action)
    ensures Behave(s, actions + [a]) == Act(Behave(s, actions), a)
    decreases actions
  {
    if actions == [] {
      assert actions + [a] == [a] && [a][1..] == [];
    } else {
      assert (actions + [a])[1..] == actions[1..] + [a];
      BehaveMore(Act(s, actions[0]), actions[1..], a);
    }
  }

  /** A viewer joins, takes its snapshot, and then reads nothing while `n` patches
      arrive. */
  function Flood(p: Patch, n: nat): seq<Action>
  {
    if n == 0 then [Join(0)] + [Sync(0)] else Flood(p, n - 1) + [Send(p)]
  }

  /** The viewer's queue holds the `n` deltas since sequence number `first`, all of which
      its copy needs. */
  ghost predicate Backlog(s: System, first: nat, n: nat)
  {
    && s.server.seqno == first + n
    && 0 in s.viewers && s.viewers[0].copy.Some? && s.viewers[0].lost == {}
    && |s.viewers[0].queue| == n && s.viewers[0].copy.value.seqno <= s.server.seqno
    && forall k :: 0 <= k < n ==> Needs(s.viewers[0].copy, s.viewers[0].queue[k])
                                  && s.viewers[0].queue[k].payload.delta.seqno == first + 1 + k
  }

  lemma {:induction false} AlwaysAccepted(s: State, p: Patch)
    requires !IsBadPath(p.path) && p.ops == []
    ensures Step(s, p).1.Accepted? && Step(s, p).0.seqno == s.seqno + 1
    ensures DeltaOf(Step(s, p).1).seqno == s.seqno + 1
  {
    assert RebaseOps([], Flatten(OpsOf(Newer(FileOf(s, p.path).history, p.base)))) == [];
  }

  lemma {:induction false} BacklogGrows(s: System, p: Patch, first: nat, n: nat)
    requires !IsBadPath(p.path) && p.ops == [] && n < QUEUE_CAP && Backlog(s, first, n)
    ensures Backlog(Act(s, Send(p)), first, n + 1)
  {
    AlwaysAccepted(s.server, p);
  }

  lemma {:induction false} FloodFills(initial: map<string, string>, p: Patch, n: nat)
    requires !IsBadPath(p.path) && p.ops == [] && n <= QUEUE_CAP
    ensures Backlog(Reached(initial, Flood(p, n)), Created(initial).seqno, n)
  {
    var start := System(Created(initial), map[]);
    if n == 0 {
      BehaveMore(start, [], Join(0));
      BehaveMore(start, [Join(0)], Sync(0));
      assert [] + [Join(0)] == [Join(0)];
    } else {
      FloodFills(initial, p, n - 1);
      BehaveMore(start, Flood(p, n - 1), Send(p));
      BacklogGrows(Reached(initial, Flood(p, n - 1)), p, start.server.seqno, n - 1);
    }
  }

  /** Deltas are dropped: the patch after the 256th that a viewer did not read costs it
      the first of them, and only that one. */
  lemma {:induction false} FloodLoses(initial: map<string, string>, p: Patch)
    requires !IsBadPath(p.path) && p.ops == []
    ensures 0 in Reached(initial, Flood(p, 256)).viewers && Reached(initial, Flood(p, 256)).viewers[0].lost == {}
    ensures 0 in Reached(initial, Flood(p, 257)).viewers && Reached(initial, Flood(p, 257)).viewers[0].lost == {2}
  {
    FloodFills(initial, p, QUEUE_CAP);
    var s := Reached(initial, Flood(p, QUEUE_CAP));
    AlwaysAccepted(s.server, p);
    LosesIff(initial, Flood(p, QUEUE_CAP), p, 0, s.viewers[0]);
    BehaveMore(System(Created(initial), map[]), Flood(p, QUEUE_CAP), Send(p));
    assert Flood(p, QUEUE_CAP + 1) == Flood(p, QUEUE_CAP) + [Send(p)];
  }
}
