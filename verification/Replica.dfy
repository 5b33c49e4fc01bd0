/** Viewers of a live workspace: each holds a copy of the files that it builds from a
    full snapshot and the deltas that reach it through its bounded queue. */
module Replica {
  import opened Text
  import opened LineOps
  import opened Broadcast
  import opened LiveWorkspace

  /** An applied patch as viewers see it. */
  datatype Delta = Delta(path: string, version: nat, seqno: nat, ops: seq<Op>)

  /** What is published: deltas and presence to a workspace's viewers, notices of
      patches to the subscribers of all events. */
  datatype Payload = Patched(delta: Delta) | Presence | Notice(path: string, seqno: nat, actor: string)

  /** A viewer's copy: the texts it holds, the sequence number they are at, and
      whether it has noticed that a delta is missing. */
  datatype Copy = Copy(files: map<string, string>, seqno: nat, gap: bool)

  /** `lost` are the deltas dropped from the queue that the copy still needed. */
  datatype Viewer = Viewer(queue: seq<Message<Payload>>, copy: Option<Copy>, lost: set<nat>)

  datatype System = System(server: State, viewers: map<nat, Viewer>)

  datatype Action =
    | Join(viewer: nat)
    | Sync(viewer: nat)
    | Deliver(viewer: nat)
    | Leave(viewer: nat)
    | Send(patch: Patch)
    | Point  // somebody's presence

  // ------------------------------------------------------------------- steps

  function Read(files: map<string, string>, path: string): string
  {
    if path in files then files[path] else ""
  }

  function Snapshot(s: State): Copy
  {
    Copy(map p | p in s.files :: s.files[p].text, s.seqno, false)
  }

  function DeltaOf(r: Reply): Delta
    requires r.Accepted?
  {
    Delta(r.path, r.version, r.seqno, r.ops)
  }

  /** Whether a copy still needs this message. */
  predicate Needs(c: Option<Copy>, m: Message<Payload>)
  {
    c.Some? && m.payload.Patched? && m.payload.delta.seqno > c.value.seqno
  }

  /** The message that publishing `event` pushes out of a full queue is remembered as
      lost if the copy needed it. */
  function Publish(v: Viewer, m: Message<Payload>): Viewer
  {
    var drops := |v.queue| >= QUEUE_CAP && !Droppable(m.event) && v.queue != [];
    v.(queue := Enqueued(v.queue, m),
       lost := if drops && Needs(v.copy, v.queue[0]) then v.lost + {v.queue[0].payload.delta.seqno} else v.lost)
  }

  /** A delta in sequence is applied, an older one ignored; a later one, or one that
      does not apply, is a gap, and a copy with a gap waits for the next snapshot. */
  function Receive(c: Copy, d: Delta): Copy
  {
    if c.gap || d.seqno <= c.seqno then c
    else if d.seqno > c.seqno + 1 then c.(gap := true)
    else match ApplyOps(Read(c.files, d.path), d.ops)
      case None => c.(gap := true)
      case Some(text) => c.(files := c.files[d.path := text], seqno := d.seqno)
  }

  function Handle(c: Option<Copy>, m: Payload): Option<Copy>
  {
    if c.Some? && m.Patched? then Some(Receive(c.value, m.delta)) else c
  }

  function Act(s: System, a: Action): System
  {
    match a
    case Join(k) =>
      if k in s.viewers then s else s.(viewers := s.viewers[k := Viewer([], None, {})])
    case Leave(k) =>
      s.(viewers := s.viewers - {k})
    case Sync(k) =>
      if k !in s.viewers then s
      else s.(viewers := s.viewers[k := s.viewers[k].(copy := Some(Snapshot(s.server)), lost := {})])
    case Deliver(k) =>
      if k !in s.viewers || s.viewers[k].queue == [] then s
      else
        var v := s.viewers[k];
        s.(viewers := s.viewers[k := v.(queue := v.queue[1..], copy := Handle(v.copy, v.queue[0].payload))])
    case Point =>
      s.(viewers := map k | k in s.viewers :: Publish(s.viewers[k], Message("workspace.presence", Presence)))
    case Send(p) =>
      var (server, reply) := Step(s.server, p);
      if !reply.Accepted? then s.(server := server)
      else
        var m := Message("workspace.delta", Patched(DeltaOf(reply)));
        System(server, map k | k in s.viewers :: Publish(s.viewers[k], m))
  }

  function Behave(s: System, actions: seq<Action>): System
    decreases actions
  {
    if actions == [] then s else Behave(Act(s, actions[0]), actions[1..])
  }

  // --------------------------------------------------------------- invariant

  /** The deltas in a queue that a copy at `seqno` still needs. */
  function Pending(q: seq<Message<Payload>>, seqno: nat): seq<Delta>
  {
    if q == [] then [] else PendingHead(q[0], seqno) + Pending(q[1..], seqno)
  }

  function PendingHead(m: Message<Payload>, seqno: nat): seq<Delta>
  {
    if m.payload.Patched? && m.payload.delta.seqno > seqno then [m.payload.delta] else []
  }

  function Fold(c: Copy, ds: seq<Delta>): Copy
    decreases ds
  {
    if ds == [] then c else Fold(Receive(c, ds[0]), ds[1..])
  }

  /** The copy holds exactly the server's files; a missing path reads as empty. */
  ghost predicate Mirrors(c: Copy, s: State)
  {
    !c.gap && c.seqno == s.seqno && forall path :: Read(c.files, path) == FileOf(s, path).text
  }

  /** Deltas are queued in the order of their numbers, the newest being `seqno`. */
  ghost predicate Ordered(q: seq<Message<Payload>>, seqno: nat)
  {
    && (forall k :: 0 <= k < |q| && q[k].payload.Patched? ==> q[k].payload.delta.seqno <= seqno)
    && (forall j, k :: 0 <= j < k < |q| && q[j].payload.Patched? && q[k].payload.Patched? ==>
          q[j].payload.delta.seqno < q[k].payload.delta.seqno)
  }

  /** As long as nothing it needs was lost, the copy and what is still queued make up
      the server's files. After a loss, either the copy has noticed, or the next delta
      it is going to get lies beyond the lost ones. */
  ghost predicate CopyOk(c: Copy, pending: seq<Delta>, lost: set<nat>, s: State)
  {
    && c.seqno <= s.seqno
    && (lost == {} ==> !c.gap && Mirrors(Fold(c, pending), s))
    && (lost != {} && !c.gap ==>
          pending != [] && forall d :: d in lost ==> c.seqno < d < pending[0].seqno)
  }

  ghost predicate ViewerOk(v: Viewer, s: State)
  {
    && |v.queue| <= QUEUE_CAP && Ordered(v.queue, s.seqno)
    && (v.copy.Some? ==> CopyOk(v.copy.value, Pending(v.queue, v.copy.value.seqno), v.lost, s))
  }

  ghost predicate Ok(s: System)
  {
    forall k :: k in s.viewers ==> ViewerOk(s.viewers[k], s.server)
  }

  // ------------------------------------------------------------ preservation

  lemma {:induction false} PendingAppend(q: seq<Message<Payload>>, m: Message<Payload>, seqno: nat)
    ensures Pending(q + [m], seqno) == Pending(q, seqno) + PendingHead(m, seqno)
  {
    if q == [] {
      assert q + [m] == [m] && [m][1..] == [];
      assert Pending([m], seqno) == PendingHead(m, seqno) + Pending([], seqno);
    } else {
      assert (q + [m])[1..] == q[1..] + [m];
      PendingAppend(q[1..], m, seqno);
    }
  }

  /** Whatever is pending comes from the queue. */
  lemma {:induction false} PendingWithin(q: seq<Message<Payload>>, seqno: nat, low: nat, high: nat)
    requires forall k :: 0 <= k < |q| && q[k].payload.Patched? ==> low < q[k].payload.delta.seqno <= high
    ensures forall k :: 0 <= k < |Pending(q, seqno)| ==> low < Pending(q, seqno)[k].seqno <= high
  {
    if q != [] { PendingWithin(q[1..], seqno, low, high); }
  }

  /** A copy that moves on to `to` needs the same deltas if all are beyond `to`. */
  lemma {:induction false} PendingBeyond(q: seq<Message<Payload>>, seqno: nat, to: nat)
    requires seqno <= to
    requires forall k :: 0 <= k < |q| && q[k].payload.Patched? ==> to < q[k].payload.delta.seqno
    ensures Pending(q, seqno) == Pending(q, to)
  {
    if q != [] { PendingBeyond(q[1..], seqno, to); }
  }

  lemma {:induction false} NonePending(q: seq<Message<Payload>>, seqno: nat)
    requires Ordered(q, seqno)
    ensures Pending(q, seqno) == []
  {
    if q != [] { NonePending(q[1..], seqno); }
  }

  lemma {:induction false} FoldAppend(c: Copy, ds: seq<Delta>, d: Delta)
    ensures Fold(c, ds + [d]) == Receive(Fold(c, ds), d)
    decreases ds
  {
    if ds == [] {
      assert ds + [d] == [d] && [d][1..] == [];
      assert Fold(Receive(c, d), []) == Receive(c, d);
    } else {
      assert (ds + [d])[1..] == ds[1..] + [d];
      FoldAppend(Receive(c, ds[0]), ds[1..], d);
    }
  }

  lemma {:induction false} FoldGap(c: Copy, ds: seq<Delta>)
    requires c.gap
    ensures Fold(c, ds) == c
    decreases ds
  {
    if ds != [] { FoldGap(c, ds[1..]); }
  }

  /** `d` is what the server did between `s` and `s'`. */
  ghost predicate Describes(d: Delta, s: State, s': State)
  {
    && s'.seqno == s.seqno + 1 == d.seqno
    && ApplyOps(FileOf(s, d.path).text, d.ops) == Some(FileOf(s', d.path).text)
    && forall path :: path != d.path ==> FileOf(s', path).text == FileOf(s, path).text
  }

  lemma {:induction false} MirrorsNext(c: Copy, s: State, s': State, d: Delta)
    requires Mirrors(c, s) && Describes(d, s, s')
    ensures Mirrors(Receive(c, d), s')
  {
    assert Read(c.files, d.path) == FileOf(s, d.path).text;
  }

  /** Taking the front message out of the queue only takes it out of what is pending. */
  lemma {:induction false} OrderedRest(q: seq<Message<Payload>>, seqno: nat, at: nat)
    requires Ordered(q, seqno) && q != []
    ensures Ordered(q[1..], seqno)
    ensures Pending(q, at) == PendingHead(q[0], at) + Pending(q[1..], at)
    ensures q[0].payload.Patched? ==>
              forall k :: 0 <= k < |Pending(q[1..], at)| ==> q[0].payload.delta.seqno < Pending(q[1..], at)[k].seqno
  {
    if q[0].payload.Patched? {
      forall k | 0 <= k < |q[1..]| && q[1..][k].payload.Patched?
        ensures q[0].payload.delta.seqno < q[1..][k].payload.delta.seqno <= seqno
      {
        assert q[1..][k] == q[k + 1];
      }
      PendingWithin(q[1..], at, q[0].payload.delta.seqno, seqno);
    }
  }

  lemma {:induction false} DeliverOk(v: Viewer, s: State)
    requires ViewerOk(v, s) && v.queue != []
    ensures ViewerOk(v.(queue := v.queue[1..], copy := Handle(v.copy, v.queue[0].payload)), s)
  {
    var m, rest := v.queue[0], v.queue[1..];
    if v.copy.Some? {
      var c := v.copy.value;
      OrderedRest(v.queue, s.seqno, c.seqno);
      if Needs(v.copy, m) {
        ReceiveOk(c, m.payload.delta, rest, v.lost, s);
      } else {
        assert Pending(v.queue, c.seqno) == Pending(rest, c.seqno);
      }
    } else {
      OrderedRest(v.queue, s.seqno, 0);
    }
  }

  lemma {:induction false} ReceiveOk(c: Copy, d: Delta, rest: seq<Message<Payload>>, lost: set<nat>, s: State)
    requires CopyOk(c, [d] + Pending(rest, c.seqno), lost, s) && c.seqno < d.seqno <= s.seqno
    requires forall k :: 0 <= k < |rest| && rest[k].payload.Patched? ==> d.seqno < rest[k].payload.delta.seqno
    ensures CopyOk(Receive(c, d), Pending(rest, Receive(c, d).seqno), lost, s)
  {
    var c', pending := Receive(c, d), Pending(rest, c.seqno);
    assert ([d] + pending)[1..] == pending;
    if lost == {} {
      if c'.gap { FoldGap(c', pending); }
      PendingBeyond(rest, c.seqno, d.seqno);
    } else if !c.gap {
      var x :| x in lost;
      assert c.seqno < x < d.seqno;
    }
  }

  lemma {:induction false} OrderedMore(q: seq<Message<Payload>>, seqno: nat, m: Message<Payload>, seqno': nat)
    requires Ordered(q, seqno) && seqno <= seqno'
    requires m.payload.Patched? ==> seqno < m.payload.delta.seqno <= seqno'
    ensures Ordered(q + [m], seqno')
    ensures q != [] ==> Ordered(q[1..] + [m], seqno')
  {
  }

  lemma {:induction false} PresenceOk(v: Viewer, s: State)
    requires ViewerOk(v, s)
    ensures ViewerOk(Publish(v, Message("workspace.presence", Presence)), s)
  {
    var m := Message("workspace.presence", Presence);
    OrderedMore(v.queue, s.seqno, m, s.seqno);
    if v.copy.Some? {
      PendingAppend(v.queue, m, v.copy.value.seqno);
      assert Pending(v.queue + [m], v.copy.value.seqno) == Pending(v.queue, v.copy.value.seqno);
    }
  }

  /** The pending deltas after a push: the new one at the end, the lost one gone. */
  lemma {:induction false} PushedOk(c: Copy, pending: seq<Delta>, lost: set<nat>, s: State, s': State, d: Delta)
    requires CopyOk(c, pending, lost, s) && Describes(d, s, s')
    requires forall k :: 0 <= k < |pending| ==> pending[k].seqno <= s.seqno
    ensures CopyOk(c, pending + [d], lost, s')
  {
    if lost == {} {
      FoldAppend(c, pending, d);
      MirrorsNext(Fold(c, pending), s, s', d);
    }
  }

  lemma {:induction false} DroppedOk(c: Copy, pending: seq<Delta>, lost: set<nat>, s: State, s': State, d: Delta)
    requires CopyOk(c, pending, lost, s) && Describes(d, s, s') && pending != []
    requires c.seqno < pending[0].seqno <= s.seqno
    requires forall k :: 0 < k < |pending| ==> pending[0].seqno < pending[k].seqno
    ensures CopyOk(c, pending[1..] + [d], lost + {pending[0].seqno}, s')
  {
    var more := pending[1..] + [d];
    assert pending[0].seqno < more[0].seqno;
    assert pending[0].seqno in lost + {pending[0].seqno};
  }

  /** Whether pushing a delta into the queue costs the copy one that it needs. */
  predicate Costs(v: Viewer)
  {
    |v.queue| >= QUEUE_CAP && Needs(v.copy, v.queue[0])
  }

  /** What a copy at `at` has pending after a delta is pushed into its queue. */
  lemma {:induction false} PendingAfter(v: Viewer, at: nat, seqno: nat, d: Delta)
    requires Ordered(v.queue, seqno) && at <= seqno < d.seqno && |v.queue| <= QUEUE_CAP
    requires v.copy.Some? && v.copy.value.seqno == at
    ensures var pending := Pending(v.queue, at);
            && (Costs(v) ==> pending != [] && pending[0] == v.queue[0].payload.delta)
            && Pending(Publish(v, Message("workspace.delta", Patched(d))).queue, at)
               == (if Costs(v) then pending[1..] else pending) + [d]
  {
    var m := Message("workspace.delta", Patched(d));
    if |v.queue| < QUEUE_CAP {
      PendingAppend(v.queue, m, at);
    } else {
      OrderedRest(v.queue, seqno, at);
      PendingAppend(v.queue[1..], m, at);
      assert Pending(v.queue[1..], at) == if Costs(v) then Pending(v.queue, at)[1..] else Pending(v.queue, at);
    }
  }

  lemma {:induction false} DeltaCopyOk(v: Viewer, c: Copy, m: Message<Payload>, s: State, s': State, d: Delta)
    requires ViewerOk(v, s) && v.copy == Some(c) && Describes(d, s, s')
    requires m == Message("workspace.delta", Patched(d))
    ensures CopyOk(c, Pending(Publish(v, m).queue, c.seqno), Publish(v, m).lost, s')
  {
    var pending := Pending(v.queue, c.seqno);
    PendingBounded(v.queue, c.seqno, s.seqno);
    PendingAfter(v, c.seqno, s.seqno, d);
    if Costs(v) {
      PendingOrdered(v.queue, c.seqno, s.seqno);
      DroppedOk(c, pending, v.lost, s, s', d);
    } else {
      PushedOk(c, pending, v.lost, s, s', d);
    }
  }

  lemma {:induction false} PendingOrdered(q: seq<Message<Payload>>, at: nat, seqno: nat)
    requires Ordered(q, seqno) && q != [] && PendingHead(q[0], at) != []
    ensures var pending := Pending(q, at);
            pending != [] && forall k :: 0 < k < |pending| ==> pending[0].seqno < pending[k].seqno
  {
    OrderedRest(q, seqno, at);
  }

  lemma {:induction false} DeltaOk(v: Viewer, s: State, s': State, d: Delta)
    requires ViewerOk(v, s) && Describes(d, s, s')
    ensures ViewerOk(Publish(v, Message("workspace.delta", Patched(d))), s')
  {
    var m := Message("workspace.delta", Patched(d));
    OrderedMore(v.queue, s.seqno, m, s'.seqno);
    if v.copy.Some? { DeltaCopyOk(v, v.copy.value, m, s, s', d); }
  }

  lemma {:induction false} PendingBounded(q: seq<Message<Payload>>, at: nat, seqno: nat)
    requires Ordered(q, seqno)
    ensures forall k :: 0 <= k < |Pending(q, at)| ==> at < Pending(q, at)[k].seqno <= seqno
  {
    if q != [] { PendingBounded(q[1..], at, seqno); }
  }

  lemma {:induction false} StepDescribes(s: State, p: Patch)
    requires Step(s, p).1.Accepted?
    ensures Describes(DeltaOf(Step(s, p).1), s, Step(s, p).0)
  {
  }

  lemma {:induction false} RefusedKeeps(v: Viewer, s: State, s': State)
    requires ViewerOk(v, s) && s'.seqno == s.seqno
    requires forall path :: FileOf(s', path).text == FileOf(s, path).text
    ensures ViewerOk(v, s')
  {
  }

  lemma {:induction false} SyncOk(v: Viewer, s: State)
    requires ViewerOk(v, s)
    ensures ViewerOk(v.(copy := Some(Snapshot(s)), lost := {}), s)
  {
    NonePending(v.queue, s.seqno);
    assert Mirrors(Snapshot(s), s);
  }

  lemma {:induction false} ActOk(s: System, a: Action)
    requires Ok(s)
    ensures Ok(Act(s, a))
  {
    match a
    case Join(k) =>
      assert ViewerOk(Viewer([], None, {}), s.server);
    case Leave(k) =>
    case Sync(k) =>
      if k in s.viewers { SyncOk(s.viewers[k], s.server); }
    case Deliver(k) =>
      if k in s.viewers && s.viewers[k].queue != [] { DeliverOk(s.viewers[k], s.server); }
    case Point =>
      forall k | k in s.viewers { PresenceOk(s.viewers[k], s.server); }
    case Send(p) =>
      SendOk(s, p);
  }

  lemma {:induction false} SendOk(s: System, p: Patch)
    requires Ok(s)
    ensures Ok(Act(s, Send(p)))
  {
    var (server, reply) := Step(s.server, p);
    if reply.Accepted? {
      StepDescribes(s.server, p);
      forall k | k in s.viewers { DeltaOk(s.viewers[k], s.server, server, DeltaOf(reply)); }
    } else {
      forall path ensures FileOf(server, path).text == FileOf(s.server, path).text {
      }
      forall k | k in s.viewers { RefusedKeeps(s.viewers[k], s.server, server); }
    }
  }

  lemma {:induction false} BehaveOk(s: System, actions: seq<Action>)
    requires Ok(s)
    ensures Ok(Behave(s, actions))
    decreases actions
  {
    if actions != [] {
      ActOk(s, actions[0]);
      BehaveOk(Act(s, actions[0]), actions[1..]);
    }
  }

  // ------------------------------------------------------------ main results

  /** The system after any actions on a newly created workspace. */
  function Reached(initial: map<string, string>, actions: seq<Action>): System
  {
    Behave(System(Created(initial), map[]), actions)
  }

  /** A viewer with a copy and nothing left in its queue. */
  predicate Drained(s: System, k: nat)
  {
    k in s.viewers && s.viewers[k].queue == [] && s.viewers[k].copy.Some?
  }

  /** Replica convergence: a viewer that has drained its queue and saw contiguous
      sequence numbers holds exactly the server's files at the server's number. */
  lemma {:induction false} DrainedViewersConverge(initial: map<string, string>, actions: seq<Action>, k: nat)
    requires var s := Reached(initial, actions); Drained(s, k) && !s.viewers[k].copy.value.gap
    ensures var s := Reached(initial, actions); Mirrors(s.viewers[k].copy.value, s.server)
  {
    BehaveOk(System(Created(initial), map[]), actions);
    var v := Reached(initial, actions).viewers[k];
    assert Pending(v.queue, v.copy.value.seqno) == [];
  }

  /** Every loss shows, and nothing else does: once its queue is drained, a viewer has
      noticed a gap exactly when a delta it needed was dropped. */
  lemma {:induction false} LossShowsAsGap(initial: map<string, string>, actions: seq<Action>, k: nat)
    requires Drained(Reached(initial, actions), k)
    ensures var v := Reached(initial, actions).viewers[k]; v.copy.value.gap <==> v.lost != {}
  {
    BehaveOk(System(Created(initial), map[]), actions);
    var v := Reached(initial, actions).viewers[k];
    assert Pending(v.queue, v.copy.value.seqno) == [];
  }

  /** Before that, a copy without losses is never flagged, and what it holds together
      with what is still queued for it are the server's files. */
  lemma {:induction false} UndrainedViewersCatchUp(initial: map<string, string>, actions: seq<Action>, k: nat)
    requires var s := Reached(initial, actions);
             k in s.viewers && s.viewers[k].copy.Some? && s.viewers[k].lost == {}
    ensures var s := Reached(initial, actions);
            var v := s.viewers[k];
            !v.copy.value.gap && Mirrors(Fold(v.copy.value, Pending(v.queue, v.copy.value.seqno)), s.server)
  {
    BehaveOk(System(Created(initial), map[]), actions);
  }

  /** The newest delta is never the one that is lost. */
  lemma {:induction false} NewestDeltaQueued(initial: map<string, string>, actions: seq<Action>, p: Patch, k: nat)
    requires var s := Reached(initial, actions); k in s.viewers && Step(s.server, p).1.Accepted?
    ensures var s := Reached(initial, actions);
            var v := Act(s, Send(p)).viewers[k];
            && v.queue != []
            && v.queue[|v.queue| - 1].payload == Patched(DeltaOf(Step(s.server, p).1))
            && v.queue[|v.queue| - 1].payload.delta.seqno == Act(s, Send(p)).server.seqno
  {
    BehaveOk(System(Created(initial), map[]), actions);
    StepDescribes(Reached(initial, actions).server, p);
  }
}
