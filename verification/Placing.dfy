/** What counts when a node is picked, what goes to it, and when a node is on offer. */
module Placing {
  import opened Text
  import opened Contexts
  import opened ContextFit
  import opened Tasks
  import opened Scoring
  import opened Scheduling
  import opened Dispatching
  import opened NodeRegistry

  // --------------------------------------------------------------- what tips the scales

  /** The same in everything but what is compared. */
  predicate Alike(n: Node, m: Node)
  {
    && n.model.Some? && m.model.Some?
    && n.model.value.contextWindow == m.model.value.contextWindow
  }

  /** The prompt fits on both. */
  predicate FitBoth(request: Request, n: Node, m: Node, prompt: string)
  {
    Alike(n, m) && PromptTokens(prompt) + request.maxOutput <= n.model.value.contextWindow
  }

  predicate Capable(kind: TaskType, n: Node)
    requires n.model.Some?
  {
    kind in n.model.value.capabilities || (kind.Summarization? && Chat in n.model.value.capabilities)
  }

  lemma {:induction false} LoadRange(n: Node)
    requires Sane(n)
    ensures -75.0 <= LoadScore(n.resources) <= 50.0
  {
  }

  lemma {:induction false} SameSize(tokens: nat, a: Model, b: Model)
    requires a.parameterCountB == b.parameterCountB
    ensures SizeScore(tokens, a) == SizeScore(tokens, b)
  {
  }

  /** The node that a session is pinned to beats every other of its size, whatever their
      abilities and their load. */
  lemma {:induction false} PinnedWins(request: Request, n: Node, m: Node, prompt: string)
    requires Sane(n) && Sane(m) && FitBoth(request, n, m, prompt) && n.id != "" && m.id != n.id
    requires n.model.value.parameterCountB == m.model.value.parameterCountB
    ensures Score(request, n, prompt, Some(n.id)) > Score(request, m, prompt, Some(n.id))
  {
    LoadRange(n);
    LoadRange(m);
    SameSize(PromptTokens(prompt), n.model.value, m.model.value);
  }

  /** A node that is made for the kind of task beats one of its size that is not, whatever
      their load; for a summary, one that is made for chat will do. */
  lemma {:induction false} CapableWins(request: Request, n: Node, m: Node, prompt: string)
    requires Sane(n) && Sane(m) && FitBoth(request, n, m, prompt)
    requires n.model.value.parameterCountB == m.model.value.parameterCountB
    requires Capable(request.kind, n) && !Capable(request.kind, m)
    ensures Score(request, n, prompt, None) > Score(request, m, prompt, None)
  {
    LoadRange(n);
    LoadRange(m);
    SameSize(PromptTokens(prompt), n.model.value, m.model.value);
  }

  /** What a billion parameters are worth: more the longer the prompt, up to 4000 tokens;
      and one point less for a prompt of less than 250. */
  function Weight(tokens: nat): real
  {
    (if tokens <= 4000 then tokens as real / 100.0 else 40.0) - if tokens < 250 then 1.0 else 0.0
  }

  lemma {:induction false} SizeIs(tokens: nat, model: Model)
    ensures SizeScore(tokens, model) == model.parameterCountB * Weight(tokens)
  {
    var p, l := model.parameterCountB, Least(tokens as real / 1000.0, 4.0);
    assert l * 10.0 == (if tokens <= 4000 then tokens as real / 100.0 else 40.0);
    Distribute(p, l, if tokens < 250 then 1.0 else 0.0);
  }

  lemma {:induction false} Distribute(p: real, l: real, d: real)
    requires d == 0.0 || d == 1.0
    ensures p * l * 10.0 - (if d == 1.0 then p else 0.0) == p * (l * 10.0 - d)
  {
  }

  lemma {:induction false} Larger(p: real, q: real, w: real)
    requires p > q
    ensures p * w > q * w <==> w > 0.0
    ensures p * w < q * w <==> w < 0.0
  {
    assert p * w - q * w == (p - q) * w;
    if w > 0.0 {
      assert (p - q) * w > 0.0;
    } else if w < 0.0 {
      assert (p - q) * w < 0.0;
    }
  }

  /** Of two nodes that differ in size only, the smaller one is preferred exactly for
      prompts of less than 100 tokens, and the larger one for those of more. (The comment
      on the score has it that prompts of less than 250 prefer smaller models; between
      100 and 250 the point they lose is less than what their length is worth.) */
  lemma {:induction false} SmallerPreferredIff(request: Request, n: Node, m: Node, prompt: string)
    requires FitBoth(request, n, m, prompt) && n.resources == m.resources
    requires Capable(request.kind, n) == Capable(request.kind, m)
    requires n.model.value.parameterCountB > m.model.value.parameterCountB
    ensures Score(request, m, prompt, None) > Score(request, n, prompt, None) <==> PromptTokens(prompt) < 100
    ensures Score(request, n, prompt, None) > Score(request, m, prompt, None) <==> PromptTokens(prompt) > 100
  {
    var tokens := PromptTokens(prompt);
    var base := CapabilityScore(request.kind, n.model.value) + LoadScore(n.resources);
    SizeIs(tokens, n.model.value);
    SizeIs(tokens, m.model.value);
    BySize(n.model.value.parameterCountB, m.model.value.parameterCountB, Weight(tokens), base,
           SizeScore(tokens, n.model.value), SizeScore(tokens, m.model.value));
    WeightSign(tokens);
    ScoreParts(request, n, prompt, base, SizeScore(tokens, n.model.value));
    ScoreParts(request, m, prompt, base, SizeScore(tokens, m.model.value));
  }

  lemma {:induction false} BySize(p: real, q: real, w: real, base: real, a: real, b: real)
    requires p > q && a == p * w && b == q * w
    ensures base + b > base + a <==> w < 0.0
    ensures base + a > base + b <==> w > 0.0
  {
    Larger(p, q, w);
  }

  lemma {:induction false} ScoreParts(request: Request, n: Node, prompt: string, base: real, size: real)
    requires n.model.Some? && PromptTokens(prompt) + request.maxOutput <= n.model.value.contextWindow
    requires base == CapabilityScore(request.kind, n.model.value) + LoadScore(n.resources)
    requires size == SizeScore(PromptTokens(prompt), n.model.value)
    ensures Score(request, n, prompt, None) == base + size
  {
  }

  lemma {:induction false} WeightSign(tokens: nat)
    ensures Weight(tokens) < 0.0 <==> tokens < 100
    ensures Weight(tokens) > 0.0 <==> tokens > 100
  {
  }

  /** What load takes off: half a point for each percent of the processor, 25 for a
      battery; what speed adds: half a point for each token a second, up to 100; and ten
      off when nothing is known. */
  lemma {:induction false} LoadIs(request: Request, n: Node, m: Node, prompt: string, r: Resources, d: real)
    requires FitBoth(request, n, m, prompt) && n.model == m.model && n.resources == Some(r)
    requires Score(request, n, prompt, None) - Score(request, m, prompt, None) == d
    ensures r.cpuPercent.Some? && m.resources == Some(r.(cpuPercent := None)) ==> d == -0.5 * r.cpuPercent.value
    ensures r.onBattery && m.resources == Some(r.(onBattery := false)) ==> d == -25.0
    ensures r.decodeRate.Some? && m.resources == Some(r.(decodeRate := None)) ==>
              d == 0.5 * if r.decodeRate.value <= 100.0 then r.decodeRate.value else 100.0
    ensures r == Resources(None, false, None) && m.resources == None ==> d == 10.0
  {
    SameSize(PromptTokens(prompt), n.model.value, m.model.value);
    var load := LoadScore(n.resources) - LoadScore(m.resources);
    assert load == d;
  }

  // -------------------------------------------------------------- where it may be placed

  /** A task may go to a node of its session's cluster, or, if the session is bound to
      none, of the cluster that the request names, if any: the key of a cluster may be
      given by its beginning. The node the session is pinned to is preferred. */
  lemma {:induction false} PlacementIs(w: World, request: Request, n: Node)
    requires n.model.Some?
    ensures var bound := request.sessionId != "" && request.sessionId in w.sessions;
            var cluster := if bound && w.sessions[request.sessionId].clusterKey != ""
                           then w.sessions[request.sessionId].clusterKey else request.hint;
            && Placement(w, request) == (cluster, if bound then w.sessions[request.sessionId].pinnedNode else None)
            && (InCluster(cluster, n) <==> |cluster| <= |n.model.value.clusterKey|
                                           && n.model.value.clusterKey[..|cluster|] == cluster)
  {
  }

  /** A node has a slot as long as it holds fewer tasks than it takes at once, one if its
      model does not say; it holds those that are assigned to it or running there. */
  lemma {:induction false} SlotIff(rows: map<string, Row>, n: Node, held: set<string>)
    requires n.model.Some?
    requires forall id :: id in held <==> id in rows && (rows[id].state.Assigned? || rows[id].state.Running?)
                                          && rows[id].node == Some(n.id)
    ensures HasSlot(rows, n)
            <==> |held| < if n.model.value.parallelSlots == 0 then 1 else n.model.value.parallelSlots
  {
    assert held == Held(rows, n.id);
  }

  // --------------------------------------------------------------------- what is sent

  /** What goes to the node: a lease that lasts as the kind of task demands, and the
      request with the session's compiled context for that node's window; or, for tasks
      that record no turns and for new sessions, the messages or the prompt it came with. */
  predicate SentTo(e: Env, request: Request, n: Node, d: Dispatch)
    requires n.model.Some?
  {
    && d.node == n.id
    && d.lease == e.now + (if request.kind == CodeEdit then e.cfg.codeLeaseSeconds else e.cfg.leaseSeconds)
    && d.wire == request.(prompt := d.wire.prompt, messages := d.wire.messages)
    && var log := if request.sessionId in e.w.logs then e.w.logs[request.sessionId] else [];
       var context := Compile(log, n.model.value.contextWindow, request.maxOutput).Messages();
       if request.recordTurns && request.sessionId != "" && context != [] then
         d.wire.messages == context && d.wire.prompt == Joined(context)
       else if request.messages != [] then
         d.wire.messages == request.messages && d.wire.prompt == Joined(request.messages)
       else d.wire.messages == [] && d.wire.prompt == request.prompt
  }

  ghost predicate SentWell(e: Env, rows: map<string, Row>, d: Dispatch)
    requires Modelled(e.nodes)
  {
    d.task in rows && exists n :: n in e.nodes && SentTo(e, rows[d.task].request, n, d)
  }

  ghost predicate AllSentWell(e: Env, rows: map<string, Row>, out: seq<Dispatch>)
    requires Modelled(e.nodes)
  {
    forall k :: 0 <= k < |out| ==> SentWell(e, rows, out[k])
  }

  lemma {:induction false} AssignSends(e: Env, p: Pass, id: string, n: Node, d: Dispatch)
    requires Modelled(e.nodes) && n in e.nodes && id in p.t.rows && n.model.Some?
    requires Assign(e, p, id, n).out == p.out + [d]
    ensures d.task == id && SentTo(e, p.t.rows[id].request, n, d)
  {
    var row := p.t.rows[id];
    var x := Dispatch(id, p.t.issued + 1, n.id, LeaseEnd(e.cfg, row.request, e.now), Wire(e.w, row.request, n));
    assert Assign(e, p, id, n).out == p.out + [x];
    assert (p.out + [d])[|p.out|] == (p.out + [x])[|p.out|];
    WireSends(e.w, row.request, n);
  }

  lemma {:induction false} WireSends(w: World, request: Request, n: Node)
    requires n.model.Some?
    ensures Wire(w, request, n).prompt == Payload(w, request, n).0
    ensures Wire(w, request, n).messages == Payload(w, request, n).1
    ensures Wire(w, request, n)
            == request.(prompt := Payload(w, request, n).0, messages := Payload(w, request, n).1)
  {
  }

  lemma {:induction false} TurnSends(e: Env, t: Table, p: Pass, id: string)
    requires Modelled(e.nodes) && AllSentWell(e, t.rows, p.out)
    requires id in t.rows && id in p.t.rows && p.t.rows[id].request == t.rows[id].request
    ensures AllSentWell(e, t.rows, Scheduling.Turn(e, p, id).out)
  {
    var choice := Choice(e.w, p.t.rows[id].request, Free(e.nodes, p.t.rows));
    if choice.Some? {
      var q := Assign(e, p, id, choice.value);
      var d := q.out[|q.out| - 1];
      assert q.out == p.out + [d];
      AssignSends(e, p, id, choice.value, d);
      assert SentWell(e, t.rows, d);
    }
  }

  lemma {:induction false} AtSends(e: Env, t: Table, k: nat)
    requires Modelled(e.nodes) && Ordered(t) && k <= |QueuedIds(t.rows, t.order)|
    ensures AllSentWell(e, t.rows, At(e, t, k).out)
  {
    if k > 0 {
      AtSends(e, t, k - 1);
      AtSendsOnce(e, t, k - 1, At(e, t, k - 1), QueuedIds(t.rows, t.order)[k - 1]);
    }
  }

  lemma {:induction false} AtSendsOnce(e: Env, t: Table, k: nat, p: Pass, id: string)
    requires Modelled(e.nodes) && Ordered(t) && k < |QueuedIds(t.rows, t.order)|
    requires p == At(e, t, k) && id == QueuedIds(t.rows, t.order)[k] && AllSentWell(e, t.rows, p.out)
    ensures AllSentWell(e, t.rows, At(e, t, k + 1).out)
  {
    Decided(e, t, k, id, p);
    AtSteps(e, t, k);
    TurnSends(e, t, p, id);
  }

  /** Everything that a pass sends out is as the node and the task demand. */
  lemma {:induction false} PassSends(e: Env, t: Table, d: Dispatch)
    requires Modelled(e.nodes) && Ordered(t) && d in Scheduled(e, t).out
    ensures SentWell(e, t.rows, d)
  {
    AtEnds(e, t);
    AtSends(e, t, |QueuedIds(t.rows, t.order)|);
  }

  // ------------------------------------------------------------------ the nodes on offer

  /** A node is on offer when it has a model and is up: ready and without a task if it
      takes one at a time, ready or busy if it takes several. */
  lemma {:induction false} ReadyIff(nodes: seq<Node>, n: Node)
    ensures n in ReadyOf(nodes) <==>
              && n in nodes && n.model.Some?
              && if n.model.value.parallelSlots <= 1 then n.status == Ready && n.currentTask.None?
                 else n.status == Ready || n.status == Busy
  {
  }

  /** And they are offered in the order of the roster. */
  lemma {:induction false} ReadyInOrder(nodes: seq<Node>, more: seq<Node>)
    ensures ReadyOf(nodes + more) == ReadyOf(nodes) + ReadyOf(more)
  {
    if more == [] {
      assert nodes + more == nodes;
    } else {
      assert (nodes + more)[..|nodes + more| - 1] == nodes + more[..|more| - 1];
      ReadyInOrder(nodes, more[..|more| - 1]);
    }
  }

  /** So are those that are taken off for silence. */
  lemma {:induction false} SilentInOrder(nodes: seq<Node>, more: seq<Node>, cutoff: int)
    ensures StaleIds(nodes + more, cutoff) == StaleIds(nodes, cutoff) + StaleIds(more, cutoff)
    ensures forall n :: |StaleIds([n], cutoff)| <= 1
  {
    if more == [] {
      assert nodes + more == nodes;
    } else {
      assert (nodes + more)[..|nodes + more| - 1] == nodes + more[..|more| - 1];
      SilentInOrder(nodes, more[..|more| - 1], cutoff);
    }
  }

  /** A node is taken off for silence when it is up, is not the server, and was last heard
      of before the cutoff; one that was never heard of is not. */
  lemma {:induction false} SilentIff(nodes: seq<Node>, cutoff: int, id: string)
    ensures id in StaleIds(nodes, cutoff) <==>
              exists n :: n in nodes && n.id == id && n.status != Offline && !n.isServer
                          && n.lastHeartbeat.Some? && n.lastHeartbeat.value < cutoff
  {
    if nodes != [] {
      var init, last := nodes[..|nodes| - 1], nodes[|nodes| - 1];
      SilentIff(init, cutoff, id);
      assert nodes == init + [last];
      assert Stale(last, cutoff) ==> last in nodes;
    }
  }
}
