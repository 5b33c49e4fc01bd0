/** The node roster. */
module NodeRegistry {
  import opened Text
  import opened Tasks
  import opened Scoring

  function ReadyOf(nodes: seq<Node>): (ready: seq<Node>)
    ensures forall n :: n in ready <==> n in nodes && IsReady(n)
  {
    if nodes == [] then []
    else
      var last := nodes[|nodes| - 1];
      assert nodes == nodes[..|nodes| - 1] + [last];
      ReadyOf(nodes[..|nodes| - 1]) + if IsReady(last) then [last] else []
  }

  ghost predicate DistinctIds(nodes: seq<Node>)
  {
    forall j, k :: 0 <= j < k < |nodes| ==> nodes[j].id != nodes[k].id
  }

  lemma {:induction false} ReadyDistinct(nodes: seq<Node>)
    requires DistinctIds(nodes)
    ensures DistinctIds(ReadyOf(nodes))
  {
    if nodes != [] {
      var init := nodes[..|nodes| - 1];
      ReadyDistinct(init);
      forall k | 0 <= k < |ReadyOf(init)| ensures ReadyOf(init)[k].id != nodes[|nodes| - 1].id {
        assert ReadyOf(init)[k] in init;
      }
    }
  }

  /** A node with its status set, and its task too unless that is to be kept. */
  function StatusSet(n: Node, status: Status, task: Option<Option<string>>): Node
  {
    n.(status := status, currentTask := if task.Some? then task.value else n.currentTask)
  }

  predicate Stale(n: Node, cutoff: int)
  {
    !n.status.Offline? && !n.isServer && n.lastHeartbeat.Some? && n.lastHeartbeat.value < cutoff
  }

  class Registry {
    var nodes: seq<Node>

    ghost predicate Valid()
      reads this
    {
      DistinctIds(nodes)
    }

    constructor ()
      ensures Valid() && nodes == []
    {
      nodes := [];
    }

    method ReadyNodes() returns (ready: seq<Node>)
      ensures ready == ReadyOf(nodes)
    {
      ready := [];
      for k := 0 to |nodes|
        invariant ready == ReadyOf(nodes[..k])
      {
        assert nodes[..k + 1][..k] == nodes[..k];
        if IsReady(nodes[k]) {
          ready := ready + [nodes[k]];
        }
      }
      assert nodes[..|nodes|] == nodes;
    }

    /** `set_status`: one node changes, if it is known. */
    method SetStatus(id: string, status: Status, task: Option<Option<string>>)
      requires Valid()
      modifies this
      ensures Valid() && |nodes| == |old(nodes)|
      ensures forall k :: 0 <= k < |nodes| ==>
                nodes[k] == if old(nodes)[k].id == id then StatusSet(old(nodes)[k], status, task) else old(nodes)[k]
      ensures forall k :: 0 <= k < |nodes| && old(nodes)[k].id == id ==>
                nodes[k] == old(nodes)[k].(status := status,
                                           currentTask := if task.None? then old(nodes)[k].currentTask else task.value)
    {
      for k := 0 to |nodes|
        invariant |nodes| == |old(nodes)|
        invariant forall j :: k <= j < |nodes| ==> nodes[j] == old(nodes)[j]
        invariant forall j :: 0 <= j < k ==>
                    nodes[j] == if old(nodes)[j].id == id then StatusSet(old(nodes)[j], status, task) else old(nodes)[j]
      {
        if nodes[k].id == id {
          nodes := nodes[k := StatusSet(nodes[k], status, task)];
        }
      }
    }

    /** `mark_offline_stale`: exactly the nodes not heard of since `cutoff` go offline,
        and with that out of the ready list; each is returned once, in roster order. */
    method MarkOfflineStale(cutoff: int, now: int, ages: map<string, int>) returns (lost: seq<string>)
      requires Valid()
      modifies this
      ensures Valid() && |nodes| == |old(nodes)|
      ensures forall k :: 0 <= k < |nodes| ==> nodes[k] == Kept(old(nodes)[k], cutoff, now, ages)
      ensures lost == StaleIds(old(nodes), cutoff)
      ensures forall k :: 0 <= k < |nodes| ==>
                var n := old(nodes)[k];
                nodes[k] ==
                if n.status != Offline && !n.isServer && n.lastHeartbeat.Some? && n.lastHeartbeat.value < cutoff then
                  n.(status := Offline, offlineSince := Some(now),
                     lastTaskSeconds := if n.currentTask.Some? && n.currentTask.value != ""
                                           && n.currentTask.value in ages then ages[n.currentTask.value] else 0)
                else n
      ensures forall n :: n in ReadyOf(nodes) ==> !Stale(n, cutoff)
    {
      lost := [];
      for k := 0 to |nodes|
        invariant |nodes| == |old(nodes)|
        invariant forall j :: k <= j < |nodes| ==> nodes[j] == old(nodes)[j]
        invariant forall j :: 0 <= j < k ==> nodes[j] == Kept(old(nodes)[j], cutoff, now, ages)
        invariant lost == StaleIds(old(nodes)[..k], cutoff)
      {
        assert old(nodes)[..k + 1][..k] == old(nodes)[..k];
        if Stale(nodes[k], cutoff) {
          lost := lost + [nodes[k].id];
          nodes := nodes[k := TakenOff(nodes[k], now, ages)];
        }
      }
      assert old(nodes)[..|nodes|] == old(nodes);
    }
  }

  /** A node that goes offline, with how long its current task had been running. */
  function TakenOff(n: Node, now: int, ages: map<string, int>): Node
  {
    var task := if n.currentTask.Some? then n.currentTask.value else "";
    n.(status := Offline, offlineSince := Some(now),
       lastTaskSeconds := if task != "" && task in ages then ages[task] else 0)
  }

  function Kept(n: Node, cutoff: int, now: int, ages: map<string, int>): Node
  {
    if Stale(n, cutoff) then TakenOff(n, now, ages) else n
  }

  function StaleIds(nodes: seq<Node>, cutoff: int): seq<string>
  {
    if nodes == [] then []
    else
      var last := nodes[|nodes| - 1];
      StaleIds(nodes[..|nodes| - 1], cutoff) + if Stale(last, cutoff) then [last.id] else []
  }
}
