/** The server's entry point for patches: apply in memory, then tell the viewers. */
module LiveServer {
  import opened LineOps
  import opened Broadcast
  import opened LiveWorkspace
  import opened Replica

  class SchedulerServer {
    const workspaceId: string
    const live: Workspace
    const events: EventBroadcaster<Payload>

    constructor (id: string, live: Workspace, events: EventBroadcaster<Payload>)
      ensures workspaceId == id && this.live == live && this.events == events
    {
      workspaceId := id;
      this.live := live;
      this.events := events;
    }

    function Topic(): string
    {
      "workspace:" + workspaceId
    }

    /** A refused patch is published to nobody. An accepted one is in every viewer's
        queue when the call returns, as `Replica.Act` has it; the other queues only
        get the notice, if they listen to everything. */
    method ApplyWorkspacePatch(path: string, base: int, ops: seq<Op>, actor: string) returns (r: Reply)
      requires live.Valid() && events.Valid()
      modifies live, live.Objects(), events`subscribers
      ensures live.Valid() && events.Valid()
      ensures (live.Value(), r) == Step(old(live.Value()), Patch(path, base, ops, actor))
      ensures !r.Accepted? ==> events.subscribers == old(events.subscribers)
      ensures r.Accepted? ==>
                var delta := Message("workspace.delta", Patched(DeltaOf(r)));
                var notice := Message("workspace.patched", Notice(path, r.seqno, actor));
                && events.subscribers.Keys == old(events.subscribers).Keys
                && forall k :: k in events.subscribers ==>
                     events.subscribers[k] ==
                     if events.topics[k] == Topic() then Enqueued(old(events.subscribers)[k], delta)
                     else if events.topics[k] == "" then Enqueued(old(events.subscribers)[k], notice)
                     else old(events.subscribers)[k]
    {
      r := live.ApplyPatch(path, base, ops, actor);
      if !r.Accepted? { return; }
      events.Publish("workspace.delta", Patched(DeltaOf(r)), Topic());
      events.Publish("workspace.patched", Notice(path, r.seqno, actor), "");
      assert Topic()[0] == 'w';
    }
  }
}
