/** Fan-out of server events through bounded queues, one per subscriber. */
module Broadcast {

  const QUEUE_CAP: nat := 256

  datatype Message<P> = Message(event: string, payload: P)

  /** Events that are skipped rather than make room for themselves. */
  predicate Droppable(event: string)
  {
    event == "stats.tick" || event == "workspace.presence"
  }

  /** A subscriber's queue after a message is published to it: a full queue skips a
      droppable message, and loses its oldest message to any other. */
  function Enqueued<P>(q: seq<Message<P>>, msg: Message<P>): (r: seq<Message<P>>)
    ensures |q| <= QUEUE_CAP ==> |r| <= QUEUE_CAP
    ensures !Droppable(msg.event) && |q| <= QUEUE_CAP ==> |r| > 0 && r[|r| - 1] == msg
  {
    if |q| < QUEUE_CAP then q + [msg]
    else if Droppable(msg.event) then q
    else if q == [] then [msg]
    else q[1..] + [msg]
  }

  /** Every subscriber of `topic` gets the message, and nobody else's queue moves. */
  function FanOut<P>(subscribers: map<nat, seq<Message<P>>>, topics: map<nat, string>,
                     topic: string, msg: Message<P>): map<nat, seq<Message<P>>>
    requires subscribers.Keys == topics.Keys
  {
    map k | k in subscribers ::
      if topics[k] == topic then Enqueued(subscribers[k], msg) else subscribers[k]
  }

  class EventBroadcaster<P> {
    var subscribers: map<nat, seq<Message<P>>>
    var topics: map<nat, string>
    var issued: nat  // keys handed out so far, each a fresh identity

    ghost predicate Valid()
      reads this
    {
      && subscribers.Keys == topics.Keys
      && (forall k :: k in subscribers ==> k < issued && |subscribers[k]| <= QUEUE_CAP)
    }

    constructor ()
      ensures Valid() && subscribers == map[] && topics == map[]
    {
      subscribers, topics, issued := map[], map[], 0;
    }

    method Subscribe(topic: string) returns (key: nat)
      requires Valid()
      modifies this
      ensures Valid() && key !in old(subscribers)
      ensures subscribers == old(subscribers)[key := []] && topics == old(topics)[key := topic]
    {
      key := issued;
      issued := issued + 1;
      subscribers := subscribers[key := []];
      topics := topics[key := topic];
    }

    method Unsubscribe(key: nat)
      requires Valid()
      modifies this
      ensures Valid()
      ensures subscribers == old(subscribers) - {key} && topics == old(topics) - {key}
    {
      subscribers := subscribers - {key};
      topics := topics - {key};
    }

    method Publish(event: string, payload: P, topic: string)
      requires Valid()
      modifies this`subscribers
      ensures Valid()
      ensures subscribers == FanOut(old(subscribers), topics, topic, Message(event, payload))
      ensures forall k :: k in subscribers ==>
                subscribers[k] ==
                var q := old(subscribers)[k];
                if topics[k] != topic then q
                else if |q| < 256 then q + [Message(event, payload)]
                else if event in ["stats.tick", "workspace.presence"] then q
                else q[1..] + [Message(event, payload)]
    {
      var msg := Message(event, payload);
      var todo := subscribers.Keys;
      while todo != {}
        invariant todo <= subscribers.Keys == old(subscribers).Keys == topics.Keys
        invariant forall k :: k in todo ==> subscribers[k] == old(subscribers)[k]
        invariant forall k :: k in subscribers && k !in todo ==>
                    subscribers[k] == if topics[k] == topic then Enqueued(old(subscribers)[k], msg)
                                      else old(subscribers)[k]
      {
        var key :| key in todo;
        todo := todo - {key};
        if topics[key] != topic { continue; }
        var q := subscribers[key];
        if |q| >= QUEUE_CAP {
          if Droppable(event) { continue; }
          if q != [] {
            q := q[1..];
          }
        }
        if |q| < QUEUE_CAP {
          subscribers := subscribers[key := q + [msg]];
        }
      }
    }
  }
}
