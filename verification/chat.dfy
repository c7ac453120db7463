/**
 * The observer chat hub: an ordered list of subscribers, updated in place by
 * `Subscribe` and `Unsubscribe`, and a broadcast that announces a message and
 * then hands it to every subscriber in list order.
 */
module ChatHub {
  import opened Users
  import opened SubscriberList

  class Chat {
    var subscribers: seq<User>

    /** Object invariant: no subscriber is listed twice. */
    ghost predicate Valid()
      reads this
    {
      NoDuplicates(subscribers)
    }

    constructor ()
      ensures Valid() && subscribers == []
    {
      subscribers := [];
    }

    /** Linear search by identity: the first position of `o`, or -1. */
    method IndexOf(o: User) returns (k: int)
      ensures -1 <= k < |subscribers|
      ensures 0 <= k ==> subscribers[k] == o && o !in subscribers[..k]
      ensures k == -1 <==> o !in subscribers
      ensures k == if o in subscribers then FirstIndex(subscribers, o) else -1
    {
      k := 0;
      while k < |subscribers|
        invariant 0 <= k <= |subscribers|
        invariant o !in subscribers[..k]
      {
        if subscribers[k] == o {
          return;
        }
        assert subscribers[..k + 1] == subscribers[..k] + [subscribers[k]];
        k := k + 1;
      }
      assert subscribers[..k] == subscribers;
      k := -1;
    }

    /** Membership by identity. */
    method Contains(o: User) returns (found: bool)
      ensures found <==> o in subscribers
    {
      var k := IndexOf(o);
      found := k >= 0;
    }

    /** Adds `o` at the end unless it is already subscribed. */
    method Subscribe(o: User)
      requires Valid()
      modifies this
      ensures Valid()
      ensures subscribers == WithSubscriber(old(subscribers), o)
    {
      SubscribeKeepsNoDuplicates(subscribers, o);
      var present := Contains(o);
      if !present {
        subscribers := subscribers + [o];
      }
    }

    /** Removes `o` if it is subscribed; does nothing otherwise. */
    method Unsubscribe(o: User)
      requires Valid()
      modifies this
      ensures Valid()
      ensures subscribers == WithoutSubscriber(old(subscribers), o)
    {
      UnsubscribeKeepsNoDuplicates(subscribers, o);
      var present := Contains(o);
      if present {
        var k := IndexOf(o);
        UnsubscribeAt(subscribers, o, k);
        subscribers := subscribers[..k] + subscribers[k + 1..];
      } else {
        UnsubscribeAbsent(subscribers, o);
      }
    }

    /** Announces `message`, then delivers it to every current subscriber in
        list order. The subscriber list is left as it was, and on a valid chat
        every subscriber receives the message exactly once and nobody else
        receives it. */
    method SendMessage(message: string, console: Console)
      modifies console
      ensures subscribers == old(subscribers)
      ensures console.output == old(console.output) + Broadcast(subscribers, message)
      ensures Valid() ==> EachReceivesOnce(console.output[|old(console.output)|..], subscribers, message)
    {
      console.output := console.output + [Announced(message)];
      NotifySubscribers(message, console);
      assert console.output[|old(console.output)|..] == Broadcast(subscribers, message);
      if Valid() {
        BroadcastReachesEachOnce(subscribers, message);
      }
    }

    /** Calls `Update` on each subscriber, first to last. */
    method NotifySubscribers(message: string, console: Console)
      modifies console
      ensures console.output == old(console.output) + Deliveries(subscribers, message)
    {
      for i := 0 to |subscribers|
        invariant console.output == old(console.output) + Deliveries(subscribers[..i], message)
      {
        assert subscribers[..i + 1] == subscribers[..i] + [subscribers[i]];
        DeliveriesAppend(subscribers[..i], [subscribers[i]], message);
        subscribers[i].Update(message, console);
      }
      assert subscribers[..|subscribers|] == subscribers;
    }
  }
}
