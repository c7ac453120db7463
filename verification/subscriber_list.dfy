/**
 * The chat's subscriber list as a value: what `Subscribe`, `Unsubscribe` and a
 * broadcast do to it and with it, and the properties they keep. Subscribers
 * are compared by identity (object reference), as the list's `Contains` and
 * `Remove` do for a class without its own equality.
 */
module SubscriberList {
  import opened Users

  /** No subscriber occurs twice. */
  predicate NoDuplicates(subs: seq<User>)
  {
    forall i, j :: 0 <= i < j < |subs| ==> subs[i] != subs[j]
  }

  /** The list after subscribing `o`: appended only when not already there. */
  function WithSubscriber(subs: seq<User>, o: User): (r: seq<User>)
  {
    if o in subs then subs else subs + [o]
  }

  /** The list after unsubscribing `o`: its first occurrence removed, and the
      list untouched when `o` is absent. */
  function WithoutSubscriber(subs: seq<User>, o: User): (r: seq<User>)
  {
    if subs == [] then []
    else if subs[0] == o then subs[1..]
    else [subs[0]] + WithoutSubscriber(subs[1..], o)
  }

  /** The receipt lines of one broadcast of `m`, one per subscriber, head first. */
  function Deliveries(subs: seq<User>, m: string): (events: seq<Event>)
  {
    if subs == [] then [] else [Received(subs[0], m)] + Deliveries(subs[1..], m)
  }

  /** Everything one broadcast of `m` writes: the announcement, then the receipts. */
  function Broadcast(subs: seq<User>, m: string): (events: seq<Event>)
  {
    [Announced(m)] + Deliveries(subs, m)
  }

  /** In `events`, every user of `subs` has exactly one receipt of `m`, and
      no other user has any. */
  ghost predicate EachReceivesOnce(events: seq<Event>, subs: seq<User>, m: string)
  {
    && (forall o | o in subs :: multiset(events)[Received(o, m)] == 1)
    && (forall e | e in events && e.Received? && e.message == m :: e.recipient in subs)
  }

  /** A membership change applied to the chat. */
  datatype Op = SubscribeOp(observer: User) | UnsubscribeOp(observer: User)

  function Apply(subs: seq<User>, op: Op): (r: seq<User>)
  {
    match op
    case SubscribeOp(o) => WithSubscriber(subs, o)
    case UnsubscribeOp(o) => WithoutSubscriber(subs, o)
  }

  /** The list after a whole sequence of membership changes, in order. */
  function Replay(subs: seq<User>, ops: seq<Op>): (r: seq<User>)
    decreases ops
  {
    if ops == [] then subs else Replay(Apply(subs, ops[0]), ops[1..])
  }

  // ---------------------------------------------------------------- Subscribe

  /** Subscribing a present user leaves the list exactly as it was, so
      subscribing twice is the same as subscribing once. */
  lemma SubscribeIdempotent(subs: seq<User>, o: User)
    ensures o in subs ==> WithSubscriber(subs, o) == subs
    ensures WithSubscriber(WithSubscriber(subs, o), o) == WithSubscriber(subs, o)
  {
  }

  /** Subscribing an absent user puts it at the end; everyone before keeps
      their position. */
  lemma SubscribeAppends(subs: seq<User>, o: User)
    requires o !in subs
    ensures |WithSubscriber(subs, o)| == |subs| + 1
    ensures WithSubscriber(subs, o)[..|subs|] == subs
    ensures WithSubscriber(subs, o)[|subs|] == o
  {
  }

  /** Subscribing keeps the list free of duplicates, and the user is a
      member afterwards. */
  lemma SubscribeKeepsNoDuplicates(subs: seq<User>, o: User)
    requires NoDuplicates(subs)
    ensures NoDuplicates(WithSubscriber(subs, o))
    ensures o in WithSubscriber(subs, o)
  {
  }

  // -------------------------------------------------------------- Unsubscribe

  /** Unsubscribing an absent user changes nothing. */
  lemma {:induction false} UnsubscribeAbsent(subs: seq<User>, o: User)
    requires o !in subs
    ensures WithoutSubscriber(subs, o) == subs
  {
    if subs != [] {
      UnsubscribeAbsent(subs[1..], o);
    }
  }

  /** Unsubscribing a user whose first occurrence is at `k` cuts out exactly
      that position: the others keep their relative order. */
  lemma {:induction false} UnsubscribeAt(subs: seq<User>, o: User, k: nat)
    requires k < |subs| && subs[k] == o && o !in subs[..k]
    ensures WithoutSubscriber(subs, o) == subs[..k] + subs[k + 1..]
  {
    if k > 0 {
      assert subs[0] == subs[..k][0];
      assert subs[1..][..k - 1] == subs[1..k];
      UnsubscribeAt(subs[1..], o, k - 1);
      assert subs[..k] == [subs[0]] + subs[1..k];
    }
  }

  /** Unsubscribing a present user shortens the list by one, by removing that
      user at one position and keeping everyone else in order. */
  lemma UnsubscribePresent(subs: seq<User>, o: User)
    requires o in subs
    ensures |WithoutSubscriber(subs, o)| == |subs| - 1
    ensures exists k :: 0 <= k < |subs| && subs[k] == o
                        && WithoutSubscriber(subs, o) == subs[..k] + subs[k + 1..]
  {
    var k := FirstIndex(subs, o);
    UnsubscribeAt(subs, o, k);
  }

  /** Position of the first occurrence of a present user. */
  function FirstIndex(subs: seq<User>, o: User): (k: nat)
    requires o in subs
    ensures k < |subs| && subs[k] == o && o !in subs[..k]
  {
    if subs[0] == o then 0
    else
      var k := 1 + FirstIndex(subs[1..], o);
      assert subs[..k] == [subs[0]] + subs[1..][..k - 1];
      k
  }

  /** On a duplicate-free list, unsubscribing removes the user entirely, keeps
      everyone else, and leaves the list duplicate-free. */
  lemma {:induction false} UnsubscribeKeepsNoDuplicates(subs: seq<User>, o: User)
    requires NoDuplicates(subs)
    ensures NoDuplicates(WithoutSubscriber(subs, o))
    ensures o !in WithoutSubscriber(subs, o)
    ensures forall x :: x in WithoutSubscriber(subs, o) <==> x in subs && x != o
  {
    if subs != [] {
      var rest := subs[1..];
      assert NoDuplicates(rest) by {
        forall i, j | 0 <= i < j < |rest| ensures rest[i] != rest[j] {
          assert rest[i] == subs[i + 1] && rest[j] == subs[j + 1];
        }
      }
      assert subs[0] !in rest by {
        forall j | 0 <= j < |rest| ensures rest[j] != subs[0] {
          assert rest[j] == subs[j + 1];
        }
      }
      assert subs == [subs[0]] + rest;
      if subs[0] != o {
        UnsubscribeKeepsNoDuplicates(rest, o);
        var r := WithoutSubscriber(rest, o);
        assert WithoutSubscriber(subs, o) == [subs[0]] + r;
        assert subs[0] !in r;
        forall i, j | 0 <= i < j < |[subs[0]] + r|
          ensures ([subs[0]] + r)[i] != ([subs[0]] + r)[j]
        {
          if i > 0 {
            assert ([subs[0]] + r)[i] == r[i - 1];
          }
          assert ([subs[0]] + r)[j] == r[j - 1];
        }
      }
    }
  }

  /** Replaying any sequence of subscribes and unsubscribes on a duplicate-free
      list (in particular on the empty list of a new chat) leaves it
      duplicate-free. */
  lemma {:induction false} ReplayKeepsNoDuplicates(subs: seq<User>, ops: seq<Op>)
    requires NoDuplicates(subs)
    ensures NoDuplicates(Replay(subs, ops))
    decreases ops
  {
    if ops != [] {
      match ops[0] {
        case SubscribeOp(o) => SubscribeKeepsNoDuplicates(subs, o);
        case UnsubscribeOp(o) => UnsubscribeKeepsNoDuplicates(subs, o);
      }
      ReplayKeepsNoDuplicates(Apply(subs, ops[0]), ops[1..]);
    }
  }

  // ---------------------------------------------------------------- Broadcast

  /** A broadcast writes exactly one receipt per subscriber, the i-th going to
      the i-th subscriber, so delivery follows list order. */
  lemma {:induction false} DeliveriesInOrder(subs: seq<User>, m: string)
    ensures |Deliveries(subs, m)| == |subs|
    ensures forall i :: 0 <= i < |subs| ==> Deliveries(subs, m)[i] == Received(subs[i], m)
  {
    if subs != [] {
      DeliveriesInOrder(subs[1..], m);
    }
  }

  /** The receipts for a concatenated list are those for each part, in turn. */
  lemma {:induction false} DeliveriesAppend(s: seq<User>, t: seq<User>, m: string)
    ensures Deliveries(s + t, m) == Deliveries(s, m) + Deliveries(t, m)
  {
    if s == [] {
      assert s + t == t;
    } else {
      assert (s + t)[1..] == s[1..] + t;
      DeliveriesAppend(s[1..], t, m);
    }
  }

  /** On a duplicate-free list each subscriber gets the message exactly once,
      and a user who is not subscribed gets nothing. */
  lemma {:induction false} DeliveredExactlyOnce(subs: seq<User>, m: string, o: User)
    requires NoDuplicates(subs)
    ensures multiset(Deliveries(subs, m))[Received(o, m)] == if o in subs then 1 else 0
  {
    if subs != [] {
      var rest := subs[1..];
      assert NoDuplicates(rest) by {
        forall i, j | 0 <= i < j < |rest| ensures rest[i] != rest[j] {
          assert rest[i] == subs[i + 1] && rest[j] == subs[j + 1];
        }
      }
      assert subs[0] !in rest by {
        forall j | 0 <= j < |rest| ensures rest[j] != subs[0] {
          assert rest[j] == subs[j + 1];
        }
      }
      assert subs == [subs[0]] + rest;
      DeliveredExactlyOnce(rest, m, o);
      assert multiset(Deliveries(subs, m))
          == multiset{Received(subs[0], m)} + multiset(Deliveries(rest, m));
    }
  }

  /** A whole broadcast of `m` to a duplicate-free list reaches each
      subscriber exactly once and nobody else. */
  lemma BroadcastReachesEachOnce(subs: seq<User>, m: string)
    requires NoDuplicates(subs)
    ensures EachReceivesOnce(Broadcast(subs, m), subs, m)
  {
    var events := Broadcast(subs, m);
    assert multiset(events) == multiset{Announced(m)} + multiset(Deliveries(subs, m));
    forall o | o in subs ensures multiset(events)[Received(o, m)] == 1 {
      DeliveredExactlyOnce(subs, m, o);
    }
    forall e | e in events && e.Received? && e.message == m
      ensures e.recipient in subs
    {
      DeliveredExactlyOnce(subs, m, e.recipient);
      assert e == Received(e.recipient, m);
    }
  }
}
