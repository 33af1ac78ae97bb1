/** The publish/subscribe base: an `Observable` keeps an ordered list of
    observers and fans every delta out to each of them, in list order. */
module PubSub {
  import opened Deltas
  import opened Errors
  import opened PyLists

  /** The subscriber side of a node: its single upstream link (`receiving_from`).
      Every consumer class of the engine holds one of these as its identity. */
  class Subscriber<T> {
    var receivingFrom: Observable?<T>

    constructor ()
      ensures receivingFrom == null
    {
      receivingFrom := null;
    }
  }

  /** One hook call made by a publisher: `target.on_*(...)` with the delta's arguments. */
  datatype Notification<T> = Notification(target: Subscriber<T>, delta: Delta<T>)

  /** The observable state of a publisher: its observers, every delta it has
      published, and every hook call it has made. */
  datatype PubState<T> = PubState(observers: seq<Subscriber<T>>, emitted: seq<Delta<T>>, delivered: seq<Notification<T>>)

  /** The hook calls one publish makes: one per entry of the observer list, in list order. */
  function Fanout<T>(observers: seq<Subscriber<T>>, d: Delta<T>): (r: seq<Notification<T>>)
    ensures |r| == |observers|
    ensures forall i | 0 <= i < |r| :: r[i].target == observers[i] && r[i].delta == d
  {
    if observers == [] then [] else [Notification(observers[0], d)] + Fanout(observers[1..], d)
  }

  lemma FanoutSnoc<T>(observers: seq<Subscriber<T>>, o: Subscriber<T>, d: Delta<T>)
    ensures Fanout(observers + [o], d) == Fanout(observers, d) + [Notification(o, d)]
  {
    var l, r := Fanout(observers + [o], d), Fanout(observers, d) + [Notification(o, d)];
    assert |l| == |r|;
    forall i | 0 <= i < |l| ensures l[i] == r[i] {
      if i < |observers| {
        assert (observers + [o])[i] == observers[i];
      }
    }
  }

  /** One more observer of the list notified: `FanoutSnoc` on list prefixes. */
  lemma FanoutPrefix<T>(observers: seq<Subscriber<T>>, i: nat, d: Delta<T>)
    requires i < |observers|
    ensures Fanout(observers[..i + 1], d) == Fanout(observers[..i], d) + [Notification(observers[i], d)]
  {
    FanoutSnoc(observers[..i], observers[i], d);
    assert observers[..i + 1] == observers[..i] + [observers[i]];
  }

  /** The publisher's state after one publish of `d`. */
  function Published<T>(s: PubState<T>, d: Delta<T>): PubState<T>
  {
    s.(emitted := s.emitted + [d], delivered := s.delivered + Fanout(s.observers, d))
  }

  /** The publisher's state after publishing each of `ds`, in order. */
  function PublishedAll<T>(s: PubState<T>, ds: seq<Delta<T>>): (r: PubState<T>)
    ensures r.observers == s.observers
    ensures r.emitted == s.emitted + ds
    ensures |r.delivered| == |s.delivered| + |ds| * |s.observers|
    ensures r.delivered[..|s.delivered|] == s.delivered
    decreases |ds|
  {
    if ds == [] then s
    else
      var prev := PublishedAll(s, ds[..|ds| - 1]);
      assert ds[..|ds| - 1] + [ds[|ds| - 1]] == ds;
      Published(prev, ds[|ds| - 1])
  }

  lemma PublishedAllSnoc<T>(s: PubState<T>, ds: seq<Delta<T>>, d: Delta<T>)
    ensures PublishedAll(s, ds + [d]) == Published(PublishedAll(s, ds), d)
  {
    assert (ds + [d])[..|ds + [d]| - 1] == ds;
  }

  /** A publisher (`Observable`): an ordered observer list and the fan-out of each publish. */
  class Observable<T> {
    var observers: seq<Subscriber<T>>
    var emitted: seq<Delta<T>>
    var delivered: seq<Notification<T>>

    ghost function State(): PubState<T>
      reads this
    {
      PubState(observers, emitted, delivered)
    }

    /** A new publisher has no observers and has published nothing. */
    constructor ()
      ensures observers == [] && emitted == [] && delivered == []
    {
      observers, emitted, delivered := [], [], [];
    }

    /** Appends `o` as the last observer and points its upstream link here. */
    method Subscribe(o: Subscriber<T>)
      modifies this`observers, o`receivingFrom
      ensures observers == old(observers) + [o]
      ensures o.receivingFrom == this
    {
      observers := observers + [o];
      o.receivingFrom := this;
    }

    /** Removes the first occurrence of `o`; fails, changing nothing, when `o` is not subscribed. */
    method Unsubscribe(o: Subscriber<T>) returns (r: Outcome)
      modifies this`observers
      ensures o in old(observers) ==> r == Pass && |observers| == |old(observers)| - 1
      ensures o in old(observers) ==> observers == RemoveFirst(old(observers), o)
      ensures o !in old(observers) ==> r == Fail(NotFound) && observers == old(observers)
    {
      if o in observers {
        observers := RemoveFirst(observers, o);
        r := Pass;
      } else {
        r := Fail(NotFound);
      }
    }

    /** Calls the hook for `d` on every observer exactly once, in list order. */
    method Publish(d: Delta<T>)
      modifies this`emitted, this`delivered
      ensures State() == Published(old(State()), d)
    {
      var obs, calls, sent := observers, delivered, emitted;
      var i := 0;
      while i < |obs|
        invariant i <= |obs|
        invariant calls == old(delivered) + Fanout(obs[..i], d)
      {
        FanoutPrefix(obs, i, d);
        calls := calls + [Notification(obs[i], d)];
        i := i + 1;
      }
      assert obs[..i] == obs;
      delivered, emitted := calls, sent + [d];
    }

    /** `publish_add`: every observer's `on_add(x)`, in list order. */
    method PublishAdd(x: T)
      modifies this`emitted, this`delivered
      ensures State() == Published(old(State()), Add(x))
    {
      Publish(Add(x));
    }

    /** `publish_remove`: every observer's `on_remove(x)`, in list order. */
    method PublishRemove(x: T)
      modifies this`emitted, this`delivered
      ensures State() == Published(old(State()), Remove(x))
    {
      Publish(Remove(x));
    }

    /** `publish_update`: every observer's `on_update(x, y)`, arguments unchanged, in list order. */
    method PublishUpdate(x: T, y: T)
      modifies this`emitted, this`delivered
      ensures State() == Published(old(State()), Update(x, y))
    {
      Publish(Update(x, y));
    }
  }
}
