/**
 * Subscribers and the registry that holds them. A subscriber owns a buffered
 * channel of capacity one; the consumer side that drains it, and the code of
 * the registry itself, are not part of this model: the registry is described
 * by the contract the cache relies on.
 */
module Subscriptions {
  import opened Selectors
  import opened CacheTypes

  /** The buffer size of every subscriber channel. */
  const ChannelCapacity: nat := 1

  class Subscriber {
    /** The selectors this subscriber was created with. */
    const sel: seq<Selector>
    /** Cleared by the consumer when it is no longer interested. */
    var active: bool
    /** The updates waiting in the subscriber's channel, oldest first. */
    var c: seq<WorkloadUpdate>
    /**
     * The last update sent to this subscriber, whether or not it has been
     * received yet: the view of the cache the consumer ends up holding.
     */
    ghost var view: Option<WorkloadUpdate>

    /**
     * A channel never holds more than its capacity, and an update still
     * waiting in it is the last one sent.
     */
    ghost predicate Valid()
      reads this
    {
      && |c| <= ChannelCapacity
      && (c != [] ==> view == Some(c[|c| - 1]))
    }

    constructor (sel: seq<Selector>)
      ensures Valid()
      ensures this.sel == sel && active && c == [] && view == None
    {
      this.sel := sel;
      active := true;
      c := [];
      view := None;
    }

    /** The consumer's signal that it is done; the cache sees it lazily. */
    method Finish()
      modifies this
      ensures !active && c == old(c) && view == old(view)
    {
      active := false;
    }

    /**
     * Closes the channel and replaces it by a fresh, empty one: whatever was
     * still buffered is dropped and never received.
     */
    method ReplaceChannel()
      modifies this
      ensures c == [] && active == old(active) && view == old(view)
    {
      c := [];
    }

    /** A send on the buffered channel; it can only complete without blocking when a slot is free. */
    method Send(u: WorkloadUpdate)
      requires |c| < ChannelCapacity
      modifies this
      ensures Valid()
      ensures c == old(c) + [u] && view == Some(u) && active == old(active)
    {
      c := c + [u];
      view := Some(u);
    }

    /** The consumer's receive: takes the oldest pending update off the channel. */
    method Receive() returns (u: WorkloadUpdate)
      requires Valid() && c != []
      modifies this
      ensures Valid()
      ensures u == old(c)[0] && c == old(c)[1..] && active == old(active) && view == old(view)
    {
      u := c[0];
      c := c[1..];
    }
  }

  /** The registry of subscribers the cache notifies. */
  class Subscribers {
    var members: set<Subscriber>

    constructor ()
      ensures members == {}
    {
      members := {};
    }

    method Add(s: Subscriber)
      modifies this
      ensures members == old(members) + {s}
    {
      members := members + {s};
    }

    /** Removing an absent subscriber does nothing. */
    method Remove(s: Subscriber)
      modifies this
      ensures members == old(members) - {s}
    {
      members := members - {s};
    }

    /** Every registered subscriber, each once, in no particular order. */
    method GetAll() returns (subs: seq<Subscriber>)
      ensures forall s :: s in subs <==> s in members
      ensures forall i, j :: 0 <= i < j < |subs| ==> subs[i] != subs[j]
    {
      subs := [];
      var rest := members;
      while rest != {}
        invariant rest <= members
        invariant forall s :: s in subs <==> s in members && s !in rest
        invariant forall i, j :: 0 <= i < j < |subs| ==> subs[i] != subs[j]
        decreases rest
      {
        var s :| s in rest;
        subs := subs + [s];
        rest := rest - {s};
      }
    }

    /**
     * The registered subscribers interested in an entry with selectors `sels`:
     * those whose own selectors include them. Each is listed once.
     */
    method Get(sels: seq<Selector>) returns (subs: seq<Subscriber>)
      ensures forall s :: s in subs <==> s in members && Includes(s.sel, sels)
      ensures forall i, j :: 0 <= i < j < |subs| ==> subs[i] != subs[j]
    {
      subs := [];
      var rest := members;
      while rest != {}
        invariant rest <= members
        invariant forall s :: s in subs <==> s in members && s !in rest && Includes(s.sel, sels)
        invariant forall i, j :: 0 <= i < j < |subs| ==> subs[i] != subs[j]
        decreases rest
      {
        var s :| s in rest;
        if Includes(s.sel, sels) {
          subs := subs + [s];
        }
        rest := rest - {s};
      }
    }
  }
}
