/**
 * The agent's in-memory identity cache: entries keyed by registration entry
 * id, one trust bundle, and a registry of subscribers that are pushed a
 * filtered snapshot whenever something they can see changes. The locks of
 * the original are left out; every method is one atomic step.
 */
module AgentCache {
  import opened Selectors
  import opened CacheTypes
  import opened Visibility
  import opened Subscriptions

  /** The subscribers of `members` that can see an entry with selectors `sels`. */
  function Interested(members: set<Subscriber>, sels: seq<Selector>): (r: set<Subscriber>)
    ensures r <= members
  {
    set s | s in members && Includes(s.sel, sels)
  }

  /**
   * Who must hear about storing `entry` into `m`: the subscribers that can
   * see the new entry and those that could see the entry it replaces.
   */
  function StoreTargets(members: set<Subscriber>, m: map<string, Entry>, entry: Entry): set<Subscriber>
  {
    Interested(members, entry.Selectors())
      + (if entry.Id() in m then Interested(members, m[entry.Id()].Selectors()) else {})
  }

  /**
   * The entries of `entries` the subscriber may see, in their original order:
   * exactly those whose selectors its own selectors include.
   */
  method SubscriberEntries(sub: Subscriber, entries: seq<Entry>) returns (subentries: seq<Entry>)
    ensures subentries == VisibleEntries(sub.sel, entries)
    ensures forall e :: e in subentries <==> e in entries && Includes(sub.sel, e.Selectors())
  {
    subentries := [];
    for i := 0 to |entries|
      invariant subentries == VisibleEntries(sub.sel, entries[..i])
    {
      var e := entries[i];
      if Includes(sub.sel, e.Selectors()) {
        subentries := subentries + [e];
      }
      assert entries[..i + 1][..i] == entries[..i];
    }
    assert entries[..|entries|] == entries;
    forall e ensures e in subentries <==> e in entries && Includes(sub.sel, e.Selectors()) {
      VisibleIff(sub.sel, entries, e);
    }
  }

  /**
   * Sends `sub` the entries it can see together with `bundle`, first
   * dropping whatever update is still waiting in its channel: afterwards the
   * channel holds that update alone.
   */
  method Deliver(sub: Subscriber, entries: seq<Entry>, bundle: seq<Certificate>)
    modifies sub
    ensures sub.Valid() && sub.active == old(sub.active)
    ensures var u := WorkloadUpdate(VisibleEntries(sub.sel, entries), bundle); sub.c == [u] && sub.view == Some(u)
  {
    if |sub.c| > 0 {
      sub.ReplaceChannel();
    }
    var subEntries := SubscriberEntries(sub, entries);
    sub.Send(WorkloadUpdate(subEntries, bundle));
  }

  /**
   * The loop of a notification pass: each subscriber of `subs` that is still
   * active is sent the entries it can see and `bundle`; each inactive one is
   * removed from `registry` instead.
   */
  method DeliverAll(registry: Subscribers, subs: seq<Subscriber>, ghost targets: set<Subscriber>,
                    entries: seq<Entry>, bundle: seq<Certificate>)
    requires forall s :: s in subs <==> s in targets
    modifies registry, targets
    ensures registry.members <= old(registry.members)
    ensures forall s :: s in old(registry.members) ==>
      (s in registry.members <==> (s in targets ==> old(s.active)))
    ensures forall s :: s in targets ==> s.active == old(s.active)
    ensures forall s :: s in targets && s.active ==>
      var u := WorkloadUpdate(VisibleEntries(s.sel, entries), bundle); s.c == [u] && s.view == Some(u)
    ensures forall s :: s in targets && !s.active ==> s.c == old(s.c) && s.view == old(s.view)
  {
    ghost var done: set<Subscriber> := {};
    for i := 0 to |subs|
      invariant done <= targets
      invariant forall j :: 0 <= j < i ==> subs[j] in done
      invariant registry.members <= old(registry.members)
      invariant forall s :: s in old(registry.members) ==>
        (s in registry.members <==> (s in done ==> old(s.active)))
      invariant forall s :: s in targets ==> s.active == old(s.active)
      invariant forall s :: s in done && s.active ==>
        var u := WorkloadUpdate(VisibleEntries(s.sel, entries), bundle); s.c == [u] && s.view == Some(u)
      invariant forall s :: s in targets && !(s in done && s.active) ==> s.c == old(s.c) && s.view == old(s.view)
    {
      var sub := subs[i];
      done := done + {sub};
      if !sub.active {
        registry.Remove(sub);
        continue;
      }
      Deliver(sub, entries, bundle);
    }
    assert done == targets;
  }

  class Cache {
    /** The entries, keyed by their registration entry id. */
    var cache: map<string, Entry>
    /** The trust bundle: the root certificates currently trusted. */
    var bundle: seq<Certificate>
    const subscribers: Subscribers

    /** Entries sit under their own ids and no registered channel is over capacity. */
    ghost predicate Valid()
      reads this, subscribers, subscribers.members
    {
      && WellKeyed(cache)
      && forall s :: s in subscribers.members ==> s.Valid()
    }

    /**
     * The last update sent to `s`, if any, shows the current bundle and
     * exactly the stored entries `s` can see. By `Subscriber.Valid`, an
     * update still waiting in the channel is that last one.
     */
    ghost predicate Current(s: Subscriber)
      reads this, s
    {
      s.view.Some? ==> s.view.value.bundle == bundle && Shows(s.view.value.entries, s.sel, cache)
    }

    /**
     * No registered, active subscriber is left holding a view the cache has
     * moved past, whether it has received that view already or not.
     */
    ghost predicate UpToDate()
      reads this, subscribers, subscribers.members
    {
      forall s :: s in subscribers.members && s.active ==> Current(s)
    }

    /**
     * The outcome of one notification pass over `targets`, with `registered`
     * the registry before the pass: inactive targets are dropped from the
     * registry and sent nothing; every active target holds exactly one
     * pending update, built from `snapshot` (a snapshot of the current
     * entries) and the current bundle, whatever it held before; no other
     * registered subscriber is touched.
     */
    twostate predicate Notified(registered: set<Subscriber>, targets: set<Subscriber>, snapshot: seq<Entry>)
      reads this, subscribers, registered, targets
    {
      && subscribers.members <= registered
      && (forall s :: s in registered ==> (s in subscribers.members <==> (s in targets ==> old(s.active))))
      && (forall s :: s in targets ==> s.active == old(s.active))
      && (forall s :: s in targets && s.active ==>
            var u := WorkloadUpdate(VisibleEntries(s.sel, snapshot), bundle); s.c == [u] && s.view == Some(u))
      && (forall s :: s in targets && !s.active ==> s.c == old(s.c) && s.view == old(s.view))
      && (forall s :: s in registered && s !in targets ==>
            s.active == old(s.active) && s.c == old(s.c) && s.view == old(s.view))
      && (targets != {} ==> IsSnapshot(snapshot, cache))
    }

    constructor New(bundle: seq<Certificate>)
      ensures Valid() && UpToDate() && fresh(subscribers)
      ensures cache == map[] && this.bundle == bundle && subscribers.members == {}
    {
      cache := map[];
      this.bundle := bundle;
      subscribers := new Subscribers();
    }

    /** Replaces the trust bundle and notifies every registered subscriber. */
    method SetBundle(bundle: seq<Certificate>) returns (ghost snapshot: seq<Entry>)
      requires Valid()
      modifies this, subscribers, subscribers.members
      ensures Valid()
      ensures this.bundle == bundle && cache == old(cache)
      ensures Notified(old(subscribers.members), old(subscribers.members), snapshot)
      ensures UpToDate()
    {
      this.bundle := bundle;
      var subs := subscribers.GetAll();
      snapshot := NotifySubscribers(subs, subscribers.members);
    }

    /** A copy of the current trust bundle. */
    method Bundle() returns (result: seq<Certificate>)
      ensures result == bundle
    {
      result := bundle;
    }

    /** Every stored entry exactly once, in an unspecified order. */
    method Entries() returns (entries: seq<Entry>)
      requires WellKeyed(cache)
      ensures IsSnapshot(entries, cache)
      ensures |entries| == |cache|
    {
      entries := [];
      var keys := cache.Keys;
      while keys != {}
        invariant keys <= cache.Keys
        invariant |entries| + |keys| == |cache|
        invariant forall i :: 0 <= i < |entries| ==>
          entries[i].Id() in cache && cache[entries[i].Id()] == entries[i] && entries[i].Id() !in keys
        invariant DistinctIds(entries)
        invariant forall id :: id in cache && id !in keys ==> exists i :: 0 <= i < |entries| && entries[i].Id() == id
        decreases keys
      {
        var id :| id in keys;
        ghost var before := entries;
        entries := entries + [cache[id]];
        keys := keys - {id};
        forall id' | id' in cache && id' !in keys
          ensures exists i :: 0 <= i < |entries| && entries[i].Id() == id'
        {
          if id' == id {
            assert entries[|entries| - 1].Id() == id;
          } else {
            var i :| 0 <= i < |before| && before[i].Id() == id';
            assert entries[i] == before[i];
          }
        }
      }
    }

    /** Registers the subscriber and pushes it the current state right away. */
    method Subscribe(sub: Subscriber) returns (ghost snapshot: seq<Entry>)
      requires Valid() && sub.Valid()
      modifies subscribers, sub
      ensures Valid()
      ensures subscribers.members == if sub.active then old(subscribers.members) + {sub}
                                     else old(subscribers.members) - {sub}
      ensures sub.active == old(sub.active)
      ensures sub.active ==>
        var u := WorkloadUpdate(VisibleEntries(sub.sel, snapshot), bundle);
        IsSnapshot(snapshot, cache) && sub.c == [u] && sub.view == Some(u)
      ensures !sub.active ==> sub.c == old(sub.c) && sub.view == old(sub.view)
      ensures old(UpToDate()) ==> UpToDate()
    {
      subscribers.Add(sub);
      snapshot := NotifySubscribers([sub], {sub});
    }

    /** The entry stored under the registration entry's id, if any. */
    method Entry(regEntry: RegistrationEntry) returns (r: Option<Entry>)
      ensures regEntry.entryId in cache ==> r == Some(cache[regEntry.entryId])
      ensures regEntry.entryId !in cache ==> r == None
    {
      if regEntry.entryId in cache {
        return Some(cache[regEntry.entryId]);
      }
      return None;
    }

    /**
     * Stores the entry under its id, replacing any previous one, and notifies
     * the subscribers that can see the new entry.
     */
    method SetEntry(entry: Entry) returns (ghost snapshot: seq<Entry>)
      requires Valid()
      modifies this, subscribers, subscribers.members
      ensures Valid()
      ensures cache == old(cache)[entry.Id() := entry] && bundle == old(bundle)
      ensures Notified(old(subscribers.members), Interested(old(subscribers.members), entry.Selectors()), snapshot)
    {
      cache := cache[entry.Id() := entry];
      var subs := subscribers.Get(entry.Selectors());
      snapshot := NotifySubscribers(subs, Interested(subscribers.members, entry.Selectors()));
    }

    /**
     * SetEntry as it is meant to behave: the subscribers that could see the
     * entry being replaced are notified too, so that one which can no longer
     * see it is sent a view without it. This keeps UpToDate.
     */
    method SetEntryCorrected(entry: Entry) returns (ghost snapshot: seq<Entry>)
      requires Valid()
      modifies this, subscribers, subscribers.members
      ensures Valid()
      ensures cache == old(cache)[entry.Id() := entry] && bundle == old(bundle)
      ensures Notified(old(subscribers.members), StoreTargets(old(subscribers.members), old(cache), entry), snapshot)
      ensures old(UpToDate()) ==> UpToDate()
    {
      ghost var targets := StoreTargets(subscribers.members, cache, entry);
      var subs := AffectedBy(entry);
      cache := cache[entry.Id() := entry];
      snapshot := NotifySubscribers(subs, targets);
      if old(UpToDate()) {
        forall s | s in subscribers.members && s.active
          ensures Current(s)
        {
          if s !in targets {
            assert old(Current(s)) && s.view == old(s.view);
            if s.view.Some? {
              ShowsAfterStore(s.view.value.entries, s.sel, old(cache), entry);
            }
          }
        }
      }
    }

    /**
     * The registered subscribers that can see `entry` or the entry it is
     * about to replace, as listed by the registry (possibly with repeats).
     */
    method AffectedBy(entry: Entry) returns (subs: seq<Subscriber>)
      ensures forall s :: s in subs <==> s in StoreTargets(subscribers.members, cache, entry)
    {
      subs := [];
      if entry.Id() in cache {
        subs := subscribers.Get(cache[entry.Id()].Selectors());
      }
      var more := subscribers.Get(entry.Selectors());
      subs := subs + more;
    }

    /**
     * Pushes one snapshot of the entries and the bundle to each of `subs`,
     * dropping inactive ones from the registry instead. An update still
     * waiting in a channel is discarded, never queued behind.
     */
    method NotifySubscribers(subs: seq<Subscriber>, ghost targets: set<Subscriber>) returns (ghost snapshot: seq<Entry>)
      requires Valid()
      requires forall s :: s in subs <==> s in targets
      modifies subscribers, targets
      ensures Valid()
      ensures cache == old(cache) && bundle == old(bundle)
      ensures Notified(old(subscribers.members), targets, snapshot)
      ensures forall s :: s in targets && s.active ==> Current(s)
    {
      snapshot := [];
      if subs == [] {
        return;
      }
      var entries := Entries();
      var bundle := Bundle();
      snapshot := entries;
      DeliverAll(subscribers, subs, targets, entries, bundle);
      forall s | s in targets && s.active ensures Current(s) {
        DeliveredShows(s.sel, entries, cache);
      }
    }

    /**
     * Removes the entry stored under the registration entry's id, if any, and
     * then notifies the subscribers that could see the removed entry. Reports
     * whether anything was removed; on an absent id nothing changes at all.
     */
    method DeleteEntry(regEntry: RegistrationEntry) returns (deleted: bool, ghost snapshot: seq<Entry>)
      requires Valid()
      modifies this, subscribers, subscribers.members
      ensures Valid()
      ensures deleted <==> regEntry.entryId in old(cache)
      ensures cache == old(cache) - {regEntry.entryId} && bundle == old(bundle)
      ensures Notified(old(subscribers.members),
                       if deleted then Interested(old(subscribers.members), old(cache)[regEntry.entryId].Selectors()) else {},
                       snapshot)
      ensures old(UpToDate()) ==> UpToDate()
    {
      var subs: seq<Subscriber> := [];
      ghost var targets: set<Subscriber> := {};
      deleted := false;
      snapshot := [];
      if regEntry.entryId in cache {
        var entry := cache[regEntry.entryId];
        subs := subscribers.Get(entry.Selectors());
        targets := Interested(subscribers.members, entry.Selectors());
        cache := cache - {regEntry.entryId};
        deleted := true;
      }
      if deleted {
        snapshot := NotifySubscribers(subs, targets);
      }
      if old(UpToDate()) {
        forall s | s in subscribers.members && s.active && s !in subs
          ensures Current(s)
        {
          assert old(Current(s)) && s.view == old(s.view);
          if s.view.Some? {
            ShowsAfterRemove(s.view.value.entries, s.sel, old(cache), regEntry.entryId);
          }
        }
      }
    }

    /** True exactly when no entry is stored. */
    method IsEmpty() returns (r: bool)
      ensures r <==> cache == map[]
    {
      r := |cache| == 0;
    }
  }
}
