/**
 * Small client runs of the cache: sequences of calls with the channel
 * contents and cache state they must end in, for any id, selectors and
 * certificates. The last one shows the stale view left by SetEntry as it is
 * written.
 */
module CacheScenarios {
  import opened Selectors
  import opened CacheTypes
  import opened Visibility
  import opened Subscriptions
  import opened AgentCache

  /** An entry with the given id and selectors and empty crypto material. */
  function MakeEntry(id: string, sels: seq<Selector>): (e: Entry)
    ensures e.Id() == id && e.Selectors() == sels
  {
    Entry(RegistrationEntry(id, sels), Certificate([]), PrivateKey([]), map[])
  }

  /** A snapshot of a map with a single entry is that entry alone. */
  lemma SingletonSnapshot(snap: seq<Entry>, m: map<string, Entry>, e: Entry)
    requires IsSnapshot(snap, m) && m == map[e.Id() := e]
    ensures snap == [e]
  {
    SnapshotSize(snap, m);
  }

  /** A snapshot of the empty map is empty. */
  lemma EmptySnapshot(snap: seq<Entry>, m: map<string, Entry>)
    requires IsSnapshot(snap, m) && m == map[]
    ensures snap == []
  {
    SnapshotSize(snap, m);
  }

  /** Filtering a one-element list keeps the element exactly when it is visible. */
  lemma VisibleOne(sel: seq<Selector>, e: Entry)
    ensures VisibleEntries(sel, [e]) == if Includes(sel, e.Selectors()) then [e] else []
  {
  }

  /**
   * A fresh cache holding `e`, with one subscriber with selectors `sel` that
   * has just subscribed and holds its initial update.
   */
  method CacheWithSubscriber(e: Entry, sel: seq<Selector>) returns (c: Cache, sub: Subscriber)
    ensures fresh(c) && fresh(c.subscribers) && fresh(sub)
    ensures c.Valid() && c.UpToDate()
    ensures c.cache == map[e.Id() := e] && c.bundle == [] && c.subscribers.members == {sub}
    ensures sub.sel == sel && sub.active
    ensures sub.c == [WorkloadUpdate(if Includes(sel, e.Selectors()) then [e] else [], [])]
  {
    c := new Cache.New([]);
    var snap := c.SetEntry(e);
    sub := new Subscriber(sel);
    snap := c.Subscribe(sub);
    SingletonSnapshot(snap, c.cache, e);
    VisibleOne(sel, e);
  }

  /**
   * An entry with selectors {a} is stored, a subscriber with {a, b}
   * subscribes and the bundle is set to [cert] before the subscriber drains
   * anything: its channel holds one combined update with the entry and
   * [cert], nothing older.
   */
  method SubscribeThenSetBundle(id: string, a: Selector, b: Selector, cert: Certificate)
    returns (c: Cache, sub: Subscriber)
    ensures sub.c == [WorkloadUpdate([MakeEntry(id, [a])], [cert])]
  {
    var e := MakeEntry(id, [a]);
    assert a in [a, b];
    c, sub := CacheWithSubscriber(e, [a, b]);
    var snap := c.SetBundle([cert]);
    assert sub.c == [WorkloadUpdate(VisibleEntries(sub.sel, snap), [cert])];
    SingletonSnapshot(snap, c.cache, e);
    VisibleOne(sub.sel, e);
  }

  /**
   * Two mutations before the subscriber drains its channel: it holds one
   * update, reflecting the second.
   */
  method NoStaleOverwrite(sel: seq<Selector>, cert1: Certificate, cert2: Certificate)
    returns (c: Cache, sub: Subscriber)
    ensures sub.c == [WorkloadUpdate([], [cert2])]
  {
    c := new Cache.New([]);
    sub := new Subscriber(sel);
    var snap := c.Subscribe(sub);
    snap := c.SetBundle([cert1]);
    snap := c.SetBundle([cert2]);
    EmptySnapshot(snap, c.cache);
  }

  /**
   * S_a with {a} and S_b with {x} subscribe and drain their initial updates;
   * an entry with selectors {a} is set: only S_a receives an update.
   */
  method OnlyInterestedNotified(id: string, a: Selector, x: Selector)
    returns (c: Cache, sa: Subscriber, sb: Subscriber)
    requires a != x
    ensures sa.c == [WorkloadUpdate([MakeEntry(id, [a])], [])]
    ensures sb.c == []
  {
    var e := MakeEntry(id, [a]);
    c := new Cache.New([]);
    sa := new Subscriber([a]);
    sb := new Subscriber([x]);
    var snap := c.Subscribe(sa);
    snap := c.Subscribe(sb);
    var u := sa.Receive();
    u := sb.Receive();
    assert c.subscribers.members == {sa, sb};
    assert a in SelectorSet(sa.sel) && a !in SelectorSet(sb.sel);
    assert Interested({sa, sb}, e.Selectors()) == {sa};
    snap := c.SetEntry(e);
    assert sa.c == [WorkloadUpdate(VisibleEntries(sa.sel, snap), [])];
    SingletonSnapshot(snap, c.cache, e);
    VisibleOne(sa.sel, e);
  }

  /** Deleting an id that was never stored reports false and notifies nobody. */
  method DeleteAbsent(id: string, sel: seq<Selector>) returns (c: Cache, sub: Subscriber, deleted: bool)
    ensures !deleted && sub.c == [] && c.cache == map[]
  {
    c := new Cache.New([]);
    sub := new Subscriber(sel);
    var snap := c.Subscribe(sub);
    var u := sub.Receive();
    deleted, snap := c.DeleteEntry(RegistrationEntry(id, []));
  }

  /**
   * Setting the same id twice keeps only the latest entry; deleting it
   * afterwards leaves the id absent.
   */
  method OverwriteThenDelete(id: string, a: Selector, b: Selector)
    returns (c: Cache, afterSet: Option<Entry>, deleted: bool, afterDelete: Option<Entry>)
    ensures afterSet == Some(MakeEntry(id, [b]))
    ensures deleted && afterDelete == None && c.cache == map[]
  {
    c := new Cache.New([]);
    var snap := c.SetEntry(MakeEntry(id, [a]));
    snap := c.SetEntry(MakeEntry(id, [b]));
    assert c.cache == map[id := MakeEntry(id, [b])];
    afterSet := c.Entry(RegistrationEntry(id, []));
    deleted, snap := c.DeleteEntry(RegistrationEntry(id, []));
    afterDelete := c.Entry(RegistrationEntry(id, []));
  }

  /**
   * SetEntry as written: an entry is stored with selectors {a}, a subscriber
   * with {a} subscribes and receives its update, then the entry is replaced
   * by one with selectors {b}. The subscriber, which can no longer see the
   * entry, is not notified: the view it received still lists the old entry,
   * and nothing pending in its channel will correct it.
   */
  method SetEntryLeavesStaleView(id: string, a: Selector, b: Selector)
    returns (c: Cache, sub: Subscriber, received: WorkloadUpdate)
    requires a != b
    ensures received == WorkloadUpdate([MakeEntry(id, [a])], [])
    ensures sub.active && sub in c.subscribers.members && sub.c == []
    ensures c.cache == map[id := MakeEntry(id, [b])]
    ensures !c.UpToDate()
  {
    var e1 := MakeEntry(id, [a]);
    var e2 := MakeEntry(id, [b]);
    assert a in [a] && b !in [a];
    c, sub := CacheWithSubscriber(e1, [a]);
    received := sub.Receive();
    assert b in SelectorSet(e2.Selectors()) && b !in SelectorSet(sub.sel);
    assert Interested({sub}, e2.Selectors()) == {};
    var snap := c.SetEntry(e2);
    assert sub.view == Some(received);
    assert multiset(received.entries)[e1] == 1;
    assert !c.Current(sub);
  }
}
