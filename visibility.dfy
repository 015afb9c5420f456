/**
 * What a notification delivers: a snapshot of the cache's entries (in the
 * unspecified order of a map traversal), filtered per subscriber by selector
 * inclusion. The lemmas here say what the filter keeps, that it keeps the
 * snapshot's order, and that the delivered entries do not depend on the order
 * the snapshot happened to be taken in.
 */
module Visibility {
  import opened Selectors
  import opened CacheTypes

  /**
   * The entries of `entries` that a subscriber with selectors `sel` may see,
   * in their original order: those whose selectors `sel` includes.
   */
  function VisibleEntries(sel: seq<Selector>, entries: seq<Entry>): seq<Entry>
  {
    if entries == [] then []
    else
      var last := entries[|entries| - 1];
      VisibleEntries(sel, entries[..|entries| - 1]) + (if Includes(sel, last.Selectors()) then [last] else [])
  }

  /** An entry is visible exactly when it is one of the inputs and the subscriber covers its selectors. */
  lemma {:induction false} VisibleIff(sel: seq<Selector>, entries: seq<Entry>, e: Entry)
    ensures e in VisibleEntries(sel, entries) <==> e in entries && Includes(sel, e.Selectors())
  {
    if entries != [] {
      var init := entries[..|entries| - 1];
      VisibleIff(sel, init, e);
      assert entries == init + [entries[|entries| - 1]];
    }
  }

  /** Filtering commutes with concatenation, so the filter keeps the input order. */
  lemma {:induction false} VisibleAppend(sel: seq<Selector>, a: seq<Entry>, b: seq<Entry>)
    ensures VisibleEntries(sel, a + b) == VisibleEntries(sel, a) + VisibleEntries(sel, b)
  {
    if b == [] {
      assert a + b == a;
    } else {
      var init, last := b[..|b| - 1], b[|b| - 1];
      VisibleAppend(sel, a, init);
      assert (a + b)[..|a + b| - 1] == a + init;
      assert (a + b)[|a + b| - 1] == last;
      var tail := if Includes(sel, last.Selectors()) then [last] else [];
      assert VisibleEntries(sel, b) == VisibleEntries(sel, init) + tail;
      assert VisibleEntries(sel, a + b) == VisibleEntries(sel, a + init) + tail;
    }
  }

  /** The filter never adds copies: each entry occurs as often as in the input, or not at all. */
  lemma {:induction false} VisibleCount(sel: seq<Selector>, entries: seq<Entry>, e: Entry)
    ensures multiset(VisibleEntries(sel, entries))[e]
         == if Includes(sel, e.Selectors()) then multiset(entries)[e] else 0
  {
    if entries != [] {
      var init := entries[..|entries| - 1];
      VisibleCount(sel, init, e);
      assert entries == init + [entries[|entries| - 1]];
    }
  }

  /** No two elements share an entry id. */
  predicate DistinctIds(s: seq<Entry>)
  {
    forall i, j :: 0 <= i < j < |s| ==> s[i].Id() != s[j].Id()
  }

  /** The ids of the elements of `s`. */
  function IdSet(s: seq<Entry>): set<string>
  {
    set i | 0 <= i < |s| :: s[i].Id()
  }

  /** The map is keyed by each entry's own id, as the cache's SetEntry keeps it. */
  predicate WellKeyed(m: map<string, Entry>)
  {
    forall id :: id in m ==> m[id].Id() == id
  }

  /**
   * `snap` lists the values of `m`, each exactly once, in some order: every
   * element is stored under its own id, no id repeats and no key is missed.
   */
  ghost predicate IsSnapshot(snap: seq<Entry>, m: map<string, Entry>)
  {
    && (forall i :: 0 <= i < |snap| ==> snap[i].Id() in m && m[snap[i].Id()] == snap[i])
    && DistinctIds(snap)
    && (forall id :: id in m ==> exists i :: 0 <= i < |snap| && snap[i].Id() == id)
  }

  lemma {:induction false} DistinctIdsCard(s: seq<Entry>)
    requires DistinctIds(s)
    ensures |IdSet(s)| == |s|
  {
    if s != [] {
      var init, last := s[..|s| - 1], s[|s| - 1].Id();
      assert DistinctIds(init) by {
        forall i, j | 0 <= i < j < |init| ensures init[i].Id() != init[j].Id() {
          assert init[i] == s[i] && init[j] == s[j];
        }
      }
      DistinctIdsCard(init);
      assert last !in IdSet(init) by {
        forall i | 0 <= i < |init| ensures init[i].Id() != last {
          assert init[i] == s[i];
        }
      }
      assert IdSet(s) == IdSet(init) + {last} by {
        forall x ensures x in IdSet(s) <==> x in IdSet(init) + {last} {
          if x in IdSet(s) && x != last {
            var i :| 0 <= i < |s| && s[i].Id() == x;
            assert init[i] == s[i];
          }
          if x in IdSet(init) {
            var i :| 0 <= i < |init| && init[i].Id() == x;
            assert s[i] == init[i];
          }
        }
      }
    }
  }

  /** Entries with distinct ids are distinct, so each occurs at most once. */
  lemma {:induction false} DistinctIdsCount(s: seq<Entry>, e: Entry)
    requires DistinctIds(s)
    ensures multiset(s)[e] == if e in s then 1 else 0
  {
    if s != [] {
      var init := s[..|s| - 1];
      DistinctIdsCount(init, e);
      assert s == init + [s[|s| - 1]];
    }
  }

  /** Only a map keyed by its entries' own ids has a snapshot. */
  lemma SnapshotWellKeyed(snap: seq<Entry>, m: map<string, Entry>)
    requires IsSnapshot(snap, m)
    ensures WellKeyed(m)
  {
  }

  /** A snapshot has one element per key of the map. */
  lemma SnapshotSize(snap: seq<Entry>, m: map<string, Entry>)
    requires IsSnapshot(snap, m)
    ensures |snap| == |m|
  {
    assert IdSet(snap) == m.Keys;
    DistinctIdsCard(snap);
  }

  /** The elements of a snapshot are exactly the values of the map. */
  lemma SnapshotMembers(snap: seq<Entry>, m: map<string, Entry>, e: Entry)
    requires IsSnapshot(snap, m)
    ensures e in snap <==> e.Id() in m && m[e.Id()] == e
  {
  }

  /** Two snapshots of the same map differ at most in order. */
  lemma SnapshotsPermute(a: seq<Entry>, b: seq<Entry>, m: map<string, Entry>)
    requires IsSnapshot(a, m) && IsSnapshot(b, m)
    ensures multiset(a) == multiset(b)
  {
    forall e ensures multiset(a)[e] == multiset(b)[e] {
      DistinctIdsCount(a, e);
      DistinctIdsCount(b, e);
      SnapshotMembers(a, m, e);
      SnapshotMembers(b, m, e);
    }
  }

  /**
   * What one subscriber is sent from a snapshot of `m`: every stored entry
   * whose selectors it covers, each once, and nothing else.
   */
  lemma DeliveredEntries(sel: seq<Selector>, snap: seq<Entry>, m: map<string, Entry>, e: Entry)
    requires IsSnapshot(snap, m)
    ensures e in VisibleEntries(sel, snap) <==> e.Id() in m && m[e.Id()] == e && Includes(sel, e.Selectors())
    ensures multiset(VisibleEntries(sel, snap))[e] <= 1
  {
    VisibleIff(sel, snap, e);
    SnapshotMembers(snap, m, e);
    VisibleCount(sel, snap, e);
    DistinctIdsCount(snap, e);
  }

  /** The entries a subscriber is sent do not depend on the snapshot's order. */
  lemma DeliveredAgree(sel: seq<Selector>, a: seq<Entry>, b: seq<Entry>, m: map<string, Entry>)
    requires IsSnapshot(a, m) && IsSnapshot(b, m)
    ensures multiset(VisibleEntries(sel, a)) == multiset(VisibleEntries(sel, b))
  {
    SnapshotsPermute(a, b, m);
    forall e ensures multiset(VisibleEntries(sel, a))[e] == multiset(VisibleEntries(sel, b))[e] {
      VisibleCount(sel, a, e);
      VisibleCount(sel, b, e);
    }
  }

  /** An id that is not in the map reaches no subscriber. */
  lemma DeletedNotDelivered(sel: seq<Selector>, snap: seq<Entry>, m: map<string, Entry>, id: string)
    requires IsSnapshot(snap, m) && id !in m
    ensures forall e :: e in VisibleEntries(sel, snap) ==> e.Id() != id
  {
    forall e | e in VisibleEntries(sel, snap) ensures e.Id() != id {
      DeliveredEntries(sel, snap, m, e);
    }
  }

  /**
   * `entries` is what a subscriber with selectors `sel` should hold for the
   * map `m`: every stored entry it can see, once, and nothing else.
   */
  ghost predicate Shows(entries: seq<Entry>, sel: seq<Selector>, m: map<string, Entry>)
  {
    forall e :: multiset(entries)[e]
             == if e.Id() in m && m[e.Id()] == e && Includes(sel, e.Selectors()) then 1 else 0
  }

  /** A filtered snapshot is exactly what the subscriber should hold. */
  lemma DeliveredShows(sel: seq<Selector>, snap: seq<Entry>, m: map<string, Entry>)
    requires IsSnapshot(snap, m)
    ensures Shows(VisibleEntries(sel, snap), sel, m)
  {
    forall e ensures multiset(VisibleEntries(sel, snap))[e]
                  == if e.Id() in m && m[e.Id()] == e && Includes(sel, e.Selectors()) then 1 else 0
    {
      DeliveredEntries(sel, snap, m, e);
    }
  }

  /**
   * Storing `v` under its id changes nothing for a subscriber that can see
   * neither `v` nor the entry it replaces.
   */
  lemma ShowsAfterStore(entries: seq<Entry>, sel: seq<Selector>, m: map<string, Entry>, v: Entry)
    requires Shows(entries, sel, m)
    requires !Includes(sel, v.Selectors())
    requires v.Id() in m ==> !Includes(sel, m[v.Id()].Selectors())
    ensures Shows(entries, sel, m[v.Id() := v])
  {
  }

  /** Removing an entry a subscriber cannot see changes nothing for it. */
  lemma ShowsAfterRemove(entries: seq<Entry>, sel: seq<Selector>, m: map<string, Entry>, id: string)
    requires Shows(entries, sel, m)
    requires id in m ==> !Includes(sel, m[id].Selectors())
    ensures Shows(entries, sel, m - {id})
  {
  }
}
