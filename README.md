# SPIRE agent cache, modelled in Dafny

This project models the SPIRE agent's identity cache
(`pkg/agent/manager/cache/cache.go`). The cache holds:

- workload entries, keyed by registration entry id: each entry has an SVID,
  a private key and federated bundles;
- one trust bundle;
- a registry of subscribers.

Each subscriber has a selector set and a buffered channel of capacity one.
When the cache changes, it pushes a `WorkloadUpdate` to the subscribers the
change concerns. The update holds the entries whose selectors the
subscriber's selectors include, together with the current bundle. Which
subscribers `SetEntry` pushes to is narrower than that: see Findings.

The modules follow the structure of the source:

| file | module | what it holds |
|---|---|---|
| `selectors.dfy` | `Selectors` | selectors, and inclusion compared as sets |
| `types.dfy` | `CacheTypes` | `Entry`, `RegistrationEntry`, `WorkloadUpdate`, crypto material as bytes |
| `visibility.dfy` | `Visibility` | the per-subscriber filter, snapshots of the entry map, `Shows` |
| `subscribers.dfy` | `Subscriptions` | the `Subscriber` class and the `Subscribers` registry class |
| `cache.dfy` | `AgentCache` | the `Cache` class, `SubscriberEntries` and the delivery loop |
| `scenarios.dfy` | `CacheScenarios` | client call sequences and what they end in |

How the model is built:

- **Channels.** A channel is the sequence of updates waiting in it. `Send`
  requires a free slot, so "the writer never blocks" becomes a proof
  obligation at the one send, in `Deliver`. It holds because a
  pending update is dropped first: the channel is closed and a fresh one
  made, which `ReplaceChannel` models. `Receive` is the consumer taking the
  oldest update off the channel.
- **Views.** Each subscriber carries a ghost field `view`: the last update
  sent to it, whether it is still waiting in the channel or has been
  received. `Send` sets it; `Receive` and `ReplaceChannel` leave it alone.
- **Map order.** Go's map iteration order is unspecified. `Entries` therefore
  picks keys nondeterministically. Its result is specified by `IsSnapshot`:
  every stored entry exactly once, in some order. The lemmas show that a
  subscriber receives the same entries, up to order, whatever that order is.
- **Notification.** What one notification pass does is stated once, as the
  two-state predicate `Cache.Notified`, over the set of subscribers the pass
  targets. `NotifySubscribers` takes that set as a ghost parameter next to
  the list it iterates. `SetBundle`, `SetEntry`, `SetEntryCorrected` and
  `DeleteEntry` are specified through `Notified`. `Subscribe` states the same
  effects directly for its one subscriber.
- **Up to date.** `Cache.UpToDate` is the property the notification scheme
  exists for. It says that for every registered, active subscriber, the
  last update sent to it (its `view`, pending or already received) lists
  the current bundle and exactly the stored entries it can see.
  `Subscribe`, `SetBundle`, `DeleteEntry` and `SetEntryCorrected` preserve
  it. `SetEntry` as written does not: see Findings.

## Model

| member | source | states |
|---|---|---|
| `Selectors.IncludesEmpty` | pkg/agent/manager/cache/cache.go:170 | every subscriber's selector set includes the empty selector set, so an entry with no selectors is visible to all |
| `Selectors.IncludesIgnoresListForm` | pkg/agent/manager/cache/cache.go:169-170 | visibility depends only on the selector sets, not on list order or duplicates |
| `Visibility.VisibleIff` | pkg/agent/manager/cache/cache.go:167-175 | an entry is in a subscriber's filtered list iff it is in the input and the subscriber's selectors include its selectors |
| `Visibility.VisibleAppend` | pkg/agent/manager/cache/cache.go:168-172 | filtering distributes over concatenation, so the filter keeps the input order |
| `Visibility.VisibleCount` | pkg/agent/manager/cache/cache.go:167-175 | the filter keeps each visible entry as often as it occurs in the input and drops the rest |
| `Visibility.DistinctIdsCard` | pkg/agent/manager/cache/cache.go:86-89 | a list of entries with distinct ids has as many ids as elements |
| `Visibility.DistinctIdsCount` | pkg/agent/manager/cache/cache.go:86-89 | in a list with distinct ids every entry occurs at most once |
| `Visibility.SnapshotWellKeyed` | pkg/agent/manager/cache/cache.go:83-91 | a map that has a snapshot stores every entry under its own id |
| `Visibility.SnapshotSize` | pkg/agent/manager/cache/cache.go:83-91 | the entry listing has exactly one element per key of the map |
| `Visibility.SnapshotMembers` | pkg/agent/manager/cache/cache.go:83-91 | an entry is in the listing iff the map stores it under its id |
| `Visibility.SnapshotsPermute` | pkg/agent/manager/cache/cache.go:87 | two listings of the same map are permutations of each other, whatever order the map traversal takes |
| `Visibility.DeliveredEntries` | pkg/agent/manager/cache/cache.go:124-140 | an entry is delivered to a subscriber iff it is stored and the subscriber's selectors include its selectors, and it is delivered at most once |
| `Visibility.DeliveredAgree` | pkg/agent/manager/cache/cache.go:124-140 | the entries delivered to a subscriber are the same, up to order, for any traversal order of the map |
| `Visibility.DeletedNotDelivered` | pkg/agent/manager/cache/cache.go:145-159 | after an id is deleted, no later snapshot delivers an entry with that id to any subscriber |
| `Visibility.DeliveredShows` | pkg/agent/manager/cache/cache.go:139-140 | the filtered snapshot sent to a subscriber is exactly the view it should hold of the cache |
| `Visibility.ShowsAfterStore` | pkg/agent/manager/cache/cache.go:107-114 | storing an entry leaves a subscriber's view correct when it can see neither the new entry nor the one replaced |
| `Visibility.ShowsAfterRemove` | pkg/agent/manager/cache/cache.go:145-152 | removing an entry leaves a subscriber's view correct when it could not see that entry |
| `Subscriptions.Subscriber.ReplaceChannel` | pkg/agent/manager/cache/cache.go:135-138 | closing the channel and making a fresh one drops the pending update; the active flag is unchanged |
| `Subscriptions.Subscriber.Send` | pkg/agent/manager/cache/cache.go:140 | a send needs a free slot, appends the update, records it as the subscriber's view and keeps the channel within capacity |
| `Subscriptions.Subscribers.Add` | pkg/agent/manager/cache/cache.go:94 | registering a subscriber adds it to the registry and changes nothing else |
| `Subscriptions.Subscribers.Remove` | pkg/agent/manager/cache/cache.go:130 | removing a subscriber takes it out of the registry and changes nothing else |
| `Subscriptions.Subscribers.GetAll` | pkg/agent/manager/cache/cache.go:72 | returns every registered subscriber, each exactly once |
| `Subscriptions.Subscribers.Get` | pkg/agent/manager/cache/cache.go:112 | returns exactly the registered subscribers whose selectors include the given ones, each once |
| `AgentCache.SubscriberEntries` | pkg/agent/manager/cache/cache.go:167-175 | the loop's result is the visibility filter of the input, so it holds exactly the input's entries the subscriber can see, in input order |
| `AgentCache.Deliver` | pkg/agent/manager/cache/cache.go:135-140 | the subscriber ends up holding exactly one update, with the entries it can see and the given bundle, which is also its view; whatever was pending is dropped, so the send never blocks; its active flag is unchanged |
| `AgentCache.DeliverAll` | pkg/agent/manager/cache/cache.go:126-142 | every inactive subscriber in the list is removed from the registry and sent nothing; every active one holds exactly one update with its filtered entries and the bundle; nothing else in the registry changes |
| `AgentCache.Cache.New` | pkg/agent/manager/cache/cache.go:57-65 | a new cache is empty, holds the given bundle and has an empty registry, and its (vacuous) views are up to date |
| `AgentCache.Cache.SetBundle` | pkg/agent/manager/cache/cache.go:67-74 | the bundle is replaced, the entries are unchanged, every registered subscriber is notified, and every active one then holds, as pending update and view, the new bundle with the entries it can see |
| `AgentCache.Cache.Bundle` | pkg/agent/manager/cache/cache.go:76-81 | returns the current bundle |
| `AgentCache.Cache.Entries` | pkg/agent/manager/cache/cache.go:83-91 | returns every stored entry exactly once, each under its own id, in an unspecified order |
| `AgentCache.Cache.Subscribe` | pkg/agent/manager/cache/cache.go:93-96 | an active subscriber is registered and holds exactly one update, which is also its view: the current bundle and a snapshot filtered by its selectors; an inactive one ends up unregistered and sent nothing; other views stay up to date |
| `AgentCache.Cache.Entry` | pkg/agent/manager/cache/cache.go:98-105 | returns the entry stored under the id, or none when the id is absent |
| `AgentCache.Cache.SetEntry` | pkg/agent/manager/cache/cache.go:107-114 | stores the entry under its id, replacing any previous one, and notifies exactly the registered subscribers whose selectors include the new entry's selectors |
| `AgentCache.Cache.SetEntryCorrected` | pkg/agent/manager/cache/cache.go:107-114 | as SetEntry, but also notifies the subscribers that could see the replaced entry, and keeps every active subscriber's view up to date |
| `AgentCache.Cache.NotifySubscribers` | pkg/agent/manager/cache/cache.go:116-143 | an empty list does nothing; otherwise inactive targets are unregistered and sent nothing, and each active target holds exactly one update, also its view, with the current bundle and its filtered snapshot, whatever it held before; no other subscriber is touched; every active target's view is then up to date |
| `AgentCache.Cache.DeleteEntry` | pkg/agent/manager/cache/cache.go:145-159 | reports true iff the id was stored; removes it; notifies exactly the subscribers that could see the removed entry, and nobody when nothing was removed; keeps views up to date |
| `AgentCache.Cache.IsEmpty` | pkg/agent/manager/cache/cache.go:161-165 | true iff no entry is stored |
| `CacheScenarios.SubscribeThenSetBundle` | pkg/agent/manager/cache/cache.go:67-96 | after storing an entry, subscribing and setting the bundle, the subscriber holds one combined update with the entry and the new bundle, and no older update |
| `CacheScenarios.NoStaleOverwrite` | pkg/agent/manager/cache/cache.go:134-140 | after two bundle changes and no receive, the subscriber holds one update, reflecting the second change |
| `CacheScenarios.OnlyInterestedNotified` | pkg/agent/manager/cache/cache.go:107-114 | of two drained subscribers, only the one whose selectors include the new entry's selectors receives an update; the other's channel stays empty |
| `CacheScenarios.DeleteAbsent` | pkg/agent/manager/cache/cache.go:145-159 | deleting an id that was never stored returns false and sends nothing |
| `CacheScenarios.OverwriteThenDelete` | pkg/agent/manager/cache/cache.go:98-159 | setting an id twice keeps only the latest entry; deleting it returns true, after which the lookup finds nothing |
| `CacheScenarios.SetEntryLeavesStaleView` | pkg/agent/manager/cache/cache.go:107-114 | a subscriber receives its update; then a stored entry's selectors change so that it no longer sees the entry; it is sent nothing, its channel stays empty, and the view it received still lists the entry, so `UpToDate` fails |

## Left out

- Locking: the cache mutex, the notify mutex and the per-subscriber mutexes are left out. Each method is one atomic step, so interleavings of concurrent callers are not modelled. That includes the window in which `SetBundle` and the entry writers release the cache lock before notifying.
- Goroutines and the consumer side of the channels are left out. `Subscriber.Receive` and `Subscriber.Finish` stand in for what a consumer does between calls. Blocking is modelled only as the precondition of `Send`.
- A receive on a closed channel is not modelled. Closing and remaking a channel is one step that empties it.
- The subscriber's own file and the registry's implementation are not part of this model. `Subscribers.Get` is specified by the contract the cache relies on: the registered subscribers whose selectors include the given ones. The registry is a set of subscriber objects.
- Subscriptions.Subscribers.Get: this contract is an assumption stated from the registry's interface, not its code; duplicates and ordering beyond "each once" are not known. The exact notified sets of `SetEntry` and `DeleteEntry`, the preservation of `UpToDate` and the finding below all rest on it. On an empty selector list the model's `Get` returns every registered subscriber, since every selector set includes the empty one.
- Logging (`logrus`) is left out, as it has no effect on state.
- Certificates, private keys and federated bundles are opaque byte strings. No crypto is modelled.
- Entries are values, not `*Entry` references: aliasing between a stored entry and a caller's copy is not modelled.
- `New` and `SetBundle` store the caller's bundle slice itself, without copying it (cache.go:62 and 69). The model stores a value, so a caller writing to that slice afterwards, and thereby changing the cache's bundle, is not modelled.
- AgentCache.Cache.Bundle: Go's `append` returns a nil slice for an empty bundle. The model does not distinguish nil from empty slices, here or for the subscriber list handed to `notifySubscribers`.
- Nil arguments (a nil entry or registration entry) are not modelled. They are Go runtime panics.
- AgentCache.Cache.Entries: the traversal order is an unconstrained choice, not Go's randomised iteration.
- The registration entry is reduced to its id and selectors, the only fields the cache reads.

## Findings

| source | as written | input that shows it | evidently intended | confidence | as-written member | corrected member |
|---|---|---|---|---|---|---|
| pkg/agent/manager/cache/cache.go:107-114 | `SetEntry` notifies only the subscribers whose selectors include the new entry's selectors | store an entry with id `e` and selectors `{a}`; subscribe a subscriber with selectors `{a}`, which receives its update; `SetEntry` with id `e` and selectors `{b}`, `a != b`: the subscriber is not notified, nothing is pending in its channel, and the view it received still lists the old entry, whose SVID it may no longer use | the subscribers that could see the replaced entry are notified too, so that every subscriber's view lists exactly the stored entries it can see | not executed; medium (relies on the registry returning exactly the covering subscribers) | `CacheScenarios.SetEntryLeavesStaleView` | `AgentCache.Cache.SetEntryCorrected` |
