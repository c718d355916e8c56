# Subscription registry (tg-maid `src/event.rs`), modelled in Dafny

The bot's event machinery keeps an in-memory **Registry** that maps
*registrants* (subscribers, such as chat ids) to the *events* they want to
hear about. Its state has three parts:

- `relation`: registrant → list of events, in subscription order;
- `event_pool`: every event ever subscribed, sorted and deduplicated;
- `cache`: a memo table, event → the registrants subscribed to it.

It has four operations: `new` builds the relation and the pool. `register`
appends a batch of events to one registrant's list, merges the batch into the
pool and evicts the batch's events from the cache. `find_registrants_by_event`
answers from the cache, or scans the relation and memoises a non-empty
answer. `pool` returns the pool.

The model is the class `Event.Registry` (`registry.dfy`). Its fields are the
three pieces of state, as a `map`, a `seq` and a `map` that the methods
reassign. Its invariant `Valid()` holds the two facts the design rests on:

1. The pool is strictly increasing and holds exactly the events of the relation.
2. Every cache entry is a non-empty list, without repetition, of exactly the
   registrants whose list holds the key now (`CacheCoherent`). So a lookup never
   returns a stale answer.

The constructor and every method keep `Valid()`. Each method also states its
whole new state in terms of the old one.

Files:

- `seqs.dfy`: `Elems` (the values of a sequence) and `NoDup`.
- `wrappers.dfy`: `Option`.
- `event_pool.dfy`: `Sort` and `Dedup`, which stand for `Vec::sort` and
  `Vec::dedup` on integer events, and what the pool needs from them.
- `relation.dfy`: the relation as a value: who subscribes to an event, which
  events occur, how a registration changes them. It also holds the loops the
  registry runs over the relation: the flattening in `new`, the scan in
  `find_registrants_by_event` and the `find` inside it.
- `registry.dfy`: the class, and the lemma that eviction keeps the cache coherent.
- `test_registry.dfy`: the scenario of `test_registry`, replayed against the
  class contracts.

Modelling choices:

- Events are `int`. Any total order would do; the pool's properties use only `<`.
- Registrants are any type with equality.
- `Rc` sharing is modelled by value. The cache key that a lookup stores is the
  matched element of a registrant's list. That element is equal to the
  looked-up event, so the model stores the event's value.
- `HashMap` iteration order is unspecified. Both loops over the relation pick
  the next key with `:|`, so nothing proved depends on the order. The result of
  a fresh lookup is specified as a set without repetition, not as a fixed order.

Behaviour that the model takes from the code as written:

- `register` removes every event of the batch from the cache,
  whether or not it is a key. That has the same effect as "evict the keys among them".
- `register(r, [])` for a new registrant inserts `r` with an empty list. So a
  registrant can hold zero events.
- The stored cache key is the copy of the event found in the relation (the last
  one matched), not the pool's copy. Under value semantics they are equal.
- The unit test only checks that the second lookup of 2 contains "foo" or
  "bar". The model proves the exact answer: "foo", "bar" and "baz", each once.

## Model

| member | source | states |
|---|---|---|
| `EventPool.Sort` | src/event.rs:124 | `sort` returns a permutation of the events it is given (same multiset) |
| `EventPool.SortSorted` | src/event.rs:124 | the result of `sort` is in ascending order |
| `EventPool.SortedPermutationUnique` | src/event.rs:124 | two ascending permutations of the same events are equal, so any correct sort (the standard library's included) gives the same pool |
| `EventPool.Dedup` | src/event.rs:125 | `dedup` keeps the first element and leaves no two equal neighbours |
| `EventPool.DedupElems` | src/event.rs:125 | `dedup` removes repeated values only: the result holds the same set of values |
| `EventPool.DedupStrictlyIncreasing` | src/event.rs:124-125 | `dedup` after `sort` gives a strictly increasing list |
| `EventPool.CanonicalSpec` | src/event.rs:144-146 | extending, sorting and deduplicating gives a strictly increasing list of exactly the values extended with |
| `EventPool.StrictlyIncreasingUnique` | src/event.rs:204-205 | a pool is determined by its set of events: two strictly increasing lists with the same values are equal |
| `Relation.Subscribe` | src/event.rs:148-151 | `entry(r).and_modify(extend).or_insert(events)`: r's list becomes its old list followed by the batch, or the batch if r was absent; every other list is unchanged; r is now a key |
| `Relation.SubscribeSubscribers` | src/event.rs:148-151 | after a registration, the subscribers of an event in the batch gain exactly the registrant; those of every other event are unchanged |
| `Relation.SubscribeAllEvents` | src/event.rs:144-151 | after a registration, the events of the relation are the old ones plus the batch's |
| `Relation.FindSubscribed` | src/event.rs:172-174 | `iter().find` over a registrant's list finds an entry if and only if the event is in the list, and the entry equals the event |
| `Relation.Scan` | src/event.rs:166-182 | the scan collects exactly the registrants whose list holds the event, each once; a matched event is recorded if and only if something matched, and it equals the event |
| `Relation.FlattenEvents` | src/event.rs:119-123 | flattening the relation's lists gives exactly the events some registrant subscribes to |
| `Event.EvictionKeepsCoherence` | src/event.rs:134-151 | evicting the batch's events from a coherent cache leaves it coherent with the relation after the registration |
| `Event.CachedEventsAreSubscribed` | src/event.rs:184-189 | only events that someone subscribes to are ever cache keys, because an empty answer is not stored |
| `Event.Registry.constructor` | src/event.rs:108-132 | `new` keeps the given relation, builds a strictly increasing pool of exactly its events, and starts with an empty cache |
| `Event.Registry.Register` | src/event.rs:134-152 | `register` keeps the invariant; the relation is `Subscribe` of the old one; the pool is the old pool extended with the batch, sorted and deduplicated, so it holds old pool ∪ batch; the batch's events leave the cache and every other entry is unchanged |
| `Event.Registry.GetRegistrantFromCache` | src/event.rs:154-159 | answers if and only if the event is a cache key, and the answer is exactly the event's current subscribers, each once |
| `Event.Registry.FindRegistrantsByEvent` | src/event.rs:161-191 | returns exactly the current subscribers, each once; a cache hit returns the entry and changes nothing; a miss with no subscriber returns empty and leaves the cache alone; a miss with subscribers memoises the answer under the event; relation and pool never change |
| `Event.Registry.Pool` | src/event.rs:193-195 | the pool is strictly increasing and holds exactly the events of the relation |
| `EventTest.InitialRelation` | src/event.rs:200-212 | in the test's relation the events are {1, 2, 3, 8, 9}; nobody subscribes to 7, only "bar" to 8, "foo" and "bar" to 2 |
| `EventTest.AfterRegistration` | src/event.rs:219-228 | after "baz" registers for 2, 6 and 7, the subscribers of 2 are exactly "foo", "bar" and "baz" |
| `EventTest.MergedPool` | src/event.rs:221-222 | after the registration the pool can only be `[1, 2, 3, 6, 7, 8, 9]` |
| `EventTest.NewScenario` | src/event.rs:200-205 | after `new` the pool is `[1, 2, 3, 8, 9]` and the cache is empty |
| `EventTest.LookupScenario` | src/event.rs:207-217 | looking up 7 gives nothing, 8 gives exactly `["bar"]`, 2 gives "foo" and "bar", and the cache then has the two keys 8 and 2 |
| `EventTest.RegisterScenario` | src/event.rs:219-222 | after `register("baz", [2, 6, 7])` the pool is `[1, 2, 3, 6, 7, 8, 9]` and the stale entry for 2 is gone |
| `EventTest.TestRegistry` | src/event.rs:198-229 | the re-lookup of 2 returns exactly "foo", "bar" and "baz", the pool is `[1, 2, 3, 6, 7, 8, 9]`, and the cache again has 2 entries |

## Left out

- `EventWatcher::start` (src/event.rs:56-93): a tokio task that races an interval against a `watch` channel, plus a Ctrl-C handler. It is asynchronous concurrency with no sequential logic to state.
- `State` with its `Deref`/`DerefMut`, and `EventWatcher`'s builder and `Clone` (src/event.rs:17-50): `Arc` sharing boilerplate with no behaviour.
- `src/http.rs`: network I/O and JSON decoding through reqwest and serde. It is not part of this model.
- The persisted, key-value-store registry: it is not part of `src/event.rs` and is not modelled.
- `Rc` pointer identity and the `Debug` derive: the model works on values.
- The order of registrants in a freshly scanned answer: it follows `HashMap` iteration order, so the model states the answer as a set without repetition.
- Relation.FlattenEvents: states the set of flattened events, not their order or multiplicity. Both depend on `HashMap` iteration, and both are erased by the sort and dedup that follow.
- EventPool.Sort: an insertion sort stands for the standard library's sort. `SortedPermutationUnique` shows that both give the same sequence.
- Event.Registry.GetRegistrantFromCache: returns copies of the registrants rather than references into the cache.
