/**
 * The in-memory subscription registry. It keeps three pieces of state:
 *  - `relation`: registrant -> the events it subscribed to, in order;
 *  - `eventPool`: every event seen, sorted and deduplicated;
 *  - `cache`: memoised lookups, event -> registrants subscribed to it.
 *
 * Its invariant (`Valid`) is the pair the registry is designed around: the
 * pool is the strictly increasing list of all subscribed events, and every
 * cache entry equals what a fresh scan of the relation would return now.
 *
 * Events are integers (any total order would do); `Rc` sharing is modelled
 * by value, so the cache key stored for a lookup is a value equal to the
 * looked-up event.
 */
module Event {
  import opened Seqs
  import opened Wrappers
  import opened EventPool
  import opened Relation

  /**
   * Every cache entry is a non-empty list, without repetition, of exactly the
   * registrants that currently subscribe to its key.
   */
  ghost predicate CacheCoherent<R>(rel: map<R, seq<int>>, cache: map<int, seq<R>>)
  {
    forall e :: e in cache ==>
      cache[e] != [] && NoDup(cache[e]) && Elems(cache[e]) == Subscribers(rel, e)
  }

  /**
   * Evicting the events of a registration keeps the cache coherent with the
   * grown relation: the subscribers of every other event are unchanged.
   */
  lemma {:induction false} EvictionKeepsCoherence<R>(
    rel: map<R, seq<int>>, cache: map<int, seq<R>>, r: R, events: seq<int>)
    requires CacheCoherent(rel, cache)
    ensures CacheCoherent(Subscribe(rel, r, events), cache - Elems(events))
  {
    forall e | e in cache - Elems(events)
      ensures Elems(cache[e]) == Subscribers(Subscribe(rel, r, events), e)
    {
      SubscribeSubscribers(rel, r, events, e);
    }
  }

  /** Only events some registrant subscribes to can be cache keys. */
  lemma CachedEventsAreSubscribed<R>(rel: map<R, seq<int>>, cache: map<int, seq<R>>)
    requires CacheCoherent(rel, cache)
    ensures cache.Keys <= AllEvents(rel)
  {
    forall e | e in cache ensures e in AllEvents(rel) {
      var r := cache[e][0];
      assert r in Elems(cache[e]);
    }
  }

  class Registry<R(==)> {
    var relation: map<R, seq<int>>
    var eventPool: seq<int>
    var cache: map<int, seq<R>>

    ghost predicate Valid()
      reads this
    {
      && StrictlyIncreasing(eventPool)
      && Elems(eventPool) == AllEvents(relation)
      && CacheCoherent(relation, cache)
    }

    /**
     * `Registry::new`: takes the relation as given, builds the pool from the
     * concatenation of all its lists (sorted, then deduplicated) and starts
     * with an empty cache.
     */
    constructor (initial: map<R, seq<int>>)
      ensures Valid()
      ensures relation == initial
      ensures StrictlyIncreasing(eventPool) && Elems(eventPool) == AllEvents(initial)
      ensures cache == map[]
    {
      var all := FlattenEvents(initial);
      var pool := Sort(all);
      pool := Dedup(pool);
      CanonicalSpec(all);
      relation := initial;
      eventPool := pool;
      cache := map[];
    }

    /**
     * `Registry::register`: evicts every event of the batch from the cache,
     * merges the batch into the pool (extend, sort, dedup) and appends it to
     * the registrant's list, creating that list if the registrant is new.
     */
    method Register(registrant: R, events: seq<int>)
      requires Valid()
      modifies this
      ensures Valid()
      ensures relation == Subscribe(old(relation), registrant, events)
      ensures eventPool == Canonical(old(eventPool) + events)
      ensures Elems(eventPool) == Elems(old(eventPool)) + Elems(events)
      ensures cache.Keys == old(cache).Keys - Elems(events)
      ensures forall e :: e in cache ==> cache[e] == old(cache)[e]
    {
      var i := 0;
      while i < |events|
        invariant 0 <= i <= |events|
        invariant cache == old(cache) - Elems(events[..i])
        invariant relation == old(relation) && eventPool == old(eventPool)
      {
        assert Elems(events[..i + 1]) == Elems(events[..i]) + {events[i]} by {
          assert events[..i + 1] == events[..i] + [events[i]];
        }
        cache := cache - {events[i]};
        i := i + 1;
      }
      assert events[..i] == events;

      ghost var merged := eventPool + events;
      eventPool := eventPool + events;
      eventPool := Sort(eventPool);
      eventPool := Dedup(eventPool);
      CanonicalSpec(merged);

      EvictionKeepsCoherence(relation, old(cache), registrant, events);
      SubscribeAllEvents(relation, registrant, events);
      relation := Subscribe(relation, registrant, events);
    }

    /** `get_registrant_from_cache`: the memoised registrants of `event`, if any. */
    function GetRegistrantFromCache(event: int): (found: Option<seq<R>>)
      reads this
      requires Valid()
      ensures found.Some? <==> event in cache
      ensures found.Some? ==>
        found.value != [] && NoDup(found.value) && Elems(found.value) == Subscribers(relation, event)
    {
      if event in cache then Some(cache[event]) else None
    }

    /**
     * `find_registrants_by_event`: answers from the cache when `event` is a
     * key; otherwise scans the relation and, when anyone subscribes, memoises
     * the answer under the matched event. An event nobody subscribes to gives
     * the empty list and leaves the cache as it was.
     */
    method FindRegistrantsByEvent(event: int) returns (registrants: seq<R>)
      requires Valid()
      modifies this
      ensures Valid()
      ensures relation == old(relation) && eventPool == old(eventPool)
      ensures Elems(registrants) == Subscribers(relation, event) && NoDup(registrants)
      ensures event in old(cache) ==> registrants == old(cache)[event] && cache == old(cache)
      ensures event !in old(cache) && registrants == [] ==> cache == old(cache)
      ensures event !in old(cache) && registrants != [] ==> cache == old(cache)[event := registrants]
    {
      if event in cache {
        return GetRegistrantFromCache(event).value;
      }
      var found, matched := Scan(relation, event);
      if found == [] || matched.None? {
        return [];
      }
      cache := cache[matched.value := found];
      registrants := GetRegistrantFromCache(event).value;
    }

    /** `pool`: every subscribed event, once each, in increasing order. */
    function Pool(): (pool: seq<int>)
      reads this
      requires Valid()
      ensures StrictlyIncreasing(pool)
      ensures Elems(pool) == AllEvents(relation)
    {
      eventPool
    }
  }
}
