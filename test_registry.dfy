/**
 * The scenario of the registry's unit test, replayed against the class's
 * contracts: two registrants, lookups of an unknown, a single-subscriber and
 * a shared event, then a registration that must evict the stale entry.
 */
module EventTest {
  import opened Seqs
  import opened EventPool
  import opened Relation
  import opened Event

  /** The values of the test's initial relation, and who subscribes to 7, 8 and 2. */
  lemma InitialRelation(rel: map<string, seq<int>>)
    requires rel == map["foo" := [1, 2, 3], "bar" := [9, 2, 8, 1]]
    ensures AllEvents(rel) == {1, 2, 3, 8, 9}
    ensures Subscribers(rel, 7) == {}
    ensures Subscribers(rel, 8) == {"bar"}
    ensures Subscribers(rel, 2) == {"foo", "bar"}
  {
    assert rel.Keys == {"foo", "bar"};
    assert "foo" != "bar" by { assert "foo"[0] != "bar"[0]; }
    forall e ensures e in AllEvents(rel) <==> e in {1, 2, 3, 8, 9} {
      if e in {1, 2, 3} {
        assert e in rel["foo"];
      }
      if e in {8, 9} {
        assert e in rel["bar"];
      }
    }
  }

  /** Who subscribes to 2 once "baz" has registered for 2, 6 and 7 */
  lemma AfterRegistration(rel: map<string, seq<int>>)
    requires rel == map["foo" := [1, 2, 3], "bar" := [9, 2, 8, 1]]
    ensures Subscribers(Subscribe(rel, "baz", [2, 6, 7]), 2) == {"foo", "bar", "baz"}
  {
    InitialRelation(rel);
    SubscribeSubscribers(rel, "baz", [2, 6, 7], 2);
  }

  /** The only pool a registration of 2, 6 and 7 can leave behind `[1, 2, 3, 8, 9]`. */
  lemma MergedPool(pool: seq<int>)
    requires StrictlyIncreasing(pool)
    requires Elems(pool) == Elems([1, 2, 3, 8, 9]) + Elems([2, 6, 7])
    ensures pool == [1, 2, 3, 6, 7, 8, 9]
  {
    assert Elems([1, 2, 3, 8, 9]) + Elems([2, 6, 7]) == Elems([1, 2, 3, 6, 7, 8, 9]);
    StrictlyIncreasingUnique(pool, [1, 2, 3, 6, 7, 8, 9]);
  }

  /** A list without repetition that holds only `x` is `[x]`. */
  lemma SingleElement<T>(s: seq<T>, x: T)
    requires NoDup(s) && Elems(s) == {x}
    ensures s == [x]
  {
    assert s[0] in Elems(s) && s[|s| - 1] in Elems(s);
    assert s[0] == s[|s| - 1];
  }

  /** `Registry::new` on the test's relation, and the pool it reports. */
  method NewScenario() returns (registry: Registry<string>)
    ensures fresh(registry) && registry.Valid()
    ensures registry.relation == map["foo" := [1, 2, 3], "bar" := [9, 2, 8, 1]]
    ensures registry.Pool() == [1, 2, 3, 8, 9]
    ensures registry.cache == map[]
  {
    var rel := map["foo" := [1, 2, 3], "bar" := [9, 2, 8, 1]];
    InitialRelation(rel);
    registry := new Registry(rel);
    var pool := registry.Pool();
    StrictlyIncreasingUnique(pool, [1, 2, 3, 8, 9]);
  }

  /**
   * Lookups of an unknown event (7: empty, nothing cached), a single-subscriber
   * event (8: exactly "bar") and a shared event (2: "foo" and "bar"), which
   * leave two cache entries.
   */
  method LookupScenario() returns (registry: Registry<string>)
    ensures fresh(registry) && registry.Valid()
    ensures registry.relation == map["foo" := [1, 2, 3], "bar" := [9, 2, 8, 1]]
    ensures registry.Pool() == [1, 2, 3, 8, 9]
    ensures registry.cache.Keys == {8, 2}
  {
    registry := NewScenario();
    InitialRelation(registry.relation);

    var found := registry.FindRegistrantsByEvent(7);
    assert found == [] by {
      ElemsEmpty(found);
    }

    found := registry.FindRegistrantsByEvent(8);
    assert found == ["bar"] by {
      SingleElement(found, "bar");
    }

    found := registry.FindRegistrantsByEvent(2);
    assert "foo" in found && "bar" in found;
  }

  /** "baz" registers for 2, 6 and 7: the pool grows and the entry for 2 is evicted. */
  method RegisterScenario() returns (registry: Registry<string>)
    ensures fresh(registry) && registry.Valid()
    ensures Subscribers(registry.relation, 2) == {"foo", "bar", "baz"}
    ensures registry.Pool() == [1, 2, 3, 6, 7, 8, 9]
    ensures registry.cache.Keys == {8}
  {
    registry := LookupScenario();
    AfterRegistration(registry.relation);
    ghost var batch := Elems([2, 6, 7]);
    assert 2 in batch && 8 !in batch;
    registry.Register("baz", [2, 6, 7]);
    MergedPool(registry.Pool());
  }

  /**
   * The whole test: after the registration, looking 2 up again recomputes
   * the evicted entry from the grown relation, and the cache is back to two
   * entries.
   */
  method TestRegistry() returns (registrants: seq<string>, pool: seq<int>, cacheSize: nat)
    ensures Elems(registrants) == {"foo", "bar", "baz"} && |registrants| == 3
    ensures pool == [1, 2, 3, 6, 7, 8, 9]
    ensures cacheSize == 2
  {
    var registry := RegisterScenario();
    ghost var evicted := registry.cache;
    registrants := registry.FindRegistrantsByEvent(2);
    pool := registry.Pool();
    assert registrants != [] by {
      assert "baz" in Elems(registrants);
    }
    cacheSize := |registry.cache|;
    assert cacheSize == 2 by {
      assert registry.cache.Keys == {8, 2};
      assert |registry.cache.Keys| == 2;
    }
    NoDupCardinality(registrants);
    assert |{"foo", "bar", "baz"}| == 3 by {
      assert "foo"[0] != "bar"[0] && "bar"[2] != "baz"[2] && "foo"[0] != "baz"[0];
    }
  }
}
