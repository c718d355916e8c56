/**
 * The relation of a registry: each registrant owns the list of events it
 * subscribed to. This module holds the value-level view of that map (who
 * subscribes to an event, which events occur at all, how a registration
 * changes it) and the two scans the registry runs over it.
 *
 * `HashMap` iteration order is unspecified, so both scans take the keys in
 * an arbitrary order (`:|`) and their contracts do not depend on it.
 */
module Relation {
  import opened Seqs
  import opened Wrappers

  /** The registrants among `keys` whose list contains `event`. */
  ghost function SubscribersAmong<R>(rel: map<R, seq<int>>, keys: set<R>, event: int): set<R>
  {
    set r | r in keys && r in rel && event in rel[r]
  }

  /** Every registrant whose list contains `event`. */
  ghost function Subscribers<R>(rel: map<R, seq<int>>, event: int): set<R>
  {
    SubscribersAmong(rel, rel.Keys, event)
  }

  /** The events in the lists of the registrants among `keys`. */
  ghost function EventsAmong<R>(rel: map<R, seq<int>>, keys: set<R>): set<int>
  {
    set r, e | r in keys && r in rel && e in rel[r] :: e
  }

  /** Every event some registrant subscribes to. */
  ghost function AllEvents<R>(rel: map<R, seq<int>>): set<int>
  {
    EventsAmong(rel, rel.Keys)
  }

  /**
   * `relation.entry(r).and_modify(extend).or_insert(events)`: the registrant's
   * list grows by `events`, or is `events` when the registrant is new.
   */
  function Subscribe<R>(rel: map<R, seq<int>>, r: R, events: seq<int>): (rel': map<R, seq<int>>)
    ensures rel'.Keys == rel.Keys + {r}
    ensures rel'[r] == (if r in rel then rel[r] else []) + events
    ensures forall q :: q in rel && q != r ==> rel'[q] == rel[q]
  {
    if r in rel then rel[r := rel[r] + events] else rel[r := events]
  }

  /** A registration adds the registrant to the subscribers of exactly the events it names. */
  lemma SubscribeSubscribers<R>(rel: map<R, seq<int>>, r: R, events: seq<int>, event: int)
    ensures Subscribers(Subscribe(rel, r, events), event)
         == if event in events then Subscribers(rel, event) + {r} else Subscribers(rel, event)
  {
    var rel' := Subscribe(rel, r, events);
    assert event in rel'[r] <==> event in events || (r in rel && event in rel[r]);
  }

  /** A registration adds exactly its events to the events of the relation. */
  lemma SubscribeAllEvents<R>(rel: map<R, seq<int>>, r: R, events: seq<int>)
    ensures AllEvents(Subscribe(rel, r, events)) == AllEvents(rel) + Elems(events)
  {
    var rel' := Subscribe(rel, r, events);
    forall e ensures e in AllEvents(rel') <==> e in AllEvents(rel) || e in events {
      if e in AllEvents(rel') {
        var q :| q in rel' && e in rel'[q];
        if q != r {
          assert e in AllEvents(rel);
        }
      }
      if e in AllEvents(rel) {
        var q :| q in rel && e in rel[q];
        assert e in rel'[q];
      }
      if e in events {
        assert e in rel'[r];
      }
    }
  }

  /**
   * `events.iter().find(|subscribed| subscribed == event)`: the first entry of
   * the list equal to `event`, if any.
   */
  method FindSubscribed(events: seq<int>, event: int) returns (found: Option<int>)
    ensures found.Some? <==> event in events
    ensures found.Some? ==> found.value == event
  {
    var i := 0;
    while i < |events|
      invariant 0 <= i <= |events|
      invariant event !in events[..i]
    {
      if events[i] == event {
        return Some(events[i]);
      }
      i := i + 1;
    }
    assert events[..i] == events;
    return None;
  }

  /**
   * The scan of `find_registrants_by_event`: walks the relation once and
   * collects every registrant whose list holds `event`, remembering the
   * matching entry (the last one seen) for use as the cache key.
   */
  method Scan<R>(rel: map<R, seq<int>>, event: int) returns (registrants: seq<R>, matched: Option<int>)
    ensures Elems(registrants) == Subscribers(rel, event)
    ensures NoDup(registrants)
    ensures matched.Some? <==> registrants != []
    ensures matched.Some? ==> matched.value == event
  {
    var pending := rel.Keys;
    registrants, matched := [], None;
    while pending != {}
      invariant pending <= rel.Keys
      invariant Elems(registrants) == SubscribersAmong(rel, rel.Keys - pending, event)
      invariant NoDup(registrants)
      invariant matched.Some? <==> registrants != []
      invariant matched.Some? ==> matched.value == event
      decreases pending
    {
      var r :| r in pending;
      var found := FindSubscribed(rel[r], event);
      if found.Some? {
        assert r !in Elems(registrants);
        matched := found;
        registrants := registrants + [r];
      }
      assert SubscribersAmong(rel, rel.Keys - (pending - {r}), event)
          == SubscribersAmong(rel, rel.Keys - pending, event) + (if event in rel[r] then {r} else {});
      pending := pending - {r};
    }
    assert rel.Keys - pending == rel.Keys;
  }

  /**
   * `relation.values().flatten()` collected into a vector: every list of the
   * relation, one after another in iteration order.
   */
  method FlattenEvents<R>(rel: map<R, seq<int>>) returns (all: seq<int>)
    ensures Elems(all) == AllEvents(rel)
  {
    var pending := rel.Keys;
    all := [];
    while pending != {}
      invariant pending <= rel.Keys
      invariant Elems(all) == EventsAmong(rel, rel.Keys - pending)
      decreases pending
    {
      var r :| r in pending;
      forall e ensures e in EventsAmong(rel, rel.Keys - (pending - {r}))
                   <==> e in EventsAmong(rel, rel.Keys - pending) || e in rel[r]
      {
        if e in EventsAmong(rel, rel.Keys - (pending - {r})) {
          var q :| q in rel.Keys - (pending - {r}) && e in rel[q];
          if q != r {
            assert e in EventsAmong(rel, rel.Keys - pending);
          }
        }
      }
      all := all + rel[r];
      pending := pending - {r};
    }
    assert rel.Keys - pending == rel.Keys;
  }
}
