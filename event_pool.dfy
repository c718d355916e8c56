/**
 * The event pool of a registry is kept sorted and deduplicated: after every
 * extension the registry calls `Vec::sort` and then `Vec::dedup`. This module
 * gives those two library operations a definition (`Sort`, `Dedup`) and proves
 * what the registry relies on: the result is strictly increasing and holds
 * exactly the values of its input.
 */
module EventPool {
  import opened Seqs

  ghost predicate Sorted(s: seq<int>)
  {
    forall i, j :: 0 <= i < j < |s| ==> s[i] <= s[j]
  }

  /** Sorted with no repeated value. */
  ghost predicate StrictlyIncreasing(s: seq<int>)
  {
    forall i, j :: 0 <= i < j < |s| ==> s[i] < s[j]
  }

  /** Puts `x` into the sorted sequence `s` in front of the first larger-or-equal value. */
  function Insert(x: int, s: seq<int>): (r: seq<int>)
    ensures multiset(r) == multiset(s) + multiset{x}
    ensures r[0] == if s != [] && s[0] < x then s[0] else x
  {
    if s == [] then [x]
    else if x <= s[0] then [x] + s
    else
      assert s == [s[0]] + s[1..];
      [s[0]] + Insert(x, s[1..])
  }

  lemma {:induction false} InsertSorted(x: int, s: seq<int>)
    requires Sorted(s)
    ensures Sorted(Insert(x, s))
  {
    if s != [] && x > s[0] {
      InsertSorted(x, s[1..]);
    }
  }

  /** `Vec::sort` on a vector of events: an ascending permutation of the input. */
  function Sort(s: seq<int>): (r: seq<int>)
    ensures multiset(r) == multiset(s)
  {
    if s == [] then []
    else
      assert s == [s[0]] + s[1..];
      Insert(s[0], Sort(s[1..]))
  }

  lemma {:induction false} SortSorted(s: seq<int>)
    ensures Sorted(Sort(s))
  {
    if s != [] {
      SortSorted(s[1..]);
      InsertSorted(s[0], Sort(s[1..]));
    }
  }

  /**
   * `Vec::dedup`: keeps the first value of every run of equal adjacent values,
   * so no two neighbours of the result are equal.
   */
  function Dedup(s: seq<int>): (r: seq<int>)
    ensures s != [] ==> r != [] && r[0] == s[0]
    ensures forall i :: 0 <= i < |r| - 1 ==> r[i] != r[i + 1]
  {
    if |s| <= 1 then s
    else if s[0] == s[1] then Dedup(s[1..])
    else [s[0]] + Dedup(s[1..])
  }

  /** Deduplication drops repeated values only. */
  lemma {:induction false} DedupElems(s: seq<int>)
    ensures Elems(Dedup(s)) == Elems(s)
  {
    if |s| > 1 {
      DedupElems(s[1..]);
      assert s == [s[0]] + s[1..];
      assert Elems(s) == {s[0]} + Elems(s[1..]);
      if s[0] != s[1] {
        assert Elems([s[0]] + Dedup(s[1..])) == {s[0]} + Elems(Dedup(s[1..]));
      }
    }
  }

  /** On a sorted sequence, deduplication yields a strictly increasing one. */
  lemma {:induction false} DedupStrictlyIncreasing(s: seq<int>)
    requires Sorted(s)
    ensures StrictlyIncreasing(Dedup(s))
  {
    if |s| > 1 {
      DedupStrictlyIncreasing(s[1..]);
      if s[0] != s[1] {
        var t := Dedup(s[1..]);
        DedupElems(s[1..]);
        forall k | 0 <= k < |t| ensures s[0] < t[k] {
          assert t[k] in Elems(s[1..]);
        }
      }
    }
  }

  /** The pool made from a list of events: sorted, then deduplicated. */
  function Canonical(s: seq<int>): (r: seq<int>)
  {
    Dedup(Sort(s))
  }

  lemma CanonicalSpec(s: seq<int>)
    ensures StrictlyIncreasing(Canonical(s))
    ensures Elems(Canonical(s)) == Elems(s)
  {
    var t := Sort(s);
    SortSorted(s);
    DedupStrictlyIncreasing(t);
    DedupElems(t);
    forall x ensures x in t <==> x in s {
      assert x in t <==> x in multiset(t);
    }
    assert Elems(t) == Elems(s);
  }

  /**
   * A sorted sequence is determined by its multiset of values, so any correct
   * sorting routine, the standard library's included, produces the same sequence as `Sort`.
   */
  lemma {:induction false} SortedPermutationUnique(a: seq<int>, b: seq<int>)
    requires Sorted(a) && Sorted(b)
    requires multiset(a) == multiset(b)
    ensures a == b
  {
    if a == [] {
      assert |b| == |multiset(b)| == 0;
    } else {
      assert b != [] && a[0] == b[0] by {
        assert a[0] in multiset(b);
        SortedHeadIsLeast(a, b[0]);
        SortedHeadIsLeast(b, a[0]);
      }
      DropHead(a, b);
      SortedPermutationUnique(a[1..], b[1..]);
    }
  }

  /** Removing an equal head from two permutations of each other leaves permutations. */
  lemma DropHead(a: seq<int>, b: seq<int>)
    requires a != [] && b != [] && a[0] == b[0]
    requires multiset(a) == multiset(b)
    ensures multiset(a[1..]) == multiset(b[1..])
  {
    assert a == [a[0]] + a[1..] && b == [b[0]] + b[1..];
    assert multiset(a[1..]) == multiset(a) - multiset{a[0]};
    assert multiset(b[1..]) == multiset(b) - multiset{b[0]};
  }

  /** The head of a sorted sequence is its least value. */
  lemma SortedHeadIsLeast(s: seq<int>, x: int)
    requires Sorted(s) && x in multiset(s)
    ensures s[0] <= x
  {
    assert x in s;
  }

  /** Two strictly increasing sequences with the same values are equal. */
  lemma {:induction false} StrictlyIncreasingUnique(a: seq<int>, b: seq<int>)
    requires StrictlyIncreasing(a) && StrictlyIncreasing(b)
    requires Elems(a) == Elems(b)
    ensures a == b
  {
    if a == [] {
      ElemsEmpty(b);
    } else {
      assert a[0] in Elems(a);
      assert b != [];
      assert b[0] in Elems(b);
      assert a[0] == b[0];
      assert a == [a[0]] + a[1..] && b == [b[0]] + b[1..];
      forall x ensures x in Elems(a[1..]) <==> x in Elems(b[1..]) {
        assert x in Elems(a[1..]) <==> x in Elems(a) && x > a[0];
        assert x in Elems(b[1..]) <==> x in Elems(b) && x > b[0];
      }
      StrictlyIncreasingUnique(a[1..], b[1..]);
    }
  }
}
