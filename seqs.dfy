/** Small vocabulary over sequences shared by the other modules. */
module Seqs {
  /** The set of values a sequence holds. */
  ghost function Elems<T>(s: seq<T>): set<T>
  {
    set x | x in s
  }

  /** No value occurs twice in the sequence. */
  ghost predicate NoDup<T>(s: seq<T>)
  {
    forall i, j :: 0 <= i < j < |s| ==> s[i] != s[j]
  }

  /** Only the empty sequence holds no value. */
  lemma ElemsEmpty<T>(s: seq<T>)
    ensures Elems(s) == {} <==> s == []
  {
    if s != [] {
      assert s[0] in Elems(s);
    }
  }

  /** A sequence without repetition has as many values as entries. */
  lemma {:induction false} NoDupCardinality<T>(s: seq<T>)
    requires NoDup(s)
    ensures |Elems(s)| == |s|
  {
    if s != [] {
      assert Elems(s) == Elems(s[1..]) + {s[0]};
      assert s[0] !in Elems(s[1..]);
      NoDupCardinality(s[1..]);
    }
  }
}
