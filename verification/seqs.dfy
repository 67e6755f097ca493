/** Sequence reversal, the order in which the store hands back its rows. */
module Seqs {

  /** The sequence read from its last element to its first. */
  function Reverse<T>(s: seq<T>): (r: seq<T>)
    ensures |r| == |s|
    ensures forall i :: 0 <= i < |s| ==> r[i] == s[|s| - 1 - i]
  {
    if |s| == 0 then [] else Reverse(s[1..]) + [s[0]]
  }

  /** Reversing keeps every element with its multiplicity. */
  lemma {:induction false} ReversePermutes<T>(s: seq<T>)
    ensures multiset(Reverse(s)) == multiset(s)
  {
    if |s| > 0 {
      ReversePermutes(s[1..]);
      assert s == [s[0]] + s[1..];
    }
  }

  /** Appending at the back of the input puts the element at the front of the
      reversal. */
  lemma ReverseSnoc<T>(s: seq<T>, x: T)
    ensures Reverse(s + [x]) == [x] + Reverse(s)
  {
  }

  /** The rest of a non-empty sequence holds its elements minus the first. */
  lemma MultisetTail<T>(s: seq<T>)
    requires |s| > 0
    ensures multiset(s[1..]) == multiset(s) - multiset{s[0]}
  {
    assert s == [s[0]] + s[1..];
  }
}
