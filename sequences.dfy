/** Small facts about sequence concatenation, stated once so that the
    proofs about strings and lists of declarations can cite them. */
module Sequences {

  lemma AppendAssoc<T>(a: seq<T>, b: seq<T>, c: seq<T>)
    ensures (a + b) + c == a + (b + c)
  {
  }

  lemma Snoc<T>(a: seq<T>, x: T)
    ensures |a + [x]| == |a| + 1
    ensures (a + [x])[..|a|] == a && (a + [x])[|a|] == x
  {
  }

  lemma Cons<T>(x: T, a: seq<T>)
    ensures ([x] + a)[0] == x && ([x] + a)[1..] == a
  {
  }

  /** The parts of a three-way concatenation can be read back by slicing. */
  lemma ThreeParts<T>(a: seq<T>, b: seq<T>, c: seq<T>)
    ensures var s := a + b + c;
            |s| == |a| + |b| + |c|
            && s[..|a|] == a && s[|a| + |b|..] == c
            && forall j :: 0 <= j < |b| ==> s[|a| + j] == b[j]
  {
  }
}
