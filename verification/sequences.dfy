/**
 * Facts about sequence concatenation, stated once on an arbitrary element
 * type so that the proofs about listings and documents can cite them.
 */
module Sequences {

  lemma AppendAssoc<T>(t: seq<T>, a: seq<T>, b: seq<T>)
    ensures (t + a) + b == t + (a + b)
  {
  }

  lemma AppendParts<T>(a: seq<T>, b: seq<T>)
    ensures a == [] ==> a + b == b
    ensures a != [] ==> (a + b)[0] == a[0] && (a + b)[1..] == a[1..] + b
  {
  }

  lemma SliceOfMiddle<T>(x: seq<T>, y: seq<T>, z: seq<T>)
    ensures (x + y + z)[..|x|] == x
    ensures (x + y + z)[|x|..|x| + |y|] == y
  {
  }

  lemma SplitAt<T>(s: seq<T>, k: nat)
    requires k < |s|
    ensures s == s[..k] + [s[k]] + s[k + 1..]
    ensures s[..k + 1] == s[..k] + [s[k]]
    ensures s == s[..k + 1] + s[k + 1..]
  {
  }

  lemma WholePrefixes<T>(s: seq<T>)
    ensures s[..0] == [] && s[..|s|] == s
  {
  }

  lemma SliceOfEnd<T>(x: seq<T>, y: seq<T>)
    ensures (x + y)[|x|..] == y
  {
  }
}
