/** Facts about sequence concatenation, proved once for every element type so that the
    proofs that use them need not reason about sequence equality themselves. */
module Sequences {

  lemma AppendEmpty<T>(s: seq<T>)
    ensures s + [] == s && [] + s == s
  {
  }

  lemma DropLastOfAppend<T>(a: seq<T>, b: seq<T>)
    requires b != []
    ensures (a + b)[..|a + b| - 1] == a + b[..|b| - 1]
    ensures (a + b)[|a + b| - 1] == b[|b| - 1]
  {
  }

  lemma DropFirstOfAppend<T>(a: seq<T>, b: seq<T>)
    requires a != []
    ensures (a + b)[0] == a[0] && (a + b)[1..] == a[1..] + b
  {
  }

  lemma Pair<T>(x: T, y: T)
    ensures [x] + [y] == [x, y]
  {
  }

  lemma Assoc3<T>(x: seq<T>, y: seq<T>, z: seq<T>)
    ensures x + (y + z) == x + y + z
  {
  }

  lemma PrefixStep<T>(v: seq<T>, s: seq<T>, k: int)
    requires 0 <= k < |s|
    ensures v + s[..k + 1] == (v + s[..k]) + [s[k]]
    ensures (v + s[..k + 1]) + s[k + 1..] == v + s
  {
    assert s == s[..k + 1] + s[k + 1..];
  }
}
