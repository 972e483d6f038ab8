/** Facts about sequences of any element type, stated once so that the
    proofs about tables and reports do not redo them for each element type. */
module Sequences {
  lemma AppendAssoc<T>(a: seq<T>, b: seq<T>, c: seq<T>)
    ensures (a + b) + c == a + (b + c)
  {
  }

  lemma TakeOneMore<T>(s: seq<T>, i: nat)
    requires i < |s|
    ensures s[..i + 1] == s[..i] + [s[i]]
    ensures s[..i + 1][..i] == s[..i]
  {
  }

  lemma TakeAll<T>(s: seq<T>)
    ensures s[..|s|] == s
  {
  }

  lemma UpdateLeft<T>(a: seq<T>, b: seq<T>, k: nat, x: T)
    requires k < |a|
    ensures (a + b)[k := x] == a[k := x] + b
  {
  }

  lemma UpdateRight<T>(a: seq<T>, b: seq<T>, k: nat, x: T)
    requires |a| <= k < |a| + |b|
    ensures (a + b)[k := x] == a + b[k - |a| := x]
  {
  }
}
