/** A few facts about sequences, kept apart from what the sequences hold. */
module Sequences {
  lemma NothingMore<T>(a: seq<T>)
    ensures a + [] == a && [] + a == a
  {
  }

  lemma LastApart<T>(a: seq<T>, b: seq<T>)
    requires b != []
    ensures var k := |b| - 1;
            b == b[..k] + [b[k]] && a + b == a + b[..k] + [b[k]]
  {
  }

  lemma FiveInARow<T>(a: T, b: T, c: T, d: T, e: T)
    ensures [] + [a] == [a] && [a] + [b] == [a, b] && [a, b] + [c] == [a, b, c]
    ensures [a, b, c] + [d] == [a, b, c, d] && [a, b, c, d] + [e] == [a, b, c, d, e]
  {
  }

  lemma HeadApart<T>(a: seq<T>)
    requires a != []
    ensures a == [a[0]] + a[1..]
  {
  }

  lemma PrefixBeyond<T>(a: seq<T>, b: seq<T>, k: nat)
    requires |a| <= k <= |a| + |b|
    ensures (a + b)[..k] == a + b[..k - |a|]
  {
  }

  lemma PrefixMore<T>(a: seq<T>, i: nat)
    requires i < |a|
    ensures a[..i + 1] == a[..i] + [a[i]] && a[..i + 1][..i] == a[..i]
  {
  }

  lemma PrefixOfPrefix<T>(a: seq<T>, j: nat, k: nat)
    requires j <= k <= |a|
    ensures a[..k][..j] == a[..j]
  {
  }

  lemma WholePrefix<T>(a: seq<T>)
    ensures a[..|a|] == a
  {
  }

  lemma Reassociate<T>(a: seq<T>, b: seq<T>, c: seq<T>)
    ensures a + (b + c) == a + b + c
  {
  }

  lemma PrefixStays<T>(a: seq<T>, x: T, k: nat)
    requires k <= |a|
    ensures (a + [x])[..k] == a[..k] && |a + [x]| == |a| + 1
  {
  }

  lemma Grown<T>(a: seq<T>, x: T)
    ensures (a + [x])[..|a|] == a && (a + [x])[|a|] == x
  {
  }
}
