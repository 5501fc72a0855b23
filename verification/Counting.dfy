/** How many of the first n numbers have a property. */
module Counting {
  ghost function HowMany(n: nat, p: nat -> bool): nat { |set k: nat | k < n && p(k)| }

  lemma NoneOfNone(p: nat -> bool)
    ensures HowMany(0, p) == 0
  {
    assert (set k: nat | k < 0 && p(k)) == {};
  }

  lemma OneMore(n: nat, p: nat -> bool)
    ensures HowMany(n + 1, p) == HowMany(n, p) + if p(n) then 1 else 0
  {
    var before, after := (set k: nat | k < n && p(k)), set k: nat | k < n + 1 && p(k);
    assert after == if p(n) then before + {n} else before;
  }

  lemma SomeCounted(n: nat, p: nat -> bool, k: nat)
    requires k < n && p(k)
    ensures HowMany(n, p) > 0
  {
    var counted := set i: nat | i < n && p(i);
    assert k in counted;
  }
}
