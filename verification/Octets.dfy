/** Bytes, and pieces of a byte stream put back together. */
module Octets {
  newtype byte = b: int | 0 <= b < 256

  type Bytes = seq<byte>

  function Concat(parts: seq<Bytes>): Bytes {
    if parts == [] then [] else parts[0] + Concat(parts[1..])
  }

  lemma {:induction false} ConcatMore(parts: seq<Bytes>, last: Bytes)
    ensures Concat(parts + [last]) == Concat(parts) + last
  {
    if parts == [] {
      assert parts + [last] == [last] && [last][1..] == [];
    } else {
      assert (parts + [last])[0] == parts[0] && (parts + [last])[1..] == parts[1..] + [last];
      ConcatMore(parts[1..], last);
    }
  }

  /** Every byte of a part is a byte of the whole. */
  lemma {:induction false} PartOfConcat(parts: seq<Bytes>, i: nat, j: nat)
    requires i < |parts| && j < |parts[i]|
    ensures exists k :: 0 <= k < |Concat(parts)| && Concat(parts)[k] == parts[i][j]
  {
    if i == 0 {
      assert Concat(parts)[j] == parts[0][j];
    } else {
      PartOfConcat(parts[1..], i - 1, j);
      var later := Concat(parts[1..]);
      var k :| 0 <= k < |later| && later[k] == parts[i][j];
      assert Concat(parts)[|parts[0]| + k] == later[k];
    }
  }
}
