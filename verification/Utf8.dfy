/** UTF-8 and its lossy decoding, chunk by chunk. */
module Utf8 {
  import opened Octets
  import opened Sequences

  /** One to four bytes (section 3 of RFC 3629). */
  function EncodeChar(c: char): (b: Bytes)
    ensures 1 <= |b| <= 4
  {
    var n := c as int;
    var m := n / 64;
    if n < 0x80 then [n as byte]
    else if n < 0x800 then [(0xC0 + m) as byte, (0x80 + n % 64) as byte]
    else if n < 0x10000 then [(0xE0 + m / 64) as byte, (0x80 + m % 64) as byte, (0x80 + n % 64) as byte]
    else [(0xF0 + m / 64 / 64) as byte, (0x80 + m / 64 % 64) as byte, (0x80 + m % 64) as byte, (0x80 + n % 64) as byte]
  }

  function Encode(s: string): Bytes {
    if s == "" then [] else EncodeChar(s[0]) + Encode(s[1..])
  }

  // ---- no encoding is the start of another ----

  function LengthFrom(first: byte): nat {
    if first < 0x80 then 1 else if first < 0xE0 then 2 else if first < 0xF0 then 3 else 4
  }

  lemma FirstByteTells(c: char)
    ensures |EncodeChar(c)| == LengthFrom(EncodeChar(c)[0])
  {
  }

  function CharOf(b: Bytes): int {
    if |b| == 1 then b[0] as int
    else if |b| == 2 then (b[0] as int - 0xC0) * 64 + (b[1] as int - 0x80)
    else if |b| == 3 then ((b[0] as int - 0xE0) * 64 + (b[1] as int - 0x80)) * 64 + (b[2] as int - 0x80)
    else if |b| == 4 then
      (((b[0] as int - 0xF0) * 64 + (b[1] as int - 0x80)) * 64 + (b[2] as int - 0x80)) * 64 + (b[3] as int - 0x80)
    else 0
  }

  lemma CharComesBack(c: char)
    ensures CharOf(EncodeChar(c)) == c as int
  {
    var n := c as int;
    var m := n / 64;
    assert n == m * 64 + n % 64 && m == m / 64 * 64 + m % 64 && m / 64 == m / 64 / 64 * 64 + m / 64 % 64;
  }

  predicate Continues(b: byte) { 0x80 <= b <= 0xBF }

  /** The byte ranges of section 4 of RFC 3629; with `CharComesBack` they fix every byte. */
  lemma EncodingIsStandard(c: char)
    ensures var n, b := c as int, EncodeChar(c);
            && (n <= 0x7F ==> |b| == 1 && b[0] as int == n)
            && (0x80 <= n <= 0x7FF ==> |b| == 2 && 0xC2 <= b[0] <= 0xDF && Continues(b[1]))
            && (0x800 <= n <= 0xFFFF ==> |b| == 3 && 0xE0 <= b[0] <= 0xEF && Continues(b[1]) && Continues(b[2]))
            && (0x10000 <= n ==>
                  |b| == 4 && 0xF0 <= b[0] <= 0xF4 && Continues(b[1]) && Continues(b[2]) && Continues(b[3]))
            && CharOf(b) == n
  {
    CharComesBack(c);
  }

  lemma PrefixFree(c: char, d: char, b: Bytes)
    requires EncodeChar(c) <= b && EncodeChar(d) <= b
    ensures c == d
  {
    FirstByteTells(c);
    FirstByteTells(d);
    assert EncodeChar(c) == EncodeChar(d);
    CharComesBack(c);
    CharComesBack(d);
  }

  lemma {:induction false} EncodeAppend(s: string, t: string)
    ensures Encode(s + t) == Encode(s) + Encode(t)
  {
    if s == "" {
      NothingMore(t);
    } else {
      assert (s + t)[0] == s[0] && (s + t)[1..] == s[1..] + t;
      EncodeAppend(s[1..], t);
    }
  }

  /** Whole characters at the start of two texts' bytes agree. */
  lemma {:induction false} EncodePrefix(s: string, t: string)
    requires Encode(s) <= Encode(t)
    ensures s <= t
  {
    if s != "" {
      assert Encode(t) != [];
      PrefixFree(s[0], t[0], Encode(t));
      assert Encode(s)[|EncodeChar(s[0])|..] == Encode(s[1..]);
      assert Encode(t)[|EncodeChar(s[0])|..] == Encode(t[1..]);
      EncodePrefix(s[1..], t[1..]);
    }
  }

  lemma EncodeInjective(s: string, t: string)
    requires Encode(s) == Encode(t)
    ensures s == t
  {
    EncodePrefix(s, t);
    EncodePrefix(t, s);
  }

  /** The bytes of some text. */
  ghost predicate Whole(b: Bytes) { exists s: string :: Encode(s) == b }

  /** A character cut short. */
  ghost predicate Truncated(b: Bytes, c: char) { b != [] && b < EncodeChar(c) }

  lemma TruncatedIsNotWhole(b: Bytes, c: char)
    requires Truncated(b, c)
    ensures !Whole(b)
  {
    if Whole(b) {
      var s: string :| Encode(s) == b;
      PrefixFree(s[0], c, EncodeChar(c));
      assert false;
    }
  }

  // ---- the lossy decoder ----

  const REPLACEMENT := '\U{FFFD}'

  type ByteDecoder = Bytes -> string

  ghost predicate CutShort(f: ByteDecoder, s: string, b: Bytes) { f(Encode(s) + b) == s + [REPLACEMENT] }

  /** It inverts the encoding, marks whatever is not encoded text, and puts one mark for a character
      cut short at the end. */
  ghost predicate Lossy(f: ByteDecoder) {
    && (forall s: string :: f(Encode(s)) == s)
    && (forall b: Bytes :: Whole(b) || REPLACEMENT in f(b))
    && (forall s: string, b: Bytes, c: char :: Truncated(b, c) ==> CutShort(f, s, b))
  }

  /** A decoder of this kind: whole characters one by one, a mark and one byte further otherwise. */
  ghost function Decode(b: Bytes): string
    decreases |b|
  {
    if b == [] then ""
    else if c: char :| EncodeChar(c) <= b then [c] + Decode(b[|EncodeChar(c)|..])
    else if c: char :| Truncated(b, c) then [REPLACEMENT]
    else [REPLACEMENT] + Decode(b[1..])
  }

  lemma DecodeFirst(c: char, b: Bytes)
    ensures Decode(EncodeChar(c) + b) == [c] + Decode(b)
  {
    var all := EncodeChar(c) + b;
    assert EncodeChar(c) <= all;
    forall d: char | EncodeChar(d) <= all
      ensures d == c
    {
      PrefixFree(c, d, all);
    }
    assert all[|EncodeChar(c)|..] == b;
  }

  lemma {:induction false} DecodeText(s: string, b: Bytes)
    ensures Decode(Encode(s) + b) == s + Decode(b)
  {
    if s == "" {
      NothingMore(b);
      NothingMore(Decode(b));
    } else {
      HeadApart(s);
      Reassociate(EncodeChar(s[0]), Encode(s[1..]), b);
      Reassociate([s[0]], s[1..], Decode(b));
      DecodeFirst(s[0], Encode(s[1..]) + b);
      DecodeText(s[1..], b);
    }
  }

  lemma DecodeTruncated(b: Bytes, c: char)
    requires Truncated(b, c)
    ensures Decode(b) == [REPLACEMENT]
  {
    forall d: char
      ensures !(EncodeChar(d) <= b)
    {
      if EncodeChar(d) <= b {
        PrefixFree(c, d, EncodeChar(c));
        assert false;
      }
    }
  }

  lemma {:induction false} DecodeMarks(b: Bytes)
    ensures Whole(b) || REPLACEMENT in Decode(b)
    decreases |b|
  {
    if b == [] {
      assert Encode("") == b;
    } else if c: char :| EncodeChar(c) <= b {
      var rest := b[|EncodeChar(c)|..];
      assert b == EncodeChar(c) + rest;
      DecodeFirst(c, rest);
      DecodeMarks(rest);
      if Whole(rest) {
        var s: string :| Encode(s) == rest;
        assert ([c] + s)[1..] == s && Encode([c] + s) == b;
      } else {
        assert Decode(b)[1..] == Decode(rest);
      }
    } else {
      assert Decode(b)[0] == REPLACEMENT;
    }
  }

  /** So there are lossy decoders. */
  lemma SomeDecoderIsLossy()
    ensures Lossy(b => Decode(b))
  {
    var f: ByteDecoder := b => Decode(b);
    forall s: string
      ensures f(Encode(s)) == s
    {
      DecodeText(s, []);
      NothingMore(Encode(s));
      NothingMore(s);
    }
    forall b: Bytes
      ensures Whole(b) || REPLACEMENT in f(b)
    {
      DecodeMarks(b);
    }
    forall s: string, b: Bytes, c: char | Truncated(b, c)
      ensures CutShort(f, s, b)
    {
      DecodeText(s, b);
      DecodeTruncated(b, c);
    }
  }

  // ---- chunks ----

  /** The chunks decoded each by itself, and put together. */
  function Decoded(f: ByteDecoder, chunks: seq<Bytes>): string {
    if chunks == [] then "" else Decoded(f, chunks[..|chunks| - 1]) + f(chunks[|chunks| - 1])
  }

  ghost predicate AllWhole(chunks: seq<Bytes>) { forall i :: 0 <= i < |chunks| ==> Whole(chunks[i]) }

  lemma {:induction false} WholeChunksDecode(f: ByteDecoder, chunks: seq<Bytes>)
    requires Lossy(f) && AllWhole(chunks)
    ensures Encode(Decoded(f, chunks)) == Concat(chunks)
  {
    if chunks != [] {
      var init, last := chunks[..|chunks| - 1], chunks[|chunks| - 1];
      WholeChunksDecode(f, init);
      assert Whole(last);
      var s: string :| Encode(s) == last;
      assert f(Encode(s)) == s;
      EncodeAppend(Decoded(f, init), s);
      ConcatMore(init, last);
      LastApart([], chunks);
    }
  }

  lemma {:induction false} BrokenChunkIsMarked(f: ByteDecoder, chunks: seq<Bytes>, i: nat)
    requires Lossy(f) && i < |chunks| && !Whole(chunks[i])
    ensures REPLACEMENT in Decoded(f, chunks)
  {
    var k := |chunks| - 1;
    if i < k {
      BrokenChunkIsMarked(f, chunks[..k], i);
    }
  }

  /** The chunks of a text, decoded one by one, join to the text if none of them cuts a character,
      and only then unless the text has the mark itself. */
  lemma ChunksDecodeIffWhole(f: ByteDecoder, text: string, chunks: seq<Bytes>)
    requires Lossy(f) && Concat(chunks) == Encode(text)
    ensures AllWhole(chunks) ==> Decoded(f, chunks) == text
    ensures REPLACEMENT !in text ==> (Decoded(f, chunks) == text <==> AllWhole(chunks))
  {
    if AllWhole(chunks) {
      WholeChunksDecode(f, chunks);
      EncodeInjective(Decoded(f, chunks), text);
    } else {
      var i :| 0 <= i < |chunks| && !Whole(chunks[i]);
      BrokenChunkIsMarked(f, chunks, i);
    }
  }

  /** For instance, with its two bytes in two chunks an accented letter is lost. */
  lemma SplitLetterIsLost(f: ByteDecoder)
    requires Lossy(f)
    ensures var chunks: seq<Bytes> := [[0xC3], [0xA9]];
            Concat(chunks) == Encode("\U{00E9}") && Decoded(f, chunks) != "\U{00E9}"
  {
    var text, chunks: seq<Bytes> := "\U{00E9}", [[0xC3], [0xA9]];
    assert EncodeChar(text[0]) == [0xC3, 0xA9] && text[1..] == "";
    assert Encode(text) == [0xC3, 0xA9];
    assert chunks[1..] == [[0xA9]] && [[0xA9]][1..] == [];
    assert Concat(chunks) == [0xC3] + Concat([[0xA9]]) == [0xC3, 0xA9];
    assert Truncated(chunks[0], text[0]);
    TruncatedIsNotWhole(chunks[0], text[0]);
    ChunksDecodeIffWhole(f, text, chunks);
  }

  // ---- ASCII ----

  predicate Ascii(s: string) { forall i :: 0 <= i < |s| ==> s[i] as int < 0x80 }

  lemma {:induction false} AsciiBytes(s: string)
    requires Ascii(s)
    ensures |Encode(s)| == |s| && forall i :: 0 <= i < |s| ==> Encode(s)[i] as int == s[i] as int
  {
    if s != "" {
      AsciiBytes(s[1..]);
    }
  }

  lemma {:induction false} LowBytesAreWhole(b: Bytes)
    requires forall i :: 0 <= i < |b| ==> b[i] < 0x80
    ensures Whole(b)
  {
    if b == [] {
      assert Encode("") == b;
    } else {
      LowBytesAreWhole(b[1..]);
      var s: string :| Encode(s) == b[1..];
      var c := b[0] as int as char;
      assert EncodeChar(c) == [b[0]];
      assert ([c] + s)[1..] == s && Encode([c] + s) == b;
    }
  }

  /** Chunks of ASCII text cut no character. */
  lemma AsciiChunksAreWhole(text: string, chunks: seq<Bytes>)
    requires Ascii(text) && Concat(chunks) == Encode(text)
    ensures AllWhole(chunks)
  {
    AsciiBytes(text);
    forall i | 0 <= i < |chunks|
      ensures Whole(chunks[i])
    {
      forall j | 0 <= j < |chunks[i]|
        ensures chunks[i][j] < 0x80
      {
        PartOfConcat(chunks, i, j);
      }
      LowBytesAreWhole(chunks[i]);
    }
  }

  // ---- a stream that breaks off ----

  lemma EncodeFirst(text: string, n: nat)
    requires 0 < n <= |text|
    ensures Encode(text[..n]) == EncodeChar(text[0]) + Encode(text[1..][..n - 1])
  {
    assert text[..n][1..] == text[1..][..n - 1];
  }

  /** Wherever the bytes of a text are cut, there are whole characters before the cut and at most one
      cut short. */
  lemma {:induction false} CutText(text: string, k: nat) returns (n: nat, partial: Bytes)
    requires k <= |Encode(text)|
    ensures n <= |text| && Encode(text)[..k] == Encode(text[..n]) + partial
    ensures partial == [] || (n < |text| && Truncated(partial, text[n]))
  {
    if k == 0 {
      n, partial := 0, [];
    } else if k < |EncodeChar(text[0])| {
      n, partial := 0, EncodeChar(text[0])[..k];
      assert Encode(text)[..k] == partial;
    } else {
      var first := EncodeChar(text[0]);
      var m;
      m, partial := CutText(text[1..], k - |first|);
      n := m + 1;
      EncodeFirst(text, n);
      PrefixBeyond(first, Encode(text[1..]), k);
      Reassociate(first, Encode(text[1..][..m]), partial);
    }
  }

  lemma LongerText(text: string, n: nat, m: nat)
    requires n < m <= |text|
    ensures |Encode(text[..m])| >= |Encode(text[..n])| + |EncodeChar(text[n])|
  {
    var more := text[n..m];
    assert text[..m] == text[..n] + more && more[0] == text[n];
    EncodeAppend(text[..n], more);
  }

  /** How much of a text whole chunks before the cut have brought. */
  lemma WholeBeforeCut(text: string, n: nat, partial: Bytes, t: string)
    requires n <= |text| && (partial == [] || (n < |text| && Truncated(partial, text[n])))
    requires Encode(t) <= Encode(text[..n]) + partial <= Encode(text)
    ensures t <= text[..n]
  {
    EncodePrefix(t, text);
    assert t == text[..|t|];
    if n < |t| {
      LongerText(text, n, |t|);
    }
  }

  lemma SameTail(a: Bytes, b: Bytes, c: Bytes, d: Bytes)
    requires a + b == a + c + d
    ensures b == c + d
  {
    assert b == (a + b)[|a|..];
  }

  lemma DecodeCut(f: ByteDecoder, s: string, partial: Bytes, c: char)
    requires Lossy(f) && (partial == [] || Truncated(partial, c))
    ensures f(Encode(s) + partial) == s + if partial == [] then [] else [REPLACEMENT]
  {
    if partial == [] {
      NothingMore(Encode(s));
      NothingMore(s);
    } else {
      assert CutShort(f, s, partial);
    }
  }

  lemma SliceJoins(text: string, m: nat, n: nat)
    requires m <= n <= |text|
    ensures text[..m] + text[m..n] == text[..n]
  {
  }

  /** The last chunk holds whole characters after those of the others, and at most one cut short. */
  lemma LastChunk(text: string, t: string, last: Bytes) returns (n: nat, more: string, partial: Bytes)
    requires Encode(t) + last <= Encode(text)
    ensures n <= |text| && t + more == text[..n] && last == Encode(more) + partial
    ensures partial == [] || (n < |text| && Truncated(partial, text[n]))
  {
    var k := |Encode(t) + last|;
    n, partial := CutText(text, k);
    assert Encode(text)[..k] == Encode(t) + last;
    WholeBeforeCut(text, n, partial, t);
    more := text[|t|..n];
    PrefixOfPrefix(text, |t|, n);
    SliceJoins(text, |t|, n);
    assert t + more == text[..n];
    EncodeAppend(t, more);
    SameTail(Encode(t), last, Encode(more), partial);
  }

  /** What the chunks of a text decode to when the stream breaks off inside the last one: some first
      characters of the text, and a mark if the break cut one. */
  lemma BrokenChunksDecode(f: ByteDecoder, text: string, init: seq<Bytes>, last: Bytes) returns (n: nat, cut: bool)
    requires Lossy(f) && AllWhole(init) && Concat(init) + last <= Encode(text)
    ensures n <= |text| && Decoded(f, init) + f(last) == text[..n] + if cut then [REPLACEMENT] else []
  {
    var t := Decoded(f, init);
    WholeChunksDecode(f, init);
    var more, partial;
    n, more, partial := LastChunk(text, t, last);
    cut := partial != [];
    DecodeCut(f, more, partial, if cut then text[n] else 'x');
    Reassociate(t, more, if cut then [REPLACEMENT] else []);
  }
}
