/** UTF-8 as the standard library's `str` stores it: the byte image of a sequence of
    Unicode scalar values, the byte offsets that are character boundaries, and slicing. */
module Utf8 {
  type byte = b: int | 0 <= b < 256

  /** The number of bytes of one scalar value. */
  function Width(c: char): (w: nat)
    ensures 1 <= w <= 4
  {
    var n := c as int;
    if n < 0x80 then 1 else if n < 0x800 then 2 else if n < 0x1_0000 then 3 else 4
  }

  function EncodeChar(c: char): (r: seq<byte>)
    ensures |r| == Width(c)
    ensures r[0] < 0x80 <==> Width(c) == 1
    ensures Width(c) == 1 ==> r[0] == c as int
    ensures Width(c) == 2 ==> 0xc2 <= r[0] <= 0xdf
    ensures Width(c) == 3 ==> 0xe0 <= r[0] <= 0xef
    ensures Width(c) == 4 ==> 0xf0 <= r[0] <= 0xf4
  {
    var n := c as int;
    if n < 0x80 then [n]
    else if n < 0x800 then [0xc0 + n / 0x40, 0x80 + n % 0x40]
    else if n < 0x1_0000 then [0xe0 + n / 0x1000, 0x80 + n / 0x40 % 0x40, 0x80 + n % 0x40]
    else [0xf0 + n / 0x4_0000, 0x80 + n / 0x1000 % 0x40, 0x80 + n / 0x40 % 0x40, 0x80 + n % 0x40]
  }

  function Encode(s: string): (r: seq<byte>)
    ensures s == [] <==> r == []
  {
    if s == [] then [] else EncodeChar(s[0]) + Encode(s[1..])
  }

  /** The byte offset of character index `k`. */
  function Offset(s: string, k: nat): nat
    requires k <= |s|
  {
    |Encode(s[..k])|
  }

  /** A byte offset at which `str` may be sliced without panicking. */
  predicate IsBoundary(s: string, p: nat) {
    p == 0 || (s != [] && Width(s[0]) <= p && IsBoundary(s[1..], p - Width(s[0])))
  }

  /** The character index of a boundary. */
  function Index(s: string, p: nat): (k: nat)
    requires IsBoundary(s, p)
    ensures k <= |s|
  {
    if p == 0 then 0 else 1 + Index(s[1..], p - Width(s[0]))
  }

  /** `&s[from..to]`: defined only on boundaries; any other offset panics in the original. */
  function Slice(s: string, from: nat, to: nat): string
    requires IsBoundary(s, from) && IsBoundary(s, to) && Index(s, from) <= Index(s, to)
  {
    s[Index(s, from)..Index(s, to)]
  }

  lemma {:induction false} EncodeAppend(a: string, b: string)
    ensures Encode(a + b) == Encode(a) + Encode(b)
  {
    if a == [] {
      assert a + b == b;
    } else {
      assert (a + b)[1..] == a[1..] + b;
      EncodeAppend(a[1..], b);
    }
  }

  lemma EncodeOne(c: char)
    ensures Encode([c]) == EncodeChar(c)
  {
    assert Encode([c]) == EncodeChar(c) + Encode([c][1..]);
  }

  lemma EncodeNext(s: string, k: nat)
    requires k < |s|
    ensures Encode(s[..k + 1]) == Encode(s[..k]) + EncodeChar(s[k])
  {
    hide Encode, EncodeChar;
    assert s[..k + 1] == s[..k] + [s[k]];
    EncodeAppend(s[..k], [s[k]]);
    EncodeOne(s[k]);
  }

  /** The bytes around character index `k`: the prefix, that character, and the rest. */
  lemma SplitAt(s: string, k: nat)
    requires k < |s|
    ensures Encode(s) == Encode(s[..k]) + EncodeChar(s[k]) + Encode(s[k + 1..])
    ensures Offset(s, k + 1) == Offset(s, k) + Width(s[k])
  {
    hide Encode, EncodeChar;
    var next, rest := s[..k + 1], s[k + 1..];
    assert s == next + rest;
    EncodeAppend(next, rest);
    EncodeNext(s, k);
  }

  lemma OffsetAtEnd(s: string, k: nat)
    requires k <= |s|
    ensures Offset(s, k) <= |Encode(s)|
    ensures Offset(s, k) == |Encode(s)| <==> k == |s|
  {
    assert s == s[..k] + s[k..];
    EncodeAppend(s[..k], s[k..]);
  }

  /** Every character index is at a boundary, and the boundary gives the index back. */
  lemma {:induction false} OffsetIsBoundary(s: string, k: nat)
    requires k <= |s|
    ensures IsBoundary(s, Offset(s, k)) && Index(s, Offset(s, k)) == k
  {
    if k > 0 {
      assert s[..k][1..] == s[1..][..k - 1];
      OffsetIsBoundary(s[1..], k - 1);
    }
  }
}
