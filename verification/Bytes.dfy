/** Byte strings, big-endian integers and substring search, as Python's bytes offer them. */
module Bytes {
  import opened Wrappers

  type Byte = x: int | 0 <= x < 256

  type ByteString = seq<Byte>

  lemma Assoc<T>(a: seq<T>, b: seq<T>, c: seq<T>)
    ensures (a + b) + c == a + (b + c)
  {
  }

  /** int.from_bytes(.., "big") on two and three bytes. */
  function U16(hi: Byte, lo: Byte): (n: int)
    ensures 0 <= n < 0x1_0000
  {
    hi * 256 + lo
  }

  function U24(a: Byte, b: Byte, c: Byte): (n: int)
    ensures 0 <= n < 0x100_0000
  {
    (a * 256 + b) * 256 + c
  }

  lemma U16Splits(hi: Byte, lo: Byte)
    ensures U16(hi, lo) / 256 == hi && U16(hi, lo) % 256 == lo
    ensures To16(U16(hi, lo)) == [hi, lo]
  {
  }

  /** n.to_bytes(2, "big"); raises OverflowError on anything that does not fit. */
  function To16(n: int): (s: ByteString)
    requires 0 <= n < 0x1_0000
    ensures |s| == 2 && U16(s[0], s[1]) == n
  {
    [n / 256, n % 256]
  }

  function To24(n: int): (s: ByteString)
    requires 0 <= n < 0x100_0000
    ensures |s| == 3 && U24(s[0], s[1], s[2]) == n
  {
    var q := n / 256;
    [q / 256, q % 256, n % 256]
  }

  /** Does `sub` occur in `s` at position `i`? */
  predicate OccursAt(s: ByteString, sub: ByteString, i: nat) {
    i + |sub| <= |s| && s[i..i + |sub|] == sub
  }

  /** bytes.find(sub, from): the least position at or after `from`. */
  function Find(s: ByteString, sub: ByteString, from: nat): (r: Option<nat>)
    ensures r.Some? ==> from <= r.value && OccursAt(s, sub, r.value)
    ensures r.Some? ==> forall i :: from <= i < r.value ==> !OccursAt(s, sub, i)
    ensures r.None? ==> forall i :: from <= i ==> !OccursAt(s, sub, i)
    decreases |s| - from
  {
    if from + |sub| > |s| then None
    else if OccursAt(s, sub, from) then Some(from)
    else Find(s, sub, from + 1)
  }

  predicate Contains(s: ByteString, sub: ByteString) {
    Find(s, sub, 0).Some?
  }

  /** The ASCII codes of a literal. */
  function Ascii(text: string): (s: ByteString)
    requires forall i :: 0 <= i < |text| ==> text[i] as int < 128
    ensures |s| == |text| && forall i :: 0 <= i < |s| ==> s[i] == text[i] as int
  {
    seq<Byte>(|text|, i requires 0 <= i < |text| && text[i] as int < 128 => text[i] as int)
  }

  /** bytes.upper(): ASCII letters only. */
  function Upper(s: ByteString): (u: ByteString)
    ensures |u| == |s|
    ensures forall i :: 0 <= i < |s| ==> u[i] == if 97 <= s[i] <= 122 then s[i] - 32 else s[i]
  {
    seq(|s|, i requires 0 <= i < |s| => if 97 <= s[i] <= 122 then s[i] - 32 else s[i])
  }
}
