// Big-endian integers and the byte codecs of headers and values.
module Bytes {
  import opened Base

  function Pow256(w: nat): (r: nat)
    ensures r >= 1
  {
    if w == 0 then 1 else 256 * Pow256(w - 1)
  }

  /** n in w bytes, most significant first; higher bits are cut off. */
  function BigEndian(n: nat, w: nat): (r: seq<byte>)
    ensures |r| == w
  {
    if w == 0 then [] else BigEndian(n / 256, w - 1) + [n % 256]
  }

  function FromBigEndian(s: seq<byte>): (n: nat)
    ensures n < Pow256(|s|)
  {
    if s == [] then 0 else FromBigEndian(s[..|s| - 1]) * 256 + s[|s| - 1]
  }

  lemma {:induction false} BigEndianRoundTrip(n: nat, w: nat)
    requires n < Pow256(w)
    ensures FromBigEndian(BigEndian(n, w)) == n
  {
    if w > 0 {
      var s := BigEndian(n, w);
      assert s[..|s| - 1] == BigEndian(n / 256, w - 1);
      BigEndianRoundTrip(n / 256, w - 1);
    }
  }

  /** n without its k low bytes. */
  function Shifted(n: nat, k: nat): nat { if k == 0 then n else Shifted(n / 256, k - 1) }

  /** The most significant byte comes first. */
  lemma {:induction false} BigEndianAt(n: nat, w: nat, i: nat)
    requires i < w
    ensures BigEndian(n, w)[i] == Shifted(n, w - 1 - i) % 256
  {
    if i < w - 1 { BigEndianAt(n / 256, w - 1, i); }
  }

  lemma Widths()
    ensures Pow256(2) == U16_MAX + 1 && Pow256(4) == U32_MAX + 1 && Pow256(8) == U64_MAX + 1
  {
    assert Pow256(1) == 256;
    assert Pow256(2) == 0x1_0000;
    assert Pow256(3) == 0x100_0000;
    assert Pow256(4) == 0x1_0000_0000;
    assert Pow256(5) == 0x100_0000_0000;
    assert Pow256(6) == 0x1_0000_0000_0000;
    assert Pow256(7) == 0x100_0000_0000_0000;
    assert Pow256(8) == 0x1_0000_0000_0000_0000;
  }

  // ----- table entry headers -----

  const HEADER_SIZE := 10

  /** Prefix length, rest of the key, value length, and the block offset of the entry before. */
  datatype Header = Header(pLen: nat, kLen: nat, vLen: nat, prev: nat)
  {
    predicate Fits() { pLen <= U16_MAX && kLen <= U16_MAX && vLen <= U16_MAX && prev <= U32_MAX }

    predicate Dummy() { kLen == 0 && pLen == 0 }
  }

  function EncHeader(h: Header): (r: seq<byte>)
    ensures |r| == HEADER_SIZE
  {
    BigEndian(h.pLen, 2) + BigEndian(h.kLen, 2) + BigEndian(h.vLen, 2) + BigEndian(h.prev, 4)
  }

  function DecHeader(s: seq<byte>): Header
    requires |s| == HEADER_SIZE
  {
    Header(FromBigEndian(s[..2]), FromBigEndian(s[2..4]), FromBigEndian(s[4..6]), FromBigEndian(s[6..10]))
  }

  lemma HeaderRoundTrip(h: Header)
    requires h.Fits()
    ensures DecHeader(EncHeader(h)) == h
  {
    Widths();
    var s := EncHeader(h);
    assert s[..2] == BigEndian(h.pLen, 2);
    assert s[2..4] == BigEndian(h.kLen, 2);
    assert s[4..6] == BigEndian(h.vLen, 2);
    assert s[6..10] == BigEndian(h.prev, 4);
    BigEndianRoundTrip(h.pLen, 2);
    BigEndianRoundTrip(h.kLen, 2);
    BigEndianRoundTrip(h.vLen, 2);
    BigEndianRoundTrip(h.prev, 4);
  }

  /** The layout: two bytes for each length, four for the offset before. */
  lemma HeaderLayout(h: Header)
    requires h.Fits()
    ensures var s := EncHeader(h);
            && |s| == 10 && Two(s[0], s[1]) == h.pLen && Two(s[2], s[3]) == h.kLen && Two(s[4], s[5]) == h.vLen
            && Four(s[6..]) == h.prev
  {
    var s := EncHeader(h);
    TwoBytes(h.pLen);
    TwoBytes(h.kLen);
    TwoBytes(h.vLen);
    FourBytes(h.prev);
    assert s[..2] == BigEndian(h.pLen, 2) && s[2..4] == BigEndian(h.kLen, 2) && s[4..6] == BigEndian(h.vLen, 2);
    assert s[6..] == BigEndian(h.prev, 4);
    assert s[0] == s[..2][0] && s[1] == s[..2][1] && s[2] == s[2..4][0] && s[3] == s[2..4][1];
    assert s[4] == s[4..6][0] && s[5] == s[4..6][1];
  }

  function Two(high: nat, low: nat): nat { high * 256 + low }

  lemma TwoBytes(n: nat)
    requires n <= U16_MAX
    ensures Two(BigEndian(n, 2)[0], BigEndian(n, 2)[1]) == n
  {
    assert BigEndian(n, 2) == BigEndian(n / 256, 1) + [n % 256];
    assert BigEndian(n / 256, 1) == BigEndian(n / 256 / 256, 0) + [n / 256 % 256];
  }

  function Four(s: seq<byte>): nat
    requires |s| == 4
  {
    Two(s[0], s[1]) * 0x1_0000 + Two(s[2], s[3])
  }

  lemma FourBytes(n: nat)
    requires n <= U32_MAX
    ensures Four(BigEndian(n, 4)) == n
  {
    var a, b := n / 256, n / 256 / 256;
    assert BigEndian(n, 4) == BigEndian(a, 3) + [n % 256];
    assert BigEndian(a, 3) == BigEndian(b, 2) + [a % 256];
    TwoBytes(b);
  }

  // ----- values -----

  const VALUE_HEADER_SIZE := 10

  /** write_data. */
  function EncValue(v: ValueStruct): (r: seq<byte>)
    ensures |r| == VALUE_HEADER_SIZE + |v.value|
  {
    [v.meta, v.userMeta] + BigEndian(v.casCounter, 8) + v.value
  }

  /** read_data. */
  function DecValue(s: seq<byte>): ValueStruct
    requires |s| >= VALUE_HEADER_SIZE
  {
    ValueStruct(s[0], s[1], FromBigEndian(s[2..10]), s[10..])
  }

  lemma ValueRoundTrip(v: ValueStruct)
    requires v.casCounter <= U64_MAX
    ensures DecValue(EncValue(v)) == v
  {
    Widths();
    assert EncValue(v)[2..10] == BigEndian(v.casCounter, 8);
    assert EncValue(v)[10..] == v.value;
    BigEndianRoundTrip(v.casCounter, 8);
  }

  /** The layout: meta, user meta, eight bytes of counter, then the value as it is. */
  lemma ValueLayout(v: ValueStruct)
    ensures var s := EncValue(v);
            && |s| == 10 + |v.value| && s[0] == v.meta && s[1] == v.userMeta && s[10..] == v.value
            && forall i :: 2 <= i < 10 ==> s[i] == Shifted(v.casCounter, 9 - i) % 256
  {
    forall i | 2 <= i < 10 ensures EncValue(v)[i] == Shifted(v.casCounter, 9 - i) % 256 {
      BigEndianAt(v.casCounter, 8, i - 2);
    }
  }

  /** Different values have different bytes. */
  lemma ValueInjective(v: ValueStruct, w: ValueStruct)
    requires v.casCounter <= U64_MAX && w.casCounter <= U64_MAX && EncValue(v) == EncValue(w)
    ensures v == w
  {
    ValueRoundTrip(v);
    ValueRoundTrip(w);
  }
}
