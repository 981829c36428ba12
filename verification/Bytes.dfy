/** Bytes, and unsigned big-endian integers as `struct` and `int.to_bytes` lay them out. */
module Bytes {

  type Byte = b: int | 0 <= b < 256

  type Bytes = seq<Byte>

  /** 256 to the power n: how many values n bytes can hold. */
  function Span(n: nat): (r: nat)
    ensures r > 0
  {
    if n == 0 then 1 else 256 * Span(n - 1)
  }

  /** The last `width` base-256 digits of v, most significant first. */
  function BE(width: nat, v: nat): (r: Bytes)
    ensures |r| == width
  {
    if width == 0 then [] else BE(width - 1, v / 256) + [v % 256]
  }

  function FromBE(s: Bytes): nat {
    if s == [] then 0 else FromBE(s[..|s| - 1]) * 256 + s[|s| - 1]
  }

  lemma {:induction false} FromBEOfBE(width: nat, v: nat)
    requires v < Span(width)
    ensures FromBE(BE(width, v)) == v
  {
    if width > 0 {
      FromBEOfBE(width - 1, v / 256);
      assert BE(width, v)[..width - 1] == BE(width - 1, v / 256);
    }
  }

  lemma {:induction false} BEOfFromBE(s: Bytes)
    ensures FromBE(s) < Span(|s|)
    ensures BE(|s|, FromBE(s)) == s
  {
    if s != [] {
      var init := s[..|s| - 1];
      BEOfFromBE(init);
      assert FromBE(s) / 256 == FromBE(init);
      assert BE(|s|, FromBE(s)) == init + [s[|s| - 1]];
    }
  }

  /** The widths the wire formats use. */
  lemma SpanValues()
    ensures Span(1) == 0x100
    ensures Span(2) == 0x1_0000
    ensures Span(4) == 0x1_0000_0000
    ensures Span(8) == 0x1_0000_0000_0000_0000
  {
    assert Span(3) == 0x100_0000;
    assert Span(5) == 0x100_0000_0000;
    assert Span(6) == 0x1_0000_0000_0000;
    assert Span(7) == 0x100_0000_0000_0000;
  }

  /** The four bytes of an unsigned 32-bit value. */
  lemma BE4(v: nat)
    requires v < 0x1_0000_0000
    ensures BE(4, v) == [v / 0x100_0000, v / 0x1_0000 % 256, v / 0x100 % 256, v % 256]
  {
    assert BE(1, v / 0x100_0000) == BE(0, v / 0x1_0000_0000) + [v / 0x100_0000 % 256];
    assert BE(2, v / 0x1_0000) == BE(1, v / 0x100_0000) + [v / 0x1_0000 % 256];
    assert BE(3, v / 0x100) == BE(2, v / 0x1_0000) + [v / 0x100 % 256];
  }

  lemma BE2(v: nat)
    requires v < 0x1_0000
    ensures BE(2, v) == [v / 0x100, v % 256]
  {
    assert BE(1, v / 0x100) == BE(0, v / 0x1_0000) + [v / 0x100 % 256];
  }

  lemma Assoc(a: Bytes, b: Bytes, c: Bytes)
    ensures (a + b) + c == a + (b + c)
  {
  }

  lemma SplitAt(a: Bytes, b: Bytes, whole: Bytes)
    requires whole == a + b
    ensures |a| <= |whole| && whole[..|a|] == a && whole[|a|..] == b
  {
  }

  lemma Cancel(a: Bytes, b: Bytes, c: Bytes)
    requires a + b == a + c
    ensures b == c
  {
    SplitAt(a, b, a + b);
    SplitAt(a, c, a + c);
  }
}
