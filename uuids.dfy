/**
 * A UUID is a 128-bit value. Its `to_string` form is 32 lower-case hexadecimal
 * digits, most significant first, in groups of 8-4-4-4-12 separated by hyphens.
 * The one fact the rest of the model relies on is that this string form is
 * injective; it is proved by exhibiting a left inverse.
 */
module Uuids {

  const TwoTo128: nat := 0x1_0000_0000_0000_0000_0000_0000_0000_0000

  type U128 = n: nat | n < TwoTo128

  datatype Uuid = Uuid(bits: U128)

  function Pow16(w: nat): (p: nat)
    ensures p > 0
  {
    if w == 0 then 1 else 16 * Pow16(w - 1)
  }

  /** The lower-case hexadecimal digit of `d`. */
  function HexDigit(d: nat): (c: char)
    requires d < 16
    ensures IsHexDigit(c)
  {
    if d < 10 then ('0' as int + d) as char else ('a' as int + d - 10) as char
  }

  predicate IsHexDigit(c: char) {
    '0' <= c <= '9' || 'a' <= c <= 'f'
  }

  function DigitValue(c: char): nat {
    if '0' <= c <= '9' then c as int - '0' as int
    else if 'a' <= c <= 'f' then c as int - 'a' as int + 10
    else 0
  }

  /** `n` written with exactly `w` hexadecimal digits (the digits above `w` are cut off). */
  function Hex(n: nat, w: nat): (s: string)
    ensures |s| == w
    ensures forall i :: 0 <= i < |s| ==> IsHexDigit(s[i])
  {
    if w == 0 then [] else Hex(n / 16, w - 1) + [HexDigit(n % 16)]
  }

  /** The value of a string of hexadecimal digits, most significant first. */
  function FromHex(s: string): nat {
    if |s| == 0 then 0 else FromHex(s[..|s| - 1]) * 16 + DigitValue(s[|s| - 1])
  }

  /** The 8-4-4-4-12 grouping of 32 digits. */
  function Hyphenate(s: string): (t: string)
    requires |s| == 32
    ensures |t| == 36
  {
    s[..8] + "-" + s[8..12] + "-" + s[12..16] + "-" + s[16..20] + "-" + s[20..]
  }

  function Unhyphenate(t: string): string
    requires |t| == 36
  {
    t[..8] + t[9..13] + t[14..18] + t[19..23] + t[24..]
  }

  /** `Uuid::to_string`: the hyphenated lower-case form. */
  function ToString(u: Uuid): (s: string)
    ensures |s| == 36
  {
    Hyphenate(Hex(u.bits, 32))
  }

  lemma {:induction false} HexRoundTrip(n: nat, w: nat)
    requires n < Pow16(w)
    ensures FromHex(Hex(n, w)) == n
  {
    if w > 0 {
      var s := Hex(n, w);
      var prefix := Hex(n / 16, w - 1);
      assert n / 16 < Pow16(w - 1);
      HexRoundTrip(n / 16, w - 1);
      assert s[..|s| - 1] == prefix;
      assert DigitValue(s[|s| - 1]) == n % 16;
    }
  }

  lemma UnhyphenateHyphenate(s: string)
    requires |s| == 32
    ensures Unhyphenate(Hyphenate(s)) == s
  {
    var t := Hyphenate(s);
    assert t[..8] == s[..8];
    assert t[9..13] == s[8..12];
    assert t[14..18] == s[12..16];
    assert t[19..23] == s[16..20];
    assert t[24..] == s[20..];
    assert s == s[..8] + s[8..12] + s[12..16] + s[16..20] + s[20..];
  }

  lemma {:induction false} Pow16Add(a: nat, b: nat)
    ensures Pow16(a + b) == Pow16(a) * Pow16(b)
  {
    if a > 0 {
      Pow16Add(a - 1, b);
    }
  }

  lemma Pow16Of32()
    ensures Pow16(32) == TwoTo128
  {
    assert Pow16(4) == 0x1_0000;
    Pow16Add(4, 4);
    Pow16Add(8, 8);
    Pow16Add(16, 16);
  }

  /** The 128 bits of a UUID can be read back from its string form. */
  lemma ToStringLeftInverse(u: Uuid)
    ensures FromHex(Unhyphenate(ToString(u))) == u.bits
  {
    Pow16Of32();
    UnhyphenateHyphenate(Hex(u.bits, 32));
    HexRoundTrip(u.bits, 32);
  }

  /** Two UUIDs have the same string form only if they are the same UUID. */
  lemma ToStringInjective(u: Uuid, v: Uuid)
    ensures ToString(u) == ToString(v) <==> u == v
  {
    ToStringLeftInverse(u);
    ToStringLeftInverse(v);
  }

  /** Only `u` itself has the string form of `u`. */
  lemma OnlyOwnerHasString(u: Uuid)
    ensures forall v :: ToString(v) == ToString(u) ==> v == u
  {
    forall v | ToString(v) == ToString(u)
      ensures v == u
    {
      ToStringInjective(u, v);
    }
  }
}
