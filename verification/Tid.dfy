/** Repository revisions: time identifiers of 13 base-32 letters. */
module Tid {
  import opened Ordered
  import opened Outcomes
  import Syntax

  const U64_MAX := 0xffff_ffff_ffff_ffff
  type U64 = x: int | 0 <= x <= U64_MAX

  function SaturatingMul(x: U64, k: U64): U64 {
    if x * k > U64_MAX then U64_MAX else x * k
  }

  /** Letter of a base-32 digit in the alphabet 2-7, a-z. */
  function Letter(d: int): (c: Byte)
    requires 0 <= d < 32
    ensures Syntax.TidChar(c)
  {
    if d < 6 then 0x32 + d else 0x61 + (d - 6)
  }

  function DigitOf(c: Byte): (d: int)
    requires Syntax.TidChar(c)
    ensures 0 <= d < 32
  {
    if c <= 0x37 then c - 0x32 else c - 0x61 + 6
  }

  function Timestamp(seconds: U64): U64 {
    SaturatingMul(SaturatingMul(seconds, 1_000_000), 1024)
  }

  /** The lowest `n` base-32 digits of a number, most significant first. */
  function Digits(value: nat, n: nat): (s: Bytes)
    ensures |s| == n && forall i :: 0 <= i < n ==> Syntax.TidChar(s[i])
  {
    if n == 0 then [] else Digits(value / 32, n - 1) + [Letter(value % 32)]
  }

  function Decode(s: Bytes): nat
    requires forall i :: 0 <= i < |s| ==> Syntax.TidChar(s[i])
  {
    if s == [] then 0 else Decode(s[..|s| - 1]) * 32 + DigitOf(s[|s| - 1])
  }

  function Pow32(n: nat): (p: nat)
    ensures p > 0
  {
    if n == 0 then 1 else 32 * Pow32(n - 1)
  }

  lemma OneDigit(value: nat, n: nat, tail: Bytes)
    requires n > 0
    ensures Digits(value / 32, n - 1) + ([Letter(value % 32)] + tail) == Digits(value, n) + tail
  {
  }

  const LENGTH := 13

  /** The digit array is filled from its last place backwards. */
  method Revision(seconds: U64) returns (result: Bytes)
    ensures result == Digits(Timestamp(seconds), LENGTH)
  {
    var value := SaturatingMul(SaturatingMul(seconds, 1_000_000), 1024);
    result := DigitArray(value, LENGTH);
  }

  method DigitArray(number: nat, length: nat) returns (result: Bytes)
    ensures result == Digits(number, length)
  {
    var value := number;
    var digits := new Byte[length](_ => 0x32);
    var i := length;
    while i > 0
      invariant 0 <= i <= length && 0 <= value
      invariant Digits(value, i) + digits[i..] == Digits(number, length)
    {
      OneDigit(value, i, digits[i..]);
      ghost var tail := digits[i..];
      i := i - 1;
      digits[i] := Letter(value % 32);
      assert digits[i..] == [Letter(value % 32)] + tail;
      value := value / 32;
    }
    result := digits[..];
  }

  lemma {:induction false} DecodeDigits(value: nat, n: nat)
    requires value < Pow32(n)
    ensures Decode(Digits(value, n)) == value
  {
    if n > 0 {
      DecodeDigits(value / 32, n - 1);
      assert Digits(value, n)[..n - 1] == Digits(value / 32, n - 1);
    }
  }

  lemma {:induction false} LexOfLast(a: Bytes, b: Bytes, x: Byte, y: Byte)
    requires |a| == |b|
    ensures LexLess(a + [x], b + [y]) <==> LexLess(a, b) || (a == b && x < y)
  {
    if a == [] {
      LexTotal([], []);
    } else {
      LexOfLast(a[1..], b[1..], x, y);
      assert (a + [x])[1..] == a[1..] + [x] && (b + [y])[1..] == b[1..] + [y];
      assert a == [a[0]] + a[1..] && b == [b[0]] + b[1..];
    }
  }

  /** Text order is numeric order. */
  lemma {:induction false} DigitsOrdered(x: nat, y: nat, n: nat)
    requires x < Pow32(n) && y < Pow32(n)
    ensures LexLess(Digits(x, n), Digits(y, n)) <==> x < y
  {
    if n > 0 {
      DigitsOrdered(x / 32, y / 32, n - 1);
      LexOfLast(Digits(x / 32, n - 1), Digits(y / 32, n - 1), Letter(x % 32), Letter(y % 32));
      DecodeDigits(x / 32, n - 1);
      DecodeDigits(y / 32, n - 1);
    } else {
      LexTotal([], []);
    }
  }

  lemma Fits(value: U64)
    ensures value < Pow32(13) && value < 16 * Pow32(12)
  {
    assert Pow32(4) == 0x10_0000;
    assert Pow32(8) == 0x10_0000 * 0x10_0000;
    assert Pow32(12) == 0x1000_0000_0000_0000;
  }

  lemma {:induction false} FirstDigit(value: nat, n: nat)
    requires n > 0 && value < 16 * Pow32(n - 1)
    ensures DigitOf(Digits(value, n)[0]) < 16
  {
    if n == 1 {
      assert Digits(value, 1) == [] + [Letter(value % 32)];
    } else {
      FirstDigit(value / 32, n - 1);
    }
  }

  /** Every revision is a TID that the repository accepts, and it decodes to the saturated product. */
  lemma RevisionIsTid(seconds: U64)
    ensures Syntax.ValidTid(Digits(Timestamp(seconds), LENGTH))
    ensures Decode(Digits(Timestamp(seconds), LENGTH)) == Timestamp(seconds)
  {
    Fits(Timestamp(seconds));
    FirstDigit(Timestamp(seconds), 13);
    DecodeDigits(Timestamp(seconds), LENGTH);
  }

  const LAST_EXACT := U64_MAX / 1_024_000_000

  /** Revisions of later seconds never sort earlier, and sort strictly later exactly until the
      product saturates. */
  lemma RevisionOrder(s1: U64, s2: U64)
    requires s1 < s2
    ensures LexLess(Digits(Timestamp(s1), LENGTH), Digits(Timestamp(s2), LENGTH)) <==> s1 <= LAST_EXACT
    ensures s1 > LAST_EXACT ==> Digits(Timestamp(s1), LENGTH) == Digits(Timestamp(s2), LENGTH)
  {
    Fits(Timestamp(s1));
    Fits(Timestamp(s2));
    DigitsOrdered(Timestamp(s1), Timestamp(s2), LENGTH);
  }

  /** So an identity that validates binds with a revision that the repository accepts. */
  lemma BindingMetadataAccepted(parse: Bytes -> Option<Syntax.Url>, id: Syntax.Identity, seconds: U64)
    requires Syntax.ValidIdentity(parse, id)
    ensures Syntax.Metadata(id.did, Digits(Timestamp(seconds), LENGTH)) == Ok(())
  {
    Syntax.IdentityDidAccepted(parse, id);
    RevisionIsTid(seconds);
  }
}
