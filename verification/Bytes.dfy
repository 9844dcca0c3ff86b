// Bytes, optional values and big-endian numbers shared by the codecs.
module Bytes {

  type byte = b: int | 0 <= b < 256

  datatype Option<+T> = None | Some(value: T)

  // The number a byte string denotes, most significant byte first.
  function Value(digits: seq<byte>): nat {
    if digits == [] then 0 else 256 * Value(digits[..|digits| - 1]) + digits[|digits| - 1]
  }

  // The base-256 digits of n without leading zeros.
  function Digits(n: nat): (digits: seq<byte>)
    ensures digits == [] <==> n == 0
  {
    if n == 0 then [] else Digits(n / 256) + [n % 256]
  }

  lemma DigitsStep(n: nat)
    requires n > 0
    ensures Digits(n) == Digits(n / 256) + [n % 256]
    ensures Digits(0) == []
  {
  }

  lemma {:induction false} ValueOfDigits(n: nat)
    ensures Value(Digits(n)) == n
    ensures n > 0 ==> Digits(n)[0] != 0
  {
    if n > 0 {
      ValueOfDigits(n / 256);
      assert Digits(n)[..|Digits(n)| - 1] == Digits(n / 256);
    }
  }

  lemma {:induction false} DigitsOfValue(digits: seq<byte>)
    requires digits != [] && digits[0] != 0
    ensures Value(digits) > 0 && Digits(Value(digits)) == digits
  {
    var front := digits[..|digits| - 1];
    if front != [] {
      DigitsOfValue(front);
    }
    var last: nat := digits[|digits| - 1];
    assert (256 * Value(front) + last) / 256 == Value(front) && (256 * Value(front) + last) % 256 == last;
    assert digits == front + [last];
  }

  function Power256(k: nat): nat {
    if k == 0 then 1 else 256 * Power256(k - 1)
  }

  // n fits in k digits exactly when it is below 256^k.
  lemma {:induction false} DigitsFit(n: nat, k: nat)
    ensures |Digits(n)| <= k <==> n < Power256(k)
  {
    if k > 0 && n > 0 {
      DigitsFit(n / 256, k - 1);
    } else {
      PowerPositive(k);
    }
  }

  lemma PowerPositive(k: nat)
    ensures Power256(k) >= 1
  {
  }

  lemma DigitsMonotone(m: nat, n: nat)
    requires m <= n
    ensures |Digits(m)| <= |Digits(n)|
  {
    DigitsFit(n, |Digits(n)|);
    DigitsFit(m, |Digits(n)|);
  }

  lemma SmallPowers()
    ensures Power256(1) == 0x100 && Power256(2) == 0x1_0000 && Power256(3) == 0x100_0000 && Power256(4) == 0x1_0000_0000
    ensures Power256(8) == 0x1_0000_0000_0000_0000
  {
    assert Power256(5) == 0x100_0000_0000;
    assert Power256(6) == 0x1_0000_0000_0000;
    assert Power256(7) == 0x100_0000_0000_0000;
  }

  lemma SliceJoin(s: seq<byte>, i: nat, j: nat)
    requires i + j <= |s|
    ensures s[..i + j] == s[..i] + s[i..][..j]
  {
  }

  lemma Slice(s: seq<byte>, i: nat, j: nat)
    requires i + j <= |s|
    ensures s[i..i + j] == s[i..][..j]
  {
  }

  // A block in front of the rest.
  lemma Split(block: seq<byte>, rest: seq<byte>)
    ensures (block + rest)[..|block|] == block && (block + rest)[|block|..] == rest
  {
  }

  lemma Associative(a: seq<byte>, b: seq<byte>, c: seq<byte>)
    ensures (a + b) + c == a + (b + c)
  {
  }
}
