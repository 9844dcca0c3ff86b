// The conversion on concrete octets, and its depth limit on chains of any length.
module BerExamples {
  import opened Bytes
  import opened BerSyntax
  import opened BerReader
  import opened BerGrammar
  import opened BerConverter
  import opened BerTheorems

  // The definite length octets: one octet below 128, otherwise their count and no leading zero.
  lemma LengthForms(n: nat)
    requires n < LENGTH_LIMIT
    ensures n < 0x80 ==> LengthOctets(n) == [n]
    ensures 0x80 <= n < 0x100 ==> LengthOctets(n) == [0x81, n]
    ensures 0x100 <= n < 0x1_0000 ==> LengthOctets(n) == [0x82, n / 0x100, n % 0x100]
    ensures 0x1_0000 <= n < 0x100_0000 ==> LengthOctets(n) == [0x83, n / 0x1_0000, n / 0x100 % 0x100, n % 0x100]
    ensures 0x100_0000 <= n ==>
              LengthOctets(n) == [0x84, n / 0x100_0000, n / 0x1_0000 % 0x100, n / 0x100 % 0x100, n % 0x100]
  {
    var a := n / 0x100;
    var b := a / 0x100;
    assert b == n / 0x1_0000 && b / 0x100 == n / 0x100_0000;
    assert n >= 0x80 ==> Digits(n) == Digits(a) + [n % 0x100];
    assert a > 0 ==> Digits(a) == Digits(b) + [a % 0x100];
    assert b > 0 ==> Digits(b) == Digits(b / 0x100) + [b % 0x100];
    assert b / 0x100 > 0 ==> Digits(b / 0x100) == Digits(0) + [b / 0x100];
  }

  // SEQUENCE { INTEGER 5 }, in either form.
  lemma IntegerInSequence()
    ensures Convert([0x30, 3, 2, 1, 5]) == Some([0x30, 3, 2, 1, 5])
    ensures Convert([0x30, 0x80, 2, 1, 5, 0, 0]) == Some([0x30, 3, 2, 1, 5])
  {
    var five := Primitive([2], [5]);
    var long, short := Constructed([0x30], true, Cons(five, Nil)), Constructed([0x30], false, Cons(five, Nil));
    assert Print(five) == [2, 1, 5];
    assert PrintAll(Cons(five, Nil)) == [2, 1, 5];
    assert NormalAll(Cons(five, Nil)) == Cons(five, Nil);
    assert Print(long) == [0x30, 0x80, 2, 1, 5, 0, 0];
    assert Print(short) == [0x30, 3, 2, 1, 5];
    Complete(long);
    Complete(short);
  }

  // Refused: nothing, a marker alone, a padded high tag, an indefinite primitive element;
  lemma RefusedAtTheTag()
    ensures Convert([]) == Convert([0, 0]) == None
    ensures Convert([0x1F, 0x80, 1, 0]) == None
    ensures Convert([2, 0x80, 5, 0, 0]) == None
  {
    assert [0, 0][..2] == END_OF_CONTENTS;
  }

  // a length with a superfluous octet;
  lemma RefusedAtTheLength()
    ensures Convert([2, 0x81, 1, 5]) == None
  {
    var s := [2, 0x81, 1, 5];
    assert s[1..][1..2] == [1] && s[1..][1] == 1;
    assert Value([1]) == 1;
  }

  // a missing content and trailing octets.
  lemma RefusedAtTheEnd()
    ensures Convert([2, 2, 5]) == None
    ensures Convert([2, 1, 5, 0]) == None
  {
  }

  // A chain of n + 1 constructed elements, one inside the other.
  function Chain(n: nat, indefinite: bool): Tlv {
    Constructed([0x30], indefinite, if n == 0 then Nil else Cons(Chain(n - 1, indefinite), Nil))
  }

  lemma SmallHeader(tag: byte, length: nat)
    requires length < 0x100
    ensures |Header([tag], Some(length))| <= 3 && |Header([tag], None)| == 2
  {
    LengthForms(length);
  }

  lemma {:induction false} ChainSize(n: nat, indefinite: bool)
    requires n <= 33
    ensures |Print(Chain(n, indefinite))| <= 4 * (n + 1) && Normal(Chain(n, indefinite)) == Chain(n, false)
  {
    hide Header;
    if n > 0 {
      ChainSize(n - 1, indefinite);
      assert PrintAll(Chain(n, indefinite).children) == Print(Chain(n - 1, indefinite)) + [];
      assert NormalAll(Chain(n, indefinite).children) == Cons(Chain(n - 1, false), Nil);
    }
    SmallHeader(0x30, |PrintAll(Chain(n, indefinite).children)|);
  }

  lemma {:induction false} ChainAdmissible(n: nat, indefinite: bool, depth: nat)
    requires n <= 33
    ensures Admissible(Chain(n, indefinite), depth) <==> depth + n <= if indefinite then 31 else 32
    decreases n
  {
    hide Print;
    if n > 0 {
      ChainAdmissible(n - 1, indefinite, depth + 1);
      ChainLink(n, indefinite, depth);
    }
  }

  lemma ChainLink(n: nat, indefinite: bool, depth: nat)
    requires 0 < n <= 33
    ensures Admissible(Chain(n, indefinite), depth) <==>
              && depth <= (if indefinite then 31 else 32)
              && Admissible(Chain(n - 1, indefinite), depth + 1)
  {
    hide Print, Admissible;
    var inner := Chain(n - 1, indefinite);
    ChainSize(n - 1, indefinite);
    ChainSize(n - 1, false);
    assert PrintAll(Cons(inner, Nil)) == Print(inner) + [];
    assert PrintAll(Cons(Chain(n - 1, false), Nil)) == Print(Chain(n - 1, false)) + [];
    assert NormalAll(Cons(inner, Nil)) == Cons(Chain(n - 1, false), Nil);
    assert AdmissibleAll(Cons(inner, Nil), depth + 1) <==> Admissible(inner, depth + 1);
    OuterLink(Chain(n, indefinite), depth);
  }

  lemma OuterLink(t: Tlv, depth: nat)
    requires t.Constructed? && t.tag == [0x30]
    requires |PrintAll(NormalAll(t.children))| <= 200 && |PrintAll(t.children)| <= 200
    ensures Admissible(t, depth) <==>
              depth <= (if t.indefinite then 31 else 32) && AdmissibleAll(t.children, depth + 1)
  {
    hide PrintAll, NormalAll, AdmissibleAll;
  }

  lemma {:induction false} ChainTooDeep(n: nat, indefinite: bool, depth: nat)
    requires depth + n > 32
    ensures !Admissible(Chain(n, indefinite), depth)
    decreases n
  {
    hide Print;
    if n > 0 {
      ChainTooDeep(n - 1, indefinite, depth + 1);
    }
  }

  // Definite elements may be nested to depth 32, indefinite ones to depth 31.
  lemma DepthLimit(n: nat, indefinite: bool)
    ensures Admissible(Chain(n, indefinite), 0) <==> n <= if indefinite then 31 else 32
    ensures Admissible(Chain(n, indefinite), 0) ==>
              Convert(Print(Chain(n, indefinite))) == Some(Print(Chain(n, false)))
  {
    if n > 33 {
      ChainTooDeep(n, indefinite, 0);
    } else {
      ChainAdmissible(n, indefinite, 0);
      ChainSize(n, indefinite);
      hide Print, Admissible, Chain;
      if Admissible(Chain(n, indefinite), 0) {
        Complete(Chain(n, indefinite));
      }
    }
  }
}
