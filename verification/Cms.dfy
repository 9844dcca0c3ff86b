// The two byte-level steps of the CMS envelope reader: joining the fragments of the encrypted
// content (decodeEncryptedContent) and removing the PKCS#7 padding (unpadPKCS7).
module Cms {
  import opened Bytes
  import opened BerSyntax
  import opened BerReader
  import opened BerGrammar

  const CONTEXT_SPECIFIC := 2
  const OCTET_STRING: byte := 0x04

  datatype RawValue = RawValue(tagClass: nat, tag: nat, isCompound: bool, bytes: seq<byte>)

  // The view encoding/asn1 gives of an element with a low tag.
  function View(t: Tlv): RawValue
    requires t.tag != []
  {
    RawValue(t.tag[0] / 64, t.tag[0] % 32, t.Constructed?,
             match t case Primitive(_, content) => content case Constructed(_, _, children) => PrintAll(children))
  }

  // encoding/asn1 reading one primitive OCTET STRING: the value and the bytes used.
  function ReadOctetString(s: seq<byte>): (r: Option<(seq<byte>, nat)>)
    ensures r.Some? ==> 2 <= r.value.1 <= |s|
  {
    if s == [] || s[0] != OCTET_STRING then None
    else
      match ReadLength(s[1..])
      case Definite(n, size) =>
        if n > |s| - 1 - size then None else Some((s[1 + size..1 + size + n], 1 + size + n))
      case _ => None
  }

  function JoinFragments(s: seq<byte>): Option<seq<byte>> {
    if s == [] then Some([])
    else
      match ReadOctetString(s)
      case None => None
      case Some(r) =>
        Joined(r.0, JoinFragments(s[r.1..]))
  }

  function Joined(first: seq<byte>, rest: Option<seq<byte>>): Option<seq<byte>> {
    if rest.None? then None else Some(first + rest.value)
  }

  lemma JoinedNothing(rest: Option<seq<byte>>)
    ensures Joined([], rest) == rest
  {
    assert rest.Some? ==> [] + rest.value == rest.value;
  }

  lemma JoinedMore(first: seq<byte>, second: seq<byte>, rest: Option<seq<byte>>)
    ensures Joined(first, Joined(second, rest)) == Joined(first + second, rest)
  {
    assert rest.Some? ==> first + (second + rest.value) == (first + second) + rest.value;
  }

  function EncryptedContent(value: RawValue): Option<seq<byte>> {
    if value.tagClass != CONTEXT_SPECIFIC || value.tag != 0 then None
    else if !value.isCompound then Some(value.bytes)
    else JoinFragments(value.bytes)
  }

  method DecodeEncryptedContent(value: RawValue) returns (r: Option<seq<byte>>)
    ensures r == EncryptedContent(value)
  {
    if value.tagClass != CONTEXT_SPECIFIC || value.tag != 0 {
      return None;
    }
    if !value.isCompound {
      return Some(value.bytes);
    }
    hide ReadOctetString;
    var remaining, ciphertext: seq<byte> := value.bytes, [];
    JoinedNothing(JoinFragments(value.bytes));
    while |remaining| > 0
      invariant JoinFragments(value.bytes) == Joined(ciphertext, JoinFragments(remaining))
      decreases |remaining|
    {
      var part := ReadOctetString(remaining);
      if part.None? {
        return None;
      }
      JoinedMore(ciphertext, part.value.0, JoinFragments(remaining[part.value.1..]));
      ciphertext := ciphertext + part.value.0;
      remaining := remaining[part.value.1..];
    }
    JoinedDone(ciphertext);
    return Some(ciphertext);
  }

  lemma JoinedDone(first: seq<byte>)
    ensures Joined(first, JoinFragments([])) == Some(first)
  {
    assert first + [] == first;
  }

  function Fragments(parts: seq<seq<byte>>): Forest {
    if parts == [] then Nil else Cons(Primitive([OCTET_STRING], parts[0]), Fragments(parts[1..]))
  }

  function Concat(parts: seq<seq<byte>>): seq<byte> {
    if parts == [] then [] else parts[0] + Concat(parts[1..])
  }

  ghost predicate LengthsFit(parts: seq<seq<byte>>) {
    forall i :: 0 <= i < |parts| ==> |parts[i]| < LENGTH_LIMIT
  }

  lemma OctetStringRoundTrip(part: seq<byte>, rest: seq<byte>)
    requires |part| < LENGTH_LIMIT
    ensures var e := Print(Primitive([OCTET_STRING], part));
            ReadOctetString(e + rest) == Some((part, |e|))
  {
    hide LengthOctets, ReadLength;
    var e, octets := Print(Primitive([OCTET_STRING], part)), LengthOctets(|part|);
    LengthRoundTrip(|part|, part + rest);
    assert (e + rest)[1..] == octets + (part + rest);
    assert (e + rest)[1 + |octets|..1 + |octets| + |part|] == part;
  }

  lemma OctetStringUnique(s: seq<byte>)
    requires ReadOctetString(s).Some?
    ensures var r := ReadOctetString(s).value;
            |r.0| < LENGTH_LIMIT && Print(Primitive([OCTET_STRING], r.0)) == s[..r.1]
  {
    LengthUnique(s[1..]);
    hide LengthOctets, ReadLength;
    var n, size := ReadLength(s[1..]).length, ReadLength(s[1..]).size;
    assert s[..1 + size + n] == [s[0]] + s[1..][..size] + s[1 + size..1 + size + n];
  }

  lemma {:induction false} JoinComplete(parts: seq<seq<byte>>)
    requires LengthsFit(parts)
    ensures JoinFragments(PrintAll(Fragments(parts))) == Some(Concat(parts))
    decreases |parts|
  {
    if parts != [] {
      var e, rest := Print(Primitive([OCTET_STRING], parts[0])), PrintAll(Fragments(parts[1..]));
      assert |parts[0]| < LENGTH_LIMIT;
      OctetStringRoundTrip(parts[0], rest);
      hide ReadOctetString, Print;
      JoinComplete(parts[1..]);
      Split(e, rest);
    }
  }

  lemma FragmentsCons(part: seq<byte>, others: seq<seq<byte>>)
    requires |part| < LENGTH_LIMIT && LengthsFit(others)
    ensures LengthsFit([part] + others)
    ensures Fragments([part] + others) == Cons(Primitive([OCTET_STRING], part), Fragments(others))
    ensures Concat([part] + others) == part + Concat(others)
  {
    assert ([part] + others)[1..] == others;
  }

  lemma {:induction false} JoinSound(s: seq<byte>) returns (parts: seq<seq<byte>>)
    requires JoinFragments(s).Some?
    ensures LengthsFit(parts) && s == PrintAll(Fragments(parts)) && JoinFragments(s).value == Concat(parts)
    decreases |s|
  {
    hide ReadOctetString, Print;
    if s == [] {
      parts := [];
    } else {
      OctetStringUnique(s);
      var r := ReadOctetString(s).value;
      var others := JoinSound(s[r.1..]);
      parts := [r.0] + others;
      FragmentsCons(r.0, others);
      PrefixPrinted(s, r.0, r.1, others);
    }
  }

  lemma PrefixPrinted(s: seq<byte>, part: seq<byte>, size: nat, others: seq<seq<byte>>)
    requires size <= |s| && Print(Primitive([OCTET_STRING], part)) == s[..size]
    requires s[size..] == PrintAll(Fragments(others))
    ensures PrintAll(Cons(Primitive([OCTET_STRING], part), Fragments(others))) == s
  {
    hide Print, Fragments;
  }

  // Exactly the concatenations of primitive OCTET STRINGs are joined, to the joined contents.
  lemma FragmentsAccepted(s: seq<byte>, content: seq<byte>)
    ensures JoinFragments(s) == Some(content) <==>
              exists parts :: LengthsFit(parts) && s == PrintAll(Fragments(parts)) && content == Concat(parts)
  {
    if JoinFragments(s) == Some(content) {
      var parts := JoinSound(s);
    }
    forall parts | LengthsFit(parts) && s == PrintAll(Fragments(parts))
      ensures JoinFragments(s) == Some(Concat(parts))
    {
      JoinComplete(parts);
    }
  }

  // What is taken as encrypted content: a [0] of the context-specific class, whose bytes are the
  // content, or the fragments of it if it is constructed.
  lemma ContentExactly(value: RawValue, content: seq<byte>)
    ensures EncryptedContent(value) == Some(content) <==>
              && value.tagClass == 2 && value.tag == 0
              && if value.isCompound
                 then exists parts ::
                   LengthsFit(parts) && value.bytes == PrintAll(Fragments(parts)) && content == Concat(parts)
                 else content == value.bytes
  {
    FragmentsAccepted(value.bytes, content);
  }

  lemma FragmentsNormal(parts: seq<seq<byte>>)
    ensures NormalAll(Fragments(parts)) == Fragments(parts)
    decreases |parts|
  {
    if parts != [] {
      FragmentsNormal(parts[1..]);
    }
  }

  // Fragmentation independence: however the content is split into fragments under a constructed
  // [0], in either form, the converted element decodes to the same bytes as a primitive [0].
  lemma FragmentationIndependent(parts: seq<seq<byte>>, indefinite: bool, depth: nat)
    requires LengthsFit(parts)
    requires Admissible(Constructed([0xA0], indefinite, Fragments(parts)), depth)
    ensures var split := Constructed([0xA0], indefinite, Fragments(parts));
            && Read(Print(Normal(split)), depth) == Element(Normal(split), |Print(Normal(split))|)
            && EncryptedContent(View(Normal(split))) == Some(Concat(parts))
            && EncryptedContent(View(Normal(Primitive([0x80], Concat(parts))))) == Some(Concat(parts))
  {
    var split := Constructed([0xA0], indefinite, Fragments(parts));
    FragmentsNormal(parts);
    JoinComplete(parts);
    NormalAdmissible(split, depth);
    ReadComplete(Normal(split), depth, []);
    assert Print(Normal(split)) + [] == Print(Normal(split));
  }

  // Padding, section 6.3 of RFC 5652: the last p bytes are p, for some p up to the block size.
  predicate Padded(data: seq<byte>, blockSize: int) {
    && data != []
    && var p := data[|data| - 1];
       1 <= p <= blockSize && Trailing(data, p, p)
  }

  function Unpadded(data: seq<byte>, blockSize: int): Option<seq<byte>> {
    if blockSize > 0 && |data| % blockSize == 0 && Padded(data, blockSize)
    then Some(data[..|data| - data[|data| - 1]])
    else None
  }

  // crypto/subtle on the operands used here.
  function LessOrEq(x: int, y: int): int { if x <= y then 1 else 0 }
  function ByteEq(x: byte, y: byte): int { if x == y then 1 else 0 }
  function Select(v: int, x: int, y: int): int { if v == 1 then x else y }
  function BitAnd(x: int, y: int): int { if x == 1 && y == 1 then 1 else 0 }

  // The branch-free loop decides exactly the simple rule.
  method UnpadPkcs7(data: seq<byte>, blockSize: int) returns (r: Option<seq<byte>>)
    ensures r == Unpadded(data, blockSize)
    ensures r.Some? <==>
              && blockSize > 0 && data != [] && |data| % blockSize == 0
              && 1 <= data[|data| - 1] <= blockSize
              && forall i :: |data| - data[|data| - 1] <= i < |data| ==> data[i] == data[|data| - 1]
    ensures r.Some? ==> r.value == data[..|data| - data[|data| - 1]]
  {
    if blockSize <= 0 || |data| == 0 || |data| % blockSize != 0 {
      return None;
    }
    WholeBlocks(|data|, blockSize);
    var p := data[|data| - 1];
    var valid := BitAnd(LessOrEq(1, p), LessOrEq(p, blockSize));
    for i := 0 to blockSize
      invariant valid == 1 <==> 1 <= p <= blockSize && Trailing(data, p, if p <= i then p else i)
    {
      var inPadding := LessOrEq(i + 1, p);
      var matches := ByteEq(data[|data| - 1 - i], p);
      assert i < p ==> (Trailing(data, p, i + 1) <==> Trailing(data, p, i) && matches == 1);
      valid := BitAnd(valid, Select(inPadding, matches, 1));
    }
    if valid != 1 {
      return None;
    }
    return Some(data[..|data| - p]);
  }

  // The last n bytes are p.
  predicate Trailing(data: seq<byte>, p: byte, n: nat) {
    n <= |data| && forall i :: |data| - n <= i < |data| ==> data[i] == p
  }

  lemma WholeBlocks(n: nat, blockSize: int)
    requires n > 0 && blockSize > 0 && n % blockSize == 0
    ensures blockSize <= n
  {
  }

  function Pad(data: seq<byte>, blockSize: int): seq<byte>
    requires 1 <= blockSize <= 255
  {
    var p := blockSize - |data| % blockSize;
    data + seq(p, i => p)
  }

  lemma UnpadOfPad(data: seq<byte>, blockSize: int)
    requires 1 <= blockSize <= 255
    ensures Unpadded(Pad(data, blockSize), blockSize) == Some(data)
  {
    var p := blockSize - |data| % blockSize;
    var padded := Pad(data, blockSize);
    PadToBlock(|data|, blockSize);
    assert forall i :: |data| <= i < |padded| ==> padded[i] == p;
    assert padded[..|padded| - p] == data;
  }

  lemma PadOfUnpad(padded: seq<byte>, blockSize: int)
    requires 1 <= blockSize <= 255 && Unpadded(padded, blockSize).Some?
    ensures Pad(Unpadded(padded, blockSize).value, blockSize) == padded
  {
    var p := padded[|padded| - 1];
    UnpadToBlock(|padded|, p, blockSize);
    assert forall i :: |padded| - p <= i < |padded| ==> padded[i] == p;
  }

  lemma PadToBlock(n: nat, b: int)
    requires b > 0
    ensures (n + (b - n % b)) % b == 0
  {
    var q := n / b;
    assert n + (b - n % b) == b * (q + 1);
    Multiple(q + 1, b);
  }

  lemma UnpadToBlock(n: nat, p: nat, b: int)
    requires b > 0 && n % b == 0 && 1 <= p <= b && p <= n
    ensures b - (n - p) % b == p
  {
    var q := n / b;
    assert n - p == b * (q - 1) + (b - p);
    if p == b {
      Multiple(q - 1, b);
    } else {
      Remainder(q - 1, b, b - p);
    }
  }

  lemma Multiple(q: int, b: int)
    requires b > 0
    ensures (b * q) % b == 0
  {
    Remainder(q, b, 0);
  }

  lemma Remainder(q: int, b: int, r: int)
    requires 0 <= r < b
    ensures (b * q + r) % b == r
  {
    var x := b * q + r;
    var d := x / b - q;
    assert b * d == r - x % b;
    if d >= 1 {
    } else if d <= -1 {
    }
  }
}
