// The value syntax of BER (ITU-T X.690): a tree of tagged elements in which every constructed
// element records whether it was written with a definite or an indefinite length.
module BerSyntax {
  import opened Bytes

  const MAX_DEPTH := 32
  const MAX_SIZE := 0x10_0000
  const MAX_TAG_SIZE := 9
  // Four length octets at most.
  const LENGTH_LIMIT := 0x1_0000_0000

  datatype Tlv =
    | Primitive(tag: seq<byte>, content: seq<byte>)
    | Constructed(tag: seq<byte>, indefinite: bool, children: Forest)

  datatype Forest = Nil | Cons(head: Tlv, tail: Forest)

  // Definite length octets: the short form below 128, otherwise the fewest long-form octets.
  function LengthOctets(n: nat): (octets: seq<byte>)
    ensures 1 <= |octets|
  {
    if n < 128 then [n] else [128 + |Digits(n)| % 128] + Digits(n)
  }

  // Identifier and length octets; no length means the indefinite form.
  function Header(tag: seq<byte>, length: Option<nat>): seq<byte> {
    tag + if length.Some? then LengthOctets(length.value) else [0x80]
  }

  const END_OF_CONTENTS: seq<byte> := [0, 0]

  function Print(t: Tlv): seq<byte> {
    match t
    case Primitive(tag, content) => Header(tag, Some(|content|)) + content
    case Constructed(tag, indefinite, children) =>
      if indefinite
      then Header(tag, None) + (PrintAll(children) + END_OF_CONTENTS)
      else Header(tag, Some(|PrintAll(children)|)) + PrintAll(children)
  }

  function PrintAll(f: Forest): seq<byte> {
    match f
    case Nil => []
    case Cons(head, tail) => Print(head) + PrintAll(tail)
  }

  // The same value with every length definite.
  function Normal(t: Tlv): Tlv {
    match t
    case Primitive(_, _) => t
    case Constructed(tag, _, children) => Constructed(tag, false, NormalAll(children))
  }

  function NormalAll(f: Forest): Forest {
    match f
    case Nil => Nil
    case Cons(head, tail) => Cons(Normal(head), NormalAll(tail))
  }

  predicate HasHighTag(first: byte) { first % 32 == 31 }

  predicate IsConstructedTag(first: byte) { (first / 32) % 2 == 1 }

  // Identifier octets: one octet, or a leading octet and a continuation whose octets all carry
  // the continuation bit except the last, and which does not start with a padding octet.
  predicate WellFormedTag(tag: seq<byte>) {
    && tag != []
    && if HasHighTag(tag[0]) then
         && 2 <= |tag| <= MAX_TAG_SIZE
         && tag[1] != 0x80
         && (forall i :: 1 <= i < |tag| - 1 ==> tag[i] >= 0x80)
         && tag[|tag| - 1] < 0x80
       else |tag| == 1
  }

  // The trees that the converter admits at a nesting depth. The element with tag octet 0 and no
  // content is excluded: its encoding is the end-of-contents marker. An indefinite element needs
  // one level more than a definite one, for the marker that ends it.
  predicate Admissible(t: Tlv, depth: nat) {
    && depth <= MAX_DEPTH
    && WellFormedTag(t.tag)
    && t.Constructed? == IsConstructedTag(t.tag[0])
    && match t
       case Primitive(tag, content) =>
         && (tag == [0] ==> content != [])
         && |content| < LENGTH_LIMIT
       case Constructed(tag, indefinite, children) =>
         && AdmissibleAll(children, depth + 1)
         && |PrintAll(NormalAll(children))| <= MAX_SIZE
         && if indefinite then depth + 1 <= MAX_DEPTH else |PrintAll(children)| < LENGTH_LIMIT
  }

  predicate AdmissibleAll(f: Forest, depth: nat) {
    f.Cons? ==> Admissible(f.head, depth) && AdmissibleAll(f.tail, depth)
  }
}
