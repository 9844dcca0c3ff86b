// Reading BER. Read is the reference decoder: it recovers the tree and never looks outside the
// bytes of the enclosing element. The methods below it have the shape of ber.go: they work on
// the whole input with offsets, re-encode as they go, and notice an overrun of the parent late.
module BerReader {
  import opened Bytes
  import opened BerSyntax

  datatype Reading = Malformed | EndOfContents | Element(tree: Tlv, size: nat)

  datatype Length = NoLength | Indefinite | Definite(length: nat, size: nat)

  function TagSize(s: seq<byte>): (size: Option<nat>)
    requires s != []
    ensures size.Some? ==> 1 <= size.value <= |s|
  {
    if HasHighTag(s[0]) then HighTagEnd(s, 1) else Some(1)
  }

  function HighTagEnd(s: seq<byte>, from: nat): (end: Option<nat>)
    requires 1 <= from
    ensures end.Some? ==> from < end.value <= |s|
    decreases |s| - from
  {
    if from >= |s| || (from == 1 && s[1] == 0x80) then None
    else if s[from] < 0x80 then Some(from + 1)
    else if from + 1 >= MAX_TAG_SIZE then None
    else HighTagEnd(s, from + 1)
  }

  function ReadLength(s: seq<byte>): (r: Length)
    ensures r.Definite? ==> 1 <= r.size <= |s| && r.length < LENGTH_LIMIT
    ensures r.Indefinite? ==> 1 <= |s|
  {
    if s == [] then NoLength
    else if s[0] == 0x80 then Indefinite
    else if s[0] < 0x80 then Definite(s[0], 1)
    else
      var count := s[0] - 0x80;
      if count > 4 || count > |s| - 1 || s[1] == 0 then NoLength
      else
        var n := Value(s[1..1 + count]);
        ValueBound(s[1..1 + count]);
        if n < 128 then NoLength else Definite(n, 1 + count)
  }

  lemma ValueBound(digits: seq<byte>)
    requires |digits| <= 4
    ensures Value(digits) < LENGTH_LIMIT
  {
    if digits != [] {
      var d1 := digits[..|digits| - 1];
      if d1 != [] {
        var d2 := d1[..|d1| - 1];
        if d2 != [] {
          var d3 := d2[..|d2| - 1];
          assert Value(d3) < 256;
        }
        assert Value(d2) < 0x1_0000;
      }
      assert Value(d1) < 0x100_0000;
    }
  }

  datatype HeaderReading = NoHeader | Found(tag: seq<byte>, length: Option<nat>, size: nat)

  function ReadHeader(s: seq<byte>): (r: HeaderReading)
    requires s != []
    ensures r.Found? ==> 2 <= r.size <= |s|
  {
    match TagSize(s)
    case None => NoHeader
    case Some(tagSize) =>
      match ReadLength(s[tagSize..])
      case NoLength => NoHeader
      case Indefinite => Found(s[..tagSize], None, tagSize + 1)
      case Definite(length, size) => Found(s[..tagSize], Some(length), tagSize + size)
  }

  function Read(s: seq<byte>, depth: nat): (r: Reading)
    ensures r.Element? ==> 2 <= r.size <= |s|
    ensures r.EndOfContents? ==> 2 <= |s|
    decreases |s|, 0
  {
    if depth > MAX_DEPTH || s == [] then Malformed
    else if 2 <= |s| && s[..2] == END_OF_CONTENTS then EndOfContents
    else
      var h := ReadHeader(s);
      if h.NoHeader? then Malformed
      else if h.length.None? then
        if IsConstructedTag(s[0]) then ReadIndefinite(h, s[h.size..], depth) else Malformed
      else if h.length.value > |s| - h.size then Malformed
      else
        var content := s[h.size..h.size + h.length.value];
        if IsConstructedTag(s[0]) then ReadDefinite(h, content, depth)
        else Element(Primitive(h.tag, content), h.size + |content|)
  }

  function ReadDefinite(h: HeaderReading, content: seq<byte>, depth: nat): (r: Reading)
    requires h.Found?
    ensures !r.EndOfContents?
    ensures r.Element? ==> r.size == h.size + |content|
    decreases |content|, 2
  {
    match ReadAll(content, depth + 1)
    case Some(children) => Sized(Constructed(h.tag, false, children), h.size + |content|)
    case None => Malformed
  }

  function ReadIndefinite(h: HeaderReading, after: seq<byte>, depth: nat): (r: Reading)
    requires h.Found?
    ensures !r.EndOfContents?
    ensures r.Element? ==> h.size <= r.size <= h.size + |after|
    decreases |after|, 2
  {
    match ReadToEnd(after, depth + 1)
    case Some(body) => Sized(Constructed(h.tag, true, body.0), h.size + body.1)
    case None => Malformed
  }

  // The re-encoded content of a constructed element is bounded.
  function Sized(t: Tlv, size: nat): (r: Reading)
    requires t.Constructed?
  {
    if |PrintAll(NormalAll(t.children))| > MAX_SIZE then Malformed else Element(t, size)
  }

  // The elements that fill the window s exactly.
  function ReadAll(s: seq<byte>, depth: nat): (r: Option<Forest>)
    decreases |s|, 1
  {
    if s == [] then Some(Nil)
    else
      match Read(s, depth)
      case Element(t, size) => (
        match ReadAll(s[size..], depth)
        case Some(rest) => Some(Cons(t, rest))
        case None => None
      )
      case _ => None
  }

  // The elements up to the end-of-contents marker, and the bytes used including the marker.
  function ReadToEnd(s: seq<byte>, depth: nat): (r: Option<(Forest, nat)>)
    ensures r.Some? ==> 2 <= r.value.1 <= |s|
    decreases |s|, 1
  {
    match Read(s, depth)
    case EndOfContents => Some((Nil, 2))
    case Element(t, size) => (
      match ReadToEnd(s[size..], depth)
      case Some(rest) => Some((Cons(t, rest.0), size + rest.1))
      case None => None
    )
    case Malformed => None
  }
}
