// Read and Print are inverse on the admissible trees, so every encoding denotes one tree and a
// successful reading depends only on the bytes it used.
module BerGrammar {
  import opened Bytes
  import opened BerSyntax
  import opened BerReader

  // The tag reader accepts exactly the well-formed tags.
  lemma {:induction false} TagReading(s: seq<byte>, n: nat)
    requires s != []
    ensures TagSize(s) == Some(n) <==> n <= |s| && WellFormedTag(s[..n])
  {
    if HasHighTag(s[0]) {
      HighTagReading(s, 1, n);
    }
  }

  ghost predicate HighTagFrom(s: seq<byte>, from: nat, n: nat) {
    && from < n <= |s| && n <= MAX_TAG_SIZE
    && (from == 1 ==> s[1] != 0x80)
    && (forall i :: from <= i < n - 1 ==> s[i] >= 0x80)
    && s[n - 1] < 0x80
  }

  lemma {:induction false} HighTagReading(s: seq<byte>, from: nat, n: nat)
    requires 1 <= from < MAX_TAG_SIZE
    ensures HighTagEnd(s, from) == Some(n) <==> HighTagFrom(s, from, n)
    decreases |s| - from
  {
    if from < |s| && s[from] >= 0x80 && from + 1 < MAX_TAG_SIZE {
      HighTagReading(s, from + 1, n);
      assert HighTagFrom(s, from, n) <==> !(from == 1 && s[1] == 0x80) && HighTagFrom(s, from + 1, n);
    }
  }

  lemma LengthDigits(n: nat)
    requires 128 <= n < LENGTH_LIMIT
    ensures 1 <= |Digits(n)| <= 4 && Digits(n)[0] != 0 && Value(Digits(n)) == n
  {
    SmallPowers();
    DigitsFit(n, 4);
    ValueOfDigits(n);
  }

  // The definite length octets that are accepted are exactly the minimal ones below 2^32.
  lemma LengthRoundTrip(n: nat, rest: seq<byte>)
    requires n < LENGTH_LIMIT
    ensures ReadLength(LengthOctets(n) + rest) == Definite(n, |LengthOctets(n)|)
  {
    hide Digits, Value;
    if n >= 128 {
      LengthDigits(n);
      ReadLong(Digits(n), rest);
    }
  }

  lemma ReadLong(digits: seq<byte>, rest: seq<byte>)
    requires 1 <= |digits| <= 4 && digits[0] != 0 && Value(digits) >= 128
    ensures ReadLength([128 + |digits|] + digits + rest) == Definite(Value(digits), 1 + |digits|)
  {
    hide Value;
    var s := [128 + |digits|] + digits + rest;
    assert s[0] == 128 + |digits| && s[1] == digits[0];
    assert s[1..1 + |digits|] == digits;
  }

  lemma LengthUnique(s: seq<byte>)
    requires ReadLength(s).Definite?
    ensures LengthOctets(ReadLength(s).length) == s[..ReadLength(s).size]
  {
    hide Digits, Value;
    if s[0] >= 0x80 {
      var count := s[0] - 0x80;
      var digits := s[1..1 + count];
      assert digits[0] == s[1];
      LongUnique(digits);
      assert s[..1 + count] == [s[0]] + digits;
    }
  }

  lemma LongUnique(digits: seq<byte>)
    requires 1 <= |digits| <= 4 && digits[0] != 0 && Value(digits) >= 128
    ensures LengthOctets(Value(digits)) == [128 + |digits|] + digits
  {
    hide Digits, Value;
    DigitsOfValue(digits);
    var n := Value(digits);
    assert LengthOctets(n) == [128 + |Digits(n)| % 128] + Digits(n);
    assert |digits| % 128 == |digits|;
  }

  lemma HeaderSound(s: seq<byte>)
    requires s != [] && ReadHeader(s).Found?
    ensures var h := ReadHeader(s);
            && WellFormedTag(h.tag) && h.tag[0] == s[0]
            && s[..h.size] == Header(h.tag, h.length)
            && (h.length.Some? ==> h.length.value < LENGTH_LIMIT)
  {
    var n := TagSize(s).value;
    TagReading(s, n);
    var after := s[n..];
    var h := ReadHeader(s);
    if ReadLength(after).Definite? {
      LengthUnique(after);
    }
    assert s[..h.size] == s[..n] + after[..h.size - n];
  }

  lemma HeaderComplete(tag: seq<byte>, length: Option<nat>, rest: seq<byte>)
    requires tag != [] && WellFormedTag(tag)
    requires length.Some? ==> length.value < LENGTH_LIMIT
    ensures ReadHeader(Header(tag, length) + rest) == Found(tag, length, |Header(tag, length)|)
  {
    hide TagSize, WellFormedTag, LengthOctets;
    var octets := if length.Some? then LengthOctets(length.value) else [0x80];
    Associative(tag, octets, rest);
    Split(tag, octets + rest);
    TagReading(Header(tag, length) + rest, |tag|);
    if length.Some? {
      LengthRoundTrip(length.value, rest);
    }
  }

  // Only the element without content and with tag octet 0 looks like the marker.
  lemma NotTheMarker(tag: seq<byte>, length: Option<nat>, rest: seq<byte>)
    requires WellFormedTag(tag)
    ensures 2 <= |Header(tag, length)| && (Header(tag, length) + rest)[0] == tag[0]
    ensures (Header(tag, length) + rest)[..2] == END_OF_CONTENTS <==> tag == [0] && length == Some(0)
  {
    var s := Header(tag, length) + rest;
    assert s[..2] == [s[0], s[1]];
    if tag[0] == 0 {
      assert tag == [0];
      assert s[1] == if length.Some? then LengthOctets(length.value)[0] else 0x80;
    }
  }

  // Soundness: what is read is admissible and prints back to the bytes that were used.
  lemma {:induction false} ReadSound(s: seq<byte>, depth: nat)
    requires Read(s, depth).Element?
    ensures var r := Read(s, depth);
            Admissible(r.tree, depth) && Print(r.tree) == s[..r.size]
    decreases |s|, 0
  {
    hide ReadHeader, Header, PrintAll, ReadAll, ReadToEnd, NormalAll, AdmissibleAll, WellFormedTag;
    var h := ReadHeader(s);
    HeaderSound(s);
    if h.length.None? {
      ReadIndefiniteSound(h, s[h.size..], depth);
      SliceJoin(s, h.size, Read(s, depth).size - h.size);
    } else {
      var n := h.length.value;
      Slice(s, h.size, n);
      SliceJoin(s, h.size, n);
      if IsConstructedTag(s[0]) {
        ReadDefiniteSound(h, s[h.size..h.size + n], depth);
      } else {
        assert s == s[..h.size] + s[h.size..];
        NotTheMarker(h.tag, h.length, s[h.size..]);
      }
    }
  }

  lemma {:induction false} ReadDefiniteSound(h: HeaderReading, content: seq<byte>, depth: nat)
    requires h.Found? && WellFormedTag(h.tag) && IsConstructedTag(h.tag[0]) && depth <= MAX_DEPTH
    requires h.length == Some(|content|) && |content| < LENGTH_LIMIT
    requires ReadDefinite(h, content, depth).Element?
    ensures var t := ReadDefinite(h, content, depth).tree;
            Admissible(t, depth) && Print(t) == Header(h.tag, h.length) + content
    decreases |content|, 2
  {
    ReadAllSound(content, depth + 1);
  }

  lemma {:induction false} ReadIndefiniteSound(h: HeaderReading, after: seq<byte>, depth: nat)
    requires h.Found? && WellFormedTag(h.tag) && IsConstructedTag(h.tag[0]) && depth <= MAX_DEPTH
    requires h.length == None
    requires ReadIndefinite(h, after, depth).Element?
    ensures var t := ReadIndefinite(h, after, depth).tree;
            && Admissible(t, depth)
            && Print(t) == Header(h.tag, h.length) + after[..ReadIndefinite(h, after, depth).size - h.size]
    decreases |after|, 2
  {
    ReadToEndSound(after, depth + 1);
  }

  lemma {:induction false} ReadAllSound(s: seq<byte>, depth: nat)
    requires ReadAll(s, depth).Some?
    ensures AdmissibleAll(ReadAll(s, depth).value, depth) && PrintAll(ReadAll(s, depth).value) == s
    decreases |s|, 1
  {
    if s != [] {
      ReadSound(s, depth);
      var size := Read(s, depth).size;
      ReadAllSound(s[size..], depth);
      assert s == s[..size] + s[size..];
    }
  }

  lemma {:induction false} ReadToEndSound(s: seq<byte>, depth: nat)
    requires ReadToEnd(s, depth).Some?
    ensures var r := ReadToEnd(s, depth).value;
            AdmissibleAll(r.0, depth) && depth <= MAX_DEPTH && PrintAll(r.0) + END_OF_CONTENTS == s[..r.1]
    decreases |s|, 1
  {
    if Read(s, depth).Element? {
      var size := Read(s, depth).size;
      ReadSound(s, depth);
      ReadToEndSound(s[size..], depth);
      JoinToEnd(Read(s, depth).tree, size, s, ReadToEnd(s[size..], depth).value);
    }
  }

  lemma JoinToEnd(t: Tlv, size: nat, s: seq<byte>, r: (Forest, nat))
    requires size <= |s| && r.1 <= |s| - size
    requires Print(t) == s[..size] && PrintAll(r.0) + END_OF_CONTENTS == s[size..][..r.1]
    ensures PrintAll(Cons(t, r.0)) + END_OF_CONTENTS == s[..size + r.1]
  {
    assert s[..size + r.1] == s[..size] + s[size..][..r.1];
  }

  lemma PrintParts(t: Tlv)
    ensures Print(t) == Header(t.tag, ContentLength(t)) + Content(t)
  {
    hide Header;
    assert t.Constructed? && !t.indefinite ==> PrintAll(t.children) + [] == PrintAll(t.children);
  }

  lemma AdmissibleHeader(t: Tlv, depth: nat)
    requires Admissible(t, depth)
    ensures t.tag != [] && WellFormedTag(t.tag)
    ensures ContentLength(t).Some? ==> ContentLength(t).value < LENGTH_LIMIT
    ensures !(t.tag == [0] && ContentLength(t) == Some(0))
  {
    hide Print, PrintAll, NormalAll, AdmissibleAll;
    assert t.Constructed? && !t.indefinite ==> PrintAll(t.children) + [] == PrintAll(t.children);
  }

  lemma HeaderOfPrint(t: Tlv, depth: nat, rest: seq<byte>)
    requires Admissible(t, depth)
    ensures var s, h := Print(t) + rest, Header(t.tag, ContentLength(t));
            && 2 <= |h| && |Print(t)| == |h| + |Content(t)|
            && s[..2] != END_OF_CONTENTS && s[0] == t.tag[0]
            && ReadHeader(s) == Found(t.tag, ContentLength(t), |h|)
            && s[|h|..] == Content(t) + rest
  {
    AdmissibleHeader(t, depth);
    PrintParts(t);
    hide Print, Header, Content, ContentLength, Admissible, WellFormedTag, ReadHeader;
    var h := Header(t.tag, ContentLength(t));
    Associative(h, Content(t), rest);
    NotTheMarker(t.tag, ContentLength(t), Content(t) + rest);
    HeaderComplete(t.tag, ContentLength(t), Content(t) + rest);
  }

  // What Read does once the header is known.
  lemma ReadStep(s: seq<byte>, depth: nat, h: HeaderReading)
    requires depth <= MAX_DEPTH && 2 <= |s| && s[..2] != END_OF_CONTENTS
    requires h.Found? && ReadHeader(s) == h
    ensures h.length.None? && IsConstructedTag(s[0]) ==> Read(s, depth) == ReadIndefinite(h, s[h.size..], depth)
    ensures h.length.Some? && h.length.value <= |s| - h.size ==>
              var content := s[h.size..][..h.length.value];
              Read(s, depth) == if IsConstructedTag(s[0]) then ReadDefinite(h, content, depth)
                                else Element(Primitive(h.tag, content), h.size + |content|)
  {
    if h.length.Some? && h.length.value <= |s| - h.size {
      assert s[h.size..h.size + h.length.value] == s[h.size..][..h.length.value];
    }
  }

  // Completeness: every admissible tree is read back from its encoding, whatever follows it.
  lemma {:induction false} ReadComplete(t: Tlv, depth: nat, rest: seq<byte>)
    requires Admissible(t, depth)
    ensures 2 <= |Print(t)| && Read(Print(t) + rest, depth) == Element(t, |Print(t)|)
    decreases t
  {
    hide Print, Read, ReadAll, ReadToEnd, ReadHeader, Header, WellFormedTag;
    var s, content := Print(t) + rest, Content(t);
    HeaderOfPrint(t, depth, rest);
    ReadStep(s, depth, ReadHeader(s));
    Split(content, rest);
    if t.Constructed? {
      if t.indefinite {
        ReadToEndComplete(t.children, depth + 1, rest);
      } else {
        assert content == PrintAll(t.children);
        ReadAllComplete(t.children, depth + 1);
      }
    }
  }

  function Content(t: Tlv): seq<byte> {
    match t
    case Primitive(_, content) => content
    case Constructed(_, indefinite, children) =>
      PrintAll(children) + if indefinite then END_OF_CONTENTS else []
  }

  function ContentLength(t: Tlv): Option<nat> {
    if t.Constructed? && t.indefinite then None else Some(|Content(t)|)
  }

  lemma ReadMarker(rest: seq<byte>, depth: nat)
    requires depth <= MAX_DEPTH
    ensures Read(([] + END_OF_CONTENTS) + rest, depth) == EndOfContents
  {
    assert (([] + END_OF_CONTENTS) + rest)[..2] == END_OF_CONTENTS;
  }

  lemma {:induction false} ReadAllComplete(f: Forest, depth: nat)
    requires AdmissibleAll(f, depth)
    ensures ReadAll(PrintAll(f), depth) == Some(f)
    decreases f
  {
    if f.Cons? {
      ReadComplete(f.head, depth, PrintAll(f.tail));
      ReadAllComplete(f.tail, depth);
      assert PrintAll(f)[|Print(f.head)|..] == PrintAll(f.tail);
    }
  }

  lemma {:induction false} ReadToEndComplete(f: Forest, depth: nat, rest: seq<byte>)
    requires AdmissibleAll(f, depth) && depth <= MAX_DEPTH
    ensures ReadToEnd((PrintAll(f) + END_OF_CONTENTS) + rest, depth) == Some((f, |PrintAll(f)| + 2))
    decreases f
  {
    hide Read, ReadAll, Print, Admissible;
    if f.Cons? {
      var others := (PrintAll(f.tail) + END_OF_CONTENTS) + rest;
      Associative(Print(f.head), PrintAll(f.tail), END_OF_CONTENTS);
      Associative(Print(f.head), PrintAll(f.tail) + END_OF_CONTENTS, rest);
      ReadComplete(f.head, depth, others);
      ReadToEndComplete(f.tail, depth, rest);
      Split(Print(f.head), others);
    } else {
      ReadMarker(rest, depth);
    }
  }

  // A reading depends only on the bytes it used.
  lemma ReadLocal(s: seq<byte>, s': seq<byte>, depth: nat)
    requires Read(s, depth).Element?
    requires Read(s, depth).size <= |s'| && s'[..Read(s, depth).size] == s[..Read(s, depth).size]
    ensures Read(s', depth) == Read(s, depth)
  {
    hide Read, Print, Admissible;
    var size := Read(s, depth).size;
    ReadSound(s, depth);
    ReadComplete(Read(s, depth).tree, depth, s'[size..]);
    assert s' == Print(Read(s, depth).tree) + s'[size..];
  }

  // A child read against the whole input agrees with the child read inside its parent's window
  // of w bytes exactly when it does not overrun the window; otherwise the window has no child.
  lemma WindowRead(s: seq<byte>, w: nat, depth: nat)
    requires w <= |s|
    ensures Read(s, depth).Element? && Read(s, depth).size <= w ==> Read(s[..w], depth) == Read(s, depth)
    ensures !(Read(s, depth).Element? && Read(s, depth).size <= w) ==> !Read(s[..w], depth).Element?
  {
    hide Read;
    if Read(s, depth).Element? && Read(s, depth).size <= w {
      ReadLocal(s, s[..w], depth);
    }
    if Read(s[..w], depth).Element? {
      var size := Read(s[..w], depth).size;
      assert s[..w][..size] == s[..size];
      ReadLocal(s[..w], s, depth);
    }
  }

  // The encodings form a prefix code.
  lemma PrintPrefixFree(t: Tlv, u: Tlv, depth: nat, x: seq<byte>, y: seq<byte>)
    requires Admissible(t, depth) && Admissible(u, depth)
    requires Print(t) + x == Print(u) + y
    ensures t == u && x == y
  {
    hide Read, Print, Admissible;
    ReadComplete(t, depth, x);
    ReadComplete(u, depth, y);
    assert x == (Print(t) + x)[|Print(t)|..];
    assert y == (Print(u) + y)[|Print(u)|..];
  }

  // Making every length definite keeps a tree admissible, at the same depth.
  lemma {:induction false} NormalAdmissible(t: Tlv, depth: nat)
    requires Admissible(t, depth)
    ensures Admissible(Normal(t), depth) && Normal(Normal(t)) == Normal(t)
    decreases t
  {
    if t.Constructed? {
      NormalAllAdmissible(t.children, depth + 1);
    }
  }

  lemma {:induction false} NormalAllAdmissible(f: Forest, depth: nat)
    requires AdmissibleAll(f, depth)
    ensures AdmissibleAll(NormalAll(f), depth) && NormalAll(NormalAll(f)) == NormalAll(f)
    decreases f
  {
    if f.Cons? {
      NormalAdmissible(f.head, depth);
      NormalAllAdmissible(f.tail, depth);
    }
  }
}
