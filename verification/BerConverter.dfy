// The converter of ber.go, in its own shape: offsets into the whole input, output re-encoded as
// it is read. Each method is proved against the reference decoder of BerReader.
// The caller folds every failure into one error, so there is one failure here.
module BerConverter {
  import opened Bytes
  import opened BerSyntax
  import opened BerReader
  import opened BerGrammar

  // Go's int.
  const INT_LIMIT := 0x8000_0000_0000_0000

  datatype Converted = Failed | Item(encoded: seq<byte>, next: int, eoc: bool)

  datatype ChildResult = ChildFailed | Done(next: int) | Child(encoded: seq<byte>, next: int)

  // What the conversion of an input is meant to be.
  function Convert(input: seq<byte>): (r: Option<seq<byte>>) {
    if input == [] || |input| > MAX_SIZE then None
    else
      match Read(input, 0)
      case Element(t, size) => if size == |input| then Some(Print(Normal(t))) else None
      case _ => None
  }

  method BerToDer(input: seq<byte>) returns (r: Option<seq<byte>>)
    ensures r == Convert(input)
  {
    if |input| == 0 || |input| > MAX_SIZE {
      return None;
    }
    var item := ReadBerObject(input, 0, 0);
    assert From(input, 0) == input;
    if item.Failed? || item.eoc || item.next != |input| {
      return None;
    }
    return Some(item.encoded);
  }

  function From(input: seq<byte>, offset: int): (s: seq<byte>)
    ensures |s| <= |input|
  {
    if 0 <= offset <= |input| then input[offset..] else []
  }

  predicate Meets(r: Converted, reading: Reading, offset: int) {
    match reading
    case Malformed => r.Failed?
    case EndOfContents => r == Item([], offset + 2, true)
    case Element(t, size) => r == Item(Print(Normal(t)), offset + size, false)
  }

  method ReadBerObject(input: seq<byte>, offset: int, depth: nat) returns (r: Converted)
    requires |input| < INT_LIMIT
    ensures Meets(r, Read(From(input, offset), depth), offset)
    decreases |From(input, offset)|, 0
  {
    hide Read, ReadHeader, TagSize, ReadLength, ReadDefinite, ReadIndefinite, Rest, Rebuilt, Header, Print, Normal;
    ghost var s := From(input, offset);
    ReadRefuses(s, depth);
    if depth > MAX_DEPTH || offset < 0 || offset >= |input| {
      return Failed;
    }
    assert 2 <= |s| ==> s[..2] == [input[offset], input[offset + 1]];
    if |input| - offset >= 2 && input[offset] == 0 && input[offset + 1] == 0 {
      return Item([], offset + 2, true);
    }
    var tag, constructed, tagEnd := ReadBerTag(input, offset);
    if tagEnd.None? {
      HeaderFromParts(s);
      return Failed;
    }
    var length, next := ReadBerLength(input, tagEnd.value);
    HeaderAt(input, offset, tagEnd.value);
    if next.None? || (length.None? && !constructed) {
      return Failed;
    }
    FromFrom(input, offset, next.value);
    ReadStep(s, depth, ReadHeader(s));
    if !constructed {
      if length.value > |input| - next.value {
        return Failed;
      }
      var content := input[next.value..next.value + length.value];
      Slice(input, next.value, length.value);
      var encoded := EncodeDerObject(tag, content);
      PrintPrimitive(tag, content);
      return Item(encoded, next.value + length.value, false);
    }
    r := ReadBerConstructed(input, tag, next.value, depth, if length.Some? then length.value else 0, length.None?);
    if length.None? {
      IndefiniteRebuilt(ReadHeader(s), input, next.value, depth);
    } else if length.value <= |input| - next.value {
      Slice(input, next.value, length.value);
      DefiniteRebuilt(ReadHeader(s), input, next.value, length.value, depth);
    }
  }

  lemma PrintPrimitive(tag: seq<byte>, content: seq<byte>)
    ensures Print(Normal(Primitive(tag, content))) == Header(tag, Some(|content|)) + content
  {
  }

  lemma DefiniteRebuilt(h: HeaderReading, input: seq<byte>, start: nat, length: nat, depth: nat)
    requires h.Found? && start + length <= |input|
    ensures Meets(Rebuilt(h.tag, Rest(input, start, start + length, depth + 1, false)),
                  ReadDefinite(h, input[start..start + length], depth), start - h.size)
  {
    hide ReadAll;
  }

  lemma IndefiniteRebuilt(h: HeaderReading, input: seq<byte>, start: nat, depth: nat)
    requires h.Found? && start <= |input|
    ensures Meets(Rebuilt(h.tag, Rest(input, start, |input|, depth + 1, true)),
                  ReadIndefinite(h, input[start..], depth), start - h.size)
  {
    hide ReadToEnd;
  }

  lemma FromFrom(input: seq<byte>, offset: nat, next: nat)
    requires offset <= next <= |input|
    ensures From(input, offset)[next - offset..] == input[next..]
  {
  }

  // When Read stops before the content.
  lemma ReadRefuses(s: seq<byte>, depth: nat)
    ensures depth > MAX_DEPTH || s == [] ==> Read(s, depth) == Malformed
    ensures depth <= MAX_DEPTH && 2 <= |s| && s[..2] == END_OF_CONTENTS ==> Read(s, depth) == EndOfContents
    ensures s != [] && !(2 <= |s| && s[..2] == END_OF_CONTENTS) && Unreadable(s, ReadHeader(s)) ==>
              Read(s, depth) == Malformed
  {
  }

  predicate Unreadable(s: seq<byte>, h: HeaderReading)
    requires s != []
  {
    || h.NoHeader?
    || (h.length.None? && !IsConstructedTag(s[0]))
    || (h.length.Some? && h.length.value > |s| - h.size)
  }

  lemma HeaderAt(input: seq<byte>, offset: nat, tagEnd: nat)
    requires offset < tagEnd <= |input| && TagSize(input[offset..]) == Some(tagEnd - offset)
    ensures var tag := input[offset..][..tagEnd - offset];
            ReadHeader(From(input, offset)) ==
            match ReadLength(input[tagEnd..])
            case NoLength => NoHeader
            case Indefinite => Found(tag, None, tagEnd + 1 - offset)
            case Definite(length, size) => Found(tag, Some(length), tagEnd + size - offset)
  {
    FromFrom(input, offset, tagEnd);
    HeaderFromParts(From(input, offset));
  }

  lemma HeaderFromParts(s: seq<byte>)
    requires s != []
    ensures TagSize(s).None? ==> ReadHeader(s).NoHeader?
    ensures TagSize(s).Some? ==>
              var n := TagSize(s).value;
              ReadHeader(s) == match ReadLength(s[n..])
                               case NoLength => NoHeader
                               case Indefinite => Found(s[..n], None, n + 1)
                               case Definite(length, size) => Found(s[..n], Some(length), n + size)
  {
  }

  method ReadBerTag(input: seq<byte>, offset: nat) returns (tag: seq<byte>, constructed: bool, next: Option<nat>)
    requires offset < |input|
    ensures match TagSize(input[offset..])
            case None => next.None?
            case Some(n) =>
              && next == Some(offset + n)
              && tag == input[offset..][..n]
              && constructed == IsConstructedTag(input[offset])
  {
    var end := offset + 1;
    if HasHighTag(input[offset]) {
      var highEnd := ReadBerHighTagEnd(input, offset, end);
      if highEnd.None? {
        return [], false, None;
      }
      end := highEnd.value;
    }
    return input[offset..end], IsConstructedTag(input[offset]), Some(end);
  }

  method ReadBerHighTagEnd(input: seq<byte>, tagStart: nat, offset: nat) returns (end: Option<nat>)
    requires offset == tagStart + 1 <= |input|
    ensures match HighTagEnd(input[tagStart..], 1)
            case None => end.None?
            case Some(n) => end == Some(tagStart + n)
  {
    var next, seen := offset, false;
    while true
      invariant tagStart < next <= |input|
      invariant seen <==> next > offset
      invariant HighTagEnd(input[tagStart..], next - tagStart) == HighTagEnd(input[tagStart..], 1)
      decreases |input| - next
    {
      if next >= |input| {
        return None;
      }
      var b := input[next];
      next := next + 1;
      if !seen && b == 0x80 {
        return None;
      }
      seen := true;
      if b < 0x80 {
        return Some(next);
      }
      if next - tagStart >= MAX_TAG_SIZE {
        return None;
      }
    }
  }

  // No length means the indefinite form.
  method ReadBerLength(input: seq<byte>, offset: nat) returns (length: Option<nat>, next: Option<nat>)
    requires offset <= |input|
    ensures match ReadLength(input[offset..])
            case NoLength => next.None?
            case Indefinite => length == None && next == Some(offset + 1)
            case Definite(n, size) => length == Some(n) && next == Some(offset + size)
  {
    if offset >= |input| {
      return None, None;
    }
    var first := input[offset];
    if first == 0x80 {
      return None, Some(offset + 1);
    }
    if first < 0x80 {
      return Some(first), Some(offset + 1);
    }
    var start, count := offset + 1, first - 0x80;
    if count == 0 || count > 4 || count > |input| - start || input[start] == 0 {
      return None, None;
    }
    ghost var digits := input[offset..][1..1 + count];
    assert digits == input[start..start + count];
    var n: nat := 0;
    for i := 0 to count
      invariant n == Value(digits[..i])
    {
      assert digits[..i + 1][..i] == digits[..i];
      n := 256 * n + input[start + i];
    }
    assert digits[..count] == digits;
    if n < 128 {
      return None, None;
    }
    return Some(n), Some(start + count);
  }

  // What the rest of a constructed element's content holds: its children, and where it ends.
  function Rest(input: seq<byte>, offset: nat, contentEnd: nat, depth: nat, indefinite: bool): Option<(Forest, int)>
    requires contentEnd <= |input|
  {
    if indefinite then
      if offset > |input| then None
      else
        match ReadToEnd(input[offset..], depth)
        case Some(r) => Some((r.0, offset + r.1))
        case None => None
    else if offset > contentEnd then None
    else
      match ReadAll(input[offset..contentEnd], depth)
      case Some(f) => Some((f, contentEnd))
      case None => None
  }

  // The element made of a tag and the normal forms of the children, unless it is too large.
  function Rebuilt(tag: seq<byte>, body: Option<(Forest, int)>): Converted {
    if body.None? || |PrintAll(NormalAll(body.value.0))| > MAX_SIZE then Failed
    else
      var content := PrintAll(NormalAll(body.value.0));
      Item(Header(tag, Some(|content|)) + content, body.value.1, false)
  }

  method ReadBerConstructed(input: seq<byte>, tag: seq<byte>, offset: nat, depth: nat, length: nat, indefinite: bool)
    returns (r: Converted)
    requires offset <= |input| < INT_LIMIT
    ensures !indefinite && length > |input| - offset ==> r.Failed?
    ensures indefinite || length <= |input| - offset ==>
              var contentEnd := if indefinite then |input| else offset + length;
              r == Rebuilt(tag, Rest(input, offset, contentEnd, depth + 1, indefinite))
    decreases |input| - offset, 2
  {
    hide Read, ReadAll, ReadToEnd, Header, Rest;
    var contentEnd := |input|;
    if !indefinite {
      if length > |input| - offset {
        return Failed;
      }
      contentEnd := offset + length;
    }
    ghost var whole := Rest(input, offset, contentEnd, depth + 1, indefinite);
    var content: seq<byte>, next := [], offset;
    while true
      invariant offset <= next <= |input| && |content| <= MAX_SIZE
      invariant Continues(whole, content, Rest(input, next, contentEnd, depth + 1, indefinite))
      decreases |input| - next
    {
      ghost var before := Rest(input, next, contentEnd, depth + 1, indefinite);
      var child := ReadBerConstructedChild(input, next, depth, contentEnd, indefinite);
      if child.ChildFailed? {
        return Failed;
      }
      if child.Done? {
        next := child.next;
        break;
      }
      ghost var after := Rest(input, child.next, contentEnd, depth + 1, indefinite);
      ContinueWith(whole, content, before, child.encoded, after);
      if |content| + |child.encoded| > MAX_SIZE {
        return Failed;
      }
      content := content + child.encoded;
      next := child.next;
    }
    var encoded := EncodeDerObject(tag, content);
    return Item(encoded, next, false);
  }

  // The whole content is what was re-encoded so far followed by what remains.
  ghost predicate Continues(whole: Option<(Forest, int)>, content: seq<byte>, rest: Option<(Forest, int)>) {
    if rest.None? then whole.None?
    else
      && whole.Some? && whole.value.1 == rest.value.1
      && PrintAll(NormalAll(whole.value.0)) == content + PrintAll(NormalAll(rest.value.0))
  }

  lemma ContinueWith(whole: Option<(Forest, int)>, content: seq<byte>, before: Option<(Forest, int)>,
                     encoded: seq<byte>, after: Option<(Forest, int)>)
    requires Continues(whole, content, before) && Continues(before, encoded, after)
    ensures Continues(whole, content + encoded, after)
  {
  }

  method ReadBerConstructedChild(input: seq<byte>, offset: nat, depth: nat, contentEnd: nat, indefinite: bool)
    returns (r: ChildResult)
    requires contentEnd <= |input| < INT_LIMIT && offset <= |input|
    ensures var rest := Rest(input, offset, contentEnd, depth + 1, indefinite);
            match r
            case ChildFailed => rest.None?
            case Done(next) => rest == Some((Nil, next)) && offset <= next <= |input|
            case Child(encoded, next) =>
              && offset < next <= |input|
              && Continues(rest, encoded, Rest(input, next, contentEnd, depth + 1, indefinite))
    decreases |input| - offset, 1
  {
    hide Read, Print, Normal;
    if indefinite {
      if offset >= |input| {
        NoReading(depth + 1);
        return ChildFailed;
      }
    } else if offset == contentEnd {
      return Done(offset);
    } else if offset > contentEnd {
      return ChildFailed;
    }
    var item := ReadBerObject(input, offset, depth + 1);
    ghost var s := input[offset..];
    if !indefinite {
      WindowRead(s, contentEnd - offset, depth + 1);
      assert s[..contentEnd - offset] == input[offset..contentEnd];
    }
    if item.Failed? {
      return ChildFailed;
    }
    if item.eoc {
      if !indefinite {
        return ChildFailed;
      }
      return Done(item.next);
    }
    if item.next <= offset {
      // The parser always makes progress.
      assert false;
      return ChildFailed;
    }
    ghost var size := item.next - offset;
    assert s[size..] == input[item.next..];
    assert !indefinite && item.next <= contentEnd ==> input[offset..contentEnd][size..] == input[item.next..contentEnd];
    return Child(item.encoded, item.next);
  }

  lemma NoReading(depth: nat)
    ensures Read([], depth) == Malformed
  {
  }

  method EncodeDerObject(tag: seq<byte>, content: seq<byte>) returns (encoded: seq<byte>)
    requires |content| < INT_LIMIT
    ensures encoded == Header(tag, Some(|content|)) + content
  {
    encoded := AppendDerLength(tag, |content|);
    encoded := encoded + content;
  }

  lemma EightDigits(n: nat)
    requires n < INT_LIMIT
    ensures |Digits(n)| <= 8
  {
    SmallPowers();
    DigitsFit(n, 8);
  }

  lemma LengthOctetsShort(n: nat)
    requires n < 128
    ensures LengthOctets(n) == [n]
  {
  }

  lemma LengthOctetsLong(n: nat)
    requires 128 <= n && |Digits(n)| <= 8
    ensures Digits(n) != [] && LengthOctets(n) == [0x80 + |Digits(n)|] + Digits(n)
  {
  }

  lemma DigitsShift(n: nat, rest: nat, done: seq<byte>)
    requires rest > 0 && Digits(n) == Digits(rest) + done
    ensures |Digits(rest)| == |Digits(rest / 256)| + 1
    ensures Digits(n) == Digits(rest / 256) + ([rest % 256] + done)
  {
    DigitsStep(rest);
    hide Digits;
    Associative(Digits(rest / 256), [rest % 256], done);
  }

  method AppendDerLength(dst: seq<byte>, length: nat) returns (r: seq<byte>)
    requires length < INT_LIMIT
    ensures r == dst + LengthOctets(length)
  {
    hide Digits, Power256, LengthOctets;
    if length < 128 {
      LengthOctetsShort(length);
      return dst + [length];
    }
    var encoded := new byte[8];
    var i, rest := encoded.Length, length;
    EightDigits(length);
    while rest > 0
      invariant 0 <= |Digits(rest)| <= i <= encoded.Length
      invariant Digits(length) == Digits(rest) + encoded[i..]
    {
      ghost var done := encoded[i..];
      DigitsShift(length, rest, done);
      i := i - 1;
      encoded[i] := rest % 256;
      assert encoded[i..] == [rest % 256] + done;
      rest := rest / 256;
    }
    assert encoded[i..] == Digits(length);
    LengthOctetsLong(length);
    r := dst + [0x80 + (encoded.Length - i)];
    Associative(dst, [0x80 + (encoded.Length - i)], encoded[i..]);
    r := r + encoded[i..];
  }
}
