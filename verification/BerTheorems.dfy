// What the conversion guarantees. The methods of BerConverter compute Convert.
module BerTheorems {
  import opened Bytes
  import opened BerSyntax
  import opened BerReader
  import opened BerGrammar
  import opened BerConverter

  ghost predicate Encodes(input: seq<byte>, t: Tlv) {
    Admissible(t, 0) && Print(t) == input
  }

  // Two trees of one value: the same tags, the same primitive contents, and as many children in
  // the same order; only the length forms may differ.
  ghost predicate SameValue(t: Tlv, u: Tlv) {
    match t
    case Primitive(tag, content) => u == Primitive(tag, content)
    case Constructed(tag, _, children) =>
      u.Constructed? && u.tag == tag && SameValues(children, u.children)
  }

  ghost predicate SameValues(f: Forest, g: Forest) {
    match f
    case Nil => g.Nil?
    case Cons(head, tail) => g.Cons? && SameValue(head, g.head) && SameValues(tail, g.tail)
  }

  ghost predicate AllDefinite(t: Tlv) {
    t.Constructed? ==> !t.indefinite && EachDefinite(t.children)
  }

  ghost predicate EachDefinite(f: Forest) {
    f.Cons? ==> AllDefinite(f.head) && EachDefinite(f.tail)
  }

  // The normal form keeps the value, and no element of it is indefinite.
  lemma {:induction false} NormalForm(t: Tlv)
    ensures SameValue(t, Normal(t)) && AllDefinite(Normal(t))
    decreases t
  {
    if t.Constructed? {
      NormalForms(t.children);
    }
  }

  lemma {:induction false} NormalForms(f: Forest)
    ensures SameValues(f, NormalAll(f)) && EachDefinite(NormalAll(f))
    decreases f
  {
    if f.Cons? {
      NormalForm(f.head);
      NormalForms(f.tail);
    }
  }

  // Normal forms are equal exactly for trees of one value.
  lemma {:induction false} SameNormalForm(t: Tlv, u: Tlv)
    ensures Normal(t) == Normal(u) <==> SameValue(t, u)
    decreases t
  {
    if t.Constructed? && u.Constructed? {
      SameNormalForms(t.children, u.children);
    }
  }

  lemma {:induction false} SameNormalForms(f: Forest, g: Forest)
    ensures NormalAll(f) == NormalAll(g) <==> SameValues(f, g)
    decreases f
  {
    if f.Cons? && g.Cons? {
      SameNormalForm(f.head, g.head);
      SameNormalForms(f.tail, g.tail);
    }
  }

  lemma {:induction false} DefiniteIsNormal(t: Tlv)
    ensures Normal(t) == t <==> AllDefinite(t)
    decreases t
  {
    if t.Constructed? {
      EachDefiniteIsNormal(t.children);
    }
  }

  lemma {:induction false} EachDefiniteIsNormal(f: Forest)
    ensures NormalAll(f) == f <==> EachDefinite(f)
    decreases f
  {
    if f.Cons? {
      DefiniteIsNormal(f.head);
      EachDefiniteIsNormal(f.tail);
    }
  }

  // Meaning preservation: an accepted input denotes exactly one tree, and the output is the
  // definite, minimal-length encoding of that tree, from which the same value is read back:
  // every tag, every primitive content and every child in its place.
  lemma MeaningPreserved(input: seq<byte>, out: seq<byte>) returns (t: Tlv)
    requires Convert(input) == Some(out)
    ensures Encodes(input, t) && (forall u :: Encodes(input, u) ==> u == t)
    ensures out == Print(Normal(t)) && Read(out, 0) == Element(Normal(t), |out|)
    ensures SameValue(t, Read(out, 0).tree) && AllDefinite(Read(out, 0).tree)
  {
    t := Read(input, 0).tree;
    ReadSound(input, 0);
    assert input[..|input|] == input;
    forall u | Encodes(input, u) ensures u == t {
      PrintPrefixFree(t, u, 0, [], []);
    }
    NormalAdmissible(t, 0);
    NormalForm(t);
    ReadComplete(Normal(t), 0, []);
    assert out + [] == out;
  }

  // Completeness: every admissible tree that fits the input limit converts to its normal form.
  lemma Complete(t: Tlv)
    requires Admissible(t, 0) && |Print(t)| <= MAX_SIZE
    ensures Convert(Print(t)) == Some(Print(Normal(t)))
    ensures SameValue(t, Normal(t)) && AllDefinite(Normal(t))
  {
    NormalForm(t);
    ReadComplete(t, 0, []);
    assert Print(t) + [] == Print(t);
  }

  // The inputs accepted are exactly the encodings of admissible trees, within the input limit.
  lemma AcceptedInputs(input: seq<byte>)
    ensures Convert(input).Some? <==> |input| <= MAX_SIZE && exists t :: Encodes(input, t)
  {
    if Convert(input).Some? {
      var t := MeaningPreserved(input, Convert(input).value);
    }
    if |input| <= MAX_SIZE && exists t :: Encodes(input, t) {
      var t :| Encodes(input, t);
      Complete(t);
    }
  }

  // An element and all those inside it, each with its nesting depth.
  ghost predicate Inside(e: Tlv, at: nat, t: Tlv, depth: nat)
    decreases t
  {
    || (e == t && at == depth)
    || (t.Constructed? && InsideAny(e, at, t.children, depth + 1))
  }

  ghost predicate InsideAny(e: Tlv, at: nat, f: Forest, depth: nat)
    decreases f
  {
    f.Cons? && (Inside(e, at, f.head, depth) || InsideAny(e, at, f.tail, depth))
  }

  ghost predicate IdentifierOctets(tag: seq<byte>) {
    || (|tag| == 1 && tag[0] % 32 != 31)
    || (2 <= |tag| <= 9 && tag[0] % 32 == 31 && tag[1] != 0x80 && tag[|tag| - 1] < 0x80
        && forall i :: 1 <= i < |tag| - 1 ==> tag[i] >= 0x80)
  }

  // The limits on one element: its depth, its tag, and the size of its content.
  ghost predicate WithinLimits(e: Tlv, depth: nat) {
    && depth <= 32 && IdentifierOctets(e.tag)
    && match e
       case Primitive(tag, content) =>
         tag[0] / 32 % 2 == 0 && |content| < 0x1_0000_0000 && !(tag == [0] && content == [])
       case Constructed(tag, indefinite, children) =>
         && tag[0] / 32 % 2 == 1
         && |PrintAll(NormalAll(children))| <= 0x10_0000
         && (indefinite ==> depth <= 31)
         && (!indefinite ==> |PrintAll(children)| < 0x1_0000_0000)
  }

  // The limits are local: a tree is admissible exactly when each element in it is within them,
  // whatever its kind and wherever it is.
  lemma {:induction false} LimitsAreLocal(t: Tlv, depth: nat)
    ensures Admissible(t, depth) <==> forall e, at :: Inside(e, at, t, depth) ==> WithinLimits(e, at)
    decreases t
  {
    TopLimits(t, depth);
    assert Inside(t, depth, t, depth);
    hide Admissible, WithinLimits;
    if t.Constructed? {
      LimitsAreLocalIn(t.children, depth + 1);
      assert forall e, at :: InsideAny(e, at, t.children, depth + 1) ==> Inside(e, at, t, depth);
    }
  }

  lemma TopLimits(t: Tlv, depth: nat)
    ensures Admissible(t, depth) <==>
              WithinLimits(t, depth) && (t.Constructed? ==> AdmissibleAll(t.children, depth + 1))
  {
    hide AdmissibleAll, PrintAll, NormalAll;
  }

  lemma {:induction false} LimitsAreLocalIn(f: Forest, depth: nat)
    ensures AdmissibleAll(f, depth) <==> forall e, at :: InsideAny(e, at, f, depth) ==> WithinLimits(e, at)
    decreases f
  {
    hide Admissible, WithinLimits;
    if f.Cons? {
      LimitsAreLocal(f.head, depth);
      LimitsAreLocalIn(f.tail, depth);
      assert forall e, at :: Inside(e, at, f.head, depth) ==> InsideAny(e, at, f, depth);
      assert forall e, at :: InsideAny(e, at, f.tail, depth) ==> InsideAny(e, at, f, depth);
    }
  }

  ghost predicate IndefiniteWithin(t: Tlv, depth: nat) {
    t.Constructed? ==> (t.indefinite ==> depth < MAX_DEPTH) && IndefiniteAllWithin(t.children, depth + 1)
  }

  ghost predicate IndefiniteAllWithin(f: Forest, depth: nat) {
    f.Cons? ==> IndefiniteWithin(f.head, depth) && IndefiniteAllWithin(f.tail, depth)
  }

  // Any choice of forms for an admissible value is admissible as long as every indefinite
  // element is at depth 31 at most; a definite element may be one level deeper.
  lemma {:induction false} FormChoices(t: Tlv, depth: nat)
    requires Admissible(Normal(t), depth) && |Print(t)| < LENGTH_LIMIT
    ensures Admissible(t, depth) <==> IndefiniteWithin(t, depth)
    decreases t
  {
    if t.Constructed? {
      FormChoicesAll(t.children, depth + 1);
      NormalAllTwice(t.children);
    }
  }

  lemma {:induction false} FormChoicesAll(f: Forest, depth: nat)
    requires AdmissibleAll(NormalAll(f), depth) && |PrintAll(f)| < LENGTH_LIMIT
    ensures AdmissibleAll(f, depth) <==> IndefiniteAllWithin(f, depth)
    decreases f
  {
    if f.Cons? {
      FormChoices(f.head, depth);
      FormChoicesAll(f.tail, depth);
    }
  }

  lemma NormalTwice(t: Tlv)
    ensures Normal(Normal(t)) == Normal(t)
    decreases t
  {
    if t.Constructed? {
      NormalAllTwice(t.children);
    }
  }

  lemma NormalAllTwice(f: Forest)
    ensures NormalAll(NormalAll(f)) == NormalAll(f)
    decreases f
  {
    if f.Cons? {
      NormalTwice(f.head);
      NormalAllTwice(f.tail);
    }
  }

  // Two encodings convert to the same bytes exactly when they differ only in the length forms.
  lemma ChoiceIndependent(t: Tlv, u: Tlv)
    requires Admissible(t, 0) && |Print(t)| <= MAX_SIZE
    requires Admissible(u, 0) && |Print(u)| <= MAX_SIZE
    ensures Convert(Print(t)) == Convert(Print(u)) <==> SameValue(t, u)
  {
    SameNormalForm(t, u);
    Complete(t);
    Complete(u);
    NormalAdmissible(t, 0);
    NormalAdmissible(u, 0);
    if Print(Normal(t)) == Print(Normal(u)) {
      PrintPrefixFree(Normal(t), Normal(u), 0, [], []);
    }
  }

  // Input is returned unchanged exactly when all its lengths are definite.
  lemma Fixpoint(t: Tlv)
    requires Admissible(t, 0) && |Print(t)| <= MAX_SIZE
    ensures Convert(Print(t)) == Some(Print(t)) <==> AllDefinite(t)
  {
    DefiniteIsNormal(t);
    Complete(t);
    NormalAdmissible(t, 0);
    if Print(Normal(t)) == Print(t) {
      PrintPrefixFree(Normal(t), t, 0, [], []);
    }
  }

  // The output converts to itself, exactly when it fits the input limit.
  lemma Idempotent(input: seq<byte>, out: seq<byte>)
    requires Convert(input) == Some(out)
    ensures Convert(out) == if |out| <= MAX_SIZE then Some(out) else None
  {
    var t := MeaningPreserved(input, out);
    NormalAdmissible(t, 0);
    if |out| <= MAX_SIZE {
      Complete(Normal(t));
    }
  }

  lemma LengthOctetsMonotone(m: nat, n: nat)
    requires m <= n
    ensures |LengthOctets(m)| <= |LengthOctets(n)|
  {
    DigitsMonotone(m, n);
  }

  lemma LengthOctetsBelow(n: nat)
    ensures n < 0x1_0000 ==> |LengthOctets(n)| <= 3
    ensures n < 0x100_0000 ==> |LengthOctets(n)| <= 4
  {
    SmallPowers();
    DigitsFit(n, 2);
    DigitsFit(n, 3);
  }

  // An encoding below 64 KiB does not grow.
  lemma {:induction false} NormalNotLonger(t: Tlv)
    requires |Print(t)| < 0x1_0000
    ensures |Print(Normal(t))| <= |Print(t)|
    decreases t
  {
    if t.Constructed? {
      NormalAllNotLonger(t.children);
      var n, m := |PrintAll(NormalAll(t.children))|, |PrintAll(t.children)|;
      LengthOctetsMonotone(n, m);
      LengthOctetsBelow(n);
    }
  }

  lemma {:induction false} NormalAllNotLonger(f: Forest)
    requires |PrintAll(f)| < 0x1_0000
    ensures |PrintAll(NormalAll(f))| <= |PrintAll(f)|
    decreases f
  {
    if f.Cons? {
      NormalNotLonger(f.head);
      NormalAllNotLonger(f.tail);
    }
  }

  lemma OutputBounds(input: seq<byte>, out: seq<byte>)
    requires Convert(input) == Some(out)
    ensures |input| < 0x1_0000 ==> |out| <= |input|
    ensures |out| <= MAX_SIZE + 13
  {
    var t := MeaningPreserved(input, out);
    if |input| < 0x1_0000 {
      NormalNotLonger(t);
    }
    if t.Constructed? {
      LengthOctetsBelow(|PrintAll(NormalAll(t.children))|);
    }
  }

  // An element may indeed be longer in its definite form, and the converter can return more
  // bytes than it accepts: an indefinite element saves a length octet at 2^16 content octets.
  lemma GrowthExample(tag: seq<byte>, children: Forest)
    requires 0x1_0000 <= |PrintAll(children)| < 0x100_0000 && NormalAll(children) == children
    ensures |Print(Normal(Constructed(tag, true, children)))| == |Print(Constructed(tag, true, children))| + 1
  {
    var n := |PrintAll(children)|;
    SmallPowers();
    DigitsFit(n, 2);
    DigitsFit(n, 3);
  }
}
