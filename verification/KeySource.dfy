// Key sources of an Initialize request and their fingerprints (envelope.go). SHA-256 is treated
// as injective, so a fingerprint is the byte string that is hashed.
module KeySource {
  import opened Bytes

  // The proto enumeration is open: any number can arrive on the wire.
  type Algorithm = int
  const UNSPECIFIED: Algorithm := 0
  const BLS: Algorithm := 1
  const ED25519: Algorithm := 2

  type Fingerprint = seq<byte>

  datatype Envelope = Envelope(algorithm: Algorithm, dataKey: seq<byte>, privateKey: seq<byte>, nonce: seq<byte>)

  datatype Source = Existing(envelope: Envelope) | Generate(algorithm: Algorithm) | Missing

  predicate Known(algorithm: Algorithm) { algorithm == BLS || algorithm == ED25519 }

  predicate Filled(e: Envelope) { e.dataKey != [] && e.privateKey != [] && e.nonce != [] }

  // The ASCII text of a label.
  const EXISTING_LABEL: seq<byte> :=
    [105, 110, 105, 116, 105, 97, 108, 105, 122, 101, 45, 101, 120, 105, 115, 116, 105, 110, 103, 45, 118, 49]
  const GENERATE_LABEL: seq<byte> :=
    [105, 110, 105, 116, 105, 97, 108, 105, 122, 101, 45, 103, 101, 110, 101, 114, 97, 116, 101, 45, 118, 49]

  // A 32-bit number, most significant byte first; larger numbers are truncated.
  function Word(n: nat): (w: seq<byte>)
    ensures |w| == 4
  {
    [n / 0x100_0000 % 0x100, n / 0x1_0000 % 0x100, n / 0x100 % 0x100, n % 0x100]
  }

  function Preimage(parts: seq<seq<byte>>): Fingerprint {
    if parts == [] then [] else Word(|parts[0]|) + parts[0] + Preimage(parts[1..])
  }

  function Parts(source: Source): Option<seq<seq<byte>>> {
    match source
    case Existing(e) =>
      if !Filled(e) || !Known(e.algorithm) then None
      else Some([EXISTING_LABEL, [e.algorithm], e.dataKey, e.privateKey, e.nonce])
    case Generate(algorithm) =>
      if !Known(algorithm) then None else Some([GENERATE_LABEL, Word(algorithm)])
    case Missing => None
  }

  function FingerprintOf(source: Source): Option<Fingerprint> {
    match Parts(source)
    case None => None
    case Some(parts) => Some(Preimage(parts))
  }

  method FingerprintKeySource(source: Source) returns (r: Option<Fingerprint>)
    ensures r == FingerprintOf(source)
  {
    var parts: seq<seq<byte>>;
    match source {
      case Existing(e) =>
        if !Filled(e) || !Known(e.algorithm) {
          return None;
        }
        parts := [EXISTING_LABEL, [e.algorithm], e.dataKey, e.privateKey, e.nonce];
      case Generate(algorithm) =>
        if !Known(algorithm) {
          return None;
        }
        parts := [GENERATE_LABEL, Word(algorithm)];
      case Missing =>
        return None;
    }
    var fingerprint := HashKeySourceFields(parts);
    return Some(fingerprint);
  }

  // The hash absorbs every field behind its length, written to one reused buffer.
  method HashKeySourceFields(args: seq<seq<byte>>) returns (absorbed: Fingerprint)
    ensures absorbed == Preimage(args)
  {
    absorbed := [];
    var lenBuf := new byte[4];
    for i := 0 to |args|
      invariant Preimage(args) == absorbed + Preimage(args[i..])
    {
      PutUint32(lenBuf, |args[i]|);
      var before := absorbed;
      absorbed := absorbed + lenBuf[..];
      absorbed := absorbed + args[i];
      assert args[i..][1..] == args[i + 1..];
      assert before + (Word(|args[i]|) + args[i] + Preimage(args[i + 1..])) == absorbed + Preimage(args[i + 1..]);
    }
  }

  method PutUint32(buffer: array<byte>, n: nat)
    requires buffer.Length == 4
    modifies buffer
    ensures buffer[..] == Word(n)
  {
    buffer[0] := n / 0x100_0000 % 0x100;
    buffer[1] := n / 0x1_0000 % 0x100;
    buffer[2] := n / 0x100 % 0x100;
    buffer[3] := n % 0x100;
  }

  predicate FieldsFit(parts: seq<seq<byte>>) {
    forall i :: 0 <= i < |parts| ==> |parts[i]| < 0x1_0000_0000
  }

  lemma WordInjective(m: nat, n: nat)
    requires m < 0x1_0000_0000 && n < 0x1_0000_0000 && Word(m) == Word(n)
    ensures m == n
  {
    WordDigits(m);
    WordDigits(n);
    assert Word(m)[0] == Word(n)[0] && Word(m)[1] == Word(n)[1] && Word(m)[2] == Word(n)[2] && Word(m)[3] == Word(n)[3];
  }

  lemma WordDigits(n: nat)
    requires n < 0x1_0000_0000
    ensures n == 0x100_0000 * (Word(n)[0] as int) + 0x1_0000 * (Word(n)[1] as int)
                 + 0x100 * (Word(n)[2] as int) + (Word(n)[3] as int)
  {
    var a := n / 0x100;
    var b := a / 0x100;
    assert b == n / 0x1_0000 && b / 0x100 == n / 0x100_0000;
  }

  // The length prefixes keep the fields apart.
  lemma {:induction false} PreimageInjective(p: seq<seq<byte>>, q: seq<seq<byte>>)
    requires FieldsFit(p) && FieldsFit(q) && Preimage(p) == Preimage(q)
    ensures p == q
    decreases |p|
  {
    if p != [] && q != [] {
      var x, y := Preimage(p), Preimage(q);
      assert x[..4] == Word(|p[0]|) && y[..4] == Word(|q[0]|);
      WordInjective(|p[0]|, |q[0]|);
      var n := 4 + |p[0]|;
      assert x[4..n] == p[0] && y[4..n] == q[0];
      assert x[n..] == Preimage(p[1..]) && y[n..] == Preimage(q[1..]);
      PreimageInjective(p[1..], q[1..]);
      assert p == [p[0]] + p[1..] && q == [q[0]] + q[1..];
    }
  }

  ghost predicate SourceFits(source: Source) {
    source.Existing? ==>
      var e := source.envelope;
      |e.dataKey| < 0x1_0000_0000 && |e.privateKey| < 0x1_0000_0000 && |e.nonce| < 0x1_0000_0000
  }

  // Two valid key sources have the same fingerprint exactly when they are the same.
  lemma FingerprintInjective(a: Source, b: Source)
    requires FingerprintOf(a).Some? && FingerprintOf(b).Some? && SourceFits(a) && SourceFits(b)
    ensures FingerprintOf(a) == FingerprintOf(b) <==> a == b
  {
    if FingerprintOf(a) == FingerprintOf(b) {
      var p, q := Parts(a).value, Parts(b).value;
      PartsFit(a);
      PartsFit(b);
      PreimageInjective(p, q);
      assert p[0] == q[0] && p[1] == q[1];
      assert EXISTING_LABEL[11] != GENERATE_LABEL[11];
      match a {
        case Existing(e) =>
          assert [e.algorithm] == [b.envelope.algorithm];
          assert p[2] == q[2] && p[3] == q[3] && p[4] == q[4];
          assert [e.algorithm][0] == [b.envelope.algorithm][0];
        case Generate(algorithm) =>
          WordInjective(algorithm, b.algorithm);
      }
    }
  }

  lemma PartsFit(source: Source)
    requires Parts(source).Some? && SourceFits(source)
    ensures FieldsFit(Parts(source).value)
  {
  }

  // Exactly the complete sources with a known algorithm have a fingerprint, and its layout.
  lemma FingerprintLayout(source: Source)
    ensures match source
            case Existing(e) =>
              && (FingerprintOf(source).Some? <==>
                    && e.dataKey != [] && e.privateKey != [] && e.nonce != []
                    && (e.algorithm == 1 || e.algorithm == 2))
              && (FingerprintOf(source).Some? ==>
                    FingerprintOf(source).value ==
                    Word(22) + EXISTING_LABEL + (Word(1) + [e.algorithm] + (Word(|e.dataKey|) + e.dataKey
                    + (Word(|e.privateKey|) + e.privateKey + (Word(|e.nonce|) + e.nonce)))))
            case Generate(algorithm) =>
              && (FingerprintOf(source).Some? <==> algorithm == 1 || algorithm == 2)
              && (FingerprintOf(source).Some? ==>
                    FingerprintOf(source).value == Word(22) + GENERATE_LABEL + (Word(4) + [0, 0, 0, algorithm]))
            case Missing => FingerprintOf(source).None?
  {
    hide Word, Preimage;
    EmptyPreimage();
    match source
    case Existing(e) =>
      if FingerprintOf(source).Some? {
        var nonce, keys := [e.nonce], [e.privateKey] + [e.nonce];
        var rest := [e.dataKey] + keys;
        PreimageParts(EXISTING_LABEL, [[e.algorithm]] + rest);
        PreimageParts([e.algorithm], rest);
        PreimageParts(e.dataKey, keys);
        PreimageParts(e.privateKey, nonce);
        PreimageParts(e.nonce, []);
        assert Parts(source).value == [EXISTING_LABEL] + ([[e.algorithm]] + rest);
      }
    case Generate(algorithm) =>
      if FingerprintOf(source).Some? {
        SmallWord(algorithm);
        PreimageParts(GENERATE_LABEL, [Word(algorithm)]);
        PreimageParts(Word(algorithm), []);
        assert Parts(source).value == [GENERATE_LABEL] + [Word(algorithm)];
      }
    case Missing =>
  }

  lemma EmptyPreimage()
    ensures Preimage([]) == []
  {
  }

  lemma SmallWord(n: nat)
    requires n < 256
    ensures Word(n) == [0, 0, 0, n]
  {
  }

  lemma PreimageParts(part: seq<byte>, parts: seq<seq<byte>>)
    ensures Preimage([part] + parts) == Word(|part|) + part + Preimage(parts)
    ensures Preimage([part]) == Word(|part|) + part
  {
    assert [part] + [] == [part] && [part][1..] == [];
    assert ([part] + parts)[1..] == parts;
  }

  // The same secret under two algorithms is two key sources, whatever the field lengths.
  lemma AlgorithmsDiffer(e: Envelope, a: Algorithm, b: Algorithm)
    requires FingerprintOf(Existing(e.(algorithm := a))).Some? && FingerprintOf(Existing(e.(algorithm := b))).Some?
    requires a != b
    ensures FingerprintOf(Existing(e.(algorithm := a))) != FingerprintOf(Existing(e.(algorithm := b)))
  {
    AlgorithmOctet(e.(algorithm := a));
    AlgorithmOctet(e.(algorithm := b));
  }

  lemma AlgorithmOctet(e: Envelope)
    requires FingerprintOf(Existing(e)).Some?
    ensures |FingerprintOf(Existing(e)).value| > 30 && FingerprintOf(Existing(e)).value[30] == e.algorithm
  {
    var p := Parts(Existing(e)).value;
    var rest := p[1..];
    assert rest[0] == [e.algorithm];
    assert Preimage(rest) == Word(1) + [e.algorithm] + Preimage(rest[1..]);
    assert Preimage(p) == Word(|EXISTING_LABEL|) + EXISTING_LABEL + Preimage(rest);
  }

  // A generation request is never mistaken for an existing key, whatever the field lengths.
  lemma KindsDiffer(e: Envelope, algorithm: Algorithm)
    requires FingerprintOf(Existing(e)).Some? && FingerprintOf(Generate(algorithm)).Some?
    ensures FingerprintOf(Existing(e)) != FingerprintOf(Generate(algorithm))
    ensures Filled(e)
  {
    var p, q := Parts(Existing(e)).value, Parts(Generate(algorithm)).value;
    assert Preimage(p) == Word(|EXISTING_LABEL|) + EXISTING_LABEL + Preimage(p[1..]);
    assert Preimage(q) == Word(|GENERATE_LABEL|) + GENERATE_LABEL + Preimage(q[1..]);
    assert Preimage(p)[15] == EXISTING_LABEL[11] && Preimage(q)[15] == GENERATE_LABEL[11];
  }
}
