// Building a candidate signing key inside the enclave (envelope.go, initrunner.go). KMS, AES-GCM
// and key serialization are functions of a World that obey only their inverse laws and the sizes
// of serialized keys; the random choices of a generation and the failures of KMS and of the
// attestation device are inputs.
module KeyMaterial {
  import opened Bytes
  import opened KeySource

  datatype SigningKey = SigningKey(algorithm: Algorithm, secret: seq<byte>)

  datatype World = World(
    unwrap: seq<byte> -> Option<seq<byte>>,                            // KMS: wrapped data key to data key
    toRecipient: seq<byte> -> seq<byte>,                               // KMS: envelope for the attested enclave
    fromRecipient: seq<byte> -> Option<seq<byte>>,                     // the enclave opens that envelope
    canonical: seq<byte> -> Option<seq<byte>>,                         // AES key deserialized and serialized
    seal: (seq<byte>, seq<byte>, seq<byte>) -> seq<byte>,              // data key, nonce, plaintext
    unseal: (seq<byte>, seq<byte>, seq<byte>) -> Option<seq<byte>>,    // data key, nonce, ciphertext
    isKey: SigningKey -> bool,                                         // what key generation can return
    serialize: SigningKey -> seq<byte>,
    deserialize: (Algorithm, seq<byte>) -> Option<SigningKey>,
    publicKey: SigningKey -> Option<seq<byte>>)

  // The sizes of serialized secret keys; each algorithm refuses a secret of any other size.
  function SecretSize(algorithm: Algorithm): nat
    requires Known(algorithm)
  {
    if algorithm == BLS then 32 else 64
  }

  ghost predicate Lawful(w: World) {
    && (forall dk :: w.fromRecipient(w.toRecipient(dk)) == Some(dk))
    && (forall dk, nonce, m :: w.unseal(dk, nonce, w.seal(dk, nonce, m)) == Some(m))
    && (forall k: SigningKey :: w.isKey(k) ==> w.deserialize(k.algorithm, w.serialize(k)) == Some(k))
    && (forall a: Algorithm, s :: w.deserialize(a, s).Some? ==> Known(a) && |s| == SecretSize(a))
  }

  // The random choices of one generation.
  datatype Draw = Draw(dataKey: seq<byte>, wrapped: seq<byte>, key: SigningKey, nonce: seq<byte>)

  ghost predicate Drawn(w: World, algorithm: Algorithm, d: Draw) {
    w.unwrap(d.wrapped) == Some(d.dataKey) && d.key.algorithm == algorithm && w.isKey(d.key)
  }

  // What one initialization run meets outside the enclave.
  datatype Surroundings = Surroundings(
    providerBuilt: bool, kmsAnswers: bool, draw: Draw, attestation: Option<seq<byte>>)

  datatype Reply = Reply(publicKey: seq<byte>, attestation: seq<byte>, envelope: Option<Envelope>)

  datatype Candidate = Candidate(key: SigningKey, reply: Reply)

  // What KMS returns for a data key: in Nitro mode only the enveloped form.
  function KmsResponse(w: World, nitro: bool, dataKey: seq<byte>): (seq<byte>, seq<byte>) {
    if nitro then ([], w.toRecipient(dataKey)) else (dataKey, [])
  }

  function ReceiveDataKey(w: World, nitro: bool, response: (seq<byte>, seq<byte>)): Option<seq<byte>> {
    var plaintext := if nitro then w.fromRecipient(response.1) else Some(response.0);
    if plaintext.None? then None else w.canonical(plaintext.value)
  }

  function DecryptDataKey(w: World, nitro: bool, kmsAnswers: bool, wrapped: seq<byte>): Option<seq<byte>> {
    if wrapped == [] || !kmsAnswers || w.unwrap(wrapped).None? then None
    else ReceiveDataKey(w, nitro, KmsResponse(w, nitro, w.unwrap(wrapped).value))
  }

  function LoadKeyCandidate(w: World, nitro: bool, kmsAnswers: bool, e: Envelope): Option<SigningKey> {
    if !Known(e.algorithm) then None
    else
      match DecryptDataKey(w, nitro, kmsAnswers, e.dataKey)
      case None => None
      case Some(dataKey) =>
        match w.unseal(dataKey, e.nonce, e.privateKey)
        case None => None
        case Some(secret) => w.deserialize(e.algorithm, secret)
  }

  function GenerateEnvelopeCandidate(w: World, nitro: bool, kmsAnswers: bool, algorithm: Algorithm, d: Draw)
    : Option<(Envelope, SigningKey, seq<byte>)>
  {
    if !Known(algorithm) || !kmsAnswers then None
    else
      match ReceiveDataKey(w, nitro, KmsResponse(w, nitro, d.dataKey))
      case None => None
      case Some(dataKey) =>
        match w.publicKey(d.key)
        case None => None
        case Some(pk) =>
          var sealed := w.seal(dataKey, d.nonce, w.serialize(d.key));
          Some((Envelope(algorithm, d.wrapped, sealed, d.nonce), d.key, pk))
  }

  function RunInit(w: World, nitro: bool, source: Source, s: Surroundings): Option<Candidate> {
    if !s.providerBuilt then None
    else
      match source
      case Existing(e) => (
        match LoadKeyCandidate(w, nitro, s.kmsAnswers, e)
        case None => None
        case Some(key) =>
          match w.publicKey(key)
          case None => None
          case Some(pk) => Attested(nitro, s.attestation, key, pk, None)
      )
      case Generate(algorithm) => (
        match GenerateEnvelopeCandidate(w, nitro, s.kmsAnswers, algorithm, s.draw)
        case None => None
        case Some(r) => Attested(nitro, s.attestation, r.1, r.2, Some(r.0))
      )
      case Missing => None
  }

  function Attested(nitro: bool, attestation: Option<seq<byte>>, key: SigningKey, pk: seq<byte>,
                    envelope: Option<Envelope>): Option<Candidate>
  {
    if !nitro then Some(Candidate(key, Reply(pk, [], envelope)))
    else if attestation.None? then None
    else Some(Candidate(key, Reply(pk, attestation.value, envelope)))
  }

  // The key an envelope holds, whatever the mode.
  function Opens(w: World, e: Envelope): Option<SigningKey> {
    LoadKeyCandidate(w, false, true, e)
  }

  // A candidate is good for its source when it carries the key behind it.
  ghost predicate GoodFor(w: World, source: Source, c: Candidate) {
    && w.publicKey(c.key) == Some(c.reply.publicKey)
    && match source
       case Existing(e) => c.reply.envelope == None && Opens(w, e) == Some(c.key)
       case Generate(algorithm) =>
         && c.reply.envelope.Some?
         && c.reply.envelope.value.algorithm == algorithm
         && (Filled(c.reply.envelope.value) ==> Opens(w, c.reply.envelope.value) == Some(c.key))
       case Missing => false
  }

  // What an envelope holds is a key of one algorithm at most, whatever algorithm it is labelled with.
  lemma OneAlgorithmOpens(w: World, e: Envelope, a: Algorithm, b: Algorithm)
    requires Lawful(w) && Opens(w, e.(algorithm := a)).Some? && Opens(w, e.(algorithm := b)).Some?
    ensures a == b
  {
  }

  // The laws can be met, with keys of both algorithms.
  lemma LawsConsistent() returns (w: World)
    ensures Lawful(w)
    ensures forall a :: Known(a) ==> exists k :: w.isKey(k) && k.algorithm == a && w.publicKey(k).Some?
  {
    w := World(s => Some(s), s => s, s => Some(s), s => Some(s), (dk, nonce, m) => m, (dk, nonce, c) => Some(c),
               (k: SigningKey) => Known(k.algorithm) && |k.secret| == SecretSize(k.algorithm),
               (k: SigningKey) => k.secret,
               (a: Algorithm, s: seq<byte>) =>
                 if Known(a) && |s| == SecretSize(a) then Some(SigningKey(a, s)) else None,
               (k: SigningKey) => Some(k.secret));
    forall a | Known(a) ensures exists k :: w.isKey(k) && k.algorithm == a && w.publicKey(k).Some? {
      var k := SigningKey(a, seq(SecretSize(a), i => 0));
      assert w.isKey(k);
    }
  }

  // Sealing a fresh key and loading it back yields the same key, in either mode.
  lemma GenerateThenLoad(w: World, nitro: bool, algorithm: Algorithm, d: Draw)
    requires Lawful(w) && Drawn(w, algorithm, d)
    requires GenerateEnvelopeCandidate(w, nitro, true, algorithm, d).Some?
    ensures var r := GenerateEnvelopeCandidate(w, nitro, true, algorithm, d).value;
            && r.1 == d.key && r.0.algorithm == algorithm && w.publicKey(r.1) == Some(r.2)
            && (Filled(r.0) ==>
                  LoadKeyCandidate(w, !nitro, true, r.0) == LoadKeyCandidate(w, nitro, true, r.0) == Some(d.key))
  {
    assert w.fromRecipient(w.toRecipient(d.dataKey)) == Some(d.dataKey);
    assert w.deserialize(d.key.algorithm, w.serialize(d.key)) == Some(d.key);
  }

  // The data key behind a wrapped key, and what it seals under a nonce is this private key.
  ghost predicate Unlocks(w: World, e: Envelope, key: SigningKey) {
    && e.dataKey != [] && w.unwrap(e.dataKey).Some?
    && var dataKey := w.canonical(w.unwrap(e.dataKey).value);
       && dataKey.Some?
       && var secret := w.unseal(dataKey.value, e.nonce, e.privateKey);
          secret.Some? && w.deserialize(e.algorithm, secret.value) == Some(key)
  }

  // What a run yields, in either mode and for every failure around it: the recovered key, or the
  // drawn key with the envelope that seals it; the public key of that key; and in Nitro mode the
  // attestation document. It yields nothing otherwise.
  lemma RunInitExactly(w: World, nitro: bool, source: Source, s: Surroundings, c: Candidate)
    requires Lawful(w)
    ensures RunInit(w, nitro, source, s) == Some(c) <==>
              && s.providerBuilt && s.kmsAnswers
              && w.publicKey(c.key) == Some(c.reply.publicKey)
              && (if nitro then s.attestation == Some(c.reply.attestation) else c.reply.attestation == [])
              && match source
                 case Existing(e) =>
                   && (e.algorithm == BLS || e.algorithm == ED25519)
                   && c.reply.envelope == None && Unlocks(w, e, c.key)
                 case Generate(a) =>
                   && (a == BLS || a == ED25519)
                   && c.key == s.draw.key
                   && var dataKey := w.canonical(s.draw.dataKey);
                      && dataKey.Some?
                      && c.reply.envelope == Some(Envelope(
                           a, s.draw.wrapped, w.seal(dataKey.value, s.draw.nonce, w.serialize(c.key)), s.draw.nonce))
                 case Missing => false
  {
    hide SecretSize;
    match source
    case Existing(e) =>
      if w.unwrap(e.dataKey).Some? {
        var dataKey := w.unwrap(e.dataKey).value;
        assert w.fromRecipient(w.toRecipient(dataKey)) == Some(dataKey);
      }
    case Generate(_) =>
      assert w.fromRecipient(w.toRecipient(s.draw.dataKey)) == Some(s.draw.dataKey);
    case Missing =>
  }

  // Every candidate a run produces carries the key behind its source and that key's public key.
  lemma RunInitGood(w: World, nitro: bool, source: Source, s: Surroundings)
    requires Lawful(w) && RunInit(w, nitro, source, s).Some?
    requires source.Generate? ==> Drawn(w, source.algorithm, s.draw)
    ensures GoodFor(w, source, RunInit(w, nitro, source, s).value)
  {
    match source
    case Existing(e) =>
      var dataKey := w.unwrap(e.dataKey).value;
      assert w.fromRecipient(w.toRecipient(dataKey)) == Some(dataKey);
    case Generate(algorithm) =>
      GenerateThenLoad(w, nitro, algorithm, s.draw);
    case Missing =>
  }
}
