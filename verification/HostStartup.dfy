// The host's startup as the code runs it (initializeKeyState, generateAndStoreKey,
// loadKeyFromSecret of signer.go): one pass over the secret store and the enclave, proved to be
// the host steps of KeyLifecycle in sequence.
module HostStartup {
  import opened Bytes
  import opened KeySource
  import opened KeyMaterial
  import opened KeyLifecycle

  class SecretStore {
    var stored: Stored

    constructor (stored: Stored)
      ensures this.stored == stored
    {
      this.stored := stored;
    }

    // An update may land although the host is told that it failed.
    method Update(h: Header, landed: bool, acknowledged: bool) returns (ok: bool)
      modifies this
      ensures stored == if landed then Holds(h) else old(stored)
      ensures ok == acknowledged
    {
      if landed {
        stored := Holds(h);
      }
      return acknowledged;
    }
  }

  // What a startup meets: the secret store's answers, the enclave's reply to a key source after
  // any retries, and whether a reply's attestation document is acceptable now.
  datatype Meets = Meets(readable: bool, initialize: Source -> Option<Reply>, attested: Reply -> bool,
                         landed: bool, acknowledged: bool)

  // The state of the host after the steps up to the reply.
  function AfterReply(stored: Stored, algorithm: Algorithm, m: Meets): Host {
    var host := if m.readable then PlanFor(stored, algorithm) else Down;
    if !host.Attempting? || m.initialize(host.plan).None? then Down
    else
      var reply := m.initialize(host.plan).value;
      OnReply(Awaiting(algorithm, host.plan, host.attempt, 0, None), reply, m.attested(reply))
  }

  // The enclave's reply to a generation request is complete, for this algorithm and attested.
  ghost predicate GoodGenerated(m: Meets, algorithm: Algorithm) {
    && m.initialize(Generate(algorithm)).Some?
    && var r := m.initialize(Generate(algorithm)).value;
       && r.publicKey != [] && m.attested(r) && r.envelope.Some?
       && var e := r.envelope.value;
          e.algorithm == algorithm && e.dataKey != [] && e.privateKey != [] && e.nonce != []
  }

  ghost function GeneratedHeader(m: Meets, algorithm: Algorithm): Header
    requires GoodGenerated(m, algorithm)
  {
    var e := m.initialize(Generate(algorithm)).value.envelope.value;
    Header(e.algorithm, e.dataKey, e.privateKey, e.nonce)
  }

  // Its reply to the stored envelope carries a key, is attested and has no envelope of its own.
  ghost predicate GoodLoaded(m: Meets, h: Header, algorithm: Algorithm) {
    && m.initialize(Existing(ToEnvelope(h, algorithm))).Some?
    && var r := m.initialize(Existing(ToEnvelope(h, algorithm))).value;
       r.publicKey != [] && m.attested(r) && r.envelope == None
  }

  // The public key that the startup publishes, if it succeeds.
  method InitializeKeyState(store: SecretStore, algorithm: Algorithm, m: Meets) returns (publicKey: Option<seq<byte>>)
    modifies store
    ensures match AfterReply(old(store.stored), algorithm, m)
            case Serving(pk) => publicKey == Some(pk) && store.stored == old(store.stored)
            case Storing(pk, h) =>
              && publicKey == (if m.acknowledged then Some(pk) else None)
              && store.stored == if m.landed then Holds(h) else old(store.stored)
            case _ => publicKey == None && store.stored == old(store.stored)
    // It succeeds exactly on a readable store with a usable reply, as the reply's fields say.
    ensures publicKey.Some? <==>
              && m.readable
              && match old(store.stored)
                 case Blank => GoodGenerated(m, algorithm) && m.acknowledged
                 case Holds(h) =>
                   (h.algorithm == UNSPECIFIED || h.algorithm == algorithm) && GoodLoaded(m, h, algorithm)
                 case Garbled => false
    ensures publicKey.Some? && old(store.stored).Blank? ==>
              publicKey.value == m.initialize(Generate(algorithm)).value.publicKey
    ensures publicKey.Some? && old(store.stored).Holds? ==>
              publicKey.value == m.initialize(Existing(ToEnvelope(old(store.stored).header, algorithm))).value.publicKey
    // It writes exactly a generated envelope, on a blank store.
    ensures store.stored ==
              if m.readable && old(store.stored).Blank? && GoodGenerated(m, algorithm) && m.landed
              then Holds(GeneratedHeader(m, algorithm)) else old(store.stored)
  {
    if !m.readable {
      return None;
    }
    match store.stored {
      case Blank =>
        publicKey := GenerateAndStoreKey(store, algorithm, m);
      case Garbled =>
        return None;
      case Holds(h) =>
        publicKey := LoadKeyFromSecret(h, algorithm, m);
    }
  }

  method GenerateAndStoreKey(store: SecretStore, algorithm: Algorithm, m: Meets) returns (publicKey: Option<seq<byte>>)
    requires m.readable && store.stored.Blank?
    modifies store
    ensures match AfterReply(Blank, algorithm, m)
            case Storing(pk, h) =>
              && publicKey == (if m.acknowledged then Some(pk) else None)
              && store.stored == if m.landed then Holds(h) else Blank
            case other => !other.Serving? && publicKey == None && store.stored.Blank?
    ensures publicKey.Some? <==> GoodGenerated(m, algorithm) && m.acknowledged
    ensures publicKey.Some? ==> publicKey.value == m.initialize(Generate(algorithm)).value.publicKey
    ensures store.stored ==
              if GoodGenerated(m, algorithm) && m.landed then Holds(GeneratedHeader(m, algorithm)) else Blank
  {
    var resp := m.initialize(Generate(algorithm));
    if resp.None? || resp.value.envelope.None? {
      return None;
    }
    if resp.value.publicKey == [] {
      return None;
    }
    var env := resp.value.envelope.value;
    if env.algorithm != algorithm {
      return None;
    }
    if env.dataKey == [] || env.privateKey == [] || env.nonce == [] {
      return None;
    }
    var header := HeaderOf(env);
    if !m.attested(resp.value) {
      return None;
    }
    var ok := store.Update(header, m.landed, m.acknowledged);
    if !ok {
      return None;
    }
    return Some(resp.value.publicKey);
  }

  method LoadKeyFromSecret(h: Header, algorithm: Algorithm, m: Meets) returns (publicKey: Option<seq<byte>>)
    requires m.readable
    ensures match AfterReply(Holds(h), algorithm, m)
            case Serving(pk) => publicKey == Some(pk)
            case other => !other.Storing? && publicKey == None
    ensures publicKey.Some? <==>
              (h.algorithm == UNSPECIFIED || h.algorithm == algorithm) && GoodLoaded(m, h, algorithm)
    ensures publicKey.Some? ==> publicKey.value == m.initialize(Existing(ToEnvelope(h, algorithm))).value.publicKey
  {
    if h.algorithm != UNSPECIFIED && h.algorithm != algorithm {
      return None;
    }
    var resp := m.initialize(Existing(ToEnvelope(h, algorithm)));
    if resp.None? {
      return None;
    }
    if resp.value.envelope.Some? {
      return None;
    }
    if resp.value.publicKey == [] || !m.attested(resp.value) {
      return None;
    }
    return Some(resp.value.publicKey);
  }
}
