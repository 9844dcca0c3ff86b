// The heap side of initgate.go: the published state is one object shared by all callers, and
// every reply is a clone of its response, so callers may change what they receive.
module InitGateObjects {
  import opened Bytes
  import opened KeySource
  import opened KeyMaterial
  import opened InitGate

  class Response {
    var publicKey: seq<byte>
    var attestation: seq<byte>
    var secretEnvelope: Option<Envelope>

    constructor (reply: Reply)
      ensures Value() == reply
    {
      publicKey, attestation, secretEnvelope := reply.publicKey, reply.attestation, reply.envelope;
    }

    function Value(): Reply
      reads this
    {
      Reply(publicKey, attestation, secretEnvelope)
    }

    method Clone() returns (r: Response)
      ensures fresh(r) && r.Value() == Value()
    {
      r := new Response(Value());
    }
  }

  class ReadyState {
    ghost var source: Source
    var fingerprint: Fingerprint
    var generatedFingerprint: Fingerprint
    var hasGeneratedFingerprint: bool
    const key: SigningKey
    const response: Response

    // A candidate as runInit builds it: no fingerprints yet.
    constructor (candidate: Candidate)
      ensures key == candidate.key && fresh(response) && response.Value() == candidate.reply
      ensures !hasGeneratedFingerprint
    {
      key := candidate.key;
      response := new Response(candidate.reply);
      fingerprint, generatedFingerprint, hasGeneratedFingerprint := [], [], false;
      source := Missing;
    }

    ghost function View(): Ready
      reads this, response
    {
      Ready(source, fingerprint, if hasGeneratedFingerprint then Some(generatedFingerprint) else None,
            key, response.Value())
    }
  }

  class Gate {
    var ready: ReadyState?

    constructor ()
      ensures ready == null
    {
      ready := null;
    }

    // The function that singleflight runs: publish the candidate unless a state is published.
    method Publish(fingerprint: Fingerprint, candidate: ReadyState?, ghost source: Source) returns (result: ReadyState?)
      requires candidate != null ==> candidate != ready && !candidate.hasGeneratedFingerprint
      modifies this, candidate
      ensures old(ready) != null ==> result == ready == old(ready) && unchanged(this)
      ensures old(ready) != null && candidate != null ==> unchanged(candidate)
      ensures old(ready) == null && candidate == null ==> result == null && ready == null
      ensures old(ready) == null && candidate != null ==>
                match Publishable(source, fingerprint, Candidate(candidate.key, old(candidate.response.Value())))
                case None => result == null && ready == null
                case Some(state) => result == ready == candidate && candidate.View() == state
    {
      if ready != null {
        return ready;
      }
      if candidate == null {
        return null;
      }
      candidate.fingerprint := fingerprint;
      candidate.source := source;
      if candidate.response.secretEnvelope.Some? {
        var recovery := FingerprintKeySource(Existing(candidate.response.secretEnvelope.value));
        if recovery.None? {
          return null;
        }
        candidate.generatedFingerprint := recovery.value;
        candidate.hasGeneratedFingerprint := true;
      }
      ready := candidate;
      return candidate;
    }
  }

  // No reply is the refusal.
  method ResponseForFingerprint(state: ReadyState, fingerprint: Fingerprint) returns (r: Response?)
    ensures r == null <==> Answer(state.View(), fingerprint) == Refused
    ensures r != null ==> fresh(r) && Answer(state.View(), fingerprint) == Granted(r.Value())
  {
    if state.fingerprint == fingerprint {
      r := state.response.Clone();
      return;
    }
    if state.hasGeneratedFingerprint && state.generatedFingerprint == fingerprint {
      r := state.response.Clone();
      r.secretEnvelope := None;
      return;
    }
    return null;
  }

  // Whatever a caller does to its reply, the next caller gets the answer the first one could
  // have got, and the published state is what it was.
  method ReplayAfterChange(state: ReadyState, first: Fingerprint, second: Fingerprint, junk: Reply)
    returns (r1: Response?, r2: Response?)
    ensures state.View() == old(state.View())
    ensures r1 != null ==> r1.Value() == junk
    ensures r2 == null <==> Answer(old(state.View()), second) == Refused
    ensures r2 != null ==> r2 != r1 && Answer(old(state.View()), second) == Granted(r2.Value())
  {
    r1 := ResponseForFingerprint(state, first);
    if r1 != null {
      r1.publicKey, r1.attestation, r1.secretEnvelope := junk.publicKey, junk.attestation, junk.envelope;
    }
    r2 := ResponseForFingerprint(state, second);
  }
}
