// The life of the validator key across the host, the enclave and the secret store (signer.go,
// enclaveinit.go, crypto.go and the enclave's gate), with host crashes, enclave crashes, lost
// replies, retries, cancelled calls and secret updates whose outcome the host does not learn.
//
// Environment: one host process at a time; the host is the enclave's only client; a request
// reaches at most one enclave process, the one it is sent to, and dies with it; a secret update
// takes effect before the host goes on, or not at all; nobody else writes the secret.
module KeyLifecycle {
  import opened Bytes
  import opened KeySource
  import opened KeyMaterial
  import G = InitGate
  import E = EnclaveInit

  // The stored header. Secrets written before the algorithm was recorded carry UNSPECIFIED.
  datatype Header = Header(algorithm: Algorithm, cipherKey: seq<byte>, cipherData: seq<byte>, nonce: seq<byte>)

  function ToEnvelope(h: Header, algorithm: Algorithm): Envelope {
    Envelope(algorithm, h.cipherKey, h.cipherData, h.nonce)
  }

  function HeaderOf(e: Envelope): Header {
    Header(e.algorithm, e.dataKey, e.privateKey, e.nonce)
  }

  datatype Stored = Blank | Garbled | Holds(header: Header)

  // Air holds the reply to the outstanding attempt once the enclave has sent it.
  datatype Host =
    | Down
    | Starting(algorithm: Algorithm)
    | Attempting(algorithm: Algorithm, plan: Source, attempt: nat)
    | Awaiting(algorithm: Algorithm, plan: Source, attempt: nat, id: nat, air: Option<G.Outcome>)
    | Storing(publicKey: seq<byte>, header: Header)
    | Serving(publicKey: seq<byte>)

  // Published and signers record the history: the public keys of successful startups and the
  // keys behind the signatures returned by a serving host.
  datatype System = System(store: Stored, gate: G.Gate, host: Host, nextId: nat,
                           published: set<seq<byte>>, signers: set<SigningKey>)

  // Configured: the algorithms that startups may be configured with, each with any of them.
  datatype Setup = Setup(world: World, nitro: bool, configured: set<Algorithm>)

  datatype Event =
    | Start(algorithm: Algorithm)
    | ReadSecret(ok: bool)
    | Send
    | Enclave(step: G.Event)
    | RunEnd(surroundings: Surroundings)
    | Deliver
    | Fail(retry: bool)
    | Accept(attestationValid: bool)
    | Update(landed: bool, acknowledged: bool)
    | Sign
    | HostCrash
    | EnclaveCrash

  ghost predicate Enabled(setup: Setup, s: System, e: Event) {
    match e
    case Start(algorithm) => s.host.Down? && algorithm in setup.configured
    case ReadSecret(_) => s.host.Starting?
    case Send => s.host.Attempting? && s.nextId !in s.gate.callers
    case Enclave(step) => !step.Arrive? && !step.RunEnd? && G.Enabled(s.gate, step)
    case RunEnd(surroundings) =>
      && G.Enabled(s.gate, G.RunEnd(None))
      && (LeaderSource(s.gate).Generate? ==> Drawn(setup.world, LeaderSource(s.gate).algorithm, surroundings.draw))
    case Deliver =>
      && s.host.Awaiting? && s.host.air == None
      && s.host.id in s.gate.callers && s.gate.callers[s.host.id].phase.Finished?
    case Fail(_) => s.host.Attempting? || s.host.Awaiting?
    case Accept(_) => s.host.Awaiting? && s.host.air.Some?
    case Update(landed, acknowledged) => s.host.Storing? && (acknowledged ==> landed)
    case Sign => s.host.Serving? && s.gate.ready.Some?
    case HostCrash => true
    case EnclaveCrash => true
  }

  function LeaderSource(g: G.Gate): Source
    requires g.flight.Some? && g.flight.value.leader in g.callers
  {
    g.callers[g.flight.value.leader].source
  }

  // The plan of a startup, from what the store holds (initializeKeyState, loadKeyFromSecret).
  function PlanFor(store: Stored, algorithm: Algorithm): Host {
    match store
    case Blank => Attempting(algorithm, Generate(algorithm), 1)
    case Garbled => Down
    case Holds(h) =>
      if h.algorithm != UNSPECIFIED && h.algorithm != algorithm then Down
      else Attempting(algorithm, Existing(ToEnvelope(h, algorithm)), 1)
  }

  // What a startup does with a granted reply (generateAndStoreKey, loadKeyFromSecret).
  function OnReply(host: Host, r: Reply, attestationValid: bool): Host
    requires host.Awaiting?
  {
    if r.publicKey == [] || !attestationValid then Down
    else
      match host.plan
      case Existing(_) => if r.envelope.Some? then Down else Serving(r.publicKey)
      case _ =>
        if r.envelope.None? || r.envelope.value.algorithm != host.algorithm || !Filled(r.envelope.value) then Down
        else Storing(r.publicKey, HeaderOf(r.envelope.value))
  }

  function Published(s: System, host: Host): System {
    s.(host := host, published := if host.Serving? then s.published + {host.publicKey} else s.published)
  }

  function Apply(setup: Setup, s: System, e: Event): System
    requires Enabled(setup, s, e)
  {
    match e
    case Start(algorithm) => s.(host := Starting(algorithm))
    case ReadSecret(ok) => s.(host := if ok then PlanFor(s.store, s.host.algorithm) else Down)
    case Send =>
      if FingerprintOf(s.host.plan).None? then s.(host := Down)
      else s.(gate := G.Apply(s.gate, G.Arrive(s.nextId, s.host.plan)), nextId := s.nextId + 1,
              host := Awaiting(s.host.algorithm, s.host.plan, s.host.attempt, s.nextId, None))
    case Enclave(step) => s.(gate := G.Apply(s.gate, step))
    case RunEnd(surroundings) =>
      s.(gate := G.Apply(s.gate, G.RunEnd(RunInit(setup.world, setup.nitro, LeaderSource(s.gate), surroundings))))
    case Deliver => s.(host := s.host.(air := Some(s.gate.callers[s.host.id].phase.outcome)))
    case Fail(retry) =>
      if retry && s.host.attempt < E.MAX_ATTEMPTS
      then s.(host := Attempting(s.host.algorithm, s.host.plan, s.host.attempt + 1))
      else s.(host := Down)
    case Accept(attestationValid) =>
      match s.host.air.value {
        case Granted(r) => Published(s, OnReply(s.host, r, attestationValid))
        case _ => s.(host := Down)
      }
    case Update(landed, acknowledged) =>
      var s' := if landed then s.(store := Holds(s.host.header)) else s;
      Published(s', if acknowledged then Serving(s.host.publicKey) else Down)
    case Sign => s.(signers := s.signers + {s.gate.ready.value.key})
    case HostCrash => s.(host := Down)
    case EnclaveCrash => s.(gate := G.EMPTY)
  }

  // A startup configured with this algorithm asks for the key behind this header.
  predicate AsksFor(h: Header, algorithm: Algorithm) {
    h.algorithm == UNSPECIFIED || h.algorithm == algorithm
  }

  // A key source that some startup sends for a stored header.
  predicate IsPlanFor(setup: Setup, h: Header, source: Source) {
    && source.Existing?
    && source.envelope.algorithm in setup.configured && AsksFor(h, source.envelope.algorithm)
    && source.envelope == ToEnvelope(h, source.envelope.algorithm)
  }

  // The key behind a stored header, whatever the startups are configured with.
  function StoredKey(w: World, h: Header): Option<SigningKey> {
    if h.algorithm != UNSPECIFIED then Opens(w, ToEnvelope(h, h.algorithm))
    else if Opens(w, ToEnvelope(h, BLS)).Some? then Opens(w, ToEnvelope(h, BLS))
    else Opens(w, ToEnvelope(h, ED25519))
  }

  // A header without a recorded algorithm holds a key of one algorithm only: it opens to the
  // stored key under that one, and to nothing under the other.
  lemma OneStoredKey(w: World, h: Header, key: SigningKey)
    requires Lawful(w)
    ensures StoredKey(w, h) == Some(key) <==>
              exists a :: AsksFor(h, a) && Opens(w, ToEnvelope(h, a)) == Some(key)
    ensures forall a, b :: Opens(w, ToEnvelope(h, a)).Some? && Opens(w, ToEnvelope(h, b)).Some? ==> a == b
  {
    forall a, b | Opens(w, ToEnvelope(h, a)).Some? && Opens(w, ToEnvelope(h, b)).Some? ensures a == b {
      OneAlgorithmOpens(w, ToEnvelope(h, a), a, b);
    }
    assert forall a :: Opens(w, ToEnvelope(h, a)).Some? ==> Known(a);
    assert AsksFor(h, h.algorithm) && (h.algorithm == UNSPECIFIED ==> AsksFor(h, BLS) && AsksFor(h, ED25519));
  }

  ghost predicate IsPublicKeyOf(w: World, pk: seq<byte>, key: Option<SigningKey>) {
    key.Some? && w.publicKey(key.value) == Some(pk)
  }

  // The running enclave holds the key of this envelope, or nobody has asked it for a key yet.
  ghost predicate Holding(w: World, g: G.Gate, e: Envelope) {
    if g.ready.Some? then g.ready.value.reply.envelope == Some(e) && Opens(w, e) == Some(g.ready.value.key)
    else g.callers == map[]
  }

  ghost predicate GateAgrees(setup: Setup, s: System) {
    && G.Invariant(s.gate)
    && (forall id :: id in s.gate.callers ==> id < s.nextId)
    && (s.gate.ready.Some? ==>
          var state := s.gate.ready.value;
          GoodFor(setup.world, state.source, Candidate(state.key, state.reply)))
    && match s.store
       case Blank =>
         && (forall id :: id in s.gate.callers ==> s.gate.callers[id].source.Generate?)
         && (s.gate.ready.Some? ==> s.gate.ready.value.source.Generate?)
       case Garbled => s.gate.callers == map[] && s.gate.ready == None
       case Holds(h) =>
         && (forall id :: id in s.gate.callers ==>
               || IsPlanFor(setup, h, s.gate.callers[id].source)
               || (s.gate.callers[id].source.Generate? && s.gate.ready.Some?))
         && (s.gate.ready.Some? ==>
               var state := s.gate.ready.value;
               && (|| IsPlanFor(setup, h, state.source)
                   || (state.reply.envelope.Some? && IsPlanFor(setup, h, Existing(state.reply.envelope.value))))
               && StoredKey(setup.world, h) == Some(state.key))
  }

  ghost predicate HistoryAgrees(setup: Setup, s: System) {
    match s.store
    case Holds(h) =>
      && (forall pk :: pk in s.published ==> IsPublicKeyOf(setup.world, pk, StoredKey(setup.world, h)))
      && (forall k :: k in s.signers ==> StoredKey(setup.world, h) == Some(k))
    case _ => s.published == {} && s.signers == {}
  }

  ghost predicate PlanAgrees(setup: Setup, s: System, algorithm: Algorithm, plan: Source) {
    && algorithm in setup.configured
    && match plan
       case Generate(a) => a == algorithm && s.store.Blank?
       case Existing(_) => s.store.Holds? && IsPlanFor(setup, s.store.header, plan)
       case Missing => false
  }

  ghost predicate ReplyAgrees(setup: Setup, s: System, plan: Source, r: Reply) {
    match plan
    case Existing(_) =>
      s.store.Holds? && IsPublicKeyOf(setup.world, r.publicKey, StoredKey(setup.world, s.store.header))
    case _ =>
      r.envelope.Some? ==>
        && IsPublicKeyOf(setup.world, r.publicKey, Opens(setup.world, r.envelope.value))
        && Holding(setup.world, s.gate, r.envelope.value)
  }

  ghost predicate HostAgrees(setup: Setup, s: System) {
    match s.host
    case Down => true
    case Starting(algorithm) => algorithm in setup.configured
    case Attempting(algorithm, plan, _) => PlanAgrees(setup, s, algorithm, plan)
    case Awaiting(algorithm, plan, _, id, air) =>
      && PlanAgrees(setup, s, algorithm, plan)
      && id < s.nextId
      && (id in s.gate.callers ==> s.gate.callers[id].source == plan)
      && (air.Some? && air.value.Granted? ==> ReplyAgrees(setup, s, plan, air.value.reply))
    case Storing(pk, h) =>
      && s.store.Blank?
      && h.algorithm in setup.configured && Filled(ToEnvelope(h, h.algorithm)) && pk != []
      && IsPublicKeyOf(setup.world, pk, Opens(setup.world, ToEnvelope(h, h.algorithm)))
      && Holding(setup.world, s.gate, ToEnvelope(h, h.algorithm))
    case Serving(pk) => pk in s.published
  }

  ghost predicate SetupOk(setup: Setup) {
    && Lawful(setup.world)
    && forall a :: a in setup.configured ==> Known(a)
  }

  ghost predicate Invariant(setup: Setup, s: System) {
    GateAgrees(setup, s) && HistoryAgrees(setup, s) && HostAgrees(setup, s)
  }

  ghost predicate OwnStep(setup: Setup, s: System, step: G.Event) {
    && G.Enabled(s.gate, step) && !step.Arrive?
    && (step.RunEnd? && step.candidate.Some? ==>
          GoodFor(setup.world, LeaderSource(s.gate), step.candidate.value))
  }

  // The enclave moves by itself: what the host and the store rely on stays.
  lemma GateStepAgrees(setup: Setup, s: System, step: G.Event)
    requires SetupOk(setup) && Invariant(setup, s) && OwnStep(setup, s, step)
    ensures Invariant(setup, s.(gate := G.Apply(s.gate, step)))
  {
    OwnStepKeepsGate(setup, s, step);
    OwnStepKeepsHost(setup, s, step);
    hide GateAgrees, HostAgrees, G.Apply;
  }

  lemma OwnStepKeepsGate(setup: Setup, s: System, step: G.Event)
    requires SetupOk(setup) && GateAgrees(setup, s) && OwnStep(setup, s, step)
    ensures GateAgrees(setup, s.(gate := G.Apply(s.gate, step)))
  {
    hide FingerprintOf, Opens, StoredKey, Lawful, IsPlanFor;
    G.StepKeeps(s.gate, step);
    if step.RunEnd? {
      RunEndKeepsGate(setup, s, step);
    }
  }

  lemma RunEndKeepsGate(setup: Setup, s: System, step: G.Event)
    requires SetupOk(setup) && GateAgrees(setup, s) && OwnStep(setup, s, step) && step.RunEnd?
    ensures GateAgrees(setup, s.(gate := G.Apply(s.gate, step)))
  {
    hide FingerprintOf, Opens, StoredKey, Lawful;
    G.StepKeeps(s.gate, step);
    if step.candidate.Some? && s.store.Holds? && LeaderSource(s.gate).Existing? {
      OneStoredKey(setup.world, s.store.header, step.candidate.value.key);
      assert AsksFor(s.store.header, LeaderSource(s.gate).envelope.algorithm);
    }
  }

  lemma OwnStepKeepsHost(setup: Setup, s: System, step: G.Event)
    requires GateAgrees(setup, s) && HostAgrees(setup, s) && OwnStep(setup, s, step)
    ensures HostAgrees(setup, s.(gate := G.Apply(s.gate, step)))
  {
    hide FingerprintOf, Opens;
    G.StepKeeps(s.gate, step);
  }

  lemma ArriveAgrees(setup: Setup, s: System)
    requires Invariant(setup, s) && s.host.Attempting?
    requires s.nextId !in s.gate.callers && FingerprintOf(s.host.plan).Some?
    ensures Invariant(setup, Apply(setup, s, Send))
  {
    hide FingerprintOf, Opens;
    G.StepKeeps(s.gate, G.Arrive(s.nextId, s.host.plan));
  }

  lemma DeliverAgrees(setup: Setup, s: System)
    requires Invariant(setup, s) && Enabled(setup, s, Deliver)
    ensures Invariant(setup, Apply(setup, s, Deliver))
  {
    hide FingerprintOf, Opens;
    var caller := s.gate.callers[s.host.id];
    assert G.Consistent(s.gate, caller);
    if caller.phase.outcome.Granted? {
      var state := s.gate.ready.value;
      assert caller.phase.outcome == G.Answer(state, caller.fingerprint);
      if state.source.Generate? {
        KindsDiffer(state.reply.envelope.value, state.source.algorithm);
      }
    }
  }

  lemma AcceptAgrees(setup: Setup, s: System, valid: bool)
    requires SetupOk(setup) && Invariant(setup, s) && Enabled(setup, s, Accept(valid))
    ensures Invariant(setup, Apply(setup, s, Accept(valid)))
  {
    hide FingerprintOf, Opens, G.Invariant;
  }

  lemma UpdateAgrees(setup: Setup, s: System, landed: bool, acknowledged: bool)
    requires SetupOk(setup) && Invariant(setup, s) && Enabled(setup, s, Update(landed, acknowledged))
    ensures Invariant(setup, Apply(setup, s, Update(landed, acknowledged)))
  {
    hide FingerprintOf, Opens, G.Invariant;
    if landed {
      var h := s.host.header;
      assert StoredKey(setup.world, h) == Opens(setup.world, ToEnvelope(h, h.algorithm));
    }
  }

  // Every step of the host, the enclave, the store and the environment keeps the invariant.
  lemma StepKeeps(setup: Setup, s: System, e: Event)
    requires SetupOk(setup) && Invariant(setup, s) && Enabled(setup, s, e)
    ensures Invariant(setup, Apply(setup, s, e))
  {
    match e
    case Send =>
      if FingerprintOf(s.host.plan).Some? {
        ArriveAgrees(setup, s);
      }
    case Enclave(step) => GateStepAgrees(setup, s, step);
    case RunEnd(surroundings) =>
      var source := LeaderSource(s.gate);
      var candidate := RunInit(setup.world, setup.nitro, source, surroundings);
      if candidate.Some? {
        RunInitGood(setup.world, setup.nitro, source, surroundings);
      }
      hide RunInit;
      GateStepAgrees(setup, s, G.RunEnd(candidate));
    case Deliver => DeliverAgrees(setup, s);
    case Accept(valid) => AcceptAgrees(setup, s, valid);
    case Update(landed, acknowledged) => UpdateAgrees(setup, s, landed, acknowledged);
    case EnclaveCrash => EnclaveCrashKeeps(setup, s);
    case _ => SmallStepKeeps(setup, s, e);
  }

  lemma EnclaveCrashKeeps(setup: Setup, s: System)
    requires Invariant(setup, s)
    ensures Invariant(setup, Apply(setup, s, EnclaveCrash))
  {
    hide FingerprintOf, Opens, StoredKey, IsPlanFor, G.Apply;
    EmptyGate();
  }

  // Steps of the host that leave the enclave and the store alone.
  lemma SmallStepKeeps(setup: Setup, s: System, e: Event)
    requires SetupOk(setup) && Invariant(setup, s) && Enabled(setup, s, e)
    requires e.Start? || e.ReadSecret? || e.Fail? || e.Sign? || e.HostCrash?
    ensures Invariant(setup, Apply(setup, s, e))
  {
    hide FingerprintOf, Opens, StoredKey, G.Apply, G.Invariant;
  }

  lemma EmptyGate()
    ensures G.Invariant(G.EMPTY)
  {
  }

  // A history starts with no process running and anything in the store.
  ghost predicate Initial(s: System) {
    s.gate == G.EMPTY && s.host == Down && s.published == {} && s.signers == {}
  }

  ghost predicate Execution(setup: Setup, ss: seq<System>, es: seq<Event>) {
    && SetupOk(setup)
    && |ss| == |es| + 1
    && Initial(ss[0])
    && forall i :: 0 <= i < |es| ==> Enabled(setup, ss[i], es[i]) && ss[i + 1] == Apply(setup, ss[i], es[i])
  }

  lemma {:induction false} Reachable(setup: Setup, ss: seq<System>, es: seq<Event>, i: nat)
    requires Execution(setup, ss, es) && i < |ss|
    ensures Invariant(setup, ss[i])
    decreases i
  {
    if i > 0 {
      hide Apply, Enabled, Invariant;
      Reachable(setup, ss, es, i - 1);
      StepKeeps(setup, ss[i - 1], es[i - 1]);
    } else {
      EmptyGate();
    }
  }

  // Stable validator key: in every state of every execution all startups have published one
  // public key, every signature returned is by the key behind it, and a serving host's enclave
  // holds no other key. Startups may be configured differently from one to the next.
  lemma OneKey(setup: Setup, ss: seq<System>, es: seq<Event>, i: nat)
    requires Execution(setup, ss, es) && i < |ss|
    ensures forall p, q :: p in ss[i].published && q in ss[i].published ==> p == q
    ensures forall k, p :: k in ss[i].signers && p in ss[i].published ==> setup.world.publicKey(k) == Some(p)
    ensures ss[i].host.Serving? ==>
              && ss[i].host.publicKey in ss[i].published
              && (ss[i].gate.ready.Some? ==>
                    setup.world.publicKey(ss[i].gate.ready.value.key) == Some(ss[i].host.publicKey))
  {
    Reachable(setup, ss, es, i);
    hide Opens, G.Invariant, Apply, Enabled;
  }

  // Once a secret is stored it never changes; everything ever published is the public key of
  // the key it opens to, and nothing published is ever lost from the history.
  lemma {:induction false} StoredKeyStays(setup: Setup, ss: seq<System>, es: seq<Event>, i: nat, j: nat)
    requires Execution(setup, ss, es) && i <= j < |ss|
    ensures !ss[i].store.Blank? ==> ss[j].store == ss[i].store
    ensures ss[i].published <= ss[j].published
    ensures ss[i].published != {} ==>
              && ss[i].store.Holds?
              && forall pk :: pk in ss[j].published ==>
                   IsPublicKeyOf(setup.world, pk, StoredKey(setup.world, ss[i].store.header))
    decreases j - i
  {
    Reachable(setup, ss, es, i);
    if i < j {
      OneStepStays(setup, ss[i], es[i]);
      hide Apply, Enabled, Invariant;
      StoredKeyStays(setup, ss, es, i + 1, j);
    }
  }

  lemma OneStepStays(setup: Setup, s: System, e: Event)
    requires Invariant(setup, s) && Enabled(setup, s, e)
    ensures var s' := Apply(setup, s, e);
            && (!s.store.Blank? ==> s'.store == s.store)
            && s.published <= s'.published
            && (s.published != {} ==> s.store.Holds?)
  {
    hide GateAgrees, G.Apply, RunInit;
  }

  // What a host meets that restarts next to an enclave that kept running, in any configuration:
  // if the stored secret opens under its algorithm it gets the stored key without an envelope,
  // and otherwise it is refused.
  lemma RestartAnswered(setup: Setup, ss: seq<System>, es: seq<Event>, i: nat, algorithm: Algorithm)
    requires Execution(setup, ss, es) && i < |ss|
    requires ss[i].store.Holds? && ss[i].gate.ready.Some?
    requires algorithm in setup.configured && AsksFor(ss[i].store.header, algorithm)
    ensures var h := ss[i].store.header;
            var e := ToEnvelope(h, algorithm);
            && FingerprintOf(Existing(e)).Some?
            && var answer := G.Answer(ss[i].gate.ready.value, FingerprintOf(Existing(e)).value);
               if Opens(setup.world, e).Some?
               then answer.Granted? && answer.reply.envelope == None
                    && IsPublicKeyOf(setup.world, answer.reply.publicKey, StoredKey(setup.world, h))
               else answer == G.Refused
  {
    Reachable(setup, ss, es, i);
    hide Apply, Enabled;
    LoadedAnswers(setup, ss[i], algorithm);
  }

  lemma LoadedAnswers(setup: Setup, s: System, algorithm: Algorithm)
    requires SetupOk(setup) && GateAgrees(setup, s) && s.store.Holds? && s.gate.ready.Some?
    requires algorithm in setup.configured && AsksFor(s.store.header, algorithm)
    ensures var e := ToEnvelope(s.store.header, algorithm);
            && FingerprintOf(Existing(e)).Some?
            && var answer := G.Answer(s.gate.ready.value, FingerprintOf(Existing(e)).value);
               if Opens(setup.world, e).Some?
               then answer.Granted? && answer.reply.envelope == None
                    && IsPublicKeyOf(setup.world, answer.reply.publicKey, StoredKey(setup.world, s.store.header))
               else answer == G.Refused
  {
    var state, e := s.gate.ready.value, ToEnvelope(s.store.header, algorithm);
    var loaded := if state.source.Existing? then state.source.envelope else state.reply.envelope.value;
    assert loaded == ToEnvelope(s.store.header, loaded.algorithm);
    assert FingerprintOf(Existing(loaded)).Some? && FingerprintOf(Existing(e)).Some?;
    assert Opens(setup.world, loaded) == Some(state.key);
    hide Opens, FingerprintOf;
    if state.source.Generate? {
      KindsDiffer(e, state.source.algorithm);
    }
    if Opens(setup.world, e).Some? {
      OneAlgorithmOpens(setup.world, e, algorithm, loaded.algorithm);
    } else {
      AlgorithmsDiffer(e, algorithm, loaded.algorithm);
    }
  }
}
