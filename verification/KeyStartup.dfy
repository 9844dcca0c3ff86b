// What startups achieve: the first one stores and publishes a generated key, later ones publish
// the stored key, and whatever was lost on the way, the next one recovers the same key.
module KeyStartup {
  import opened Bytes
  import opened KeySource
  import opened KeyMaterial
  import opened KeyLifecycle

  ghost predicate Leads(setup: Setup, s: System, es: seq<Event>, s': System)
    decreases |es|
  {
    if es == [] then s' == s
    else Enabled(setup, s, es[0]) && Leads(setup, Apply(setup, s, es[0]), es[1..], s')
  }

  lemma {:induction false} LeadsOn(setup: Setup, s: System, es: seq<Event>, s': System, fs: seq<Event>, s'': System)
    requires Leads(setup, s, es, s') && Leads(setup, s', fs, s'')
    ensures Leads(setup, s, es + fs, s'')
    decreases |es|
  {
    hide Apply, Enabled;
    if es == [] {
      assert es + fs == fs;
    } else {
      LeadsOn(setup, Apply(setup, s, es[0]), es[1..], s', fs, s'');
      assert (es + fs)[0] == es[0] && (es + fs)[1..] == es[1..] + fs;
    }
  }

  // A header that a startup with this algorithm loads, to a key with this public key.
  ghost predicate Loads(setup: Setup, h: Header, algorithm: Algorithm, key: SigningKey, pk: seq<byte>) {
    && (h.algorithm == UNSPECIFIED || h.algorithm == algorithm)
    && algorithm in setup.configured
    && Filled(ToEnvelope(h, algorithm))
    && Opens(setup.world, ToEnvelope(h, algorithm)) == Some(key)
    && setup.world.publicKey(key) == Some(pk) && pk != []
  }

  // The header and the public key of a generation with these random choices.
  ghost predicate Generates(setup: Setup, algorithm: Algorithm, d: Draw, h: Header, pk: seq<byte>) {
    && algorithm in setup.configured && Drawn(setup.world, algorithm, d)
    && setup.world.canonical(d.dataKey).Some?
    && h.algorithm == algorithm && h.cipherKey == d.wrapped && h.nonce == d.nonce
    && h.cipherData == setup.world.seal(setup.world.canonical(d.dataKey).value, d.nonce, setup.world.serialize(d.key))
    && h.cipherKey != [] && h.cipherData != [] && h.nonce != []
    && setup.world.publicKey(d.key) == Some(pk) && pk != []
  }

  ghost predicate AtRest(s: System) {
    s.host == Down && s.gate == G.EMPTY
  }

  // The request of the host is the next one that the enclave sees.
  function Asked(s: System, plan: Source, fp: Fingerprint, phase: G.Phase): G.Gate {
    s.gate.(callers := s.gate.callers[s.nextId := G.Caller(plan, fp, phase)])
  }

  // Requests and replies.

  lemma AskPlan(setup: Setup, s: System, algorithm: Algorithm, plan: Source, fp: Fingerprint, s1: System)
    requires s.host == Down && algorithm in setup.configured && s.nextId !in s.gate.callers
    requires PlanFor(s.store, algorithm) == Attempting(algorithm, plan, 1) && FingerprintOf(plan) == Some(fp)
    requires s1 == s.(nextId := s.nextId + 1, host := Awaiting(algorithm, plan, 1, s.nextId, None),
                      gate := Asked(s, plan, fp, G.Arrived))
    ensures Leads(setup, s, [Start(algorithm), ReadSecret(true), Send], s1)
  {
    hide FingerprintOf;
    var a := Apply(setup, s, Start(algorithm));
    var b := Apply(setup, a, ReadSecret(true));
    SendPlan(setup, b, fp, s1);
    assert Leads(setup, a, [ReadSecret(true), Send], s1);
  }

  lemma SendPlan(setup: Setup, s: System, fp: Fingerprint, s1: System)
    requires s.host.Attempting? && s.nextId !in s.gate.callers && FingerprintOf(s.host.plan) == Some(fp)
    requires s1 == s.(nextId := s.nextId + 1,
                      host := Awaiting(s.host.algorithm, s.host.plan, s.host.attempt, s.nextId, None),
                      gate := Asked(s, s.host.plan, fp, G.Arrived))
    ensures Leads(setup, s, [Send], s1)
  {
    hide FingerprintOf;
    assert Leads(setup, s1, [], s1);
  }

  lemma HostAccepts(setup: Setup, s: System, outcome: G.Outcome, s': System)
    requires s.host.Awaiting? && s.host.plan.Existing? && s.host.air == None && s.host.id in s.gate.callers
    requires s.gate.callers[s.host.id].phase == G.Finished(outcome)
    requires outcome.Granted? && outcome.reply.publicKey != [] && outcome.reply.envelope == None
    requires s' == s.(host := Serving(outcome.reply.publicKey), published := s.published + {outcome.reply.publicKey})
    ensures Leads(setup, s, [Deliver, Accept(true)], s')
  {
    var a := Apply(setup, s, Deliver);
    assert Leads(setup, s', [], s');
    assert Leads(setup, a, [Accept(true)], s');
  }

  lemma HostStores(setup: Setup, s: System, outcome: G.Outcome, e: Envelope, s': System)
    requires s.host.Awaiting? && s.host.plan.Generate? && s.host.air == None && s.host.id in s.gate.callers
    requires s.gate.callers[s.host.id].phase == G.Finished(outcome)
    requires outcome.Granted? && outcome.reply.publicKey != [] && outcome.reply.envelope == Some(e)
    requires e.algorithm == s.host.algorithm && Filled(e)
    requires s' == s.(host := Serving(outcome.reply.publicKey), published := s.published + {outcome.reply.publicKey},
                      store := Holds(Header(e.algorithm, e.dataKey, e.privateKey, e.nonce)))
    ensures Leads(setup, s, [Deliver, Accept(true), Update(true, true)], s')
  {
    var a := Apply(setup, s, Deliver);
    var b := Apply(setup, a, Accept(true));
    assert Leads(setup, s', [], s');
    assert Leads(setup, b, [Update(true, true)], s');
    assert Leads(setup, a, [Accept(true), Update(true, true)], s');
  }

  // A run of an enclave that has just been started.

  lemma EnclaveStarts(setup: Setup, s: System, id: nat, plan: Source, fp: Fingerprint, running: System)
    requires s.gate == G.Gate(None, None, map[id := G.Caller(plan, fp, G.Arrived)], 0, 0, 0)
    requires running == s.(gate := G.Gate(None, Some(G.Flight(id, G.Running)),
                                          map[id := G.Caller(plan, fp, G.Waiting)], 1, 0, 0))
    ensures Leads(setup, s, [Enclave(G.FastPath(id)), Enclave(G.Join(id)), Enclave(G.Check)], running)
  {
    var a := Apply(setup, s, Enclave(G.FastPath(id)));
    var b := Apply(setup, a, Enclave(G.Join(id)));
    assert b.gate.callers == running.gate.callers;
    assert Leads(setup, running, [], running);
    assert Leads(setup, b, [Enclave(G.Check)], running);
    assert Leads(setup, a, [Enclave(G.Join(id)), Enclave(G.Check)], running);
  }

  lemma EnclaveFinishes(setup: Setup, s: System, id: nat, plan: Source, fp: Fingerprint,
                        surroundings: Surroundings, c: Candidate, state: G.Ready, s': System)
    requires s.gate == G.Gate(None, Some(G.Flight(id, G.Running)), map[id := G.Caller(plan, fp, G.Waiting)], 1, 0, 0)
    requires plan.Generate? ==> Drawn(setup.world, plan.algorithm, surroundings.draw)
    requires RunInit(setup.world, setup.nitro, plan, surroundings) == Some(c)
    requires G.Publishable(plan, fp, c) == Some(state) && state.fingerprint == fp
    requires s' == s.(gate := G.Gate(Some(state), None,
                                     map[id := G.Caller(plan, fp, G.Finished(G.Granted(state.reply)))], 1, 1, 1))
    ensures Leads(setup, s, [RunEnd(surroundings), Enclave(G.Release), Enclave(G.Return(id))], s')
  {
    hide RunInit, FingerprintOf, G.Publishable;
    var a := Apply(setup, s, RunEnd(surroundings));
    var b := Apply(setup, a, Enclave(G.Release));
    assert Apply(setup, b, Enclave(G.Return(id))).gate.callers == s'.gate.callers;
    assert Leads(setup, s', [], s');
    assert Leads(setup, b, [Enclave(G.Return(id))], s');
    assert Leads(setup, a, [Enclave(G.Release), Enclave(G.Return(id))], s');
  }

  // From rest to the answer of a new enclave.
  lemma FreshRun(setup: Setup, s: System, algorithm: Algorithm, plan: Source, fp: Fingerprint,
                 surroundings: Surroundings, c: Candidate, state: G.Ready)
    returns (es: seq<Event>, s': System)
    requires AtRest(s) && algorithm in setup.configured
    requires PlanFor(s.store, algorithm) == Attempting(algorithm, plan, 1) && FingerprintOf(plan) == Some(fp)
    requires plan.Generate? ==> Drawn(setup.world, plan.algorithm, surroundings.draw)
    requires RunInit(setup.world, setup.nitro, plan, surroundings) == Some(c)
    requires G.Publishable(plan, fp, c) == Some(state) && state.fingerprint == fp
    ensures Leads(setup, s, es, s')
    ensures s' == s.(nextId := s.nextId + 1, host := Awaiting(algorithm, plan, 1, s.nextId, None),
                     gate := G.Gate(Some(state), None,
                                    map[s.nextId := G.Caller(plan, fp, G.Finished(G.Granted(state.reply)))], 1, 1, 1))
  {
    hide FingerprintOf, RunInit, G.Publishable, PlanFor, Leads;
    var id := s.nextId;
    var s1 := s.(nextId := id + 1, host := Awaiting(algorithm, plan, 1, id, None),
                 gate := Asked(s, plan, fp, G.Arrived));
    var running := s1.(gate := G.Gate(None, Some(G.Flight(id, G.Running)),
                                      map[id := G.Caller(plan, fp, G.Waiting)], 1, 0, 0));
    s' := s1.(gate := G.Gate(Some(state), None,
                             map[id := G.Caller(plan, fp, G.Finished(G.Granted(state.reply)))], 1, 1, 1));
    var e1 := [Start(algorithm), ReadSecret(true), Send];
    var e2 := [Enclave(G.FastPath(id)), Enclave(G.Join(id)), Enclave(G.Check)];
    var e3 := [RunEnd(surroundings), Enclave(G.Release), Enclave(G.Return(id))];
    AskPlan(setup, s, algorithm, plan, fp, s1);
    EnclaveStarts(setup, s1, id, plan, fp, running);
    EnclaveFinishes(setup, running, id, plan, fp, surroundings, c, state, s');
    LeadsOn(setup, s, e1, s1, e2, running);
    LeadsOn(setup, s, e1 + e2, running, e3, s');
    es := e1 + e2 + e3;
  }

  // A later startup that meets no failure publishes the key in the store.
  lemma StartupSucceeds(setup: Setup, s: System, algorithm: Algorithm, key: SigningKey, pk: seq<byte>)
    returns (es: seq<Event>, s': System)
    requires SetupOk(setup) && AtRest(s)
    requires s.store.Holds? && Loads(setup, s.store.header, algorithm, key, pk)
    ensures Leads(setup, s, es, s')
    ensures s'.host == Serving(pk) && s'.store == s.store && s'.published == s.published + {pk}
    ensures s'.gate.ready.Some? && s'.gate.ready.value.key == key
  {
    var plan := Existing(ToEnvelope(s.store.header, algorithm));
    var reply := Reply(pk, if setup.nitro then [1] else [], None);
    var surroundings := Surroundings(true, true, Draw([], [], key, []), Some([1]));
    var c, fp := Candidate(key, reply), FingerprintOf(plan).value;
    var state := G.Ready(plan, fp, None, key, reply);
    RunInitExactly(setup.world, setup.nitro, plan, surroundings, c);
    hide FingerprintOf, Leads, RunInit;
    var e1, s1 := FreshRun(setup, s, algorithm, plan, fp, surroundings, c, state);
    s' := s1.(host := Serving(pk), published := s.published + {pk});
    HostAccepts(setup, s1, G.Granted(reply), s');
    LeadsOn(setup, s, e1, s1, [Deliver, Accept(true)], s');
    es := e1 + [Deliver, Accept(true)];
  }

  // The first startup: on a blank store, one that meets no failure generates a key, stores its
  // envelope and publishes its public key; what it stored opens to that key.
  lemma FirstStartupSucceeds(setup: Setup, s: System, algorithm: Algorithm, d: Draw, h: Header, pk: seq<byte>)
    returns (es: seq<Event>, s': System)
    requires SetupOk(setup) && AtRest(s) && s.store.Blank?
    requires Generates(setup, algorithm, d, h, pk)
    ensures Leads(setup, s, es, s')
    ensures s'.host == Serving(pk) && s'.store == Holds(h) && s'.published == s.published + {pk}
    ensures s'.gate.ready.Some? && s'.gate.ready.value.key == d.key
    ensures StoredKey(setup.world, h) == Some(d.key)
  {
    var plan, e := Generate(algorithm), ToEnvelope(h, algorithm);
    var reply := Reply(pk, if setup.nitro then [1] else [], Some(e));
    var surroundings := Surroundings(true, true, d, Some([1]));
    var c, fp := Candidate(d.key, reply), FingerprintOf(plan).value;
    var state := G.Ready(plan, fp, FingerprintOf(Existing(e)), d.key, reply);
    RunInitExactly(setup.world, setup.nitro, plan, surroundings, c);
    RunInitGood(setup.world, setup.nitro, plan, surroundings);
    hide FingerprintOf, Leads, RunInit;
    var e1, s1 := FreshRun(setup, s, algorithm, plan, fp, surroundings, c, state);
    s' := s1.(host := Serving(pk), published := s.published + {pk}, store := Holds(h));
    HostStores(setup, s1, G.Granted(reply), e, s');
    LeadsOn(setup, s, e1, s1, [Deliver, Accept(true), Update(true, true)], s');
    es := e1 + [Deliver, Accept(true), Update(true, true)];
  }

  // From any state at all: once the secret is stored, stopping both processes and starting again
  // publishes its key.
  lemma AlwaysRecovers(setup: Setup, s: System, algorithm: Algorithm, key: SigningKey, pk: seq<byte>)
    returns (es: seq<Event>, s': System)
    requires SetupOk(setup) && s.store.Holds? && Loads(setup, s.store.header, algorithm, key, pk)
    ensures Leads(setup, s, es, s')
    ensures s'.host == Serving(pk) && s'.store == s.store && s'.published == s.published + {pk}
    ensures s'.gate.ready.Some? && s'.gate.ready.value.key == key
  {
    var rest := s.(host := Down, gate := G.EMPTY);
    var stops := [HostCrash, EnclaveCrash];
    assert Leads(setup, rest, [], rest);
    assert Leads(setup, Apply(setup, s, HostCrash), [EnclaveCrash], rest);
    hide Leads;
    var e1;
    e1, s' := StartupSucceeds(setup, rest, algorithm, key, pk);
    LeadsOn(setup, s, stops, rest, e1, s');
    es := stops + e1;
  }

  // A serving host whose enclave runs signs with the stored key, and with the key behind every
  // public key published so far.
  lemma SignsWithStoredKey(setup: Setup, s: System) returns (s': System)
    requires SetupOk(setup) && Invariant(setup, s) && s.host.Serving? && s.gate.ready.Some?
    ensures Leads(setup, s, [Sign], s')
    ensures s.store.Holds? && StoredKey(setup.world, s.store.header).Some?
    ensures var key := StoredKey(setup.world, s.store.header).value;
            && s' == s.(signers := s.signers + {key})
            && forall pk :: pk in s.published ==> setup.world.publicKey(key) == Some(pk)
  {
    hide Opens, FingerprintOf, StoredKey;
    s' := Apply(setup, s, Sign);
    assert Leads(setup, s', [], s');
  }

  // Next to an enclave that kept running.

  lemma AnsweredAtOnce(setup: Setup, s: System, id: nat, s': System)
    requires s.gate.ready.Some? && G.InPhase(s.gate, id, G.Arrived)
    requires var fp := s.gate.callers[id].fingerprint;
             s' == s.(gate := G.Moved(s.gate, id, G.Finished(G.Answer(s.gate.ready.value, fp))))
    ensures Leads(setup, s, [Enclave(G.FastPath(id))], s')
  {
    assert Leads(setup, s', [], s');
  }

  // The state after a request that a running enclave has answered.
  function Answered(s: System, host: Host, fp: Fingerprint): System
    requires s.gate.ready.Some? && host.Awaiting?
  {
    s.(nextId := s.nextId + 1, host := host,
       gate := Asked(s, host.plan, fp, G.Finished(G.Answer(s.gate.ready.value, fp))))
  }

  lemma AskRunning(setup: Setup, s: System, algorithm: Algorithm, plan: Source, fp: Fingerprint)
    returns (es: seq<Event>)
    requires s.host == Down && algorithm in setup.configured && s.nextId !in s.gate.callers
    requires PlanFor(s.store, algorithm) == Attempting(algorithm, plan, 1) && FingerprintOf(plan) == Some(fp)
    requires s.gate.ready.Some?
    ensures Leads(setup, s, es, Answered(s, Awaiting(algorithm, plan, 1, s.nextId, None), fp))
  {
    hide FingerprintOf, PlanFor, Leads, G.Answer;
    var id := s.nextId;
    var s1 := s.(nextId := id + 1, host := Awaiting(algorithm, plan, 1, id, None),
                 gate := Asked(s, plan, fp, G.Arrived));
    var s2 := Answered(s, Awaiting(algorithm, plan, 1, id, None), fp);
    AskPlan(setup, s, algorithm, plan, fp, s1);
    assert s2.gate.callers == G.Moved(s1.gate, id, s2.gate.callers[id].phase).callers;
    AnsweredAtOnce(setup, s1, id, s2);
    es := [Start(algorithm), ReadSecret(true), Send] + [Enclave(G.FastPath(id))];
    LeadsOn(setup, s, [Start(algorithm), ReadSecret(true), Send], s1, [Enclave(G.FastPath(id))], s2);
  }

  // A host that restarts next to a running enclave serves with the stored key at once, without
  // another run.
  lemma RestartSucceeds(setup: Setup, s: System, algorithm: Algorithm, key: SigningKey, pk: seq<byte>)
    returns (es: seq<Event>, s': System)
    requires SetupOk(setup) && Invariant(setup, s) && s.host == Down && s.gate.ready.Some?
    requires s.store.Holds? && Loads(setup, s.store.header, algorithm, key, pk)
    ensures Leads(setup, s, es, s')
    ensures s'.host == Serving(pk) && s'.store == s.store && s'.published == s.published + {pk}
    ensures s'.gate.ready == s.gate.ready && s'.gate.runs == s.gate.runs
  {
    var plan := Existing(ToEnvelope(s.store.header, algorithm));
    LoadedAnswers(setup, s, algorithm);
    OneStoredKey(setup.world, s.store.header, key);
    var fp := FingerprintOf(plan).value;
    hide FingerprintOf, Leads, Invariant, Opens, StoredKey, Lawful;
    var e1 := AskRunning(setup, s, algorithm, plan, fp);
    var outcome := G.Answer(s.gate.ready.value, fp);
    var s1 := Answered(s, Awaiting(algorithm, plan, 1, s.nextId, None), fp);
    s' := s1.(host := Serving(pk), published := s.published + {pk});
    HostAccepts(setup, s1, outcome, s');
    LeadsOn(setup, s, e1, s1, [Deliver, Accept(true)], s');
    es := e1 + [Deliver, Accept(true)];
  }

  // A key that was generated but not stored is not lost while the enclave runs: the next host
  // with that configuration gets it again, stores it and publishes it.
  lemma UnstoredKeyResumes(setup: Setup, s: System, algorithm: Algorithm) returns (es: seq<Event>, s': System)
    requires SetupOk(setup) && Invariant(setup, s) && s.host == Down && s.store.Blank? && algorithm in setup.configured
    requires s.gate.ready.Some? && s.gate.ready.value.source == Generate(algorithm)
    requires var reply := s.gate.ready.value.reply; reply.publicKey != [] && Filled(reply.envelope.value)
    ensures var state := s.gate.ready.value;
            && Leads(setup, s, es, s')
            && s'.host == Serving(state.reply.publicKey) && s'.published == s.published + {state.reply.publicKey}
            && s'.gate.ready == s.gate.ready && s'.gate.runs == s.gate.runs
            && s'.store.Holds? && StoredKey(setup.world, s'.store.header) == Some(state.key)
            && state.reply.envelope == Some(ToEnvelope(s'.store.header, algorithm))
            && s'.store.header.algorithm == algorithm
  {
    var plan, state := Generate(algorithm), s.gate.ready.value;
    var fp, e := FingerprintOf(plan).value, state.reply.envelope.value;
    assert GoodFor(setup.world, state.source, Candidate(state.key, state.reply));
    assert state.fingerprint == fp;
    assert Opens(setup.world, e) == Some(state.key);
    hide FingerprintOf, Leads, Invariant, Opens, Lawful;
    var e1 := AskRunning(setup, s, algorithm, plan, fp);
    var s1 := Answered(s, Awaiting(algorithm, plan, 1, s.nextId, None), fp);
    var h := Header(e.algorithm, e.dataKey, e.privateKey, e.nonce);
    s' := s1.(host := Serving(state.reply.publicKey), published := s.published + {state.reply.publicKey},
              store := Holds(h));
    HostStores(setup, s1, G.Granted(state.reply), e, s');
    LeadsOn(setup, s, e1, s1, [Deliver, Accept(true), Update(true, true)], s');
    es := e1 + [Deliver, Accept(true), Update(true, true)];
  }

  // A request whose reply was lost is sent again, and answered at once.
  lemma AskAgain(setup: Setup, s: System, fp: Fingerprint)
    requires s.host.Awaiting? && s.host.attempt < 3 && s.nextId !in s.gate.callers
    requires FingerprintOf(s.host.plan) == Some(fp) && s.gate.ready.Some?
    ensures var again := Awaiting(s.host.algorithm, s.host.plan, s.host.attempt + 1, s.nextId, None);
            Leads(setup, s, [Fail(true), Send, Enclave(G.FastPath(s.nextId))], Answered(s, again, fp))
  {
    var host, id := s.host, s.nextId;
    var again := Awaiting(host.algorithm, host.plan, host.attempt + 1, id, None);
    var a := Apply(setup, s, Fail(true));
    assert a == s.(host := Attempting(host.algorithm, host.plan, host.attempt + 1));
    var b := a.(nextId := id + 1, host := again, gate := Asked(a, host.plan, fp, G.Arrived));
    var c := Answered(s, again, fp);
    hide FingerprintOf, G.Answer;
    SendPlan(setup, a, fp, b);
    assert c.gate.callers == G.Moved(b.gate, id, c.gate.callers[id].phase).callers;
    AnsweredAtOnce(setup, b, id, c);
    LeadsOn(setup, a, [Send], b, [Enclave(G.FastPath(id))], c);
    assert [Send] + [Enclave(G.FastPath(id))] == [Send, Enclave(G.FastPath(id))];
    assert Leads(setup, s, [Fail(true)] + [Send, Enclave(G.FastPath(id))], c) by {
      assert Leads(setup, a, [], a) && Leads(setup, s, [Fail(true)], a);
      LeadsOn(setup, s, [Fail(true)], a, [Send, Enclave(G.FastPath(id))], c);
    }
    assert [Fail(true)] + [Send, Enclave(G.FastPath(id))] == [Fail(true), Send, Enclave(G.FastPath(id))];
  }

  // A lost reply costs an attempt, not the key: if the enclave has published a state for the
  // host's request, one of its three attempts being left, the startup still succeeds with it.
  lemma LostReplyRecovered(setup: Setup, s: System) returns (es: seq<Event>, s': System)
    requires SetupOk(setup) && Invariant(setup, s) && s.host.Awaiting? && s.host.attempt < 3
    requires s.gate.ready.Some? && s.gate.ready.value.source == s.host.plan
    requires var reply := s.gate.ready.value.reply;
             reply.publicKey != [] && (reply.envelope.Some? ==> Filled(reply.envelope.value))
    ensures var reply := s.gate.ready.value.reply;
            && Leads(setup, s, [Fail(true)] + es, s')
            && s'.host == Serving(reply.publicKey) && s'.published == s.published + {reply.publicKey}
            && s'.gate.ready == s.gate.ready && s'.gate.runs == s.gate.runs
            && s'.store == if reply.envelope.Some? then Holds(HeaderOf(reply.envelope.value)) else s.store
  {
    var state := s.gate.ready.value;
    var fp, reply := state.fingerprint, state.reply;
    assert GoodFor(setup.world, state.source, Candidate(state.key, state.reply));
    assert s.host.plan.Generate? ==> reply.envelope.Some? && reply.envelope.value.algorithm == s.host.algorithm;
    assert FingerprintOf(s.host.plan) == Some(fp);
    var again := Awaiting(s.host.algorithm, s.host.plan, s.host.attempt + 1, s.nextId, None);
    hide FingerprintOf, Leads, Invariant, Opens;
    AskAgain(setup, s, fp);
    var e1, s1 := [Fail(true), Send, Enclave(G.FastPath(s.nextId))], Answered(s, again, fp);
    s' := s1.(host := Serving(reply.publicKey), published := s.published + {reply.publicKey});
    var e2: seq<Event>;
    if reply.envelope.Some? {
      s' := s'.(store := Holds(HeaderOf(reply.envelope.value)));
      e2 := [Deliver, Accept(true), Update(true, true)];
      HostStores(setup, s1, G.Granted(reply), reply.envelope.value, s');
    } else {
      e2 := [Deliver, Accept(true)];
      HostAccepts(setup, s1, G.Granted(reply), s');
    }
    LeadsOn(setup, s, e1, s1, e2, s');
    es := [Send, Enclave(G.FastPath(s.nextId))] + e2;
    assert [Fail(true)] + es == e1 + e2;
  }

  // An update whose outcome the host does not learn stops the startup, but not the key: whether
  // it took effect or not, the next startup stores and publishes the same key.
  lemma AmbiguousUpdateRecovered(setup: Setup, s: System, landed: bool) returns (es: seq<Event>, s': System)
    requires SetupOk(setup) && Invariant(setup, s) && s.host.Storing? && s.gate.ready.Some?
    ensures Leads(setup, s, [Update(landed, false)] + es, s')
    ensures s'.host == Serving(s.host.publicKey) && s'.store == Holds(s.host.header)
    ensures s'.published == s.published + {s.host.publicKey}
  {
    var pk, h := s.host.publicKey, s.host.header;
    var t := Apply(setup, s, Update(landed, false));
    StepKeeps(setup, s, Update(landed, false));
    assert t == s.(host := Down, store := if landed then Holds(h) else s.store);
    assert Leads(setup, t, [], t);
    assert Leads(setup, s, [Update(landed, false)], t);
    var key := s.gate.ready.value.key;
    hide Leads, FingerprintOf;
    if landed {
      es, s' := RestartSucceeds(setup, t, h.algorithm, key, pk);
    } else {
      es, s' := UnstoredKeyResumes(setup, t, h.algorithm);
    }
    LeadsOn(setup, s, [Update(landed, false)], t, es, s');
  }
}
