// The initialization gate (initgate.go) under any number of concurrent Initialize callers.
// Each step of a caller and of the shared singleflight run is one event; events interleave freely.
module InitGate {
  import opened Bytes
  import opened KeySource
  import opened KeyMaterial

  // The published state. The code keeps the fingerprint only; the source it came from is kept
  // here to say which key source was published.
  datatype Ready = Ready(
    source: Source, fingerprint: Fingerprint, generated: Option<Fingerprint>, key: SigningKey, reply: Reply)

  datatype Outcome = Granted(reply: Reply) | Refused | RunFailed | Cancelled

  datatype FlightResult = Landed(state: Ready) | Lost

  // Entered: the shared function has started. Running: it is inside runInit. Completed: it has
  // returned, and callers may still join until singleflight forgets it.
  datatype Stage = Entered | Running | Completed(result: FlightResult)

  datatype Flight = Flight(leader: nat, stage: Stage)

  // Arrived: before the fast path. Passed: the fast path found nothing. Waiting: joined the
  // flight. Delivered: the result is in the caller's channel. Finished: the call returned.
  datatype Phase = Arrived | Passed | Waiting | Delivered(result: FlightResult) | Finished(outcome: Outcome)

  datatype Caller = Caller(source: Source, fingerprint: Fingerprint, phase: Phase)

  // The counters record the history: runInit calls, their returns, and stores to ready.
  datatype Gate = Gate(ready: Option<Ready>, flight: Option<Flight>, callers: map<nat, Caller>,
                       runs: nat, ended: nat, publications: nat)

  const EMPTY := Gate(None, None, map[], 0, 0, 0)

  datatype Event =
    | Arrive(id: nat, source: Source)
    | FastPath(id: nat)
    | Join(id: nat)
    | Check
    | RunEnd(candidate: Option<Candidate>)
    | Release
    | Return(id: nat)
    | Cancel(id: nat)

  // responseForFingerprint
  function Answer(state: Ready, fingerprint: Fingerprint): Outcome {
    if state.fingerprint == fingerprint then Granted(state.reply)
    else if state.generated == Some(fingerprint) then Granted(state.reply.(envelope := None))
    else Refused
  }

  // The state that a candidate becomes; the envelope it generated must itself be a valid source.
  function Publishable(source: Source, fingerprint: Fingerprint, c: Candidate): Option<Ready> {
    match c.reply.envelope
    case None => Some(Ready(source, fingerprint, None, c.key, c.reply))
    case Some(e) =>
      if FingerprintOf(Existing(e)).None? then None
      else Some(Ready(source, fingerprint, FingerprintOf(Existing(e)), c.key, c.reply))
  }

  predicate InPhase(g: Gate, id: nat, phase: Phase) {
    id in g.callers && g.callers[id].phase == phase
  }

  predicate AtStage(g: Gate, stage: Stage) {
    g.flight.Some? && g.flight.value.stage == stage
  }

  predicate Enabled(g: Gate, e: Event) {
    match e
    case Arrive(id, source) => id !in g.callers && FingerprintOf(source).Some?
    case FastPath(id) => InPhase(g, id, Arrived)
    case Join(id) => InPhase(g, id, Passed)
    case Check => AtStage(g, Entered) && g.flight.value.leader in g.callers
    case RunEnd(_) => AtStage(g, Running) && g.flight.value.leader in g.callers
    case Release => g.flight.Some? && g.flight.value.stage.Completed?
    case Return(id) => id in g.callers && g.callers[id].phase.Delivered?
    case Cancel(id) => id in g.callers && (g.callers[id].phase.Waiting? || g.callers[id].phase.Delivered?)
  }

  function Moved(g: Gate, id: nat, phase: Phase): Gate
    requires id in g.callers
  {
    g.(callers := g.callers[id := g.callers[id].(phase := phase)])
  }

  function Apply(g: Gate, e: Event): Gate
    requires Enabled(g, e)
  {
    match e
    case Arrive(id, source) =>
      g.(callers := g.callers[id := Caller(source, FingerprintOf(source).value, Arrived)])
    case FastPath(id) =>
      if g.ready.Some? then Moved(g, id, Finished(Answer(g.ready.value, g.callers[id].fingerprint)))
      else Moved(g, id, Passed)
    case Join(id) =>
      var g' := Moved(g, id, Waiting);
      if g.flight.Some? then g' else g'.(flight := Some(Flight(id, Entered)))
    case Check =>
      var leader := g.flight.value.leader;
      if g.ready.Some? then g.(flight := Some(Flight(leader, Completed(Landed(g.ready.value)))))
      else g.(flight := Some(Flight(leader, Running)), runs := g.runs + 1)
    case RunEnd(candidate) =>
      var leader := g.flight.value.leader;
      var state := if candidate.None? then None
                   else Publishable(g.callers[leader].source, g.callers[leader].fingerprint, candidate.value);
      if state.None? then g.(flight := Some(Flight(leader, Completed(Lost))), ended := g.ended + 1)
      else g.(flight := Some(Flight(leader, Completed(Landed(state.value)))), ready := state,
              ended := g.ended + 1, publications := g.publications + 1)
    case Release =>
      var result := g.flight.value.stage.result;
      g.(flight := None,
         callers := map id | id in g.callers ::
           if g.callers[id].phase.Waiting? then g.callers[id].(phase := Delivered(result)) else g.callers[id])
    case Return(id) =>
      Moved(g, id, Finished(match g.callers[id].phase.result
                            case Lost => RunFailed
                            case Landed(state) => Answer(state, g.callers[id].fingerprint)))
    case Cancel(id) => Moved(g, id, Finished(Cancelled))
  }

  ghost predicate WellFormed(state: Ready) {
    && FingerprintOf(state.source) == Some(state.fingerprint)
    && match state.reply.envelope
       case None => state.generated == None
       case Some(e) => state.generated.Some? && state.generated == FingerprintOf(Existing(e))
  }

  ghost predicate Consistent(g: Gate, c: Caller) {
    && FingerprintOf(c.source) == Some(c.fingerprint)
    && (c.phase.Waiting? ==> g.flight.Some?)
    && (c.phase.Delivered? && c.phase.result.Landed? ==> g.ready == Some(c.phase.result.state))
    && (c.phase.Finished? && (c.phase.outcome.Granted? || c.phase.outcome.Refused?) ==>
          g.ready.Some? && c.phase.outcome == Answer(g.ready.value, c.fingerprint))
  }

  ghost predicate Invariant(g: Gate) {
    && (g.ready.Some? ==> WellFormed(g.ready.value))
    && (g.flight.Some? ==>
          && g.flight.value.leader in g.callers
          && (g.flight.value.stage.Running? ==> g.ready == None)
          && (g.flight.value.stage == Completed(Lost) ==> g.ready == None)
          && (g.flight.value.stage.Completed? && g.flight.value.stage.result.Landed? ==>
                g.ready == Some(g.flight.value.stage.result.state)))
    && (forall id :: id in g.callers ==> Consistent(g, g.callers[id]))
    && g.publications == (if g.ready.Some? then 1 else 0)
    && g.runs == g.ended + (if AtStage(g, Running) then 1 else 0)
  }

  // Every step keeps the invariant; a published state is never replaced or withdrawn, and no
  // runInit call starts once there is one.
  lemma StepKeeps(g: Gate, e: Event)
    requires Invariant(g) && Enabled(g, e)
    ensures Invariant(Apply(g, e))
    ensures g.ready.Some? ==> Apply(g, e).ready == g.ready && Apply(g, e).runs == g.runs
  {
    hide FingerprintOf;
    var g' := Apply(g, e);
    forall id | id in g'.callers ensures Consistent(g', g'.callers[id]) {
      assert id in g.callers ==> Consistent(g, g.callers[id]);
    }
  }

  ghost predicate Steps(gs: seq<Gate>, es: seq<Event>) {
    && |gs| == |es| + 1
    && forall i :: 0 <= i < |es| ==> Enabled(gs[i], es[i]) && gs[i + 1] == Apply(gs[i], es[i])
  }

  ghost predicate Execution(gs: seq<Gate>, es: seq<Event>) { Steps(gs, es) && gs[0] == EMPTY }

  lemma {:induction false} Reachable(gs: seq<Gate>, es: seq<Event>, i: nat)
    requires Execution(gs, es) && i < |gs|
    ensures Invariant(gs[i])
    decreases i
  {
    hide Apply, Enabled;
    if i > 0 {
      Reachable(gs, es, i - 1);
      StepKeeps(gs[i - 1], es[i - 1]);
    }
  }

  // Single publication: over any execution a published state stays for ever, at most one state
  // is ever stored, no runInit call starts after that, and at most one is in progress at a time.
  lemma {:induction false} SinglePublication(gs: seq<Gate>, es: seq<Event>, i: nat, j: nat)
    requires Execution(gs, es) && i <= j < |gs|
    ensures gs[i].ready.Some? ==> gs[j].ready == gs[i].ready && gs[j].runs == gs[i].runs
    ensures gs[j].publications <= 1
    ensures gs[j].ended <= gs[j].runs <= gs[j].ended + 1
    decreases j - i
  {
    hide Apply, Enabled;
    Reachable(gs, es, j);
    if i < j {
      Reachable(gs, es, i);
      StepKeeps(gs[i], es[i]);
      SinglePublication(gs, es, i + 1, j);
    }
  }

  // The run ends without a candidate, or with one that cannot be published.
  ghost predicate Fails(g: Gate, e: Event) {
    && e.RunEnd? && Enabled(g, e)
    && var leader := g.callers[g.flight.value.leader];
       e.candidate.None? || Publishable(leader.source, leader.fingerprint, e.candidate.value).None?
  }

  // The run that event k ended has failed, and in state i callers can still join its flight.
  ghost predicate LostSince(gs: seq<Gate>, es: seq<Event>, k: nat, i: nat) {
    && k < i < |gs| && k < |es|
    && Fails(gs[k], es[k])
    && forall m :: k < m <= i ==> AtStage(gs[m], Completed(Lost)) && gs[m].ready == None
  }

  // A flight is lost exactly by a failed run, and Ready is empty until singleflight lets it go.
  lemma {:induction false} FailedRun(gs: seq<Gate>, es: seq<Event>, i: nat)
    requires Execution(gs, es) && i < |gs|
    ensures AtStage(gs[i], Completed(Lost)) <==> exists k :: LostSince(gs, es, k, i)
    ensures forall e :: Fails(gs[i], e) ==> AtStage(Apply(gs[i], e), Completed(Lost))
    decreases i
  {
    hide FingerprintOf, Publishable, Consistent;
    if AtStage(gs[i], Completed(Lost)) {
      Reachable(gs, es, i);
      if AtStage(gs[i - 1], Completed(Lost)) {
        FailedRun(gs, es, i - 1);
        var k :| LostSince(gs, es, k, i - 1);
        assert LostSince(gs, es, k, i);
      } else {
        assert LostSince(gs, es, i - 1, i);
      }
    }
  }

  // What a caller returns for the result of its flight.
  function OutcomeOf(result: FlightResult, fingerprint: Fingerprint): Outcome {
    match result
    case Lost => RunFailed
    case Landed(state) => Answer(state, fingerprint)
  }

  // A caller that waits for a flight that has completed, or that has gone on from there.
  ghost predicate Follows(g: Gate, id: nat, fingerprint: Fingerprint, result: FlightResult) {
    && id in g.callers && g.callers[id].fingerprint == fingerprint
    && match g.callers[id].phase
       case Waiting => AtStage(g, Completed(result))
       case Delivered(r) => r == result
       case Finished(outcome) => outcome == OutcomeOf(result, fingerprint) || outcome == Cancelled
       case _ => false
  }

  lemma FollowsStep(g: Gate, e: Event, id: nat, fingerprint: Fingerprint, result: FlightResult)
    requires Enabled(g, e) && Follows(g, id, fingerprint, result)
    ensures Follows(Apply(g, e), id, fingerprint, result)
    ensures InPhase(Apply(g, e), id, Waiting) ==> InPhase(g, id, Waiting)
    ensures InPhase(Apply(g, e), id, Finished(Cancelled)) ==> InPhase(g, id, Finished(Cancelled)) || e == Cancel(id)
  {
    hide FingerprintOf, Publishable;
  }

  // The result of a flight reaches every caller that waits when it completes, or joins before
  // singleflight lets it go: each of them can always go on, and returns what that result means
  // for it whatever is run and published meanwhile, unless it is cancelled itself.
  lemma {:induction false} ResultReachesAll(
    gs: seq<Gate>, es: seq<Event>, i: nat, j: nat, id: nat, result: FlightResult)
    requires Execution(gs, es) && i <= j < |gs|
    requires AtStage(gs[i], Completed(result)) && InPhase(gs[i], id, Waiting)
    ensures Follows(gs[j], id, gs[i].callers[id].fingerprint, result)
    ensures InPhase(gs[j], id, Waiting) ==>
              Enabled(gs[j], Release) && forall m :: i <= m <= j ==> AtStage(gs[m], Completed(result))
    ensures InPhase(gs[j], id, Delivered(result)) ==> Enabled(gs[j], Return(id))
    ensures InPhase(gs[j], id, Finished(Cancelled)) ==> exists k :: i <= k < j && es[k] == Cancel(id)
    decreases j
  {
    hide Apply;
    if i < j {
      ResultReachesAll(gs, es, i, j - 1, id, result);
      FollowsStep(gs[j - 1], es[j - 1], id, gs[i].callers[id].fingerprint, result);
    }
  }

  // The error of a failed run is returned by every caller of its flight that is not cancelled,
  // whatever happens meanwhile; when the flight is let go Ready is empty and a new run can start.
  lemma LostRunReachesAll(gs: seq<Gate>, es: seq<Event>, k: nat, i: nat, j: nat, id: nat)
    requires Execution(gs, es) && i <= j < |gs|
    requires LostSince(gs, es, k, i) && InPhase(gs[i], id, Waiting)
    ensures || (InPhase(gs[j], id, Waiting) && LostSince(gs, es, k, j))
            || InPhase(gs[j], id, Delivered(Lost))
            || InPhase(gs[j], id, Finished(RunFailed))
            || (InPhase(gs[j], id, Finished(Cancelled)) && exists m :: i <= m < j && es[m] == Cancel(id))
    ensures InPhase(gs[j], id, Waiting) ==>
              Enabled(gs[j], Release) && Apply(gs[j], Release).ready == None && Apply(gs[j], Release).flight == None
  {
    ResultReachesAll(gs, es, i, j, id, Lost);
    forall m | i <= m <= j ensures AtStage(gs[m], Completed(Lost)) ==> gs[m].ready == None {
      Reachable(gs, es, m);
    }
  }

  // Conversely, a caller returns the error of a run only if it was waiting for a flight whose run
  // had failed.
  lemma {:induction false} RunFailedOnlyThen(gs: seq<Gate>, es: seq<Event>, j: nat, id: nat)
    requires Execution(gs, es) && j < |gs|
    requires InPhase(gs[j], id, Delivered(Lost)) || InPhase(gs[j], id, Finished(RunFailed))
    ensures exists k: nat, i: nat :: i < j && LostSince(gs, es, k, i) && InPhase(gs[i], id, Waiting)
    decreases j
  {
    hide Apply, Enabled;
    RunFailedStep(gs[j - 1], es[j - 1], id);
    if InPhase(gs[j - 1], id, Waiting) {
      FailedRun(gs, es, j - 1);
    } else {
      RunFailedOnlyThen(gs, es, j - 1, id);
    }
  }

  lemma RunFailedStep(g: Gate, e: Event, id: nat)
    requires Enabled(g, e)
    requires InPhase(Apply(g, e), id, Delivered(Lost)) || InPhase(Apply(g, e), id, Finished(RunFailed))
    ensures || InPhase(g, id, Delivered(Lost)) || InPhase(g, id, Finished(RunFailed))
            || (InPhase(g, id, Waiting) && AtStage(g, Completed(Lost)))
  {
    hide FingerprintOf, Publishable;
  }

  predicate StepOf(e: Event, id: nat) {
    match e
    case Arrive(x, _) => x == id
    case FastPath(x) => x == id
    case Join(x) => x == id
    case Return(x) => x == id
    case Cancel(x) => x == id
    case _ => false
  }

  // A cancellation commutes with every step of the shared run and of the other callers.
  lemma CancelCommutes(g: Gate, id: nat, e: Event)
    requires Enabled(g, Cancel(id)) && !StepOf(e, id)
    ensures Enabled(Apply(g, Cancel(id)), e) <==> Enabled(g, e)
    ensures Enabled(g, e) ==>
              Enabled(Apply(g, e), Cancel(id)) && Apply(Apply(g, Cancel(id)), e) == Apply(Apply(g, e), Cancel(id))
  {
    hide Apply, Enabled;
    if e.Check? || e.RunEnd? || e.Release? {
      SharedCommutes(g, id, e);
    } else {
      OtherCommutes(g, id, e);
    }
  }

  // The shared run needs its leader's request only.
  lemma SharedCommutes(g: Gate, id: nat, e: Event)
    requires Enabled(g, Cancel(id)) && (e.Check? || e.RunEnd? || e.Release?)
    ensures Enabled(Apply(g, Cancel(id)), e) <==> Enabled(g, e)
    ensures Enabled(g, e) ==>
              Enabled(Apply(g, e), Cancel(id)) && Apply(Apply(g, Cancel(id)), e) == Apply(Apply(g, e), Cancel(id))
  {
    hide FingerprintOf, Publishable, Answer;
    if Enabled(g, e) && e.Release? {
      assert Apply(Apply(g, Cancel(id)), e).callers == Apply(Apply(g, e), Cancel(id)).callers;
    }
  }

  lemma OtherCommutes(g: Gate, id: nat, e: Event)
    requires Enabled(g, Cancel(id)) && !StepOf(e, id) && !e.Check? && !e.RunEnd? && !e.Release?
    ensures Enabled(Apply(g, Cancel(id)), e) <==> Enabled(g, e)
    ensures Enabled(g, e) ==>
              Enabled(Apply(g, e), Cancel(id)) && Apply(Apply(g, Cancel(id)), e) == Apply(Apply(g, e), Cancel(id))
  {
    hide FingerprintOf, Publishable, Answer;
    if Enabled(g, e) {
      assert Apply(Apply(g, Cancel(id)), e).callers == Apply(Apply(g, e), Cancel(id)).callers;
    }
  }

  // What happened after a cancellation would have happened without it.
  lemma {:induction false} WithoutCancel(h: Gate, gs: seq<Gate>, es: seq<Event>, id: nat) returns (hs: seq<Gate>)
    requires Enabled(h, Cancel(id)) && Steps(gs, es) && gs[0] == Apply(h, Cancel(id))
    ensures Steps(hs, es) && hs[0] == h && |hs| == |gs|
    ensures forall i :: 0 <= i < |hs| ==> Enabled(hs[i], Cancel(id)) && gs[i] == Apply(hs[i], Cancel(id))
    decreases |es|
  {
    if es == [] {
      hs := [h];
    } else {
      NoStepAfterCancel(h, id, es[0]);
      CancelCommutes(h, id, es[0]);
      hide Apply, Enabled;
      var rest := WithoutCancel(Apply(h, es[0]), gs[1..], es[1..], id);
      hs := [h] + rest;
    }
  }

  lemma NoStepAfterCancel(h: Gate, id: nat, e: Event)
    requires Enabled(h, Cancel(id)) && Enabled(Apply(h, Cancel(id)), e)
    ensures !StepOf(e, id)
  {
    hide FingerprintOf;
  }

  // The state but for one caller.
  ghost predicate SameBut(g: Gate, h: Gate, id: nat) {
    && g.ready == h.ready && g.flight == h.flight
    && g.runs == h.runs && g.ended == h.ended && g.publications == h.publications
    && g.callers.Keys == h.callers.Keys
    && forall other :: other in g.callers && other != id ==> g.callers[other] == h.callers[other]
  }

  // A caller's cancellation neither stops nor undoes the shared run: leaving it out of an
  // execution leaves an execution with the same run, the same publications and the same course of
  // every other caller.
  lemma CancelIsLocal(gs: seq<Gate>, es: seq<Event>, k: nat, id: nat) returns (hs: seq<Gate>)
    requires Execution(gs, es) && k < |es| && es[k] == Cancel(id)
    ensures Execution(hs, es[..k] + es[k + 1..])
    ensures hs[..k + 1] == gs[..k + 1]
    ensures forall i :: k <= i < |hs| ==> SameBut(hs[i], gs[i + 1], id) && InPhase(gs[i + 1], id, Finished(Cancelled))
  {
    hide Enabled, Apply, SameBut, InPhase;
    assert Steps(gs[k + 1..], es[k + 1..]);
    var rest := WithoutCancel(gs[k], gs[k + 1..], es[k + 1..], id);
    assert Steps(gs[..k + 1], es[..k]);
    StepsJoin(gs[..k + 1], es[..k], rest, es[k + 1..]);
    assert gs[..k + 1][..k] == gs[..k];
    hs := gs[..k] + rest;
    forall i | k <= i < |hs| ensures SameBut(hs[i], gs[i + 1], id) && InPhase(gs[i + 1], id, Finished(Cancelled)) {
      assert hs[i] == rest[i - k] && gs[i + 1] == gs[k + 1..][i - k];
      CancelStep(rest[i - k], id);
    }
  }

  lemma CancelStep(g: Gate, id: nat)
    requires Enabled(g, Cancel(id))
    ensures SameBut(g, Apply(g, Cancel(id)), id) && InPhase(Apply(g, Cancel(id)), id, Finished(Cancelled))
  {
  }

  lemma StepsJoin(gs: seq<Gate>, es: seq<Event>, hs: seq<Gate>, fs: seq<Event>)
    requires Steps(gs, es) && Steps(hs, fs) && gs[|es|] == hs[0]
    ensures Steps(gs[..|es|] + hs, es + fs)
  {
    hide Enabled, Apply;
  }

  // A caller returns its own cancellation only after its context has ended.
  lemma {:induction false} CancelledOnlyThen(gs: seq<Gate>, es: seq<Event>, j: nat, id: nat)
    requires Execution(gs, es) && j < |gs| && InPhase(gs[j], id, Finished(Cancelled))
    ensures exists k :: 0 <= k < j && es[k] == Cancel(id)
    decreases j
  {
    hide Apply, Enabled, Invariant;
    CancelledStep(gs[j - 1], es[j - 1], id);
    if es[j - 1] != Cancel(id) {
      CancelledOnlyThen(gs, es, j - 1, id);
    }
  }

  lemma CancelledStep(g: Gate, e: Event, id: nat)
    requires Enabled(g, e) && InPhase(Apply(g, e), id, Finished(Cancelled))
    ensures e == Cancel(id) || InPhase(g, id, Finished(Cancelled))
  {
    hide FingerprintOf, Publishable;
  }

  // The published state is that of the one run that ended with a publishable candidate: its
  // leader's key source, its key and its reply.
  lemma {:induction false} PublishedByRun(gs: seq<Gate>, es: seq<Event>, j: nat) returns (k: nat)
    requires Execution(gs, es) && j < |gs| && gs[j].ready.Some?
    ensures k < j && gs[k].ready == None && gs[k + 1].ready == gs[j].ready
    ensures es[k].RunEnd? && es[k].candidate.Some? && AtStage(gs[k], Running)
    ensures gs[k].flight.value.leader in gs[k].callers
    ensures var state, c := gs[j].ready.value, es[k].candidate.value;
            && state.source == gs[k].callers[gs[k].flight.value.leader].source
            && state.key == c.key && state.reply == c.reply
    decreases j
  {
    hide Apply, Enabled, Invariant, AtStage;
    if gs[j - 1].ready.Some? {
      Reachable(gs, es, j - 1);
      StepKeeps(gs[j - 1], es[j - 1]);
      k := PublishedByRun(gs, es, j - 1);
    } else {
      PublishedStep(gs[j - 1], es[j - 1]);
      k := j - 1;
    }
  }

  lemma PublishedStep(g: Gate, e: Event)
    requires Enabled(g, e) && g.ready == None && Apply(g, e).ready.Some?
    ensures e.RunEnd? && e.candidate.Some? && AtStage(g, Running) && g.flight.value.leader in g.callers
    ensures var state, c := Apply(g, e).ready.value, e.candidate.value;
            && state.source == g.callers[g.flight.value.leader].source
            && state.key == c.key && state.reply == c.reply
  {
    hide FingerprintOf;
  }

  function Rank(phase: Phase): nat {
    match phase
    case Arrived => 0
    case Passed => 1
    case Waiting => 2
    case Delivered(_) => 3
    case Finished(_) => 4
  }

  function StageRank(g: Gate): nat {
    match g.flight
    case None => 0
    case Some(flight) => if flight.stage.Entered? then 1 else if flight.stage.Running? then 2 else 3
  }

  ghost predicate MovesOn(g: Gate, e: Event, id: nat)
    requires Enabled(g, e) && id in g.callers
  {
    var callers := Apply(g, e).callers;
    && id in callers
    && callers[id].source == g.callers[id].source && callers[id].fingerprint == g.callers[id].fingerprint
    && Rank(callers[id].phase) >= Rank(g.callers[id].phase)
    && (StepOf(e, id) ==> Rank(callers[id].phase) > Rank(g.callers[id].phase))
  }

  // Callers and the shared run only move forward, each of their own steps takes them further, no
  // request changes on the way, and a flight keeps its leader: who joins it leaves it alone.
  lemma Forward(g: Gate, e: Event)
    requires Enabled(g, e)
    ensures forall id :: id in g.callers ==> MovesOn(g, e, id)
    ensures e.Check? || e.RunEnd? ==> StageRank(Apply(g, e)) > StageRank(g)
    ensures e.Release? ==> StageRank(Apply(g, e)) == 0
    ensures g.flight.Some? && Apply(g, e).flight.Some? ==> Apply(g, e).flight.value.leader == g.flight.value.leader
    ensures e.Join? && g.flight.Some? ==> Apply(g, e).flight == g.flight
  {
    forall id | id in g.callers ensures MovesOn(g, e, id) {
      CallerForward(g, e, id);
    }
    hide FingerprintOf, Publishable, MovesOn;
  }

  lemma CallerForward(g: Gate, e: Event, id: nat)
    requires Enabled(g, e) && id in g.callers
    ensures MovesOn(g, e, id)
  {
    hide FingerprintOf, Publishable, Answer;
  }

  // No caller is stuck: until it has returned, it or the flight it waits for can take a step.
  lemma NotStuck(g: Gate, id: nat) returns (e: Event)
    requires Invariant(g) && id in g.callers && !g.callers[id].phase.Finished?
    ensures Enabled(g, e) && !e.Arrive? && !e.Cancel?
    ensures StepOf(e, id) || (g.callers[id].phase.Waiting? && (e.Check? || e.RunEnd? || e.Release?))
    ensures g.callers[id].phase.Waiting? || g.callers[id].phase.Delivered? ==> Enabled(g, Cancel(id))
  {
    assert Consistent(g, g.callers[id]);
    match g.callers[id].phase
    case Arrived => e := FastPath(id);
    case Passed => e := Join(id);
    case Waiting =>
      e := match g.flight.value.stage
           case Entered => Check
           case Running => RunEnd(None)
           case Completed(_) => Release;
    case Delivered(_) => e := Return(id);
  }

  ghost predicate SourcesFit(state: Ready, source: Source) {
    && SourceFits(source) && SourceFits(state.source)
    && (state.reply.envelope.Some? ==> SourceFits(Existing(state.reply.envelope.value)))
  }

  // Replay: once a state is published, a caller gets the full reply exactly for the published
  // source, the reply without the envelope exactly for the generated envelope used as an existing
  // key, and a refusal for every other source; by whichever path it came.
  lemma ReplayExactly(g: Gate, id: nat)
    requires Invariant(g) && id in g.callers && g.callers[id].phase.Finished?
    requires g.callers[id].phase.outcome.Granted? || g.callers[id].phase.outcome.Refused?
    requires g.ready.Some? ==> SourcesFit(g.ready.value, g.callers[id].source)
    ensures g.ready.Some?
    ensures var state, source := g.ready.value, g.callers[id].source;
            g.callers[id].phase.outcome ==
            if source == state.source then Granted(state.reply)
            else if state.reply.envelope.Some? && source == Existing(state.reply.envelope.value)
            then Granted(state.reply.(envelope := None))
            else Refused
  {
    var state, source := g.ready.value, g.callers[id].source;
    assert Consistent(g, g.callers[id]);
    FingerprintInjective(source, state.source);
    if state.reply.envelope.Some? {
      FingerprintInjective(source, Existing(state.reply.envelope.value));
    }
  }

  // Every outcome there is, over any execution: a caller that has returned was cancelled, or got
  // the error of a failed run of its flight, or has exactly the answer that the published state
  // gives to its key source.
  lemma EveryOutcome(gs: seq<Gate>, es: seq<Event>, j: nat, id: nat)
    requires Execution(gs, es) && j < |gs| && id in gs[j].callers && gs[j].callers[id].phase.Finished?
    requires gs[j].ready.Some? ==> SourcesFit(gs[j].ready.value, gs[j].callers[id].source)
    ensures || (InPhase(gs[j], id, Finished(Cancelled)) && exists k :: 0 <= k < j && es[k] == Cancel(id))
            || (InPhase(gs[j], id, Finished(RunFailed))
                && exists k: nat, i: nat :: i < j && LostSince(gs, es, k, i) && InPhase(gs[i], id, Waiting))
            || (gs[j].ready.Some?
                && var state, source := gs[j].ready.value, gs[j].callers[id].source;
                   InPhase(gs[j], id, Finished(
                     if source == state.source then Granted(state.reply)
                     else if state.reply.envelope.Some? && source == Existing(state.reply.envelope.value)
                     then Granted(state.reply.(envelope := None))
                     else Refused)))
  {
    Reachable(gs, es, j);
    hide Execution, Invariant;
    match gs[j].callers[id].phase.outcome
    case Cancelled => CancelledOnlyThen(gs, es, j, id);
    case RunFailed => RunFailedOnlyThen(gs, es, j, id);
    case _ => ReplayExactly(gs[j], id);
  }
}
