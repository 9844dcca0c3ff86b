// Shutdown drains the proxy: after the latch closes every step brings the end nearer, no state
// is stuck, and when Shutdown returns nothing is left open.
module ByteProxyShutdown {
  import opened Totals
  import opened ByteProxy
  import opened ByteProxyInvariant

  function CopyWeight(copy: Copy): nat {
    match copy
    case Copying => 3
    case Closing => 2
    case Signalled => 1
    case Counted => 0
  }

  function PhaseWeight(phase: Phase): nat {
    match phase
    case Fresh => 1
    case Checked => 16
    case Acquired => 15
    case Dialing => 12
    case Piping(out, back, armed) => 4 + CopyWeight(out) + CopyWeight(back) + if armed then 1 else 0
    case Unwinding => 3
    case Released => 2
    case Leaving => 1
    case Ended(_) => 0
  }

  function LoopWeight(loop: Loop): nat {
    match loop
    case Accepting => 3
    case Holding(_) => 1
    case Returning => 1
    case Exited => 0
  }

  const CONN_WEIGHT: Conn -> int := (c: Conn) => PhaseWeight(c.phase)
  const SERVICE_WEIGHT: Service -> int := (x: Service) => LoopWeight(x.loop)

  function ShutdownWeight(p: Proxy): nat {
    match p.shutdown
    case NotCalled => |p.services| + 3
    case ClosingListeners(next) => if next <= |p.services| then |p.services| - next + 2 else 2
    case Draining => 1
    case Returned => 0
  }

  // The steps that can still happen, at most.
  function Measure(p: Proxy): int {
    ShutdownWeight(p) + Total(p.services, SERVICE_WEIGHT) + Total(p.conns, CONN_WEIGHT)
  }

  lemma MeasureNatural(p: Proxy)
    ensures Measure(p) >= 0
  {
    TotalNatural(p.services, SERVICE_WEIGHT);
    TotalNatural(p.conns, CONN_WEIGHT);
  }

  // After the latch has closed every step, of the proxy or of the network, decreases the measure.
  lemma StepDecreases(p: Proxy, e: Event)
    requires Invariant(p) && Latched(p) && Enabled(p, e)
    ensures Measure(Apply(p, e)) < Measure(p) && Latched(Apply(p, e))
  {
    if IsLoopEvent(e) {
      LoopStepDecreases(p, e);
    } else if IsShutdownEvent(e) {
      ShutdownStepDecreases(p, e);
    } else {
      BridgeStepDecreases(p, e);
    }
  }

  lemma LoopStepDecreases(p: Proxy, e: Event)
    requires Latched(p) && Enabled(p, e) && IsLoopEvent(e)
    ensures Measure(Apply(p, e)) < Measure(p) && Latched(Apply(p, e))
  {
    hide Total;
    ConnTotal(p, e, CONN_WEIGHT);
    ServiceTotal(p, e, SERVICE_WEIGHT);
  }

  lemma BridgeStepDecreases(p: Proxy, e: Event)
    requires Latched(p) && Enabled(p, e) && !IsLoopEvent(e) && !IsShutdownEvent(e)
    ensures Measure(Apply(p, e)) < Measure(p) && Latched(Apply(p, e))
  {
    hide Total;
    ConnTotal(p, e, CONN_WEIGHT);
    ServiceTotal(p, e, SERVICE_WEIGHT);
  }

  lemma ShutdownStepDecreases(p: Proxy, e: Event)
    requires Latched(p) && Enabled(p, e) && IsShutdownEvent(e)
    ensures Measure(Apply(p, e)) < Measure(p) && Latched(Apply(p, e))
  {
    hide Total;
    ConnTotal(p, e, CONN_WEIGHT);
    ServiceTotal(p, e, SERVICE_WEIGHT);
  }

  ghost predicate Drained(p: Proxy) {
    && (forall s :: 0 <= s < |p.services| ==> p.services[s].loop.Exited? && p.services[s].tokens == 0)
    && (forall c :: 0 <= c < |p.conns| ==>
          p.conns[c].phase.Ended? && !p.conns[c].inboundOpen && !p.conns[c].upstream.Open?)
  }

  lemma NoneAlive(p: Proxy)
    requires Invariant(p) && p.wg == 0
    ensures Drained(p)
  {
    AliveCounts(p);
    forall s | 0 <= s < |p.services| ensures p.services[s].tokens == 0 {
      assert ServiceCounts(p, s);
      if Total(p.conns, Tokens(s)) > 0 {
        var c := TotalWitness(p.conns, Tokens(s));
        NotUndecided(p, c);
      }
    }
    forall c | 0 <= c < |p.conns|
      ensures p.conns[c].phase.Ended? && !p.conns[c].inboundOpen && !p.conns[c].upstream.Open?
    {
      assert ConnOk(p, p.conns[c]);
      NotUndecided(p, c);
    }
  }

  // With all loops gone no connection is waiting in one.
  lemma NotUndecided(p: Proxy, c: nat)
    requires Invariant(p) && p.wg == 0 && c < |p.conns|
    ensures !InLoop(p.conns[c].phase)
  {
    AliveCounts(p);
    var s := p.conns[c].service;
    assert ConnOk(p, p.conns[c]);
    assert ServiceCounts(p, s);
    TotalMember(p.conns, c, Undecided(s));
  }

  // No state is stuck: until Shutdown returns, some step is assured.
  lemma NotStuck(p: Proxy) returns (e: Event)
    requires Invariant(p) && Latched(p) && !p.shutdown.Returned?
    ensures Assured(p, e)
  {
    if p.shutdown.ClosingListeners? {
      e := if p.shutdown.next < |p.services| then CloseListener else CancelDials;
    } else if p.wg == 0 {
      e := ShutdownReturns;
    } else {
      TotalNatural(p.services, LOOP_LIVE);
      TotalNatural(p.conns, BRIDGE_LIVE);
      if Total(p.services, LOOP_LIVE) > 0 {
        var s := TotalWitness(p.services, LOOP_LIVE);
        e := LoopMoves(p, s);
      } else {
        var c := TotalWitness(p.conns, BRIDGE_LIVE);
        e := BridgeMoves(p, c);
      }
    }
  }

  lemma LoopMoves(p: Proxy, s: nat) returns (e: Event)
    requires Structure(p) && p.shutdown.Draining? && s < |p.services| && !p.services[s].loop.Exited?
    ensures Assured(p, e)
  {
    assert HolderOk(p, s);
    match p.services[s].loop
    case Accepting => e := AcceptFails(s);
    case Returning => e := LoopDone(s);
    case Holding(c) =>
      match p.conns[c].phase {
        case Fresh => e := CheckLatch(s);
        case Checked => e := TryAcquire(s);
        case Acquired => e := Spawn(s);
      }
  }

  lemma BridgeMoves(p: Proxy, c: nat) returns (e: Event)
    requires Invariant(p) && p.shutdown.Draining? && c < |p.conns| && IsBridge(p.conns[c].phase)
    ensures Assured(p, e)
  {
    var conn := p.conns[c];
    assert ConnOk(p, conn);
    match conn.phase
    case Dialing => e := DialFails(c);
    case Piping(out, back, armed) =>
      if out.Counted? && back.Counted? {
        e := PipeReturns(c);
      } else if armed {
        e := PipeSeesShutdown(c);
      } else {
        e := CopyMoves(p, c, !out.Counted?);
      }
    case Unwinding =>
      assert ServiceCounts(p, conn.service);
      TotalMember(p.conns, c, Tokens(conn.service));
      e := ReleaseToken(c);
    case Released => e := CloseInbound(c);
    case Leaving => e := BridgeDone(c);
  }

  lemma CopyMoves(p: Proxy, c: nat, out: bool) returns (e: Event)
    requires InPipe(p, c) && !CopyOf(p.conns[c].phase, out).Counted? && p.conns[c].upstream.Closed?
    ensures Assured(p, e)
  {
    match CopyOf(p.conns[c].phase, out)
    case Copying => e := CopyEnds(c, out);
    case Closing => e := CopyCloses(c, out);
    case Signalled => e := CountCopy(c, out);
  }

  // From the moment the latch closes, an execution takes at most Measure more steps.
  lemma {:induction false} StepsBounded(ps: seq<Proxy>, es: seq<Event>, i: nat, j: nat)
    requires Execution(ps, es) && i <= j < |ps| && Latched(ps[i])
    ensures Latched(ps[j]) && j - i <= Measure(ps[i]) - Measure(ps[j])
    ensures j - i <= Measure(ps[i])
    decreases j - i
  {
    MeasureNatural(ps[j]);
    if i < j {
      Reachable(ps, es, i);
      hide Measure, Latched, Invariant;
      StepDecreases(ps[i], es[i]);
      StepsBounded(ps, es, i + 1, j);
    }
  }

  // Shutdown drains: an execution that can take no assured step after the latch has closed has
  // returned from Shutdown, with every loop and bridge ended, every token given back, every
  // accepted connection and every dialed upstream closed.
  lemma ShutdownDrains(ps: seq<Proxy>, es: seq<Event>, i: nat)
    requires Execution(ps, es) && i < |ps| && Latched(ps[i])
    ensures (forall e :: !Assured(ps[i], e)) ==> ps[i].shutdown.Returned?
    ensures ps[i].shutdown.Returned? ==> Drained(ps[i]) && forall e :: !Enabled(ps[i], e)
  {
    Reachable(ps, es, i);
    if !ps[i].shutdown.Returned? {
      var e := NotStuck(ps[i]);
    } else {
      NoneAlive(ps[i]);
      forall e ensures !Enabled(ps[i], e) {
        DrainedIsFinal(ps[i], e);
      }
    }
  }

  lemma DrainedIsFinal(p: Proxy, e: Event)
    requires Structure(p) && Drained(p) && p.shutdown.Returned?
    ensures !Enabled(p, e)
  {
  }

  // A connection whose Accept returned after the latch closed is never dialed.
  lemma LateNeverDialed(ps: seq<Proxy>, es: seq<Event>, i: nat, c: nat)
    requires Execution(ps, es) && i < |ps| && c < |ps[i].conns| && ps[i].conns[c].late
    ensures ps[i].conns[c].upstream.Absent? && !IsBridge(ps[i].conns[c].phase)
    ensures ps[i].conns[c].phase.Ended? ==> !ps[i].conns[c].inboundOpen
  {
    Reachable(ps, es, i);
    assert ConnOk(ps[i], ps[i].conns[c]);
  }
}
