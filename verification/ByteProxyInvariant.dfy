// What every step of the byte proxy keeps.
module ByteProxyInvariant {
  import opened Totals
  import opened ByteProxy

  predicate InLoop(phase: Phase) { phase.Fresh? || phase.Checked? || phase.Acquired? }

  // A bridge goroutine exists from Spawn to BridgeDone.
  predicate IsBridge(phase: Phase) {
    phase.Dialing? || phase.Piping? || phase.Unwinding? || phase.Released? || phase.Leaving?
  }

  predicate HasToken(phase: Phase) {
    phase.Acquired? || phase.Dialing? || phase.Piping? || phase.Unwinding?
  }

  function One(b: bool): int { if b then 1 else 0 }

  const LOOP_LIVE: Service -> int := (x: Service) => One(!x.loop.Exited?)
  const BRIDGE_LIVE: Conn -> int := (c: Conn) => One(IsBridge(c.phase))

  function Tokens(s: nat): Conn -> int { (c: Conn) => One(c.service == s && HasToken(c.phase)) }
  function Undecided(s: nat): Conn -> int { (c: Conn) => One(c.service == s && InLoop(c.phase)) }
  function DroppedOf(s: nat): Conn -> int { (c: Conn) => One(c.service == s && c.phase == Ended(Dropped)) }
  function TurnedAwayOf(s: nat): Conn -> int { (c: Conn) => One(c.service == s && c.phase == Ended(TurnedAway)) }
  function DispatchedOf(s: nat): Conn -> int {
    (c: Conn) => One(c.service == s && (IsBridge(c.phase) || c.phase == Ended(Bridged)))
  }
  function AcceptedOf(s: nat): Conn -> int { (c: Conn) => One(c.service == s) }

  ghost predicate ConnOk(p: Proxy, c: Conn) {
    && c.service < |p.services|
    && (c.late ==> Latched(p) && (c.phase == Fresh || c.phase == Ended(TurnedAway)))
    && match c.phase
       case Fresh => c.inboundOpen && c.upstream.Absent?
       case Checked => c.inboundOpen && c.upstream.Absent?
       case Acquired => c.inboundOpen && c.upstream.Absent?
       case Dialing => c.inboundOpen && c.upstream.Absent?
       case Piping(out, back, armed) =>
         // An end is open until a copy into it has ended or shutdown has closed both.
         && !c.upstream.Absent?
         && (c.upstream.Closed? <==> !armed || out.Signalled? || out.Counted?)
         && (!c.inboundOpen <==> !armed || back.Signalled? || back.Counted?)
         && (!armed ==> Latched(p))
       case Unwinding => !c.upstream.Open?
       case Released => !c.upstream.Open?
       case Leaving => !c.upstream.Open? && !c.inboundOpen
       case Ended(fate) => !c.upstream.Open? && !c.inboundOpen && (!fate.Bridged? ==> c.upstream.Absent?)
  }

  ghost predicate HolderOk(p: Proxy, s: nat)
    requires s < |p.services|
  {
    p.services[s].loop.Holding? ==>
      var c := p.services[s].loop.conn;
      c < |p.conns| && p.conns[c].service == s && InLoop(p.conns[c].phase)
  }

  // Shutdown has come past this listener.
  predicate ListenerClosed(p: Proxy, s: nat) {
    DialCancelled(p) || (p.shutdown.ClosingListeners? && s < p.shutdown.next)
  }

  ghost predicate Structure(p: Proxy) {
    && p.maxConns > 0
    && (forall c :: 0 <= c < |p.conns| ==> ConnOk(p, p.conns[c]))
    && (forall s :: 0 <= s < |p.services| ==> HolderOk(p, s))
    && (p.shutdown.ClosingListeners? ==> p.shutdown.next <= |p.services|)
    && (forall s :: 0 <= s < |p.services| && ListenerClosed(p, s) ==> !p.services[s].listenerOpen)
  }

  ghost predicate ServiceCounts(p: Proxy, s: nat)
    requires s < |p.services|
  {
    && p.services[s].tokens == Total(p.conns, Tokens(s)) <= p.maxConns
    && p.services[s].dropped == Total(p.conns, DroppedOf(s))
    && Total(p.conns, Undecided(s)) == One(p.services[s].loop.Holding?)
  }

  ghost predicate Counts(p: Proxy) {
    && p.wg == Total(p.services, LOOP_LIVE) + Total(p.conns, BRIDGE_LIVE)
    && (p.shutdown.Returned? ==> p.wg == 0)
    && forall s :: 0 <= s < |p.services| ==> ServiceCounts(p, s)
  }

  ghost predicate Invariant(p: Proxy) { Structure(p) && Counts(p) }

  // New and Run: every listener bound, one accept loop a service, nothing accepted.
  ghost predicate Started(p: Proxy) {
    && p.maxConns > 0 && p.conns == [] && p.shutdown.NotCalled? && p.wg == |p.services|
    && forall s :: 0 <= s < |p.services| ==> p.services[s] == Service(Accepting, true, 0, 0)
  }

  lemma {:induction false} AllLive(services: seq<Service>)
    requires forall s :: 0 <= s < |services| ==> services[s].loop == Accepting
    ensures Total(services, LOOP_LIVE) == |services|
    decreases |services|
  {
    if services != [] {
      AllLive(services[1..]);
    }
  }

  lemma StartedInvariant(p: Proxy)
    requires Started(p)
    ensures Invariant(p)
  {
    AllLive(p.services);
  }

  predicate IsLoopEvent(e: Event) {
    e.Accept? || e.AcceptFails? || e.CheckLatch? || e.TryAcquire? || e.Spawn? || e.LoopDone?
  }

  predicate IsShutdownEvent(e: Event) {
    e.CloseLatch? || e.CloseListener? || e.CancelDials? || e.ShutdownReturns?
  }

  // The connection and the service that an event changes, if any.
  function ConnOf(p: Proxy, e: Event): nat
    requires Enabled(p, e)
  {
    match e
    case CheckLatch(s) => p.services[s].loop.conn
    case TryAcquire(s) => p.services[s].loop.conn
    case Spawn(s) => p.services[s].loop.conn
    case DialFails(c) => c
    case DialSucceeds(c) => c
    case CopyEnds(c, _) => c
    case CopyCloses(c, _) => c
    case CountCopy(c, _) => c
    case PipeSeesShutdown(c) => c
    case PipeReturns(c) => c
    case ReleaseToken(c) => c
    case CloseInbound(c) => c
    case BridgeDone(c) => c
    case _ => |p.conns|
  }

  function ServiceOf(p: Proxy, e: Event): nat
    requires Enabled(p, e)
  {
    match e
    case Accept(s) => s
    case AcceptFails(s) => s
    case CheckLatch(s) => s
    case TryAcquire(s) => s
    case Spawn(s) => s
    case LoopDone(s) => s
    case ReleaseToken(c) => p.conns[c].service
    case CloseListener => p.shutdown.next
    case _ => |p.services|
  }

  lemma EventScope(p: Proxy, e: Event)
    requires Enabled(p, e)
    ensures var p', c, s := Apply(p, e), ConnOf(p, e), ServiceOf(p, e);
            && p'.maxConns == p.maxConns && |p'.services| == |p.services|
            && (if e.Accept? then p'.conns == p.conns + [Conn(e.s, Latched(p), Fresh, true, Absent)]
                else if c < |p.conns| then |p'.conns| == |p.conns| && p'.conns == p.conns[c := p'.conns[c]]
                else p'.conns == p.conns)
            && (if s < |p.services| then p'.services == p.services[s := p'.services[s]] else p'.services == p.services)
  {
  }

  lemma KeepsHolders(p: Proxy, e: Event, s: nat)
    requires Structure(p) && Enabled(p, e) && s < |p.services|
    ensures HolderOk(Apply(p, e), s)
  {
    hide ConnOk;
    assert HolderOk(p, s);
    if e.CheckLatch? || e.TryAcquire? || e.Spawn? {
      assert HolderOk(p, e.s);
    }
  }

  lemma KeepsConns(p: Proxy, e: Event, c: nat)
    requires Structure(p) && Enabled(p, e) && c < |Apply(p, e).conns|
    ensures ConnOk(Apply(p, e), Apply(p, e).conns[c])
  {
    EventScope(p, e);
    LatchStays(p, e);
    if c < |p.conns| {
      assert ConnOk(p, p.conns[c]);
      if c != ConnOf(p, e) {
        SameConnOk(p, Apply(p, e), p.conns[c]);
      } else if IsLoopEvent(e) {
        LoopKeepsConn(p, e);
      } else {
        BridgeKeepsConn(p, e, c);
      }
    }
  }

  lemma LatchStays(p: Proxy, e: Event)
    requires Enabled(p, e)
    ensures Latched(p) ==> Latched(Apply(p, e))
  {
  }

  lemma SameConnOk(p: Proxy, p': Proxy, c: Conn)
    requires ConnOk(p, c) && |p'.services| == |p.services| && (Latched(p) ==> Latched(p'))
    ensures ConnOk(p', c)
  {
  }

  lemma LoopKeepsConn(p: Proxy, e: Event)
    requires Structure(p) && Enabled(p, e) && (e.CheckLatch? || e.TryAcquire? || e.Spawn?)
    ensures ConnOk(Apply(p, e), Apply(p, e).conns[ConnOf(p, e)])
  {
    hide HolderOk;
    assert ConnOk(p, p.conns[ConnOf(p, e)]);
  }

  lemma BridgeKeepsConn(p: Proxy, e: Event, c: nat)
    requires Enabled(p, e) && !IsLoopEvent(e) && c == ConnOf(p, e) && c < |p.conns| && ConnOk(p, p.conns[c])
    ensures ConnOk(Apply(p, e), Apply(p, e).conns[c])
  {
  }

  lemma KeepsStructure(p: Proxy, e: Event)
    requires Structure(p) && Enabled(p, e)
    ensures Structure(Apply(p, e))
  {
    hide ConnOk, HolderOk;
    var p' := Apply(p, e);
    forall s | 0 <= s < |p'.services| ensures HolderOk(p', s) {
      KeepsHolders(p, e, s);
    }
    forall c | 0 <= c < |p'.conns| ensures ConnOk(p', p'.conns[c]) {
      KeepsConns(p, e, c);
    }
  }

  // How one weight changes with an event.
  lemma ConnTotal(p: Proxy, e: Event, weight: Conn -> int)
    requires Enabled(p, e)
    ensures var p', c := Apply(p, e), ConnOf(p, e);
            Total(p'.conns, weight) == Total(p.conns, weight) +
              if e.Accept? then weight(Conn(e.s, Latched(p), Fresh, true, Absent))
              else if c < |p.conns| && c < |p'.conns| then weight(p'.conns[c]) - weight(p.conns[c])
              else 0
  {
    EventScope(p, e);
    var p', c := Apply(p, e), ConnOf(p, e);
    hide Apply, Enabled, ConnOf;
    if e.Accept? {
      TotalAppend(p.conns, Conn(e.s, Latched(p), Fresh, true, Absent), weight);
    } else if c < |p.conns| {
      TotalUpdate(p.conns, c, p'.conns[c], weight);
    }
  }

  lemma ServiceTotal(p: Proxy, e: Event, weight: Service -> int)
    requires Enabled(p, e)
    ensures var p', s := Apply(p, e), ServiceOf(p, e);
            Total(p'.services, weight) == Total(p.services, weight) +
              if s < |p.services| && s < |p'.services| then weight(p'.services[s]) - weight(p.services[s]) else 0
  {
    EventScope(p, e);
    var p', s := Apply(p, e), ServiceOf(p, e);
    hide Apply, Enabled, ServiceOf;
    if s < |p.services| {
      TotalUpdate(p.services, s, p'.services[s], weight);
    }
  }

  // The connection that a loop event is about belongs to that loop's service.
  ghost predicate HeldOwn(p: Proxy, e: Event) {
    (e.CheckLatch? || e.TryAcquire? || e.Spawn?) && Enabled(p, e) ==>
      p.conns[p.services[e.s].loop.conn].service == e.s
  }

  lemma KeepsTokens(p: Proxy, e: Event, s: nat)
    requires Enabled(p, e) && HeldOwn(p, e) && s < |p.services|
    requires p.services[s].tokens == Total(p.conns, Tokens(s)) <= p.maxConns
    ensures var p' := Apply(p, e); p'.services[s].tokens == Total(p'.conns, Tokens(s)) <= p'.maxConns
  {
    hide Total;
    ConnTotal(p, e, Tokens(s));
  }

  lemma KeepsDropped(p: Proxy, e: Event, s: nat)
    requires Enabled(p, e) && HeldOwn(p, e) && s < |p.services|
    requires p.services[s].dropped == Total(p.conns, DroppedOf(s))
    ensures var p' := Apply(p, e); p'.services[s].dropped == Total(p'.conns, DroppedOf(s))
  {
    hide Total;
    ConnTotal(p, e, DroppedOf(s));
  }

  lemma KeepsUndecided(p: Proxy, e: Event, s: nat)
    requires Enabled(p, e) && HeldOwn(p, e) && s < |p.services|
    requires Total(p.conns, Undecided(s)) == One(p.services[s].loop.Holding?)
    ensures var p' := Apply(p, e); Total(p'.conns, Undecided(s)) == One(p'.services[s].loop.Holding?)
  {
    hide Total;
    ConnTotal(p, e, Undecided(s));
  }

  lemma KeepsServiceCounts(p: Proxy, e: Event, s: nat)
    requires Invariant(p) && Enabled(p, e) && s < |p.services|
    ensures ServiceCounts(Apply(p, e), s)
  {
    hide Apply, ConnOk, Total, InLoop;
    EventScope(p, e);
    assert ServiceCounts(p, s);
    assert HeldOwn(p, e) by {
      if e.CheckLatch? || e.TryAcquire? || e.Spawn? {
        assert HolderOk(p, e.s);
      }
    }
    KeepsTokens(p, e, s);
    KeepsDropped(p, e, s);
    KeepsUndecided(p, e, s);
  }

  lemma KeepsWg(p: Proxy, e: Event)
    requires Enabled(p, e) && p.wg == Total(p.services, LOOP_LIVE) + Total(p.conns, BRIDGE_LIVE)
    ensures var p' := Apply(p, e);
            p'.wg == Total(p'.services, LOOP_LIVE) + Total(p'.conns, BRIDGE_LIVE)
  {
    hide Total;
    ConnTotal(p, e, BRIDGE_LIVE);
    ServiceTotal(p, e, LOOP_LIVE);
  }

  // Something that is alive keeps the WaitGroup counter positive.
  lemma AliveCounts(p: Proxy)
    requires Invariant(p)
    ensures p.wg >= 0
    ensures forall s :: 0 <= s < |p.services| && !p.services[s].loop.Exited? ==> p.wg >= 1
    ensures forall c :: 0 <= c < |p.conns| && IsBridge(p.conns[c].phase) ==> p.wg >= 1
  {
    TotalNatural(p.services, LOOP_LIVE);
    TotalNatural(p.conns, BRIDGE_LIVE);
    forall s | 0 <= s < |p.services| && !p.services[s].loop.Exited? ensures p.wg >= 1 {
      TotalMember(p.services, s, LOOP_LIVE);
    }
    forall c | 0 <= c < |p.conns| && IsBridge(p.conns[c].phase) ensures p.wg >= 1 {
      TotalMember(p.conns, c, BRIDGE_LIVE);
    }
  }

  lemma StepKeeps(p: Proxy, e: Event)
    requires Invariant(p) && Enabled(p, e)
    ensures Invariant(Apply(p, e))
  {
    hide Structure, ServiceCounts, Total;
    KeepsStructure(p, e);
    KeepsWg(p, e);
    AliveCounts(p);
    EventScope(p, e);
    forall s | 0 <= s < |p.services| ensures ServiceCounts(Apply(p, e), s) {
      KeepsServiceCounts(p, e, s);
    }
  }

  ghost predicate Execution(ps: seq<Proxy>, es: seq<Event>) {
    && |ps| == |es| + 1
    && Started(ps[0])
    && forall i :: 0 <= i < |es| ==> Enabled(ps[i], es[i]) && ps[i + 1] == Apply(ps[i], es[i])
  }

  lemma {:induction false} Reachable(ps: seq<Proxy>, es: seq<Event>, i: nat)
    requires Execution(ps, es) && i < |ps|
    ensures Invariant(ps[i])
    decreases i
  {
    hide Invariant, Apply, Enabled;
    if i > 0 {
      Reachable(ps, es, i - 1);
      StepKeeps(ps[i - 1], es[i - 1]);
    } else {
      StartedInvariant(ps[0]);
    }
  }

  lemma OneFate(c: Conn, s: nat)
    ensures AcceptedOf(s)(c) == DroppedOf(s)(c) + DispatchedOf(s)(c) + TurnedAwayOf(s)(c) + Undecided(s)(c)
  {
    if c.phase.Ended? {
      assert c.phase.fate.Dropped? || c.phase.fate.TurnedAway? || c.phase.fate.Bridged?;
    }
  }

  // Accounting, in every reachable state: the tokens held are the bridges between acquire and
  // release, within MaxConns; every accepted connection is dropped, dispatched, turned away at
  // the latch or still with its loop; and the WaitGroup counts live loops and bridges.
  lemma Accounting(ps: seq<Proxy>, es: seq<Event>, i: nat, s: nat)
    requires Execution(ps, es) && i < |ps| && s < |ps[i].services|
    ensures var p := ps[i];
            && p.services[s].tokens == Total(p.conns, Tokens(s)) <= p.maxConns
            && Total(p.conns, AcceptedOf(s)) ==
                 p.services[s].dropped + Total(p.conns, DispatchedOf(s)) + Total(p.conns, TurnedAwayOf(s))
                 + One(p.services[s].loop.Holding?)
            && p.wg == Total(p.services, LOOP_LIVE) + Total(p.conns, BRIDGE_LIVE) >= 0
  {
    Reachable(ps, es, i);
    var p := ps[i];
    assert ServiceCounts(p, s);
    AliveCounts(p);
    var settled: Conn -> int := (c: Conn) => DroppedOf(s)(c) + DispatchedOf(s)(c);
    var decided: Conn -> int := (c: Conn) => settled(c) + TurnedAwayOf(s)(c);
    hide Invariant, ServiceCounts;
    TotalSum(p.conns, settled, DroppedOf(s), DispatchedOf(s));
    TotalSum(p.conns, decided, settled, TurnedAwayOf(s));
    forall c | c in p.conns ensures AcceptedOf(s)(c) == decided(c) + Undecided(s)(c) {
      OneFate(c, s);
    }
    TotalSum(p.conns, AcceptedOf(s), decided, Undecided(s));
  }

  // A bridge is only ever added to the WaitGroup while the counter is positive.
  lemma AddsWhilePositive(ps: seq<Proxy>, es: seq<Event>, i: nat)
    requires Execution(ps, es) && i < |es|
    ensures es[i].Spawn? ==> ps[i].wg >= 1
    ensures es[i].LoopDone? || es[i].BridgeDone? ==> ps[i + 1].wg >= 0
  {
    Reachable(ps, es, i);
    AliveCounts(ps[i]);
  }
}
