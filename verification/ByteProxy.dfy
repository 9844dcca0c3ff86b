// The byte proxy (byteproxy.go): accept loops, the per-service semaphore, the WaitGroup, bridges
// with two copy goroutines, and the shutdown sequence, as events that interleave freely over any
// number of services and connections.
module ByteProxy {

  // One copy goroutine: copying; ended and about to close the other side; has signalled
  // copyDone; its signal has been counted by pipe.
  datatype Copy = Copying | Closing | Signalled | Counted

  datatype Fate = Dropped | TurnedAway | Bridged

  // Fresh, Checked, Acquired: in the accept loop, before the latch check, before the semaphore,
  // before the bridge goroutine starts. Armed: pipe has not reacted to shutdown yet.
  // Unwinding, Released, Leaving: before the token is given back, before the inbound side is
  // closed, before the WaitGroup is told.
  datatype Phase =
    | Fresh | Checked | Acquired
    | Dialing | Piping(out: Copy, back: Copy, armed: bool)
    | Unwinding | Released | Leaving
    | Ended(fate: Fate)

  datatype Upstream = Absent | Open | Closed

  // Late records that Accept returned the connection after the latch had closed.
  datatype Conn = Conn(service: nat, late: bool, phase: Phase, inboundOpen: bool, upstream: Upstream)

  datatype Loop = Accepting | Holding(conn: nat) | Returning | Exited

  datatype Service = Service(loop: Loop, listenerOpen: bool, tokens: nat, dropped: nat)

  // The stages of Shutdown: the latch is closed first, then the listeners one by one, then the
  // dial context is cancelled, then the WaitGroup is awaited.
  datatype Shutdown = NotCalled | ClosingListeners(next: nat) | Draining | Returned

  datatype Proxy = Proxy(maxConns: nat, services: seq<Service>, conns: seq<Conn>, wg: int, shutdown: Shutdown)

  datatype Event =
    | Accept(s: nat) | AcceptFails(s: nat) | CheckLatch(s: nat) | TryAcquire(s: nat) | Spawn(s: nat) | LoopDone(s: nat)
    | DialFails(c: nat) | DialSucceeds(c: nat)
    | CopyEnds(c: nat, out: bool) | CopyCloses(c: nat, out: bool) | CountCopy(c: nat, out: bool)
    | PipeSeesShutdown(c: nat) | PipeReturns(c: nat)
    | ReleaseToken(c: nat) | CloseInbound(c: nat) | BridgeDone(c: nat)
    | CloseLatch | CloseListener | CancelDials | ShutdownReturns

  predicate Latched(p: Proxy) { !p.shutdown.NotCalled? }

  predicate DialCancelled(p: Proxy) { p.shutdown.Draining? || p.shutdown.Returned? }

  predicate LoopAt(p: Proxy, s: nat, loop: Loop) { s < |p.services| && p.services[s].loop == loop }

  predicate HoldsAt(p: Proxy, s: nat, phase: Phase) {
    && s < |p.services| && p.services[s].loop.Holding?
    && ConnAt(p, p.services[s].loop.conn, phase)
  }

  predicate ConnAt(p: Proxy, c: nat, phase: Phase) { c < |p.conns| && p.conns[c].phase == phase }

  predicate InPipe(p: Proxy, c: nat) { c < |p.conns| && p.conns[c].phase.Piping? }

  function CopyOf(phase: Phase, out: bool): Copy
    requires phase.Piping?
  {
    if out then phase.out else phase.back
  }

  function SetCopy(phase: Phase, out: bool, copy: Copy): Phase
    requires phase.Piping?
  {
    if out then phase.(out := copy) else phase.(back := copy)
  }

  function Finished(phase: Phase): nat
    requires phase.Piping?
  {
    (if phase.out.Counted? then 1 else 0) + (if phase.back.Counted? then 1 else 0)
  }

  // What can happen. Accept may return a connection or an error at any time, a dial may end
  // either way at any time, and a copy may end at any time.
  predicate Enabled(p: Proxy, e: Event) {
    match e
    case Accept(s) => LoopAt(p, s, Accepting)
    case AcceptFails(s) => LoopAt(p, s, Accepting)
    case CheckLatch(s) => HoldsAt(p, s, Fresh)
    case TryAcquire(s) => HoldsAt(p, s, Checked)
    case Spawn(s) => HoldsAt(p, s, Acquired)
    case LoopDone(s) => LoopAt(p, s, Returning)
    case DialFails(c) => ConnAt(p, c, Dialing)
    case DialSucceeds(c) => ConnAt(p, c, Dialing)
    case CopyEnds(c, out) => InPipe(p, c) && CopyOf(p.conns[c].phase, out) == Copying
    case CopyCloses(c, out) => InPipe(p, c) && CopyOf(p.conns[c].phase, out) == Closing
    case CountCopy(c, out) => InPipe(p, c) && CopyOf(p.conns[c].phase, out) == Signalled
    case PipeSeesShutdown(c) =>
      InPipe(p, c) && Finished(p.conns[c].phase) < 2 && Latched(p) && p.conns[c].phase.armed
    case PipeReturns(c) => InPipe(p, c) && Finished(p.conns[c].phase) == 2
    case ReleaseToken(c) =>
      // Receiving from the semaphore blocks while it is empty.
      && ConnAt(p, c, Unwinding) && p.conns[c].service < |p.services|
      && p.services[p.conns[c].service].tokens > 0
    case CloseInbound(c) => ConnAt(p, c, Released)
    case BridgeDone(c) => ConnAt(p, c, Leaving)
    case CloseLatch => p.shutdown.NotCalled?
    case CloseListener => p.shutdown.ClosingListeners? && p.shutdown.next < |p.services|
    case CancelDials => p.shutdown.ClosingListeners? && p.shutdown.next >= |p.services|
    case ShutdownReturns => p.shutdown.Draining? && p.wg == 0
  }

  // What must happen sooner or later: a closed listener makes Accept fail, a cancelled dial
  // fails, a copy ends once one of its ends is closed; the proxy's own steps are never blocked.
  predicate Assured(p: Proxy, e: Event) {
    && Enabled(p, e)
    && match e
       case Accept(_) => false
       case AcceptFails(s) => !p.services[s].listenerOpen
       case DialSucceeds(_) => false
       case DialFails(_) => DialCancelled(p)
       case CopyEnds(c, _) => !p.conns[c].inboundOpen || p.conns[c].upstream.Closed?
       case CloseLatch => false
       case _ => true
  }

  function SetLoop(p: Proxy, s: nat, loop: Loop): Proxy
    requires s < |p.services|
  {
    p.(services := p.services[s := p.services[s].(loop := loop)])
  }

  function SetConn(p: Proxy, c: nat, conn: Conn): Proxy
    requires c < |p.conns|
  {
    p.(conns := p.conns[c := conn])
  }

  function Apply(p: Proxy, e: Event): Proxy
    requires Enabled(p, e)
  {
    match e
    case Accept(s) =>
      SetLoop(p, s, Holding(|p.conns|)).(conns := p.conns + [Conn(s, Latched(p), Fresh, true, Absent)])
    case AcceptFails(s) => SetLoop(p, s, Returning)
    case CheckLatch(s) =>
      var c := p.services[s].loop.conn;
      if Latched(p)
      then SetLoop(SetConn(p, c, p.conns[c].(phase := Ended(TurnedAway), inboundOpen := false)), s, Returning)
      else SetConn(p, c, p.conns[c].(phase := Checked))
    case TryAcquire(s) =>
      var c, service := p.services[s].loop.conn, p.services[s];
      if service.tokens < p.maxConns
      then SetConn(p, c, p.conns[c].(phase := Acquired)).(
             services := p.services[s := service.(tokens := service.tokens + 1)])
      else SetConn(p, c, p.conns[c].(phase := Ended(Dropped), inboundOpen := false)).(
             services := p.services[s := service.(dropped := service.dropped + 1, loop := Accepting)])
    case Spawn(s) =>
      var c := p.services[s].loop.conn;
      SetLoop(SetConn(p, c, p.conns[c].(phase := Dialing)), s, Accepting).(wg := p.wg + 1)
    case LoopDone(s) => SetLoop(p, s, Exited).(wg := p.wg - 1)
    case DialFails(c) => SetConn(p, c, p.conns[c].(phase := Unwinding))
    case DialSucceeds(c) => SetConn(p, c, p.conns[c].(phase := Piping(Copying, Copying, true), upstream := Open))
    case CopyEnds(c, out) => SetConn(p, c, p.conns[c].(phase := SetCopy(p.conns[c].phase, out, Closing)))
    case CopyCloses(c, out) =>
      var conn := p.conns[c].(phase := SetCopy(p.conns[c].phase, out, Signalled));
      SetConn(p, c, if out then conn.(upstream := Closed) else conn.(inboundOpen := false))
    case CountCopy(c, out) => SetConn(p, c, p.conns[c].(phase := SetCopy(p.conns[c].phase, out, Counted)))
    case PipeSeesShutdown(c) =>
      SetConn(p, c, p.conns[c].(phase := p.conns[c].phase.(armed := false), inboundOpen := false, upstream := Closed))
    case PipeReturns(c) => SetConn(p, c, p.conns[c].(phase := Unwinding, upstream := Closed))
    case ReleaseToken(c) =>
      var s := p.conns[c].service;
      SetConn(p, c, p.conns[c].(phase := Released)).(
        services := p.services[s := p.services[s].(tokens := p.services[s].tokens - 1)])
    case CloseInbound(c) => SetConn(p, c, p.conns[c].(phase := Leaving, inboundOpen := false))
    case BridgeDone(c) => SetConn(p, c, p.conns[c].(phase := Ended(Bridged))).(wg := p.wg - 1)
    case CloseLatch => p.(shutdown := ClosingListeners(0))
    case CloseListener =>
      var k := p.shutdown.next;
      p.(services := p.services[k := p.services[k].(listenerOpen := false)], shutdown := ClosingListeners(k + 1))
    case CancelDials => p.(shutdown := Draining)
    case ShutdownReturns => p.(shutdown := Returned)
  }
}
