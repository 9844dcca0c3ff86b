// Why a connection or an accept loop is where it is, over any execution of ByteProxy.
module ByteProxyHistory {
  import opened Totals
  import opened ByteProxy
  import opened ByteProxyInvariant

  ghost predicate Happened(es: seq<Event>, i: nat, e: Event) {
    exists k :: 0 <= k < i <= |es| && es[k] == e
  }

  // Loop s holds connection c in event k, which is this one.
  ghost predicate DecidedAt(ps: seq<Proxy>, es: seq<Event>, k: nat, e: Event, s: nat, c: nat) {
    && k < |es| && k < |ps| && es[k] == e
    && s < |ps[k].services| && ps[k].services[s].loop == Holding(c)
  }

  // All slots of the service were taken.
  ghost predicate FoundFull(ps: seq<Proxy>, es: seq<Event>, k: nat, s: nat, c: nat) {
    DecidedAt(ps, es, k, TryAcquire(s), s, c) && Total(ps[k].conns, Tokens(s)) == ps[k].maxConns
  }

  ghost predicate FoundLatch(ps: seq<Proxy>, es: seq<Event>, k: nat, s: nat, c: nat) {
    DecidedAt(ps, es, k, CheckLatch(s), s, c) && Latched(ps[k])
  }

  // What has led a connection to its phase: a drop to a full semaphore, a rejection to the latch,
  // the end of a bridge to a failed dial or to the end of both copies.
  ghost predicate Explained(ps: seq<Proxy>, es: seq<Event>, i: nat, c: nat, conn: Conn) {
    match conn.phase
    case Piping(out, back, _) =>
      && Happened(es, i, DialSucceeds(c))
      && (out != Copying ==> Happened(es, i, CopyEnds(c, true)))
      && (back != Copying ==> Happened(es, i, CopyEnds(c, false)))
    case Unwinding => BridgeOver(es, i, c, conn)
    case Released => BridgeOver(es, i, c, conn)
    case Leaving => BridgeOver(es, i, c, conn)
    case Ended(Bridged) => BridgeOver(es, i, c, conn)
    case Ended(Dropped) => exists k :: 0 <= k < i && FoundFull(ps, es, k, conn.service, c)
    case Ended(TurnedAway) => exists k :: 0 <= k < i && FoundLatch(ps, es, k, conn.service, c)
    case _ => true
  }

  ghost predicate BridgeOver(es: seq<Event>, i: nat, c: nat, conn: Conn) {
    if conn.upstream.Absent? then Happened(es, i, DialFails(c))
    else
      && Happened(es, i, DialSucceeds(c))
      && Happened(es, i, CopyEnds(c, true)) && Happened(es, i, CopyEnds(c, false))
  }

  lemma HappenedOn(es: seq<Event>, i: nat, e: Event)
    requires 0 < i <= |es| && (es[i - 1] == e || Happened(es, i - 1, e))
    ensures Happened(es, i, e)
  {
  }

  // How one event can change the phase of a connection.
  ghost predicate Moves(p: Proxy, e: Event, c: nat, before: Conn, after: Conn) {
    && after.service == before.service && after.late == before.late
    && match after.phase
       case Piping(out, back, _) =>
         if before.phase.Piping? then
           && (out != Copying ==> e == CopyEnds(c, true) || before.phase.out != Copying)
           && (back != Copying ==> e == CopyEnds(c, false) || before.phase.back != Copying)
         else e == DialSucceeds(c) && out == Copying && back == Copying
       case Unwinding =>
         || (e == DialFails(c) && after.upstream.Absent?)
         || (before.phase == after.phase && before.upstream == after.upstream)
         || (before.phase.Piping? && before.phase.out.Counted? && before.phase.back.Counted? && !after.upstream.Absent?)
       case Released => (before.phase.Released? || before.phase.Unwinding?) && before.upstream == after.upstream
       case Leaving => (before.phase.Leaving? || before.phase.Released?) && before.upstream == after.upstream
       case Ended(Bridged) =>
         (before.phase == after.phase || before.phase.Leaving?) && before.upstream == after.upstream
       case Ended(Dropped) => before.phase == after.phase || HasFull(p, e, c, before)
       case Ended(TurnedAway) => before.phase == after.phase || HasLatch(p, e, c, before)
       case _ => true
  }

  ghost predicate HasFull(p: Proxy, e: Event, c: nat, conn: Conn) {
    && e == TryAcquire(conn.service) && conn.service < |p.services|
    && p.services[conn.service].loop == Holding(c) && Total(p.conns, Tokens(conn.service)) == p.maxConns
  }

  ghost predicate HasLatch(p: Proxy, e: Event, c: nat, conn: Conn) {
    && e == CheckLatch(conn.service) && conn.service < |p.services|
    && p.services[conn.service].loop == Holding(c) && Latched(p)
  }

  lemma ConnMoves(p: Proxy, e: Event, c: nat)
    requires Invariant(p) && Enabled(p, e) && c < |p.conns|
    ensures c < |Apply(p, e).conns| && Moves(p, e, c, p.conns[c], Apply(p, e).conns[c])
  {
    EventScope(p, e);
    assert ConnOk(p, p.conns[c]);
    if c != ConnOf(p, e) {
      Unmoved(p, e, c, p.conns[c]);
    } else if IsLoopEvent(e) {
      LoopMovesConn(p, e);
    } else {
      BridgeMovesConn(p, e, c);
    }
  }

  lemma Unmoved(p: Proxy, e: Event, c: nat, conn: Conn)
    requires ConnOk(p, conn)
    ensures Moves(p, e, c, conn, conn)
  {
  }

  lemma LoopMovesConn(p: Proxy, e: Event)
    requires Invariant(p) && Enabled(p, e) && (e.CheckLatch? || e.TryAcquire? || e.Spawn?)
    ensures Moves(p, e, ConnOf(p, e), p.conns[ConnOf(p, e)], Apply(p, e).conns[ConnOf(p, e)])
  {
    hide Total, ConnOk;
    assert HolderOk(p, e.s) && ServiceCounts(p, e.s);
  }

  lemma BridgeMovesConn(p: Proxy, e: Event, c: nat)
    requires Enabled(p, e) && !IsLoopEvent(e) && c == ConnOf(p, e) && c < |p.conns| && ConnOk(p, p.conns[c])
    ensures Moves(p, e, c, p.conns[c], Apply(p, e).conns[c])
  {
    hide Total;
  }

  // A drop or a rejection, the end of a bridge and the end of a copy always have their reason.
  lemma {:induction false} FateExplained(ps: seq<Proxy>, es: seq<Event>, i: nat, c: nat)
    requires Execution(ps, es) && i < |ps| && c < |ps[i].conns|
    ensures Explained(ps, es, i, c, ps[i].conns[c])
    decreases i
  {
    hide Apply, Enabled, Invariant;
    if i > 0 && c < |ps[i - 1].conns| {
      Reachable(ps, es, i - 1);
      FateExplained(ps, es, i - 1, c);
      ConnMoves(ps[i - 1], es[i - 1], c);
      ExplainedOn(ps, es, i, c, ps[i - 1].conns[c], ps[i].conns[c]);
    } else if i > 0 {
      NewConn(ps[i - 1], es[i - 1], c);
    }
  }

  lemma NewConn(p: Proxy, e: Event, c: nat)
    requires Enabled(p, e) && |p.conns| <= c < |Apply(p, e).conns|
    ensures e.Accept? && c == |p.conns| && Apply(p, e).conns[c] == Conn(e.s, Latched(p), Fresh, true, Absent)
  {
  }

  lemma ExplainedOn(ps: seq<Proxy>, es: seq<Event>, i: nat, c: nat, before: Conn, after: Conn)
    requires 0 < i < |ps| == |es| + 1
    requires Explained(ps, es, i - 1, c, before) && Moves(ps[i - 1], es[i - 1], c, before, after)
    ensures Explained(ps, es, i, c, after)
  {
    forall e | es[i - 1] == e || Happened(es, i - 1, e) ensures Happened(es, i, e) {
      HappenedOn(es, i, e);
    }
    hide Happened, Total;
    assert HasFull(ps[i - 1], es[i - 1], c, before) ==> FoundFull(ps, es, i - 1, after.service, c);
    assert HasLatch(ps[i - 1], es[i - 1], c, before) ==> FoundLatch(ps, es, i - 1, after.service, c);
  }

  // A connection is dropped exactly when all slots of its service are taken; otherwise it gets
  // one, and its bridge starts.
  lemma DropsExactlyWhenFull(ps: seq<Proxy>, es: seq<Event>, i: nat, s: nat)
    requires Execution(ps, es) && i < |ps| && Enabled(ps[i], TryAcquire(s))
    ensures var p := ps[i];
            var c, t := p.services[s].loop.conn, Apply(p, TryAcquire(s));
            if Total(p.conns, Tokens(s)) == p.maxConns
            then t.conns[c].phase == Ended(Dropped) && !t.conns[c].inboundOpen
                 && t.services[s] == p.services[s].(loop := Accepting, dropped := p.services[s].dropped + 1)
            else t.conns[c].phase == Acquired && Enabled(t, Spawn(s)) && StartsBridge(p, Apply(t, Spawn(s)), s, c)
  {
    Reachable(ps, es, i);
    assert HolderOk(ps[i], s) && ServiceCounts(ps[i], s);
    assert ConnOk(ps[i], ps[i].conns[ps[i].services[s].loop.conn]);
  }

  // Connection c goes on in a bridge of its own, and its loop accepts the next one.
  ghost predicate StartsBridge(p: Proxy, t: Proxy, s: nat, c: nat)
    requires s < |p.services|
  {
    && c < |p.conns| == |t.conns| && |t.services| == |p.services|
    && t.conns[c] == p.conns[c].(phase := Dialing)
    && t.services[s] == p.services[s].(loop := Accepting, tokens := p.services[s].tokens + 1)
    && t.wg == p.wg + 1
  }

  // The network is free: Accept and a dial may end either way and a copy may end, at any time, in
  // or out of shutdown; and shutdown may begin at any time.
  lemma NetworkIsFree(p: Proxy, s: nat, c: nat, out: bool)
    ensures s < |p.services| && p.services[s].loop == Accepting ==>
              Enabled(p, Accept(s)) && Enabled(p, AcceptFails(s))
    ensures c < |p.conns| && p.conns[c].phase == Dialing ==>
              Enabled(p, DialFails(c)) && Enabled(p, DialSucceeds(c))
    ensures c < |p.conns| && p.conns[c].phase.Piping? && CopyOf(p.conns[c].phase, out) == Copying ==>
              Enabled(p, CopyEnds(c, out))
    ensures Enabled(p, CloseLatch) <==> !Latched(p)
  {
  }

  // Before shutdown a loop ends only when Accept has failed.
  lemma {:induction false} LoopEndsFor(ps: seq<Proxy>, es: seq<Event>, i: nat, s: nat)
    requires Execution(ps, es) && i < |ps| && s < |ps[i].services|
    requires ps[i].services[s].loop.Returning? || ps[i].services[s].loop.Exited?
    ensures Happened(es, i, AcceptFails(s)) || Latched(ps[i])
    decreases i
  {
    hide Apply, Enabled;
    LoopStep(ps[i - 1], es[i - 1], s);
    if ps[i - 1].services[s].loop.Returning? || ps[i - 1].services[s].loop.Exited? {
      LoopEndsFor(ps, es, i - 1, s);
    }
    if es[i - 1] == AcceptFails(s) || Happened(es, i - 1, AcceptFails(s)) {
      HappenedOn(es, i, AcceptFails(s));
    }
  }

  lemma LoopStep(p: Proxy, e: Event, s: nat)
    requires Enabled(p, e) && s < |Apply(p, e).services|
    ensures s < |p.services| && (Latched(p) ==> Latched(Apply(p, e)))
    ensures Apply(p, e).services[s].loop.Returning? || Apply(p, e).services[s].loop.Exited? ==>
              || p.services[s].loop.Returning? || p.services[s].loop.Exited?
              || e == AcceptFails(s) || Latched(p)
  {
  }

  // A connection is late exactly when the latch had closed before Accept returned it.
  lemma {:induction false} LateExactly(ps: seq<Proxy>, es: seq<Event>, k: nat, i: nat)
    requires Execution(ps, es) && k < i < |ps| && es[k].Accept?
    ensures var c := |ps[k].conns|;
            c < |ps[i].conns| && ps[i].conns[c].service == es[k].s && ps[i].conns[c].late == Latched(ps[k])
    decreases i
  {
    hide Apply, Enabled, Invariant, Moves;
    if i == k + 1 {
      Accepts(ps[k], es[k]);
    } else {
      LateExactly(ps, es, k, i - 1);
      Reachable(ps, es, i - 1);
      ConnMoves(ps[i - 1], es[i - 1], |ps[k].conns|);
      assert Moves(ps[i - 1], es[i - 1], |ps[k].conns|, ps[i - 1].conns[|ps[k].conns|], ps[i].conns[|ps[k].conns|]);
      SameOrigin(ps[i - 1], es[i - 1], |ps[k].conns|, ps[i - 1].conns[|ps[k].conns|], ps[i].conns[|ps[k].conns|]);
    }
  }

  lemma SameOrigin(p: Proxy, e: Event, c: nat, before: Conn, after: Conn)
    requires Moves(p, e, c, before, after)
    ensures after.service == before.service && after.late == before.late
  {
  }

  lemma Accepts(p: Proxy, e: Event)
    requires Enabled(p, e) && e.Accept?
    ensures Apply(p, e).conns == p.conns + [Conn(e.s, Latched(p), Fresh, true, Absent)]
  {
  }
}
