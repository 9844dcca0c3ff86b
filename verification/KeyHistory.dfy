// What has happened before a host serves, over any execution of KeyLifecycle.
module KeyHistory {
  import opened Bytes
  import opened KeySource
  import opened KeyMaterial
  import opened KeyLifecycle

  predicate Asking(host: Host) { host.Attempting? || host.Awaiting? }

  predicate Accepted(host: Host) { host.Storing? || host.Serving? }

  // Event k belongs to the startup that is under way in state i.
  ghost predicate InStartup(es: seq<Event>, k: nat, i: nat) {
    k < i <= |es| && forall m :: k <= m < i ==> !es[m].Start? && !es[m].HostCrash?
  }

  // The host accepted a reply in event k, and its public key is this one.
  ghost predicate AcceptedAt(ss: seq<System>, es: seq<Event>, k: nat, publicKey: seq<byte>)
    requires |ss| == |es| + 1
  {
    && k < |es| && es[k] == Accept(true)
    && ss[k].host.Awaiting? && ss[k].host.air.Some?
    && ss[k].host.air.value.Granted? && ss[k].host.air.value.reply.publicKey == publicKey
  }

  // A serving host has, in this startup, read the secret store; accepted a reply with a valid
  // attestation and the public key that it publishes; and, if it asked for a new key, seen its
  // update acknowledged.
  lemma {:induction false} ServedAfter(setup: Setup, ss: seq<System>, es: seq<Event>, i: nat)
    returns (read: nat, accept: nat, update: nat)
    requires Execution(setup, ss, es) && i < |ss|
    ensures Asking(ss[i].host) || Accepted(ss[i].host) ==> InStartup(es, read, i) && es[read] == ReadSecret(true)
    ensures Accepted(ss[i].host) ==>
              read < accept && InStartup(es, accept, i) && AcceptedAt(ss, es, accept, ss[i].host.publicKey)
    ensures ss[i].host.Serving? ==>
              || ss[accept].host.plan.Existing?
              || (accept < update && InStartup(es, update, i) && es[update].Update? && es[update].acknowledged)
    ensures ss[i].host.Storing? ==> !ss[accept].host.plan.Existing?
    decreases i
  {
    hide Apply, Enabled;
    read, accept, update := 0, 0, 0;
    if i > 0 {
      var s, e := ss[i - 1], es[i - 1];
      assert ss[i] == Apply(setup, s, e);
      HostStep(setup, s, e);
      read, accept, update := ServedAfter(setup, ss, es, i - 1);
      hide Execution;
      match e
      case ReadSecret(_) => read := i - 1;
      case Accept(_) => accept := i - 1;
      case Update(_, _) => update := i - 1;
      case _ =>
    }
  }

  // What one event does to the stage that the host has reached.
  lemma HostStep(setup: Setup, s: System, e: Event)
    requires Enabled(setup, s, e)
    ensures var t := Apply(setup, s, e);
            && (Asking(t.host) ==>
                  && !e.Start? && !e.HostCrash? && !e.Accept? && !e.Update?
                  && if e.ReadSecret? then e.ok else Asking(s.host))
            && (Accepted(t.host) && !(e.Accept? || e.Update?) ==>
                  t.host == s.host && !e.Start? && !e.HostCrash? && !e.ReadSecret?)
            && (Accepted(t.host) && e.Accept? ==>
                  && e.attestationValid && Asking(s.host) && s.host.Awaiting? && s.host.air.Some?
                  && s.host.air.value.Granted? && s.host.air.value.reply.publicKey == t.host.publicKey
                  && (t.host.Serving? <==> s.host.plan.Existing?))
            && (Accepted(t.host) && e.Update? ==>
                  e.acknowledged && s.host.Storing? && t.host == Serving(s.host.publicKey))
  {
    hide FingerprintOf, RunInit;
  }

  // The environment is free: in any state either process may crash, and every answer and every
  // failure that a startup waits for may come.
  lemma FaultsAnytime(setup: Setup, s: System, algorithm: Algorithm, b: bool, surroundings: Surroundings)
    ensures Enabled(setup, s, HostCrash) && Enabled(setup, s, EnclaveCrash)
    ensures s.host.Down? && algorithm in setup.configured ==> Enabled(setup, s, Start(algorithm))
    ensures s.host.Starting? ==> Enabled(setup, s, ReadSecret(b))
    ensures Asking(s.host) ==> Enabled(setup, s, Fail(b))
    ensures s.host.Awaiting? && s.host.air.Some? ==> Enabled(setup, s, Accept(b))
    ensures s.host.Storing? ==>
              Enabled(setup, s, Update(b, false)) && Enabled(setup, s, Update(true, b))
    ensures G.AtStage(s.gate, G.Running) && s.gate.flight.value.leader in s.gate.callers
            && Drawn(setup.world, surroundings.draw.key.algorithm, surroundings.draw)
            && (LeaderSource(s.gate).Generate? ==>
                  LeaderSource(s.gate).algorithm == surroundings.draw.key.algorithm) ==>
              Enabled(setup, s, RunEnd(surroundings))
  {
  }

  function Sends(es: seq<Event>): nat {
    if es == [] then 0 else Sends(es[..|es| - 1]) + if es[|es| - 1].Send? then 1 else 0
  }

  // A startup sends the enclave three requests at most.
  lemma {:induction false} AttemptsBounded(setup: Setup, ss: seq<System>, es: seq<Event>, k: nat, i: nat)
    requires Execution(setup, ss, es) && k < i < |ss| && es[k].Start?
    requires forall m :: k < m < i ==> !es[m].Start?
    ensures Sends(es[k + 1..i]) <= 3
    ensures match ss[i].host
            case Starting(_) => Sends(es[k + 1..i]) == 0
            case Attempting(_, _, attempt) => Sends(es[k + 1..i]) + 1 <= attempt <= 3
            case Awaiting(_, _, attempt, _, _) => Sends(es[k + 1..i]) <= attempt <= 3
            case _ => true
    decreases i
  {
    hide Enabled, Apply;
    if i > k + 1 {
      AttemptsBounded(setup, ss, es, k, i - 1);
      assert es[k + 1..i][..i - 1 - (k + 1)] == es[k + 1..i - 1];
      AttemptStep(setup, ss[i - 1], es[i - 1]);
    } else {
      AfterStart(setup, ss[k], es[k]);
    }
  }

  lemma AfterStart(setup: Setup, s: System, e: Event)
    requires Enabled(setup, s, e) && e.Start?
    ensures Apply(setup, s, e).host.Starting?
  {
  }

  // The number of the attempt under way, or none.
  function Attempt(host: Host): nat {
    match host
    case Attempting(_, _, attempt) => attempt
    case Awaiting(_, _, attempt, _, _) => attempt
    case _ => 0
  }

  lemma AttemptStep(setup: Setup, s: System, e: Event)
    requires Enabled(setup, s, e) && !e.Start?
    ensures var t := Apply(setup, s, e);
            && (t.host.Starting? ==> t.host == s.host)
            && (e.Send? ==> s.host.Attempting? && (t.host.Awaiting? ==> Attempt(t.host) == Attempt(s.host)))
            && (t.host.Attempting? ==> !e.Send?)
            && (t.host.Attempting? ==>
                  || t.host == s.host
                  || (s.host.Starting? && Attempt(t.host) == 1)
                  || (Asking(s.host) && Attempt(t.host) == Attempt(s.host) + 1 <= 3))
            && (t.host.Awaiting? ==>
                  (e.Send? && s.host.Attempting?) || (s.host.Awaiting? && Attempt(t.host) == Attempt(s.host)))
  {
    hide FingerprintOf, RunInit;
  }
}
