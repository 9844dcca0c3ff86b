// Attestation validity windows and the refresh schedule (attestation.go). Instants and durations
// are nanoseconds; an instant counts from Go's zero time, which is 0 here.
module Attestation {
  datatype Window = Window(notBefore: int, notAfter: int)

  const UNSET := Window(0, 0)

  datatype Standing = Valid | NotYet | Expired

  function StandingAt(w: Window, now: int): Standing {
    if now < w.notBefore then NotYet
    else if now >= w.notAfter then Expired
    else Valid
  }

  // The certificate-window loop of parseAttestationValidity. A bound of 0 reads as unset.
  method CertificateWindow(certificates: seq<Window>) returns (w: Window)
    ensures w == Narrowed(certificates)
  {
    w := UNSET;
    for i := 0 to |certificates|
      invariant w == Narrowed(certificates[..i])
    {
      var c := certificates[i];
      assert certificates[..i + 1][..i] == certificates[..i];
      if w.notBefore == 0 || c.notBefore > w.notBefore {
        w := w.(notBefore := c.notBefore);
      }
      if w.notAfter == 0 || c.notAfter < w.notAfter {
        w := w.(notAfter := c.notAfter);
      }
    }
    assert certificates[..|certificates|] == certificates;
  }

  function Narrowed(certificates: seq<Window>): Window {
    if certificates == [] then UNSET
    else
      var w, c := Narrowed(certificates[..|certificates| - 1]), certificates[|certificates| - 1];
      Window(if w.notBefore == 0 || c.notBefore > w.notBefore then c.notBefore else w.notBefore,
             if w.notAfter == 0 || c.notAfter < w.notAfter then c.notAfter else w.notAfter)
  }

  // w is the intersection: an instant is in w exactly when it is in every window.
  ghost predicate IsIntersection(w: Window, windows: seq<Window>) {
    && (forall i :: 0 <= i < |windows| ==> windows[i].notBefore <= w.notBefore && w.notAfter <= windows[i].notAfter)
    && (exists i :: 0 <= i < |windows| && windows[i].notBefore == w.notBefore)
    && (exists i :: 0 <= i < |windows| && windows[i].notAfter == w.notAfter)
  }

  function Starts(certificates: seq<Window>): seq<int> {
    seq(|certificates|, i requires 0 <= i < |certificates| => certificates[i].notBefore)
  }

  // The earliest end is the latest one of the mirrored ends.
  function MirroredEnds(certificates: seq<Window>): seq<int> {
    seq(|certificates|, i requires 0 <= i < |certificates| => -certificates[i].notAfter)
  }

  // One side of the loop.
  function Latest(bounds: seq<int>): int {
    if bounds == [] then 0
    else
      var latest, bound := Latest(bounds[..|bounds| - 1]), bounds[|bounds| - 1];
      if latest == 0 || bound > latest then bound else latest
  }

  ghost predicate IsMax(x: int, bounds: seq<int>) {
    && (forall i :: 0 <= i < |bounds| ==> bounds[i] <= x)
    && (exists i :: 0 <= i < |bounds| && bounds[i] == x)
  }

  // A zero bound is not lost: there is none, or a later one overrides it, or it comes last.
  ghost predicate ZeroKept(bounds: seq<int>)
    requires bounds != []
  {
    || (forall i :: 0 <= i < |bounds| ==> bounds[i] != 0)
    || (exists i :: 0 <= i < |bounds| && bounds[i] > 0)
    || bounds[|bounds| - 1] == 0
  }

  // The loop computes the intersection exactly when it loses no bound at the zero instant.
  lemma WindowIsIntersection(certificates: seq<Window>)
    requires certificates != []
    ensures IsIntersection(Narrowed(certificates), certificates) <==>
              ZeroKept(Starts(certificates)) && ZeroKept(MirroredEnds(certificates))
  {
    var w, starts, ends := Narrowed(certificates), Starts(certificates), MirroredEnds(certificates);
    NarrowedSides(certificates);
    LatestIsMax(starts);
    LatestIsMax(ends);
    assert IsMax(w.notBefore, starts) && IsMax(-w.notAfter, ends) ==> IsIntersection(w, certificates) by {
      if IsMax(w.notBefore, starts) && IsMax(-w.notAfter, ends) {
        MaxIsIntersection(w, certificates);
      }
    }
    assert IsIntersection(w, certificates) ==> IsMax(w.notBefore, starts) && IsMax(-w.notAfter, ends) by {
      if IsIntersection(w, certificates) {
        IntersectionIsMax(w, certificates);
      }
    }
  }

  lemma MaxIsIntersection(w: Window, certificates: seq<Window>)
    requires IsMax(w.notBefore, Starts(certificates)) && IsMax(-w.notAfter, MirroredEnds(certificates))
    ensures IsIntersection(w, certificates)
  {
    var starts, ends := Starts(certificates), MirroredEnds(certificates);
    forall i | 0 <= i < |certificates|
      ensures certificates[i].notBefore <= w.notBefore && w.notAfter <= certificates[i].notAfter
    {
      assert starts[i] <= w.notBefore && ends[i] <= -w.notAfter;
    }
    var i :| 0 <= i < |starts| && starts[i] == w.notBefore;
    var j :| 0 <= j < |ends| && ends[j] == -w.notAfter;
    assert certificates[i].notBefore == w.notBefore && certificates[j].notAfter == w.notAfter;
  }

  lemma IntersectionIsMax(w: Window, certificates: seq<Window>)
    requires IsIntersection(w, certificates)
    ensures IsMax(w.notBefore, Starts(certificates)) && IsMax(-w.notAfter, MirroredEnds(certificates))
  {
    var starts, ends := Starts(certificates), MirroredEnds(certificates);
    var i :| 0 <= i < |certificates| && certificates[i].notBefore == w.notBefore;
    var j :| 0 <= j < |certificates| && certificates[j].notAfter == w.notAfter;
    assert starts[i] == w.notBefore && ends[j] == -w.notAfter;
  }

  lemma {:induction false} NarrowedSides(certificates: seq<Window>)
    ensures Narrowed(certificates).notBefore == Latest(Starts(certificates))
    ensures Narrowed(certificates).notAfter == -Latest(MirroredEnds(certificates))
    decreases |certificates|
  {
    if certificates != [] {
      var n := |certificates| - 1;
      NarrowedSides(certificates[..n]);
      assert Starts(certificates)[..n] == Starts(certificates[..n]);
      assert MirroredEnds(certificates)[..n] == MirroredEnds(certificates[..n]);
    }
  }

  lemma LatestIsMax(bounds: seq<int>)
    requires bounds != []
    ensures IsMax(Latest(bounds), bounds) <==> ZeroKept(bounds)
  {
    LatestBySign(bounds);
    var last := bounds[|bounds| - 1];
    if !ZeroKept(bounds) {
      var z :| 0 <= z < |bounds| && bounds[z] == 0;
      assert bounds[z] > Latest(bounds);
    }
  }

  lemma {:induction false} LatestBySign(bounds: seq<int>)
    requires bounds != []
    ensures (exists i :: 0 <= i < |bounds| && bounds[i] > 0) ==> IsMax(Latest(bounds), bounds)
    ensures (forall i :: 0 <= i < |bounds| ==> bounds[i] <= 0) ==>
              Latest(bounds) <= 0 && (Latest(bounds) == 0 <==> bounds[|bounds| - 1] == 0)
    ensures (forall i :: 0 <= i < |bounds| ==> bounds[i] < 0) ==> IsMax(Latest(bounds), bounds)
    decreases |bounds|
  {
    var n := |bounds| - 1;
    var front := bounds[..n];
    assert bounds[n] == bounds[|bounds| - 1];
    if front == [] {
      assert n == 0;
    } else {
      LatestBySign(front);
      MaxOnwards(front, bounds[n]);
      assert bounds == front + [bounds[n]];
    }
  }

  // How a maximum goes on with one more bound.
  lemma MaxOnwards(front: seq<int>, bound: int)
    requires front != []
    ensures var bounds := front + [bound];
            && (IsMax(Latest(front), front) && bound > Latest(front) ==> IsMax(bound, bounds))
            && (IsMax(Latest(front), front) && bound <= Latest(front) ==> IsMax(Latest(front), bounds))
            && ((forall i :: 0 <= i < |front| ==> front[i] <= 0) && bound > 0 ==> IsMax(bound, bounds))
  {
    var bounds := front + [bound];
    assert bounds[|front|] == bound;
    if IsMax(Latest(front), front) {
      var i :| 0 <= i < |front| && front[i] == Latest(front);
      assert bounds[i] == Latest(front);
    }
  }

  // Durations are 64-bit: a difference of instants saturates, a product wraps.
  const MAX_DURATION := 0x7FFF_FFFF_FFFF_FFFF
  const MIN_DURATION := -0x8000_0000_0000_0000
  const SECOND := 1_000_000_000
  const RETRY_FLOOR := 30 * SECOND
  const RETRY_CEILING := 300 * SECOND

  function Sub(t: int, u: int): int {
    if t - u > MAX_DURATION then MAX_DURATION else if t - u < MIN_DURATION then MIN_DURATION else t - u
  }

  function Wrap(d: int): int { (d - MIN_DURATION) % 0x1_0000_0000_0000_0000 + MIN_DURATION }

  // Integer division of Go: truncation towards zero.
  function Quotient(a: int, b: int): int
    requires b > 0
  {
    if a >= 0 then a / b else -(-a / b)
  }

  // The instant of the first refresh: 4/5 of the lifetime after its start.
  function RefreshAt(w: Window): int {
    w.notBefore + Quotient(Wrap(Sub(w.notAfter, w.notBefore) * 4), 5)
  }

  // attestationRefreshDelay
  function RefreshDelay(now: int, w: Window, retry: bool): (delay: int)
    ensures delay > 0
  {
    if !retry && now < RefreshAt(w) then Sub(RefreshAt(w), now)
    else
      var half := Quotient(Sub(w.notAfter, now), 2);
      if half < RETRY_FLOOR then RETRY_FLOOR
      else if half > RETRY_CEILING then RETRY_CEILING
      else half
  }

  lemma WrapOnce(d: int)
    requires MIN_DURATION <= d <= 4 * MAX_DURATION
    ensures Wrap(d) == if d <= MAX_DURATION then d
                       else if d - 0x1_0000_0000_0000_0000 <= MAX_DURATION then d - 0x1_0000_0000_0000_0000
                       else d - 0x2_0000_0000_0000_0000
  {
  }

  // The first refresh of any positive lifetime is before expiry. It is at 80% of the lifetime,
  // rounded down, exactly when four times the lifetime fits the 64 bits of a duration.
  lemma FirstRefresh(w: Window)
    requires 0 < w.notAfter - w.notBefore
    ensures RefreshAt(w) < w.notAfter
    ensures var lifetime := w.notAfter - w.notBefore;
            RefreshAt(w) == w.notBefore + lifetime * 4 / 5 <==> lifetime * 4 <= MAX_DURATION
  {
    hide Wrap;
    WrapOnce(Sub(w.notAfter, w.notBefore) * 4);
  }

  // A document that is valid but not yet due wakes the refresher at that instant.
  lemma FirstWake(now: int, w: Window)
    requires 0 < w.notAfter - w.notBefore && w.notBefore <= now < RefreshAt(w)
    ensures now < now + RefreshDelay(now, w, false) == RefreshAt(w) < w.notAfter
  {
    hide Wrap;
    FirstRefresh(w);
    WrapOnce(Sub(w.notAfter, w.notBefore) * 4);
  }

  // Every later delay lies between 30 s and 5 min.
  lemma RetryDelayBounds(now: int, w: Window, retry: bool)
    requires retry || now >= RefreshAt(w)
    ensures RETRY_FLOOR <= RefreshDelay(now, w, retry) <= RETRY_CEILING
  {
  }

  // The next wake is in time exactly when more than 30 s remain.
  lemma RetryInTime(now: int, w: Window, retry: bool)
    requires retry || now >= RefreshAt(w)
    ensures now + RefreshDelay(now, w, retry) < w.notAfter <==> w.notAfter - now > RETRY_FLOOR
  {
  }

  // With at least a minute and at most ten minutes left, half of that has passed by then.
  lemma RetryHalves(now: int, w: Window, retry: bool)
    requires retry || now >= RefreshAt(w)
    requires 60 * SECOND <= w.notAfter - now <= 600 * SECOND
    ensures var left := w.notAfter - (now + RefreshDelay(now, w, retry));
            left * 2 == w.notAfter - now || left * 2 == w.notAfter - now + 1
  {
  }

  // The retry wakes after now until at most 30 s of validity remain, if every refresh fails.
  function FailingWakes(now: int, w: Window): (wakes: seq<int>)
    decreases w.notAfter - now
  {
    if w.notAfter - now <= RETRY_FLOOR then []
    else
      var next := now + RefreshDelay(now, w, true);
      [next] + FailingWakes(next, w)
  }

  function LastWake(now: int, w: Window): int {
    var wakes := FailingWakes(now, w);
    if wakes == [] then now else wakes[|wakes| - 1]
  }

  // Retries that wait out their delays one after the other wake, before expiry, at exactly these
  // instants.
  lemma {:induction false} RetriesFollow(starts: seq<int>, w: Window)
    requires forall k :: 0 < k < |starts| ==> starts[k] == starts[k - 1] + RefreshDelay(starts[k - 1], w, true)
    ensures forall k :: 0 < k < |starts| ==>
              var wakes := FailingWakes(starts[0], w);
              && (starts[k] < w.notAfter <==> k <= |wakes|)
              && (k <= |wakes| ==> starts[k] == wakes[k - 1])
    decreases |starts|
  {
    hide RefreshDelay;
    if |starts| > 1 {
      RetryInTime(starts[0], w, true);
      var rest := starts[1..];
      assert rest[0] == starts[0] + RefreshDelay(starts[0], w, true);
      RetriesFollow(rest, w);
      forall k | 0 < k < |starts|
        ensures var wakes := FailingWakes(starts[0], w);
                (starts[k] < w.notAfter <==> k <= |wakes|) && (k <= |wakes| ==> starts[k] == wakes[k - 1])
      {
        assert starts[k] == rest[k - 1];
      }
    }
  }

  // Halving keeps a run of failures short: with R remaining it wakes fewer than R/5 min + 4 times
  // before expiry.
  lemma {:induction false} FewRetries(now: int, w: Window)
    ensures var remaining := w.notAfter - now;
            && (remaining <= 60 * SECOND ==> |FailingWakes(now, w)| <= 1)
            && (remaining <= 120 * SECOND ==> |FailingWakes(now, w)| <= 2)
            && (remaining <= 240 * SECOND ==> |FailingWakes(now, w)| <= 3)
            && (remaining <= 480 * SECOND ==> |FailingWakes(now, w)| <= 4)
            && (remaining > 30 * SECOND ==> |FailingWakes(now, w)| * (300 * SECOND) < remaining + 1200 * SECOND)
    decreases w.notAfter - now
  {
    if w.notAfter - now > RETRY_FLOOR {
      FewRetries(now + RefreshDelay(now, w, true), w);
    }
  }

  // A run of failures keeps waking, always before expiry, until at most 30 s remain; with R
  // remaining it takes fewer than R/30s wakes to get there.
  lemma {:induction false} FailuresKeepWaking(now: int, w: Window)
    requires now < w.notAfter
    ensures var wakes, remaining := FailingWakes(now, w), w.notAfter - now;
            && (forall i :: 0 <= i < |wakes| ==> now < wakes[i] < w.notAfter)
            && (forall i :: 0 <= i < |wakes| - 1 ==> wakes[i] < wakes[i + 1])
            && 0 < w.notAfter - LastWake(now, w) <= RETRY_FLOOR
            && |wakes| * RETRY_FLOOR < remaining
    decreases w.notAfter - now
  {
    if w.notAfter - now > RETRY_FLOOR {
      var next := now + RefreshDelay(now, w, true);
      RetryInTime(now, w, true);
      FailuresKeepWaking(next, w);
      hide RefreshDelay;
      var rest := FailingWakes(next, w);
      assert FailingWakes(now, w) == [next] + rest;
      assert rest != [] ==> LastWake(now, w) == LastWake(next, w);
    }
  }
}
