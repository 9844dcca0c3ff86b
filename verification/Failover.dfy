// Regional failover of the KMS provider (awskms.go): the client list is shifted in place while
// every call works through the snapshot it took at its start.
module Failover {
  import opened Bytes
  import opened KmsErrors

  type Client = nat

  predicate CredentialError(error: Option<Cause>) { error.Some? && IsCredentialError(error.value) }

  function IndexOf(s: seq<Client>, c: Client): (i: nat)
    ensures i <= |s| && (i < |s| ==> s[i] == c) && c !in s[..i]
  {
    if s == [] || s[0] == c then 0 else 1 + IndexOf(s[1..], c)
  }

  function MovedToBack(s: seq<Client>, c: Client): seq<Client> {
    var i := IndexOf(s, c);
    if i == |s| then s else s[..i] + s[i + 1..] + [c]
  }

  function Rotated(s: seq<Client>, k: nat): seq<Client>
    requires k <= |s|
  {
    s[k..] + s[..k]
  }

  // The position of the first client that succeeds.
  function FirstSuccess(s: seq<Client>, outcome: Client -> Option<Cause>): (k: nat)
    ensures k <= |s| && (k < |s| ==> outcome(s[k]) == None)
    ensures forall i :: 0 <= i < k ==> outcome(s[i]).Some?
  {
    if s == [] || outcome(s[0]) == None then 0 else 1 + FirstSuccess(s[1..], outcome)
  }

  // A failed call reports its cause; a provider without clients has none to report.
  datatype CallResult = Succeeded | AllFailed(cause: Option<Cause>)

  // The first credential error among the first n clients.
  function CredentialErrorIn(s: seq<Client>, outcome: Client -> Option<Cause>, n: nat): Option<Cause>
    requires n <= |s|
  {
    if n == 0 then None
    else
      var earlier, last := CredentialErrorIn(s, outcome, n - 1), outcome(s[n - 1]);
      if earlier.Some? then earlier
      else if CredentialError(last) then last
      else None
  }

  // The cause reported when all fail: the first credential error, otherwise the last error.
  function Reported(s: seq<Client>, outcome: Client -> Option<Cause>): Option<Cause> {
    var auth := CredentialErrorIn(s, outcome, |s|);
    if auth.Some? then auth else if s == [] then None else outcome(s[|s| - 1])
  }

  ghost predicate FirstCredentialError(s: seq<Client>, outcome: Client -> Option<Cause>, i: int) {
    && 0 <= i < |s| && CredentialError(outcome(s[i]))
    && forall j :: 0 <= j < i ==> !CredentialError(outcome(s[j]))
  }

  ghost predicate IsReported(s: seq<Client>, outcome: Client -> Option<Cause>, cause: Option<Cause>) {
    || (exists i :: FirstCredentialError(s, outcome, i) && cause == outcome(s[i]))
    || ((forall i :: 0 <= i < |s| ==> !CredentialError(outcome(s[i])))
        && cause == if s == [] then None else outcome(s[|s| - 1]))
  }

  class Provider {
    const clients: array<Client>

    constructor (list: seq<Client>)
      ensures clients[..] == list && fresh(clients)
    {
      clients := new Client[|list|](i requires 0 <= i < |list| => list[i]);
    }

    method MoveClientToBack(c: Client)
      modifies clients
      ensures clients[..] == MovedToBack(old(clients[..]), c)
    {
      hide MovedToBack, IndexOf;
      ghost var s := clients[..];
      var i := 0;
      while i < clients.Length && clients[i] != c
        invariant i <= clients.Length && clients[..] == s
        invariant forall j :: 0 <= j < i ==> s[j] != c
      {
        i := i + 1;
      }
      MovedIs(s, c, i);
      if i == clients.Length {
        return;
      }
      var k := i;
      while k + 1 < clients.Length
        invariant i <= k < clients.Length
        invariant forall j :: 0 <= j < i ==> clients[j] == s[j]
        invariant forall j :: i <= j < k ==> clients[j] == s[j + 1]
        invariant forall j :: k < j < clients.Length ==> clients[j] == s[j]
      {
        clients[k] := clients[k + 1];
        k := k + 1;
      }
      clients[k] := c;
      Shifted(s, i, c, clients[..]);
    }

    method Call(outcome: Client -> Option<Cause>) returns (r: CallResult)
      modifies clients
      ensures clients[..] == Rotated(old(clients[..]), FirstSuccess(old(clients[..]), outcome))
      ensures r.Succeeded? <==> FirstSuccess(old(clients[..]), outcome) < clients.Length
      ensures r.AllFailed? ==> r.cause == Reported(old(clients[..]), outcome)
      // The first credential error, otherwise the last error.
      ensures r.AllFailed? ==> IsReported(old(clients[..]), outcome, r.cause)
    {
      var snapshot := clients[..];
      var last: Option<Cause>, auth: Option<Cause> := None, None;
      assert Rotated(snapshot, 0) == snapshot;
      for i := 0 to |snapshot|
        invariant clients[..] == Rotated(snapshot, i)
        invariant forall j :: 0 <= j < i ==> outcome(snapshot[j]).Some?
        invariant last == if i == 0 then None else outcome(snapshot[i - 1])
        invariant auth == CredentialErrorIn(snapshot, outcome, i)
      {
        last := outcome(snapshot[i]);
        if last == None {
          FirstSuccessIs(snapshot, outcome, i);
          return Succeeded;
        }
        if auth == None && IsCredentialError(last.value) {
          auth := last;
        }
        FrontToBack(snapshot, i);
        MoveClientToBack(snapshot[i]);
      }
      FirstSuccessIs(snapshot, outcome, |snapshot|);
      ReportedExactly(snapshot, outcome);
      return AllFailed(if auth.Some? then auth else last);
    }
  }

  lemma {:induction false} IndexIs(s: seq<Client>, c: Client, i: nat)
    requires i <= |s| && (i < |s| ==> s[i] == c) && forall j :: 0 <= j < i ==> s[j] != c
    ensures IndexOf(s, c) == i
  {
    if s != [] && s[0] != c {
      IndexIs(s[1..], c, i - 1);
    }
  }

  lemma Shifted(s: seq<Client>, i: nat, c: Client, t: seq<Client>)
    requires i < |s| == |t| && t[|s| - 1] == c
    requires forall j :: 0 <= j < i ==> t[j] == s[j]
    requires forall j :: i <= j < |s| - 1 ==> t[j] == s[j + 1]
    ensures t == s[..i] + s[i + 1..] + [c]
  {
    assert t[..i] == s[..i];
    assert t[i..|s| - 1] == s[i + 1..];
    assert t == t[..i] + t[i..|s| - 1] + [c];
  }

  lemma MovedIs(s: seq<Client>, c: Client, i: nat)
    requires i <= |s| && (i < |s| ==> s[i] == c) && forall j :: 0 <= j < i ==> s[j] != c
    ensures MovedToBack(s, c) == if i == |s| then s else s[..i] + s[i + 1..] + [c]
  {
    hide IndexOf;
    IndexIs(s, c, i);
  }

  lemma FirstSuccessIs(s: seq<Client>, outcome: Client -> Option<Cause>, k: nat)
    requires k <= |s| && (k < |s| ==> outcome(s[k]) == None)
    requires forall i :: 0 <= i < k ==> outcome(s[i]).Some?
    ensures FirstSuccess(s, outcome) == k
  {
  }

  // Moving the client in front to the back is one more step of the rotation.
  lemma FrontToBack(s: seq<Client>, k: nat)
    requires k < |s|
    ensures MovedToBack(Rotated(s, k), s[k]) == Rotated(s, k + 1)
  {
    hide MovedToBack, IndexOf;
    var middle := s[k + 1..] + s[..k];
    assert Rotated(s, k) == [s[k]] + middle;
    MoveFront(s[k], middle);
    assert Rotated(s, k + 1) == middle + [s[k]];
  }

  lemma MoveFront(c: Client, others: seq<Client>)
    ensures MovedToBack([c] + others, c) == others + [c]
  {
    hide IndexOf;
    IndexIs([c] + others, c, 0);
    assert ([c] + others)[1..] == others;
  }

  // Whatever order they run in, moves only permute the list.
  lemma MovePermutes(s: seq<Client>, c: Client)
    ensures multiset(MovedToBack(s, c)) == multiset(s)
  {
    hide MovedToBack;
    var front, back := MovedParts(s, c);
    if c in s {
      PartsPermute(front, c, back);
    }
  }

  // The first occurrence goes to the back, and the others keep their order.
  lemma MovedParts(s: seq<Client>, c: Client) returns (front: seq<Client>, back: seq<Client>)
    ensures if c in s then s == front + [c] + back && c !in front && MovedToBack(s, c) == front + back + [c]
            else MovedToBack(s, c) == s
  {
    hide IndexOf;
    var i := IndexOf(s, c);
    front := s[..i];
    back := if i < |s| then s[i + 1..] else [];
  }

  lemma PartsPermute(front: seq<Client>, c: Client, back: seq<Client>)
    ensures multiset(front + back + [c]) == multiset(front + [c] + back)
  {
  }

  lemma {:induction false} FirstCredentialErrorIn(s: seq<Client>, outcome: Client -> Option<Cause>, n: nat)
    returns (i: int)
    requires n <= |s|
    ensures var found := CredentialErrorIn(s, outcome, n);
            if found.Some? then FirstCredentialError(s, outcome, i) && i < n && found == outcome(s[i])
            else forall j :: 0 <= j < n ==> !CredentialError(outcome(s[j]))
  {
    hide IsCredentialError;
    i := n - 1;
    if n > 0 {
      var earlier := FirstCredentialErrorIn(s, outcome, n - 1);
      if CredentialErrorIn(s, outcome, n - 1).Some? {
        i := earlier;
      } else {
        assert CredentialErrorIn(s, outcome, n) == if CredentialError(outcome(s[i])) then outcome(s[i]) else None;
      }
    }
  }

  lemma ReportedExactly(s: seq<Client>, outcome: Client -> Option<Cause>)
    ensures IsReported(s, outcome, Reported(s, outcome))
  {
    hide CredentialErrorIn, CredentialError;
    var i := FirstCredentialErrorIn(s, outcome, |s|);
  }

  lemma {:induction false} CredentialErrorFound(s: seq<Client>, outcome: Client -> Option<Cause>, n: nat)
    requires n <= |s|
    ensures var found := CredentialErrorIn(s, outcome, n);
            && (found.Some? ==> IsCredentialError(found.value))
            && (found.Some? <==> exists i :: 0 <= i < n && CredentialError(outcome(s[i])))
  {
    if n > 0 {
      CredentialErrorFound(s, outcome, n - 1);
    }
  }

  // If every region fails, the host sees Unauthenticated exactly when some region failed with a
  // credential error, in whatever position, on either path.
  lemma CredentialErrorReachesHost(s: seq<Client>, outcome: Client -> Option<Cause>, path: Path)
    requires s != [] && FirstSuccess(s, outcome) == |s|
    requires forall i :: 0 <= i < |s| && outcome(s[i]).Some? ==> !outcome(s[i]).value.Status?
    ensures Reported(s, outcome).Some?
    ensures HostCode(path, Reported(s, outcome).value) == Unauthenticated <==>
              exists i :: 0 <= i < |s| && CredentialError(outcome(s[i]))
  {
    assert outcome(s[|s| - 1]).Some?;
    CredentialErrorFound(s, outcome, |s|);
    CredentialCode(path, Reported(s, outcome).value);
  }

  // Concurrent calls: each keeps its own snapshot, position and errors; the list is shared.
  // Tried records the history: the clients that the call has asked, in order, and their answers.
  datatype Progress = Trying | Failed | Succeeding

  datatype Asked = Asked(client: Client, error: Option<Cause>)

  datatype Running = Running(snapshot: seq<Client>, next: nat, progress: Progress, last: Option<Cause>,
                             auth: Option<Cause>, tried: seq<Asked>)

  datatype State = State(clients: seq<Client>, calls: map<nat, Running>)

  // Begin: a call takes its snapshot. Ask: it asks the client at its position, which succeeds or
  // fails. Move: a client that failed is moved to the back, and the call goes on to the next one.
  datatype Event = Begin(id: nat) | Ask(id: nat, error: Option<Cause>) | Move(id: nat)

  predicate CanAsk(call: Running) { call.progress == Trying && call.next < |call.snapshot| }

  predicate CanMove(call: Running) { call.progress == Failed && call.next < |call.snapshot| }

  predicate Enabled(s: State, e: Event) {
    match e
    case Begin(id) => id !in s.calls
    case Ask(id, _) => id in s.calls && CanAsk(s.calls[id])
    case Move(id) => id in s.calls && CanMove(s.calls[id])
  }

  function NewCall(clients: seq<Client>): Running { Running(clients, 0, Trying, None, None, []) }

  function AfterAnswer(call: Running, error: Option<Cause>): Running
    requires CanAsk(call)
  {
    var asked := call.(tried := call.tried + [Asked(call.snapshot[call.next], error)]);
    if error.None? then asked.(progress := Succeeding)
    else
      asked.(progress := Failed, last := error,
             auth := if call.auth.None? && IsCredentialError(error.value) then error else call.auth)
  }

  function AfterMove(call: Running): Running {
    call.(next := call.next + 1, progress := Trying)
  }

  function Apply(s: State, e: Event): State
    requires Enabled(s, e)
  {
    match e
    case Begin(id) => s.(calls := s.calls[id := NewCall(s.clients)])
    case Ask(id, error) => s.(calls := s.calls[id := AfterAnswer(s.calls[id], error)])
    case Move(id) =>
      var call := s.calls[id];
      State(MovedToBack(s.clients, call.snapshot[call.next]),
            s.calls[id := AfterMove(call)])
  }

  ghost predicate Execution(ss: seq<State>, es: seq<Event>) {
    && |ss| == |es| + 1 && ss[0].calls == map[]
    && forall i :: 0 <= i < |es| ==> Enabled(ss[i], es[i]) && ss[i + 1] == Apply(ss[i], es[i])
  }

  // A call has asked the clients of its snapshot in order, each of which failed, except that the
  // last one answered if the call succeeded.
  ghost predicate AskedInOrder(call: Running) {
    && |call.tried| == (if call.progress == Trying then call.next else call.next + 1) <= |call.snapshot|
    && (forall i :: 0 <= i < |call.tried| ==> call.tried[i].client == call.snapshot[i])
    && (forall i :: 0 <= i < |call.tried| - 1 ==> call.tried[i].error.Some?)
    && (call.tried != [] ==> (call.progress == Succeeding <==> call.tried[|call.tried| - 1].error.None?))
  }

  ghost predicate FirstAuth(tried: seq<Asked>, i: int) {
    && 0 <= i < |tried| && CredentialError(tried[i].error)
    && forall j :: 0 <= j < i ==> !CredentialError(tried[j].error)
  }

  // It keeps its last error and the first credential error.
  ghost predicate ErrorsKept(call: Running) {
    && (call.progress != Succeeding ==>
          call.last == if call.tried == [] then None else call.tried[|call.tried| - 1].error)
    && (call.auth.Some? ==> CredentialError(call.auth))
    && (call.auth.Some? <==> exists i :: 0 <= i < |call.tried| && CredentialError(call.tried[i].error))
    && (call.auth.Some? ==> exists i :: FirstAuth(call.tried, i) && call.auth == call.tried[i].error)
  }

  ghost predicate CallOk(call: Running, configured: multiset<Client>) {
    multiset(call.snapshot) == configured && AskedInOrder(call) && ErrorsKept(call)
  }

  ghost predicate Permuted(s: State, configured: multiset<Client>) {
    && multiset(s.clients) == configured
    && forall id :: id in s.calls ==> CallOk(s.calls[id], configured)
  }

  // A call keeps its snapshot, and asks at most one more client of it; after a success, none.
  ghost predicate CallAdvances(call: Running, after: Running) {
    && after.snapshot == call.snapshot
    && call.tried <= after.tried && |after.tried| <= |call.tried| + 1
    && (call.progress == Succeeding ==> after == call)
  }

  ghost predicate CallsAdvance(s: State, t: State) {
    forall id :: id in s.calls ==> id in t.calls && CallAdvances(s.calls[id], t.calls[id])
  }

  lemma AnswerKeeps(call: Running, error: Option<Cause>, configured: multiset<Client>)
    requires CallOk(call, configured) && CanAsk(call)
    ensures CallOk(AfterAnswer(call, error), configured) && CallAdvances(call, AfterAnswer(call, error))
  {
    hide ErrorsKept;
    var after := AfterAnswer(call, error);
    assert forall i :: 0 <= i < |call.tried| ==> after.tried[i] == call.tried[i];
    assert after.tried[|call.tried|] == Asked(call.snapshot[call.next], error);
    AnswerKeepsErrors(call, error);
  }

  lemma AnswerKeepsErrors(call: Running, error: Option<Cause>)
    requires ErrorsKept(call) && CanAsk(call)
    ensures ErrorsKept(AfterAnswer(call, error))
  {
    hide IsCredentialError;
    var after, n := AfterAnswer(call, error), |call.tried|;
    assert forall i :: 0 <= i < n ==> after.tried[i] == call.tried[i];
    assert after.tried[n].error == error;
    if call.auth.Some? {
      var i :| FirstAuth(call.tried, i) && call.auth == call.tried[i].error;
      assert FirstAuth(after.tried, i);
    } else if CredentialError(error) {
      assert FirstAuth(after.tried, n);
    }
  }

  lemma MoveKeeps(call: Running, configured: multiset<Client>)
    requires CallOk(call, configured) && CanMove(call)
    ensures CallOk(AfterMove(call), configured) && CallAdvances(call, AfterMove(call))
  {
    hide IsCredentialError;
  }

  lemma NewCallOk(clients: seq<Client>)
    ensures CallOk(NewCall(clients), multiset(clients))
  {
  }

  // A step of one call leaves the others as they are.
  lemma OneCallMoves(s: State, id: nat, after: Running, configured: multiset<Client>)
    requires Permuted(s, configured) && CallOk(after, configured)
    requires id in s.calls ==> CallAdvances(s.calls[id], after)
    ensures var t := s.(calls := s.calls[id := after]); Permuted(t, configured) && CallsAdvance(s, t)
  {
    hide CallOk;
  }

  lemma StepPermutes(s: State, e: Event, configured: multiset<Client>)
    requires Enabled(s, e) && Permuted(s, configured)
    ensures Permuted(Apply(s, e), configured) && CallsAdvance(s, Apply(s, e))
  {
    hide CallOk, CallAdvances, MovedToBack, AfterAnswer, AfterMove, NewCall;
    match e
    case Begin(id) =>
      NewCallOk(s.clients);
      OneCallMoves(s, id, NewCall(s.clients), configured);
    case Ask(id, error) =>
      AnswerKeeps(s.calls[id], error, configured);
      OneCallMoves(s, id, AfterAnswer(s.calls[id], error), configured);
    case Move(id) =>
      MovePermutes(s.clients, s.calls[id].snapshot[s.calls[id].next]);
      MoveKeeps(s.calls[id], configured);
      OneCallMoves(s, id, AfterMove(s.calls[id]), configured);
  }

  // Under any interleaving the list and every snapshot are permutations of the configured list,
  // and every call has asked a prefix of the snapshot it took, in order.
  lemma {:induction false} InterleavedMoves(ss: seq<State>, es: seq<Event>, i: nat)
    requires Execution(ss, es) && i < |ss|
    ensures Permuted(ss[i], multiset(ss[0].clients))
    ensures i > 0 ==> CallsAdvance(ss[i - 1], ss[i])
    decreases i
  {
    hide Apply, Enabled;
    if i > 0 {
      InterleavedMoves(ss, es, i - 1);
      StepPermutes(ss[i - 1], es[i - 1], multiset(ss[0].clients));
    }
  }

  // How a call ends: the last client it asked has answered, all before it having failed; or every
  // client of its snapshot has failed, and the host sees Unauthenticated exactly when one of them
  // failed with a credential error.
  ghost predicate Concluded(call: Running, path: Path) {
    if call.progress == Succeeding
    then
      && 1 <= |call.tried| <= |call.snapshot| && call.tried[|call.tried| - 1].error.None?
      && forall k :: 0 <= k < |call.tried| - 1 ==> call.tried[k].error.Some?
    else
      var reported := if call.auth.Some? then call.auth else call.last;
      && |call.tried| == |call.snapshot| && (forall a :: a in call.tried ==> a.error.Some?)
      && (reported.Some? <==> call.snapshot != [])
      && (reported.Some? ==>
            (HostCode(path, reported.value) == Unauthenticated <==>
               exists k :: 0 <= k < |call.tried| && CredentialError(call.tried[k].error)))
  }

  // Whatever the other calls do, a call that can go no further has concluded so.
  lemma EndedCalls(ss: seq<State>, es: seq<Event>, i: nat, id: nat, path: Path)
    requires Execution(ss, es) && i < |ss| && id in ss[i].calls
    requires !CanAsk(ss[i].calls[id]) && !CanMove(ss[i].calls[id])
    requires forall a :: a in ss[i].calls[id].tried && a.error.Some? ==> !a.error.value.Status?
    ensures Concluded(ss[i].calls[id], path)
  {
    hide Execution, AskedInOrder, ErrorsKept, CallsAdvance, Concluded, CanAsk, CanMove;
    InterleavedMoves(ss, es, i);
    var call := ss[i].calls[id];
    assert CallOk(call, multiset(ss[0].clients));
    EndedCall(call, path);
  }

  lemma EndedCall(call: Running, path: Path)
    requires AskedInOrder(call) && ErrorsKept(call)
    requires !CanAsk(call) && !CanMove(call)
    requires forall a :: a in call.tried && a.error.Some? ==> !a.error.value.Status?
    ensures Concluded(call, path)
  {
    hide HostCode;
    if call.tried != [] && call.progress != Succeeding {
      assert call.tried[|call.tried| - 1] in call.tried;
      CredentialCode(path, if call.auth.Some? then call.auth.value else call.last.value);
    }
  }

  // A call that runs alone moves the list as the sequential one does: a rotation by the number of
  // clients it has moved on from.
  lemma {:induction false} LoneCallRotates(ss: seq<State>, es: seq<Event>, i: nat, id: nat)
    requires Execution(ss, es) && i < |ss|
    requires forall k :: 0 <= k < |es| ==> es[k].id == id
    ensures if id !in ss[i].calls then ss[i].clients == ss[0].clients
            else
              var call := ss[i].calls[id];
              && call.snapshot == ss[0].clients && call.next <= |call.snapshot|
              && ss[i].clients == Rotated(call.snapshot, call.next)
    decreases i
  {
    if i > 0 {
      LoneCallRotates(ss, es, i - 1, id);
      var s, e := ss[i - 1], es[i - 1];
      LoneStep(s, e, ss[0].clients);
    }
  }

  lemma LoneStep(s: State, e: Event, first: seq<Client>)
    requires Enabled(s, e)
    requires if e.id !in s.calls then s.clients == first
             else
               var call := s.calls[e.id];
               call.snapshot == first && call.next <= |first| && s.clients == Rotated(first, call.next)
    ensures var t := Apply(s, e);
            && e.id in t.calls
            && var call := t.calls[e.id];
               call.snapshot == first && call.next <= |first| && t.clients == Rotated(first, call.next)
  {
    hide MovedToBack, IndexOf;
    match e
    case Begin(_) => assert Rotated(first, 0) == first;
    case Ask(_, _) =>
    case Move(id) => FrontToBack(first, s.calls[id].next);
  }
}
