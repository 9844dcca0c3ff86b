// The host's cached public key and attestation document, their refresher and their readers
// (signer.go). The refresher is the only writer, and it holds the lock when it writes, so each
// refresh is one step for the readers. Parsing a document is a function of the document.
module AttestationCache {
  import opened Bytes
  import opened Attestation

  type Document = seq<byte>
  type Parser = Document -> Option<Window>

  datatype KeyReply = KeyReply(publicKey: seq<byte>, document: Document)

  datatype Cache = Cache(document: Document, window: Window)

  // What one wake of the refresher meets: the time when it computes its delay, the enclave's
  // answer, if any, and the time when it checks the answer.
  datatype Wake = Wake(start: int, reply: Option<KeyReply>, checked: int)

  // A document is cached with its own window; without a document there is no window.
  ghost predicate Sound(parse: Parser, c: Cache) {
    if c.document == [] then c.window == UNSET
    else parse(c.document) == Some(c.window) && c.window.notAfter > 0
  }

  // The window of a reply that may be cached at all.
  function Usable(parse: Parser, publicKey: seq<byte>, reply: Option<KeyReply>, now: int): Option<Cache> {
    if reply.None? || reply.value.publicKey == [] || reply.value.publicKey != publicKey then None
    else if reply.value.document == [] then None
    else
      match parse(reply.value.document)
      case None => None
      case Some(w) => if StandingAt(w, now) == Valid then Some(Cache(reply.value.document, w)) else None
  }

  // The cache after one wake: a usable document replaces the cached one if it expires later.
  function AfterWake(parse: Parser, publicKey: seq<byte>, c: Cache, wake: Wake): Cache {
    match Usable(parse, publicKey, wake.reply, wake.checked)
    case None => c
    case Some(usable) => if usable.window.notAfter > c.window.notAfter then usable else c
  }

  function AfterWakes(parse: Parser, publicKey: seq<byte>, c: Cache, wakes: seq<Wake>): Cache {
    if wakes == [] then c
    else AfterWake(parse, publicKey, AfterWakes(parse, publicKey, c, wakes[..|wakes| - 1]), wakes[|wakes| - 1])
  }

  // The delay before wake i: the next wake is a retry exactly when the one before stored nothing.
  function DelayBefore(parse: Parser, publicKey: seq<byte>, c: Cache, wakes: seq<Wake>, i: nat): int
    requires i < |wakes|
  {
    var now := AfterWakes(parse, publicKey, c, wakes[..i]);
    var retry := i > 0 && now == AfterWakes(parse, publicKey, c, wakes[..i - 1]);
    RefreshDelay(wakes[i].start, now.window, retry)
  }

  class Service {
    const parse: Parser
    const publicKey: seq<byte>
    var attestationDocument: Document
    var validity: Window

    ghost predicate Valid()
      reads this
    {
      publicKey != [] && Sound(parse, Contents())
    }

    function Contents(): Cache
      reads this
    {
      Cache(attestationDocument, validity)
    }

    constructor (parse: Parser, publicKey: seq<byte>, c: Cache)
      requires publicKey != [] && Sound(parse, c)
      ensures Valid() && this.parse == parse && this.publicKey == publicKey && Contents() == c
    {
      this.parse, this.publicKey, attestationDocument, validity := parse, publicKey, c.document, c.window;
    }

    // PublicKey: whatever document it returns is inside its window.
    method PublicKey(now: int) returns (r: Option<KeyReply>)
      requires Valid()
      ensures r == if attestationDocument == [] || validity.notBefore <= now < validity.notAfter
                   then Some(KeyReply(publicKey, attestationDocument)) else None
      ensures r.Some? && r.value.document != [] ==>
                parse(r.value.document).Some?
                && parse(r.value.document).value.notBefore <= now < parse(r.value.document).value.notAfter
    {
      if validity.notAfter != 0 {
        if StandingAt(validity, now) != Standing.Valid {
          return None;
        }
      }
      return Some(KeyReply(publicKey, attestationDocument));
    }

    // refreshAttestation: the window in force afterwards, and whether the reply was unusable.
    method RefreshAttestation(reply: Option<KeyReply>, now: int) returns (w: Window, failed: bool)
      requires Valid() && now >= 0
      modifies this
      ensures Valid()
      ensures Contents() == AfterWake(parse, publicKey, old(Contents()), Wake(now, reply, now))
      ensures w == validity
      ensures failed <==> Usable(parse, publicKey, reply, now).None?
      ensures validity.notAfter > old(validity.notAfter) || unchanged(this)
      // It fails exactly on a reply that is not for this key with a document valid now, and stores
      // the document of any other reply exactly if that expires later than the cached one.
      ensures !failed <==>
                && reply.Some? && reply.value.publicKey == publicKey
                && reply.value.document != [] && parse(reply.value.document).Some?
                && parse(reply.value.document).value.notBefore <= now < parse(reply.value.document).value.notAfter
      ensures Contents() ==
                if !failed && parse(reply.value.document).value.notAfter > old(validity.notAfter)
                then Cache(reply.value.document, parse(reply.value.document).value)
                else old(Contents())
    {
      var current := validity;
      if reply.None? || reply.value.publicKey == [] {
        return current, true;
      }
      if reply.value.publicKey != publicKey {
        return current, true;
      }
      if reply.value.document == [] {
        return current, true;
      }
      var parsed := parse(reply.value.document);
      if parsed.None? {
        return current, true;
      }
      if StandingAt(parsed.value, now) != Standing.Valid {
        return current, true;
      }
      if parsed.value.notAfter <= current.notAfter {
        return current, false;
      }
      attestationDocument, validity := reply.value.document, parsed.value;
      return parsed.value, false;
    }

    // runAttestationRefresh, until the context ends after the given wakes. The loop's own copy
    // of the window is the cached one throughout.
    method RunAttestationRefresh(wakes: seq<Wake>) returns (delays: seq<int>, local: Window)
      requires Valid() && forall i :: 0 <= i < |wakes| ==> wakes[i].checked >= 0
      modifies this
      ensures Valid() && local == validity
      ensures Contents() == AfterWakes(parse, publicKey, old(Contents()), wakes)
      ensures |delays| == |wakes|
      ensures forall i :: 0 <= i < |wakes| ==> delays[i] == DelayBefore(parse, publicKey, old(Contents()), wakes, i)
    {
      hide RefreshDelay, Usable;
      ghost var first := Contents();
      var retry := false;
      local := validity;
      delays := [];
      for i := 0 to |wakes|
        invariant Valid() && local == validity && |delays| == i
        invariant Contents() == AfterWakes(parse, publicKey, first, wakes[..i])
        invariant retry <==> i > 0 && Contents() == AfterWakes(parse, publicKey, first, wakes[..i - 1])
        invariant forall j :: 0 <= j < i ==> delays[j] == DelayBefore(parse, publicKey, first, wakes, j)
      {
        delays := delays + [RefreshDelay(wakes[i].start, local, retry)];
        assert wakes[..i + 1][..i] == wakes[..i];
        var refreshed, failed := RefreshAttestation(wakes[i].reply, wakes[i].checked);
        if failed {
          retry := true;
        } else {
          retry := refreshed.notAfter <= local.notAfter;
          local := refreshed;
        }
      }
      assert wakes[..|wakes|] == wakes;
    }
  }

  // newKeyState: the first cache, if the reply of Initialize is acceptable.
  function FirstCache(parse: Parser, reply: KeyReply, now: int): Option<Cache> {
    if reply.publicKey == [] then None
    else if reply.document == [] then Some(Cache([], UNSET))
    else
      match parse(reply.document)
      case None => None
      case Some(w) => if StandingAt(w, now) == Valid then Some(Cache(reply.document, w)) else None
  }

  // It is acceptable exactly with a key and, if it has a document, one that is valid now.
  lemma FirstCacheSound(parse: Parser, reply: KeyReply, now: int)
    requires now >= 0
    ensures FirstCache(parse, reply, now).Some? <==>
              && reply.publicKey != []
              && (reply.document != [] ==>
                    && parse(reply.document).Some?
                    && parse(reply.document).value.notBefore <= now < parse(reply.document).value.notAfter)
    ensures FirstCache(parse, reply, now).Some? ==>
              var c := FirstCache(parse, reply, now).value;
              Sound(parse, c) && c.document == reply.document
  {
  }

  // The reply of a wake is for this key and has a document that is valid then.
  ghost predicate Fresh(parse: Parser, publicKey: seq<byte>, wake: Wake) {
    && wake.reply.Some? && wake.reply.value.publicKey == publicKey != []
    && wake.reply.value.document != [] && parse(wake.reply.value.document).Some?
    && var w := parse(wake.reply.value.document).value;
       w.notBefore <= wake.checked < w.notAfter
  }

  // No document is missed: over any wakes the cached one expires no earlier than the first one
  // and any that was offered for this key while valid.
  lemma {:induction false} LatestIsKept(parse: Parser, publicKey: seq<byte>, c: Cache, wakes: seq<Wake>, k: nat)
    requires k < |wakes|
    ensures var expiry := AfterWakes(parse, publicKey, c, wakes).window.notAfter;
            && expiry >= c.window.notAfter
            && (Fresh(parse, publicKey, wakes[k]) ==> expiry >= parse(wakes[k].reply.value.document).value.notAfter)
    decreases |wakes|
  {
    var n := |wakes| - 1;
    if k < n {
      LatestIsKept(parse, publicKey, c, wakes[..n], k);
    } else if n > 0 {
      LatestIsKept(parse, publicKey, c, wakes[..n], 0);
    }
  }

  // After a wake that stored a document the next one is a first refresh of its window again.
  lemma StoreRestartsSchedule(parse: Parser, publicKey: seq<byte>, c: Cache, wakes: seq<Wake>, i: nat)
    requires 0 < i < |wakes|
    requires AfterWakes(parse, publicKey, c, wakes[..i]) != AfterWakes(parse, publicKey, c, wakes[..i - 1])
    ensures var w := AfterWakes(parse, publicKey, c, wakes[..i]).window;
            && 0 < w.notAfter - w.notBefore
            && (wakes[i].start >= w.notBefore && wakes[i].start < RefreshAt(w) ==>
                  wakes[i].start + DelayBefore(parse, publicKey, c, wakes, i) == RefreshAt(w) < w.notAfter)
  {
    var w := AfterWakes(parse, publicKey, c, wakes[..i]).window;
    assert wakes[..i][..i - 1] == wakes[..i - 1];
    if wakes[i].start >= w.notBefore && wakes[i].start < RefreshAt(w) {
      FirstWake(wakes[i].start, w);
    }
  }

  // Over any number of wakes the cached window is the one of the cached document, and a change
  // of the cache is a strictly later expiry.
  lemma {:induction false} CacheStaysSound(
    parse: Parser, publicKey: seq<byte>, c: Cache, wakes: seq<Wake>, i: nat, j: nat)
    requires Sound(parse, c) && i <= j <= |wakes|
    requires forall k :: 0 <= k < |wakes| ==> wakes[k].checked >= 0
    ensures var before := AfterWakes(parse, publicKey, c, wakes[..i]);
            var after := AfterWakes(parse, publicKey, c, wakes[..j]);
            && Sound(parse, after)
            && (after == before || after.window.notAfter > before.window.notAfter)
    decreases j
  {
    if j > 0 {
      assert wakes[..j][..j - 1] == wakes[..j - 1];
      CacheStaysSound(parse, publicKey, c, wakes, if i < j then i else j - 1, j - 1);
    }
  }

  lemma {:induction false} NothingStored(parse: Parser, publicKey: seq<byte>, c: Cache, wakes: seq<Wake>)
    requires forall k :: 0 <= k < |wakes| ==> AfterWake(parse, publicKey, c, wakes[k]) == c
    ensures AfterWakes(parse, publicKey, c, wakes) == c
    decreases |wakes|
  {
    if wakes != [] {
      NothingStored(parse, publicKey, c, wakes[..|wakes| - 1]);
    }
  }

  // A run of failures: while the loop stores nothing and each wake comes when its delay is over,
  // the loop follows the schedule of failing retries from its first wake on. Whatever failed, it
  // wakes before expiry until at most 30 s remain, fewer than R/30s times with R remaining.
  lemma FailuresFollowSchedule(parse: Parser, publicKey: seq<byte>, c: Cache, wakes: seq<Wake>)
    requires forall k :: 0 <= k < |wakes| ==> AfterWake(parse, publicKey, c, wakes[k]) == c
    requires forall k :: 0 < k < |wakes| ==>
               wakes[k].start == wakes[k - 1].start + DelayBefore(parse, publicKey, c, wakes, k - 1)
    ensures |wakes| > 1 ==>
              var first, expiry := wakes[1].start, c.window.notAfter;
              var retries := FailingWakes(first, c.window);
              && (forall k :: 1 < k < |wakes| ==>
                    && (wakes[k].start < expiry <==> k - 1 <= |retries|)
                    && (k - 1 <= |retries| ==> wakes[k].start == retries[k - 2]))
              && (first < expiry ==>
                    && |retries| * RETRY_FLOOR < expiry - first
                    && 0 < expiry - LastWake(first, c.window) <= RETRY_FLOOR)
  {
    hide FailingWakes, RefreshDelay, DelayBefore, AfterWake;
    if |wakes| > 1 {
      var starts := seq(|wakes| - 1, k requires 0 <= k < |wakes| - 1 => wakes[k + 1].start);
      forall k | 0 < k < |starts| ensures starts[k] == starts[k - 1] + RefreshDelay(starts[k - 1], c.window, true) {
        assert wakes[k + 1].start == wakes[k].start + DelayBefore(parse, publicKey, c, wakes, k);
        RetryDelay(parse, publicKey, c, wakes, k);
      }
      RetriesFollow(starts, c.window);
      assert forall k :: 1 < k < |wakes| ==> wakes[k].start == starts[k - 1];
      if wakes[1].start < c.window.notAfter {
        FailuresKeepWaking(wakes[1].start, c.window);
      }
    }
  }

  lemma RetryDelay(parse: Parser, publicKey: seq<byte>, c: Cache, wakes: seq<Wake>, k: nat)
    requires forall k :: 0 <= k < |wakes| ==> AfterWake(parse, publicKey, c, wakes[k]) == c
    requires 0 < k < |wakes|
    ensures DelayBefore(parse, publicKey, c, wakes, k) == RefreshDelay(wakes[k].start, c.window, true)
  {
    hide RefreshDelay, AfterWake, AfterWakes;
    NothingStored(parse, publicKey, c, wakes[..k]);
    NothingStored(parse, publicKey, c, wakes[..k - 1]);
  }

  // A stored document was inside its window when it was checked, and came with the cached key.
  lemma {:induction false} StoredWasUsable(parse: Parser, publicKey: seq<byte>, c: Cache, wakes: seq<Wake>)
    returns (k: nat)
    requires AfterWakes(parse, publicKey, c, wakes) != c
    ensures k < |wakes|
    ensures Usable(parse, publicKey, wakes[k].reply, wakes[k].checked) == Some(AfterWakes(parse, publicKey, c, wakes))
    ensures var cached, wake := AfterWakes(parse, publicKey, c, wakes), wakes[k];
            && wake.reply.Some? && wake.reply.value.publicKey == publicKey != []
            && wake.reply.value.document == cached.document != []
            && parse(cached.document) == Some(cached.window)
            && cached.window.notBefore <= wake.checked < cached.window.notAfter
    decreases |wakes|
  {
    var n := |wakes| - 1;
    var before := AfterWakes(parse, publicKey, c, wakes[..n]);
    if AfterWakes(parse, publicKey, c, wakes) == before {
      k := StoredWasUsable(parse, publicKey, c, wakes[..n]);
    } else {
      k := n;
    }
  }
}
