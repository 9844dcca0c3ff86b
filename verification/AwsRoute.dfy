// The bounded routing header in front of a proxied stream (awsroute.go). Go strings are bytes.
module AwsRoute {
  import opened Bytes

  datatype Route = Route(service: seq<byte>, region: seq<byte>)

  // "ARSP", version 1, two length octets.
  const MAGIC: seq<byte> := [65, 82, 83, 80]
  const VERSION: byte := 1
  const PREFIX := 7

  predicate Valid(route: Route) { 1 <= |route.service| <= 255 && 1 <= |route.region| <= 255 }

  function Header(route: Route): seq<byte>
    requires Valid(route)
  {
    MAGIC + [VERSION, |route.service|, |route.region|] + route.service + route.region
  }

  // The route at the start of a stream, and the size of its header.
  function Decode(s: seq<byte>): (r: Option<(Route, nat)>)
    ensures r.Some? ==> PREFIX <= r.value.1 <= |s|
  {
    if |s| < PREFIX || !GoodPrefix(s[..PREFIX]) || |s| < HeaderSize(s[..PREFIX]) then None
    else
      var size, middle := HeaderSize(s[..PREFIX]), PREFIX + s[5];
      Some((Route(s[PREFIX..middle], s[middle..size]), size))
  }

  predicate GoodPrefix(prefix: seq<byte>)
    requires |prefix| == PREFIX
  {
    prefix[..4] == MAGIC && prefix[4] == VERSION && prefix[5] != 0 && prefix[6] != 0
  }

  function HeaderSize(prefix: seq<byte>): nat
    requires |prefix| == PREFIX
  {
    var service: nat, region: nat := prefix[5], prefix[6];
    PREFIX + service + region
  }

  // A stream that arrives in chunks; a read returns bytes of one chunk only.
  class Stream {
    var chunks: seq<seq<byte>>

    constructor (chunks: seq<seq<byte>>)
      ensures this.chunks == chunks
    {
      this.chunks := chunks;
    }

    function Unread(): seq<byte>
      reads this
    {
      Flatten(chunks)
    }

    // No data means the end of the stream; an empty chunk is an empty read.
    method Read(max: nat) returns (data: Option<seq<byte>>)
      modifies this
      ensures old(chunks) == [] ==> data == None && chunks == []
      ensures old(chunks) != [] ==>
                && data.Some? && |data.value| <= max
                && old(Unread()) == data.value + Unread()
                && (|data.value| > 0 || max == 0 || |chunks| < |old(chunks)|)
    {
      if chunks == [] {
        return None;
      }
      var first := chunks[0];
      if |first| <= max {
        chunks := chunks[1..];
        return Some(first);
      }
      var rest := [first[max..]] + chunks[1..];
      assert rest[1..] == chunks[1..];
      assert first == first[..max] + first[max..];
      chunks := rest;
      return Some(first[..max]);
    }

    // io.ReadFull
    method ReadFull(n: nat) returns (data: Option<seq<byte>>)
      modifies this
      ensures if |old(Unread())| >= n
              then data == Some(old(Unread())[..n]) && Unread() == old(Unread())[n..]
              else data == None && Unread() == []
    {
      ghost var whole := Unread();
      var got: seq<byte> := [];
      while |got| < n
        invariant |got| <= n && whole == got + Unread()
        decreases n - |got|, |chunks|
      {
        var part := Read(n - |got|);
        if part == None {
          return None;
        }
        got := got + part.value;
      }
      return Some(got);
    }
  }

  function Flatten(chunks: seq<seq<byte>>): seq<byte> {
    if chunks == [] then [] else chunks[0] + Flatten(chunks[1..])
  }

  // A writer that may accept fewer bytes than it is given.
  class Sink {
    var written: seq<byte>
    var room: nat

    method Write(data: seq<byte>) returns (n: nat)
      modifies this
      ensures n <= |data| && written == old(written) + data[..n]
      ensures n == if |data| <= old(room) then |data| else old(room)
    {
      n := if |data| <= room then |data| else room;
      written, room := written + data[..n], room - n;
    }
  }

  method WriteAwsRoute(w: Sink, route: Route) returns (ok: bool)
    modifies w
    ensures ok <==>
              && 1 <= |route.service| <= 255 && 1 <= |route.region| <= 255
              && 7 + |route.service| + |route.region| <= old(w.room)
    ensures ok ==> w.written == old(w.written) + Header(route)
    ensures !Valid(route) ==> w.written == old(w.written)
  {
    if |route.service| == 0 || |route.service| > 255 {
      return false;
    }
    if |route.region| == 0 || |route.region| > 255 {
      return false;
    }
    var header := MAGIC;
    header := header + [VERSION, |route.service|, |route.region|];
    header := header + route.service;
    header := header + route.region;
    var n := w.Write(header);
    assert header[..|header|] == header;
    return n == |header|;
  }

  // What is left of a stream after reading a route from it, successfully or not.
  function LeftAfter(s: seq<byte>): seq<byte> {
    if Decode(s).Some? then s[Decode(s).value.1..]
    else if |s| >= PREFIX && !GoodPrefix(s[..PREFIX]) then s[PREFIX..]
    else []
  }

  method ReadAwsRoute(r: Stream) returns (route: Option<Route>)
    modifies r
    ensures match Decode(old(r.Unread()))
            case None => route == None
            case Some(d) => route == Some(d.0)
    ensures r.Unread() == LeftAfter(old(r.Unread()))
  {
    ghost var s := r.Unread();
    var prefix := r.ReadFull(PREFIX);
    if prefix == None {
      return None;
    }
    if prefix.value[..4] != MAGIC {
      return None;
    }
    if prefix.value[4] != VERSION {
      return None;
    }
    var serviceLen: nat, regionLen: nat := prefix.value[5], prefix.value[6];
    if serviceLen == 0 || regionLen == 0 {
      return None;
    }
    var payload := r.ReadFull(serviceLen + regionLen);
    if payload == None {
      return None;
    }
    ghost var middle, end := PREFIX + serviceLen, PREFIX + serviceLen + regionLen;
    assert HeaderSize(s[..PREFIX]) == end;
    assert payload.value == s[PREFIX..end];
    assert s[PREFIX..end][..serviceLen] == s[PREFIX..middle];
    assert s[PREFIX..end][serviceLen..] == s[middle..end];
    assert s[PREFIX..][serviceLen + regionLen..] == s[end..];
    return Some(Route(payload.value[..serviceLen], payload.value[serviceLen..]));
  }

  // What was written is read back, and exactly the payload stays unread.
  lemma RoundTrip(route: Route, payload: seq<byte>)
    requires Valid(route)
    ensures Header(route) == [0x41, 0x52, 0x53, 0x50, 1, |route.service|, |route.region|] + route.service + route.region
    ensures Decode(Header(route) + payload) == Some((route, |Header(route)|))
    ensures LeftAfter(Header(route) + payload) == payload
  {
    var s := Header(route) + payload;
    assert s[..PREFIX] == MAGIC + [VERSION, |route.service|, |route.region|];
    assert s[..PREFIX][..4] == MAGIC;
    var middle := PREFIX + |route.service|;
    assert s[PREFIX..middle] == route.service;
    assert s[middle..middle + |route.region|] == route.region;
    assert s[middle + |route.region|..] == payload;
  }

  // Every accepted header is the canonical print of its result.
  lemma Canonical(s: seq<byte>)
    requires Decode(s).Some?
    ensures Valid(Decode(s).value.0) && Header(Decode(s).value.0) == s[..Decode(s).value.1]
  {
    var prefix := s[..PREFIX];
    assert prefix == prefix[..4] + [prefix[4], prefix[5], prefix[6]];
    var size, middle := HeaderSize(prefix), PREFIX + s[5];
    assert s[..size] == prefix + s[PREFIX..middle] + s[middle..size];
  }
}
