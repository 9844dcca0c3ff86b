// Selecting the upstream of a proxied connection (vsockproxy/routing.go). ARN parsing is a
// function of the text; dialing itself is outside the model, the endpoint dialed is the result.
module Routing {
  import opened Bytes
  import opened AwsRoute

  datatype Arn = Arn(service: seq<byte>, region: seq<byte>)

  type ArnParser = seq<byte> -> Option<Arn>

  datatype Transport = Vsock | Tcp | OtherTransport

  datatype Resolver = Resolver(allowedRegions: set<seq<byte>>, useLocalstack: bool, localstackEndpoint: seq<byte>)

  function Ascii(s: string): seq<byte> {
    seq(|s|, i requires 0 <= i < |s| => (s[i] as int) % 256)
  }

  const KMS := Ascii("kms")

  // The endpoint template of a service, around the place of the region.
  function Template(service: seq<byte>): Option<(seq<byte>, seq<byte>)> {
    if service == KMS then Some((Ascii("kms."), Ascii(".amazonaws.com:443"))) else None
  }

  function KmsEndpoint(region: seq<byte>): seq<byte> {
    Ascii("kms.") + region + Ascii(".amazonaws.com:443")
  }

  predicate GoodArn(parse: ArnParser, arn: seq<byte>) {
    parse(arn).Some? && parse(arn).value.service == KMS && parse(arn).value.region != []
  }

  predicate GoodConfiguration(parse: ArnParser, transport: Transport, arns: seq<seq<byte>>) {
    !transport.OtherTransport? && arns != [] && forall i :: 0 <= i < |arns| ==> GoodArn(parse, arns[i])
  }

  predicate Configured(parse: ArnParser, arns: seq<seq<byte>>, region: seq<byte>) {
    exists i :: 0 <= i < |arns| && parse(arns[i]).Some? && parse(arns[i]).value.region == region
  }

  method NewRouteResolver(parse: ArnParser, transport: Transport, localstack: bool, endpoint: seq<byte>,
                          arns: seq<seq<byte>>) returns (r: Option<Resolver>)
    ensures r.Some? <==> if localstack then transport.Tcp? else GoodConfiguration(parse, transport, arns)
    ensures r.Some? ==> r.value.useLocalstack == localstack
    ensures r.Some? && localstack ==> r.value.localstackEndpoint == endpoint
    ensures r.Some? && !localstack ==>
              forall region :: region in r.value.allowedRegions <==> Configured(parse, arns, region)
  {
    if transport.OtherTransport? {
      return None;
    }
    if localstack {
      if !transport.Tcp? {
        return None;
      }
      return Some(Resolver({}, true, endpoint));
    }
    if |arns| == 0 {
      return None;
    }
    var regions: set<seq<byte>> := {};
    for i := 0 to |arns|
      invariant forall j :: 0 <= j < i ==> GoodArn(parse, arns[j])
      invariant forall region :: region in regions <==>
                  exists j :: 0 <= j < i && parse(arns[j]).Some? && parse(arns[j]).value.region == region
    {
      var parsed := parse(arns[i]);
      if parsed == None {
        return None;
      }
      if parsed.value.service != KMS {
        return None;
      }
      if parsed.value.region == [] {
        return None;
      }
      regions := regions + {parsed.value.region};
    }
    return Some(Resolver(regions, false, endpoint));
  }

  function Resolve(r: Resolver, route: Route): Option<seq<byte>> {
    match Template(route.service)
    case None => None
    case Some(template) =>
      if r.useLocalstack then Some(r.localstackEndpoint)
      else if route.region !in r.allowedRegions then None
      else Some(template.0 + route.region + template.1)
  }

  // The endpoint that a connection is dialed to, if any. What the client sent after the header
  // is left for the bridge.
  method Dial(r: Resolver, service: seq<byte>, inbound: Stream) returns (endpoint: Option<seq<byte>>)
    modifies inbound
    ensures inbound.Unread() == LeftAfter(old(inbound.Unread()))
    ensures endpoint.Some? ==>
              var sent := Decode(old(inbound.Unread()));
              && sent.Some? && sent.value.0.service == service == KMS
              && if r.useLocalstack then endpoint.value == r.localstackEndpoint
                 else sent.value.0.region in r.allowedRegions && endpoint.value == KmsEndpoint(sent.value.0.region)
    ensures endpoint.None? ==>
              var sent := Decode(old(inbound.Unread()));
              sent.None? || sent.value.0.service != service || Resolve(r, sent.value.0) == None
  {
    var route := ReadAwsRoute(inbound);
    if route == None {
      return None;
    }
    if route.value.service != service {
      return None;
    }
    endpoint := Resolve(r, route.value);
  }

  // Outside LocalStack mode, for every inbound stream: an endpoint is dialed exactly for a route
  // of the listener's service, KMS, to the region of some configured ARN; it is the KMS template
  // filled with that region, and what follows the header reaches the bridge untouched.
  method DialConfigured(parse: ArnParser, transport: Transport, arns: seq<seq<byte>>, service: seq<byte>,
                        inbound: Stream) returns (endpoint: Option<seq<byte>>)
    modifies inbound
    ensures inbound.Unread() == if GoodConfiguration(parse, transport, arns) then LeftAfter(old(inbound.Unread()))
                                else old(inbound.Unread())
    ensures var sent := Decode(old(inbound.Unread()));
            && (endpoint.Some? <==>
                  && GoodConfiguration(parse, transport, arns)
                  && sent.Some? && sent.value.0.service == service == KMS
                  && Configured(parse, arns, sent.value.0.region))
            && (endpoint.Some? ==>
                  && endpoint.value == KmsEndpoint(sent.value.0.region)
                  && inbound.Unread() == old(inbound.Unread())[sent.value.1..])
  {
    var resolver := NewRouteResolver(parse, transport, false, [], arns);
    if resolver == None {
      return None;
    }
    endpoint := Dial(resolver.value, service, inbound);
  }
}
