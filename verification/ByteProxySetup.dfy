// Building and starting the proxy (New, closeListeners, Run, DroppedCount of byteproxy.go): the
// objects whose state the events of ByteProxy change afterwards.
module ByteProxySetup {
  import BP = ByteProxy
  import Invariant = ByteProxyInvariant

  class Listener {
    var open: bool

    constructor ()
      ensures open
    {
      open := true;
    }

    method Close()
      modifies this
      ensures !open
    {
      open := false;
    }
  }

  // Binds: whether Listen succeeds.
  datatype ServiceConfig = ServiceConfig(name: string, hasListen: bool, hasDial: bool, binds: bool)

  class ServiceListener {
    const name: string
    const ln: Listener
    var tokens: nat
    var dropped: nat

    constructor (name: string, ln: Listener)
      ensures this.name == name && this.ln == ln && tokens == 0 && dropped == 0
    {
      this.name, this.ln, tokens, dropped := name, ln, 0, 0;
    }
  }

  predicate Bindable(c: ServiceConfig) { c.hasListen && c.hasDial && c.binds }

  class Proxy {
    const maxConns: nat
    var listeners: seq<ServiceListener>
    var running: bool
    var wg: nat

    constructor (maxConns: nat)
      ensures this.maxConns == maxConns && listeners == [] && !running && wg == 0
    {
      this.maxConns, listeners, running, wg := maxConns, [], false, 0;
    }

    method CloseListeners()
      modifies set i | 0 <= i < |listeners| :: listeners[i].ln
      ensures forall i :: 0 <= i < |listeners| ==> !listeners[i].ln.open
    {
      for k := 0 to |listeners|
        invariant forall i :: 0 <= i < k ==> !listeners[i].ln.open
      {
        listeners[k].ln.Close();
      }
    }

    // Run: one WaitGroup ticket and one accept loop a listener.
    method Run()
      requires !running && wg == 0
      modifies this
      ensures running && wg == |listeners| && listeners == old(listeners)
    {
      for k := 0 to |listeners|
        invariant wg == k && listeners == old(listeners)
      {
        wg := wg + 1;
      }
      running := true;
    }

    predicate IsFirst(service: string, i: nat)
      reads this
    {
      i < |listeners| && listeners[i].name == service && forall j :: 0 <= j < i ==> listeners[j].name != service
    }

    // The drops counted for the first service of that name; none for an unknown name.
    method DroppedCount(service: string) returns (count: nat)
      ensures (forall i :: 0 <= i < |listeners| ==> listeners[i].name != service) ==> count == 0
      ensures forall i: nat :: IsFirst(service, i) ==> count == listeners[i].dropped
    {
      for k := 0 to |listeners|
        invariant forall j :: 0 <= j < k ==> listeners[j].name != service
      {
        if listeners[k].name == service {
          assert forall i: nat :: IsFirst(service, i) ==> !(k < i);
          return listeners[k].dropped;
        }
      }
      return 0;
    }

    // The state in which the events begin.
    function View(): BP.Proxy
      reads this, listeners, set i | 0 <= i < |listeners| :: listeners[i].ln
    {
      BP.Proxy(maxConns,
               seq(|listeners|,
                   i requires 0 <= i < |listeners|
                     reads this, listeners, set j | 0 <= j < |listeners| :: listeners[j].ln =>
                 BP.Service(BP.Accepting, listeners[i].ln.open, listeners[i].tokens, listeners[i].dropped)),
               [], wg, BP.NotCalled)
    }
  }

  // New binds all services or none: a failure closes every listener bound before it.
  method New(name: string, services: seq<ServiceConfig>, maxConns: int) returns (p: Proxy?, bound: seq<Listener>)
    ensures p != null <==>
              && name != "" && services != [] && maxConns > 0
              && forall i :: 0 <= i < |services| ==> services[i].hasListen && services[i].hasDial && services[i].binds
    ensures p == null ==> forall i :: 0 <= i < |bound| ==> fresh(bound[i]) && !bound[i].open
    ensures p != null ==>
              && fresh(p) && p.maxConns == maxConns && !p.running && p.wg == 0
              && |p.listeners| == |services| == |bound|
              && forall i :: 0 <= i < |services| ==>
                   && p.listeners[i].name == services[i].name && p.listeners[i].ln == bound[i] && bound[i].open
                   && p.listeners[i].tokens == 0 && p.listeners[i].dropped == 0
  {
    bound := [];
    if name == "" || |services| == 0 || maxConns <= 0 {
      return null, bound;
    }
    var proxy := new Proxy(maxConns);
    for k := 0 to |services|
      invariant fresh(proxy) && proxy.maxConns == maxConns && !proxy.running && proxy.wg == 0
      invariant |proxy.listeners| == |bound| == k
      invariant forall i :: 0 <= i < k ==> Bindable(services[i])
      invariant forall i :: 0 <= i < k ==>
                  && fresh(bound[i]) && bound[i].open && fresh(proxy.listeners[i])
                  && proxy.listeners[i].ln == bound[i] && proxy.listeners[i].name == services[i].name
                  && proxy.listeners[i].tokens == 0 && proxy.listeners[i].dropped == 0
    {
      var svc := services[k];
      if !svc.hasListen || !svc.hasDial || !svc.binds {
        proxy.CloseListeners();
        return null, bound;
      }
      var ln := new Listener();
      var sl := new ServiceListener(svc.name, ln);
      bound := bound + [ln];
      proxy.listeners := proxy.listeners + [sl];
    }
    return proxy, bound;
  }

  // A proxy that New built and Run started is in an initial state of ByteProxy.
  method NewAndRun(name: string, services: seq<ServiceConfig>, maxConns: int) returns (p: Proxy?)
    ensures p != null <==>
              && name != "" && services != [] && maxConns > 0
              && forall i :: 0 <= i < |services| ==> services[i].hasListen && services[i].hasDial && services[i].binds
    ensures p != null ==> Invariant.Started(p.View()) && |p.View().services| == |services|
  {
    var bound;
    p, bound := New(name, services, maxConns);
    if p != null {
      p.Run();
    }
  }
}
