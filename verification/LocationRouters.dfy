/**
 The names of a host's location routers.

 A location's router, service and strip middleware carry its index in decimal. Reading the digits
 gives the index back, which keeps the names apart from one another; what stands before the digits
 keeps them apart from the names of the host's other routers.
 */
module LocationRouters {
  import opened Options
  import opened Text
  import opened Hosts
  import opened RenderSpec

  /** Printing and reading a number gives the number back, so indices give distinct names. */
  lemma {:induction false} ItoaRoundTrip(n: nat)
    ensures Digits(Itoa(n)) == Some(n)
  {
    if n < 10 {
      assert Itoa(n) == ["0123456789"[n]];
    } else {
      ItoaRoundTrip(n / 10);
      var s := Itoa(n);
      assert s[..|s| - 1] == Itoa(n / 10) && s[|s| - 1] == "0123456789"[n % 10];
    }
  }

  lemma LocNamesInjective(id: string, i: nat, j: nat)
    ensures LocServiceName(id, i) == LocServiceName(id, j) ==> i == j
    ensures LocRouterName(id, i) == LocRouterName(id, j) ==> i == j
  {
    ItoaRoundTrip(i);
    ItoaRoundTrip(j);
    var n := |"svc-" + id + "-loc"|;
    assert LocServiceName(id, i)[n..] == Itoa(i) && LocServiceName(id, j)[n..] == Itoa(j);
    var k := |"host-" + id + "-loc"|;
    assert LocRouterName(id, i)[k..] == Itoa(i) && LocRouterName(id, j)[k..] == Itoa(j);
  }

  /** Each rendered location keeps its own router and service. */
  lemma {:induction false} LocPartsHold(h: Host, inp: Inputs, n: nat, i: nat)
    requires i < n <= |h.locations| && RendersLocation(h, inp, h.locations[i])
    ensures var c := LocParts(h, inp, n);
            && LocRouterName(h.id, i) in c.routers && c.routers[LocRouterName(h.id, i)] == LocRouter(h, inp, i)
            && LocServiceName(h.id, i) in c.services
            && c.services[LocServiceName(h.id, i)] == Servers(h.locations[i].upstreams)
  {
    hide LocRouter;
    if i < n - 1 {
      LocPartsHold(h, inp, n - 1, i);
      LocNamesInjective(h.id, i, n - 1);
    }
  }

  lemma LocRouterIsHosts(h: Host, inp: Inputs, i: nat)
    requires i < |h.locations| && RendersLocation(h, inp, h.locations[i])
    ensures var p := ProxyParts(h, inp);
            && LocRouterName(h.id, i) in p.routers && p.routers[LocRouterName(h.id, i)] == LocRouter(h, inp, i)
            && LocServiceName(h.id, i) in p.services
            && p.services[LocServiceName(h.id, i)] == Servers(h.locations[i].upstreams)
  {
    LocPartsHold(h, inp, |h.locations|, i);
    hide LocParts, LocRouter, MainRouter, MainServices, RawServices, TrustedRouters, StaticRouters;
    var k := |"host-" + h.id + "-"|;
    assert LocRouterName(h.id, i)[k] == 'l' && (RouterName(h.id) + "-http")[k] == 'h';
  }
}
