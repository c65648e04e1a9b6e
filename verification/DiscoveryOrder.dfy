/** The list of connections is the increasing enumeration of all places in the nested loops at
    which one is found: by target, then by Service, then by source, the source-less one last. */
module DiscoveryOrder {
  import opened Model
  import opened Sequences
  import opened Addresses
  import opened DiscoverySpec

  /** A place in the loops; the source after the last one stands for none. */
  datatype Spot = Spot(target: nat, link: nat, source: nat)

  predicate Before(a: Spot, b: Spot) {
    || a.target < b.target
    || (a.target == b.target && (a.link < b.link || (a.link == b.link && a.source < b.source)))
  }

  /** A connection is found at this place. */
  predicate Found(resources: seq<Resource>, links: seq<Service>, at: Spot) {
    && at.target < |resources| && at.link < |links| && at.source <= |resources|
    && var d, svc := resources[at.target], links[at.link];
       && Fronts(svc, d)
       && (if at.source < |resources| then
             References(resources[at.source], svc) && Distinct(resources[at.source], d)
           else HasExposedPorts(svc) || forall r :: r in resources ==> !References(r, svc))
  }

  function ConnectionAt(resources: seq<Resource>, links: seq<Service>, at: Spot): Connection
    requires at.target < |resources| && at.link < |links|
  {
    Connection(if at.source < |resources| then Some(AsSource(resources[at.source], links[at.link])) else None,
               resources[at.target], links[at.link])
  }

  /** These connections are found at these spots, which are all those before `end`, in their order. */
  ghost predicate Lists(resources: seq<Resource>, links: seq<Service>, conns: seq<Connection>, spots: seq<Spot>,
                        end: Spot) {
    && |spots| == |conns|
    && (forall at :: at in spots <==> Found(resources, links, at) && Before(at, end))
    && (forall i :: 0 <= i < |spots| ==>
          spots[i] in spots && conns[i] == ConnectionAt(resources, links, spots[i]))
    && (forall i, j :: 0 <= i < j < |spots| ==> Before(spots[i], spots[j]))
  }

  /** The end may move where nothing is found in between. */
  lemma {:induction false} EndMoves(resources: seq<Resource>, links: seq<Service>, conns: seq<Connection>,
                                    spots: seq<Spot>, end: Spot, next: Spot)
    requires Lists(resources, links, conns, spots, end)
    requires forall at :: Found(resources, links, at) ==> (Before(at, end) <==> Before(at, next))
    ensures Lists(resources, links, conns, spots, next)
  {
    hide Found, Before, ConnectionAt;
  }

  /** One place further. */
  lemma {:induction false} OneSpot(resources: seq<Resource>, links: seq<Service>, conns: seq<Connection>,
                                   spots: seq<Spot>, at: Spot)
    requires Lists(resources, links, conns, spots, at) && Found(resources, links, at)
    ensures Lists(resources, links, conns + [ConnectionAt(resources, links, at)], spots + [at],
                  at.(source := at.source + 1))
  {
    hide Found, ConnectionAt;
    var next, more := at.(source := at.source + 1), spots + [at];
    forall a ensures a in more <==> Found(resources, links, a) && Before(a, next) {
      assert Before(a, next) <==> Before(a, at) || a == at;
    }
  }

  lemma {:induction false} NoSpot(resources: seq<Resource>, links: seq<Service>, conns: seq<Connection>,
                                  spots: seq<Spot>, at: Spot)
    requires Lists(resources, links, conns, spots, at) && !Found(resources, links, at)
    ensures Lists(resources, links, conns, spots, at.(source := at.source + 1))
  {
    hide Found, ConnectionAt;
    var next := at.(source := at.source + 1);
    forall a | Found(resources, links, a) ensures Before(a, at) <==> Before(a, next) {
      assert Before(a, next) <==> Before(a, at) || a == at;
    }
    EndMoves(resources, links, conns, spots, at, next);
  }

  /** The sources of one target through one Service. */
  lemma {:induction false} SourceSpots(resources: seq<Resource>, links: seq<Service>, conns: seq<Connection>,
                                       spots: seq<Spot>, t: nat, s: nat) returns (after: seq<Spot>)
    requires t < |resources| && s < |links| && Fronts(links[s], resources[t])
    requires Lists(resources, links, conns, spots, Spot(t, s, 0))
    ensures Lists(resources, links,
                  conns + FromSources(SourcesOf(resources, links[s]), resources[t], links[s]), after,
                  Spot(t, s, |resources|))
  {
    hide Lists, References, Fronts, HasExposedPorts, AsSource, FromSources;
    var d, svc := resources[t], links[s];
    after := spots;
    var found := [];
    NothingFrom(d, svc);
    assert conns + found == conns;
    for r := 0 to |resources|
      invariant found == FromSources(SourcesOf(resources[..r], svc), d, svc)
      invariant Lists(resources, links, conns + found, after, Spot(t, s, r))
    {
      var at := Spot(t, s, r);
      assert resources[..r + 1][..r] == resources[..r];
      assert SourcesOf(resources[..r], svc) + [] == SourcesOf(resources[..r], svc);
      FromSourcesSnoc(SourcesOf(resources[..r], svc), AsSource(resources[r], svc), d, svc);
      CopyIsDistinct(resources[r], d, svc);
      if References(resources[r], svc) && Distinct(resources[r], d) {
        OneSpot(resources, links, conns + found, after, at);
        assert conns + found + [ConnectionAt(resources, links, at)]
            == conns + (found + [ConnectionAt(resources, links, at)]);
        after, found := after + [at], found + [ConnectionAt(resources, links, at)];
      } else {
        NoSpot(resources, links, conns + found, after, at);
      }
    }
    assert resources[..|resources|] == resources;
  }

  lemma CopyIsDistinct(r: Resource, d: Resource, svc: Service)
    ensures AsSource(r, svc).Equals(d) <==> !Distinct(r, d)
  {
  }

  /** All connections of one target through one Service. */
  lemma {:induction false} ServiceSpots(resources: seq<Resource>, links: seq<Service>, conns: seq<Connection>,
                                        spots: seq<Spot>, t: nat, s: nat) returns (after: seq<Spot>)
    requires t < |resources| && s < |links|
    requires Lists(resources, links, conns, spots, Spot(t, s, 0))
    ensures Lists(resources, links,
                  conns + (if Fronts(links[s], resources[t]) then ViaService(resources, resources[t], links[s])
                           else []),
                  after, Spot(t, s + 1, 0))
  {
    hide Lists, References, Fronts, HasExposedPorts, AsSource, FromSources, SourcesOf;
    var d, svc, last := resources[t], links[s], Spot(t, s, |resources|);
    if Fronts(svc, d) {
      after := SourceSpots(resources, links, conns, spots, t, s);
      var sourced := conns + FromSources(SourcesOf(resources, svc), d, svc);
      NoSources(resources, svc);
      assert sourced + [] == sourced;
      if HasExposedPorts(svc) || SourcesOf(resources, svc) == [] {
        OneSpot(resources, links, sourced, after, last);
        after := after + [last];
        assert ConnectionAt(resources, links, last) == Connection(None, d, svc);
        assert sourced + [Connection(None, d, svc)] == conns + ViaService(resources, d, svc);
        EndMoves(resources, links, conns + ViaService(resources, d, svc), after, Spot(t, s, |resources| + 1),
                 Spot(t, s + 1, 0));
      } else {
        NoSpot(resources, links, sourced, after, last);
        assert sourced == conns + ViaService(resources, d, svc);
        EndMoves(resources, links, sourced, after, Spot(t, s, |resources| + 1), Spot(t, s + 1, 0));
      }
    } else {
      assert conns + [] == conns;
      after := spots;
      EndMoves(resources, links, conns, spots, Spot(t, s, 0), Spot(t, s + 1, 0));
    }
  }

  /** All connections of one target. */
  lemma {:induction false} TargetSpots(resources: seq<Resource>, links: seq<Service>, conns: seq<Connection>,
                                       spots: seq<Spot>, t: nat) returns (after: seq<Spot>)
    requires t < |resources| && Lists(resources, links, conns, spots, Spot(t, 0, 0))
    ensures Lists(resources, links,
                  conns + ViaServices(resources, resources[t], ServicesOf(resources[t], links)), after,
                  Spot(t + 1, 0, 0))
  {
    hide Lists, Fronts, Found, ViaService;
    var d := resources[t];
    after := spots;
    var via := [];
    assert conns + via == conns;
    assert ServicesOf(d, []) == [] && ViaServices(resources, d, []) == [];
    for s := 0 to |links|
      invariant via == ViaServices(resources, d, ServicesOf(d, links[..s]))
      invariant Lists(resources, links, conns + via, after, Spot(t, s, 0))
    {
      assert links[..s + 1][..s] == links[..s];
      after := ServiceSpots(resources, links, conns + via, after, t, s);
      var more := if Fronts(links[s], d) then ViaService(resources, d, links[s]) else [];
      assert conns + via + more == conns + (via + more);
      ServicesOneMore(resources, d, links[..s], links[s]);
      via := via + more;
    }
    assert links[..|links|] == links;
    LastLink(resources, links);
    EndMoves(resources, links, conns + via, after, Spot(t, |links|, 0), Spot(t + 1, 0, 0));
  }

  lemma {:induction false} ServicesOneMore(resources: seq<Resource>, d: Resource, init: seq<Service>, last: Service)
    ensures ViaServices(resources, d, ServicesOf(d, init + [last]))
            == ViaServices(resources, d, ServicesOf(d, init))
               + (if Fronts(last, d) then ViaService(resources, d, last) else [])
  {
    hide Fronts, ViaService;
    assert (init + [last])[..|init|] == init;
    var svcs := ServicesOf(d, init);
    assert svcs + [] == svcs;
    assert (svcs + [last])[..|svcs|] == svcs;
  }

  lemma LastLink(resources: seq<Resource>, links: seq<Service>)
    ensures forall at :: Found(resources, links, at) ==> at.link < |links| && at.target < |resources|
  {
  }

  /** The connections are exactly those found at the places where there is one, in the order of the loops. */
  lemma {:induction false} DiscoveryIsInOrder(resources: seq<Resource>, links: seq<Service>) returns (spots: seq<Spot>)
    ensures var conns := Discover(resources, links);
            && |spots| == |conns|
            && (forall at :: at in spots <==> Found(resources, links, at))
            && (forall i :: 0 <= i < |spots| ==>
                  spots[i] in spots && conns[i] == ConnectionAt(resources, links, spots[i]))
            && (forall i, j :: 0 <= i < j < |spots| ==> Before(spots[i], spots[j]))
  {
    hide Found, ViaServices, ServicesOf, ConnectionAt;
    spots := [];
    var conns := [];
    for t := 0 to |resources|
      invariant conns == ToTargets(resources, resources[..t], links)
      invariant Lists(resources, links, conns, spots, Spot(t, 0, 0))
    {
      assert resources[..t + 1][..t] == resources[..t];
      spots := TargetSpots(resources, links, conns, spots, t);
      conns := conns + ViaServices(resources, resources[t], ServicesOf(resources[t], links));
    }
    assert resources[..|resources|] == resources;
    LastLink(resources, links);
  }

  // ----- used ports -----

  lemma {:induction false} PortsUsedInOrder(addrs: seq<string>, svc: Service, viewerNs: string)
    returns (idx: seq<nat>)
    ensures Places(idx, |addrs|) && |idx| == |PortsUsedBy(addrs, svc, viewerNs)|
    ensures forall k :: 0 <= k < |idx| ==>
              Match(addrs[idx[k]], svc, viewerNs) == Some(PortsUsedBy(addrs, svc, viewerNs)[k])
    ensures forall i :: 0 <= i < |addrs| ==>
              (i in idx <==> Match(addrs[i], svc, viewerNs).Some? && Match(addrs[i], svc, viewerNs).value.port > 0)
  {
    hide Match;
    idx := [];
    if addrs != [] {
      var last := |addrs| - 1;
      idx := PortsUsedInOrder(addrs[..last], svc, viewerNs);
      if PortUsedBy(addrs[last], svc, viewerNs) != [] {
        idx := idx + [last];
      }
    }
  }

  /** The copy of a source differs from the workload only in the ports that it uses: those it had, and
      then those that its addresses denote by number, in the order of the addresses. */
  lemma {:induction false} SourceRecordsItsPorts(r: Resource, svc: Service) returns (idx: seq<nat>)
    ensures var s := AsSource(r, svc);
            && s == r.(usedPorts := s.usedPorts) && |s.usedPorts| == |r.usedPorts| + |idx|
            && s.usedPorts[..|r.usedPorts|] == r.usedPorts
            && Places(idx, |r.networkAddrs|)
            && (forall k :: 0 <= k < |idx| ==>
                  Match(r.networkAddrs[idx[k]], svc, r.namespace) == Some(s.usedPorts[|r.usedPorts| + k]))
            && (forall i :: 0 <= i < |r.networkAddrs| ==>
                  (i in idx <==> && Match(r.networkAddrs[i], svc, r.namespace).Some?
                                 && Match(r.networkAddrs[i], svc, r.namespace).value.port > 0))
  {
    hide Match, PortsUsedBy;
    idx := PortsUsedInOrder(r.networkAddrs, svc, r.namespace);
  }
}
