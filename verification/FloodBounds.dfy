/** How far and how often one broadcast travels when connections are fixed and nothing is repeated. */
module FloodBounds {
  import opened Sequences
  import opened Messages
  import opened Handler
  import opened HandlerFacts
  import opened Cluster
  import opened Coverage

  /** The directed links of a cluster. */
  function Links(c: Cluster): set<(Address, Address)> {
    set a, i | a in c.nodes && 0 <= i < |c.nodes[a].connections| && Link(c.nodes[a].connections[i]) ::
      (a, c.nodes[a].connections[i].address)
  }

  function Copies(packets: set<Packet>, id: string): set<Packet> {
    set p | p in packets && Carries(p, id)
  }

  /** A copy travels over a link; a flood over links open to its kind of service, all the way. */
  ghost predicate Travelled(c: Cluster, p: Packet) {
    && p.route != [] && LinkOf(p) in Links(c)
    && (IsFlood(p.msg.service) ==> LinkPath(c, p.msg.service, p.route + [p.to]))
  }

  ghost predicate AllTravelled(c: Cluster) {
    && (forall p {:trigger Travelled(c, p)} :: p in c.sent ==> Travelled(c, p))
    && (forall a, id {:trigger Retired(c, a, id)} :: (a, id) in c.routes && Flood(c, id) ==>
          LinkPath(c, c.ids[id].original.service, c.routes[(a, id)] + [a]))
  }

  predicate SameConnections(c: Cluster, c': Cluster) {
    && c'.nodes.Keys == c.nodes.Keys
    && (forall a :: a in c.nodes ==> c'.nodes[a].connections == c.nodes[a].connections)
  }

  lemma SamePath(c: Cluster, c': Cluster, service: string, path: seq<Address>)
    requires SameConnections(c, c') && LinkPath(c, service, path)
    ensures LinkPath(c', service, path)
  {
  }

  lemma PathExtends(c: Cluster, service: string, path: seq<Address>, x: Address)
    requires LinkPath(c, service, path) && path != [] && x in c.nodes
    requires Linked(c.nodes[path[|path| - 1]].connections, service, x)
    ensures LinkPath(c, service, path + [x])
  {
  }

  /** A flooded message that is handled somewhere came there by links open to its kind of service. */
  lemma PathSoFar(s: Net, e: Event, a: Address, m: Message, route: seq<Address>)
    requires NetInv(s) && AllTravelled(s.cluster) && NetEnabled(s, Move(e)) && Handling(e, a, m, route)
    requires IsFlood(m.service)
    ensures LinkPath(s.cluster, m.service, route + [a])
  {
    hide Inv;
    if e.Deliver? {
      assert Travelled(s.cluster, e.packet);
    }
  }

  lemma NewTravelled(s: Net, e: Event, a: Address, m: Message, route: seq<Address>, f: Effect, p: Packet)
    requires NetInv(s) && AllTravelled(s.cluster) && NetEnabled(s, Move(e)) && Handling(e, a, m, route)
    requires Shape(s.cluster, Next(s.cluster, e), a, m, route, f)
    requires f == Process(s.cluster.nodes[a], m, s.cluster.clocks[a]).1
    requires p in NewPackets(s.cluster.nodes[a], route + [a], f)
    ensures Travelled(s.cluster, p)
  {
    hide Process, Handle, Next, History, GoodConnections, GoodPackets, GoodIds, GoodRoutes, GoodReceived, GivenOnce;
    var c := s.cluster;
    NewPacketFrom(c, a, m, route + [a], f, p);
    assert LinkOf(p) == (a, p.to);
    if IsFlood(p.msg.service) {
      FloodTargetsLinked(c.nodes[a], m, c.clocks[a], p.to);
      PathSoFar(s, e, a, m, route);
      PathExtends(c, m.service, route + [a], p.to);
    }
  }

  lemma PacketsTravelled(s: Net, e: Event, a: Address, m: Message, route: seq<Address>, f: Effect)
    requires NetInv(s) && AllTravelled(s.cluster) && NetEnabled(s, Move(e)) && Handling(e, a, m, route)
    requires Shape(s.cluster, Next(s.cluster, e), a, m, route, f) && Grows(s.cluster, Next(s.cluster, e))
    requires f == Process(s.cluster.nodes[a], m, s.cluster.clocks[a]).1
    requires SameConnections(s.cluster, Next(s.cluster, e))
    ensures forall p :: p in Next(s.cluster, e).sent ==> Travelled(Next(s.cluster, e), p)
  {
    hide Process, Handle, Next;
    var c, c' := s.cluster, Next(s.cluster, e);
    assert Links(c') == Links(c);
    forall p | p in c'.sent
      ensures Travelled(c', p)
    {
      if p in c.sent {
        assert Travelled(c, p);
      } else {
        NewTravelled(s, e, a, m, route, f, p);
      }
      if IsFlood(p.msg.service) {
        SamePath(c, c', p.msg.service, p.route + [p.to]);
      }
    }
  }

  lemma RoutesTravelled(s: Net, e: Event, a: Address, m: Message, route: seq<Address>, f: Effect,
                        b: Address, id: string)
    requires NetInv(s) && AllTravelled(s.cluster) && NetEnabled(s, Move(e)) && Handling(e, a, m, route)
    requires Shape(s.cluster, Next(s.cluster, e), a, m, route, f) && Grows(s.cluster, Next(s.cluster, e))
    requires SameConnections(s.cluster, Next(s.cluster, e))
    requires (b, id) in Next(s.cluster, e).routes && Flood(Next(s.cluster, e), id)
    ensures var c' := Next(s.cluster, e); LinkPath(c', c'.ids[id].original.service, c'.routes[(b, id)] + [b])
  {
    hide Process, Handle, Next, GoodCopy, FreshTargets, AllLinks, GoodPacket, NewPackets;
    var c, c' := s.cluster, Next(s.cluster, e);
    if Accepted(f) && IdOf(m, f) == Some(id) && b == a {
      AcceptedRoute(c, c', a, m, route, f);
      PathSoFar(s, e, a, m, route);
      SamePath(c, c', m.service, route + [a]);
    } else {
      RoutedIsRetired(c, b, id);
      SamePath(c, c', c.ids[id].original.service, c.routes[(b, id)] + [b]);
    }
  }

  lemma TravelledHandle(s: Net, e: Event, a: Address, m: Message, route: seq<Address>)
    requires NetInv(s) && AllTravelled(s.cluster) && NetEnabled(s, Move(e)) && Handling(e, a, m, route)
    requires Arrives(s.cluster, a, m, route) && Next(s.cluster, e) == Handle(s.cluster, a, m, route)
    ensures AllTravelled(Next(s.cluster, e))
  {
    hide Process, Handle, Next, Sending, History, WellFormed, GoodRoutes, GoodReceived, GoodIds, GivenOnce;
    var f := HandleShape(s.cluster, a, m, route);
    var c' := Next(s.cluster, e);
    HandleGrows(s.cluster, c', a, m, route, f);
    PacketsTravelled(s, e, a, m, route, f);
    forall b, id | (b, id) in c'.routes && Flood(c', id)
      ensures LinkPath(c', c'.ids[id].original.service, c'.routes[(b, id)] + [b])
    {
      RoutesTravelled(s, e, a, m, route, f, b, id);
    }
  }

  lemma TravelledTick(c: Cluster, a: Address, now: int)
    requires AllTravelled(c) && Enabled(c, Tick(a, now))
    ensures AllTravelled(Next(c, Tick(a, now)))
  {
    var c' := Next(c, Tick(a, now));
    assert Links(c') == Links(c);
    forall p | p in c'.sent
      ensures Travelled(c', p)
    {
      assert Travelled(c, p);
      if IsFlood(p.msg.service) {
        SamePath(c, c', p.msg.service, p.route + [p.to]);
      }
    }
    forall b, id | (b, id) in c'.routes && Flood(c', id)
      ensures LinkPath(c', c'.ids[id].original.service, c'.routes[(b, id)] + [b])
    {
      assert Retired(c, b, id) || !Retired(c, b, id);
      SamePath(c, c', c.ids[id].original.service, c.routes[(b, id)] + [b]);
    }
  }

  lemma TravelledNext(s: Net, e: NetEvent)
    requires NetInv(s) && AllTravelled(s.cluster) && NetEnabled(s, e)
    ensures AllTravelled(NetNext(s, e).cluster)
  {
    if e.Move? {
      match e.event
      case Tick(a, now) => TravelledTick(s.cluster, a, now);
      case Originate(a, m) => TravelledHandle(s, e.event, a, m, []);
      case Deliver(p) =>
        assert GoodPacket(s.cluster, p);
        TravelledHandle(s, e.event, p.to, p.msg, p.route);
    }
  }

  lemma {:induction false} TravelledRun(run: seq<Net>, events: seq<NetEvent>)
    requires NetRun(run, events)
    ensures AllTravelled(run[|events|].cluster)
    decreases |events|
  {
    if events != [] {
      var k := |events| - 1;
      TravelledRun(run[..k + 1], events[..k]);
      NetRunInv(run[..k + 1], events[..k]);
      TravelledNext(run[k], events[k]);
    }
  }

  /** Each broadcast, flooded or sent to a named service, puts at most one copy on each directed link. */
  lemma CopiesBounded(run: seq<Net>, events: seq<NetEvent>, id: string)
    requires NetRun(run, events)
    ensures var c := run[|events|].cluster; |Copies(c.sent, id)| <= |Links(c)|
  {
    var c := run[|events|].cluster;
    TravelledRun(run, events);
    NetRunInv(run, events);
    var copies := Copies(c.sent, id);
    var link := (p: Packet) => if p.route == [] then ("", "") else LinkOf(p);
    forall p | p in copies
      ensures p.route != [] && link(p) in Links(c)
    {
      assert Travelled(c, p);
    }
    forall p, q | p in copies && q in copies && link(p) == link(q)
      ensures p == q
    {
      assert Travelled(c, p) && Travelled(c, q);
      assert SameLink(p, q);
    }
    InjectionBound(copies, Links(c), link);
  }

  /** The pairs of different nodes. */
  function Pairs(nodes: set<Address>): set<(Address, Address)> {
    set a, b | a in nodes && b in nodes && a != b :: (a, b)
  }

  /** With repeated deliveries and changing connections as well, a broadcast never puts more copies on the network
      than there are pairs of different nodes. */
  lemma CopiesAlwaysBounded(run: seq<Cluster>, events: seq<Event>, id: string)
    requires Run(run, events)
    ensures var c := run[|events|]; |Copies(c.sent, id)| <= |Pairs(c.nodes.Keys)|
  {
    var c := run[|events|];
    RunInv(run, events);
    var copies := Copies(c.sent, id);
    var link := (p: Packet) => if p.route == [] then ("", "") else LinkOf(p);
    forall p | p in copies
      ensures p.route != [] && link(p) in Pairs(c.nodes.Keys)
    {
      assert GoodPacket(c, p);
      RoutedIsRetired(c, p.route[|p.route| - 1], id);
    }
    forall p, q | p in copies && q in copies && link(p) == link(q)
      ensures p == q
    {
      assert GoodPacket(c, p) && GoodPacket(c, q);
      assert SameLink(p, q);
    }
    InjectionBound(copies, Pairs(c.nodes.Keys), link);
  }

  /** A flood goes no further than five links: a node that accepted it has a path that short from the
      originator, so no flood ever reaches a node six links away. */
  lemma GivenWithinFiveLinks(run: seq<Net>, events: seq<NetEvent>, id: string, x: Address)
    requires NetRun(run, events) && Flood(run[|events|].cluster, id)
    requires Reached(run[|events|], id, x)
    ensures var c := run[|events|].cluster;
            exists path :: LinkPath(c, c.ids[id].original.service, path) && 0 < |path| <= MAX_HOPS + 1
                           && path[0] == c.ids[id].at && path[|path| - 1] == x
  {
    var c := run[|events|].cluster;
    TravelledRun(run, events);
    NetRunInv(run, events);
    var path := c.routes[(x, id)] + [x];
    assert GoodEntry(c, x, id, c.routes[(x, id)]);
    assert path[0] == c.ids[id].at && path[|path| - 1] == x;
  }

  function Arrivals(events: seq<NetEvent>, id: string): nat {
    if events == [] then 0
    else
      var e := events[|events| - 1];
      Arrivals(events[..|events| - 1], id)
      + (if e.Move? && e.event.Deliver? && Carries(e.event.packet, id) then 1
         else if e.Lose? && Carries(e.packet, id) then 1 else 0)
  }

  lemma CopiesSplit(a: set<Packet>, b: set<Packet>, id: string)
    requires a !! b
    ensures |Copies(a + b, id)| == |Copies(a, id)| + |Copies(b, id)|
  {
    assert Copies(a + b, id) == Copies(a, id) + Copies(b, id);
  }

  lemma CopiesLess(a: set<Packet>, p: Packet, id: string)
    requires p in a
    ensures |Copies(a - {p}, id)| == |Copies(a, id)| - (if Carries(p, id) then 1 else 0)
  {
    if Carries(p, id) {
      assert Copies(a, id) == Copies(a - {p}, id) + {p};
    } else {
      assert Copies(a, id) == Copies(a - {p}, id);
    }
  }

  lemma CountNext(s: Net, e: NetEvent, id: string)
    requires NetInv(s) && NetEnabled(s, e)
    ensures var s' := NetNext(s, e);
            |Copies(s'.flight, id)| - |Copies(s.flight, id)|
            == |Copies(s'.cluster.sent, id)| - |Copies(s.cluster.sent, id)| - Arrivals([e], id)
  {
    hide Process, Handle, Next, Copies, Inv;
    var s' := NetNext(s, e);
    assert [e][..0] == [];
    if e.Lose? {
      CopiesLess(s.flight, e.packet, id);
    } else {
      NextKeeps(s.cluster, e.event);
      var created := s'.cluster.sent - s.cluster.sent;
      assert s'.cluster.sent == s.cluster.sent + created;
      CopiesSplit(s.cluster.sent, created, id);
      if e.event.Deliver? {
        CopiesLess(s.flight, e.event.packet, id);
        CopiesSplit(s.flight - {e.event.packet}, created, id);
      } else {
        CopiesSplit(s.flight, created, id);
      }
    }
  }

  /** Conservation: each copy ever sent is still in flight, was delivered once, or was lost once. */
  lemma {:induction false} CopiesConserved(run: seq<Net>, events: seq<NetEvent>, id: string)
    requires NetRun(run, events)
    ensures |Copies(run[|events|].cluster.sent, id)| == |Copies(run[|events|].flight, id)| + Arrivals(events, id)
    decreases |events|
  {
    hide Process, Handle, Next, Copies, Inv;
    if events != [] {
      var k := |events| - 1;
      CopiesConserved(run[..k + 1], events[..k], id);
      NetRunInv(run[..k + 1], events[..k]);
      CountNext(run[k], events[k], id);
      assert [events[k]][..0] == [];
    }
  }

  /** Flooding terminates: in every run, however long, a broadcast is delivered or lost at most once
      per directed link. */
  lemma FloodTerminates(run: seq<Net>, events: seq<NetEvent>, id: string)
    requires NetRun(run, events)
    ensures Arrivals(events, id) <= |Links(run[0].cluster)|
  {
    CopiesConserved(run, events, id);
    CopiesBounded(run, events, id);
    LinksFixed(run, events);
  }

  lemma {:induction false} LinksFixed(run: seq<Net>, events: seq<NetEvent>)
    requires NetRun(run, events)
    ensures Links(run[|events|].cluster) == Links(run[0].cluster)
    decreases |events|
  {
    hide Process, Handle, Next, Inv;
    if events != [] {
      var k := |events| - 1;
      LinksFixed(run[..k + 1], events[..k]);
      NetRunInv(run[..k + 1], events[..k]);
      if events[k].Move? {
        NextKeeps(run[k].cluster, events[k].event);
        assert Links(run[k + 1].cluster) == Links(run[k].cluster);
      }
    }
  }
}
