/** A cluster with fixed connections over a network that does not repeat messages. */
module Coverage {
  import opened Sequences
  import opened Messages
  import opened Handler
  import opened HandlerFacts
  import opened Cluster

  /** `flight` holds the copies sent and not yet delivered or lost. */
  datatype Net = Net(cluster: Cluster, flight: set<Packet>)

  datatype NetEvent = Move(event: Event) | Lose(packet: Packet)

  predicate NetEnabled(s: Net, e: NetEvent) {
    match e
    case Lose(p) => p in s.flight
    case Move(event) =>
      Enabled(s.cluster, event) && !event.Reconnect? && (event.Deliver? ==> event.packet in s.flight)
  }

  function NetNext(s: Net, e: NetEvent): Net
    requires NetEnabled(s, e)
  {
    match e
    case Lose(p) => s.(flight := s.flight - {p})
    case Move(event) =>
      var c' := Next(s.cluster, event);
      Net(c', (if event.Deliver? then s.flight - {event.packet} else s.flight) + (c'.sent - s.cluster.sent))
  }

  ghost predicate NetRun(run: seq<Net>, events: seq<NetEvent>) {
    && |run| == |events| + 1
    && Init(run[0].cluster) && run[0].flight == {}
    && (forall i :: 0 <= i < |events| ==> NetEnabled(run[i], events[i]) && run[i + 1] == NetNext(run[i], events[i]))
  }

  /** The step loses a copy of the broadcast, or delivers it after its deadline by the clock of its addressee,
      and the addressee does not have the broadcast yet. */
  predicate Wastes(s: Net, e: NetEvent, id: string) {
    match e
    case Lose(p) => Carries(p, id) && (p.to, id) !in s.cluster.routes
    case Move(event) =>
      && event.Deliver? && Carries(event.packet, id) && (event.packet.to, id) !in s.cluster.routes
      && event.packet.to in s.cluster.clocks
      && event.packet.msg.trace.value.timeout < s.cluster.clocks[event.packet.to]
  }

  /** Other broadcasts may be lost or late, and so may copies for nodes that already have this one. */
  ghost predicate NothingWasted(run: seq<Net>, events: seq<NetEvent>, id: string)
    requires |run| == |events| + 1
  {
    forall i {:trigger events[i]} :: 0 <= i < |events| ==> !Wastes(run[i], events[i], id)
  }

  predicate Flood(c: Cluster, id: string) { id in c.ids && IsFlood(c.ids[id].original.service) }

  ghost predicate InFlight(s: Net, id: string, x: Address) {
    exists p :: p in s.flight && p.to == x && Carries(p, id)
  }

  /** x has the broadcast, or a copy of it is on its way to x. */
  ghost predicate Covered(s: Net, id: string, x: Address) {
    (x, id) in s.cluster.routes || InFlight(s, id, x)
  }

  ghost predicate InformedCovered(s: Net, id: string, p: Packet) {
    p.msg.trace.Some? && forall x :: x in p.msg.trace.value.informed ==> Covered(s, id, x)
  }

  ghost predicate LinksCovered(s: Net, id: string, a: Address)
    requires Flood(s.cluster, id) && (a, id) in s.cluster.routes && a in s.cluster.nodes
  {
    |s.cluster.routes[(a, id)]| < MAX_HOPS ==>
      forall x :: Linked(s.cluster.nodes[a].connections, s.cluster.ids[id].original.service, x) ==> Covered(s, id, x)
  }

  /** As long as no copy was wasted: nobody is listed as informed without being covered, and the
      neighbors of every node that accepted it below the hop limit are covered. */
  ghost predicate Covering(s: Net, id: string) {
    && (forall p {:trigger InformedCovered(s, id, p)} ::
          p in s.cluster.sent && Carries(p, id) ==> InformedCovered(s, id, p))
    && (Flood(s.cluster, id) ==>
          forall a {:trigger LinksCovered(s, id, a)} ::
            (a, id) in s.cluster.routes && a in s.cluster.nodes ==> LinksCovered(s, id, a))
  }

  ghost predicate NetInv(s: Net) { Inv(s.cluster) && s.flight <= s.cluster.sent }

  // ---- one step ----

  lemma NetNextInv(s: Net, e: NetEvent)
    requires NetInv(s) && NetEnabled(s, e)
    ensures NetInv(NetNext(s, e))
  {
    if e.Move? {
      NextInv(s.cluster, e.event);
      NextKeeps(s.cluster, e.event);
    }
  }

  /** What no step takes back when connections are fixed. */
  ghost predicate Keeps(c: Cluster, c': Cluster) {
    && c.sent <= c'.sent && Grows(c, c')
    && (forall a :: a in c.clocks ==> a in c'.clocks && c.clocks[a] <= c'.clocks[a])
    && (forall a :: a in c.nodes ==> c'.nodes[a].connections == c.nodes[a].connections)
  }

  lemma HandleKeeps(c: Cluster, a: Address, m: Message, route: seq<Address>)
    requires Inv(c) && Arrives(c, a, m, route)
    ensures Keeps(c, Handle(c, a, m, route))
  {
    hide Handle, Process, GoodCopy, FreshTargets, AllLinks, NewPackets, Inv;
    var f := HandleShape(c, a, m, route);
    HandleGrows(c, Handle(c, a, m, route), a, m, route, f);
  }

  lemma NextKeeps(c: Cluster, e: Event)
    requires Inv(c) && Enabled(c, e) && !e.Reconnect?
    ensures Keeps(c, Next(c, e))
  {
    hide Handle, Process;
    match e
    case Tick(a, now) => QuietGrows(c, Next(c, e));
    case Originate(a, m) => HandleKeeps(c, a, m, []);
    case Deliver(p) =>
      assert GoodPacket(c, p);
      HandleKeeps(c, p.to, p.msg, p.route);
  }

  /** A flood copy that is not wasted is accepted, unless its addressee already has the broadcast. */
  lemma ArrivalCovers(s: Net, p: Packet, id: string)
    requires NetInv(s) && NetEnabled(s, Move(Deliver(p))) && Flood(s.cluster, id) && Carries(p, id)
    requires !Wastes(s, Move(Deliver(p)), id)
    ensures (p.to, id) in Next(s.cluster, Deliver(p)).routes
  {
    var c := s.cluster;
    assert GoodPacket(c, p);
    assert GoodId(c, id);
    assert GoodReceipt(c, p.to, id);
    if (p.to, id) in c.routes {
      NextKeeps(c, Deliver(p));
    } else {
      assert !Stale(c.nodes[p.to], p.msg.trace, c.clocks[p.to]);
      assert !Contradictory(c.nodes[p.to], p.msg);
      assert Accepted(Process(c.nodes[p.to], p.msg, c.clocks[p.to]).1);
    }
  }

  lemma CoveredLasts(s: Net, e: Event, id: string, x: Address)
    requires NetInv(s) && NetEnabled(s, Move(e)) && Flood(s.cluster, id) && !Wastes(s, Move(e), id)
    requires Covered(s, id, x)
    ensures Covered(NetNext(s, Move(e)), id, x)
  {
    hide Handle, Process, Wastes;
    var s' := NetNext(s, Move(e));
    NextKeeps(s.cluster, e);
    if (x, id) !in s.cluster.routes {
      var p :| p in s.flight && p.to == x && Carries(p, id);
      if e.Deliver? && e.packet == p {
        ArrivalCovers(s, p, id);
      } else {
        assert p in s'.flight;
      }
    }
  }

  /** A step that handles message m at node a. */
  predicate Handling(e: Event, a: Address, m: Message, route: seq<Address>) {
    (e == Originate(a, m) && route == []) || (e.Deliver? && e.packet == Packet(route, a, m))
  }

  /** The copy made for a target is new, hence in flight. */
  lemma TargetCovered(s: Net, e: Event, a: Address, m: Message, route: seq<Address>, f: Effect, id: string, x: Address)
    requires NetInv(s) && NetEnabled(s, Move(e)) && IdOf(m, f) == Some(id)
    requires Shape(s.cluster, Next(s.cluster, e), a, m, route, f) && Grows(s.cluster, Next(s.cluster, e))
    requires HasTarget(s.cluster.nodes[a].connections, f.targets, x)
    ensures InFlight(NetNext(s, Move(e)), id, x)
  {
    hide Process, Handle, Next, GoodCopy, FreshTargets, AllLinks, GoodPacket;
    var c, c' := s.cluster, Next(s.cluster, e);
    var conns := c.nodes[a].connections;
    var j :| 0 <= j < |f.targets| && f.targets[j] < |conns| && !conns[f.targets[j]].Other?
             && conns[f.targets[j]].address == x;
    var q := Packet(route + [a], x, f.copy.value);
    assert q in NewPackets(c.nodes[a], route + [a], f);
    NewPacketGood(c, c', a, m, route, f, q);
    NewPacketUnsent(c, c', a, m, route, f, q);
    assert q in NetNext(s, Move(e)).flight && Carries(q, id);
  }

  lemma NewPacketUnsent(c: Cluster, c': Cluster, a: Address, m: Message, route: seq<Address>, f: Effect, q: Packet)
    requires Inv(c) && Shape(c, c', a, m, route, f) && Grows(c, c')
    requires q in NewPackets(c.nodes[a], route + [a], f)
    ensures q !in c.sent
  {
    NewPacketGood(c, c', a, m, route, f, q);
    assert SameLink(q, q);
    if q in c.sent {
      NewPacketNewLink(c, c', a, m, route, f, q, q);
    }
  }

  /** Everyone the handled message lists, the handling node and those it sends to end up covered. */
  lemma NewlyCovered(s: Net, e: Event, a: Address, m: Message, route: seq<Address>, f: Effect, id: string, x: Address)
    requires NetInv(s) && NetEnabled(s, Move(e)) && Handling(e, a, m, route)
    requires Shape(s.cluster, Next(s.cluster, e), a, m, route, f) && Accepted(f) && IdOf(m, f) == Some(id)
    requires Flood(Next(s.cluster, e), id) && !Wastes(s, Move(e), id) && Covering(s, id)
    requires x in Informed(m) || x == a || HasTarget(s.cluster.nodes[a].connections, f.targets, x)
    ensures Covered(NetNext(s, Move(e)), id, x)
  {
    NextKeeps(s.cluster, e);
    if x == a {
    } else if x in Informed(m) {
      assert GoodPacket(s.cluster, e.packet);
      assert InformedCovered(s, id, e.packet);
      CoveredLasts(s, e, id, x);
    } else {
      TargetCovered(s, e, a, m, route, f, id, x);
    }
  }

  lemma PacketsCovered(s: Net, e: Event, a: Address, m: Message, route: seq<Address>, f: Effect, id: string, p: Packet)
    requires NetInv(s) && NetEnabled(s, Move(e)) && Handling(e, a, m, route)
    requires Shape(s.cluster, Next(s.cluster, e), a, m, route, f)
    requires Flood(Next(s.cluster, e), id) && !Wastes(s, Move(e), id) && Covering(s, id)
    requires p in Next(s.cluster, e).sent && Carries(p, id)
    ensures InformedCovered(NetNext(s, Move(e)), id, p)
  {
    hide Process, Handle, Next;
    NextKeeps(s.cluster, e);
    if p in s.cluster.sent {
      assert GoodPacket(s.cluster, p);
      assert InformedCovered(s, id, p);
      forall x | x in p.msg.trace.value.informed
        ensures Covered(NetNext(s, Move(e)), id, x)
      {
        CoveredLasts(s, e, id, x);
      }
    } else {
      NewPacketGood(s.cluster, Next(s.cluster, e), a, m, route, f, p);
      forall x | x in p.msg.trace.value.informed
        ensures Covered(NetNext(s, Move(e)), id, x)
      {
        NewlyCovered(s, e, a, m, route, f, id, x);
      }
    }
  }

  /** The node that just accepted the flood. */
  lemma NewNodeCovered(s: Net, e: Event, a: Address, m: Message, route: seq<Address>, f: Effect, id: string)
    requires NetInv(s) && NetEnabled(s, Move(e)) && Handling(e, a, m, route)
    requires Shape(s.cluster, Next(s.cluster, e), a, m, route, f)
    requires f == Process(s.cluster.nodes[a], m, s.cluster.clocks[a]).1
    requires Flood(Next(s.cluster, e), id) && !Wastes(s, Move(e), id) && Covering(s, id)
    requires Accepted(f) && IdOf(m, f) == Some(id)
    requires (a, id) in Next(s.cluster, e).routes && a in Next(s.cluster, e).nodes
    ensures LinksCovered(NetNext(s, Move(e)), id, a)
  {
    hide Process, Handle, Next, GoodCopy, FreshTargets, AllLinks, NewPackets, Inv, Covering, GoodEntry;
    var c, c' := s.cluster, Next(s.cluster, e);
    NextKeeps(c, e);
    AcceptedRoute(c, c', a, m, route, f);
    if |route| < MAX_HOPS {
      forall x | Linked(c'.nodes[a].connections, c'.ids[id].original.service, x)
        ensures Covered(NetNext(s, Move(e)), id, x)
      {
        FloodReachesLinks(c.nodes[a], m, c.clocks[a], x);
        NewlyCovered(s, e, a, m, route, f, id, x);
      }
    }
  }

  /** A node that had accepted the flood before. */
  lemma OldNodeCovered(s: Net, e: Event, id: string, b: Address)
    requires NetInv(s) && NetEnabled(s, Move(e))
    requires Flood(Next(s.cluster, e), id) && !Wastes(s, Move(e), id) && Covering(s, id)
    requires (b, id) in s.cluster.routes && (b, id) in Next(s.cluster, e).routes && b in Next(s.cluster, e).nodes
    requires Next(s.cluster, e).routes[(b, id)] == s.cluster.routes[(b, id)]
    ensures LinksCovered(NetNext(s, Move(e)), id, b)
  {
    hide Process, Handle, Next;
    var c, c' := s.cluster, Next(s.cluster, e);
    NextKeeps(c, e);
    RoutedIsRetired(c, b, id);
    assert LinksCovered(s, id, b);
    if |c.routes[(b, id)]| < MAX_HOPS {
      forall x | Linked(c'.nodes[b].connections, c'.ids[id].original.service, x)
        ensures Covered(NetNext(s, Move(e)), id, x)
      {
        CoveredLasts(s, e, id, x);
      }
    }
  }

  lemma CoveringHandle(s: Net, e: Event, a: Address, m: Message, route: seq<Address>, id: string)
    requires NetInv(s) && NetEnabled(s, Move(e)) && Handling(e, a, m, route) && Arrives(s.cluster, a, m, route)
    requires Next(s.cluster, e) == Handle(s.cluster, a, m, route)
    requires Flood(Next(s.cluster, e), id) && !Wastes(s, Move(e), id) && Covering(s, id)
    ensures Covering(NetNext(s, Move(e)), id)
  {
    hide Process, Handle, Next, NodeChange, Sending, Inv, LinksCovered;
    var f := HandleShape(s.cluster, a, m, route);
    var c' := Next(s.cluster, e);
    HandleGrows(s.cluster, c', a, m, route, f);
    forall p | p in c'.sent && Carries(p, id)
      ensures InformedCovered(NetNext(s, Move(e)), id, p)
    {
      PacketsCovered(s, e, a, m, route, f, id, p);
    }
    forall b | (b, id) in c'.routes && b in c'.nodes
      ensures LinksCovered(NetNext(s, Move(e)), id, b)
    {
      if Accepted(f) && IdOf(m, f) == Some(id) && b == a {
        NewNodeCovered(s, e, a, m, route, f, id);
      } else {
        OldNodeCovered(s, e, id, b);
      }
    }
  }

  lemma CoveringTick(s: Net, a: Address, now: int, id: string)
    requires NetEnabled(s, Move(Tick(a, now))) && Covering(s, id)
    ensures Covering(NetNext(s, Move(Tick(a, now))), id)
  {
    var s' := NetNext(s, Move(Tick(a, now)));
    assert s'.flight == s.flight;
    assert forall x :: InFlight(s, id, x) ==> InFlight(s', id, x);
    assert forall x :: Covered(s, id, x) ==> Covered(s', id, x);
    forall p | p in s'.cluster.sent && Carries(p, id)
      ensures InformedCovered(s', id, p)
    {
      assert InformedCovered(s, id, p);
    }
    if Flood(s'.cluster, id) {
      forall b | (b, id) in s'.cluster.routes && b in s'.cluster.nodes
        ensures LinksCovered(s', id, b)
      {
        assert LinksCovered(s, id, b);
      }
    }
  }

  /** Nothing is known of an identifier that was not given yet. */
  lemma UnknownId(s: Net, id: string)
    requires NetInv(s) && id !in s.cluster.ids
    ensures Covering(s, id)
  {
    forall p | p in s.cluster.sent
      ensures !Carries(p, id)
    {
      assert GoodPacket(s.cluster, p);
    }
  }

  lemma CoveringNext(s: Net, e: Event, id: string)
    requires NetInv(s) && NetEnabled(s, Move(e)) && Covering(s, id)
    requires Flood(Next(s.cluster, e), id) && !Wastes(s, Move(e), id)
    ensures Covering(NetNext(s, Move(e)), id)
  {
    hide Process, Handle, Covering;
    match e
    case Tick(a, now) => CoveringTick(s, a, now, id);
    case Originate(a, m) => CoveringHandle(s, e, a, m, [], id);
    case Deliver(p) =>
      assert GoodPacket(s.cluster, p);
      CoveringHandle(s, e, p.to, p.msg, p.route, id);
  }

  /** A copy that is lost without being wasted was on its way to a node that has the broadcast. */
  lemma CoveringLose(s: Net, p: Packet, id: string)
    requires NetEnabled(s, Lose(p)) && !Wastes(s, Lose(p), id) && Covering(s, id)
    ensures Covering(NetNext(s, Lose(p)), id)
  {
    var s' := NetNext(s, Lose(p));
    forall x | Covered(s, id, x)
      ensures Covered(s', id, x)
    {
      if (x, id) !in s.cluster.routes {
        var q :| q in s.flight && q.to == x && Carries(q, id);
        assert q in s'.flight;
      }
    }
    forall q | q in s'.cluster.sent && Carries(q, id)
      ensures InformedCovered(s', id, q)
    {
      assert InformedCovered(s, id, q);
    }
    if Flood(s'.cluster, id) {
      forall b | (b, id) in s'.cluster.routes && b in s'.cluster.nodes
        ensures LinksCovered(s', id, b)
      {
        assert LinksCovered(s, id, b);
      }
    }
  }

  // ---- runs ----

  lemma {:induction false} NetRunInv(run: seq<Net>, events: seq<NetEvent>)
    requires NetRun(run, events)
    ensures NetInv(run[|events|])
    decreases |events|
  {
    if events != [] {
      var k := |events| - 1;
      NetRunInv(run[..k + 1], events[..k]);
      NetNextInv(run[k], events[k]);
    }
  }

  lemma {:induction false} CoveringRun(run: seq<Net>, events: seq<NetEvent>, id: string)
    requires NetRun(run, events) && NothingWasted(run, events, id) && Flood(run[|events|].cluster, id)
    ensures Covering(run[|events|], id)
    decreases |events|
  {
    hide Process, Handle, Next, Covering, Inv, Wastes;
    if events != [] {
      var k := |events| - 1;
      NetRunInv(run[..k + 1], events[..k]);
      assert run[k + 1] == NetNext(run[k], events[k]) && !Wastes(run[k], events[k], id);
      if events[k].Lose? {
        CoveringRun(run[..k + 1], events[..k], id);
        CoveringLose(run[k], events[k].packet, id);
      } else {
        NextKeeps(run[k].cluster, events[k].event);
        if id in run[k].cluster.ids {
          CoveringRun(run[..k + 1], events[..k], id);
        } else {
          UnknownId(run[k], id);
        }
        CoveringNext(run[k], events[k].event, id);
      }
    }
  }

  // ---- what the local services get ----

  /** The flood was sent to every local service of x that understands it, once, and to no other connection. */
  ghost predicate ServedOnce(c: Cluster, id: string, x: Address)
    requires id in c.ids
  {
    x in c.nodes &&
    forall i: nat :: c.given[(x, id, i)] ==
      if i < |c.nodes[x].connections| && Understands(c.nodes[x].connections[i], c.ids[id].original.command) then 1
      else 0
  }

  ghost predicate Served(c: Cluster) {
    forall a, id {:trigger Retired(c, a, id)} :: (a, id) in c.routes && Flood(c, id) ==> ServedOnce(c, id, a)
  }

  lemma ServedHandle(s: Net, e: Event, a: Address, m: Message, route: seq<Address>, b: Address, id: string)
    requires NetInv(s) && Served(s.cluster) && NetEnabled(s, Move(e)) && Handling(e, a, m, route)
    requires Arrives(s.cluster, a, m, route) && Next(s.cluster, e) == Handle(s.cluster, a, m, route)
    requires (b, id) in Next(s.cluster, e).routes && Flood(Next(s.cluster, e), id)
    ensures ServedOnce(Next(s.cluster, e), id, b)
  {
    hide Process, Handle, Next, GoodCopy, FreshTargets, AllLinks, NewPackets, Sends, Inv, ServedOnce, GoodEntry;
    var c, c' := s.cluster, Next(s.cluster, e);
    var f := HandleShape(c, a, m, route);
    HandleGrows(c, c', a, m, route, f);
    if Accepted(f) && IdOf(m, f).Some? {
      AcceptedIsNew(c, c', a, m, route, f);
    }
    if Accepted(f) && IdOf(m, f) == Some(id) && b == a {
      AcceptedRoute(c, c', a, m, route, f);
      NewlyServed(c, c', a, m, route, f, id);
    } else {
      StillServed(c, c', a, m, route, f, b, id);
    }
  }

  lemma StillServed(c: Cluster, c': Cluster, a: Address, m: Message, route: seq<Address>, f: Effect,
                    b: Address, id: string)
    requires Inv(c) && Served(c) && Shape(c, c', a, m, route, f) && Grows(c, c')
    requires !(Accepted(f) && IdOf(m, f) == Some(id) && b == a)
    requires (b, id) in c'.routes && Flood(c', id)
    ensures ServedOnce(c', id, b)
  {
    hide Process, GoodCopy, FreshTargets, AllLinks, NewPackets, Sends;
    hide GoodPackets, OneCopyPerLink, GoodReceived, GoodIds;
    RoutedIsRetired(c, b, id);
    assert ServedOnce(c, id, b);
    forall i: nat
      ensures c'.given[(b, id, i)] == c.given[(b, id, i)]
    {
      if Accepted(f) && IdOf(m, f).Some? {
        SendsCount(a, IdOf(m, f).value, f.locals, b, id, i);
      }
    }
  }

  lemma NewlyServed(c: Cluster, c': Cluster, a: Address, m: Message, route: seq<Address>, f: Effect, id: string)
    requires Inv(c) && Shape(c, c', a, m, route, f) && Accepted(f) && IdOf(m, f) == Some(id) && (a, id) !in c.routes
    requires Flood(c', id) && m.command == c'.ids[id].original.command && m.service == c'.ids[id].original.service
    ensures ServedOnce(c', id, a)
  {
    hide Process, GoodCopy, FreshTargets, AllLinks, NewPackets, Sends;
    forall i: nat
      ensures c'.given[(a, id, i)] ==
        if i < |c'.nodes[a].connections| && Understands(c'.nodes[a].connections[i], m.command) then 1 else 0
    {
      assert Once(c, a, id, i);
      SendsCount(a, id, f.locals, a, id, i);
    }
  }

  lemma ServedNext(s: Net, e: NetEvent)
    requires NetInv(s) && Served(s.cluster) && NetEnabled(s, e)
    ensures Served(NetNext(s, e).cluster)
  {
    hide Process, Handle, ServedOnce;
    var c' := NetNext(s, e).cluster;
    if e.Move? {
      forall a, id | (a, id) in c'.routes && Flood(c', id)
        ensures ServedOnce(c', id, a)
      {
        match e.event
        case Tick(b, now) => ServedTick(s.cluster, b, now, a, id);
        case Originate(b, m) => ServedHandle(s, e.event, b, m, [], a, id);
        case Deliver(p) =>
          assert GoodPacket(s.cluster, p);
          ServedHandle(s, e.event, p.to, p.msg, p.route, a, id);
      }
    }
  }

  lemma ServedTick(c: Cluster, b: Address, now: int, a: Address, id: string)
    requires Enabled(c, Tick(b, now)) && Served(c) && (a, id) in c.routes && Flood(c, id)
    ensures ServedOnce(Next(c, Tick(b, now)), id, a)
  {
    assert Retired(c, a, id) || !Retired(c, a, id);
  }

  lemma {:induction false} ServedRun(run: seq<Net>, events: seq<NetEvent>)
    requires NetRun(run, events)
    ensures Served(run[|events|].cluster)
    decreases |events|
  {
    hide Process, Handle, Next, Inv, Served;
    if events == [] {
      NothingServed(run[0].cluster);
    } else {
      var k := |events| - 1;
      ServedRun(run[..k + 1], events[..k]);
      NetRunInv(run[..k + 1], events[..k]);
      ServedNext(run[k], events[k]);
    }
  }

  lemma NothingServed(c: Cluster)
    requires Init(c)
    ensures Served(c)
  {
  }

  ghost predicate Quiescent(s: Net, id: string) {
    forall x :: !InFlight(s, id, x)
  }

  predicate Reached(s: Net, id: string, a: Address) { (a, id) in s.cluster.routes }

  /** When no copy is wasted: once nothing is in flight, the neighbors of every node that
      accepted the flood below the hop limit have it too, and their services were given it once. */
  lemma ClosedUnderLinks(run: seq<Net>, events: seq<NetEvent>, id: string, a: Address, x: Address)
    requires NetRun(run, events) && NothingWasted(run, events, id)
    requires var s := run[|events|];
             && Flood(s.cluster, id) && Quiescent(s, id)
             && Reached(s, id, a) && |s.cluster.routes[(a, id)]| < MAX_HOPS && a in s.cluster.nodes
             && Linked(s.cluster.nodes[a].connections, s.cluster.ids[id].original.service, x)
    ensures Reached(run[|events|], id, x) && ServedOnce(run[|events|].cluster, id, x)
  {
    var s := run[|events|];
    CoveringRun(run, events, id);
    assert LinksCovered(s, id, a);
    assert Covered(s, id, x);
    ServedRun(run, events);
    NetRunInv(run, events);
    RoutedIsRetired(s.cluster, x, id);
  }

  /** A path along which a flood with this service can travel. */
  predicate LinkPath(c: Cluster, service: string, path: seq<Address>) {
    && (forall i :: 0 <= i < |path| ==> path[i] in c.nodes)
    && (forall i :: 0 <= i < |path| - 1 ==> Linked(c.nodes[path[i]].connections, service, path[i + 1]))
  }

  ghost predicate Connected(c: Cluster, service: string, a: Address, b: Address) {
    exists path :: |path| > 0 && path[0] == a && path[|path| - 1] == b && LinkPath(c, service, path)
  }

  lemma {:induction false} PathReached(run: seq<Net>, events: seq<NetEvent>, id: string, path: seq<Address>)
    requires NetRun(run, events) && NothingWasted(run, events, id)
    requires var s := run[|events|];
             && Flood(s.cluster, id) && Quiescent(s, id)
             && |path| > 0 && Reached(s, id, path[0])
             && LinkPath(s.cluster, s.cluster.ids[id].original.service, path)
             && (forall a :: Reached(s, id, a) ==> |s.cluster.routes[(a, id)]| < MAX_HOPS)
    ensures Reached(run[|events|], id, path[|path| - 1])
    decreases |path|
  {
    if |path| > 1 {
      var k := |path| - 1;
      PathReached(run, events, id, path[..k]);
      ClosedUnderLinks(run, events, id, path[k - 1], path[k]);
    }
  }

  /** In a cluster of at most six nodes a copy with five hops has visited everyone. */
  lemma FiveHopsIsEveryone(c: Cluster, id: string, a: Address, b: Address)
    requires Inv(c) && |c.nodes| <= MAX_HOPS + 1 && a in c.nodes && b in c.nodes
    requires (a, id) in c.routes && |c.routes[(a, id)]| >= MAX_HOPS
    ensures (b, id) in c.routes
  {
    var route := c.routes[(a, id)];
    assert GoodEntry(c, a, id, route);
    var visited := Members(route) + {a};
    forall x | x in visited
      ensures x in c.nodes && (x, id) in c.routes
    {
      RoutedIsRetired(c, x, id);
    }
    DistinctMembers(route);
    EveryoneVisited(visited, c.nodes.Keys, b);
  }

  lemma EveryoneVisited(visited: set<Address>, all: set<Address>, b: Address)
    requires visited <= all && |visited| >= |all| && b in all
    ensures b in visited
  {
    if b !in visited {
      SubsetSize(visited + {b}, all);
    }
  }

  /** Exactly once: in a connected cluster of at most six nodes, when no copy is wasted, the
      services of every node have been given the flood exactly once when nothing is in flight. */
  lemma SmallClusterFullyReached(run: seq<Net>, events: seq<NetEvent>, id: string, b: Address)
    requires NetRun(run, events) && NothingWasted(run, events, id)
    requires var s := run[|events|];
             && Flood(s.cluster, id) && Quiescent(s, id)
             && |s.cluster.nodes| <= MAX_HOPS + 1 && b in s.cluster.nodes
             && Connected(s.cluster, s.cluster.ids[id].original.service, s.cluster.ids[id].at, b)
    ensures Reached(run[|events|], id, b) && ServedOnce(run[|events|].cluster, id, b)
  {
    var s := run[|events|];
    NetRunInv(run, events);
    var c := s.cluster;
    assert GoodId(c, id);
    if a :| Reached(s, id, a) && |c.routes[(a, id)]| >= MAX_HOPS {
      RoutedIsRetired(c, a, id);
      FiveHopsIsEveryone(c, id, a, b);
    } else {
      var path :| |path| > 0 && path[0] == c.ids[id].at && path[|path| - 1] == b
                  && LinkPath(c, c.ids[id].original.service, path);
      PathReached(run, events, id, path);
    }
    ServedRun(run, events);
    RoutedIsRetired(c, b, id);
  }
}
