/** A cluster of snapcommunicators over a network that may lose, delay, reorder and repeat messages. */
module Cluster {
  import opened Sequences
  import opened Messages
  import opened Handler
  import opened HandlerFacts

  /** One copy put on the wire: the nodes that forwarded it so far, the sender last. */
  datatype Packet = Packet(route: seq<Address>, to: Address, msg: Message)

  /** Where, with which content and with which deadline a broadcast started. */
  datatype Origin = Origin(at: Address, original: Message, due: int)

  /** `sent` keeps every packet for ever, so delivering one again models duplication.
      `ids`, `routes` and `given` are history: the broadcasts started, the route of the copy each node
      accepted, and how often a flood was sent to a connection of a node, by its index, as to a local service.
      A flood that never gets an identifier, for want of neighbors, is handled once and leaves no history. */
  datatype Cluster = Cluster(
    nodes: map<Address, Node>,
    clocks: map<Address, int>,
    sent: set<Packet>,
    ids: map<string, Origin>,
    routes: map<(Address, string), seq<Address>>,
    given: multiset<(Address, string, nat)>)

  datatype Event =
    | Tick(at: Address, now: int)
    | Originate(at: Address, msg: Message)
    | Deliver(packet: Packet)
    | Reconnect(at: Address, conns: seq<Connection>)

  predicate Enabled(c: Cluster, e: Event) {
    match e
    case Tick(a, now) => a in c.nodes && a in c.clocks && c.clocks[a] <= now
    case Originate(a, m) => a in c.nodes && a in c.clocks && m.trace.None?
    case Deliver(p) => p in c.sent && p.to in c.nodes && p.to in c.clocks
    case Reconnect(a, conns) => a in c.nodes && GoodConnections(c.nodes.Keys, a, conns)
  }

  /** A node's links lead to other nodes of the cluster. */
  predicate GoodConnections(all: set<Address>, a: Address, conns: seq<Connection>) {
    forall i :: 0 <= i < |conns| && Link(conns[i]) ==> conns[i].address in all && conns[i].address != a
  }

  function NewPackets(n: Node, route: seq<Address>, e: Effect): set<Packet> {
    if e.copy.None? then {}
    else
      set j | 0 <= j < |e.targets| && e.targets[j] < |n.connections| && !n.connections[e.targets[j]].Other? ::
        Packet(route, n.connections[e.targets[j]].address, e.copy.value)
  }

  /** The broadcast identifier of a handled message, if it has one by the time it is handled. */
  function IdOf(m: Message, e: Effect): Option<string> {
    if m.trace.Some? then Some(m.trace.value.msgid)
    else if e.copy.Some? && e.copy.value.trace.Some? then Some(e.copy.value.trace.value.msgid)
    else None
  }

  /** One for each local service that node a sends the broadcast to. */
  function Sends(a: Address, id: string, locals: seq<nat>): multiset<(Address, string, nat)> {
    if locals == [] then multiset{}
    else Sends(a, id, locals[..|locals| - 1]) + multiset{(a, id, locals[|locals| - 1])}
  }

  lemma {:induction false} SendsCount(a: Address, id: string, locals: seq<nat>, b: Address, other: string, i: nat)
    requires forall j, k :: 0 <= j < k < |locals| ==> locals[j] != locals[k]
    ensures Sends(a, id, locals)[(b, other, i)] == if b == a && other == id && i in locals then 1 else 0
  {
    if locals != [] {
      var k := |locals| - 1;
      SendsCount(a, id, locals[..k], b, other, i);
      assert locals == locals[..k] + [locals[k]];
    }
  }

  /** Node a handles message m, which came along `route`. */
  function Handle(c: Cluster, a: Address, m: Message, route: seq<Address>): Cluster
    requires a in c.nodes && a in c.clocks
  {
    var (n', e) := Process(c.nodes[a], m, c.clocks[a]);
    var id := IdOf(m, e);
    var c1 := c.(nodes := c.nodes[a := n'], sent := c.sent + NewPackets(c.nodes[a], route + [a], e));
    if !Accepted(e) || id.None? then c1
    else
      c1.(ids := if m.trace.None? && e.copy.Some? && e.copy.value.trace.Some?
                 then c.ids[id.value := Origin(a, m, e.copy.value.trace.value.timeout)] else c.ids,
          routes := c.routes[(a, id.value) := route],
          given := c.given + Sends(a, id.value, e.locals))
  }

  function Next(c: Cluster, e: Event): Cluster
    requires Enabled(c, e)
  {
    match e
    case Tick(a, now) => c.(clocks := c.clocks[a := now])
    case Originate(a, m) => Handle(c, a, m, [])
    case Deliver(p) => Handle(c, p.to, p.msg, p.route)
    case Reconnect(a, conns) => c.(nodes := c.nodes[a := c.nodes[a].(connections := conns)])
  }

  ghost predicate Init(c: Cluster) {
    && c.sent == {} && c.ids == map[] && c.routes == map[] && c.given == multiset{}
    && WellFormed(c)
    && (forall a :: a in c.nodes ==> c.nodes[a].received == map[])
  }

  /** Unique server names, one address per node, clocks that start after the epoch. */
  ghost predicate WellFormed(c: Cluster) {
    && c.clocks.Keys == c.nodes.Keys
    && (forall a :: a in c.nodes ==> c.nodes[a].address == a && c.clocks[a] >= 0)
    && (forall a :: a in c.nodes ==> c.nodes[a].serverName != "" && c.nodes[a].serverName != "*")
    && (forall a :: a in c.nodes ==> GoodConnections(c.nodes.Keys, a, c.nodes[a].connections))
    && (forall a, b :: a in c.nodes && b in c.nodes && c.nodes[a].serverName == c.nodes[b].serverName ==> a == b)
  }

  ghost predicate Run(run: seq<Cluster>, events: seq<Event>) {
    && |run| == |events| + 1
    && Init(run[0])
    && (forall i :: 0 <= i < |events| ==> Enabled(run[i], events[i]) && run[i + 1] == Next(run[i], events[i]))
  }

  // ---- the invariant ----

  predicate IdFrom(n: Node, id: string) {
    exists k :: 1 <= k <= n.sequence && id == MessageId(n.serverName, k)
  }

  /** A broadcast in progress: its identifier names its originator, which is on record. */
  ghost predicate GoodId(c: Cluster, id: string)
    requires id in c.ids
  {
    var o := c.ids[id];
    && o.at in c.nodes && IdFrom(c.nodes[o.at], id)
    && o.original.trace.None? && o.due >= BROADCAST_LIFETIME
    && (IsFlood(o.original.service) ==> !Contradictory(c.nodes[o.at], o.original))
    && (o.at, id) in c.routes
  }

  ghost predicate GoodIds(c: Cluster) {
    forall id {:trigger GoodId(c, id)} :: id in c.ids ==> GoodId(c, id)
  }

  /** The node can never accept the identifier again: it remembers it, or its clock is past the deadline. */
  predicate Retired(c: Cluster, a: Address, id: string) {
    && id in c.ids && a in c.nodes && a in c.clocks
    && (a == c.ids[id].at || id in c.nodes[a].received || c.ids[id].due < c.clocks[a])
  }

  predicate Distinct(route: seq<Address>) {
    forall i, j :: 0 <= i < j < |route| ==> route[i] != route[j]
  }

  /** Every node on the route accepted the broadcast, the first one being its originator. */
  predicate GoodRoute(c: Cluster, route: seq<Address>, id: string) {
    && Distinct(route)
    && (forall i :: 0 <= i < |route| ==> (route[i], id) in c.routes)
    && id in c.ids
    && (route != [] ==> route[0] == c.ids[id].at)
  }

  /** What a copy on the wire says about its own past. */
  ghost predicate GoodPacket(c: Cluster, p: Packet) {
    && p.msg.trace.Some?
    && var t := p.msg.trace.value;
      && p.route != [] && GoodRoute(c, p.route, t.msgid)
      && p.to in c.nodes && p.to !in p.route
      && p.to in t.informed && (forall i :: 0 <= i < |p.route| ==> p.route[i] in t.informed)
      && t.hops == |p.route|
      && t.timeout == c.ids[t.msgid].due
      && p.msg.(trace := None) == c.ids[t.msgid].original
      && (IsFlood(p.msg.service) ==> t.hops <= MAX_HOPS)
  }

  ghost predicate GoodPackets(c: Cluster) {
    forall p {:trigger GoodPacket(c, p)} :: p in c.sent ==> GoodPacket(c, p)
  }

  predicate SameLink(p: Packet, q: Packet) {
    && p.route != [] && q.route != [] && p.msg.trace.Some? && q.msg.trace.Some?
    && p.msg.trace.value.msgid == q.msg.trace.value.msgid
    && p.route[|p.route| - 1] == q.route[|q.route| - 1]
    && p.to == q.to
  }

  ghost predicate OneCopyPerLink(c: Cluster) {
    forall p, q {:trigger SameLink(p, q)} :: p in c.sent && q in c.sent && SameLink(p, q) ==> p == q
  }

  ghost predicate GoodReceipt(c: Cluster, a: Address, id: string)
    requires a in c.nodes
  {
    id in c.nodes[a].received ==>
      id in c.ids && c.nodes[a].received[id] == c.ids[id].due && a != c.ids[id].at && (a, id) in c.routes
  }

  ghost predicate GoodReceived(c: Cluster) {
    forall a, id {:trigger GoodReceipt(c, a, id)} :: a in c.nodes ==> GoodReceipt(c, a, id)
  }

  ghost predicate GoodEntry(c: Cluster, a: Address, id: string, route: seq<Address>) {
    && Retired(c, a, id)
    && GoodRoute(c, route, id)
    && a !in route
    && (route == [] <==> a == c.ids[id].at)
    && (IsFlood(c.ids[id].original.service) ==> |route| <= MAX_HOPS)
  }

  ghost predicate GoodRoutes(c: Cluster) {
    forall a, id, route {:trigger GoodEntry(c, a, id, route)} ::
      (a, id) in c.routes && c.routes[(a, id)] == route ==> GoodEntry(c, a, id, route)
  }

  /** Floods are sent to the services of nodes that accepted them, once each. */
  predicate Once(c: Cluster, a: Address, id: string, i: nat) {
    c.given[(a, id, i)] == 0 || (c.given[(a, id, i)] == 1 && (a, id) in c.routes)
  }

  ghost predicate GivenOnce(c: Cluster) {
    forall a, id, i {:trigger Once(c, a, id, i)} :: Once(c, a, id, i)
  }

  ghost predicate Inv(c: Cluster) {
    && WellFormed(c) && GoodIds(c) && GoodPackets(c) && OneCopyPerLink(c)
    && GoodReceived(c) && GoodRoutes(c) && GivenOnce(c)
  }

  // ---- steps that handle no message ----

  /** What every step keeps: histories, sequences and clocks only grow, and retirement is for ever. */
  ghost predicate Grows(c: Cluster, c': Cluster) {
    && c'.nodes.Keys == c.nodes.Keys
    && (forall a :: a in c.nodes ==> c'.nodes[a].serverName == c.nodes[a].serverName
                                     && c'.nodes[a].sequence >= c.nodes[a].sequence)
    && (forall id :: id in c.ids ==> id in c'.ids && c'.ids[id] == c.ids[id])
    && (forall k :: k in c.routes ==> k in c'.routes)
    && (forall a, id {:trigger Retired(c', a, id)} :: Retired(c, a, id) ==> Retired(c', a, id))
  }

  lemma GrowsRoute(c: Cluster, c': Cluster, route: seq<Address>, id: string)
    requires Grows(c, c') && GoodRoute(c, route, id)
    ensures GoodRoute(c', route, id)
  {
  }

  lemma GrowsEntry(c: Cluster, c': Cluster, a: Address, id: string, route: seq<Address>)
    requires Grows(c, c') && GoodEntry(c, a, id, route)
    ensures GoodEntry(c', a, id, route)
  {
    GrowsRoute(c, c', route, id);
  }

  lemma GrowsPackets(c: Cluster, c': Cluster)
    requires Grows(c, c') && GoodPackets(c)
    ensures forall p :: p in c.sent ==> GoodPacket(c', p)
  {
    forall p | p in c.sent
      ensures GoodPacket(c', p)
    {
      assert GoodPacket(c, p);
    }
  }

  /** A step that only moves clocks or connections. */
  ghost predicate Quiet(c: Cluster, c': Cluster) {
    && c'.ids == c.ids && c'.routes == c.routes && c'.given == c.given && c'.sent == c.sent
    && c'.nodes.Keys == c.nodes.Keys && c'.clocks.Keys == c.clocks.Keys
    && (forall a :: a in c.clocks ==> c'.clocks[a] >= c.clocks[a])
    && (forall a :: a in c.nodes ==> c'.nodes[a] == c.nodes[a].(connections := c'.nodes[a].connections))
    && (forall a :: a in c.nodes ==> GoodConnections(c.nodes.Keys, a, c'.nodes[a].connections))
  }

  lemma QuietGrows(c: Cluster, c': Cluster)
    requires Quiet(c, c')
    ensures Grows(c, c')
  {
  }

  lemma QuietReceived(c: Cluster, c': Cluster)
    requires Quiet(c, c') && GoodReceived(c)
    ensures GoodReceived(c')
  {
    forall a, id | a in c'.nodes
      ensures GoodReceipt(c', a, id)
    {
      assert GoodReceipt(c, a, id);
    }
  }

  lemma QuietRoutes(c: Cluster, c': Cluster)
    requires Quiet(c, c') && Grows(c, c') && GoodRoutes(c)
    ensures GoodRoutes(c')
  {
    forall a, id, route | (a, id) in c'.routes && c'.routes[(a, id)] == route
      ensures GoodEntry(c', a, id, route)
    {
      assert GoodEntry(c, a, id, route);
      GrowsEntry(c, c', a, id, route);
    }
  }

  lemma QuietIds(c: Cluster, c': Cluster)
    requires Quiet(c, c') && Grows(c, c') && GoodIds(c)
    ensures GoodIds(c')
  {
    forall id | id in c'.ids
      ensures GoodId(c', id)
    {
      assert GoodId(c, id);
    }
  }

  lemma QuietInv(c: Cluster, c': Cluster)
    requires Inv(c) && Quiet(c, c')
    ensures Inv(c')
  {
    QuietGrows(c, c');
    QuietIds(c, c');
    QuietReceived(c, c');
    QuietRoutes(c, c');
    GrowsPackets(c, c');
    forall a, id, i: nat
      ensures Once(c', a, id, i)
    {
      assert Once(c, a, id, i);
    }
  }

  // ---- handling a message ----

  /** The message comes from outside, or is a packet addressed to a. */
  ghost predicate Arrives(c: Cluster, a: Address, m: Message, route: seq<Address>) {
    && a in c.nodes && a in c.clocks
    && ((m.trace.None? && route == []) || (m.trace.Some? && Packet(route, a, m) in c.sent))
  }

  predicate NodeChange(c: Cluster, c': Cluster, a: Address, m: Message, e: Effect)
    requires a in c.nodes && a in c.clocks && a in c'.nodes
  {
    && c'.clocks == c.clocks
    && c'.nodes == c.nodes[a := c'.nodes[a]]
    && var n, n' := c.nodes[a], c'.nodes[a];
      && n'.serverName == n.serverName && n'.address == n.address && n'.connections == n.connections
      && n'.sequence == n.sequence + (if e.copy.Some? then 1 else 0)
      && (Accepted(e) ==> !Stale(n, m.trace, c.clocks[a]))
      && n'.received == (if Accepted(e) && m.trace.Some?
                         then Purge(n.received, c.clocks[a])[m.trace.value.msgid := m.trace.value.timeout]
                         else n.received)
  }

  ghost predicate Sending(c: Cluster, c': Cluster, a: Address, m: Message, route: seq<Address>, e: Effect)
    requires a in c.nodes && a in c.clocks
  {
    var n := c.nodes[a];
    && FreshTargets(n.connections, e.targets, Informed(m))
    && AllLinks(n.connections, e.targets)
    && LocalSends(n, m, e)
    && (e.copy.Some? <==> e.targets != [])
    && (e.copy.Some? ==> Accepted(e))
    && (e.copy.Some? ==> GoodCopy(n, m, c.clocks[a], e.targets, e.copy.value))
    && (e.copy.Some? && IsFlood(m.service) ==> Hops(m) < MAX_HOPS && !Contradictory(n, m))
    && c'.sent == c.sent + NewPackets(n, route + [a], e)
  }

  predicate History(c: Cluster, c': Cluster, a: Address, m: Message, route: seq<Address>, e: Effect) {
    var id := IdOf(m, e);
    if !Accepted(e) || id.None? then c'.ids == c.ids && c'.routes == c.routes && c'.given == c.given
    else
      && c'.ids == (if m.trace.None? && e.copy.Some? && e.copy.value.trace.Some?
                    then c.ids[id.value := Origin(a, m, e.copy.value.trace.value.timeout)] else c.ids)
      && c'.routes == c.routes[(a, id.value) := route]
      && c'.given == c.given + Sends(a, id.value, e.locals)
  }

  /** Everything the invariant needs to know about one handled message. */
  ghost predicate Shape(c: Cluster, c': Cluster, a: Address, m: Message, route: seq<Address>, e: Effect) {
    && Arrives(c, a, m, route) && a in c'.nodes
    && NodeChange(c, c', a, m, e)
    && Sending(c, c', a, m, route, e)
    && History(c, c', a, m, route, e)
  }

  lemma HandleShape(c: Cluster, a: Address, m: Message, route: seq<Address>) returns (e: Effect)
    requires Arrives(c, a, m, route)
    ensures Shape(c, Handle(c, a, m, route), a, m, route, e)
    ensures e == Process(c.nodes[a], m, c.clocks[a]).1
  {
    e := Process(c.nodes[a], m, c.clocks[a]).1;
    ProcessKeeps(c.nodes[a], m, c.clocks[a]);
    ProcessSends(c.nodes[a], m, c.clocks[a]);
    ProcessLocals(c.nodes[a], m, c.clocks[a]);
  }

  /** A broadcast that starts here gets an identifier nobody has used. */
  lemma NewIdIsFresh(c: Cluster, a: Address, id: string)
    requires WellFormed(c) && GoodIds(c)
    requires a in c.nodes && id == MessageId(c.nodes[a].serverName, c.nodes[a].sequence + 1)
    ensures id !in c.ids
  {
    if id in c.ids {
      assert GoodId(c, id);
      var n := c.nodes[c.ids[id].at];
      var k :| 1 <= k <= n.sequence && id == MessageId(n.serverName, k);
      MessageIdInjective(n.serverName, k, c.nodes[a].serverName, c.nodes[a].sequence + 1);
    }
  }

  lemma RoutedIsRetired(c: Cluster, a: Address, id: string)
    requires GoodRoutes(c)
    ensures (a, id) in c.routes ==> Retired(c, a, id)
  {
    if (a, id) in c.routes {
      assert GoodEntry(c, a, id, c.routes[(a, id)]);
    }
  }

  /** A message accepted at a: nobody had routed it through a before. */
  lemma AcceptedIsNew(c: Cluster, c': Cluster, a: Address, m: Message, route: seq<Address>, e: Effect)
    requires Inv(c) && Shape(c, c', a, m, route, e) && Accepted(e) && IdOf(m, e).Some?
    ensures (a, IdOf(m, e).value) !in c.routes
    ensures m.trace.None? ==> IdOf(m, e).value !in c.ids
    ensures m.trace.Some? ==> GoodPacket(c, Packet(route, a, m)) && !Retired(c, a, m.trace.value.msgid)
  {
    var id := IdOf(m, e).value;
    if m.trace.None? {
      NewIdIsFresh(c, a, id);
    } else {
      var p := Packet(route, a, m);
      assert GoodPacket(c, p);
      assert a != c.ids[id].at;
    }
    RoutedIsRetired(c, a, id);
  }

  lemma RetirementLasts(c: Cluster, c': Cluster, a: Address, m: Message, e: Effect, b: Address, id: string)
    requires WellFormed(c) && GoodReceived(c) && Retired(c, b, id)
    requires a in c.nodes && a in c'.nodes && NodeChange(c, c', a, m, e)
    requires id in c'.ids && c'.ids[id] == c.ids[id]
    ensures Retired(c', b, id)
  {
    assert GoodReceipt(c, b, id);
  }

  lemma HistoryGrows(c: Cluster, c': Cluster, a: Address, m: Message, route: seq<Address>, e: Effect)
    requires History(c, c', a, m, route, e)
    requires m.trace.None? && Accepted(e) && IdOf(m, e).Some? ==> IdOf(m, e).value !in c.ids
    ensures forall id :: id in c.ids ==> id in c'.ids && c'.ids[id] == c.ids[id]
    ensures forall k :: k in c.routes ==> k in c'.routes
  {
  }

  lemma HandleGrows(c: Cluster, c': Cluster, a: Address, m: Message, route: seq<Address>, e: Effect)
    requires Inv(c) && Shape(c, c', a, m, route, e)
    ensures Grows(c, c')
  {
    if Accepted(e) && IdOf(m, e).Some? {
      AcceptedIsNew(c, c', a, m, route, e);
    }
    HistoryGrows(c, c', a, m, route, e);
    forall b, id | Retired(c, b, id)
      ensures Retired(c', b, id)
    {
      RetirementLasts(c, c', a, m, e, b, id);
    }
  }

  lemma HandleWellFormed(c: Cluster, c': Cluster, a: Address, m: Message, e: Effect)
    requires WellFormed(c) && a in c.nodes && a in c'.nodes && NodeChange(c, c', a, m, e)
    ensures WellFormed(c')
  {
    assert c'.nodes.Keys == c.nodes.Keys;
    assert forall b :: b in c.nodes ==>
      && c'.nodes[b].serverName == c.nodes[b].serverName
      && c'.nodes[b].address == c.nodes[b].address
      && c'.nodes[b].connections == c.nodes[b].connections;
  }

  lemma HandleIds(c: Cluster, c': Cluster, a: Address, m: Message, route: seq<Address>, e: Effect)
    requires WellFormed(c) && GoodIds(c) && Shape(c, c', a, m, route, e) && Grows(c, c')
    ensures GoodIds(c')
  {
    forall id | id in c'.ids
      ensures GoodId(c', id)
    {
      if id in c.ids {
        assert GoodId(c, id);
      } else {
        NewIdGood(c, c', a, m, route, e, id);
      }
    }
  }

  lemma NewIdGood(c: Cluster, c': Cluster, a: Address, m: Message, route: seq<Address>, e: Effect, id: string)
    requires Shape(c, c', a, m, route, e) && id !in c.ids && id in c'.ids && c.clocks[a] >= 0
    ensures GoodId(c', id)
  {
    assert id == MessageId(c.nodes[a].serverName, c.nodes[a].sequence + 1);
    assert 1 <= c.nodes[a].sequence + 1 <= c'.nodes[a].sequence;
  }

  lemma ReceivedFrom(c: Cluster, c': Cluster, a: Address, m: Message, e: Effect)
    requires GoodReceived(c) && a in c.nodes && a in c.clocks && a in c'.nodes && NodeChange(c, c', a, m, e)
    requires Grows(c, c')
    requires Accepted(e) && m.trace.Some? ==>
               && m.trace.value.msgid in c.ids && m.trace.value.timeout == c.ids[m.trace.value.msgid].due
               && a != c.ids[m.trace.value.msgid].at && (a, m.trace.value.msgid) in c'.routes
    ensures GoodReceived(c')
  {
    forall b, id | b in c'.nodes
      ensures GoodReceipt(c', b, id)
    {
      assert GoodReceipt(c, b, id);
    }
  }

  lemma HandleReceived(c: Cluster, c': Cluster, a: Address, m: Message, route: seq<Address>, e: Effect)
    requires Inv(c) && Shape(c, c', a, m, route, e) && Grows(c, c')
    ensures GoodReceived(c')
  {
    if Accepted(e) && m.trace.Some? {
      AcceptedIsNew(c, c', a, m, route, e);
    }
    ReceivedFrom(c, c', a, m, e);
  }

  /** The route a node records for the copy it accepts. */
  lemma AcceptedRoute(c: Cluster, c': Cluster, a: Address, m: Message, route: seq<Address>, e: Effect)
    requires Inv(c) && Shape(c, c', a, m, route, e) && Grows(c, c') && Accepted(e) && IdOf(m, e).Some?
    ensures var id := IdOf(m, e).value;
            && (a, id) in c'.routes && c'.routes[(a, id)] == route
            && GoodEntry(c', a, id, route)
            && c'.ids[id].original == m.(trace := None)
            && |route| == Hops(m)
  {
    AcceptedIsNew(c, c', a, m, route, e);
    if m.trace.Some? {
      GrowsRoute(c, c', route, m.trace.value.msgid);
    }
  }

  lemma OldEntry(c: Cluster, c': Cluster, a: Address, m: Message, route: seq<Address>, e: Effect,
                 b: Address, id: string, r: seq<Address>)
    requires GoodRoutes(c) && History(c, c', a, m, route, e) && Grows(c, c')
    requires (b, id) in c'.routes && c'.routes[(b, id)] == r && !(IdOf(m, e) == Some(id) && b == a && Accepted(e))
    ensures GoodEntry(c', b, id, r)
  {
    hide GoodEntry, Grows;
    assert GoodEntry(c, b, id, r);
    GrowsEntry(c, c', b, id, r);
  }

  lemma HandleRoutes(c: Cluster, c': Cluster, a: Address, m: Message, route: seq<Address>, e: Effect)
    requires Inv(c) && Shape(c, c', a, m, route, e) && Grows(c, c')
    ensures GoodRoutes(c')
  {
    hide GoodEntry, Sending, NodeChange, Grows, Sends;
    if Accepted(e) && IdOf(m, e).Some? {
      AcceptedRoute(c, c', a, m, route, e);
    }
    forall b, id, r | (b, id) in c'.routes && c'.routes[(b, id)] == r
      ensures GoodEntry(c', b, id, r)
    {
      if IdOf(m, e) != Some(id) || b != a || !Accepted(e) {
        OldEntry(c, c', a, m, route, e, b, id, r);
      }
    }
  }

  lemma HandleGiven(c: Cluster, c': Cluster, a: Address, m: Message, route: seq<Address>, e: Effect)
    requires Inv(c) && Shape(c, c', a, m, route, e) && Grows(c, c')
    ensures GivenOnce(c')
  {
    if Accepted(e) && IdOf(m, e).Some? {
      AcceptedIsNew(c, c', a, m, route, e);
    }
    forall b, id, i: nat
      ensures Once(c', b, id, i)
    {
      assert Once(c, b, id, i);
      if Accepted(e) && IdOf(m, e).Some? {
        SendsCount(a, IdOf(m, e).value, e.locals, b, id, i);
      }
    }
  }

  /** Each copy sent on carries a route one node longer. */
  lemma NewPacketFrom(c: Cluster, a: Address, m: Message, route: seq<Address>, e: Effect, p: Packet)
    requires WellFormed(c) && a in c.nodes && AllLinks(c.nodes[a].connections, e.targets)
    requires FreshTargets(c.nodes[a].connections, e.targets, Informed(m))
    requires p in NewPackets(c.nodes[a], route, e)
    ensures e.copy == Some(p.msg) && p.route == route
    ensures HasTarget(c.nodes[a].connections, e.targets, p.to) && p.to !in Informed(m)
    ensures p.to in c.nodes && p.to != a
  {
    var conns := c.nodes[a].connections;
    var j :| 0 <= j < |e.targets| && e.targets[j] < |conns| && !conns[e.targets[j]].Other?
             && p == Packet(route, conns[e.targets[j]].address, e.copy.value);
    assert GoodConnections(c.nodes.Keys, a, conns);
  }

  /** The route of a copy is listed among the nodes it says are informed. */
  ghost predicate RouteInformed(p: Packet)
    requires p.msg.trace.Some?
  {
    forall x :: x in p.route ==> x in p.msg.trace.value.informed && x != p.to
  }

  lemma NewPacketRoute(n: Node, a: Address, m: Message, now: int, route: seq<Address>, e: Effect, p: Packet)
    requires e.copy == Some(p.msg) && GoodCopy(n, m, now, e.targets, p.msg) && p.route == route + [a] && n.address == a
    requires HasTarget(n.connections, e.targets, p.to) && p.to !in Informed(m) && p.to != a
    requires forall i :: 0 <= i < |route| ==> route[i] in Informed(m)
    ensures p.to in p.msg.trace.value.informed && RouteInformed(p)
  {
  }

  lemma CopyTrace(c: Cluster, c': Cluster, a: Address, m: Message, route: seq<Address>, e: Effect, copy: Message)
    requires Inv(c) && Shape(c, c', a, m, route, e) && Grows(c, c') && e.copy == Some(copy)
    ensures copy.trace.Some? && IdOf(m, e) == Some(copy.trace.value.msgid)
    ensures var t := copy.trace.value;
            && t.msgid in c'.ids
            && t.timeout == c'.ids[t.msgid].due
            && copy.(trace := None) == c'.ids[t.msgid].original
            && t.hops == |route| + 1
            && (IsFlood(copy.service) ==> t.hops <= MAX_HOPS)
    ensures forall i :: 0 <= i < |route| ==> route[i] in Informed(m)
  {
    AcceptedIsNew(c, c', a, m, route, e);
    if m.trace.Some? {
      var id := m.trace.value.msgid;
      assert GoodPacket(c, Packet(route, a, m));
      assert GoodId(c, id);
      assert id != "" by {
        var n := c.nodes[c.ids[id].at];
        var k :| 1 <= k <= n.sequence && id == MessageId(n.serverName, k);
      }
    }
  }

  lemma RouteExtends(c: Cluster, route: seq<Address>, a: Address, id: string)
    requires GoodRoute(c, route, id) && a !in route && (a, id) in c.routes
    requires route == [] ==> a == c.ids[id].at
    ensures GoodRoute(c, route + [a], id)
  {
  }

  lemma NewPacketGood(c: Cluster, c': Cluster, a: Address, m: Message, route: seq<Address>, e: Effect, p: Packet)
    requires Inv(c) && Shape(c, c', a, m, route, e) && Grows(c, c')
    requires p in NewPackets(c.nodes[a], route + [a], e)
    ensures GoodPacket(c', p)
    ensures p.route == route + [a] && IdOf(m, e) == Some(p.msg.trace.value.msgid)
  {
    NewPacketFrom(c, a, m, route + [a], e, p);
    CopyTrace(c, c', a, m, route, e, p.msg);
    AcceptedRoute(c, c', a, m, route, e);
    NewPacketRoute(c.nodes[a], a, m, c.clocks[a], route, e, p);
    RouteExtends(c', route, a, p.msg.trace.value.msgid);
    MakePacket(c', p);
  }

  lemma MakePacket(c: Cluster, p: Packet)
    requires p.msg.trace.Some? && p.route != [] && GoodRoute(c, p.route, p.msg.trace.value.msgid)
    requires p.to in c.nodes && p.to in p.msg.trace.value.informed && RouteInformed(p)
    requires p.msg.trace.value.hops == |p.route|
    requires p.msg.trace.value.timeout == c.ids[p.msg.trace.value.msgid].due
    requires p.msg.(trace := None) == c.ids[p.msg.trace.value.msgid].original
    requires IsFlood(p.msg.service) ==> p.msg.trace.value.hops <= MAX_HOPS
    ensures GoodPacket(c, p)
  {
    assert forall i :: 0 <= i < |p.route| ==> p.route[i] in p.route;
  }

  lemma HandlePackets(c: Cluster, c': Cluster, a: Address, m: Message, route: seq<Address>, e: Effect)
    requires Inv(c) && Shape(c, c', a, m, route, e) && Grows(c, c')
    ensures GoodPackets(c')
  {
    GrowsPackets(c, c');
    forall p | p in NewPackets(c.nodes[a], route + [a], e)
      ensures GoodPacket(c', p)
    {
      NewPacketGood(c, c', a, m, route, e, p);
    }
  }

  /** Nothing sent earlier left a with this identifier. */
  lemma NewPacketNewLink(c: Cluster, c': Cluster, a: Address, m: Message, route: seq<Address>, e: Effect,
                         p: Packet, q: Packet)
    requires Inv(c) && Shape(c, c', a, m, route, e) && Grows(c, c')
    requires p in NewPackets(c.nodes[a], route + [a], e) && q in c.sent
    ensures !SameLink(p, q) && !SameLink(q, p)
  {
    NewPacketGood(c, c', a, m, route, e, p);
    AcceptedIsNew(c, c', a, m, route, e);
    assert GoodPacket(c, q);
    RoutedIsRetired(c, a, q.msg.trace.value.msgid);
    assert (q.route[|q.route| - 1], q.msg.trace.value.msgid) in c.routes;
  }

  lemma HandleLinks(c: Cluster, c': Cluster, a: Address, m: Message, route: seq<Address>, e: Effect)
    requires Inv(c) && Shape(c, c', a, m, route, e) && Grows(c, c')
    ensures OneCopyPerLink(c')
  {
    var created := NewPackets(c.nodes[a], route + [a], e);
    forall p, q | p in c'.sent && q in c'.sent && SameLink(p, q)
      ensures p == q
    {
      if p in created && q in c.sent {
        NewPacketNewLink(c, c', a, m, route, e, p, q);
      } else if q in created && p in c.sent {
        NewPacketNewLink(c, c', a, m, route, e, q, p);
      }
    }
  }

  lemma HandleInv(c: Cluster, a: Address, m: Message, route: seq<Address>)
    requires Inv(c) && Arrives(c, a, m, route)
    ensures Inv(Handle(c, a, m, route))
  {
    hide Process, Handle;
    var c' := Handle(c, a, m, route);
    var e := HandleShape(c, a, m, route);
    HandleGrows(c, c', a, m, route, e);
    HandleWellFormed(c, c', a, m, e);
    HandleIds(c, c', a, m, route, e);
    HandleReceived(c, c', a, m, route, e);
    HandleRoutes(c, c', a, m, route, e);
    HandleGiven(c, c', a, m, route, e);
    HandlePackets(c, c', a, m, route, e);
    HandleLinks(c, c', a, m, route, e);
  }

  // ---- runs ----

  lemma NextInv(c: Cluster, e: Event)
    requires Inv(c) && Enabled(c, e)
    ensures Inv(Next(c, e))
  {
    hide Process, Handle;
    match e
    case Tick(a, now) => QuietInv(c, Next(c, e));
    case Originate(a, m) => HandleInv(c, a, m, []);
    case Deliver(p) =>
      assert GoodPacket(c, p);
      HandleInv(c, p.to, p.msg, p.route);
    case Reconnect(a, conns) => QuietInv(c, Next(c, e));
  }

  lemma {:induction false} RunInv(run: seq<Cluster>, events: seq<Event>)
    requires Run(run, events)
    ensures Inv(run[|events|])
    decreases |events|
  {
    if events != [] {
      var k := |events| - 1;
      RunInv(run[..k + 1], events[..k]);
      NextInv(run[k], events[k]);
    }
  }

  /** At most once: however packets are lost, repeated and reordered, and however the clocks drift, a broadcast is
      sent at most once over each connection of a node to its local services, the originator's included. */
  lemma AtMostOnce(run: seq<Cluster>, events: seq<Event>, a: Address, id: string, i: nat)
    requires Run(run, events)
    ensures run[|events|].given[(a, id, i)] <= 1
  {
    RunInv(run, events);
    assert Once(run[|events|], a, id, i);
  }

  /** The identifier that an event makes up, if it starts a broadcast. */
  function StartedId(c: Cluster, e: Event): Option<string>
    requires Enabled(c, e)
  {
    if !e.Originate? then None
    else
      var f := Process(c.nodes[e.at], e.msg, c.clocks[e.at]).1;
      if Accepted(f) then IdOf(e.msg, f) else None
  }

  lemma StartedIdRecorded(c: Cluster, e: Event)
    requires Inv(c) && Enabled(c, e) && StartedId(c, e).Some?
    ensures StartedId(c, e).value !in c.ids && StartedId(c, e).value in Next(c, e).ids
  {
    hide Process;
    var f := HandleShape(c, e.at, e.msg, []);
    AcceptedIsNew(c, Next(c, e), e.at, e.msg, [], f);
  }

  lemma {:induction false} IdsLast(run: seq<Cluster>, events: seq<Event>, i: nat, j: nat, id: string)
    requires Run(run, events) && i <= j <= |events| && id in run[i].ids
    ensures id in run[j].ids
    decreases j - i
  {
    hide Process;
    if i < j {
      assert run[i + 1] == Next(run[i], events[i]);
      IdsLast(run, events, i + 1, j, id);
    }
  }

  /** No two broadcasts of a run get the same identifier, wherever and whenever they start. */
  lemma IdsNeverCollide(run: seq<Cluster>, events: seq<Event>, i: nat, j: nat)
    requires Run(run, events) && i < j < |events|
    requires StartedId(run[i], events[i]).Some? && StartedId(run[j], events[j]).Some?
    ensures StartedId(run[i], events[i]) != StartedId(run[j], events[j])
  {
    hide Process, Next, StartedId, Inv, Init;
    RunInv(run[..i + 1], events[..i]);
    RunInv(run[..j + 1], events[..j]);
    StartedIdRecorded(run[i], events[i]);
    StartedIdRecorded(run[j], events[j]);
    IdsLast(run, events, i + 1, j, StartedId(run[i], events[i]).value);
  }

  function Members(route: seq<Address>): set<Address> { set i | 0 <= i < |route| :: route[i] }

  lemma {:induction false} DistinctMembers(route: seq<Address>)
    requires Distinct(route)
    ensures |Members(route)| == |route|
  {
    if route != [] {
      var k := |route| - 1;
      DistinctMembers(route[..k]);
      assert Members(route) == Members(route[..k]) + {route[k]};
    }
  }

  /** Every copy ever sent keeps the identifier's deadline and content, has been forwarded by as many
      different nodes as it counts hops, and lists all of them and its addressee as informed. */
  lemma CopyInvariant(run: seq<Cluster>, events: seq<Event>, p: Packet)
    requires Run(run, events) && p in run[|events|].sent
    ensures p.msg.trace.Some? && p.msg.trace.value.msgid in run[|events|].ids
    ensures var t, o := p.msg.trace.value, run[|events|].ids[p.msg.trace.value.msgid];
            && t.timeout == o.due && p.msg.(trace := None) == o.original
            && t.hops == |Members(p.route)| >= 1
            && (IsFlood(p.msg.service) ==> t.hops <= MAX_HOPS)
            && p.route[0] == o.at
            && (forall x :: x in Members(p.route) ==> x in t.informed && x != p.to)
            && p.to in t.informed
  {
    RunInv(run, events);
    assert GoodPacket(run[|events|], p);
    DistinctMembers(p.route);
  }

  /** The sender of a packet and its addressee. */
  function LinkOf(p: Packet): (Address, Address)
    requires p.route != []
  {
    (p.route[|p.route| - 1], p.to)
  }

  predicate Carries(p: Packet, id: string) {
    p.msg.trace.Some? && p.msg.trace.value.msgid == id
  }

  /** Two copies of one broadcast never travel the same way between the same two nodes. */
  lemma OneCopyPerLinkRun(run: seq<Cluster>, events: seq<Event>, id: string, p: Packet, q: Packet)
    requires Run(run, events) && p in run[|events|].sent && q in run[|events|].sent
    requires Carries(p, id) && Carries(q, id) && p.route != [] && q.route != [] && LinkOf(p) == LinkOf(q)
    ensures p == q
  {
    RunInv(run, events);
    assert SameLink(p, q);
  }
}
