/** What one snapcommunicator does with a message: duplicate filter, routing, cache, flooding. */
module Handler {
  import opened Sequences
  import opened Messages

  const MAX_HOPS := 5
  const BROADCAST_LIFETIME := 10
  const DEFAULT_TTL := 60

  datatype Node = Node(
    serverName: string,
    address: Address,
    connections: seq<Connection>,
    localServices: set<string>,
    received: map<string, int>,
    sequence: nat,
    cache: seq<CachedMessage>)

  datatype Outcome =
    | Ignored                          // too late, or seen before
    | Command                          // meant for the snapcommunicator itself
    | Contradiction                    // one server and "*" or "?" at the same time
    | Flooded                          // given to the local services and/or sent on
    | Delivered(to: nat)               // handed to a registered service
    | Cached
    | Dropped

  /** `locals` receive the message unchanged, `targets` receive `copy`. */
  datatype Effect = Effect(outcome: Outcome, locals: seq<nat>, targets: seq<nat>, copy: Option<Message>)

  function Nothing(outcome: Outcome): Effect { Effect(outcome, [], [], None) }

  // ---- broadcast_message() ----

  function Purge(received: map<string, int>, now: int): map<string, int> {
    map id | id in received && received[id] >= now :: received[id]
  }

  function Destination(m: Message): string {
    if IsFlood(m.service) then m.service else if m.server == "" then "?" else m.server
  }

  /** Whether a flooded message with this destination goes to connection c. */
  predicate Eligible(c: Connection, hops: int, destination: string) {
    var all := hops < MAX_HOPS && destination == "*";
    var remote := hops < MAX_HOPS && (all || destination == "?");
    !c.Other? && ((c.network == Private && remote) || (c.network == Public && all))
  }

  predicate ValidIndexes(conns: seq<Connection>, indexes: seq<nat>) {
    forall j :: 0 <= j < |indexes| ==> indexes[j] < |conns|
  }

  function LocalTargets(conns: seq<Connection>, k: nat, command: string): seq<nat>
    requires k <= |conns|
  {
    if k == 0 then []
    else
      var front := LocalTargets(conns, k - 1, command);
      var c := conns[k - 1];
      if c.Service? && c.network == Loopback && command in c.commands then front + [k - 1] else front
  }

  function FloodCandidates(conns: seq<Connection>, k: nat, hops: int, destination: string): (r: seq<nat>)
    requires k <= |conns|
    ensures ValidIndexes(conns, r)
  {
    if k == 0 then []
    else
      var front := FloodCandidates(conns, k - 1, hops, destination);
      if Eligible(conns[k - 1], hops, destination) then front + [k - 1] else front
  }

  datatype Selection = Selection(informed: seq<Address>, targets: seq<nat>)

  function Pick(conns: seq<Connection>, i: nat, s: Selection): Selection
    requires i < |conns|
  {
    var c := conns[i];
    if c.Other? || c.address in s.informed then s
    else Selection(s.informed + [c.address], s.targets + [i])
  }

  /** The candidates not yet informed, each marked as informed when it is chosen. */
  function Select(conns: seq<Connection>, candidates: seq<nat>, informed: seq<Address>): Selection
    requires ValidIndexes(conns, candidates)
  {
    if candidates == [] then Selection(informed, [])
    else
      var k := |candidates| - 1;
      Pick(conns, candidates[k], Select(conns, candidates[..k], informed))
  }

  lemma {:induction false} FloodCandidatesAre(conns: seq<Connection>, k: nat, hops: int, destination: string)
    requires k <= |conns|
    ensures forall i: nat :: i in FloodCandidates(conns, k, hops, destination) <==>
                             i < k && Eligible(conns[i], hops, destination)
  {
    if k > 0 {
      FloodCandidatesAre(conns, k - 1, hops, destination);
    }
  }

  function Candidates(conns: seq<Connection>, accepting: seq<nat>, hops: int, destination: string): (r: seq<nat>)
    requires ValidIndexes(conns, accepting)
    ensures ValidIndexes(conns, r)
  {
    if accepting != [] then accepting
    else
      FloodCandidates(conns, |conns|, hops, destination)
  }

  /** The broadcast_* parameters of the copy a node sends on. */
  function NextTrace(n: Node, t: Option<Trace>, informed: seq<Address>, now: int): Trace {
    Trace(
      if t.Some? && t.value.msgid != "" then t.value.msgid else MessageId(n.serverName, n.sequence + 1),
      (if t.Some? then t.value.hops else 0) + 1,
      n.address,
      if t.Some? && t.value.timeout != 0 then t.value.timeout else now + BROADCAST_LIFETIME,
      if n.address in informed then informed else informed + [n.address])
  }

  function Record(n: Node, t: Option<Trace>, now: int): Node {
    if t.None? then n else n.(received := Purge(n.received, now)[t.value.msgid := t.value.timeout])
  }

  predicate Stale(n: Node, t: Option<Trace>, now: int) {
    t.Some? && (t.value.timeout < now || t.value.msgid in n.received)
  }

  function Broadcast(n: Node, m: Message, accepting: seq<nat>, now: int): (Node, Effect)
    requires ValidIndexes(n.connections, accepting)
  {
    if Stale(n, m.trace, now) then (n, Nothing(Ignored))
    else
      var hops := if m.trace.Some? then m.trace.value.hops else 0;
      var informed := if m.trace.Some? then m.trace.value.informed else [];
      var locals := if accepting == [] then LocalTargets(n.connections, |n.connections|, m.command) else [];
      var chosen := Select(n.connections, Candidates(n.connections, accepting, hops, Destination(m)), informed);
      var n1 := Record(n, m.trace, now);
      if chosen.targets == [] then (n1, Effect(Flooded, locals, [], None))
      else
        (n1.(sequence := n.sequence + 1),
         Effect(Flooded, locals, chosen.targets,
                Some(m.(trace := Some(NextTrace(n, m.trace, chosen.informed, now))))))
  }

  // ---- process_message() ----

  function TargetServer(n: Node, m: Message): string {
    if m.server == "." then n.serverName else m.server
  }

  predicate AllServers(server: string) { server == "" || server == "*" }

  /** Connections considered for a named service: any base connection with a matching server name. */
  predicate Matches(c: Connection, server: string) {
    !c.Other? && c.serverName != "" && (AllServers(server) || server == c.serverName)
  }

  predicate Serves(c: Connection, server: string, service: string) {
    c.Service? && Matches(c, server) && c.name == service
  }

  function FirstServing(conns: seq<Connection>, k: nat, server: string, service: string): (r: Option<nat>)
    requires k <= |conns|
    ensures r.Some? ==> k <= r.value < |conns| && Serves(conns[r.value], server, service)
    ensures r.Some? ==> forall i :: k <= i < r.value ==> !Serves(conns[i], server, service)
    ensures r.None? ==> forall i :: k <= i < |conns| ==> !Serves(conns[i], server, service)
    decreases |conns| - k
  {
    if k == |conns| then None
    else if Serves(conns[k], server, service) then Some(k)
    else FirstServing(conns, k + 1, server, service)
  }

  predicate Accepts(c: Connection, server: string) {
    Matches(c, server) && (c.Communicator? || (c.Service? && c.kind == RemoteServer))
  }

  function Accepting(conns: seq<Connection>, k: nat, server: string): (r: seq<nat>)
    requires k <= |conns|
    ensures ValidIndexes(conns, r)
    ensures forall i: nat :: i in r <==> i < k && Accepts(conns[i], server)
  {
    if k == 0 then []
    else
      var front := Accepting(conns, k - 1, server);
      if Accepts(conns[k - 1], server) then front + [k - 1] else front
  }

  function TimeToLive(cache: CachePolicy): int {
    if cache.Cache? && cache.ttl.Some? && 10 <= cache.ttl.value <= 86400 then cache.ttl.value else DEFAULT_TTL
  }

  function Route(n: Node, m: Message, now: int): (Node, Effect) {
    var server := TargetServer(n, m);
    var serving := FirstServing(n.connections, 0, server, m.service);
    if serving.Some? then (n, Nothing(Delivered(serving.value)))
    else if (AllServers(server) || server == n.serverName) && m.service in n.localServices then
      if m.cache.NoCache? then (n, Nothing(Dropped))
      else (n.(cache := n.cache + [CachedMessage(now + TimeToLive(m.cache), m)]), Nothing(Cached))
    else if server == n.serverName then (n, Nothing(Dropped))
    else
      var accepting := Accepting(n.connections, |n.connections|, server);
      if accepting == [] then (n, Nothing(Dropped)) else Broadcast(n, m, accepting, now)
  }

  predicate ForMe(n: Node, m: Message) {
    var server := TargetServer(n, m);
    (server == "" || server == n.serverName || server == "*") && (m.service == "" || m.service == "snapcommunicator")
  }

  predicate Contradictory(n: Node, m: Message) {
    !AllServers(TargetServer(n, m)) && (m.service == "*" || m.service == "?")
  }

  function Process(n: Node, m: Message, now: int): (Node, Effect) {
    if Stale(n, m.trace, now) then (n, Nothing(Ignored))
    else if ForMe(n, m) then (n, Nothing(Command))
    else if IsFlood(m.service) then
      if Contradictory(n, m) then (n, Nothing(Contradiction)) else Broadcast(n, m, [], now)
    else Route(n, m, now)
  }

  // ---- REGISTER and UNREGISTER ----

  function Alive(now: int): CachedMessage -> bool { (c: CachedMessage) => c.timeout >= now }

  function For(service: string): CachedMessage -> bool { (c: CachedMessage) => c.message.service == service }

  function NotFor(service: string): CachedMessage -> bool { (c: CachedMessage) => c.message.service != service }

  function MessagesOf(s: seq<CachedMessage>): (r: seq<Message>)
    ensures |r| == |s| && forall i :: 0 <= i < |s| ==> r[i] == s[i].message
  {
    seq(|s|, i requires 0 <= i < |s| => s[i].message)
  }

  lemma MessagesSnoc(s: seq<CachedMessage>, c: CachedMessage)
    ensures MessagesOf(s + [c]) == MessagesOf(s) + [c.message]
  {
  }

  /** The service name given to a connection; it does not matter for one to a snapcommunicator we connected to. */
  function Named(c: Connection, service: string): Connection {
    if c.Service? then c.(name := service, kind := Local) else c
  }

  /** REGISTER: the connection takes the service name; what the cache holds for it is sent in order. */
  function Register(n: Node, i: nat, service: string, now: int): (Node, seq<Message>)
    requires i < |n.connections| && !n.connections[i].Other?
  {
    var live := Filter(n.cache, Alive(now));
    (n.(connections := n.connections[i := Named(n.connections[i], service)],
        cache := Filter(live, NotFor(service))),
     MessagesOf(Filter(live, For(service))))
  }

  function Unregister(n: Node, i: nat): Node
    requires i < |n.connections|
  {
    n.(connections := n.connections[..i] + n.connections[i + 1..])
  }
}
