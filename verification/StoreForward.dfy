/** Messages for local services that are not running: kept, then handed over in order. */
module StoreForward {
  import opened Sequences
  import opened Messages
  import opened Handler
  import HandlerLaws

  datatype Event =
    | Arrive(message: Message, now: int)
    | RegisterAt(i: nat, service: string, now: int)
    | UnregisterAt(i: nat)
    | Connect(connection: Connection)
    | Identify(i: nat, serverName: string)   // ACCEPT and CONNECT: the server at the other end

  /** One node together with what was routed to a service by name and what that service was handed. */
  datatype History = History(node: Node, routed: seq<Message>, handed: seq<Message>)

  predicate Enabled(h: History, e: Event) {
    match e
    case RegisterAt(i, service, now) => i < |h.node.connections| && !h.node.connections[i].Other?
    case UnregisterAt(i) => i < |h.node.connections|
    case Identify(i, serverName) => i < |h.node.connections| && !h.node.connections[i].Other?
    case _ => true
  }

  function Next(h: History, s: string, e: Event): History
    requires Enabled(h, e)
  {
    var conns := h.node.connections;
    match e
    case Arrive(m, now) =>
      var (n', f) := Process(h.node, m, now);
      History(n',
              if m.service == s then h.routed + [m] else h.routed,
              if m.service == s && f.outcome.Delivered? then h.handed + [m] else h.handed)
    case RegisterAt(i, service, now) =>
      var (n', sent) := Register(h.node, i, service, now);
      History(n', h.routed, if service == s then h.handed + sent else h.handed)
    case UnregisterAt(i) => h.(node := Unregister(h.node, i))
    case Connect(c) => h.(node := h.node.(connections := conns + [c]))
    case Identify(i, name) => h.(node := h.node.(connections := conns[i := conns[i].(serverName := name)]))
  }

  /** A connection of this computer carries the name s. */
  predicate Running(n: Node, s: string) {
    exists i :: 0 <= i < |n.connections| && n.connections[i].Service? && n.connections[i].name == s
                && n.connections[i].serverName == n.serverName
  }

  /** A connection that messages for s can be handed to; one without a server name is never considered. */
  predicate Answers(n: Node, s: string) {
    exists i :: 0 <= i < |n.connections| && n.connections[i].Service? && n.connections[i].name == s
                && n.connections[i].serverName != ""
  }

  function Waiting(n: Node, s: string): seq<Message> { MessagesOf(Filter(n.cache, For(s))) }

  /** A message can be handed to s directly while another one waits in the cache, or could be made to wait. */
  predicate Exposed(n: Node, s: string) {
    Answers(n, s) && (Waiting(n, s) != [] || (s in n.localServices && !Running(n, s)))
  }

  ghost predicate Inv(h: History, s: string) {
    && h.node.serverName != "" && h.node.serverName != "*"
    && (s !in h.node.localServices ==> Waiting(h.node, s) == [])
    && Subsequence(h.handed + Waiting(h.node, s), h.routed)
  }

  lemma {:induction false} FilterCommute<T>(s: seq<T>, p: T -> bool, q: T -> bool)
    ensures Filter(Filter(s, p), q) == Filter(Filter(s, q), p)
  {
    if s != [] {
      var k := |s| - 1;
      FilterCommute(s[..k], p, q);
      FilterAppend(Filter(s[..k], p), [s[k]], q);
      FilterAppend(Filter(s[..k], q), [s[k]], p);
      FilterOne(s[k], p);
      FilterOne(s[k], q);
    }
  }

  lemma FilterOne<T>(x: T, p: T -> bool)
    ensures Filter([x], p) == if p(x) then [x] else []
  {
    assert [x][..0] == [];
  }

  lemma {:induction false} FilterNone<T>(s: seq<T>, p: T -> bool)
    requires forall x :: x in s ==> !p(x)
    ensures Filter(s, p) == []
  {
    if s != [] {
      FilterNone(s[..|s| - 1], p);
    }
  }

  lemma {:induction false} FilterAll<T>(s: seq<T>, p: T -> bool)
    requires forall x :: x in s ==> p(x)
    ensures Filter(s, p) == s
  {
    if s != [] {
      FilterAll(s[..|s| - 1], p);
    }
  }

  lemma {:induction false} MessagesSubsequence(a: seq<CachedMessage>, b: seq<CachedMessage>)
    requires Subsequence(a, b)
    ensures Subsequence(MessagesOf(a), MessagesOf(b))
    decreases |b|
  {
    if a != [] {
      var b', y := b[..|b| - 1], b[|b| - 1];
      assert b == b' + [y];
      MessagesSnoc(b', y);
      if a[|a| - 1] == y && Subsequence(a[..|a| - 1], b') {
        assert a == a[..|a| - 1] + [y];
        MessagesSnoc(a[..|a| - 1], y);
        MessagesSubsequence(a[..|a| - 1], b');
        SubsequenceSnoc(MessagesOf(a[..|a| - 1]), MessagesOf(b'), y.message);
      } else {
        MessagesSubsequence(a, b');
        SubsequenceExtend(MessagesOf(a), MessagesOf(b'), y.message);
      }
    }
  }

  /** What waits for s after another service registered: a subsequence of what waited before. */
  lemma OthersKeepOrder(n: Node, s: string, i: nat, service: string, now: int)
    requires i < |n.connections| && !n.connections[i].Other? && service != s
    ensures Subsequence(Waiting(Register(n, i, service, now).0, s), Waiting(n, s))
  {
    var live := Filter(n.cache, Alive(now));
    FilterCommute(live, NotFor(service), For(s));
    var mine := Filter(live, For(s));
    forall c | c in mine
      ensures NotFor(service)(c)
    {
      FilterMember(live, For(s), c);
    }
    FilterAll(mine, NotFor(service));
    FilterCommute(n.cache, Alive(now), For(s));
    FilterIsSubsequence(Filter(n.cache, For(s)), Alive(now));
    MessagesSubsequence(mine, Filter(n.cache, For(s)));
  }

  /** What s is handed when it registers: all that waited and is still on time; nothing stays behind. */
  lemma OwnHandover(n: Node, s: string, i: nat, now: int)
    requires i < |n.connections| && !n.connections[i].Other?
    ensures var (n', sent) := Register(n, i, s, now);
            Waiting(n', s) == [] && Subsequence(sent, Waiting(n, s))
  {
    var live := Filter(n.cache, Alive(now));
    var rest := Filter(live, NotFor(s));
    forall c | c in rest
      ensures !For(s)(c)
    {
      FilterMember(live, NotFor(s), c);
    }
    FilterNone(rest, For(s));
    FilterCommute(n.cache, Alive(now), For(s));
    FilterIsSubsequence(Filter(n.cache, For(s)), Alive(now));
    MessagesSubsequence(Filter(live, For(s)), Filter(n.cache, For(s)));
  }

  /** A message is cached only for a local service that is not running, and delivered only to who carries its name. */
  lemma ArrivalFacts(n: Node, m: Message, now: int)
    requires n.serverName != ""
    ensures var (n', f) := Process(n, m, now);
            && n'.connections == n.connections && n'.localServices == n.localServices && n'.serverName == n.serverName
            && (n'.cache == n.cache
                || (n'.cache == n.cache + [CachedMessage(now + TimeToLive(m.cache), m)] && !f.outcome.Delivered?
                    && m.service in n.localServices && !Running(n, m.service)))
            && (f.outcome.Delivered? ==> n'.cache == n.cache && Answers(n, m.service))
  {
  }

  /** What a message that arrives adds to what waits for s and to what s was handed. */
  lemma ArrivalEffect(h: History, s: string, m: Message, now: int)
    requires h.node.serverName != ""
    ensures var h' := Next(h, s, Arrive(m, now));
            || (h'.handed == h.handed && Waiting(h'.node, s) == Waiting(h.node, s))
            || (h'.handed == h.handed && Waiting(h'.node, s) == Waiting(h.node, s) + [m]
                && m.service == s && s in h.node.localServices)
            || (h'.handed == h.handed + [m] && Waiting(h'.node, s) == Waiting(h.node, s)
                && m.service == s && Answers(h.node, s))
  {
    hide Process, Running, Answers;
    var h' := Next(h, s, Arrive(m, now));
    ArrivalFacts(h.node, m, now);
    if h'.node.cache != h.node.cache {
      var c := CachedMessage(now + TimeToLive(m.cache), m);
      FilterAppend(h.node.cache, [c], For(s));
      FilterOne(c, For(s));
      MessagesSnoc(Filter(h.node.cache, For(s)), c);
      assert Filter(h.node.cache, For(s)) + [] == Filter(h.node.cache, For(s));
    }
  }

  lemma ArriveInv(h: History, s: string, m: Message, now: int)
    requires Inv(h, s) && (m.service == s ==> !Exposed(h.node, s))
    ensures Inv(Next(h, s, Arrive(m, now)), s)
  {
    hide Process, Subsequence, Answers, Running, Waiting;
    var h' := Next(h, s, Arrive(m, now));
    ArrivalFacts(h.node, m, now);
    ArrivalEffect(h, s, m, now);
    var before := h.handed + Waiting(h.node, s);
    SubsequenceSnoc(before, h.routed, m);
    SubsequenceExtend(before, h.routed, m);
    if h'.handed != h.handed {
      assert h'.handed + Waiting(h'.node, s) == before + [m];
    } else if Waiting(h'.node, s) != Waiting(h.node, s) {
      assert h'.handed + Waiting(h'.node, s) == before + [m];
    }
  }

  lemma ArrivalKeepsOrder(h: History, s: string, m: Message, now: int)
    requires Inv(h, s) && !Exposed(h.node, s)
    ensures !Exposed(Next(h, s, Arrive(m, now)).node, s)
  {
    hide Process, Subsequence;
    var h' := Next(h, s, Arrive(m, now));
    ArrivalFacts(h.node, m, now);
    assert Running(h'.node, s) == Running(h.node, s) && Answers(h'.node, s) == Answers(h.node, s);
    if h'.node.cache != h.node.cache {
      var c := CachedMessage(now + TimeToLive(m.cache), m);
      FilterAppend(h.node.cache, [c], For(s));
      FilterOne(c, For(s));
    }
  }

  lemma RegisterInv(h: History, s: string, i: nat, service: string, now: int)
    requires Inv(h, s) && Enabled(h, RegisterAt(i, service, now))
    ensures Inv(Next(h, s, RegisterAt(i, service, now)), s)
  {
    var h' := Next(h, s, RegisterAt(i, service, now));
    SubsequenceRefl(h.handed);
    if service == s {
      OwnHandover(h.node, s, i, now);
      var sent := Register(h.node, i, s, now).1;
      SubsequenceConcat(h.handed, h.handed, sent, Waiting(h.node, s));
      assert h'.handed + Waiting(h'.node, s) == h.handed + sent;
      SubsequenceTrans(h.handed + sent, h.handed + Waiting(h.node, s), h.routed);
    } else {
      OthersKeepOrder(h.node, s, i, service, now);
      SubsequenceConcat(h.handed, h.handed, Waiting(h'.node, s), Waiting(h.node, s));
      SubsequenceTrans(h.handed + Waiting(h'.node, s), h.handed + Waiting(h.node, s), h.routed);
    }
  }

  lemma NextInv(h: History, s: string, e: Event)
    requires Inv(h, s) && Enabled(h, e)
    requires e.Arrive? && e.message.service == s ==> !Exposed(h.node, s)
    ensures Inv(Next(h, s, e), s)
  {
    hide Process, Subsequence, Exposed;
    match e
    case Arrive(m, now) => ArriveInv(h, s, m, now);
    case RegisterAt(i, service, now) => RegisterInv(h, s, i, service, now);
    case UnregisterAt(i) =>
    case Connect(c) =>
    case Identify(i, name) =>
  }

  ghost predicate Run(run: seq<History>, s: string, events: seq<Event>) {
    && |run| == |events| + 1
    && run[0].node.serverName != "" && run[0].node.serverName != "*"
    && run[0].node.cache == [] && run[0].routed == [] && run[0].handed == []
    && (forall i :: 0 <= i < |events| ==> Enabled(run[i], events[i]) && run[i + 1] == Next(run[i], s, events[i]))
  }

  /** No message for s arrives at a moment when it could overtake another. */
  ghost predicate NeverExposed(run: seq<History>, s: string, events: seq<Event>)
    requires |run| == |events| + 1
  {
    forall i {:trigger events[i]} :: 0 <= i < |events| && events[i].Arrive? && events[i].message.service == s ==>
      !Exposed(run[i].node, s)
  }

  /** Over any run, a service is handed a subsequence of what was routed to it: in order, nothing twice,
      whether it went through the cache or not; and what still waits comes after it. */
  lemma {:induction false} HandedInOrder(run: seq<History>, s: string, events: seq<Event>)
    requires Run(run, s, events) && NeverExposed(run, s, events)
    ensures Inv(run[|events|], s)
    ensures Subsequence(run[|events|].handed, run[|events|].routed)
    decreases |events|
  {
    hide Exposed;
    if events == [] {
      assert Filter(run[0].node.cache, For(s)) == [];
      assert run[0].handed + Waiting(run[0].node, s) == [];
    } else {
      var k := |events| - 1;
      HandedInOrder(run[..k + 1], s, events[..k]);
      assert run[k + 1] == Next(run[k], s, events[k]);
      NextInv(run[k], s, events[k]);
    }
    var h := run[|events|];
    SubsequencePrefix(h.handed, Waiting(h.node, s), h.routed);
  }

  // ---- when a message overtakes another ----

  const LOCAL_HOST := "127.0.0.1"

  /** Two messages for s arrive; then a new local connection registers as s. */
  function Overtake(h: History, s: string, one: Message, two: Message, now: int): History {
    var h1 := Next(h, s, Arrive(one, now));
    var h2 := Next(h1, s, Arrive(two, now));
    var c := Service("client connection", h.node.serverName, LOCAL_HOST, Loopback, Down, {});
    var h3 := Next(h2, s, Connect(c));
    assert h3.node.connections[|h2.node.connections|] == c;
    Next(h3, s, RegisterAt(|h2.node.connections|, s, now))
  }

  ghost predicate Disorder(h: History, s: string, one: Message, two: Message, now: int) {
    && one.service == s && two.service == s
    && var end := Overtake(h, s, one, two, now); !Subsequence(end.handed, end.routed)
  }

  lemma {:induction false} SubsequenceMember<T>(a: seq<T>, b: seq<T>, x: T)
    requires Subsequence(a, b) && x in a
    ensures x in b
    decreases |b|
  {
    var b' := b[..|b| - 1];
    if a[|a| - 1] == b[|b| - 1] && Subsequence(a[..|a| - 1], b') {
      if x != a[|a| - 1] {
        SubsequenceMember(a[..|a| - 1], b', x);
      }
    } else {
      SubsequenceMember(a, b', x);
    }
  }

  /** A new message that is handed over before others cannot be the last one routed. */
  lemma LastIsNotLast(handed: seq<Message>, routed: seq<Message>, two: Message)
    requires two in handed && two !in routed && handed[|handed| - 1] != two
    ensures !Subsequence(handed, routed + [two])
  {
    assert (routed + [two])[..|routed|] == routed;
    if Subsequence(handed, routed + [two]) {
      SubsequenceMember(handed, routed, two);
    }
  }

  function Longest(list: seq<Message>): nat {
    if list == [] then 0
    else
      var n := Longest(list[..|list| - 1]);
      if n < |list[|list| - 1].command| then |list[|list| - 1].command| else n
  }

  lemma {:induction false} LongerIsNew(list: seq<Message>, m: Message)
    requires |m.command| > Longest(list)
    ensures m !in list
  {
    if list != [] {
      LongerIsNew(list[..|list| - 1], m);
      assert list == list[..|list| - 1] + [list[|list| - 1]];
    }
  }

  function Command(length: nat): string { seq(length, i => 'X') }

  lemma NewMessages(list: seq<Message>, s: string, server: string) returns (one: Message, two: Message)
    ensures one.service == s && two.service == s && one.server == server && two.server == ""
    ensures one.trace.None? && two.trace.None? && one.cache.Cache?
    ensures two !in list + [one] && one !in list
  {
    one := Message(Command(Longest(list) + 1), server, s, Cache(None), map[], None);
    two := Message(Command(Longest(list + [one]) + 1), "", s, Cache(None), map[], None);
    LongerIsNew(list, one);
    LongerIsNew(list + [one], two);
  }

  predicate Addressable(s: string) { s != "" && s != "snapcommunicator" && !IsFlood(s) }

  /** Sent without a server name, a message is handed to whoever answers to the service name. */
  lemma DirectlyHanded(h: History, s: string, m: Message, now: int)
    requires Addressable(s) && Answers(h.node, s) && m.service == s && m.server == "" && m.trace.None?
    ensures Next(h, s, Arrive(m, now)) == History(h.node, h.routed + [m], h.handed + [m])
  {
    var i :| 0 <= i < |h.node.connections| && h.node.connections[i].Service? && h.node.connections[i].name == s
             && h.node.connections[i].serverName != "";
    assert Serves(h.node.connections[i], "", s);
  }

  /** Sent to this server by name, a message for a local service that is not running is cached. */
  lemma MadeToWait(h: History, s: string, m: Message, now: int)
    requires Inv(h, s) && Addressable(s) && s in h.node.localServices && !Running(h.node, s)
    requires m.service == s && m.server == h.node.serverName && m.trace.None? && m.cache.Cache?
    ensures Next(h, s, Arrive(m, now)).node
         == h.node.(cache := h.node.cache + [CachedMessage(now + TimeToLive(m.cache), m)])
  {
    hide Subsequence, Waiting;
    assert FirstServing(h.node.connections, 0, h.node.serverName, s).None?;
  }

  /** What is handed over at a REGISTER ends with a message from the cache, if one for s is still on time. */
  lemma LiveHandedOver(n: Node, i: nat, s: string, now: int, c: CachedMessage)
    requires i < |n.connections| && !n.connections[i].Other?
    requires c in n.cache && c.message.service == s && now <= c.timeout
    ensures var sent := Register(n, i, s, now).1;
            sent != [] && exists d :: d in n.cache && d.message == sent[|sent| - 1] && d.message.service == s
  {
    var live := Filter(n.cache, Alive(now));
    FilterMember(n.cache, Alive(now), c);
    FilterMember(live, For(s), c);
    var mine := Filter(live, For(s));
    var d := mine[|mine| - 1];
    FilterMember(live, For(s), d);
    FilterMember(n.cache, Alive(now), d);
  }

  lemma WaitingMember(n: Node, s: string, c: CachedMessage)
    requires c in n.cache && c.message.service == s
    ensures c.message in Waiting(n, s)
  {
    var mine := Filter(n.cache, For(s));
    FilterMember(n.cache, For(s), c);
    var j :| 0 <= j < |mine| && mine[j] == c;
    assert MessagesOf(mine)[j] == c.message;
  }

  /** The second message is handed over at once, before one that waits. */
  lemma Overtaken(h: History, s: string, one: Message, two: Message, now: int, c: CachedMessage)
    requires Addressable(s) && one.service == s && two.service == s && two.server == "" && two.trace.None?
    requires h.node.serverName != ""
    requires var h1 := Next(h, s, Arrive(one, now));
             && Answers(h1.node, s) && two !in h1.routed && c in h1.node.cache && c.message.service == s
             && now <= c.timeout && (forall d :: d in h1.node.cache && d.message.service == s ==> d.message != two)
    ensures Disorder(h, s, one, two, now)
  {
    hide Process, Register, Answers, Subsequence, Inv, Waiting, Addressable;
    ArrivalFacts(h.node, one, now);
    var h1 := Next(h, s, Arrive(one, now));
    DirectlyHanded(h1, s, two, now);
    var h2 := Next(h1, s, Arrive(two, now));
    var newcomer := Service("client connection", h.node.serverName, LOCAL_HOST, Loopback, Down, {});
    var h3 := Next(h2, s, Connect(newcomer));
    var i := |h2.node.connections|;
    assert h3.node.connections[i] == newcomer;
    LiveHandedOver(h3.node, i, s, now, c);
    var sent := Register(h3.node, i, s, now).1;
    var handed := h1.handed + [two] + sent;
    assert two in handed && handed[|handed| - 1] == sent[|sent| - 1] != two;
    LastIsNotLast(handed, h1.routed, two);
  }

  /** What is cached for s was routed to s. */
  lemma CachedWasRouted(h: History, s: string, d: CachedMessage)
    requires Inv(h, s) && d in h.node.cache && d.message.service == s
    ensures d.message in h.routed
  {
    WaitingMember(h.node, s, d);
    SubsequenceMember(h.handed + Waiting(h.node, s), h.routed, d.message);
  }

  lemma CachedIsOlder(h: History, s: string, one: Message, two: Message, now: int)
    requires Inv(h, s) && two !in h.routed + [one]
    ensures forall d :: d in Next(h, s, Arrive(one, now)).node.cache && d.message.service == s ==> d.message != two
  {
    hide Process, Subsequence;
    ArrivalFacts(h.node, one, now);
    forall d | d in h.node.cache && d.message.service == s
      ensures d.message in h.routed
    {
      CachedWasRouted(h, s, d);
    }
  }

  lemma ExposedBreaks(h: History, s: string)
    requires Inv(h, s) && Addressable(s) && Exposed(h.node, s)
    ensures exists one, two, now :: Disorder(h, s, one, two, now)
  {
    hide Process, Subsequence, Answers, Running, Addressable;
    var one, two := NewMessages(h.routed, s, h.node.serverName);
    var c: CachedMessage;
    var now: int;
    if Waiting(h.node, s) != [] {
      var mine := Filter(h.node.cache, For(s));
      c := mine[0];
      now := c.timeout;
      FilterMember(h.node.cache, For(s), c);
    } else {
      now := 0;
      MadeToWait(h, s, one, now);
      c := CachedMessage(TimeToLive(one.cache), one);
      assert c == CachedMessage(now + TimeToLive(one.cache), one);
    }
    ArrivalFacts(h.node, one, now);
    SameConnections(h.node, Next(h, s, Arrive(one, now)).node, s);
    CachedIsOlder(h, s, one, two, now);
    Overtaken(h, s, one, two, now, c);
  }

  lemma SameConnections(n: Node, n': Node, s: string)
    requires n'.connections == n.connections
    ensures Answers(n', s) == Answers(n, s)
  {
  }

  /** Exactly when the order can be lost: two messages can arrive at a node and be handed over the wrong way round
      if and only if the node is exposed. */
  lemma OrderExactly(h: History, s: string)
    requires Inv(h, s) && Addressable(s)
    ensures Exposed(h.node, s) <==> exists one, two, now :: Disorder(h, s, one, two, now)
  {
    if Exposed(h.node, s) {
      ExposedBreaks(h, s);
    } else {
      forall one, two, now
        ensures !Disorder(h, s, one, two, now)
      {
        InOrder(h, s, one, two, now);
      }
    }
  }

  /** The guard at REGISTER: a local service that nobody answers for becomes exposed if and only if it registers over
      a connection of another server. */
  lemma RegisterExposes(h: History, s: string, i: nat, now: int)
    requires Inv(h, s) && s in h.node.localServices && !Answers(h.node, s)
    requires Enabled(h, RegisterAt(i, s, now)) && h.node.connections[i].Service?
    ensures Exposed(Next(h, s, RegisterAt(i, s, now)).node, s) <==>
              (h.node.connections[i].serverName != "" && h.node.connections[i].serverName != h.node.serverName)
  {
    hide Subsequence, Filter;
    var n, n' := h.node, Next(h, s, RegisterAt(i, s, now)).node;
    assert n'.connections[i] == Named(n.connections[i], s);
    assert forall j :: 0 <= j < |n.connections| && j != i ==> n'.connections[j] == n.connections[j];
    OwnHandover(n, s, i, now);
  }

  lemma InOrder(h: History, s: string, one: Message, two: Message, now: int)
    requires Inv(h, s) && !Exposed(h.node, s)
    ensures !Disorder(h, s, one, two, now)
  {
    hide Process, Register, Exposed, Subsequence;
    var h1 := Next(h, s, Arrive(one, now));
    var h2 := Next(h1, s, Arrive(two, now));
    var c := Service("client connection", h.node.serverName, LOCAL_HOST, Loopback, Down, {});
    var h3 := Next(h2, s, Connect(c));
    ArriveInv(h, s, one, now);
    ArrivalKeepsOrder(h, s, one, now);
    ArriveInv(h1, s, two, now);
    NextInv(h2, s, Connect(c));
    assert h3.node.connections[|h2.node.connections|] == c;
    NextInv(h3, s, RegisterAt(|h2.node.connections|, s, now));
    var end := Overtake(h, s, one, two, now);
    ArrivalFacts(h.node, one, now);
    ArrivalFacts(h1.node, two, now);
    SubsequencePrefix(end.handed, Waiting(end.node, s), end.routed);
  }

  // ---- ordinary runs ----

  /** Only connections of this computer, or without a server name, carry the name s. */
  predicate OwnName(n: Node, s: string) {
    && (forall i :: 0 <= i < |n.connections| && n.connections[i].Service? && n.connections[i].name == s ==>
          n.connections[i].serverName == "" || n.connections[i].serverName == n.serverName)
    && (Running(n, s) ==> Waiting(n, s) == [])
  }

  /** s registers over connections of this computer, and who carries the name s is no snapcommunicator. */
  predicate Ordinary(n: Node, s: string, e: Event) {
    match e
    case RegisterAt(i, service, now) =>
      service == s && i < |n.connections| && n.connections[i].Service? ==>
        n.connections[i].serverName == "" || n.connections[i].serverName == n.serverName
    case Connect(c) => c.Service? ==> c.name != s
    case Identify(i, name) => i < |n.connections| && n.connections[i].Service? ==> n.connections[i].name != s
    case _ => true
  }

  lemma OwnNameKept(h: History, s: string, e: Event)
    requires h.node.serverName != "" && OwnName(h.node, s) && Enabled(h, e) && Ordinary(h.node, s, e)
    ensures OwnName(Next(h, s, e).node, s)
  {
    hide Process;
    var conns, conns' := h.node.connections, Next(h, s, e).node.connections;
    match e
    case Arrive(m, now) =>
      ArrivalFacts(h.node, m, now);
      ArrivalEffect(h, s, m, now);
      OwnNameArrival(h, s, m, now);
    case RegisterAt(i, service, now) => OwnNameRegister(h, s, i, service, now);
    case UnregisterAt(i) =>
      assert forall j :: 0 <= j < |conns'| ==> conns'[j] == conns[if j < i then j else j + 1];
      forall j | 0 <= j < |conns'|
        ensures conns'[j] in conns
      {
        assert conns'[j] == conns[if j < i then j else j + 1];
      }
    case Connect(c) =>
    case Identify(i, name) =>
      assert forall j :: 0 <= j < |conns| && j != i ==> conns'[j] == conns[j];
  }

  lemma OwnNameRegister(h: History, s: string, i: nat, service: string, now: int)
    requires OwnName(h.node, s) && Enabled(h, RegisterAt(i, service, now))
    requires Ordinary(h.node, s, RegisterAt(i, service, now))
    ensures OwnName(Next(h, s, RegisterAt(i, service, now)).node, s)
  {
    var n' := Next(h, s, RegisterAt(i, service, now)).node;
    var conns, conns' := h.node.connections, n'.connections;
    assert forall j :: 0 <= j < |conns| && j != i ==> conns'[j] == conns[j];
    if service == s {
      OwnHandover(h.node, s, i, now);
    } else {
      OthersKeepOrder(h.node, s, i, service, now);
    }
  }

  lemma OwnNameArrival(h: History, s: string, m: Message, now: int)
    requires h.node.serverName != "" && OwnName(h.node, s)
    ensures var n' := Next(h, s, Arrive(m, now)).node; Running(n', s) ==> Waiting(n', s) == []
  {
    hide Process;
    ArrivalFacts(h.node, m, now);
    var n' := Next(h, s, Arrive(m, now)).node;
    assert Running(n', s) == Running(h.node, s);
    if n'.cache != h.node.cache {
      var c := CachedMessage(now + TimeToLive(m.cache), m);
      FilterAppend(h.node.cache, [c], For(s));
      FilterOne(c, For(s));
    }
  }

  ghost predicate OrdinaryRun(run: seq<History>, s: string, events: seq<Event>)
    requires |run| == |events| + 1
  {
    && OwnName(run[0].node, s)
    && forall i {:trigger events[i]} :: 0 <= i < |events| ==> Ordinary(run[i].node, s, events[i])
  }

  lemma {:induction false} OrdinaryNeverExposed(run: seq<History>, s: string, events: seq<Event>)
    requires Run(run, s, events) && OrdinaryRun(run, s, events)
    ensures OwnName(run[|events|].node, s) && run[|events|].node.serverName == run[0].node.serverName
    ensures NeverExposed(run, s, events)
    decreases |events|
  {
    hide Process, OwnName, Ordinary, Exposed, Register;
    if events != [] {
      var k := |events| - 1;
      OrdinaryNeverExposed(run[..k + 1], s, events[..k]);
      assert run[k + 1] == Next(run[k], s, events[k]);
      assert Ordinary(run[k].node, s, events[k]);
      OwnNameUnexposed(run[k].node, s);
      OwnNameKept(run[k], s, events[k]);
      SameServer(run[k], s, events[k]);
      forall i | 0 <= i < |events| && events[i].Arrive? && events[i].message.service == s
        ensures !Exposed(run[i].node, s)
      {
        if i < k {
          assert events[..k][i] == events[i];
        }
      }
    }
  }

  lemma OwnNameUnexposed(n: Node, s: string)
    requires OwnName(n, s)
    ensures !Exposed(n, s)
  {
    if Answers(n, s) {
      assert Running(n, s);
    }
  }

  lemma SameServer(h: History, s: string, e: Event)
    requires h.node.serverName != "" && Enabled(h, e)
    ensures Next(h, s, e).node.serverName == h.node.serverName
  {
    if e.Arrive? {
      ArrivalFacts(h.node, e.message, e.now);
    }
  }

  /** As long as the service only registers over connections of this computer, it gets its messages in order. */
  lemma OrdinaryRunInOrder(run: seq<History>, s: string, events: seq<Event>)
    requires Run(run, s, events) && OrdinaryRun(run, s, events)
    ensures Subsequence(run[|events|].handed, run[|events|].routed)
  {
    OrdinaryNeverExposed(run, s, events);
    HandedInOrder(run, s, events);
  }

  /** A service that is restarted misses nothing: a message sent while it is away is handed over when it is back. */
  lemma RestartMissesNothing(h: History, s: string, i: nat, m: Message, now: int, back: int)
    requires Inv(h, s) && Addressable(s) && s in h.node.localServices && Waiting(h.node, s) == []
    requires i < |h.node.connections| && h.node.connections[i].Service? && h.node.connections[i].name == s
    requires forall j :: 0 <= j < |h.node.connections| && j != i && h.node.connections[j].Service? ==>
                           h.node.connections[j].name != s
    requires m.service == s && m.server == h.node.serverName && m.trace.None? && m.cache.Cache?
    requires back <= now + TimeToLive(m.cache)
    ensures var away := Next(Next(h, s, UnregisterAt(i)), s, Arrive(m, now));
            var there := Next(away, s, Connect(h.node.connections[i]));
            var end := Next(there, s, RegisterAt(|away.node.connections|, s, back));
            end.handed == h.handed + [m] && end.routed == h.routed + [m] && Waiting(end.node, s) == []
  {
    hide Process, Subsequence, Answers, Exposed, Running, Register, Filter, Waiting, Addressable;
    var down := Next(h, s, UnregisterAt(i));
    var c := CachedMessage(now + TimeToLive(m.cache), m);
    AwayIsNotRunning(h, s, i);
    MadeToWait(down, s, m, now);
    var away := Next(down, s, Arrive(m, now));
    AwayWaits(h, s, i, m, now);
    HandedOne(away, h.node.connections[i], s, c, back);
  }

  lemma AwayIsNotRunning(h: History, s: string, i: nat)
    requires Inv(h, s) && i < |h.node.connections|
    requires forall j :: 0 <= j < |h.node.connections| && j != i && h.node.connections[j].Service? ==>
                           h.node.connections[j].name != s
    ensures Enabled(h, UnregisterAt(i))
    ensures var down := Next(h, s, UnregisterAt(i));
            && Inv(down, s) && !Running(down.node, s) && down.node.localServices == h.node.localServices
            && down.node.serverName == h.node.serverName && Waiting(down.node, s) == Waiting(h.node, s)
            && down.handed == h.handed && down.routed == h.routed
  {
    var conns, conns' := h.node.connections, Next(h, s, UnregisterAt(i)).node.connections;
    assert forall j :: 0 <= j < |conns'| ==> conns'[j] == conns[if j < i then j else j + 1];
  }

  lemma AwayWaits(h: History, s: string, i: nat, m: Message, now: int)
    requires i < |h.node.connections| && m.service == s
    requires var down := Next(h, s, UnregisterAt(i));
             && Waiting(down.node, s) == [] && down.node.serverName != ""
             && Next(down, s, Arrive(m, now)).node
                == down.node.(cache := down.node.cache + [CachedMessage(now + TimeToLive(m.cache), m)])
    ensures var down := Next(h, s, UnregisterAt(i));
            var away := Next(down, s, Arrive(m, now));
            var c := CachedMessage(now + TimeToLive(m.cache), m);
            && away.handed == h.handed && away.routed == h.routed + [m] && Filter(away.node.cache, For(s)) == [c]
  {
    hide Process, Answers;
    var down := Next(h, s, UnregisterAt(i));
    var c := CachedMessage(now + TimeToLive(m.cache), m);
    ArrivalFacts(down.node, m, now);
    OneWaits(down.node.cache, c, s);
  }

  lemma OneWaits(cache: seq<CachedMessage>, c: CachedMessage, s: string)
    requires MessagesOf(Filter(cache, For(s))) == [] && c.message.service == s
    ensures Filter(cache + [c], For(s)) == [c]
  {
    hide Filter;
    FilterAppend(cache, [c], For(s));
    FilterOne(c, For(s));
    assert Filter(cache, For(s)) == [];
  }

  /** Who registers as s is handed the one message that waits. */
  lemma HandedOne(h: History, connection: Connection, s: string, c: CachedMessage, now: int)
    requires connection.Service? && Filter(h.node.cache, For(s)) == [c] && now <= c.timeout
    ensures var there := Next(h, s, Connect(connection));
            var i := |h.node.connections|;
            && Enabled(there, RegisterAt(i, s, now))
            && var end := Next(there, s, RegisterAt(i, s, now));
               end.handed == h.handed + [c.message] && end.routed == h.routed && Waiting(end.node, s) == []
  {
    hide Filter;
    var there := Next(h, s, Connect(connection));
    var i := |h.node.connections|;
    assert there.node.connections[i] == connection;
    FilterCommute(h.node.cache, Alive(now), For(s));
    FilterOne(c, Alive(now));
    assert Filter(Filter(h.node.cache, Alive(now)), For(s)) == [c];
    MessagesSnoc([], c);
    assert [] + [c] == [c] && MessagesOf([]) == [];
    OwnHandover(there.node, s, i, now);
  }

  lemma {:induction false} SubsequencePrefix<T>(a: seq<T>, b: seq<T>, c: seq<T>)
    requires Subsequence(a + b, c)
    ensures Subsequence(a, c)
    decreases |b|
  {
    if b == [] {
      assert a + b == a;
    } else {
      SubsequenceDropLast(a + b, c);
      assert (a + b)[..|a + b| - 1] == a + b[..|b| - 1];
      SubsequencePrefix(a, b[..|b| - 1], c);
    }
  }

  /** REGISTER splits the cache: late messages go, the service gets its own, everything else stays. */
  lemma RegisterPartition(n: Node, i: nat, service: string, now: int, c: CachedMessage)
    requires i < |n.connections| && !n.connections[i].Other?
    ensures var (n', sent) := Register(n, i, service, now);
            multiset(n'.cache)[c]
            == if c.timeout >= now && c.message.service != service then multiset(n.cache)[c] else 0
    ensures var (n', sent) := Register(n, i, service, now);
            forall m :: m in sent ==>
              exists d :: d in n.cache && d.message == m && now <= d.timeout && m.service == service
  {
    var live := Filter(n.cache, Alive(now));
    FilterCount(n.cache, Alive(now), c);
    FilterCount(live, NotFor(service), c);
    var (n', sent) := Register(n, i, service, now);
    forall m | m in sent
      ensures exists d :: d in n.cache && d.message == m && now <= d.timeout && m.service == service
    {
      var j :| 0 <= j < |sent| && sent[j] == m;
      var d := Filter(live, For(service))[j];
      FilterMember(live, For(service), d);
      FilterMember(n.cache, Alive(now), d);
    }
  }

  // ---- nothing is lost ----

  /** How often message m lies in the cache for service s, with a timeout that has, or has not, passed. */
  function CachedFor(cache: seq<CachedMessage>, s: string, m: Message, now: int, live: bool): nat {
    if cache == [] then 0
    else
      var c := cache[|cache| - 1];
      CachedFor(cache[..|cache| - 1], s, m, now, live)
      + (if c.message == m && m.service == s && (c.timeout >= now) == live then 1 else 0)
  }

  lemma FilterTwice(cache: seq<CachedMessage>, p: CachedMessage -> bool, q: CachedMessage -> bool)
    requires cache != []
    ensures var k := |cache| - 1;
            Filter(Filter(cache, p), q)
            == Filter(Filter(cache[..k], p), q) + (if p(cache[k]) && q(cache[k]) then [cache[k]] else [])
  {
    var k := |cache| - 1;
    FilterAppend(Filter(cache[..k], p), [cache[k]], q);
    FilterOne(cache[k], q);
  }

  lemma CountSnoc(s: seq<CachedMessage>, c: CachedMessage, m: Message)
    ensures multiset(MessagesOf(s + [c]))[m] == multiset(MessagesOf(s))[m] + (if c.message == m then 1 else 0)
  {
    MessagesSnoc(s, c);
  }

  lemma {:induction false} LiveCount(cache: seq<CachedMessage>, s: string, m: Message, now: int)
    ensures multiset(MessagesOf(Filter(Filter(cache, Alive(now)), For(s))))[m] == CachedFor(cache, s, m, now, true)
  {
    if cache == [] {
      assert MessagesOf(Filter(Filter(cache, Alive(now)), For(s))) == [];
    } else {
      hide Filter, MessagesOf;
      var k := |cache| - 1;
      LiveCount(cache[..k], s, m, now);
      FilterTwice(cache, Alive(now), For(s));
      var before := Filter(Filter(cache[..k], Alive(now)), For(s));
      CountSnoc(before, cache[k], m);
      assert before + [] == before;
    }
  }

  /** Who registers is handed everything that waits for it and is on time, each message as often as it waits. */
  lemma HandoverComplete(n: Node, i: nat, s: string, now: int, m: Message)
    requires i < |n.connections| && !n.connections[i].Other?
    ensures multiset(Register(n, i, s, now).1)[m] == CachedFor(n.cache, s, m, now, true)
  {
    LiveCount(n.cache, s, m, now);
  }

  function Waits(cache: seq<CachedMessage>, s: string, m: Message): nat {
    if cache == [] then 0
    else
      var c := cache[|cache| - 1].message;
      Waits(cache[..|cache| - 1], s, m) + (if c == m && m.service == s then 1 else 0)
  }

  /** What REGISTER leaves in the cache for s: nothing if it was s that registered, else all that is on time. */
  lemma {:induction false} LeftWaiting(cache: seq<CachedMessage>, service: string, s: string, m: Message, now: int)
    ensures Waits(Filter(Filter(cache, Alive(now)), NotFor(service)), s, m)
         == if service == s then 0 else CachedFor(cache, s, m, now, true)
  {
    if cache == [] {
      assert Filter(Filter(cache, Alive(now)), NotFor(service)) == [];
    } else {
      hide Filter, Waits;
      var k := |cache| - 1;
      LeftWaiting(cache[..k], service, s, m, now);
      FilterTwice(cache, Alive(now), NotFor(service));
      var before := Filter(Filter(cache[..k], Alive(now)), NotFor(service));
      WaitsSnoc(before, cache[k], s, m);
      assert before + [] == before;
    }
  }

  lemma WaitsSnoc(cache: seq<CachedMessage>, c: CachedMessage, s: string, m: Message)
    ensures Waits(cache + [c], s, m) == Waits(cache, s, m) + (if c.message == m && m.service == s then 1 else 0)
  {
    assert (cache + [c])[..|cache|] == cache;
  }

  lemma {:induction false} WaitsSplit(cache: seq<CachedMessage>, s: string, m: Message, now: int)
    ensures Waits(cache, s, m) == CachedFor(cache, s, m, now, true) + CachedFor(cache, s, m, now, false)
  {
    if cache != [] {
      WaitsSplit(cache[..|cache| - 1], s, m, now);
    }
  }

  /** How often m was taken for s: delivered, or put in the cache. */
  ghost function Taken(run: seq<History>, s: string, events: seq<Event>, m: Message): nat
    requires |run| == |events| + 1
    decreases |events|
  {
    if events == [] then 0
    else
      var k := |events| - 1;
      var e := events[k];
      Taken(run[..k + 1], s, events[..k], m)
      + (if e.Arrive? && e.message == m && m.service == s
            && var f := Process(run[k].node, m, e.now).1; (f.outcome.Delivered? || f.outcome == Outcome.Cached)
         then 1 else 0)
  }

  /** How often m was past its timeout when someone registered. */
  ghost function Expired(run: seq<History>, s: string, events: seq<Event>, m: Message): nat
    requires |run| == |events| + 1
    decreases |events|
  {
    if events == [] then 0
    else
      var k := |events| - 1;
      var e := events[k];
      Expired(run[..k + 1], s, events[..k], m)
      + (if e.RegisterAt? then CachedFor(run[k].node.cache, s, m, e.now, false) else 0)
  }

  lemma HandedCount(a: seq<Message>, b: seq<Message>, m: Message)
    ensures multiset(a + b)[m] == multiset(a)[m] + multiset(b)[m]
  {
  }

  lemma StepCounts(h: History, s: string, e: Event, m: Message)
    requires Enabled(h, e) && h.node.serverName != ""
    ensures var h' := Next(h, s, e);
            multiset(h'.handed)[m] + Waits(h'.node.cache, s, m)
            + (if e.RegisterAt? then CachedFor(h.node.cache, s, m, e.now, false) else 0)
            == multiset(h.handed)[m] + Waits(h.node.cache, s, m)
               + (if e.Arrive? && e.message == m && m.service == s
                     && var f := Process(h.node, m, e.now).1; (f.outcome.Delivered? || f.outcome == Outcome.Cached)
                  then 1 else 0)
  {
    hide Filter, Waits, CachedFor;
    match e
    case Arrive(message, now) => ArrivalCounts(h, s, message, now, m);
    case RegisterAt(i, service, now) =>
      WaitsSplit(h.node.cache, s, m, now);
      LeftWaiting(h.node.cache, service, s, m, now);
      HandoverComplete(h.node, i, s, now, m);
      HandedCount(h.handed, Register(h.node, i, s, now).1, m);
    case _ =>
  }

  lemma ArrivalCounts(h: History, s: string, message: Message, now: int, m: Message)
    requires h.node.serverName != ""
    ensures var h' := Next(h, s, Arrive(message, now));
            multiset(h'.handed)[m] + Waits(h'.node.cache, s, m)
            == multiset(h.handed)[m] + Waits(h.node.cache, s, m)
               + (if message == m && m.service == s
                     && var f := Process(h.node, m, now).1; (f.outcome.Delivered? || f.outcome == Outcome.Cached)
                  then 1 else 0)
  {
    hide Process, Waits;
    HandlerLaws.CacheIs(h.node, message, now);
    var f := Process(h.node, message, now).1;
    if f.outcome == Outcome.Cached {
      WaitsSnoc(h.node.cache, CachedMessage(now + HandlerLaws.Ttl(message), message), s, m);
    }
    HandedCount(h.handed, [message], m);
  }

  /** Nothing is lost: each message taken for s was handed over, or still waits, or was past its timeout when someone
      registered, once for each time it was taken. */
  lemma {:induction false} NothingLost(run: seq<History>, s: string, events: seq<Event>, m: Message)
    requires Run(run, s, events)
    ensures multiset(run[|events|].handed)[m] + Waits(run[|events|].node.cache, s, m) + Expired(run, s, events, m)
         == Taken(run, s, events, m)
    ensures run[|events|].node.serverName != ""
    decreases |events|
  {
    hide Process, Register, CachedFor;
    if events != [] {
      var k := |events| - 1;
      NothingLost(run[..k + 1], s, events[..k], m);
      assert run[k + 1] == Next(run[k], s, events[k]);
      StepCounts(run[k], s, events[k], m);
      SameServer(run[k], s, events[k]);
    }
  }

  lemma {:induction false} FilterCount<T>(s: seq<T>, p: T -> bool, x: T)
    ensures multiset(Filter(s, p))[x] == if p(x) then multiset(s)[x] else 0
  {
    if s != [] {
      FilterCount(s[..|s| - 1], p, x);
      assert s == s[..|s| - 1] + [s[|s| - 1]];
    }
  }
}
