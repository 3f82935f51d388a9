/** The laws of the message handler, written out: what happens to each message, in terms of the message and the node. */
module HandlerLaws {
  import opened Sequences
  import opened Messages
  import opened Handler
  import opened HandlerFacts

  /** The message came too late, or came before. */
  predicate Old(n: Node, m: Message, now: int) {
    m.trace.Some? && (m.trace.value.timeout < now || m.trace.value.msgid in n.received)
  }

  /** The server it is for, "." being this one. */
  function For(n: Node, m: Message): string { if m.server == "." then n.serverName else m.server }

  predicate AnyServer(n: Node, m: Message) { For(n, m) == "" || For(n, m) == "*" }

  predicate MayBeHere(n: Node, m: Message) { AnyServer(n, m) || For(n, m) == n.serverName }

  /** The message is for the snapcommunicator itself. */
  predicate Own(n: Node, m: Message) { MayBeHere(n, m) && (m.service == "" || m.service == "snapcommunicator") }

  predicate Flooding(m: Message) { m.service == "*" || m.service == "?" || m.service == "." }

  /** A connection with a server name that the message allows. */
  predicate Considered(c: Connection, n: Node, m: Message) {
    !c.Other? && c.serverName != "" && (AnyServer(n, m) || c.serverName == For(n, m))
  }

  predicate Named(c: Connection, n: Node, m: Message) { c.Service? && Considered(c, n, m) && c.name == m.service }

  predicate PassesOn(c: Connection, n: Node, m: Message) {
    Considered(c, n, m) && (c.Communicator? || (c.Service? && c.kind == RemoteServer))
  }

  ghost predicate Somebody(n: Node, m: Message) {
    exists i :: 0 <= i < |n.connections| && Named(n.connections[i], n, m)
  }

  ghost predicate SomebodyElse(n: Node, m: Message) {
    exists i :: 0 <= i < |n.connections| && PassesOn(n.connections[i], n, m)
  }

  // ---- floods ----

  /** A flood is accepted unless it is old, or asks for one server and for all of them; "." never contradicts. */
  lemma FloodAccepted(n: Node, m: Message, now: int)
    requires Flooding(m)
    ensures var (n', e) := Process(n, m, now);
            && (e.outcome == Flooded <==> !Old(n, m, now) && (m.service == "." || AnyServer(n, m)))
            && (e.outcome != Flooded ==> n' == n && e.targets == [] && e.copy.None?)
  {
  }

  /** An accepted flood is sent to exactly the neighbors behind an open link that are not on its list, before its
      fifth hop, and over one connection each. */
  lemma FloodSentTo(n: Node, m: Message, now: int, x: Address)
    requires Flooding(m) && Process(n, m, now).1.outcome == Flooded
    ensures var e := Process(n, m, now).1;
            && (HasTarget(n.connections, e.targets, x) <==>
                  Linked(n.connections, m.service, x) && x !in Informed(m) && Hops(m) < 5)
            && (forall j, k :: 0 <= j < k < |e.targets| ==>
                  0 <= e.targets[j] < |n.connections| && 0 <= e.targets[k] < |n.connections|
                  && n.connections[e.targets[j]] != n.connections[e.targets[k]])
  {
    hide Process, Linked, GoodCopy;
    var e := Process(n, m, now).1;
    ProcessSends(n, m, now);
    if HasTarget(n.connections, e.targets, x) {
      FloodTargetsLinked(n, m, now, x);
    } else if Linked(n.connections, m.service, x) && Hops(m) < 5 {
      FloodReachesLinks(n, m, now, x);
    }
  }

  // ---- messages for a named service ----

  /** Who gets a message for a named service: the first connection of that name; else the cache, when the service
      is a local one that may be meant here and the message allows it; else, unless it is for this very server, those
      who may pass it on. */
  lemma NamedOutcome(n: Node, m: Message, now: int)
    requires !Flooding(m) && !Old(n, m, now) && !Own(n, m)
    ensures var (n', e) := Process(n, m, now);
            var here := m.service in n.localServices && MayBeHere(n, m);
            && (e.outcome.Delivered? <==> Somebody(n, m))
            && (e.outcome.Delivered? ==>
                  && e.outcome.to < |n.connections| && Named(n.connections[e.outcome.to], n, m)
                  && forall i :: 0 <= i < e.outcome.to ==> !Named(n.connections[i], n, m))
            && (e.outcome == Cached <==> !Somebody(n, m) && here && !m.cache.NoCache?)
            && (e.outcome == Flooded <==>
                  !Somebody(n, m) && !here && For(n, m) != n.serverName && SomebodyElse(n, m))
            && (e.outcome.Delivered? || e.outcome == Cached || e.outcome == Flooded || e.outcome == Dropped)
  {
    hide LocalTargets, FloodCandidates, Select, NextTrace, Record;
    var (n', e) := Process(n, m, now);
    assert forall i :: 0 <= i < |n.connections| ==>
      (Named(n.connections[i], n, m) <==> Serves(n.connections[i], TargetServer(n, m), m.service));
    AcceptingIsSomebodyElse(n, m);
  }

  /** Only a message that is cached changes the cache: it is put at the end, with its timeout. */
  lemma CacheIs(n: Node, m: Message, now: int)
    ensures var (n', e) := Process(n, m, now);
            && (e.outcome != Cached ==> n'.cache == n.cache)
            && (e.outcome == Cached ==>
                  && m.cache.Cache? && n' == n.(cache := n'.cache)
                  && n'.cache == n.cache + [CachedMessage(now + Ttl(m), m)])
            && (e.outcome != Flooded ==> e.locals == [] && e.targets == [] && e.copy.None?)
  {
    hide LocalTargets, FloodCandidates, Select, NextTrace, FirstServing, Accepting;
  }

  /** 60 seconds, unless the message asks for a time between ten seconds and a day. */
  function Ttl(m: Message): int
    requires m.cache.Cache?
  {
    match m.cache.ttl
    case None => 60
    case Some(t) => if t < 10 || t > 86400 then 60 else t
  }

  lemma AcceptingIsSomebodyElse(n: Node, m: Message)
    ensures Accepting(n.connections, |n.connections|, TargetServer(n, m)) != [] <==> SomebodyElse(n, m)
    ensures forall i: nat :: i in Accepting(n.connections, |n.connections|, TargetServer(n, m)) <==>
                               i < |n.connections| && PassesOn(n.connections[i], n, m)
  {
    var accepting := Accepting(n.connections, |n.connections|, TargetServer(n, m));
    if accepting != [] {
      assert accepting[0] in accepting;
    }
    if SomebodyElse(n, m) {
      var i :| 0 <= i < |n.connections| && PassesOn(n.connections[i], n, m);
      var k: nat := i;
      assert k in accepting;
    }
  }

  /** A message that is passed on goes to exactly the addresses that may pass it on and are not on its list. */
  lemma NamedSentTo(n: Node, m: Message, now: int, x: Address)
    requires !Flooding(m) && Process(n, m, now).1.outcome == Flooded
    ensures var e := Process(n, m, now).1;
            HasTarget(n.connections, e.targets, x) <==>
              x !in Informed(m) && MayPassOn(n, m, x)
  {
    hide Broadcast, Accepting, PassesOn;
    var e := Process(n, m, now).1;
    var accepting := Accepting(n.connections, |n.connections|, TargetServer(n, m));
    AcceptingIsSomebodyElse(n, m);
    assert e == Broadcast(n, m, accepting, now).1;
    AcceptingSent(n, m, accepting, now, x);
  }

  ghost predicate MayPassOn(n: Node, m: Message, x: Address) {
    exists i :: 0 <= i < |n.connections| && PassesOn(n.connections[i], n, m)
                && !n.connections[i].Other? && n.connections[i].address == x
  }

  lemma AcceptingSent(n: Node, m: Message, accepting: seq<nat>, now: int, x: Address)
    requires ValidIndexes(n.connections, accepting) && accepting != [] && !Stale(n, m.trace, now)
    requires forall i: nat :: i in accepting <==> i < |n.connections| && PassesOn(n.connections[i], n, m)
    ensures HasTarget(n.connections, Broadcast(n, m, accepting, now).1.targets, x) <==>
              x !in Informed(m) && MayPassOn(n, m, x)
  {
    hide Broadcast, GoodCopy, PassesOn;
    AcceptingFacts(n, m, accepting, now);
    var targets := Broadcast(n, m, accepting, now).1.targets;
    if HasTarget(n.connections, targets, x) {
      var j :| 0 <= j < |targets| && targets[j] < |n.connections| && !n.connections[targets[j]].Other?
               && n.connections[targets[j]].address == x;
      assert targets[j] in targets;
    }
    if MayPassOn(n, m, x) {
      var i :| 0 <= i < |n.connections| && PassesOn(n.connections[i], n, m)
               && !n.connections[i].Other? && n.connections[i].address == x;
      var k: nat := i;
      assert k in accepting;
    }
  }

  lemma AcceptingFacts(n: Node, m: Message, accepting: seq<nat>, now: int)
    requires ValidIndexes(n.connections, accepting) && accepting != [] && !Stale(n, m.trace, now)
    ensures var targets := Broadcast(n, m, accepting, now).1.targets;
            && FreshTargets(n.connections, targets, Informed(m))
            && (forall i :: i in targets ==> i in accepting)
            && (forall i :: i in accepting && !n.connections[i].Other? ==>
                  n.connections[i].address in Informed(m)
                  || HasTarget(n.connections, targets, n.connections[i].address))
  {
    hide Broadcast, GoodCopy, FreshTargets, HasTarget;
    BroadcastFacts(n, m, accepting, now);
    assert Candidates(n.connections, accepting, Hops(m), Destination(m)) == accepting;
  }

  // ---- what a node sends on, and remembers ----

  /** The copy: the message itself, one hop further, with its identifier and deadline, or new ones ten seconds ahead,
      from this node, listing whom it listed, this node, and whom it is sent to. */
  lemma CopyIs(n: Node, m: Message, now: int)
    ensures var (n', e) := Process(n, m, now);
            && (e.copy.Some? <==> e.targets != [])
            && (e.copy.Some? ==>
                  var copy := e.copy.value;
                  && copy.trace.Some? && copy.(trace := None) == m.(trace := None)
                  && var t := copy.trace.value;
                     && t.hops == Hops(m) + 1 && t.originator == n.address
                     && t.msgid == (if m.trace.Some? && m.trace.value.msgid != "" then m.trace.value.msgid
                                    else MessageId(n.serverName, n.sequence + 1))
                     && t.timeout == (if m.trace.Some? && m.trace.value.timeout != 0 then m.trace.value.timeout
                                      else now + 10)
                     && (forall x :: x in t.informed <==>
                           x in Informed(m) || x == n.address || HasTarget(n.connections, e.targets, x)))
            && n'.sequence == n.sequence + (if e.copy.Some? then 1 else 0)
  {
    hide Process;
    ProcessKeeps(n, m, now);
    ProcessSends(n, m, now);
    OriginatorIs(n, m, now);
  }

  lemma OriginatorIs(n: Node, m: Message, now: int)
    ensures var e := Process(n, m, now).1;
            e.copy.Some? && e.copy.value.trace.Some? ==> e.copy.value.trace.value.originator == n.address
  {
    hide LocalTargets, FloodCandidates, Select, Record, FirstServing, Accepting, MessageId;
  }

  /** The table of a node that accepts a broadcast: its identifier, and those whose deadline has not passed. */
  lemma TableIs(n: Node, m: Message, now: int, id: string)
    ensures var (n', e) := Process(n, m, now);
            if e.outcome == Flooded && m.trace.Some? then
              && (id in n'.received <==>
                    id == m.trace.value.msgid || (id in n.received && !(n.received[id] < now)))
              && (id in n'.received ==>
                    n'.received[id] == if id == m.trace.value.msgid then m.trace.value.timeout else n.received[id])
            else n'.received == n.received
  {
    hide Process;
    ProcessKeeps(n, m, now);
  }

  /** Nothing else happens to a message: old ones are dropped, and those for the snapcommunicator are its own. */
  lemma OtherOutcomes(n: Node, m: Message, now: int)
    ensures var (n', e) := Process(n, m, now);
            && (e.outcome == Ignored <==> Old(n, m, now))
            && (e.outcome == Command <==> !Old(n, m, now) && Own(n, m))
            && (e.outcome == Contradiction <==>
                  !Old(n, m, now) && (m.service == "*" || m.service == "?") && !AnyServer(n, m))
            && (e.outcome == Ignored || e.outcome == Command || e.outcome == Contradiction ==>
                  n' == n && e.locals == [] && e.targets == [] && e.copy.None?)
            && n' == n.(received := n'.received, sequence := n'.sequence, cache := n'.cache)
  {
    hide LocalTargets, FloodCandidates, Select, NextTrace, FirstServing, Accepting;
  }

  // ---- REGISTER and UNREGISTER ----

  /** REGISTER renames its connection, a service one, and no other. */
  lemma RegisterNames(n: Node, i: nat, service: string, now: int, j: nat)
    requires i < |n.connections| && !n.connections[i].Other? && j < |n.connections|
    ensures var n' := Register(n, i, service, now).0;
            && |n'.connections| == |n.connections|
            && n' == n.(connections := n'.connections, cache := n'.cache)
            && n'.connections[j] == (if j == i && n.connections[j].Service?
                                     then n.connections[j].(name := service, kind := Local) else n.connections[j])
  {
  }

  /** UNREGISTER takes its connection away and keeps the others in place. */
  lemma UnregisterTakes(n: Node, i: nat, j: nat)
    requires i < |n.connections| && j < |n.connections|
    ensures var n' := Unregister(n, i);
            && |n'.connections| == |n.connections| - 1 && n' == n.(connections := n'.connections)
            && (j < i ==> n'.connections[j] == n.connections[j])
            && (j > i ==> n'.connections[j - 1] == n.connections[j])
  {
  }
}
