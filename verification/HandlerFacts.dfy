/** What one handled message guarantees: whom it is sent to, and what the copies carry. */
module HandlerFacts {
  import opened Sequences
  import opened Messages
  import opened Handler

  /** A connection that leads to another snapcommunicator. */
  predicate Link(c: Connection) {
    !c.Other? && (c.Communicator? || c.kind == RemoteServer || c.network == Private || c.network == Public)
  }

  predicate HasTarget(conns: seq<Connection>, targets: seq<nat>, x: Address) {
    exists j :: 0 <= j < |targets| && targets[j] < |conns| && !conns[targets[j]].Other?
                && conns[targets[j]].address == x
  }

  /** Every target is new to the informed list, and no address is chosen twice. */
  predicate FreshTargets(conns: seq<Connection>, targets: seq<nat>, informed: seq<Address>) {
    && ValidIndexes(conns, targets)
    && (forall j :: 0 <= j < |targets| ==> !conns[targets[j]].Other? && conns[targets[j]].address !in informed)
    && (forall j, k :: 0 <= j < k < |targets| ==> conns[targets[j]].address != conns[targets[k]].address)
  }

  lemma {:induction false} SelectFresh(conns: seq<Connection>, candidates: seq<nat>, informed: seq<Address>)
    requires ValidIndexes(conns, candidates)
    ensures var s := Select(conns, candidates, informed);
            && FreshTargets(conns, s.targets, informed)
            && (forall x :: x in s.informed <==> x in informed || HasTarget(conns, s.targets, x))
            && (forall i :: i in s.targets ==> i in candidates)
  {
    if candidates != [] {
      var k := |candidates| - 1;
      SelectFresh(conns, candidates[..k], informed);
      var before := Select(conns, candidates[..k], informed);
      var after := Select(conns, candidates, informed);
      forall x | HasTarget(conns, before.targets, x)
        ensures HasTarget(conns, after.targets, x)
      {
        var j :| 0 <= j < |before.targets| && before.targets[j] < |conns| &&
                 !conns[before.targets[j]].Other? && conns[before.targets[j]].address == x;
        assert after.targets[j] == before.targets[j];
      }
      if after != before {
        assert after.targets[|before.targets|] == candidates[k];
        assert HasTarget(conns, after.targets, conns[candidates[k]].address);
        forall j | 0 <= j < |before.targets|
          ensures conns[before.targets[j]].address in before.informed
        {
          assert HasTarget(conns, before.targets, conns[before.targets[j]].address);
        }
      }
    }
  }

  /** No candidate is left out: each is a target or was already informed. */
  lemma {:induction false} SelectComplete(conns: seq<Connection>, candidates: seq<nat>, informed: seq<Address>)
    requires ValidIndexes(conns, candidates)
    ensures var s := Select(conns, candidates, informed);
            && (forall x :: x in informed ==> x in s.informed)
            && (forall j :: 0 <= j < |candidates| && !conns[candidates[j]].Other? ==>
                            conns[candidates[j]].address in s.informed)
  {
    if candidates != [] {
      var k := |candidates| - 1;
      SelectComplete(conns, candidates[..k], informed);
      forall j | 0 <= j < |candidates| && !conns[candidates[j]].Other?
        ensures conns[candidates[j]].address in Select(conns, candidates, informed).informed
      {
        if j < k {
          assert candidates[..k][j] == candidates[j];
        }
      }
    }
  }

  function Hops(m: Message): int { if m.trace.Some? then m.trace.value.hops else 0 }

  function Informed(m: Message): seq<Address> { if m.trace.Some? then m.trace.value.informed else [] }

  /** The copy is the message itself, one hop further, with a longer informed list. */
  ghost predicate GoodCopy(n: Node, m: Message, now: int, targets: seq<nat>, copy: Message) {
    && copy.trace.Some?
    && copy.(trace := None) == m.(trace := None)
    && var t := copy.trace.value;
      && t.hops == Hops(m) + 1
      && t.msgid == (if m.trace.Some? && m.trace.value.msgid != "" then m.trace.value.msgid
                     else MessageId(n.serverName, n.sequence + 1))
      && t.timeout == (if m.trace.Some? && m.trace.value.timeout != 0 then m.trace.value.timeout
                       else now + BROADCAST_LIFETIME)
      && (forall x :: x in t.informed <==> x in Informed(m) || x == n.address || HasTarget(n.connections, targets, x))
  }

  predicate AllLinks(conns: seq<Connection>, targets: seq<nat>) {
    forall j :: 0 <= j < |targets| ==> 0 <= targets[j] < |conns| && Link(conns[targets[j]])
  }

  lemma BroadcastFacts(n: Node, m: Message, accepting: seq<nat>, now: int)
    requires ValidIndexes(n.connections, accepting)
    requires !Stale(n, m.trace, now)
    ensures var (n', e) := Broadcast(n, m, accepting, now);
            && FreshTargets(n.connections, e.targets, Informed(m))
            && (e.copy.Some? <==> e.targets != [])
            && (e.copy.Some? ==> GoodCopy(n, m, now, e.targets, e.copy.value))
            && (forall i :: i in e.targets ==> i in Candidates(n.connections, accepting, Hops(m), Destination(m)))
            && (forall j :: 0 <= j < |Candidates(n.connections, accepting, Hops(m), Destination(m))| ==>
                  var c := n.connections[Candidates(n.connections, accepting, Hops(m), Destination(m))[j]];
                  !c.Other? ==> c.address in Informed(m) || HasTarget(n.connections, e.targets, c.address))
  {
    var candidates := Candidates(n.connections, accepting, Hops(m), Destination(m));
    SelectFresh(n.connections, candidates, Informed(m));
    SelectComplete(n.connections, candidates, Informed(m));
  }

  predicate Accepted(e: Effect) { e.outcome == Flooded }

  lemma ProcessKeeps(n: Node, m: Message, now: int)
    ensures var (n', e) := Process(n, m, now);
            && n' == n.(received := n'.received, sequence := n'.sequence, cache := n'.cache)
            && n'.sequence == n.sequence + (if e.copy.Some? then 1 else 0)
            && (Accepted(e) ==> !Stale(n, m.trace, now))
            && (e.copy.Some? ==> Accepted(e))
            && n'.received == (if Accepted(e) && m.trace.Some?
                               then Purge(n.received, now)[m.trace.value.msgid := m.trace.value.timeout]
                               else n.received)
  {
  }

  /** Copies go to other snapcommunicators that the message did not list; a flood stops at the last hop. */
  lemma ProcessSends(n: Node, m: Message, now: int)
    ensures var (n', e) := Process(n, m, now);
            && FreshTargets(n.connections, e.targets, Informed(m))
            && AllLinks(n.connections, e.targets)
            && (e.copy.Some? <==> e.targets != [])
            && (e.copy.Some? ==> GoodCopy(n, m, now, e.targets, e.copy.value))
            && (e.copy.Some? && IsFlood(m.service) ==> Hops(m) < MAX_HOPS && !Contradictory(n, m))
  {
    var (n', e) := Process(n, m, now);
    if Accepted(e) {
      var accepting := if IsFlood(m.service) then [] else Accepting(n.connections, |n.connections|, TargetServer(n, m));
      BroadcastFacts(n, m, accepting, now);
      FloodCandidatesAre(n.connections, |n.connections|, Hops(m), Destination(m));
      forall j | 0 <= j < |e.targets|
        ensures 0 <= e.targets[j] < |n.connections| && Link(n.connections[e.targets[j]])
      {
        assert e.targets[j] in e.targets;
      }
      if e.copy.Some? && IsFlood(m.service) {
        assert e.targets[0] in e.targets;
      }
    }
  }

  /** The connections over which a flood with this service may leave a node: "?" stays in the private network,
      "*" also goes to other data centers, "." goes nowhere. */
  predicate Open(c: Connection, service: string) {
    && !c.Other?
    && ((c.network == Private && (service == "?" || service == "*")) || (c.network == Public && service == "*"))
  }

  predicate Linked(conns: seq<Connection>, service: string, x: Address) {
    exists i :: 0 <= i < |conns| && Open(conns[i], service) && conns[i].address == x
  }

  lemma BroadcastTargetsLinked(n: Node, m: Message, now: int, x: Address)
    requires IsFlood(m.service) && !Stale(n, m.trace, now)
    requires HasTarget(n.connections, Broadcast(n, m, [], now).1.targets, x)
    ensures Linked(n.connections, m.service, x)
  {
    var targets := Broadcast(n, m, [], now).1.targets;
    BroadcastFacts(n, m, [], now);
    FloodCandidatesAre(n.connections, |n.connections|, Hops(m), Destination(m));
    var j :| 0 <= j < |targets| && targets[j] < |n.connections| && n.connections[targets[j]].address == x;
    assert targets[j] in targets;
  }

  lemma FloodTargetsLinked(n: Node, m: Message, now: int, x: Address)
    requires IsFlood(m.service) && HasTarget(n.connections, Process(n, m, now).1.targets, x)
    ensures Linked(n.connections, m.service, x)
  {
    BroadcastTargetsLinked(n, m, now, x);
  }

  lemma BroadcastReachesLinks(n: Node, m: Message, now: int, x: Address)
    requires IsFlood(m.service) && !Stale(n, m.trace, now) && Hops(m) < MAX_HOPS
    requires Linked(n.connections, m.service, x)
    ensures x in Informed(m) || HasTarget(n.connections, Broadcast(n, m, [], now).1.targets, x)
  {
    BroadcastFacts(n, m, [], now);
    FloodCandidatesAre(n.connections, |n.connections|, Hops(m), Destination(m));
    var i :| 0 <= i < |n.connections| && Open(n.connections[i], m.service) && n.connections[i].address == x;
    var k: nat := i;
    var candidates := Candidates(n.connections, [], Hops(m), Destination(m));
    assert Eligible(n.connections[k], Hops(m), Destination(m));
    assert k in candidates;
    var j :| 0 <= j < |candidates| && candidates[j] == k;
  }

  /** An accepted flood below the hop limit leaves no linked neighbor uninformed. */
  lemma FloodReachesLinks(n: Node, m: Message, now: int, x: Address)
    requires IsFlood(m.service) && Accepted(Process(n, m, now).1) && Hops(m) < MAX_HOPS
    requires Linked(n.connections, m.service, x)
    ensures x in Informed(m) || HasTarget(n.connections, Process(n, m, now).1.targets, x)
  {
    BroadcastReachesLinks(n, m, now, x);
  }

  /** A local service connection is handed one broadcast at most once per call. */
  lemma {:induction false} LocalTargetsDistinct(conns: seq<Connection>, k: nat, command: string)
    requires k <= |conns|
    ensures var r := LocalTargets(conns, k, command);
            && (forall i: nat :: i in r <==> (i < k && conns[i].Service? && conns[i].network == Loopback
                                             && command in conns[i].commands))
            && (forall a, b :: 0 <= a < b < |r| ==> r[a] != r[b])
  {
    if k > 0 {
      LocalTargetsDistinct(conns, k - 1, command);
      var r := LocalTargets(conns, k - 1, command);
      assert forall a :: 0 <= a < |r| ==> r[a] in r;
    }
  }

  // ---- local services ----

  /** A service of this computer that understands the command. */
  predicate Understands(c: Connection, command: string) {
    c.Service? && c.network == Loopback && command in c.commands
  }

  /** An accepted flood is sent to exactly the local services that understand it, once each; nothing else is. */
  ghost predicate LocalSends(n: Node, m: Message, e: Effect) {
    && (forall i: nat :: i in e.locals <==>
          Accepted(e) && IsFlood(m.service) && i < |n.connections| && Understands(n.connections[i], m.command))
    && (forall j, k :: 0 <= j < k < |e.locals| ==> e.locals[j] != e.locals[k])
  }

  lemma ProcessLocals(n: Node, m: Message, now: int)
    ensures LocalSends(n, m, Process(n, m, now).1)
  {
    LocalTargetsDistinct(n.connections, |n.connections|, m.command);
  }
}
