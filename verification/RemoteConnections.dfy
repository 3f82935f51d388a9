/** Which snapcommunicator connects to which: to smaller addresses we connect, larger ones get a GOSSIP. */
module RemoteConnections {
  const SECOND := 1000000

  /** `smaller` gives the date of the next attempt. */
  datatype Peers = Peers(
    me: nat,
    all: map<nat, nat>,
    smaller: map<nat, int>,
    gossip: set<nat>,
    lastStart: int)

  datatype Event =
    | Add(ip: nat, port: nat, now: int, connected: bool, accepted: bool)
    | GossipReceived(ip: nat)
    | Forget(ip: nat)
    | StopGossiping

  function Max(a: int, b: int): int { if a > b then a else b }

  function AddRemote(p: Peers, ip: nat, port: nat, now: int, connected: bool, accepted: bool): Peers {
    if ip == p.me then p
    else if ip in p.all then
      if ip < p.me && ip in p.smaller && !connected then p.(smaller := p.smaller[ip := now]) else p
    else if ip < p.me then
      var start := Max(now, p.lastStart);
      p.(all := p.all[ip := port],
         smaller := if accepted then p.smaller[ip := start] else p.smaller - {ip},
         lastStart := start + SECOND)
    else
      p.(all := p.all[ip := port], gossip := if accepted then p.gossip + {ip} else p.gossip - {ip})
  }

  function Next(p: Peers, e: Event): Peers {
    match e
    case Add(ip, port, now, connected, accepted) => AddRemote(p, ip, port, now, connected, accepted)
    case GossipReceived(ip) => p.(gossip := p.gossip - {ip})
    case Forget(ip) => p.(smaller := p.smaller - {ip})
    case StopGossiping => p.(gossip := {})
  }

  function NextAll(p: Peers, events: seq<Event>): Peers {
    if events == [] then p else Next(NextAll(p, events[..|events| - 1]), events[|events| - 1])
  }

  function Start(me: nat): Peers { Peers(me, map[], map[], {}, 0) }

  /** The maps agree, and each peer is on its side. */
  predicate Inv(p: Peers) {
    && p.me !in p.all
    && p.smaller.Keys <= p.all.Keys && p.gossip <= p.all.Keys
    && (forall ip :: ip in p.smaller ==> ip < p.me)
    && (forall ip :: ip in p.gossip ==> p.me < ip)
  }

  lemma {:induction false} Reachable(me: nat, events: seq<Event>)
    ensures Inv(NextAll(Start(me), events)) && NextAll(Start(me), events).me == me
  {
    if events != [] {
      Reachable(me, events[..|events| - 1]);
    }
  }

  /** Two nodes never both connect to each other, nor both wait for the other's GOSSIP answer. */
  lemma OneDirection(a: nat, b: nat, eventsA: seq<Event>, eventsB: seq<Event>)
    ensures var p, q := NextAll(Start(a), eventsA), NextAll(Start(b), eventsB);
            && !(b in p.smaller && a in q.smaller)
            && !(b in p.gossip && a in q.gossip)
            && p.smaller.Keys !! p.gossip
  {
    Reachable(a, eventsA);
    Reachable(b, eventsB);
  }

  predicate Loyal(events: seq<Event>, ip: nat) {
    forall e :: e in events ==>
      e != Forget(ip) && e != GossipReceived(ip) && e != StopGossiping && (e.Add? && e.ip == ip ==> e.accepted)
  }

  /** A known peer that was neither forgotten nor answered is served in exactly one of the two ways. */
  lemma {:induction false} KnownIsServed(me: nat, events: seq<Event>, ip: nat)
    requires Loyal(events, ip)
    ensures var p := NextAll(Start(me), events);
            && (ip in p.smaller <==> ip in p.all && ip < me)
            && (ip in p.gossip <==> ip in p.all && me < ip)
  {
    Reachable(me, events);
    if events != [] {
      var k := |events| - 1;
      KnownIsServed(me, events[..k], ip);
      Reachable(me, events[..k]);
      assert events[k] in events;
    }
  }

  // ---- dates ----

  /** The k-th event adds the peer; since then it was not forgotten, nor added again while not connected. */
  predicate AddedAt(events: seq<Event>, ip: nat, k: nat) {
    && k < |events| && events[k].Add? && events[k].ip == ip && events[k].accepted
    && (forall j :: 0 <= j < k ==> !(events[j].Add? && events[j].ip == ip))
    && (forall j :: k < j < |events| ==>
          events[j] != Forget(ip) && (events[j].Add? && events[j].ip == ip ==> events[j].connected))
  }

  lemma {:induction false} NeverAddedUnknown(me: nat, events: seq<Event>, ip: nat)
    requires forall j :: 0 <= j < |events| ==> !(events[j].Add? && events[j].ip == ip)
    ensures ip !in NextAll(Start(me), events).all
  {
    if events != [] {
      NeverAddedUnknown(me, events[..|events| - 1], ip);
    }
  }

  lemma {:induction false} FirstDate(me: nat, events: seq<Event>, ip: nat, k: nat)
    requires AddedAt(events, ip, k) && ip < me
    ensures var p, before := NextAll(Start(me), events), NextAll(Start(me), events[..k]);
            && ip in p.smaller && ip in p.all
            && p.smaller[ip] >= events[k].now && p.smaller[ip] >= before.lastStart
            && p.smaller[ip] + 1000000 <= p.lastStart
    decreases |events|
  {
    var last := |events| - 1;
    Reachable(me, events[..last]);
    if k == last {
      NeverAddedUnknown(me, events[..k], ip);
    } else {
      hide Next, Inv;
      assert events[..last][..k] == events[..k];
      FirstDate(me, events[..last], ip, k);
    }
  }

  /** First attempts are never in the past, and those of two peers are at least one second apart. */
  lemma FirstAttemptsApart(me: nat, events: seq<Event>, ip: nat, k: nat, other: nat, l: nat)
    requires AddedAt(events, ip, k) && AddedAt(events, other, l) && k < l && ip < me && other < me
    ensures var p := NextAll(Start(me), events);
            && ip in p.smaller && other in p.smaller
            && events[k].now <= p.smaller[ip] && events[l].now <= p.smaller[other]
            && p.smaller[ip] + 1000000 <= p.smaller[other]
  {
    FirstDate(me, events, ip, k);
    FirstDate(me, events, other, l);
    assert events[..l][..k] == events[..k];
    FirstDate(me, events[..l], ip, k);
    SameDate(me, events, ip, k, l);
  }

  /** The date stays what it was. */
  lemma {:induction false} SameDate(me: nat, events: seq<Event>, ip: nat, k: nat, l: nat)
    requires AddedAt(events, ip, k) && k < l <= |events| && ip < me
    ensures ip in NextAll(Start(me), events).smaller && ip in NextAll(Start(me), events[..l]).smaller
    ensures NextAll(Start(me), events).smaller[ip] == NextAll(Start(me), events[..l]).smaller[ip]
    decreases |events|
  {
    FirstDate(me, events, ip, k);
    FirstDate(me, events[..l], ip, k);
    if l == |events| {
      assert events[..l] == events;
    } else {
      var last := |events| - 1;
      Reachable(me, events[..last]);
      assert events[..last][..l] == events[..l];
      SameDate(me, events[..last], ip, k, l);
    }
  }

  lemma {:induction false} IdleDate(me: nat, events: seq<Event>, k: nat)
    requires k <= |events| && forall j :: k <= j < |events| ==> !(events[j].Add? && events[j].ip < me)
    ensures NextAll(Start(me), events).lastStart == NextAll(Start(me), events[..k]).lastStart
    decreases |events|
  {
    Reachable(me, events);
    if k == |events| {
      assert events[..k] == events;
    } else {
      var last := |events| - 1;
      Reachable(me, events[..last]);
      assert events[..last][..k] == events[..k];
      IdleDate(me, events[..last], k);
    }
  }

  /** And they are not later than that: the first peer is tried at once, and the next one when it is added, or one
      second after the one before. */
  lemma FirstAttemptsInLine(me: nat, events: seq<Event>, ip: nat, k: nat, other: nat, l: nat)
    requires AddedAt(events, ip, k) && AddedAt(events, other, l) && k < l && ip < me && other < me
    requires forall j :: k < j < l ==> !(events[j].Add? && events[j].ip < me)
    ensures var p := NextAll(Start(me), events);
            && ip in p.smaller && other in p.smaller
            && p.smaller[other] == Max(events[l].now, p.smaller[ip] + 1000000)
  {
    DateAtAdd(me, events, ip, k);
    DateAtAdd(me, events, other, l);
    hide Next, NextAll, AddedAt;
    assert events[..l][..k + 1] == events[..k + 1];
    IdleDate(me, events[..l], k + 1);
  }

  lemma FirstAttemptAtOnce(me: nat, events: seq<Event>, ip: nat, k: nat)
    requires AddedAt(events, ip, k) && ip < me && forall j :: 0 <= j < k ==> !(events[j].Add? && events[j].ip < me)
    ensures var p := NextAll(Start(me), events); ip in p.smaller && p.smaller[ip] == Max(events[k].now, 0)
  {
    DateAtAdd(me, events, ip, k);
    IdleDate(me, events[..k], 0);
    assert events[..k][..0] == [];
  }

  lemma DateAtAdd(me: nat, events: seq<Event>, ip: nat, k: nat)
    requires AddedAt(events, ip, k) && ip < me
    ensures var p, before, after :=
              NextAll(Start(me), events), NextAll(Start(me), events[..k]), NextAll(Start(me), events[..k + 1]);
            && ip in p.smaller && p.smaller[ip] == Max(events[k].now, before.lastStart)
            && after.lastStart == p.smaller[ip] + 1000000
  {
    SameDate(me, events, ip, k, k + 1);
    NeverAddedUnknown(me, events[..k], ip);
    Reachable(me, events[..k]);
    assert events[..k + 1][..k] == events[..k];
  }

  /** Adding a peer that waits for its next attempt makes that attempt immediate, unless it is connected. */
  lemma AddedAgain(p: Peers, ip: nat, port: nat, now: int, connected: bool, accepted: bool)
    requires Inv(p) && ip in p.smaller
    ensures var q := Next(p, Add(ip, port, now, connected, accepted));
            q == p.(smaller := q.smaller) && q.smaller == p.smaller[ip := if connected then p.smaller[ip] else now]
  {
  }

  /** The port of a peer is the one it was first added with. */
  lemma {:induction false} FirstPort(me: nat, events: seq<Event>, ip: nat, k: nat)
    requires ip != me && k < |events| && events[k].Add? && events[k].ip == ip
    requires forall j :: 0 <= j < k ==> !(events[j].Add? && events[j].ip == ip)
    ensures ip in NextAll(Start(me), events).all && NextAll(Start(me), events).all[ip] == events[k].port
    decreases |events|
  {
    var last := |events| - 1;
    Reachable(me, events[..last]);
    if k == last {
      NeverAddedUnknown(me, events[..k], ip);
    } else {
      FirstPort(me, events[..last], ip, k);
    }
  }

  lemma {:induction false} NextAllAppend(p: Peers, a: seq<Event>, b: seq<Event>)
    ensures NextAll(p, a + b) == NextAll(NextAll(p, a), b)
  {
    if b == [] {
      assert a + b == a;
    } else {
      hide Next;
      NextAllAppend(p, a, b[..|b| - 1]);
      assert (a + b)[..|a + b| - 1] == a + b[..|b| - 1];
    }
  }

  /** A known address is put in neither map once it is out of them. */
  lemma {:induction false} KnownStaysOut(p: Peers, events: seq<Event>, ip: nat)
    requires ip in p.all
    ensures var q := NextAll(p, events);
            && ip in q.all
            && (ip !in p.smaller ==> ip !in q.smaller)
            && (ip !in p.gossip ==> ip !in q.gossip)
  {
    if events != [] {
      KnownStaysOut(p, events[..|events| - 1], ip);
    }
  }

  /** Forgetting a known peer is for good: no later event, not even adding it again, makes us connect to it. */
  lemma ForgottenForGood(me: nat, before: seq<Event>, ip: nat, after: seq<Event>)
    requires ip in NextAll(Start(me), before).all
    ensures var p := NextAll(Start(me), before + [Forget(ip)] + after);
            ip in p.all && ip !in p.smaller && (ip < me ==> ip !in p.gossip)
  {
    OutForGood(me, before, Forget(ip), ip, after);
    Reachable(me, before + [Forget(ip)] + after);
  }

  /** A known peer that answered is never sent a GOSSIP again. */
  lemma AnsweredForGood(me: nat, before: seq<Event>, ip: nat, after: seq<Event>)
    requires ip in NextAll(Start(me), before).all
    ensures var p := NextAll(Start(me), before + [GossipReceived(ip)] + after);
            ip in p.all && ip !in p.gossip && (me < ip ==> ip !in p.smaller)
  {
    OutForGood(me, before, GossipReceived(ip), ip, after);
    Reachable(me, before + [GossipReceived(ip)] + after);
  }

  /** When gossiping stops, no known peer is sent a GOSSIP any more, and whom we connect to stays the same. */
  lemma StoppedForGood(me: nat, before: seq<Event>, ip: nat, after: seq<Event>)
    requires ip in NextAll(Start(me), before).all
    ensures ip !in NextAll(Start(me), before + [StopGossiping] + after).gossip
    ensures NextAll(Start(me), before + [StopGossiping]).smaller == NextAll(Start(me), before).smaller
  {
    NextAllAppend(Start(me), before + [StopGossiping], after);
    assert (before + [StopGossiping])[..|before|] == before;
    KnownStaysOut(NextAll(Start(me), before + [StopGossiping]), after, ip);
  }

  /** A peer whose connection is refused when it is first added is known, and in neither map ever after. */
  lemma RefusedForGood(me: nat, before: seq<Event>, ip: nat, port: nat, now: int, connected: bool, after: seq<Event>)
    requires ip != me && forall j :: 0 <= j < |before| ==> !(before[j].Add? && before[j].ip == ip)
    ensures var p := NextAll(Start(me), before + [Add(ip, port, now, connected, false)] + after);
            ip in p.all && ip !in p.smaller && ip !in p.gossip
  {
    var events := before + [Add(ip, port, now, connected, false)];
    NeverAddedUnknown(me, before, ip);
    Reachable(me, before);
    assert events[..|before|] == before;
    NextAllAppend(Start(me), events, after);
    KnownStaysOut(NextAll(Start(me), events), after, ip);
  }

  lemma OutForGood(me: nat, before: seq<Event>, e: Event, ip: nat, after: seq<Event>)
    requires e == Forget(ip) || e == GossipReceived(ip)
    requires ip in NextAll(Start(me), before).all
    ensures var p := NextAll(Start(me), before + [e] + after);
            && ip in p.all
            && (e == Forget(ip) ==> ip !in p.smaller)
            && (e == GossipReceived(ip) ==> ip !in p.gossip)
  {
    NextAllAppend(Start(me), before + [e], after);
    assert (before + [e])[..|before|] == before;
    KnownStaysOut(NextAll(Start(me), before + [e]), after, ip);
  }

  class RemoteCommunicators {
    const me: nat
    var all: map<nat, nat>
    var smaller: map<nat, int>
    var gossip: set<nat>
    var lastStart: int

    function State(): Peers
      reads this
    {
      Peers(me, all, smaller, gossip, lastStart)
    }

    constructor (me: nat)
      ensures State() == Start(me)
    {
      this.me := me;
      all, smaller, gossip, lastStart := map[], map[], {}, 0;
    }

    method AddRemoteCommunicator(ip: nat, port: nat, now: int, connected: bool, accepted: bool)
      modifies this
      ensures State() == Next(old(State()), Add(ip, port, now, connected, accepted))
    {
      if ip == me {
        return;
      }
      if ip in all {
        if ip < me {
          if ip in smaller && !connected {
            smaller := smaller[ip := now];
          }
        }
        return;
      }
      all := all[ip := port];
      if ip < me {
        if now > lastStart {
          lastStart := now;
        }
        smaller := smaller[ip := lastStart];
        lastStart := lastStart + SECOND;
        if !accepted {
          smaller := smaller - {ip};
        }
      } else {
        gossip := gossip + {ip};
        if !accepted {
          gossip := gossip - {ip};
        }
      }
    }

    method ReceivedGossip(ip: nat)
      modifies this`gossip
      ensures State() == Next(old(State()), GossipReceived(ip))
    {
      gossip := gossip - {ip};
    }

    method ForgetRemoteConnection(ip: nat)
      modifies this`smaller
      ensures State() == Next(old(State()), Forget(ip))
    {
      smaller := smaller - {ip};
    }

    /** Removes the gossip connections one by one. */
    method StopGossip()
      modifies this`gossip
      ensures State() == Next(old(State()), StopGossiping)
    {
      while gossip != {}
        invariant gossip <= old(gossip)
        decreases gossip
      {
        var ip :| ip in gossip;
        gossip := gossip - {ip};
      }
    }
  }
}
