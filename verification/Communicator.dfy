/** The snapcommunicator daemon: its message handlers, updating its tables in place. */
module Communicator {
  import opened Sequences
  import opened Messages
  import opened Handler

  class SnapCommunicator {
    const serverName: string
    const address: Address
    var connections: seq<Connection>
    var localServices: set<string>
    var received: map<string, int>
    var sequence: nat
    var cache: seq<CachedMessage>

    function State(): Node
      reads this
    {
      Node(serverName, address, connections, localServices, received, sequence, cache)
    }

    constructor (name: string, address: Address, services: set<string>)
      ensures State() == Node(name, address, [], services, map[], 0, [])
    {
      this.serverName := name;
      this.address := address;
      connections := [];
      localServices := services;
      received := map[];
      sequence := 0;
      cache := [];
    }

    /** Forget the identifiers whose messages can no longer be accepted. */
    method PurgeReceived(now: int)
      modifies this`received
      ensures received == Purge(old(received), now)
    {
      var pending := received.Keys;
      while pending != {}
        invariant pending <= received.Keys <= old(received).Keys
        invariant forall id :: id in received ==> received[id] == old(received)[id]
        invariant forall id :: id in old(received) && id !in pending ==> (id in received <==> old(received)[id] >= now)
        decreases pending
      {
        var id :| id in pending;
        if received[id] < now {
          received := received - {id};
        }
        pending := pending - {id};
      }
      assert received.Keys == Purge(old(received), now).Keys;
    }

    /** Walk over every connection: local services first hand, other servers when the destination allows. */
    method FloodTargets(m: Message, hops: int, informed: seq<Address>)
      returns (locals: seq<nat>, targets: seq<nat>, known: seq<Address>)
      ensures locals == LocalTargets(connections, |connections|, m.command)
      ensures Selection(known, targets) ==
              Select(connections, FloodCandidates(connections, |connections|, hops, Destination(m)), informed)
    {
      locals, targets, known := [], [], informed;
      var destination := "?";
      if IsFlood(m.service) {
        destination := m.service;
      } else if m.server != "" {
        destination := m.server;
      }
      var all := hops < MAX_HOPS && destination == "*";
      var remote := hops < MAX_HOPS && (all || destination == "?");
      for k := 0 to |connections|
        invariant locals == LocalTargets(connections, k, m.command)
        invariant Selection(known, targets) ==
                  Select(connections, FloodCandidates(connections, k, hops, destination), informed)
      {
        var c := connections[k];
        if c.Service? && c.network == Loopback {
          if m.command in c.commands {
            locals := locals + [k];
          }
        } else if !c.Other? && ((c.network == Private && remote) || (c.network == Public && all)) {
          if c.address !in known {
            known := known + [c.address];
            targets := targets + [k];
          }
        }
      }
    }

    method ListTargets(accepting: seq<nat>, informed: seq<Address>)
      returns (targets: seq<nat>, known: seq<Address>)
      requires ValidIndexes(connections, accepting)
      ensures Selection(known, targets) == Select(connections, accepting, informed)
    {
      targets, known := [], informed;
      for k := 0 to |accepting|
        invariant Selection(known, targets) == Select(connections, accepting[..k], informed)
      {
        assert accepting[..k + 1][..k] == accepting[..k];
        var c := connections[accepting[k]];
        if !c.Other? && c.address !in known {
          known := known + [c.address];
          targets := targets + [accepting[k]];
        }
      }
      assert accepting[..|accepting|] == accepting;
    }

    method BroadcastMessage(m: Message, accepting: seq<nat>, now: int) returns (e: Effect)
      requires ValidIndexes(connections, accepting)
      modifies this`received, this`sequence
      ensures (State(), e) == Broadcast(old(State()), m, accepting, now)
    {
      hide Select, LocalTargets, FloodCandidates, Destination, MessageId, Purge;
      var msgid := "";
      var informed: seq<Address> := [];
      var hops := 0;
      var timeout := 0;
      if m.trace.Some? {
        timeout := m.trace.value.timeout;
        if timeout < now {
          return Nothing(Ignored);
        }
        msgid := m.trace.value.msgid;
        if msgid in received {
          return Nothing(Ignored);
        }
        PurgeReceived(now);
        received := received[msgid := timeout];
        informed := m.trace.value.informed;
        hops := m.trace.value.hops;
      }
      assert State() == Record(old(State()), m.trace, now);
      var locals: seq<nat> := [];
      var targets: seq<nat>;
      if accepting == [] {
        locals, targets, informed := FloodTargets(m, hops, informed);
      } else {
        targets, informed := ListTargets(accepting, informed);
      }
      ghost var chosen := informed;
      var copy := None;
      if targets != [] {
        if address !in informed {
          informed := informed + [address];
        }
        sequence := sequence + 1;
        if msgid == "" {
          msgid := MessageId(serverName, sequence);
        }
        if timeout == 0 {
          timeout := now + BROADCAST_LIFETIME;
        }
        var trace := Trace(msgid, hops + 1, address, timeout, informed);
        assert trace == NextTrace(old(State()), m.trace, chosen, now);
        copy := Some(m.(trace := Some(trace)));
      }
      e := Effect(Flooded, locals, targets, copy);
    }

    /** Look for a connection named after the service; collect the other servers on the way. */
    method FindService(server: string, service: string) returns (serving: Option<nat>, accepting: seq<nat>)
      ensures serving == FirstServing(connections, 0, server, service)
      ensures serving.None? ==> accepting == Accepting(connections, |connections|, server)
    {
      accepting := [];
      for k := 0 to |connections|
        invariant FirstServing(connections, 0, server, service) == FirstServing(connections, k, server, service)
        invariant accepting == Accepting(connections, k, server)
      {
        var c := connections[k];
        if !c.Other? && c.serverName != "" && (AllServers(server) || server == c.serverName) {
          if c.Service? {
            if c.name == service {
              return Some(k), accepting;
            }
            if c.kind == RemoteServer {
              accepting := accepting + [k];
            }
          } else {
            accepting := accepting + [k];
          }
        }
      }
      serving := None;
    }

    method ProcessMessage(m: Message, now: int) returns (e: Effect)
      modifies this`received, this`sequence, this`cache
      ensures (State(), e) == Process(old(State()), m, now)
    {
      if m.trace.Some? {
        if m.trace.value.timeout < now || m.trace.value.msgid in received {
          return Nothing(Ignored);
        }
      }
      var server := if m.server == "." then serverName else m.server;
      if (server == "" || server == serverName || server == "*")
         && (m.service == "" || m.service == "snapcommunicator")
      {
        return Nothing(Command);
      }
      if m.service == "*" || m.service == "?" || m.service == "." {
        if server != "" && server != "*" && (m.service == "*" || m.service == "?") {
          return Nothing(Contradiction);
        }
        e := BroadcastMessage(m, [], now);
      } else {
        e := RouteToService(m, server, now);
      }
    }

    method RouteToService(m: Message, server: string, now: int) returns (e: Effect)
      requires server == TargetServer(State(), m)
      modifies this`received, this`sequence, this`cache
      ensures (State(), e) == Route(old(State()), m, now)
    {
      var serving, accepting := FindService(server, m.service);
      if serving.Some? {
        return Nothing(Delivered(serving.value));
      }
      if (AllServers(server) || server == serverName) && m.service in localServices {
        if m.cache.NoCache? {
          return Nothing(Dropped);
        }
        cache := cache + [CachedMessage(now + TimeToLive(m.cache), m)];
        return Nothing(Outcome.Cached);
      }
      if server == serverName || accepting == [] {
        return Nothing(Dropped);
      }
      e := BroadcastMessage(m, accepting, now);
    }

    /** std::remove_if() over the cached messages. */
    method RemoveTimedOut(now: int)
      modifies this`cache
      ensures cache == Filter(old(cache), Alive(now))
    {
      var kept: seq<CachedMessage> := [];
      for k := 0 to |cache|
        invariant cache == old(cache)
        invariant kept == Filter(cache[..k], Alive(now))
      {
        assert cache[..k + 1][..k] == cache[..k];
        if !(now > cache[k].timeout) {
          kept := kept + [cache[k]];
        }
      }
      assert cache[..|cache|] == cache;
      cache := kept;
    }

    method RegisterService(i: nat, service: string, now: int) returns (sent: seq<Message>)
      requires i < |connections| && !connections[i].Other?
      modifies this`connections, this`cache
      ensures (State(), sent) == Register(old(State()), i, service, now)
    {
      var c := connections[i];
      assert connections[i := c] == connections;
      if c.Service? {
        connections := connections[i := c.(name := service, kind := Local)];
      }
      RemoveTimedOut(now);
      sent := FlushService(service);
    }

    /** Send and erase, by index, what the cache holds for the service. */
    method FlushService(service: string) returns (sent: seq<Message>)
      modifies this`cache
      ensures cache == Filter(old(cache), NotFor(service))
      ensures sent == MessagesOf(Filter(old(cache), For(service)))
    {
      ghost var all := cache;
      ghost var seen := 0;
      ghost var kept: seq<CachedMessage> := [];
      ghost var handed: seq<CachedMessage> := [];
      sent := [];
      var index := 0;
      var max := |cache|;
      while index < max
        invariant 0 <= index <= max == |cache| && 0 <= seen && seen + max - index == |all|
        invariant kept == Filter(all[..seen], NotFor(service)) && handed == Filter(all[..seen], For(service))
        invariant index == |kept| && cache == kept + all[seen..]
        invariant sent == MessagesOf(handed)
        decreases max - index
      {
        FilterNext(all, seen, NotFor(service));
        FilterNext(all, seen, For(service));
        EraseMiddle(kept, all, seen);
        if cache[index].message.service == service {
          sent := sent + [cache[index].message];
          MessagesSnoc(handed, all[seen]);
          handed := handed + [all[seen]];
          cache := cache[..index] + cache[index + 1..];
          max := max - 1;
        } else {
          kept := kept + [all[seen]];
          index := index + 1;
        }
        seen := seen + 1;
      }
      assert all[..seen] == all;
    }

    method UnregisterService(i: nat)
      requires i < |connections|
      modifies this`connections
      ensures State() == Unregister(old(State()), i)
    {
      connections := connections[..i] + connections[i + 1..];
    }
  }
}
