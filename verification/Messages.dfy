/** Messages between snapcommunicators, connections, and broadcast identifiers. */
module Messages {
  import opened Sequences
  import opened Text

  type Address = string

  datatype NetworkType = Loopback | Private | Public | Unknown

  datatype ConnectionType = Down | Local | RemoteServer

  /** A Service connected to us (a local service or another snapcommunicator);
      a Communicator is a snapcommunicator we connected to; Other is a listener or a timer. */
  datatype Connection =
    | Service(name: string, serverName: string, address: Address, network: NetworkType,
              kind: ConnectionType, commands: set<string>)
    | Communicator(serverName: string, address: Address, network: NetworkType)
    | Other

  /** The "cache" parameter: "no", or a list with an optional "ttl", None when absent or unreadable. */
  datatype CachePolicy = NoCache | Cache(ttl: Option<int>)

  /** The broadcast_* parameters of a message. */
  datatype Trace = Trace(msgid: string, hops: int, originator: Address, timeout: int, informed: seq<Address>)

  datatype Message = Message(command: string, server: string, service: string, cache: CachePolicy,
                             parameters: map<string, string>, trace: Option<Trace>)

  datatype CachedMessage = CachedMessage(timeout: int, message: Message)

  predicate IsFlood(service: string) { service == "*" || service == "?" || service == "." }

  /** The identifier given to the message numbered `sequence` by server `name`. */
  function MessageId(name: string, sequence: nat): string {
    name + "-" + Decimal(sequence)
  }

  lemma MessageIdDash(a: string, m: nat, b: string, n: nat)
    requires |a| < |b|
    ensures MessageId(a, m) != MessageId(b, n)
  {
    var id := MessageId(a, m);
    assert MessageId(b, n)[|b|] == '-';
    if |b| < |id| {
      assert id[|b|] == Decimal(m)[|b| - |a| - 1];
    }
  }

  /** Names may contain dashes and digits: the last dash still separates name and number. */
  lemma MessageIdInjective(a: string, m: nat, b: string, n: nat)
    requires MessageId(a, m) == MessageId(b, n)
    ensures a == b && m == n
  {
    if |a| < |b| {
      MessageIdDash(a, m, b, n);
    } else if |b| < |a| {
      MessageIdDash(b, n, a, m);
    }
    var id := MessageId(a, m);
    assert a == id[..|a|] == b;
    assert Decimal(m) == id[|a| + 1..] == Decimal(n);
    DecimalInjective(m, n);
  }

  /** The informed neighbors travel as one comma separated parameter. */
  function Join(list: seq<Address>): string {
    if list == [] then "" else if |list| == 1 then list[0] else list[0] + "," + Join(list[1..])
  }

  /** QString::split(',') with SkipEmptyParts; `part` is the piece being read. */
  function Split(s: string, part: string): seq<Address> {
    if s == "" then (if part == "" then [] else [part])
    else if s[0] == ',' then (if part == "" then [] else [part]) + Split(s[1..], "")
    else Split(s[1..], part + [s[0]])
  }

  lemma {:induction false} SplitPart(a: string, s: string, part: string)
    requires ',' !in a
    ensures Split(a + s, part) == Split(s, part + a)
  {
    if a == "" {
      assert a + s == s && part + a == part;
    } else {
      assert (a + s)[1..] == a[1..] + s;
      SplitPart(a[1..], s, part + [a[0]]);
      assert part + [a[0]] + a[1..] == part + a;
    }
  }

  lemma {:induction false} SplitJoin(list: seq<Address>)
    requires forall a :: a in list ==> a != "" && ',' !in a
    ensures Split(Join(list), "") == list
  {
    if |list| == 1 {
      SplitPart(list[0], "", "");
      assert list[0] + "" == list[0];
      assert "" + list[0] == list[0];
    } else if list != [] {
      var rest := "," + Join(list[1..]);
      SplitPart(list[0], rest, "");
      assert "" + list[0] == list[0];
      assert Join(list) == list[0] + rest;
      assert rest[1..] == Join(list[1..]);
      SplitJoin(list[1..]);
    }
  }
}
