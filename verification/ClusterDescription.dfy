/** snapdbproxy: the cluster description shared by the connection threads, behind their mutex. */
module ClusterDescription {
  import opened Sequences

  /** A schema, and a description of it: each table with its definition. */
  type Schema = map<string, string>

  /** Where a thread is in the order it runs. */
  datatype Thread =
    | Idle
    | AskDescribe(anew: bool)                   // waiting for the mutex
    | Describing(anew: bool)                    // the first test
    | Testing(anew: bool)                       // the second test
    | Loading(todo: set<string>, read: Schema)  // reading the schema, table by table
    | Replying
    | Executing(flag: bool, dirty: bool)        // running a command; dirty once it changed the schema
    | AskClear(dirty: bool)                     // waiting for the mutex
    | Clearing(dirty: bool)

  datatype Proxy = Proxy(schema: Schema, cached: Option<Schema>, holder: Option<nat>, threads: seq<Thread>)

  datatype Event =
    | Describe(thread: nat, anew: bool)
    | Command(thread: nat, flag: bool)
    | Change(thread: nat, schema: Schema)     // the command changes the schema
    | Finish(thread: nat)                     // the command returns
    | Abort(thread: nat)                      // the command throws: the flag is not looked at
    | Lock(thread: nat)
    | TestAnew(thread: nat)
    | TestEmpty(thread: nat)
    | LoadTable(thread: nat, name: string)
    | Store(thread: nat)
    | Reply(thread: nat, description: Schema) // and release the mutex
    | Clear(thread: nat)                      // and release the mutex

  predicate HoldsMutex(t: Thread) {
    t.Describing? || t.Testing? || t.Loading? || t.Replying? || t.Clearing?
  }

  /** A thread that changed the schema and has not yet run its clear. */
  predicate Pending(t: Thread) {
    match t
    case Executing(_, dirty) => dirty
    case AskClear(dirty) => dirty
    case Clearing(dirty) => dirty
    case _ => false
  }

  function Set(p: Proxy, i: nat, t: Thread): Proxy
    requires i < |p.threads|
  {
    p.(threads := p.threads[i := t])
  }

  /** The step can happen. */
  predicate Enabled(p: Proxy, e: Event) {
    && e.thread < |p.threads|
    && var t := p.threads[e.thread];
       match e
       case Describe(_, anew) => t.Idle?
       case Command(_, flag) => t.Idle?
       case Change(_, schema) => t.Executing?
       case Finish(_) => t.Executing?
       case Abort(_) => t.Executing?
       case Lock(_) => (t.AskDescribe? || t.AskClear?) && p.holder.None?
       case TestAnew(_) => t.Describing?
       case TestEmpty(_) => t.Testing?
       case LoadTable(_, name) => t.Loading? && name in t.todo
       case Store(_) => t.Loading? && t.todo == {}
       case Reply(_, description) => t.Replying? && p.cached == Some(description)
       case Clear(_) => t.Clearing?
  }

  function Next(p: Proxy, e: Event): Proxy
    requires Enabled(p, e)
  {
    var i := e.thread;
    var t := p.threads[i];
    match e
    case Describe(_, anew) => Set(p, i, AskDescribe(anew))
    case Command(_, flag) => Set(p, i, Executing(flag, false))
    case Change(_, schema) => Set(p.(schema := schema), i, t.(dirty := true))
    case Finish(_) => Set(p, i, if t.flag then AskClear(t.dirty) else Idle)
    case Abort(_) => Set(p, i, Idle)
    case Lock(_) => Set(p.(holder := Some(i)), i, if t.AskDescribe? then Describing(t.anew) else Clearing(t.dirty))
    case TestAnew(_) => Set(if t.anew then p.(cached := None) else p, i, Testing(t.anew))
    case TestEmpty(_) => Set(p, i, if p.cached.None? then Loading(p.schema.Keys, map[]) else Replying)
    case LoadTable(_, name) =>
      Set(p, i, Loading(t.todo - {name}, if name in p.schema then t.read[name := p.schema[name]] else t.read))
    case Store(_) => Set(p.(cached := Some(t.read)), i, Replying)
    case Reply(_, _) => Set(p.(holder := None), i, Idle)
    case Clear(_) => Set(p.(cached := None, holder := None), i, Idle)
  }

  /** Commands that change the schema carry the flag, and none throws after its change. */
  predicate Disciplined(p: Proxy, e: Event)
    requires Enabled(p, e)
  {
    match e
    case Change(i, _) => p.threads[i].flag
    case Abort(i) => !p.threads[i].dirty
    case _ => true
  }

  function Start(schema: Schema, n: nat): Proxy {
    Proxy(schema, None, None, seq(n, i => Idle))
  }

  /** The events can happen one after the other. */
  predicate Possible(p: Proxy, events: seq<Event>)
    decreases |events|
  {
    events == [] || (Enabled(p, events[0]) && Possible(Next(p, events[0]), events[1..]))
  }

  function Run(p: Proxy, events: seq<Event>): Proxy
    requires Possible(p, events)
    decreases |events|
  {
    if events == [] then p else Run(Next(p, events[0]), events[1..])
  }

  predicate AllDisciplined(p: Proxy, events: seq<Event>)
    requires Possible(p, events)
    decreases |events|
  {
    events == [] || (Disciplined(p, events[0]) && AllDisciplined(Next(p, events[0]), events[1..]))
  }

  // ---- coherence ----

  ghost predicate SomePending(p: Proxy) {
    exists i :: 0 <= i < |p.threads| && Pending(p.threads[i])
  }

  /** The cache is empty, or right, or about to be cleared. */
  ghost predicate Coherent(p: Proxy) {
    p.cached.None? || p.cached.value == p.schema || SomePending(p)
  }

  ghost predicate MutexInv(p: Proxy) {
    forall i :: 0 <= i < |p.threads| ==> (HoldsMutex(p.threads[i]) <==> p.holder == Some(i))
  }

  /** The tables read so far, and those still to be read, are those of the schema. */
  predicate LoadedSoFar(todo: set<string>, read: Schema, schema: Schema) {
    todo + read.Keys == schema.Keys && todo !! read.Keys && forall k :: k in read ==> read[k] == schema[k]
  }

  ghost predicate ThreadInv(p: Proxy, t: Thread) {
    match t
    case Executing(flag, dirty) => dirty ==> flag
    case Loading(todo, read) => p.cached.None? && (LoadedSoFar(todo, read, p.schema) || SomePending(p))
    case Testing(anew) => anew ==> p.cached.None?
    case Replying => p.cached.Some?
    case _ => true
  }

  ghost predicate Inv(p: Proxy) {
    && MutexInv(p) && Coherent(p)
    && forall i :: 0 <= i < |p.threads| ==> ThreadInv(p, p.threads[i])
  }

  lemma PendingKept(p: Proxy, q: Proxy, i: nat)
    requires i < |p.threads| == |q.threads| && q.threads == p.threads[i := q.threads[i]]
    ensures Pending(q.threads[i]) ==> SomePending(q)
    ensures !Pending(p.threads[i]) && SomePending(p) ==> SomePending(q)
  {
    if !Pending(p.threads[i]) && SomePending(p) {
      var j :| 0 <= j < |p.threads| && Pending(p.threads[j]);
      assert Pending(q.threads[j]);
    }
  }

  /** A thread that stays where it is keeps its part, as long as no load goes on during a clear. */
  lemma OthersKept(p: Proxy, e: Event, j: nat)
    requires Enabled(p, e) && Disciplined(p, e) && Inv(p)
    requires j < |p.threads| && j != e.thread
    ensures ThreadInv(Next(p, e), p.threads[j])
  {
    hide LoadedSoFar, Coherent;
    PendingKept(p, Next(p, e), e.thread);
    assert ThreadInv(p, p.threads[j]) && ThreadInv(p, p.threads[e.thread]);
    assert HoldsMutex(p.threads[j]) ==> !HoldsMutex(p.threads[e.thread]);
  }

  lemma OwnKept(p: Proxy, e: Event)
    requires Enabled(p, e) && Disciplined(p, e) && Inv(p)
    ensures ThreadInv(Next(p, e), Next(p, e).threads[e.thread])
    ensures Coherent(Next(p, e))
  {
    PendingKept(p, Next(p, e), e.thread);
    assert ThreadInv(p, p.threads[e.thread]);
  }

  lemma InvKept(p: Proxy, e: Event)
    requires Enabled(p, e) && Disciplined(p, e) && Inv(p)
    ensures Inv(Next(p, e))
  {
    hide ThreadInv, Coherent;
    OwnKept(p, e);
    var q := Next(p, e);
    forall j | 0 <= j < |q.threads|
      ensures ThreadInv(q, q.threads[j])
    {
      if j != e.thread {
        OthersKept(p, e, j);
      }
    }
  }

  lemma {:induction false} RunKeepsInv(p: Proxy, events: seq<Event>)
    requires Possible(p, events) && AllDisciplined(p, events) && Inv(p)
    ensures Inv(Run(p, events))
    decreases |events|
  {
    if events != [] {
      hide Inv;
      InvKept(p, events[0]);
      RunKeepsInv(Next(p, events[0]), events[1..]);
    }
  }

  /** In every interleaving, the shared description is empty, or equals the schema, or a thread that changed the
      schema has yet to clear it; a description sent to a client equals the schema unless such a thread exists. */
  lemma CacheCoherent(schema: Schema, n: nat, events: seq<Event>)
    requires Possible(Start(schema, n), events) && AllDisciplined(Start(schema, n), events)
    ensures var p := Run(Start(schema, n), events);
            && Coherent(p)
            && (forall i: nat, d :: Enabled(p, Reply(i, d)) ==> d == p.schema || SomePending(p))
  {
    hide Possible, Run, AllDisciplined;
    assert Inv(Start(schema, n));
    RunKeepsInv(Start(schema, n), events);
  }

  /** The schema is read for a description exactly when none is cached or a new one is asked for; the read starts with
      the tables of the moment and takes each table as it is at its own moment. */
  lemma ReadWhenNeeded(p: Proxy, i: nat)
    requires Inv(p) && i < |p.threads|
    ensures p.threads[i].Testing? ==>
              && Enabled(p, TestEmpty(i))
              && Next(p, TestEmpty(i)).threads[i] ==
                 (if p.cached.None? then Loading(p.schema.Keys, map[]) else Replying)
              && (p.threads[i].anew ==> p.cached.None?)
              && Next(p, TestEmpty(i)).cached == p.cached
    ensures p.threads[i].Describing? && !p.threads[i].anew ==> Next(p, TestAnew(i)).cached == p.cached
    ensures p.threads[i].Describing? && p.threads[i].anew ==> Next(p, TestAnew(i)).cached.None?
  {
    assert ThreadInv(p, p.threads[i]);
  }

  /** Exactly when a command that changes the schema leaves the cache coherent: it carried the flag and did not throw,
      unless the cached description happens to be right, or another thread is about to clear it. */
  lemma ChangeCoherent(p: Proxy, i: nat, flag: bool, schema: Schema, throws: bool)
    requires i < |p.threads| && p.threads[i].Idle? && p.cached.Some?
    ensures var end := if throws then Abort(i) else Finish(i);
            var events := [Command(i, flag), Change(i, schema), end];
            && Possible(p, events)
            && (Coherent(Run(p, events)) <==> (flag && !throws) || p.cached.value == schema || SomePending(p))
  {
    hide SomePending;
    var end := if throws then Abort(i) else Finish(i);
    var p1 := Next(p, Command(i, flag));
    var p2 := Next(p1, Change(i, schema));
    var p3 := Next(p2, end);
    assert [Change(i, schema), end][1..] == [end];
    assert [Command(i, flag), Change(i, schema), end][1..] == [Change(i, schema), end];
    assert Run(p2, [end]) == p3 by {
      assert [end][1..] == [];
    }
    assert p3.threads == p.threads[i := p3.threads[i]];
    PendingKept(p, p3, i);
    PendingKept(p3, p, i);
  }
}
