/** snap.cgi: the response read in chunks, its header parsed, and the copy kept for later requests. */
module CgiCache {
  import opened Sequences
  import opened Text
  import opened CgiFields

  const DATE_FIELD := "X-Snap-CGI-Date"

  datatype Phase = Name | Separator | DataStart | Data | Continue | Caching | NoCache

  /** What the Cache-Control field says. */
  datatype CacheControl = CacheControl(
    mustRevalidate: bool, proxyRevalidate: bool, isPrivate: bool, isPublic: bool, noCache: bool, sMaxAge: int,
    excluded: set<string>)   // private and to-be-revalidated field names

  /** The reader of the Cache-Control field, and the clock. */
  datatype Env = Env(settings: string -> CacheControl, now: nat)

  datatype State = State(
    phase: Phase,
    buffer: string,
    pos: nat,
    name: string,
    data: string,
    fields: Fields,
    file: Option<string>)

  const START := State(Name, "", 0, "", "", [], None)

  predicate InHeader(s: State) { s.phase != Caching && s.phase != NoCache }

  // ---- check_headers() ----

  function Lower(c: char): char { if 'A' <= c <= 'Z' then c - 'A' + 'a' else c }

  function LowerAll(s: string): (r: string)
    ensures |r| == |s| && forall i :: 0 <= i < |s| ==> r[i] == Lower(s[i])
  {
    seq(|s|, i requires 0 <= i < |s| => Lower(s[i]))
  }

  predicate IsDigit(c: char) { '0' <= c <= '9' }

  function Number(s: string, n: int): int
    requires forall i :: 0 <= i < |s| ==> IsDigit(s[i])
  {
    if s == "" then n else Number(s[1..], n * 10 + (s[0] as int - '0' as int))
  }

  /** std::stoi(): None when it throws. */
  function Stoi(s: string): Option<int> {
    var start := Skip(s, 0, IsSpace);
    var negative := start < |s| && s[start] == '-';
    var digits := if start < |s| && (s[start] == '-' || s[start] == '+') then start + 1 else start;
    var end := Skip(s, digits, IsDigit);
    if digits == end then None
    else
      assert forall i :: 0 <= i < end - digits ==> s[digits..end][i] == s[digits + i];
      var n := Number(s[digits..end], 0);
      var v := if negative then -n else n;
      if -0x8000_0000 <= v < 0x8000_0000 then Some(v) else None
  }

  predicate NotSpace(c: char) { c != ' ' }

  datatype Verdict = Accepted | Refused | Thrown

  /** Only "200 ..." is cached; a status without a space is not looked at. */
  function StatusVerdict(fields: Fields): Verdict {
    match Get(fields, "status")
    case None => Accepted
    case Some(status) =>
      var space := Skip(status, 0, NotSpace);
      if space == |status| then Accepted
      else
        match Stoi(status[..space])
        case None => Thrown
        case Some(code) => if code == 200 then Accepted else Refused
  }

  predicate Cacheable(c: CacheControl) {
    && !c.mustRevalidate && !c.proxyRevalidate && !c.isPrivate && c.isPublic && !c.noCache && c.sMaxAge != 0
  }

  function Control(fields: Fields, env: Env): Option<CacheControl> {
    match Get(fields, "cache-control")
    case None => None
    case Some(value) => Some(env.settings(value))
  }

  function Excluded(c: CacheControl): set<string> { set n | n in c.excluded :: LowerAll(n) }

  function DateLine(now: nat): string { DATE_FIELD + ":" + Decimal(now) }

  function FieldLine(f: (string, string)): string { f.0 + ":" + f.1 }

  function FieldLines(fields: Fields, excluded: set<string>): string {
    if fields == [] then ""
    else (if fields[0].0 in excluded then "" else FieldLine(fields[0]) + "\n") + FieldLines(fields[1..], excluded)
  }

  /** The header of the cache file: the date, the fields that may be kept, and an empty line. */
  function FileHeader(fields: Fields, excluded: set<string>, now: nat): string {
    DateLine(now) + "\n" + FieldLines(fields, excluded) + "\n"
  }

  function CheckHeaders(s: State, env: Env): State
    requires s.pos <= |s.buffer|
  {
    match StatusVerdict(s.fields)
    case Thrown => s.(phase := NoCache)
    case Refused => s.(phase := NoCache, buffer := "")
    case Accepted =>
      match Control(s.fields, env)
      case None => s.(phase := NoCache, buffer := "")
      case Some(control) =>
        if Cacheable(control) then
          s.(phase := Caching, buffer := "",
             file := Some(FileHeader(s.fields, Excluded(control), env.now) + s.buffer[s.pos..]))
        else s.(phase := NoCache, buffer := "")
  }

  // ---- cache_data() ----

  function Fail(s: State): State { s.(phase := NoCache, buffer := "") }

  predicate NameChar(c: char) { ('a' <= c <= 'z') || IsDigit(c) || c == '_' || c == '-' }

  function NameStep(s: State, c: char, env: Env): State
    requires s.pos <= |s.buffer|
  {
    if c == '\n' then (if s.name != "" then Fail(s) else CheckHeaders(s, env))
    else if c == ':' then s.(phase := DataStart)
    else if IsBlank(c) then s.(phase := Separator)
    else if NameChar(Lower(c)) then s.(name := s.name + [Lower(c)])
    else Fail(s)
  }

  function DataStep(s: State, c: char): State {
    if c == '\n' then s.(phase := Continue) else s.(data := s.data + [c])
  }

  /** One character of the header. */
  function Step(s: State, c: char, env: Env): State
    requires InHeader(s) && s.pos <= |s.buffer|
  {
    match s.phase
    case Continue =>
      if IsBlank(c) then s.(phase := DataStart, data := s.data + " ")
      else NameStep(s.(phase := Name, fields := Put(s.fields, s.name, s.data), name := "", data := ""), c, env)
    case Name => NameStep(s, c, env)
    case Separator =>
      if IsBlank(c) then s else if c == ':' then s.(phase := DataStart) else Fail(s)
    case DataStart =>
      if IsBlank(c) then s else DataStep(s.(phase := Data), c)
    case Data => DataStep(s, c)
  }

  /** The loop over the buffered characters; it stops when the header ends or is refused. */
  function Loop(s: State, env: Env): State
    requires s.pos <= |s.buffer|
    decreases |s.buffer| - s.pos
  {
    if !InHeader(s) || s.pos == |s.buffer| then s
    else
      var c := s.buffer[s.pos];
      var s' := Step(s.(pos := s.pos + 1), c, env);
      if InHeader(s') then
        StepKeepsBuffer(s.(pos := s.pos + 1), c, env);
        Loop(s', env)
      else s'
  }

  lemma StepKeepsBuffer(s: State, c: char, env: Env)
    requires InHeader(s) && s.pos <= |s.buffer|
    ensures var s' := Step(s, c, env);
            s'.pos == s.pos && (InHeader(s') ==> s'.buffer == s.buffer && s'.file == s.file)
  {
  }

  /** Between two calls, everything buffered has been looked at. */
  predicate Ready(s: State) {
    && (InHeader(s) ==> s.pos == |s.buffer|)
    && (s.phase == Caching ==> s.file.Some?)
  }

  function CacheData(s: State, chunk: string, env: Env): State
    requires Ready(s)
  {
    match s.phase
    case Caching => s.(file := Some(s.file.value + chunk))
    case NoCache => s
    case _ => Loop(s.(buffer := s.buffer + chunk), env)
  }

  // ---- chunks ----

  /** Equal, but for the buffer that check_headers() leaves behind when it throws, which is never read again. */
  predicate Same(s: State, t: State) {
    s == t.(buffer := s.buffer) && (s.buffer == t.buffer || s.phase == NoCache)
  }

  /** The header ended in state s; with `more` characters buffered it would have ended in state t. */
  predicate Ended(s: State, t: State, more: string) {
    && (s.phase == Caching ==> s.file.Some? && t == s.(file := Some(s.file.value + more)))
    && (s.phase == NoCache ==> Same(s, t))
  }

  lemma NameStepMore(s: State, c: char, env: Env, more: string)
    requires InHeader(s) && s.pos <= |s.buffer|
    ensures var s', t := NameStep(s, c, env), NameStep(s.(buffer := s.buffer + more), c, env);
            if InHeader(s') then t == s'.(buffer := s'.buffer + more) else Ended(s', t, more)
  {
    hide CheckHeaders;
    CheckMore(s, env, more);
  }

  lemma StepMore(s: State, c: char, env: Env, more: string)
    requires InHeader(s) && s.pos <= |s.buffer|
    ensures var s', t := Step(s, c, env), Step(s.(buffer := s.buffer + more), c, env);
            if InHeader(s') then t == s'.(buffer := s'.buffer + more) else Ended(s', t, more)
  {
    hide NameStep, Put;
    NameStepMore(s, c, env, more);
    NameStepMore(s.(phase := Name, fields := Put(s.fields, s.name, s.data), name := "", data := ""), c, env, more);
  }

  lemma CheckMore(s: State, env: Env, more: string)
    requires s.pos <= |s.buffer|
    ensures var s', t := CheckHeaders(s, env), CheckHeaders(s.(buffer := s.buffer + more), env);
            !InHeader(s') && Ended(s', t, more)
  {
    var buffer := s.buffer + more;
    assert buffer[s.pos..] == s.buffer[s.pos..] + more;
    match Control(s.fields, env)
    case None =>
    case Some(control) =>
      var header := FileHeader(s.fields, Excluded(control), env.now);
      assert header + (s.buffer[s.pos..] + more) == header + s.buffer[s.pos..] + more;
  }

  lemma LoopStep(s: State, env: Env)
    requires InHeader(s) && s.pos < |s.buffer|
    ensures var s' := Step(s.(pos := s.pos + 1), s.buffer[s.pos], env);
            if InHeader(s') then s'.pos <= |s'.buffer| && Loop(s, env) == Loop(s', env) else Loop(s, env) == s'
  {
    hide Step;
    StepKeepsBuffer(s.(pos := s.pos + 1), s.buffer[s.pos], env);
  }

  /** The loop on more characters: it goes on where the shorter loop stopped. */
  lemma {:induction false} LoopMore(s: State, env: Env, more: string)
    requires InHeader(s) && s.pos <= |s.buffer|
    ensures var s', t := Loop(s, env), Loop(s.(buffer := s.buffer + more), env);
            && (InHeader(s') ==> s'.pos == |s'.buffer| && t == Loop(s'.(buffer := s'.buffer + more), env))
            && (!InHeader(s') ==> Ended(s', t, more))
    decreases |s.buffer| - s.pos
  {
    if s.pos < |s.buffer| {
      hide Step, Ended;
      LoopStepMore(s, env, more);
      var s' := Step(s.(pos := s.pos + 1), s.buffer[s.pos], env);
      if InHeader(s') {
        StepKeepsBuffer(s.(pos := s.pos + 1), s.buffer[s.pos], env);
        hide Loop;
        LoopMore(s', env, more);
      }
    }
  }

  lemma LoopStepMore(s: State, env: Env, more: string)
    requires InHeader(s) && s.pos < |s.buffer|
    ensures var s', t := Step(s.(pos := s.pos + 1), s.buffer[s.pos], env), Loop(s.(buffer := s.buffer + more), env);
            if InHeader(s') then
              s'.pos <= |s'.buffer| && Loop(s, env) == Loop(s', env) && t == Loop(s'.(buffer := s'.buffer + more), env)
            else Loop(s, env) == s' && Ended(s', t, more)
  {
    hide Step, Loop, Ended;
    var big := s.(buffer := s.buffer + more);
    var s1 := s.(pos := s.pos + 1);
    var c := s.buffer[s.pos];
    assert big.buffer[s.pos] == c;
    assert big.(pos := big.pos + 1) == s1.(buffer := s1.buffer + more);
    StepKeepsBuffer(s1, c, env);
    StepMore(s1, c, env, more);
    LoopStep(s, env);
    LoopStep(big, env);
    EndedPhase(Step(s1, c, env), Step(s1.(buffer := s1.buffer + more), c, env), more);
  }

  lemma EndedPhase(s: State, t: State, more: string)
    ensures Ended(s, t, more) && !InHeader(s) ==> !InHeader(t)
  {
  }

  lemma ReadyKept(s: State, chunk: string, env: Env)
    requires Ready(s)
    ensures Ready(CacheData(s, chunk, env))
  {
    if InHeader(s) {
      LoopMore(s.(buffer := s.buffer + chunk), env, "");
    }
  }

  /** Two calls do what one call with both chunks does. */
  lemma TwoChunks(s: State, a: string, b: string, env: Env)
    requires Ready(s)
    ensures Ready(CacheData(s, a, env))
    ensures Same(CacheData(CacheData(s, a, env), b, env), CacheData(s, a + b, env))
  {
    hide Loop;
    ReadyKept(s, a, env);
    if InHeader(s) {
      LoopMore(s.(buffer := s.buffer + a), env, b);
      assert s.buffer + (a + b) == s.buffer + a + b;
    } else if s.phase == Caching {
      assert s.file.value + (a + b) == s.file.value + a + b;
    }
  }

  function Concat(chunks: seq<string>): string {
    if chunks == [] then "" else Concat(chunks[..|chunks| - 1]) + chunks[|chunks| - 1]
  }

  function Feed(s: State, chunks: seq<string>, env: Env): (r: State)
    requires Ready(s)
    ensures Ready(r)
  {
    if chunks == [] then s
    else
      var before := Feed(s, chunks[..|chunks| - 1], env);
      ReadyKept(before, chunks[|chunks| - 1], env);
      CacheData(before, chunks[|chunks| - 1], env)
  }

  /** Chunk independence: however a response is split, the state, the fields and the cache file are those
      of one call with the whole response. */
  lemma {:induction false} ChunkIndependence(s: State, chunks: seq<string>, env: Env)
    requires Ready(s)
    ensures Same(Feed(s, chunks, env), CacheData(s, Concat(chunks), env))
  {
    hide Loop;
    if chunks == [] {
      NoChunk(s, env);
    } else {
      var k := |chunks| - 1;
      var before := Feed(s, chunks[..k], env);
      var whole := Concat(chunks[..k]);
      ChunkIndependence(s, chunks[..k], env);
      ReadyKept(s, whole, env);
      TwoChunks(s, whole, chunks[k], env);
    }
  }

  lemma NoChunk(s: State, env: Env)
    requires Ready(s)
    ensures CacheData(s, "", env) == s
  {
    assert s.buffer + "" == s.buffer;
    if s.phase == Caching {
      assert s.file.value + "" == s.file.value;
    }
  }

  // ---- what a response leaves in the file ----

  predicate CleanName(s: string) { forall i :: 0 <= i < |s| ==> NameChar(s[i]) }

  predicate CleanFields(f: Fields) {
    Sorted(f) && forall i :: 0 <= i < |f| ==> CleanName(f[i].0) && '\n' !in f[i].1
  }

  predicate CleanState(s: State) {
    CleanName(s.name) && '\n' !in s.data && CleanFields(s.fields)
  }

  lemma StepClean(s: State, c: char, env: Env)
    requires InHeader(s) && s.pos <= |s.buffer| && CleanState(s)
    ensures CleanState(Step(s, c, env))
  {
    PutSorted(s.fields, s.name, s.data);
    PutKeys(s.fields, s.name, s.data);
    var put := Put(s.fields, s.name, s.data);
    forall i | 0 <= i < |put|
      ensures CleanName(put[i].0) && '\n' !in put[i].1
    {
      if put[i] in s.fields {
        var k :| 0 <= k < |s.fields| && s.fields[k] == put[i];
      }
    }
  }

  /** In the Caching phase the file is the header made from the fields, then what follows the header. */
  predicate FileIs(s: State, rest: string, env: Env) {
    match Control(s.fields, env)
    case None => false
    case Some(control) => s.file == Some(FileHeader(s.fields, Excluded(control), env.now) + rest)
  }

  lemma StepFile(s: State, c: char, env: Env)
    requires InHeader(s) && s.pos <= |s.buffer|
    ensures var s' := Step(s, c, env); s'.phase == Caching ==> FileIs(s', s.buffer[s.pos..], env)
  {
    hide StatusVerdict, Put, FileHeader, Excluded;
  }

  lemma {:induction false} LoopFile(s: State, env: Env)
    requires InHeader(s) && s.pos <= |s.buffer| && CleanState(s)
    ensures var s' := Loop(s, env);
            && CleanState(s')
            && (s'.phase == Caching ==> s'.pos <= |s.buffer| && FileIs(s', s.buffer[s'.pos..], env))
    decreases |s.buffer| - s.pos
  {
    if s.pos < |s.buffer| {
      hide Step, Loop, CleanState;
      var c := s.buffer[s.pos];
      var s1 := s.(pos := s.pos + 1);
      StepClean(s1, c, env);
      StepKeepsBuffer(s1, c, env);
      StepFile(s1, c, env);
      LoopStep(s, env);
      var s' := Step(s1, c, env);
      if InHeader(s') {
        LoopFile(s', env);
      }
    }
  }

  /** A cached response, in whatever chunks it came: its file is the rewritten header and its body. */
  lemma CachedFile(chunks: seq<string>, env: Env)
    ensures Ready(START)
    ensures var s := Feed(START, chunks, env);
            && CleanState(s)
            && (s.phase == Caching ==> s.pos <= |Concat(chunks)| && FileIs(s, Concat(chunks)[s.pos..], env))
  {
    var response := Concat(chunks);
    ChunkIndependence(START, chunks, env);
    assert "" + response == response;
    LoopFile(START.(buffer := response), env);
  }
}
