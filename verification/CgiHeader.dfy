/** What snap.cgi makes of a response header: its fields, and whether the response is kept. */
module CgiHeader {
  import opened Sequences
  import opened Text
  import opened CgiFields
  import opened CgiCache
  import opened CgiReplay

  // ---- a header as it is written ----

  /** One field: its name in any case, blanks before the colon, the value, and the lines that continue it, each with
      the blank it starts with. */
  datatype RawField = RawField(name: string, gap: string, first: string, more: seq<(char, string)>)

  const LETTERS := "abcdefghijklmnopqrstuvwxyz"
  const CAPITALS := "ABCDEFGHIJKLMNOPQRSTUVWXYZ"

  /** Capitals become the letters they stand for, and all else stays. */
  lemma LowerIs(c: char)
    ensures forall i :: 0 <= i < 26 ==> Lower(CAPITALS[i]) == LETTERS[i]
    ensures c !in CAPITALS ==> Lower(c) == c
  {
    assert forall i :: 0 <= i < 26 ==> CAPITALS[i] as int == 'A' as int + i && LETTERS[i] as int == 'a' as int + i;
    if 'A' <= c <= 'Z' {
      assert CAPITALS[c as int - 'A' as int] == c;
    }
  }

  /** A letter, a digit, an underscore or a dash. */
  predicate Token(c: char) { 'a' <= c <= 'z' || 'A' <= c <= 'Z' || '0' <= c <= '9' || c == '_' || c == '-' }

  lemma TokenIs(c: char)
    ensures Token(c) <==> NameChar(Lower(c))
  {
  }

  predicate Blanks(s: string) { forall i :: 0 <= i < |s| ==> IsBlank(s[i]) }

  predicate WellWritten(f: RawField) {
    && (forall i :: 0 <= i < |f.name| ==> Token(f.name[i]))
    && Blanks(f.gap) && (f.name == "" ==> f.gap == "")
    && '\n' !in f.first
    && (forall i :: 0 <= i < |f.more| ==> IsBlank(f.more[i].0) && '\n' !in f.more[i].1)
  }

  function MoreLine(line: (char, string)): string { [line.0] + line.1 + "\n" }

  function MoreLines(more: seq<(char, string)>): string {
    if more == [] then "" else MoreLines(more[..|more| - 1]) + MoreLine(more[|more| - 1])
  }

  function FieldText(f: RawField): string { f.name + f.gap + ":" + f.first + "\n" + MoreLines(f.more) }

  function HeaderText(header: seq<RawField>): string {
    if header == [] then "" else HeaderText(header[..|header| - 1]) + FieldText(header[|header| - 1])
  }

  // ---- what it means ----

  /** The value without its leading blanks, and one space and the unblanked line for each line that continues it. */
  function Folded(first: string, more: seq<(char, string)>): string {
    if more == [] then Unblank(first) else Folded(first, more[..|more| - 1]) + " " + Unblank(more[|more| - 1].1)
  }

  /** What is found under a lower case name: the value of the last field written with that name, in any case. */
  function Meaning(header: seq<RawField>, name: string): Option<string> {
    if header == [] then None
    else
      var f := header[|header| - 1];
      if LowerAll(f.name) == name then Some(Folded(f.first, f.more)) else Meaning(header[..|header| - 1], name)
  }

  lemma UnblankIs(blanks: string, value: string)
    requires Blanks(blanks) && (value == "" || !IsBlank(value[0]))
    ensures Unblank(blanks + value) == value
  {
    SkipIs(blanks + value, 0, IsBlank, |blanks|);
    assert (blanks + value)[|blanks|..] == value;
  }

  // ---- reading it ----

  lemma {:induction false} RawNameRun(s: State, name: string, env: Env)
    requires s.phase == Name && s.pos == 0 && forall i :: 0 <= i < |name| ==> Token(name[i])
    ensures Run(s, name, env) == s.(name := s.name + LowerAll(name))
  {
    if name == "" {
      assert s.name + LowerAll(name) == s.name;
    } else {
      hide CheckHeaders, Lower, NameChar;
      var k := |name| - 1;
      RawNameRun(s, name[..k], env);
      TokenIs(name[k]);
      NotSpecial(name[k]);
      assert s.name + LowerAll(name[..k]) + [Lower(name[k])] == s.name + LowerAll(name);
    }
  }

  lemma NotSpecial(c: char)
    requires Token(c)
    ensures c != '\n' && c != ':' && !IsBlank(c)
  {
  }

  lemma {:induction false} GapRun(s: State, gap: string, env: Env)
    requires (s.phase == Name || s.phase == Separator) && s.pos == 0 && Blanks(gap)
    ensures Run(s, gap, env) == if gap == "" then s else s.(phase := Separator)
  {
    if gap != "" {
      GapRun(s, gap[..|gap| - 1], env);
    }
  }

  lemma RawFirstRun(s: State, f: RawField, env: Env)
    requires s.phase == Name && s.name == "" && s.data == "" && s.pos == 0 && WellWritten(f)
    ensures Run(s, f.name + f.gap + ":" + f.first + "\n", env)
         == s.(phase := Continue, name := LowerAll(f.name), data := Unblank(f.first))
  {
    hide Run, Unblank, LowerAll, Token;
    var rest := f.gap + ([':'] + (f.first + "\n"));
    assert f.name + f.gap + ":" + f.first + "\n" == f.name + rest;
    RunAppend(s, f.name, rest, env);
    RawNameRun(s, f.name, env);
    assert "" + LowerAll(f.name) == LowerAll(f.name);
    var s1 := s.(name := LowerAll(f.name));
    RunAppend(s1, f.gap, [':'] + (f.first + "\n"), env);
    GapRun(s1, f.gap, env);
    var s2 := Run(s1, f.gap, env);
    RunAppend(s2, [':'], f.first + "\n", env);
    RunOne(s2, ':', env);
    ValueRun(s1.(phase := DataStart), f.first, env);
    assert "" + Unblank(f.first) == Unblank(f.first);
  }

  lemma MoreLineRun(s: State, line: (char, string), env: Env)
    requires s.phase == Continue && s.pos == 0 && IsBlank(line.0) && '\n' !in line.1
    ensures Run(s, MoreLine(line), env) == s.(data := s.data + " " + Unblank(line.1))
  {
    hide Run, Unblank, Put;
    assert MoreLine(line) == [line.0] + (line.1 + "\n");
    RunAppend(s, [line.0], line.1 + "\n", env);
    RunOne(s, line.0, env);
    ValueRun(s.(phase := DataStart, data := s.data + " "), line.1, env);
  }

  lemma {:induction false} MoreRun(s: State, first: string, more: seq<(char, string)>, env: Env)
    requires s.phase == Continue && s.pos == 0 && s.data == Unblank(first)
    requires forall i :: 0 <= i < |more| ==> IsBlank(more[i].0) && '\n' !in more[i].1
    ensures Run(s, MoreLines(more), env) == s.(data := Folded(first, more))
  {
    if more == [] {
      assert MoreLines(more) == "";
    } else {
      hide Run, Unblank, IsBlank, MoreLine;
      var k := |more| - 1;
      MoreRun(s, first, more[..k], env);
      RunAppend(s, MoreLines(more[..k]), MoreLine(more[k]), env);
      MoreLineRun(s.(data := Folded(first, more[..k])), more[k], env);
    }
  }

  lemma RawFieldRun(s: State, f: RawField, env: Env)
    requires LineStart(s) && WellWritten(f)
    ensures var r := Run(s, FieldText(f), env);
            && LineStart(r) && r.phase == Continue
            && Flush(r).fields == Put(Flush(s).fields, LowerAll(f.name), Folded(f.first, f.more))
  {
    hide Run, Unblank, LowerAll, Folded, Put;
    var line := f.name + f.gap + ":" + f.first + "\n";
    FlushRun(s, line, env);
    RunAppend(s, line, MoreLines(f.more), env);
    RawFirstRun(Flush(s), f, env);
    MoreRun(Run(s, line, env), f.first, f.more, env);
  }

  lemma NoHeaderRun(env: Env, name: string)
    ensures var r := Run(START, HeaderText([]), env); LineStart(r) && Get(Flush(r).fields, name) == Meaning([], name)
  {
  }

  lemma {:induction false} HeaderRun(header: seq<RawField>, env: Env, name: string)
    requires forall i :: 0 <= i < |header| ==> WellWritten(header[i])
    ensures var r := Run(START, HeaderText(header), env);
            LineStart(r) && Get(Flush(r).fields, name) == Meaning(header, name)
  {
    hide Run, FieldText, Put, LowerAll, Folded, WellWritten, LineStart, Flush, Get;
    if header == [] {
      NoHeaderRun(env, name);
    } else {
      var k := |header| - 1;
      HeaderRun(header[..k], env, name);
      RunAppend(START, HeaderText(header[..k]), FieldText(header[k]), env);
      var s := Run(START, HeaderText(header[..k]), env);
      RawFieldRun(s, header[k], env);
      GetPut(Flush(s).fields, LowerAll(header[k].name), Folded(header[k].first, header[k].more), name);
    }
  }

  /** Whatever the chunks, the machine alone ends with the same phase and fields. */
  lemma FeedRuns(chunks: seq<string>, env: Env)
    ensures SameHead(Feed(START, chunks, env), Run(START, Concat(chunks), env))
  {
    hide Loop, Run;
    var text := Concat(chunks);
    ChunkIndependence(START, chunks, env);
    assert "" + text == text;
    assert text[0..] == text;
    LoopRuns(START.(buffer := text), env);
  }

  /** A response that starts with a well written header and an empty line, in any chunks: under each name its meaning
      is found. */
  lemma HeaderRead(header: seq<RawField>, body: string, chunks: seq<string>, env: Env, name: string)
    requires forall i :: 0 <= i < |header| ==> WellWritten(header[i])
    requires Concat(chunks) == HeaderText(header) + "\n" + body
    ensures !InHeader(Feed(START, chunks, env))
    ensures Get(Feed(START, chunks, env).fields, name) == Meaning(header, name)
  {
    hide Feed, Run, HeaderText, WellWritten, Meaning, LineStart;
    var lines := HeaderText(header);
    FeedRuns(chunks, env);
    assert Concat(chunks) == lines + (['\n'] + body);
    RunAppend(START, lines, ['\n'] + body, env);
    HeaderRun(header, env, name);
    EmptyLine(Run(START, lines, env), body, env);
  }

  /** A line that is no field: a name with another character, or without a colon, or followed by something else after
      its blanks. Nothing is kept. */
  predicate BadLine(name: string, gap: string, c: char) {
    && (forall i :: 0 <= i < |name| ==> Token(name[i])) && Blanks(gap) && (name == "" ==> gap == "")
    && c != ':' && !IsBlank(c)
    && (gap == "" ==> !Token(c) && (c == '\n' ==> name != ""))
  }

  lemma HeaderRefused(header: seq<RawField>, name: string, gap: string, c: char, rest: string, chunks: seq<string>,
                      env: Env)
    requires (forall i :: 0 <= i < |header| ==> WellWritten(header[i])) && BadLine(name, gap, c)
    requires Concat(chunks) == HeaderText(header) + (name + gap + [c] + rest)
    ensures Feed(START, chunks, env).phase == NoCache
  {
    hide Feed, Run, HeaderText, WellWritten, LineStart;
    var lines := HeaderText(header);
    FeedRuns(chunks, env);
    RunAppend(START, lines, name + gap + [c] + rest, env);
    HeaderRun(header, env, "");
    BadLineRun(Run(START, lines, env), name, gap, c, rest, env);
  }

  lemma BadLineRun(s: State, name: string, gap: string, c: char, rest: string, env: Env)
    requires LineStart(s) && BadLine(name, gap, c)
    ensures Run(s, name + gap + [c] + rest, env).phase == NoCache
  {
    var line := name + gap + [c] + rest;
    assert line[0] == if name == "" then c else name[0];
    if name != "" {
      NotSpecial(name[0]);
    }
    FlushRun(s, line, env);
    hide Run, Put, LowerAll;
    var s0 := Flush(s);
    assert line == name + (gap + ([c] + rest));
    RunAppend(s0, name, gap + ([c] + rest), env);
    RawNameRun(s0, name, env);
    var s1 := s0.(name := s0.name + LowerAll(name));
    RunAppend(s1, gap, [c] + rest, env);
    GapRun(s1, gap, env);
    var s2 := Run(s1, gap, env);
    RunAppend(s2, [c], rest, env);
    RunOne(s2, c, env);
    TokenIs(c);
    RunStops(Step(s2, c, env), rest, env);
  }

  // ---- is it kept? ----

  /** The six tests on the Cache-Control field. */
  predicate ControlAllows(header: seq<RawField>, env: Env) {
    match Meaning(header, "cache-control")
    case None => false
    case Some(value) =>
      var c := env.settings(value);
      !c.mustRevalidate && !c.proxyRevalidate && !c.isPrivate && c.isPublic && !c.noCache && c.sMaxAge != 0
  }

  predicate TwoHundredAnd(status: string) { |status| >= 4 && status[..4] == "200 " }

  predicate StatusAllows(status: Option<string>) {
    status.None? || ' ' !in status.value || TwoHundredAnd(status.value)
  }

  /** A number and a space, as the standard wants; or words, that is, no number at all. */
  ghost predicate NumberOrWords(status: string) {
    || (exists k: nat, t: string :: status == Decimal(k) + " " + t)
    || (status != "" && !IsDigit(status[0]) && status[0] != '+' && status[0] != '-'
        && (IsSpace(status[0]) ==> status[0] == ' '))
  }

  lemma StoiDecimal(k: nat)
    ensures Stoi(Decimal(k)) == if k < 0x8000_0000 then Some(k) else None
  {
    var s := Decimal(k);
    SkipIs(s, 0, IsSpace, 0);
    SkipIs(s, 0, IsDigit, |s|);
    assert s[0..|s|] == s;
    DateIsNow(k);
  }

  lemma TwoHundred()
    ensures Decimal(200) == "200"
  {
    assert Decimal(2) == "2" && Decimal(20) == Decimal(2) + "0" && Decimal(200) == Decimal(20) + "0";
  }

  lemma StartsTwoHundred(status: string)
    ensures TwoHundredAnd(status) <==>
              |status| >= 4 && status[0] == '2' && status[1] == '0' && status[2] == '0' && status[3] == ' '
  {
    if |status| >= 4 {
      assert forall i :: 0 <= i < 4 ==> status[i] == status[..4][i];
      if status[0] == '2' && status[1] == '0' && status[2] == '0' && status[3] == ' ' {
        assert status[..4] == "200 ";
      }
    }
  }

  lemma DecimalEnds(k: nat, t: string)
    ensures TwoHundredAnd(Decimal(k) + " " + t) <==> k == 200
  {
    hide TwoHundredAnd;
    var d := Decimal(k);
    var s := d + " " + t;
    TwoHundred();
    StartsTwoHundred(s);
    assert s[|d|] == ' ' && forall i :: 0 <= i < |d| ==> s[i] == d[i];
    if TwoHundredAnd(s) {
      assert |d| != 1 && |d| != 2;
      assert |d| <= 3;
      assert d == "200";
      DecimalInjective(k, 200);
    }
  }

  lemma NumberVerdict(fields: Fields, k: nat, t: string)
    requires Get(fields, "status") == Some(Decimal(k) + " " + t)
    ensures StatusVerdict(fields) == Accepted <==> k == 200
  {
    hide Stoi, Get;
    var s := Decimal(k) + " " + t;
    SkipIs(s, 0, NotSpace, |Decimal(k)|);
    assert s[..|Decimal(k)|] == Decimal(k);
    StoiDecimal(k);
  }

  /** Words are no number: std::stoi() throws. */
  lemma WordsVerdict(fields: Fields, status: string)
    requires Get(fields, "status") == Some(status) && ' ' in status
    requires status != "" && !IsDigit(status[0]) && status[0] != '+' && status[0] != '-'
    requires IsSpace(status[0]) ==> status[0] == ' '
    ensures StatusVerdict(fields) == Thrown && !TwoHundredAnd(status)
  {
    var n := Skip(status, 0, NotSpace);
    var code := status[..n];
    assert n < |status|;
    if n > 0 {
      assert code[0] == status[0];
      SkipIs(code, 0, IsSpace, 0);
      SkipIs(code, 0, IsDigit, 0);
    }
    StartsTwoHundred(status);
  }

  lemma NoSpaceVerdict(fields: Fields, status: string)
    requires Get(fields, "status") == Some(status) && ' ' !in status
    ensures StatusVerdict(fields) == Accepted
  {
    hide Stoi;
  }

  lemma VerdictIs(fields: Fields, status: Option<string>)
    requires Get(fields, "status") == status
    requires status.Some? && ' ' in status.value ==> NumberOrWords(status.value)
    ensures StatusVerdict(fields) == Accepted <==> StatusAllows(status)
  {
    hide StatusVerdict, TwoHundredAnd;
    if status.None? {
      NoStatusVerdict(fields);
    } else if ' ' !in status.value {
      NoSpaceVerdict(fields, status.value);
    } else if exists k: nat, t: string :: status.value == Decimal(k) + " " + t {
      var k: nat, t: string :| status.value == Decimal(k) + " " + t;
      NumberVerdict(fields, k, t);
      DecimalEnds(k, t);
    } else {
      WordsVerdict(fields, status.value);
    }
  }

  lemma NoStatusVerdict(fields: Fields)
    requires Get(fields, "status").None?
    ensures StatusVerdict(fields) == Accepted
  {
  }

  /** Exactly which responses are kept: those without a status, or with a bare one, or with status 200, whose
      Cache-Control field passes the six tests. */
  lemma KeptExactly(header: seq<RawField>, body: string, chunks: seq<string>, env: Env)
    requires forall i :: 0 <= i < |header| ==> WellWritten(header[i])
    requires Concat(chunks) == HeaderText(header) + "\n" + body
    requires var status := Meaning(header, "status");
             status.Some? && ' ' in status.value ==> NumberOrWords(status.value)
    ensures Feed(START, chunks, env).phase
         == if StatusAllows(Meaning(header, "status")) && ControlAllows(header, env) then Caching else NoCache
  {
    hide Feed, Run, HeaderText, WellWritten, Meaning, StatusVerdict, StatusAllows, NumberOrWords, LineStart, Cacheable;
    var lines := HeaderText(header);
    FeedRuns(chunks, env);
    assert Concat(chunks) == lines + (['\n'] + body);
    RunAppend(START, lines, ['\n'] + body, env);
    HeaderRun(header, env, "status");
    HeaderRun(header, env, "cache-control");
    var fields := Flush(Run(START, lines, env)).fields;
    EndDecides(Run(START, lines, env), body, env);
    VerdictIs(fields, Meaning(header, "status"));
    ControlIs(fields, header, env);
  }

  lemma ControlIs(fields: Fields, header: seq<RawField>, env: Env)
    requires Get(fields, "cache-control") == Meaning(header, "cache-control")
    ensures ControlAllows(header, env) <==>
              Control(fields, env).Some? && Cacheable(Control(fields, env).value)
  {
    hide Get, Meaning;
  }

  lemma EndDecides(s: State, body: string, env: Env)
    requires LineStart(s)
    ensures var fields := Flush(s).fields;
            Run(s, ['\n'] + body, env).phase
            == if StatusVerdict(fields) == Accepted && Control(fields, env).Some?
                  && Cacheable(Control(fields, env).value) then Caching else NoCache
  {
    FlushRun(s, ['\n'] + body, env);
    hide Run, CheckHeaders, StatusVerdict, Cacheable, Put;
    var s0 := Flush(s);
    RunAppend(s0, ['\n'], body, env);
    RunOne(s0, '\n', env);
    RunStops(Step(s0, '\n', env), body, env);
  }

  // ---- what a later request sees ----

  /** A field that Cache-Control keeps out, whatever the case it is named in. */
  ghost predicate KeptOut(header: seq<RawField>, env: Env, name: string) {
    match Meaning(header, "cache-control")
    case None => false
    case Some(value) => exists n :: n in env.settings(value).excluded && LowerAll(n) == name
  }

  /** The trimmed meaning of the name, unless it is empty or kept out; the date of the writing under its own name. */
  ghost function SeenLater(header: seq<RawField>, env: Env, name: string): Option<string> {
    var date := if name == "x-snap-cgi-date" then Some(Decimal(env.now)) else None;
    match Meaning(header, name)
    case None => date
    case Some(value) => if name != "" && !KeptOut(header, env, name) then Some(Trim(value)) else date
  }

  lemma TrimIs(a: string, value: string, b: string)
    requires (forall i :: 0 <= i < |a| ==> IsSpace(a[i])) && (forall i :: 0 <= i < |b| ==> IsSpace(b[i]))
    requires value == "" || (!IsSpace(value[0]) && !IsSpace(value[|value| - 1]))
    ensures value != "" || b == "" ==> Trim(a + value + b) == value
  {
    if value != "" || b == "" {
      var s := a + value + b;
      SkipIs(s, 0, IsSpace, |a|);
      assert s[|a|..] == value + b;
      TrimEndIs(value, b);
    }
  }

  lemma {:induction false} TrimEndIs(value: string, b: string)
    requires forall i :: 0 <= i < |b| ==> IsSpace(b[i])
    requires value == "" || !IsSpace(value[|value| - 1])
    ensures TrimEnd(value + b) == value
  {
    if b == "" {
      assert value + b == value;
    } else {
      assert (value + b)[..|value + b| - 1] == value + b[..|b| - 1];
      TrimEndIs(value, b[..|b| - 1]);
    }
  }

  /** A kept response, in any chunks, and what a later request finds in its file. */
  lemma ResponseReadBack(header: seq<RawField>, body: string, chunks: seq<string>, env: Env, name: string)
    requires forall i :: 0 <= i < |header| ==> WellWritten(header[i])
    requires Concat(chunks) == HeaderText(header) + "\n" + body
    requires Feed(START, chunks, env).phase == Caching
    ensures Feed(START, chunks, env).file.Some?
    ensures var file := Feed(START, chunks, env).file.value;
            && ReadLines(file, []).Some?
            && Get(ReadFields([], ReadLines(file, []).value), name) == SeenLater(header, env, name)
  {
    hide HeaderText, WellWritten, Meaning, SeenLater, ReadLines, ReadFields, ReadsBackAs, Feed, FileHeader, Control;
    CacheRoundTrip(chunks, env, [], env);
    HeaderRead(header, body, chunks, env, name);
    HeaderRead(header, body, chunks, env, "cache-control");
    var s := Feed(START, chunks, env);
    var excluded := Excluded(Control(s.fields, env).value);
    SavedValue(s.file.value, s.fields, excluded, Concat(chunks)[s.pos..], env.now, name);
    SameSight(s.fields, header, env, name);
  }

  lemma SavedValue(file: string, fields: Fields, excluded: set<string>, body: string, now: nat, name: string)
    requires ReadsBackAs(file, fields, excluded, body, now)
    ensures ReadLines(file, []).Some?
    ensures Get(ReadFields([], ReadLines(file, []).value), name)
         == ReadValue(fields, excluded, name, if name == "x-snap-cgi-date" then Some(Decimal(now)) else None)
  {
  }

  lemma SameSight(fields: Fields, header: seq<RawField>, env: Env, name: string)
    requires Get(fields, name) == Meaning(header, name)
    requires Get(fields, "cache-control") == Meaning(header, "cache-control") && Control(fields, env).Some?
    ensures ReadValue(fields, Excluded(Control(fields, env).value), name,
                      if name == "x-snap-cgi-date" then Some(Decimal(env.now)) else None)
         == SeenLater(header, env, name)
  {
    hide Meaning, Get, Trim;
  }

  lemma FirstOf(buffer: string, pos: nat, n: nat)
    requires 1 <= n && pos + n <= |buffer|
    ensures buffer[pos..][..n] == [buffer[pos]] + buffer[pos + 1..][..n - 1]
  {
  }

  /** The loop stops right after the character that takes the machine out of the header. */
  lemma {:induction false} LoopEndsAt(s: State, n: nat, env: Env)
    requires InHeader(s) && 1 <= n && s.pos + n <= |s.buffer|
    requires InHeader(Run(Bare(s), s.buffer[s.pos..][..n - 1], env))
    requires !InHeader(Run(Bare(s), s.buffer[s.pos..][..n], env))
    ensures Loop(s, env).pos == s.pos + n
    decreases n
  {
    hide Step, Loop, Run;
    var c, rest := s.buffer[s.pos], s.buffer[s.pos + 1..];
    var s1 := s.(pos := s.pos + 1);
    LoopStep(s, env);
    StepKeepsBuffer(s1, c, env);
    BareStep(s1, c, env);
    RunOne(Bare(s), c, env);
    if n == 1 {
      assert s.buffer[s.pos..][..1] == [c];
    } else {
      FirstOf(s.buffer, s.pos, n - 1);
      FirstOf(s.buffer, s.pos, n);
      RunAppend(Bare(s), [c], rest[..n - 2], env);
      RunAppend(Bare(s), [c], rest[..n - 1], env);
      if !InHeader(Step(Bare(s), c, env)) {
        RunStops(Step(Bare(s), c, env), rest[..n - 2], env);
      } else {
        LoopEndsAt(Step(s1, c, env), n - 1, env);
      }
    }
  }

  /** The body that is kept is all that follows the header and its empty line. */
  lemma KeptBody(header: seq<RawField>, body: string, chunks: seq<string>, env: Env)
    requires forall i :: 0 <= i < |header| ==> WellWritten(header[i])
    requires Concat(chunks) == HeaderText(header) + "\n" + body
    ensures var s := Feed(START, chunks, env);
            s.pos == |HeaderText(header)| + 1 && Concat(chunks)[s.pos..] == body
  {
    hide Loop, Run, HeaderText, WellWritten, LineStart;
    var text, lines := Concat(chunks), HeaderText(header);
    ChunkIndependence(START, chunks, env);
    assert "" + text == text;
    assert text[0..] == text;
    HeaderRun(header, env, "");
    RunAppend(START, lines, ['\n'], env);
    EmptyLine(Run(START, lines, env), "", env);
    assert ['\n'] + "" == ['\n'];
    assert text[..|lines|] == lines && text[..|lines| + 1] == lines + ['\n'];
    StillInHeader(Run(START, lines, env));
    LoopEndsAt(START.(buffer := text), |lines| + 1, env);
  }

  lemma StillInHeader(s: State)
    requires LineStart(s)
    ensures InHeader(s)
  {
  }

  // ---- lines that no saved file has ----

  /** A line that starts with a blank is added, with that blank, to the line before. */
  lemma ContinuationRead(before: seq<string>, line: string, more: string, text: string)
    requires Plain(line) && more != "" && IsBlank(more[0]) && '\n' !in more
    ensures ReadLines(line + "\n" + more + "\n" + text, before) == ReadLines(text, before + [line + " " + more])
  {
    assert line + "\n" + more + "\n" + text == line + "\n" + (more + "\n" + text);
    PlainLine(before, line, more + "\n" + text);
    LineEnd(more, text);
    var lines := before + [line];
    assert lines[..|lines| - 1] + [lines[|lines| - 1] + " " + more] == before + [line + " " + more];
  }

  /** A line without a colon is the name and the value of a field. */
  lemma ColonlessRead(fields: Fields, line: string, name: string)
    requires ':' !in line
    ensures Get(ReadField(fields, line), name)
         == if name == LowerAll(Trim(line)) then Some(Trim(line)) else Get(fields, name)
  {
    SkipIs(line, 0, NotColon, |line|);
    assert line[..|line|] == line;
    GetPut(fields, LowerAll(Trim(line)), Trim(line), name);
  }
}
