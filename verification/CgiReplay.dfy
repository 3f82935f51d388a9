/** snap.cgi: the saved response read back, and replayed from after its date line. */
module CgiReplay {
  import opened Sequences
  import opened Text
  import opened CgiFields
  import opened CgiCache

  // ---- the reader ----

  predicate NotColon(c: char) { c != ':' }

  /** QString::trimmed() */
  function Trim(s: string): string {
    TrimEnd(s[Skip(s, 0, IsSpace)..])
  }

  function TrimEnd(s: string): (r: string)
    ensures |r| <= |s| && r == s[..|r|]
    ensures r != "" ==> !IsSpace(r[|r| - 1])
  {
    if s != "" && IsSpace(s[|s| - 1]) then TrimEnd(s[..|s| - 1]) else s
  }

  /** A header line; every line but the first may continue the one before, and then it is added untrimmed. */
  function AddLine(lines: seq<string>, line: string): (r: seq<string>)
    ensures r != []
  {
    if lines != [] && line != "" && IsBlank(line[0]) then
      lines[..|lines| - 1] + [lines[|lines| - 1] + " " + line]
    else lines + [line]
  }

  /** The lines up to the empty one; None when the file ends before it. */
  function ReadLines(text: string, lines: seq<string>): Option<seq<string>> {
    var end := Skip(text, 0, NotLineFeed);
    if end == |text| then None
    else if end == 0 then Some(lines)
    else ReadLines(text[end + 1..], AddLine(lines, text[..end]))
  }

  /** Where the replay starts: after the first line. */
  function Offset(file: string): nat {
    var end := Skip(file, 0, NotLineFeed);
    if end == 0 then 0 else end + 1
  }

  /** A line without a colon is both name and value; one starting with a colon is dropped. */
  function ReadField(fields: Fields, line: string): Fields {
    var colon := Skip(line, 0, NotColon);
    if colon == 0 && line != "" then fields
    else
      Put(fields, LowerAll(Trim(line[..colon])), Trim(if colon == |line| then line else line[colon + 1..]))
  }

  function ReadFields(fields: Fields, lines: seq<string>): Fields
    decreases |lines|
  {
    if lines == [] then fields else ReadFields(ReadField(fields, lines[0]), lines[1..])
  }

  // ---- reading back what was written ----

  function KeptLines(fields: Fields, excluded: set<string>): seq<string> {
    if fields == [] then []
    else (if fields[0].0 in excluded then [] else [FieldLine(fields[0])]) + KeptLines(fields[1..], excluded)
  }

  function Lines(lines: seq<string>): string {
    if lines == [] then "" else lines[0] + "\n" + Lines(lines[1..])
  }

  lemma {:induction false} KeptLinesText(fields: Fields, excluded: set<string>)
    ensures Lines(KeptLines(fields, excluded)) == FieldLines(fields, excluded)
  {
    if fields != [] {
      hide FieldLine;
      KeptLinesText(fields[1..], excluded);
      var rest := KeptLines(fields[1..], excluded);
      assert ([FieldLine(fields[0])] + rest)[1..] == rest;
      assert [] + rest == rest;
      assert "" + Lines(rest) == Lines(rest);
    }
  }

  /** Lines that are read one by one: not empty, no line feed, not taken for a continuation. */
  predicate Plain(line: string) { line != "" && '\n' !in line && !IsBlank(line[0]) }

  lemma LinesFirst(lines: seq<string>, text: string)
    ensures Lines(lines) + text == if lines == [] then text else lines[0] + "\n" + (Lines(lines[1..]) + text)
  {
  }

  lemma {:induction false} PlainLines(before: seq<string>, lines: seq<string>, text: string)
    requires forall i :: 0 <= i < |lines| ==> Plain(lines[i])
    ensures ReadLines(Lines(lines) + text, before) == ReadLines(text, before + lines)
    decreases |lines|
  {
    hide *;
    LinesFirst(lines, text);
    if lines == [] {
      assert before + lines == before;
    } else {
      PlainLine(before, lines[0], Lines(lines[1..]) + text);
      PlainLines(before + [lines[0]], lines[1..], text);
      assert before + [lines[0]] + lines[1..] == before + lines;
    }
  }

  lemma LineEnd(line: string, text: string)
    requires '\n' !in line
    ensures Skip(line + "\n" + text, 0, NotLineFeed) == |line|
    ensures (line + "\n" + text)[..|line|] == line && (line + "\n" + text)[|line| + 1..] == text
  {
    var all := line + "\n" + text;
    assert forall k :: 0 <= k < |line| ==> all[k] == line[k] && line[k] != '\n';
    assert all[|line|] == '\n';
    SkipIs(all, 0, NotLineFeed, |line|);
  }

  lemma PlainLine(before: seq<string>, line: string, text: string)
    requires Plain(line)
    ensures ReadLines(line + "\n" + text, before) == ReadLines(text, before + [line])
  {
    LineEnd(line, text);
  }

  lemma DateLinePlain(now: nat)
    ensures Plain(DateLine(now))
  {
    assert DateLine(now)[0] == 'X';
    forall i | 0 <= i < |DateLine(now)|
      ensures DateLine(now)[i] != '\n'
    {
      if i > |DATE_FIELD| {
        assert DateLine(now)[i] == Decimal(now)[i - |DATE_FIELD| - 1];
      }
    }
  }

  lemma {:induction false} KeptLinesPlain(fields: Fields, excluded: set<string>)
    requires forall i :: 0 <= i < |fields| ==> CleanName(fields[i].0) && '\n' !in fields[i].1
    ensures forall i :: 0 <= i < |KeptLines(fields, excluded)| ==> Plain(KeptLines(fields, excluded)[i])
  {
    if fields != [] {
      hide Plain, FieldLine;
      KeptLinesPlain(fields[1..], excluded);
    }
  }

  /** The lines of a saved file are the date and the kept fields, and the replay starts at the second one. */
  lemma LinesReadBack(fields: Fields, excluded: set<string>, now: nat, body: string)
    requires forall i :: 0 <= i < |fields| ==> CleanName(fields[i].0) && '\n' !in fields[i].1
    ensures var file := FileHeader(fields, excluded, now) + body;
            && ReadLines(file, []) == Some([DateLine(now)] + KeptLines(fields, excluded))
            && Offset(file) <= |file|
            && file[Offset(file)..] == FieldLines(fields, excluded) + "\n" + body
  {
    hide Plain, DateLine, ReadLines, FieldLines, KeptLines;
    var date, text, kept := DateLine(now), FieldLines(fields, excluded), KeptLines(fields, excluded);
    assert FileHeader(fields, excluded, now) + body == date + "\n" + (text + ("\n" + body));
    assert text + "\n" + body == text + ("\n" + body);
    DateLinePlain(now);
    PlainLine([], date, text + ("\n" + body));
    assert [] + [date] == [date];
    KeptLinesText(fields, excluded);
    KeptLinesPlain(fields, excluded);
    PlainLines([date], kept, "\n" + body);
    EmptyLineEnds([date] + kept, body);
    FirstLine(date, text + ("\n" + body));
  }

  lemma EmptyLineEnds(lines: seq<string>, body: string)
    ensures ReadLines("\n" + body, lines) == Some(lines)
  {
    LineEnd("", body);
    assert "" + "\n" + body == "\n" + body;
  }

  lemma FirstLine(line: string, text: string)
    requires Plain(line)
    ensures var file := line + "\n" + text; Offset(file) == |line| + 1 && file[Offset(file)..] == text
  {
    LineEnd(line, text);
  }

  lemma TrimNothing(s: string)
    requires s == "" || (!IsSpace(s[0]) && !IsSpace(s[|s| - 1]))
    ensures Trim(s) == s
  {
    SkipIs(s, 0, IsSpace, 0);
    assert s[0..] == s;
  }

  lemma LowerClean(name: string)
    requires CleanName(name)
    ensures LowerAll(Trim(name)) == name
  {
    TrimNothing(name);
    assert LowerAll(name) == name;
  }

  lemma ColonAfter(name: string, value: string)
    requires ':' !in name
    ensures var line := name + ":" + value;
            Skip(line, 0, NotColon) == |name| && line[..|name|] == name && line[|name| + 1..] == value
  {
    var line := name + ":" + value;
    assert forall k :: 0 <= k < |name| ==> line[k] == name[k] && name[k] != ':';
    SkipIs(line, 0, NotColon, |name|);
  }

  lemma FieldReadBack(fields: Fields, f: (string, string))
    requires CleanName(f.0)
    ensures ReadField(fields, FieldLine(f)) == if f.0 == "" then fields else Put(fields, f.0, Trim(f.1))
  {
    hide Put, Trim;
    ColonAfter(f.0, f.1);
    LowerClean(f.0);
  }

  lemma DateReadBack(fields: Fields, now: nat)
    ensures ReadField(fields, DateLine(now)) == Put(fields, "x-snap-cgi-date", Decimal(now))
  {
    hide Put, Trim;
    DateName();
    ColonAfter(DATE_FIELD, Decimal(now));
    TrimNothing(Decimal(now));
  }

  lemma DateName()
    ensures LowerAll(Trim(DATE_FIELD)) == "x-snap-cgi-date" && ':' !in DATE_FIELD
  {
    TrimNothing(DATE_FIELD);
    assert LowerAll(DATE_FIELD) == "x-snap-cgi-date";
  }

  /** What is found under a name after reading the saved lines on top of `before`. */
  function ReadValue(fields: Fields, excluded: set<string>, name: string, before: Option<string>): Option<string> {
    match Get(fields, name)
    case Some(value) => if name != "" && name !in excluded then Some(Trim(value)) else before
    case None => before
  }

  lemma FirstOnce(fields: Fields)
    requires Sorted(fields) && fields != []
    ensures Get(fields[1..], fields[0].0).None?
  {
    GetAbsent(fields[1..], fields[0].0);
    forall i | 0 <= i < |fields[1..]|
      ensures fields[1..][i].0 != fields[0].0
    {
      LessTotal(fields[0].0, fields[i + 1].0);
    }
  }

  lemma {:induction false} KeptReadBack(before: Fields, fields: Fields, excluded: set<string>, name: string)
    requires CleanFields(fields)
    ensures Get(ReadFields(before, KeptLines(fields, excluded)), name)
         == ReadValue(fields, excluded, name, Get(before, name))
    decreases |fields|
  {
    if fields != [] {
      hide FieldLine, Put, ReadField, Trim, CleanName;
      var kept := KeptLines(fields[1..], excluded);
      FirstOnce(fields);
      if fields[0].0 in excluded {
        assert [] + kept == kept;
        KeptReadBack(before, fields[1..], excluded, name);
      } else {
        assert ([FieldLine(fields[0])] + kept)[1..] == kept;
        FieldReadBack(before, fields[0]);
        GetPut(before, fields[0].0, Trim(fields[0].1), name);
        KeptReadBack(ReadField(before, FieldLine(fields[0])), fields[1..], excluded, name);
      }
    }
  }

  /** The fields of the cached response as a later request sees them: trimmed, without the excluded and the nameless
      ones, and with the date (unless the response sent a field of that very name). */
  lemma FieldsReadBack(fields: Fields, excluded: set<string>, now: nat, name: string)
    requires CleanFields(fields)
    ensures Get(ReadFields([], [DateLine(now)] + KeptLines(fields, excluded)), name)
         == ReadValue(fields, excluded, name, if name == "x-snap-cgi-date" then Some(Decimal(now)) else None)
  {
    hide DateLine, KeptLines, ReadField, Put;
    var kept := KeptLines(fields, excluded);
    assert ([DateLine(now)] + kept)[1..] == kept;
    DateReadBack([], now);
    GetPut([], "x-snap-cgi-date", Decimal(now), name);
    KeptReadBack(ReadField([], DateLine(now)), fields, excluded, name);
  }

  lemma {:induction false} NumberAppend(a: string, b: string, n: int)
    requires forall i :: 0 <= i < |a| ==> IsDigit(a[i])
    requires forall i :: 0 <= i < |b| ==> IsDigit(b[i])
    ensures Number(a + b, n) == Number(b, Number(a, n))
  {
    if a == "" {
      assert a + b == b;
    } else {
      assert (a + b)[1..] == a[1..] + b;
      NumberAppend(a[1..], b, n * 10 + (a[0] as int - '0' as int));
    }
  }

  /** The date, converted back to a number, is the time of the writing. */
  lemma {:induction false} DateIsNow(now: nat)
    ensures Number(Decimal(now), 0) == now
  {
    if now >= 10 {
      DateIsNow(now / 10);
      NumberAppend(Decimal(now / 10), [Digit(now % 10)], 0);
      assert Decimal(now) == Decimal(now / 10) + [Digit(now % 10)];
    }
    var last := [Digit(now % 10)];
    assert last[1..] == "";
  }

  // ---- replaying into the state machine ----

  function Unblank(s: string): string { s[Skip(s, 0, IsBlank)..] }

  /** The fields another cache sees in the replayed header. */
  function Replayed(fields: Fields, excluded: set<string>): Fields {
    if fields == [] then []
    else
      (if fields[0].0 in excluded then [] else [(fields[0].0, Unblank(fields[0].1))]) + Replayed(fields[1..], excluded)
  }

  /** The header machine alone: the steps without the buffer. */
  function Run(s: State, text: string, env: Env): (r: State)
    requires s.pos == 0
    ensures r.pos == 0
  {
    if text == "" then s
    else
      var before := Run(s, text[..|text| - 1], env);
      if InHeader(before) then
        StepKeepsBuffer(before, text[|text| - 1], env);
        Step(before, text[|text| - 1], env)
      else before
  }

  lemma {:induction false} RunAppend(s: State, a: string, b: string, env: Env)
    requires s.pos == 0
    ensures Run(s, a + b, env) == Run(Run(s, a, env), b, env)
  {
    if b == "" {
      assert a + b == a;
    } else {
      hide Step;
      RunAppend(s, a, b[..|b| - 1], env);
      assert (a + b)[..|a + b| - 1] == a + b[..|b| - 1];
    }
  }

  lemma RunOne(s: State, c: char, env: Env)
    requires s.pos == 0 && InHeader(s)
    ensures Run(s, [c], env) == Step(s, c, env)
  {
    assert [c][..0] == "";
  }

  lemma {:induction false} RunStops(s: State, text: string, env: Env)
    requires s.pos == 0 && !InHeader(s)
    ensures Run(s, text, env) == s
  {
    if text != "" {
      RunStops(s, text[..|text| - 1], env);
    }
  }

  function Bare(s: State): State { s.(buffer := "", pos := 0) }

  predicate SameHead(s: State, t: State) {
    s.phase == t.phase && s.name == t.name && s.data == t.data && s.fields == t.fields
  }

  lemma BareStep(s: State, c: char, env: Env)
    requires InHeader(s) && s.pos <= |s.buffer|
    ensures SameHead(Step(s, c, env), Step(Bare(s), c, env))
    ensures InHeader(Step(s, c, env)) ==> Bare(Step(s, c, env)) == Step(Bare(s), c, env)
  {
    hide Put, StatusVerdict, FileHeader, Excluded;
  }

  /** The loop over the buffer ends with the phase and the fields of the machine alone. */
  lemma {:induction false} LoopRuns(s: State, env: Env)
    requires InHeader(s) && s.pos <= |s.buffer|
    ensures SameHead(Loop(s, env), Run(Bare(s), s.buffer[s.pos..], env))
    decreases |s.buffer| - s.pos
  {
    if s.pos == |s.buffer| {
      assert s.buffer[s.pos..] == "";
    } else {
      hide Step, Loop, Run;
      var c, rest := s.buffer[s.pos], s.buffer[s.pos + 1..];
      assert s.buffer[s.pos..] == [c] + rest;
      var s' := Step(s.(pos := s.pos + 1), c, env);
      LoopStep(s, env);
      StepKeepsBuffer(s.(pos := s.pos + 1), c, env);
      BareStep(s.(pos := s.pos + 1), c, env);
      RunAppend(Bare(s), [c], rest, env);
      RunOne(Bare(s), c, env);
      if InHeader(s') {
        LoopRuns(s', env);
      } else {
        RunStops(Step(Bare(s), c, env), rest, env);
      }
    }
  }

  lemma {:induction false} NameRun(s: State, name: string, env: Env)
    requires s.phase == Name && s.pos == 0 && CleanName(name)
    ensures Run(s, name, env) == s.(name := s.name + name)
  {
    if name == "" {
      assert s.name + name == s.name;
    } else {
      hide CheckHeaders;
      var k := |name| - 1;
      NameRun(s, name[..k], env);
      assert NameChar(name[k]);
      assert s.name + name[..k] + [name[k]] == s.name + name;
    }
  }

  lemma {:induction false} DataRun(s: State, data: string, env: Env)
    requires s.phase == Data && s.pos == 0 && '\n' !in data
    ensures Run(s, data, env) == s.(data := s.data + data)
  {
    if data == "" {
      assert s.data + data == s.data;
    } else {
      var k := |data| - 1;
      DataRun(s, data[..k], env);
      assert s.data + data[..k] + [data[k]] == s.data + data;
    }
  }

  lemma {:induction false} BlankRun(s: State, blanks: string, env: Env)
    requires s.phase == DataStart && s.pos == 0 && forall i :: 0 <= i < |blanks| ==> IsBlank(blanks[i])
    ensures Run(s, blanks, env) == s
  {
    if blanks != "" {
      BlankRun(s, blanks[..|blanks| - 1], env);
    }
  }

  lemma ValueRun(s: State, value: string, env: Env)
    requires s.phase == DataStart && s.pos == 0 && '\n' !in value
    ensures Run(s, value + "\n", env) == s.(phase := Continue, data := s.data + Unblank(value))
  {
    hide Run;
    var n := Skip(value, 0, IsBlank);
    var blanks, data := value[..n], value[n..];
    BlankRun(s, blanks, env);
    if data == "" {
      assert value + "\n" == blanks + ['\n'];
      RunAppend(s, blanks, ['\n'], env);
      RunOne(s, '\n', env);
      assert s.data + data == s.data;
    } else {
      assert value + "\n" == blanks + ([data[0]] + (data[1..] + ['\n']));
      RunAppend(s, blanks, [data[0]] + (data[1..] + ['\n']), env);
      RunAppend(s, [data[0]], data[1..] + ['\n'], env);
      RunOne(s, data[0], env);
      var s1 := s.(phase := Data, data := s.data + [data[0]]);
      RunAppend(s1, data[1..], ['\n'], env);
      DataRun(s1, data[1..], env);
      RunOne(s1.(data := s1.data + data[1..]), '\n', env);
      assert s.data + [data[0]] + data[1..] == s.data + data;
    }
  }

  /** The end of a header line becomes final with the first character of the next line, unless that one is blank. */
  function Flush(s: State): State {
    if s.phase == Continue then s.(phase := Name, fields := Put(s.fields, s.name, s.data), name := "", data := "")
    else s
  }

  predicate LineStart(s: State) { s.pos == 0 && Flush(s).phase == Name && Flush(s).name == "" && Flush(s).data == "" }

  lemma FlushRun(s: State, text: string, env: Env)
    requires LineStart(s) && text != "" && !IsBlank(text[0])
    ensures Run(s, text, env) == Run(Flush(s), text, env)
  {
    hide Run, NameStep, Put;
    var rest := text[1..];
    assert text == [text[0]] + rest;
    RunAppend(s, [text[0]], rest, env);
    RunAppend(Flush(s), [text[0]], rest, env);
    RunOne(s, text[0], env);
    RunOne(Flush(s), text[0], env);
  }

  lemma LineRun(s: State, f: (string, string), env: Env)
    requires LineStart(s) && CleanName(f.0) && '\n' !in f.1
    ensures Run(s, FieldLine(f) + "\n", env)
         == s.(phase := Continue, fields := Flush(s).fields, name := f.0, data := Unblank(f.1))
  {
    FlushRun(s, FieldLine(f) + "\n", env);
    hide Run, Unblank, Put;
    var s0 := Flush(s);
    assert FieldLine(f) + "\n" == f.0 + ([':'] + (f.1 + "\n"));
    RunAppend(s0, f.0, [':'] + (f.1 + "\n"), env);
    NameRun(s0, f.0, env);
    assert "" + f.0 == f.0;
    var s1 := s0.(name := f.0);
    RunAppend(s1, [':'], f.1 + "\n", env);
    RunOne(s1, ':', env);
    ValueRun(s1.(phase := DataStart), f.1, env);
    assert "" + Unblank(f.1) == Unblank(f.1);
  }

  lemma {:induction false} PutLast(f: Fields, name: string, value: string)
    requires forall i :: 0 <= i < |f| ==> Less(f[i].0, name)
    ensures Put(f, name, value) == f + [(name, value)]
  {
    if f != [] {
      LessTotal(f[0].0, name);
      PutLast(f[1..], name, value);
    }
  }

  predicate Below(f: Fields, g: Fields) {
    forall i, j :: 0 <= i < |f| && 0 <= j < |g| ==> Less(f[i].0, g[j].0)
  }

  lemma BelowRest(before: Fields, f: (string, string), fields: Fields)
    requires Below(before, [f] + fields) && Sorted([f] + fields)
    ensures Below(before, fields) && Sorted(fields) && Below(before + [f], fields)
    ensures forall i :: 0 <= i < |before| ==> Less(before[i].0, f.0)
  {
    var all := [f] + fields;
    assert forall j :: 0 <= j < |fields| ==> all[j + 1] == fields[j];
    assert all[0] == f;
  }

  lemma FieldRun(s: State, f: (string, string), env: Env)
    requires LineStart(s) && CleanName(f.0) && '\n' !in f.1
    requires forall i :: 0 <= i < |Flush(s).fields| ==> Less(Flush(s).fields[i].0, f.0)
    ensures var r := Run(s, FieldLine(f) + "\n", env);
            LineStart(r) && Flush(r).fields == Flush(s).fields + [(f.0, Unblank(f.1))]
  {
    hide Run, FieldLine, Unblank, Less;
    LineRun(s, f, env);
    PutLast(Flush(s).fields, f.0, Unblank(f.1));
  }

  lemma BelowNames(before: Fields, f: (string, string), value: string, fields: Fields)
    ensures Below(before + [f], fields) == Below(before + [(f.0, value)], fields)
  {
    var a, b := before + [f], before + [(f.0, value)];
    assert forall i :: 0 <= i < |a| ==> a[i].0 == b[i].0;
  }

  lemma CleanRest(before: Fields, fields: Fields)
    requires fields != [] && CleanFields(fields) && Below(before, fields)
    ensures CleanName(fields[0].0) && '\n' !in fields[0].1
    ensures CleanFields(fields[1..]) && Below(before, fields[1..]) && Below(before + [fields[0]], fields[1..])
    ensures forall i :: 0 <= i < |before| ==> Less(before[i].0, fields[0].0)
  {
    assert [fields[0]] + fields[1..] == fields;
    BelowRest(before, fields[0], fields[1..]);
    assert forall i :: 0 <= i < |fields[1..]| ==> fields[1..][i] == fields[i + 1];
  }

  lemma FirstField(fields: Fields, excluded: set<string>)
    requires fields != []
    ensures fields[0].0 in excluded ==>
              && FieldLines(fields, excluded) == FieldLines(fields[1..], excluded)
              && Replayed(fields, excluded) == Replayed(fields[1..], excluded)
    ensures fields[0].0 !in excluded ==>
              && FieldLines(fields, excluded) == FieldLine(fields[0]) + "\n" + FieldLines(fields[1..], excluded)
              && Replayed(fields, excluded) == [(fields[0].0, Unblank(fields[0].1))] + Replayed(fields[1..], excluded)
  {
    hide FieldLine, Unblank;
  }

  lemma NoFields(s: State, excluded: set<string>, env: Env)
    requires s.pos == 0
    ensures Run(s, FieldLines([], excluded), env) == s && Flush(s).fields + Replayed([], excluded) == Flush(s).fields
  {
  }

  /** The lines of the kept fields add exactly those fields, their values without leading blanks. */
  lemma {:induction false} FieldsRun(s: State, fields: Fields, excluded: set<string>, env: Env)
    requires s.pos == 0 && LineStart(s) && CleanFields(fields) && Below(Flush(s).fields, fields)
    ensures var r := Run(s, FieldLines(fields, excluded), env);
            LineStart(r) && Flush(r).fields == Flush(s).fields + Replayed(fields, excluded)
    decreases |fields|
  {
    hide *;
    if fields == [] {
      NoFields(s, excluded, env);
    } else {
      var f, before, rest := fields[0], Flush(s).fields, fields[1..];
      CleanRest(before, fields);
      FirstField(fields, excluded);
      if f.0 in excluded {
        FieldsRun(s, rest, excluded, env);
      } else {
        RunAppend(s, FieldLine(f) + "\n", FieldLines(rest, excluded), env);
        FieldRun(s, f, env);
        BelowNames(before, f, Unblank(f.1), rest);
        FieldsRun(Run(s, FieldLine(f) + "\n", env), rest, excluded, env);
        assert before + [(f.0, Unblank(f.1))] + Replayed(rest, excluded)
            == before + ([(f.0, Unblank(f.1))] + Replayed(rest, excluded));
      }
    }
  }

  /** Replaying a saved response into a fresh cache, in any chunks, gives the fields that were kept. */
  lemma ReplayFields(fields: Fields, excluded: set<string>, body: string, chunks: seq<string>, env: Env)
    requires CleanFields(fields)
    requires Concat(chunks) == FieldLines(fields, excluded) + "\n" + body
    ensures Feed(START, chunks, env).fields == Replayed(fields, excluded)
    ensures !InHeader(Feed(START, chunks, env))
  {
    hide Loop, Run, FieldLines;
    var text, lines := Concat(chunks), FieldLines(fields, excluded);
    ChunkIndependence(START, chunks, env);
    assert "" + text == text;
    assert text[0..] == text == lines + (['\n'] + body);
    LoopRuns(START.(buffer := text), env);
    RunAppend(START, lines, ['\n'] + body, env);
    FieldsRun(START, fields, excluded, env);
    assert [] + Replayed(fields, excluded) == Replayed(fields, excluded);
    EmptyLine(Run(START, lines, env), body, env);
  }

  lemma EmptyLine(s: State, body: string, env: Env)
    requires LineStart(s)
    ensures var r := Run(s, ['\n'] + body, env); !InHeader(r) && r.fields == Flush(s).fields
  {
    FlushRun(s, ['\n'] + body, env);
    hide Run, FileHeader, Excluded, StatusVerdict, Put;
    RunAppend(Flush(s), ['\n'], body, env);
    RunOne(Flush(s), '\n', env);
    RunStops(Step(Flush(s), '\n', env), body, env);
  }

  /** What is replayed under a name: its value from the first non-blank on, unless the name is excluded. */
  lemma {:induction false} ReplayedValue(fields: Fields, excluded: set<string>, name: string)
    requires Sorted(fields)
    ensures Get(Replayed(fields, excluded), name)
         == match Get(fields, name)
            case Some(value) => if name in excluded then None else Some(Unblank(value))
            case None => None
  {
    if fields != [] {
      hide Unblank;
      var rest := Replayed(fields[1..], excluded);
      ReplayedValue(fields[1..], excluded, name);
      FirstOnce(fields);
      assert [] + rest == rest;
      assert ([(fields[0].0, Unblank(fields[0].1))] + rest)[1..] == rest;
    }
  }

  // ---- the whole way: response, file, later request ----

  ghost predicate ReadsBackAs(file: string, fields: Fields, excluded: set<string>, body: string, now: nat) {
    && ReadLines(file, []).Some?
    && (forall name :: Get(ReadFields([], ReadLines(file, []).value), name)
          == ReadValue(fields, excluded, name, if name == "x-snap-cgi-date" then Some(Decimal(now)) else None))
    && Offset(file) <= |file|
    && file[Offset(file)..] == FieldLines(fields, excluded) + "\n" + body
  }

  /** A response cached in any chunks: a later request reads its kept fields and the date, replays the kept fields and
      the unchanged body, and a cache fed with the replay, again in any chunks, holds the kept fields. */
  lemma CacheRoundTrip(chunks: seq<string>, env: Env, again: seq<string>, later: Env)
    requires Feed(START, chunks, env).phase == Caching
    ensures var s := Feed(START, chunks, env);
            var response := Concat(chunks);
            && s.file.Some? && s.pos <= |response| && Control(s.fields, env).Some?
            && var excluded := Excluded(Control(s.fields, env).value);
               && ReadsBackAs(s.file.value, s.fields, excluded, response[s.pos..], env.now)
               && (Concat(again) == s.file.value[Offset(s.file.value)..] ==>
                     Feed(START, again, later).fields == Replayed(s.fields, excluded))
  {
    hide *;
    CachedFile(chunks, env);
    var s := Feed(START, chunks, env);
    var response := Concat(chunks);
    var excluded := Excluded(Control(s.fields, env).value);
    SavedReadsBack(s.fields, excluded, response[s.pos..], env.now);
    ReadsBackTail(s.file.value, s.fields, excluded, response[s.pos..], env.now);
    if Concat(again) == s.file.value[Offset(s.file.value)..] {
      ReplayFields(s.fields, excluded, response[s.pos..], again, later);
    }
  }

  lemma ReadsBackTail(file: string, fields: Fields, excluded: set<string>, body: string, now: nat)
    requires ReadsBackAs(file, fields, excluded, body, now)
    ensures Offset(file) <= |file| && file[Offset(file)..] == FieldLines(fields, excluded) + "\n" + body
  {
  }

  lemma SavedReadsBack(fields: Fields, excluded: set<string>, body: string, now: nat)
    requires CleanFields(fields)
    ensures ReadsBackAs(FileHeader(fields, excluded, now) + body, fields, excluded, body, now)
  {
    hide FileHeader, ReadLines, ReadFields, ReadValue, Offset, FieldLines, KeptLines, DateLine;
    LinesReadBack(fields, excluded, now, body);
    forall name
      ensures Get(ReadFields([], [DateLine(now)] + KeptLines(fields, excluded)), name)
           == ReadValue(fields, excluded, name, if name == "x-snap-cgi-date" then Some(Decimal(now)) else None)
    {
      FieldsReadBack(fields, excluded, now, name);
    }
  }
}
