/** The snap.cgi object: the header machine updating its buffer and fields, and the reader of the saved file. */
module CgiProgram {
  import opened Sequences
  import opened Text
  import opened CgiFields
  import CgiCache
  import CgiReplay

  class SnapCgi {
    var cache: string
    var cachePos: nat
    var phase: CgiCache.Phase
    var fieldName: string
    var fieldData: string
    var fields: Fields
    var file: Option<string>

    function State(): CgiCache.State
      reads this
    {
      CgiCache.State(phase, cache, cachePos, fieldName, fieldData, fields, file)
    }

    constructor ()
      ensures State() == CgiCache.START
    {
      cache, cachePos, phase, fieldName, fieldData, fields, file := "", 0, CgiCache.Name, "", "", [], None;
    }

    /** Start the cache file, if the response may be kept. Nothing is kept when the status is not a number. */
    method CheckHeaders(env: CgiCache.Env) returns (thrown: bool)
      requires cachePos <= |cache|
      modifies this
      ensures State() == CgiCache.CheckHeaders(old(State()), env)
      ensures thrown == CgiCache.StatusVerdict(old(fields)).Thrown?
    {
      phase := CgiCache.NoCache;
      thrown := false;
      var status := Get(fields, "status");
      if status.Some? {
        var space := Skip(status.value, 0, CgiCache.NotSpace);
        if space < |status.value| {
          var code := CgiCache.Stoi(status.value[..space]);
          if code.None? {
            return true;
          }
          if code.value != 200 {
            cache := "";
            return;
          }
        }
      }
      var control := CgiCache.Control(fields, env);
      if control.Some? {
        var ccs := control.value;
        if !ccs.mustRevalidate && !ccs.proxyRevalidate && !ccs.isPrivate && ccs.isPublic && !ccs.noCache
           && ccs.sMaxAge != 0
        {
          phase := CgiCache.Caching;
        }
      }
      if phase == CgiCache.Caching {
        var text := WriteHeader(CgiCache.Excluded(control.value), env.now);
        file := Some(text + cache[cachePos..]);
      }
      cache := "";
    }

    method WriteHeader(excluded: set<string>, now: nat) returns (text: string)
      ensures text == CgiCache.FileHeader(fields, excluded, now)
    {
      text := CgiCache.DateLine(now) + "\n";
      ghost var date := text;
      for i := 0 to |fields|
        invariant text + CgiCache.FieldLines(fields[i..], excluded) == date + CgiCache.FieldLines(fields, excluded)
      {
        var f := fields[i];
        ghost var before := text;
        assert fields[i..][1..] == fields[i + 1..];
        if f.0 !in excluded {
          text := text + f.0 + ":" + f.1 + "\n";
          assert text == before + (CgiCache.FieldLine(f) + "\n");
        }
        assert before + CgiCache.FieldLines(fields[i..], excluded)
            == text + CgiCache.FieldLines(fields[i + 1..], excluded);
      }
      assert text == date + CgiCache.FieldLines(fields, excluded);
      text := text + "\n";
    }

    /** Read a header character. The result says that the header is over or refused. */
    method ReadCharacter(c: char, env: CgiCache.Env) returns (over: bool)
      requires CgiCache.InHeader(State()) && cachePos <= |cache|
      modifies this
      ensures State() == CgiCache.Step(old(State()), c, env)
      ensures over == !CgiCache.InHeader(State())
    {
      hide CgiCache.CheckHeaders, CgiCache.StatusVerdict, Put;
      over := false;
      if phase == CgiCache.Continue {
        if c == ' ' || c == '\t' {
          phase := CgiCache.DataStart;
          fieldData := fieldData + " ";
          return;
        }
        phase := CgiCache.Name;
        fields := Put(fields, fieldName, fieldData);
        fieldName, fieldData := "", "";
      }
      if phase == CgiCache.Name {
        over := ReadNameCharacter(c, env);
        return;
      }
      if phase == CgiCache.Separator {
        if c == ' ' || c == '\t' {
        } else if c == ':' {
          phase := CgiCache.DataStart;
        } else {
          phase, cache, over := CgiCache.NoCache, "", true;
        }
        return;
      }
      if phase == CgiCache.DataStart {
        if c == ' ' || c == '\t' {
          return;
        }
        phase := CgiCache.Data;
      }
      if c == '\n' {
        phase := CgiCache.Continue;
      } else {
        fieldData := fieldData + [c];
      }
    }

    method ReadNameCharacter(c: char, env: CgiCache.Env) returns (over: bool)
      requires phase == CgiCache.Name && cachePos <= |cache|
      modifies this
      ensures State() == CgiCache.NameStep(old(State()), c, env)
      ensures over == !CgiCache.InHeader(State())
    {
      over := false;
      if c == '\n' {
        if fieldName != "" {
          phase, cache := CgiCache.NoCache, "";
        } else {
          CgiCache.CheckMore(State(), env, "");
          var _ := CheckHeaders(env);
        }
        over := true;
      } else if c == ':' {
        phase := CgiCache.DataStart;
      } else if c == ' ' || c == '\t' {
        phase := CgiCache.Separator;
      } else if 'A' <= c <= 'Z' {
        fieldName := fieldName + [CgiCache.Lower(c)];
      } else if (c < 'a' || c > 'z') && (c < '0' || c > '9') && c != '_' && c != '-' {
        phase, cache, over := CgiCache.NoCache, "", true;
      } else {
        fieldName := fieldName + [c];
      }
    }

    method CacheData(data: string, env: CgiCache.Env)
      requires CgiCache.Ready(State())
      modifies this
      ensures State() == CgiCache.CacheData(old(State()), data, env)
      ensures CgiCache.Ready(State())
    {
      hide CgiCache.Step, CgiCache.Loop;
      CgiCache.ReadyKept(State(), data, env);
      if phase == CgiCache.Caching {
        file := Some(file.value + data);
        return;
      }
      if phase == CgiCache.NoCache {
        return;
      }
      cache := cache + data;
      ghost var start := State();
      while cachePos < |cache|
        invariant CgiCache.InHeader(State()) && cachePos <= |cache|
        invariant CgiCache.Loop(State(), env) == CgiCache.Loop(start, env)
        decreases |cache| - cachePos
      {
        CgiCache.LoopStep(State(), env);
        var c := cache[cachePos];
        cachePos := cachePos + 1;
        CgiCache.StepKeepsBuffer(State(), c, env);
        var over := ReadCharacter(c, env);
        if over {
          return;
        }
      }
      EndOfLoop(State(), env);
    }
  }

  lemma EndOfLoop(s: CgiCache.State, env: CgiCache.Env)
    requires s.pos == |s.buffer|
    ensures CgiCache.Loop(s, env) == s
  {
  }

  /** The characters up to the line feed. */
  method ReadLine(file: string, at: nat) returns (line: string, end: nat)
    requires at <= |file|
    ensures at <= end <= |file| && line == file[at..end] && end - at == Skip(file[at..], 0, NotLineFeed)
  {
    line, end := "", at;
    while end < |file| && file[end] != '\n'
      invariant at <= end <= |file| && line == file[at..end]
      invariant forall k :: at <= k < end ==> file[k] != '\n'
    {
      line := line + [file[end]];
      end := end + 1;
    }
    SkipIs(file[at..], 0, NotLineFeed, end - at);
  }

  /** Read the header lines of a saved file, character by character. */
  method ReadHeader(file: string) returns (header: Option<(seq<string>, nat)>)
    ensures header == match CgiReplay.ReadLines(file, [])
                      case None => None
                      case Some(lines) => Some((lines, CgiReplay.Offset(file)))
  {
    hide CgiReplay.ReadLines, CgiReplay.AddLine, Skip;
    var lines: seq<string> := [];
    var first, offset, at := true, 0, 0;
    assert file[0..] == file;
    while true
      invariant at <= |file|
      invariant CgiReplay.ReadLines(file[at..], lines) == CgiReplay.ReadLines(file, [])
      invariant first == (lines == [])
      invariant if first then at == 0 && offset == 0 else offset == CgiReplay.Offset(file)
      decreases |file| - at
    {
      ReadStep(file[at..], lines);
      var line, end := ReadLine(file, at);
      if end == |file| {
        return None;
      }
      assert file[at..][..|line|] == line;
      assert file[at..][|line| + 1..] == file[end + 1..];
      at := end + 1;
      if line == "" {
        return Some((lines, offset));
      }
      if first {
        offset := |line| + 1;
      }
      lines := AddLine(lines, first, line);
      first := false;
    }
  }

  lemma ReadStep(text: string, lines: seq<string>)
    ensures CgiReplay.ReadLines(text, lines) ==
            var end := Skip(text, 0, NotLineFeed);
            if end == |text| then None
            else if end == 0 then Some(lines)
            else CgiReplay.ReadLines(text[end + 1..], CgiReplay.AddLine(lines, text[..end]))
  {
  }

  /** A continuation keeps its blanks: the test that should skip them, "not a space or not a tab", is always true
      and stops at the first character. */
  method AddLine(lines: seq<string>, first: bool, line: string) returns (r: seq<string>)
    requires line != "" && first == (lines == [])
    ensures r == CgiReplay.AddLine(lines, line)
  {
    r := lines;
    if !first && (line[0] == ' ' || line[0] == '\t') {
      var p := 0;
      var last := |r| - 1;
      r := r[last := r[last] + [' ']];
      r := r[last := r[last] + line[p..]];
      assert line[0..] == line;
      assert r == lines[..last] + [lines[last] + " " + line];
    } else {
      r := r + [line];
    }
  }

  /** Put the lines in the fields. */
  method ReadFields(before: Fields, lines: seq<string>) returns (fields: Fields)
    ensures fields == CgiReplay.ReadFields(before, lines)
  {
    hide Put, CgiReplay.Trim, CgiCache.LowerAll;
    fields := before;
    assert lines[0..] == lines;
    for i := 0 to |lines|
      invariant CgiReplay.ReadFields(fields, lines[i..]) == CgiReplay.ReadFields(before, lines)
    {
      var l := lines[i];
      assert lines[i..][1..] == lines[i + 1..];
      var colon := Skip(l, 0, CgiReplay.NotColon);
      // without a colon, find() returns npos, which is positive, and npos + 1 is 0
      if colon > 0 || colon == |l| {
        var name := CgiCache.LowerAll(CgiReplay.Trim(l[..colon]));
        var value := CgiReplay.Trim(if colon == |l| then l else l[colon + 1..]);
        fields := Put(fields, name, value);
      }
    }
  }
}
