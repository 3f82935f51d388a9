/** Exactly which argument lists survive the mail file: a proof by counting characters. */
module MailArgs {
  import opened Sequences
  import opened Text
  import opened MailFormat

  predicate Any(c: char) { true }

  predicate IsBackslash(c: char) { c == '\\' }

  predicate IsComma(c: char) { c == ',' }

  function Count(s: string, p: char -> bool): nat {
    if s == "" then 0 else (if p(s[0]) then 1 else 0) + Count(s[1..], p)
  }

  function Total(args: seq<string>, p: char -> bool): nat {
    if args == [] then 0 else Count(args[0], p) + Total(args[1..], p)
  }

  lemma {:induction false} CountConcat(a: string, b: string, p: char -> bool)
    ensures Count(a + b, p) == Count(a, p) + Count(b, p)
  {
    if a == "" {
      assert a + b == b;
    } else {
      assert (a + b)[1..] == a[1..] + b;
      CountConcat(a[1..], b, p);
    }
  }

  lemma CountOne(c: char, p: char -> bool)
    ensures Count([c], p) == if p(c) then 1 else 0
  {
    assert [c][1..] == "";
  }

  lemma {:induction false} CountAny(s: string)
    ensures Count(s, Any) == |s|
  {
    if s != "" {
      CountAny(s[1..]);
    }
  }

  lemma {:induction false} CountZero(s: string, p: char -> bool)
    requires Count(s, p) == 0
    ensures forall i :: 0 <= i < |s| ==> !p(s[i])
  {
    if s != "" {
      CountZero(s[1..], p);
    }
  }

  lemma {:induction false} TotalConcat(a: seq<string>, b: seq<string>, p: char -> bool)
    ensures Total(a + b, p) == Total(a, p) + Total(b, p)
  {
    if a == [] {
      assert a + b == b;
    } else {
      assert (a + b)[1..] == a[1..] + b;
      TotalConcat(a[1..], b, p);
    }
  }

  lemma {:induction false} TotalZero(args: seq<string>, p: char -> bool)
    requires Total(args, p) == 0
    ensures forall i :: 0 <= i < |args| ==> Count(args[i], p) == 0
  {
    if args != [] {
      TotalZero(args[1..], p);
    }
  }

  // ---- what the reader does with each character ----

  function FoldEnd(t: string): nat
    requires t != ""
  {
    Skip(t, 1, IsFold)
  }

  /** Characters satisfying p that end up in an argument. */
  function Kept(t: string, p: char -> bool): nat
    decreases |t|
  {
    if t == "" then 0
    else if IsNewline(t[0]) then Kept(t[FoldEnd(t)..], p)
    else if t[0] == ',' then Kept(t[1..], p)
    else if t[0] == '\\' then (if |t| > 1 then (if p(t[1]) then 1 else 0) + Kept(t[2..], p) else 0)
    else (if p(t[0]) then 1 else 0) + Kept(t[1..], p)
  }

  datatype Tally = Tally(escapes: nat, splits: nat, dropped: nat)

  function TallyOf(t: string): Tally
    decreases |t|
  {
    if t == "" then Tally(0, 0, 0)
    else if IsNewline(t[0]) then
      var r := TallyOf(t[FoldEnd(t)..]);
      r.(dropped := r.dropped + FoldEnd(t))
    else if t[0] == ',' then
      var r := TallyOf(t[1..]);
      r.(splits := r.splits + 1)
    else if t[0] == '\\' then
      if |t| > 1 then
        var r := TallyOf(t[2..]);
        r.(escapes := r.escapes + 1)
      else Tally(0, 0, 0)
    else TallyOf(t[1..])
  }

  /** What is read contains what was kept, and one argument per comma, plus a last one unless empty. */
  lemma {:induction false} ScanKeeps(t: string, arg: string, args: seq<string>, p: char -> bool)
    requires Scan(t, arg, args).Some?
    ensures var r := Scan(t, arg, args).value;
            && Total(r, p) == Total(args, p) + Count(arg, p) + Kept(t, p)
            && |r| <= |args| + TallyOf(t).splits + 1
            && (|r| == |args| + TallyOf(t).splits + 1 ==> r[|r| - 1] != "")
    decreases |t|
  {
    if t == "" {
      TotalConcat(args, [arg], p);
    } else if IsNewline(t[0]) {
      ScanKeeps(t[FoldEnd(t)..], arg, args, p);
    } else if t[0] == ',' {
      ScanKeeps(t[1..], "", args + [arg], p);
      TotalConcat(args, [arg], p);
    } else if t[0] == '\\' {
      ScanKeeps(t[2..], arg + [t[1]], args, p);
      CountConcat(arg, [t[1]], p);
      CountOne(t[1], p);
    } else {
      ScanKeeps(t[1..], arg + [t[0]], args, p);
      CountConcat(arg, [t[0]], p);
      CountOne(t[0], p);
    }
  }

  lemma {:induction false} CountFold(s: string)
    requires forall i :: 0 <= i < |s| ==> IsFold(s[i])
    ensures Count(s, IsBackslash) == 0 && Count(s, IsComma) == 0 && Count(s, IsNewline) <= |s|
  {
    if s != "" {
      CountFold(s[1..]);
    }
  }

  /** Every character read is accounted for. */
  lemma {:induction false} ScanSizes(t: string, arg: string, args: seq<string>)
    requires Scan(t, arg, args).Some?
    ensures var r := TallyOf(t);
            && |t| == r.escapes + Kept(t, Any) + r.splits + r.dropped
            && Kept(t, IsBackslash) + Kept(t, IsComma) + Kept(t, IsNewline) <= r.escapes
    decreases |t|
  {
    if t == "" {
    } else if IsNewline(t[0]) {
      ScanSizes(t[FoldEnd(t)..], arg, args);
    } else if t[0] == ',' {
      ScanSizes(t[1..], "", args + [arg]);
    } else if t[0] == '\\' {
      ScanSizes(t[2..], arg + [t[1]], args);
    } else {
      ScanSizes(t[1..], arg + [t[0]], args);
    }
  }

  /** Every backslash, comma and newline read is accounted for. */
  lemma {:induction false} ScanCounts(t: string, arg: string, args: seq<string>)
    requires Scan(t, arg, args).Some?
    ensures var r := TallyOf(t);
            && Count(t, IsBackslash) == r.escapes + Kept(t, IsBackslash)
            && Count(t, IsComma) == r.splits + Kept(t, IsComma)
            && Count(t, IsNewline) <= r.dropped + Kept(t, IsNewline)
    decreases |t|
  {
    hide Count;
    if t == "" {
      CountNone(t);
    } else if IsNewline(t[0]) {
      ScanCounts(t[FoldEnd(t)..], arg, args);
      CountFolded(t, FoldEnd(t));
    } else if t[0] == ',' {
      ScanCounts(t[1..], "", args + [arg]);
      CountFirst(t);
    } else if t[0] == '\\' {
      ScanCounts(t[2..], arg + [t[1]], args);
      CountFirst(t);
      CountFirst(t[1..]);
      assert t[1..][1..] == t[2..];
    } else {
      ScanCounts(t[1..], arg + [t[0]], args);
      CountFirst(t);
    }
  }

  lemma CountFolded(t: string, k: nat)
    requires 0 < k <= |t| && IsNewline(t[0]) && forall i :: 1 <= i < k ==> IsFold(t[i])
    ensures Count(t, IsBackslash) == Count(t[k..], IsBackslash) && Count(t, IsComma) == Count(t[k..], IsComma)
    ensures Count(t, IsNewline) <= k + Count(t[k..], IsNewline)
  {
    hide Count;
    assert t == t[..k] + t[k..];
    CountConcat(t[..k], t[k..], IsBackslash);
    CountConcat(t[..k], t[k..], IsComma);
    CountConcat(t[..k], t[k..], IsNewline);
    CountFold(t[..k]);
  }

  lemma CountNone(t: string)
    requires t == ""
    ensures Count(t, IsBackslash) == Count(t, IsComma) == Count(t, IsNewline) == 0
  {
  }

  lemma CountFirst(t: string)
    requires t != ""
    ensures Count(t, IsBackslash) == (if IsBackslash(t[0]) then 1 else 0) + Count(t[1..], IsBackslash)
    ensures Count(t, IsComma) == (if IsComma(t[0]) then 1 else 0) + Count(t[1..], IsComma)
    ensures Count(t, IsNewline) == (if IsNewline(t[0]) then 1 else 0) + Count(t[1..], IsNewline)
  {
  }

  // ---- what the printer writes ----

  lemma {:induction false} EscapeCounts(a: string)
    ensures Count(EscapeCommas(a), IsBackslash) == Count(a, IsBackslash) + Count(a, IsComma)
    ensures Count(EscapeCommas(a), IsComma) == Count(a, IsComma)
    ensures Count(EscapeCommas(a), IsNewline) == Count(a, IsNewline)
    ensures |EscapeCommas(a)| == |a| + Count(a, IsComma)
  {
    if a != "" {
      EscapeCounts(a[1..]);
      var first, rest := if a[0] == ',' then "\\," else [a[0]], EscapeCommas(a[1..]);
      CountConcat(first, rest, IsBackslash);
      CountConcat(first, rest, IsComma);
      CountConcat(first, rest, IsNewline);
      if a[0] == ',' {
        assert first[1..] == ",";
      }
    }
  }

  lemma {:induction false} PrintCounts(args: seq<string>)
    requires args != []
    ensures Count(PrintArgs(args), IsBackslash) == Total(args, IsBackslash) + Total(args, IsComma)
    ensures Count(PrintArgs(args), IsComma) == Total(args, IsComma) + |args| - 1
    ensures Count(PrintArgs(args), IsNewline) == Total(args, IsNewline)
    ensures |PrintArgs(args)| == Total(args, Any) + Total(args, IsComma) + |args| - 1
  {
    hide Count, EscapeCommas;
    EscapeCounts(args[0]);
    CountAny(args[0]);
    if |args| == 1 {
      assert args == [args[0]];
    } else {
      PrintCounts(args[1..]);
      var first, rest := EscapeCommas(args[0]), PrintArgs(args[1..]);
      CountJoin(first, rest, IsBackslash);
      CountJoin(first, rest, IsComma);
      CountJoin(first, rest, IsNewline);
    }
  }

  lemma CountJoin(a: string, b: string, p: char -> bool)
    ensures Count(a + "," + b, p) == Count(a, p) + (if p(',') then 1 else 0) + Count(b, p)
  {
    CountConcat(a + ",", b, p);
    CountConcat(a, ",", p);
    CountOne(',', p);
  }

  // ---- the theorem ----

  /** The argument text between the header name and the end of its line. */
  function ArgsText(args: seq<string>): string { " " + PrintArgs(args) + "\r" }

  lemma ArgsTextCounts(args: seq<string>)
    requires args != []
    ensures Count(ArgsText(args), IsBackslash) == Total(args, IsBackslash) + Total(args, IsComma)
    ensures Count(ArgsText(args), IsComma) == Total(args, IsComma) + |args| - 1
    ensures Count(ArgsText(args), IsNewline) == Total(args, IsNewline) + 1
    ensures |ArgsText(args)| == Total(args, Any) + Total(args, IsComma) + |args| + 1
  {
    hide Count;
    PrintCounts(args);
    CountWrapped(PrintArgs(args), IsBackslash);
    CountWrapped(PrintArgs(args), IsComma);
    CountWrapped(PrintArgs(args), IsNewline);
  }

  lemma CountWrapped(s: string, p: char -> bool)
    ensures Count(" " + s + "\r", p) == (if p(' ') then 1 else 0) + Count(s, p) + (if p('\r') then 1 else 0)
  {
    CountConcat(" " + s, "\r", p);
    CountConcat(" ", s, p);
    CountOne(' ', p);
    CountOne('\r', p);
  }

  lemma {:induction false} CountSpaces(s: string)
    requires forall i :: 0 <= i < |s| ==> IsSpace(s[i])
    ensures Count(s, IsBackslash) == 0 && Count(s, IsComma) == 0 && Count(s, IsNewline) <= |s|
  {
    if s != "" {
      CountSpaces(s[1..]);
    }
  }

  /** The text, cut where its leading white space ends. */
  lemma CutCounts(text: string, u: nat)
    requires u <= |text| && forall i :: 0 <= i < u ==> IsSpace(text[i])
    ensures Count(text, IsBackslash) == Count(text[u..], IsBackslash)
    ensures Count(text, IsComma) == Count(text[u..], IsComma)
    ensures Count(text, IsNewline) <= u + Count(text[u..], IsNewline)
    ensures u < |text| && text[|text| - 1] == '\r' ==> Count(text[u..], IsNewline) >= 1
    ensures 0 < u && text[0] == ' ' ==> Count(text, IsNewline) <= u - 1 + Count(text[u..], IsNewline)
  {
    hide Count, IsSpace;
    var t := text[u..];
    assert text == text[..u] + t;
    CountConcat(text[..u], t, IsBackslash);
    CountConcat(text[..u], t, IsComma);
    CountConcat(text[..u], t, IsNewline);
    CountSpaces(text[..u]);
    LastCounted(t);
    if 0 < u {
      assert text[..u] == [text[0]] + text[1..u];
      CountConcat([text[0]], text[1..u], IsNewline);
      CountOne(text[0], IsNewline);
      CountSpaces(text[1..u]);
    }
  }

  /** If the list is read back unchanged, nothing was escaped but its commas and nothing was lost. */
  lemma ReadBackCounts(args: seq<string>)
    requires args != [] && ScanArgs(ArgsText(args)) == Some(args)
    ensures Total(args, IsBackslash) == 0 && Total(args, IsNewline) == 0
    ensures args[|args| - 1] != ""
    ensures Skip(ArgsText(args), 0, IsSpace) == 1
  {
    hide Count, Total, Kept, TallyOf, Scan, ArgsText, IsSpace, Skip;
    var text := ArgsText(args);
    TextEnds(args);
    var u := Skip(text, 0, IsSpace);
    var t := text[u..];
    CutCounts(text, u);
    ArgsTextCounts(args);
    ScanCounts(t, "", []);
    ScanSizes(t, "", []);
    ScanKept(t, args);
    SpaceSkipped(text);
    ScanNothing("", []);
    assert t != "";
  }

  lemma ScanKept(t: string, args: seq<string>)
    requires Scan(t, "", []) == Some(args)
    ensures Total(args, IsBackslash) == Kept(t, IsBackslash) && Total(args, IsComma) == Kept(t, IsComma)
    ensures Total(args, IsNewline) == Kept(t, IsNewline) && Total(args, Any) == Kept(t, Any)
    ensures |args| <= TallyOf(t).splits + 1 && (|args| == TallyOf(t).splits + 1 ==> args[|args| - 1] != "")
  {
    hide Kept, TallyOf, Scan;
    ScanKeeps(t, "", [], IsBackslash);
    ScanKeeps(t, "", [], IsComma);
    ScanKeeps(t, "", [], IsNewline);
    ScanKeeps(t, "", [], Any);
  }

  lemma SpaceSkipped(text: string)
    requires text != "" && text[0] == ' '
    ensures Skip(text, 0, IsSpace) >= 1
  {
  }

  lemma TextEnds(args: seq<string>)
    ensures |ArgsText(args)| >= 2 && ArgsText(args)[0] == ' ' && ArgsText(args)[|ArgsText(args)| - 1] == '\r'
  {
  }

  lemma {:induction false} LastCounted(t: string)
    ensures t != "" && t[|t| - 1] == '\r' ==> Count(t, IsNewline) >= 1
  {
    if t != "" {
      assert t == t[..|t| - 1] + [t[|t| - 1]];
      CountConcat(t[..|t| - 1], [t[|t| - 1]], IsNewline);
      CountOne(t[|t| - 1], IsNewline);
    }
  }

  /** An argument list is read back as it was written if and only if it has no backslash and no newline,
      does not start with white space, and does not end with an empty argument. */
  lemma ArgsReadBackExactly(args: seq<string>)
    requires args != []
    ensures ScanArgs(ArgsText(args)) == Some(args) <==> GoodArgs(args)
  {
    if GoodArgs(args) {
      ArgsRoundTrip(args);
    }
    if ScanArgs(ArgsText(args)) == Some(args) {
      ReadBackCounts(args);
      forall i | 0 <= i < |args|
        ensures CleanArg(args[i])
      {
        TotalZero(args, IsBackslash);
        TotalZero(args, IsNewline);
        CountZero(args[i], IsBackslash);
        CountZero(args[i], IsNewline);
      }
      if args[0] != "" && args[0][0] != ',' {
        assert EscapeCommas(args[0])[0] == args[0][0];
        assert ArgsText(args)[1] == args[0][0];
      }
    }
  }

  /** The reader of the arguments stops on every text that does not end with a backslash. */
  lemma {:induction false} ScanStops(t: string, arg: string, args: seq<string>)
    ensures Scan(t, arg, args).None? ==> t != "" && t[|t| - 1] == '\\'
    decreases |t|
  {
    if t != "" {
      if IsNewline(t[0]) {
        ScanStops(t[Skip(t, 1, IsFold)..], arg, args);
      } else if t[0] == ',' {
        ScanStops(t[1..], "", args + [arg]);
      } else if t[0] == '\\' {
        if |t| > 1 {
          ScanStops(t[2..], arg + [t[1]], args);
        }
      } else {
        ScanStops(t[1..], arg + [t[0]], args);
      }
    }
  }

  /** It does not stop on arguments without backslashes and newlines that are followed by a backslash. */
  lemma {:induction false} ScanHangs(t: string, arg: string, args: seq<string>)
    requires forall i :: 0 <= i < |t| ==> t[i] != '\\' && !IsNewline(t[i])
    ensures Scan(t + "\\", arg, args).None?
    decreases |t|
  {
    var s := t + "\\";
    if t == "" {
      assert s == "\\";
    } else {
      assert s[1..] == t[1..] + "\\";
      if t[0] == ',' {
        ScanHangs(t[1..], "", args + [arg]);
      } else {
        ScanHangs(t[1..], arg + [t[0]], args);
      }
    }
  }

  /** So it stops on every list that was written, whatever the arguments. */
  lemma PrintedStops(args: seq<string>)
    ensures ScanArgs(ArgsText(args)).Some?
  {
    hide Scan, ArgsText;
    var text := ArgsText(args);
    TextEnds(args);
    ScanStops(text[Skip(text, 0, IsSpace)..], "", []);
  }

  // ---- lists that are read as nothing ----

  predicate AllSpace(s: string) { forall i :: 0 <= i < |s| ==> IsSpace(s[i]) }

  lemma {:induction false} ScanNotEmpty(t: string, arg: string, args: seq<string>)
    requires arg != "" || args != []
    ensures Scan(t, arg, args) != Some([])
    decreases |t|
  {
    if t != "" {
      if IsNewline(t[0]) {
        ScanNotEmpty(t[Skip(t, 1, IsFold)..], arg, args);
      } else if t[0] == ',' {
        ScanNotEmpty(t[1..], "", args + [arg]);
      } else if t[0] == '\\' {
        if |t| > 1 {
          ScanNotEmpty(t[2..], arg + [t[1]], args);
        }
      } else {
        ScanNotEmpty(t[1..], arg + [t[0]], args);
      }
    }
  }

  lemma SpaceScanned(text: string)
    ensures ScanArgs(text) == Some([]) <==> AllSpace(text)
  {
    var u := Skip(text, 0, IsSpace);
    if AllSpace(text) {
      assert text[u..] == "";
    } else {
      var t := text[u..];
      assert u < |text| && t != "" && !IsSpace(t[0]);
      if t[0] == ',' {
        ScanNotEmpty(t[1..], "", [] + [""]);
      } else if t[0] == '\\' {
        if |t| > 1 {
          ScanNotEmpty(t[2..], "" + [t[1]], []);
        }
      } else {
        ScanNotEmpty(t[1..], "" + [t[0]], []);
      }
    }
  }

  lemma {:induction false} EscapeSpace(a: string)
    ensures AllSpace(EscapeCommas(a)) <==> AllSpace(a)
  {
    hide AllSpace;
    if a != "" {
      EscapeSpace(a[1..]);
      var first := if a[0] == ',' then "\\," else [a[0]];
      assert EscapeCommas(a) == first + EscapeCommas(a[1..]);
      assert a == [a[0]] + a[1..];
      SpaceJoin(first, EscapeCommas(a[1..]));
      SpaceJoin([a[0]], a[1..]);
      SpacesAre();
      if a[0] == ',' {
        assert [a[0]] == ",";
      }
    }
  }

  lemma SpaceJoin(a: string, b: string)
    ensures AllSpace(a + b) <==> AllSpace(a) && AllSpace(b)
  {
    assert forall i :: 0 <= i < |a| ==> (a + b)[i] == a[i];
    assert forall i :: 0 <= i < |b| ==> (a + b)[|a| + i] == b[i];
  }

  /** No argument is scanned exactly when there was none, or one of white space only. */
  lemma NoArgsScanned(args: seq<string>)
    ensures ScanArgs(ArgsText(args)) == Some([]) <==> args == [] || (|args| == 1 && AllSpace(args[0]))
  {
    hide ScanArgs, EscapeCommas, AllSpace;
    SpaceScanned(ArgsText(args));
    SpaceJoin(" " + PrintArgs(args), "\r");
    SpaceJoin(" ", PrintArgs(args));
    SpacesAre();
    if |args| == 1 {
      EscapeSpace(args[0]);
    } else if |args| > 1 {
      SpaceJoin(EscapeCommas(args[0]) + ",", PrintArgs(args[1..]));
      SpaceJoin(EscapeCommas(args[0]), ",");
    }
  }

  lemma SpacesAre()
    ensures AllSpace("") && AllSpace(" ") && AllSpace("\r") && !AllSpace(",") && !AllSpace("\\,")
  {
    assert !IsSpace(","[0]) && !IsSpace("\\,"[0]);
  }

  /** Characters that are not in the text are in no argument. */
  lemma {:induction false} ScanOneLine(t: string, arg: string, args: seq<string>)
    requires '\n' !in t && '\n' !in arg && forall i :: 0 <= i < |args| ==> '\n' !in args[i]
    ensures var r := Scan(t, arg, args); r.Some? ==> forall i :: 0 <= i < |r.value| ==> '\n' !in r.value[i]
    decreases |t|
  {
    if t != "" {
      if IsNewline(t[0]) {
        ScanOneLine(t[Skip(t, 1, IsFold)..], arg, args);
      } else if t[0] == ',' {
        ScanOneLine(t[1..], "", args + [arg]);
      } else if t[0] == '\\' {
        if |t| > 1 {
          ScanOneLine(t[2..], arg + [t[1]], args);
        }
      } else {
        ScanOneLine(t[1..], arg + [t[0]], args);
      }
    }
  }

  lemma {:induction false} EscapeOneLine(a: string)
    requires '\n' !in a
    ensures '\n' !in EscapeCommas(a)
  {
    if a != "" {
      var first, rest := if a[0] == ',' then "\\," else [a[0]], a[1..];
      assert '\n' !in rest;
      EscapeOneLine(rest);
      assert EscapeCommas(a) == first + EscapeCommas(rest);
      assert '\n' !in first;
    }
  }

  lemma {:induction false} PrintOneLine(args: seq<string>)
    requires forall i :: 0 <= i < |args| ==> '\n' !in args[i]
    ensures '\n' !in PrintArgs(args)
  {
    if args != [] {
      EscapeOneLine(args[0]);
      PrintOneLine(args[1..]);
    }
  }
}
