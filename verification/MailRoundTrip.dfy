/** Reading a record of the mail file gives back what was written, and exactly when it does. */
module MailRoundTrip {
  import opened Sequences
  import opened Text
  import opened MailArgs
  import opened MailFormat

  /** From position a on, s holds a header line, a text and what follows the record. */
  ghost predicate Layout(s: string, a: nat, line: string, email: string, t: string) {
    var c := a + |line| + 2;
    var d := c + |email|;
    && |s| == d + 2 + |t|
    && (forall k :: a <= k < c - 2 ==> s[k] == line[k - a])
    && s[c - 2] == '\r' && s[c - 1] == '\n'
    && (forall k :: c <= k < d ==> s[k] == email[k - c])
    && s[d] == '\r' && s[d + 1] == '\n'
    && (forall k :: d + 2 <= k < |s| ==> s[k] == t[k - d - 2])
  }

  /** What may follow a record: nothing, or another record. */
  predicate Follows(t: string) { t == "" || (|t| > 5 && FromWord(t, 0)) }

  predicate NoNewline(s: string) { '\r' !in s && '\n' !in s }

  lemma BodyWord(s: string, a: nat, line: string, email: string, t: string, i: nat)
    requires Layout(s, a, line, email, t) && i <= |email|
    ensures FromWord(s, a + |line| + 2 + i) <==> FromWord(email, i)
  {
    var c := a + |line| + 2;
    if i + 5 <= |email| {
      assert forall j {:trigger email[i + j]} :: 0 <= j < 5 ==> s[c + i + j] == email[i + j];
    } else if i + 5 <= |email| + 5 {
      assert s[c + |email|] == '\r';
    }
  }

  /** The first line of a record ends where the header line starts. */
  lemma StartFound(s: string, at: nat, head: string, a: nat)
    requires a == at + |head| + 2 < |s| && |head| >= 5 && head[..5] == "From " && NoNewline(head)
    requires s[at..at + |head|] == head && s[a - 2] == '\r' && s[a - 1] == '\n' && !IsNewline(s[a])
    ensures s[at..at + 5] == "From " && NextLine(s, at) == a
  {
    assert s[at..at + 5] == s[at..at + |head|][..5];
    forall k | at <= k < a - 2
      ensures NotNewline(s[k])
    {
      assert s[k] == s[at..at + |head|][k - at];
    }
    SkipIs(s, at, NotNewline, a - 2);
    SkipIs(s, a - 2, IsNewline, a);
  }

  predicate IsHeader(name: string, args: seq<string>, line: string) {
    line == name + " " + PrintArgs(args)
  }

  lemma TakeArgsAt(name: string, text: string, e: nat, r: nat)
    requires '\n' !in name && TextAt(text, name, 0) && Skip(text, 0, NotLineFeed) == e <= |text|
    requires Skip(text, e, IsNewline) == r
    ensures |name| <= e
    ensures e + 1 < |text| && IsBlank(text[e + 1]) ==> TakeArgs(name, text) == Loops
    ensures !(e + 1 < |text| && IsBlank(text[e + 1])) ==>
              var args := ScanArgs(text[|name|..e]);
              TakeArgs(name, text) == if args.None? then Loops else Header(args.value, text[r..])
  {
    NameHasNoLineFeed(name, text, 0);
    assert FindText(text, name, 0) == Some(0);
    hide ScanArgs, FindText, TextAt, Skip;
    assert text[..0] + text[r..] == text[r..];
  }

  lemma HeaderPositions(line: string, body: string, text: string)
    requires '\n' !in line && text == line + CRLF + body
    requires body != "" && !IsNewline(body[0]) && !IsBlank(body[0])
    ensures Skip(text, 0, NotLineFeed) == |line| + 1
    ensures Skip(text, |line| + 1, IsNewline) == |line| + 2 && !IsBlank(text[|line| + 2])
    ensures text[|line| + 2..] == body
  {
    assert forall k :: 0 <= k < |line| ==> text[k] == line[k];
    assert text[|line|] == '\r' && text[|line| + 1] == '\n' && text[|line| + 2] == body[0];
    SkipIs(text, 0, NotLineFeed, |line| + 1);
    SkipIs(text, |line| + 1, IsNewline, |line| + 2);
  }

  lemma HeaderSlices(name: string, printed: string, rest: string)
    ensures var text := name + " " + printed + CRLF + rest;
            TextAt(text, name, 0) && text[|name|..|name| + 1 + |printed| + 1] == " " + printed + "\r"
  {
  }

  /** The header is found, read and removed. */
  lemma HeaderTaken(name: string, args: seq<string>, line: string, body: string)
    requires '\n' !in name && IsHeader(name, args, line) && '\n' !in line
    requires body != "" && !IsNewline(body[0]) && !IsBlank(body[0])
    ensures ScanArgs(ArgsText(args)).Some?
    ensures TakeArgs(name, line + CRLF + body) == Header(ScanArgs(ArgsText(args)).value, body)
  {
    hide TakeArgs, Skip, ScanArgs, PrintArgs, TextAt;
    var text := line + CRLF + body;
    HeaderPositions(line, body, text);
    HeaderSlices(name, PrintArgs(args), body);
    TakeArgsAt(name, text, |line| + 1, |line| + 2);
    PrintedStops(args);
  }

  /** The text handed over for the last record keeps the line end that separates records. */
  function Handed(email: string, last: bool): string { if last then email + CRLF else email }

  lemma BodyCut(s: string, a: nat, line: string, email: string, t: string)
    requires Layout(s, a, line, email, t) && Follows(t) && '\n' !in line && GoodBody(email)
    ensures s[a..BodyEnd(s, a)] == line + CRLF + Handed(email, t == "")
    ensures Skip(s, BodyEnd(s, a), IsNewline) == a + |line| + |email| + 4
  {
    var d := a + |line| + 2 + |email|;
    assert BodyEnd(s, a) == if t == "" then |s| else d;
    SkipIs(s, BodyEnd(s, a), IsNewline, d + 2);
  }

  /** What the reader makes of a good body: the arguments scanned, or else the recipient found in the text. */
  function ReadFrom(args: seq<string>, text: string, next: nat): Parsed
    requires ScanArgs(ArgsText(args)).Some?
  {
    var scanned := ScanArgs(ArgsText(args)).value;
    if scanned != [] then Email(scanned, text, next)
    else
      match FindTo(text, 0)
      case None => NoArgs
      case Some(to) => Email([to], text, next)
  }

  lemma GoodBodyRead(name: string, s: string, a: nat, args: seq<string>, line: string, email: string, t: string)
    requires Layout(s, a, line, email, t) && Follows(t) && GoodBody(email)
    requires '\n' !in name && IsHeader(name, args, line) && '\n' !in line
    ensures ScanArgs(ArgsText(args)).Some?
    ensures ParseBody(name, s, a) == ReadFrom(args, Handed(email, t == ""), a + |line| + |email| + 4)
  {
    hide TakeArgs, ScanArgs, ArgsText, FindTo, Layout, Follows, IsHeader, BodyEnd, Skip;
    BodyCut(s, a, line, email, t);
    HeaderTaken(name, args, line, Handed(email, t == ""));
  }

  /** A "from " line inside the text ends the record too early. */
  lemma EarlyFromLine(name: string, s: string, a: nat, k: nat)
    requires '\n' !in name && a <= k && k + 6 < |s| && s[k] == '\n' && FromWord(s, k + 1)
    ensures ParseBody(name, s, a).Email? ==> ParseBody(name, s, a).next <= k + 1
  {
    var r := FindFrom(s, a);
    assert r <= k;
    SkipIs(s, BodyEnd(s, a), IsNewline, r + 1);
  }

  lemma BadBodyNotRead(name: string, s: string, a: nat, args: seq<string>, line: string, email: string, t: string)
    requires Layout(s, a, line, email, t) && Follows(t) && Handed(email, t == "") != "" && !GoodBody(email)
    requires '\n' !in name && IsHeader(name, args, line) && '\n' !in line
    ensures ParseBody(name, s, a) != Email(args, Handed(email, t == ""), a + |line| + |email| + 4)
  {
    var c := a + |line| + 2;
    if FromWord(email, 0) {
      BodyWord(s, a, line, email, t, 0);
      EarlyFromLine(name, s, a, c - 1);
    } else if i :| 0 <= i < |email| && email[i] == '\n' && FromWord(email, i + 1) {
      BodyWord(s, a, line, email, t, i + 1);
      EarlyFromLine(name, s, a, c + i);
    } else {
      BadStart(name, s, a, args, line, email, t);
    }
  }

  lemma BadStart(name: string, s: string, a: nat, args: seq<string>, line: string, email: string, t: string)
    requires Layout(s, a, line, email, t) && IsFold(s[a + |line| + 2]) && Handed(email, t == "") != ""
    requires '\n' !in name && IsHeader(name, args, line) && '\n' !in line
    ensures ParseBody(name, s, a) != Email(args, Handed(email, t == ""), a + |line| + |email| + 4)
  {
    hide ParseBody, TakeArgs, Skip, PrintArgs;
    CutAfterLine(s, a, line, email, t);
    var text := s[a..BodyEnd(s, a)];
    BadHeader(name, text, |line|);
    OtherText(name, s, a, args, Handed(email, t == ""), a + |line| + |email| + 4);
  }

  lemma OtherText(name: string, s: string, a: nat, args: seq<string>, body: string, next: nat)
    requires a < |s| && '\n' !in name
    requires var h := TakeArgs(name, s[a..BodyEnd(s, a)]); h == Loops || h.text != body
    ensures ParseBody(name, s, a) != Email(args, body, next)
  {
  }

  lemma CutAfterLine(s: string, a: nat, line: string, email: string, t: string)
    requires Layout(s, a, line, email, t) && '\n' !in line && IsFold(s[a + |line| + 2])
    ensures var text := s[a..BodyEnd(s, a)];
            && |text| > |line| && (forall k :: 0 <= k < |line| ==> text[k] == line[k]) && text[|line|] == '\r'
            && (|line| + 1 < |text| ==> text[|line| + 1] == '\n')
            && (|line| + 2 < |text| ==> text[|line| + 2] == s[a + |line| + 2])
            && (IsBlank(s[a + |line| + 2]) ==> |line| + 2 < |text|)
  {
    var c := a + |line| + 2;
    assert FindFrom(s, a) >= c;
  }

  /** After the header line a blank is fatal, and newlines are all skipped. */
  lemma BadHeader(name: string, text: string, k: nat)
    requires '\n' !in name && TextAt(text, name, 0) && k < |text|
    requires forall i :: 0 <= i < k + 1 ==> NotLineFeed(text[i])
    requires k + 1 < |text| ==> text[k + 1] == '\n'
    ensures k + 2 < |text| && IsBlank(text[k + 2]) ==> TakeArgs(name, text) == Loops
    ensures TakeArgs(name, text).Header? ==> TakeArgs(name, text).text == "" || !IsNewline(TakeArgs(name, text).text[0])
  {
    SkipIs(text, 0, NotLineFeed, k + 1);
    TakeArgsAt(name, text, k + 1, Skip(text, k + 1, IsNewline));
  }

  ghost predicate IsRecord(r: string, head: string, line: string, email: string, t: string) {
    r == head + CRLF + line + CRLF + email + CRLF + t
  }

  lemma LayoutShift(s: string, at: nat, head: string, line: string, email: string, t: string)
    requires at <= |s| && IsRecord(s[at..], head, line, email, t)
    ensures Layout(s, at + |head| + 2, line, email, t)
    ensures s[at..at + |head|] == head && s[at + |head|] == '\r' && s[at + |head| + 1] == '\n'
  {
    var r := s[at..];
    assert forall k {:trigger s[k]} :: at <= k < |s| ==> s[k] == r[k - at];
    assert s[at..at + |head|] == r[..|head|];
  }

  /** The date line is skipped. */
  lemma HeadSkipped(name: string, s: string, at: nat, head: string, a: nat)
    requires '\n' !in name && a == at + |head| + 2 < |s| && |head| >= 5 && head[..5] == "From " && NoNewline(head)
    requires s[at..at + |head|] == head && s[a - 2] == '\r' && s[a - 1] == '\n' && !IsNewline(s[a])
    ensures ParseFrom(name, s, at) == ParseBody(name, s, a)
  {
    StartFound(s, at, head, a);
  }

  /** The reader hands over this text and stops exactly where the record stops. */
  ghost predicate BodyReadBack(name: string, s: string, a: nat, args: seq<string>, line: string,
                               email: string, t: string)
    requires a < |s| && '\n' !in name
  {
    Handed(email, t == "") != ""
    && ParseBody(name, s, a) == Email(args, Handed(email, t == ""), a + |line| + |email| + 4)
  }

  /** A single argument of white space only is lost, but the recipient found in the text may be that very string. */
  predicate FromRecipient(args: seq<string>, text: string) {
    |args| == 1 && AllSpace(args[0]) && FindTo(text, 0) == Some(args[0])
  }

  /** Arguments that the reader gives back with this text. */
  predicate Recovered(args: seq<string>, text: string) { GoodArgs(args) || FromRecipient(args, text) }

  lemma ReadFromIff(args: seq<string>, text: string, next: nat)
    ensures ScanArgs(ArgsText(args)).Some?
    ensures ReadFrom(args, text, next) == Email(args, text, next) <==> Recovered(args, text)
  {
    hide ScanArgs, ArgsText, FindTo, GoodArgs, AllSpace;
    PrintedStops(args);
    NoArgsScanned(args);
    if args != [] {
      ArgsReadBackExactly(args);
    } else {
      NoGoodArgs();
    }
  }

  lemma NoGoodArgs()
    ensures !GoodArgs([])
  {
  }

  lemma BodyReadBackIff(name: string, s: string, a: nat, args: seq<string>, line: string, email: string, t: string)
    requires Layout(s, a, line, email, t) && Follows(t)
    requires '\n' !in name && IsHeader(name, args, line) && '\n' !in line
    ensures BodyReadBack(name, s, a, args, line, email, t) <==>
              (GoodBody(email) && Recovered(args, Handed(email, t == "")))
  {
    hide Layout, Follows, IsHeader, ParseBody, ReadFrom, Recovered;
    if GoodBody(email) {
      GoodBodyRead(name, s, a, args, line, email, t);
      ReadFromIff(args, Handed(email, t == ""), a + |line| + |email| + 4);
    } else if Handed(email, t == "") != "" {
      BadBodyNotRead(name, s, a, args, line, email, t);
    }
  }

  predicate OneLine(args: seq<string>) { forall i :: 0 <= i < |args| ==> '\n' !in args[i] }

  /** The reader never returns an argument with a line feed: it cuts the header and the recipient there. */
  lemma ReadOneLine(name: string, s: string, a: nat)
    requires a < |s| && '\n' !in name
    ensures var r := ParseBody(name, s, a); r.Email? ==> OneLine(r.args)
  {
    hide BodyEnd, ScanArgs, FindText, FindTo;
    var text := s[a..BodyEnd(s, a)];
    match FindText(text, name, 0) {
      case None =>
      case Some(at) =>
        var e := Skip(text, at, NotLineFeed);
        NameHasNoLineFeed(name, text, at);
        HeaderOneLine(text, at + |name|, e);
    }
    var taken := TakeArgs(name, text);
    if taken.Header? && FindTo(taken.text, 0).Some? {
      RecipientOneLine(taken.text, 0);
    }
  }

  lemma HeaderOneLine(text: string, i: nat, e: nat)
    requires i <= e <= |text| && forall k :: i <= k < e ==> text[k] != '\n'
    ensures ScanArgs(text[i..e]).Some? ==> OneLine(ScanArgs(text[i..e]).value)
  {
    hide Scan;
    var t := text[i..e];
    assert '\n' !in t;
    ScanOneLine(t[Skip(t, 0, IsSpace)..], "", []);
  }

  lemma {:induction false} RecipientOneLine(s: string, h: nat)
    requires h <= |s| && FindTo(s, h).Some?
    ensures '\n' !in FindTo(s, h).value
    decreases |s| - h
  {
    if ToAt(s, h) {
      var start := Skip(s, h + 3, IsBlank);
      assert forall k :: start <= k < Skip(s, start, NotNewline) ==> NotNewline(s[k]);
    } else {
      RecipientOneLine(s, NextLine(s, h));
    }
  }

  lemma RecoveredOneLine(args: seq<string>, text: string)
    requires Recovered(args, text)
    ensures OneLine(args)
  {
    if !GoodArgs(args) {
      RecipientOneLine(text, 0);
    }
  }

  lemma LineOneLine(name: string, args: seq<string>, line: string)
    requires '\n' !in name && OneLine(args) && IsHeader(name, args, line)
    ensures '\n' !in line
  {
    PrintOneLine(args);
  }

  ghost predicate RecordReadBackAt(name: string, s: string, at: nat, args: seq<string>, email: string,
                                   last: bool, size: nat)
    requires at <= |s| && '\n' !in name
  {
    Handed(email, last) != "" && ParseFrom(name, s, at) == Email(args, Handed(email, last), at + size)
  }

  lemma LayoutReadBack(name: string, s: string, at: nat, head: string, args: seq<string>, line: string,
                       email: string, t: string)
    requires at <= |s| && Layout(s, at + |head| + 2, line, email, t) && Follows(t)
    requires s[at..at + |head|] == head && s[at + |head|] == '\r' && s[at + |head| + 1] == '\n'
    requires |head| >= 5 && head[..5] == "From " && NoNewline(head)
    requires name != "" && NoNewline(name) && '\n' !in name && IsHeader(name, args, line)
    ensures RecordReadBackAt(name, s, at, args, email, t == "", |head| + |line| + |email| + 6)
            == BodyReadBack(name, s, at + |head| + 2, args, line, email, t)
  {
    hide Layout, ParseBody, ParseFrom, IsHeader, NoNewline, Follows;
    LineStarts(name, s, at + |head| + 2, args, line, email, t);
    HeadSkipped(name, s, at, head, at + |head| + 2);
  }

  /** The same for a whole record, whatever the names on its first two lines. */
  lemma AnyRecordReadBack(name: string, s: string, at: nat, head: string, args: seq<string>, line: string,
                          email: string, t: string)
    requires at <= |s| && Layout(s, at + |head| + 2, line, email, t) && Follows(t)
    requires s[at..at + |head|] == head && s[at + |head|] == '\r' && s[at + |head| + 1] == '\n'
    requires |head| >= 5 && head[..5] == "From " && NoNewline(head)
    requires name != "" && NoNewline(name) && '\n' !in name && IsHeader(name, args, line)
    ensures RecordReadBackAt(name, s, at, args, email, t == "", |head| + |line| + |email| + 6)
            == (GoodBody(email) && Recovered(args, Handed(email, t == "")))
  {
    hide *;
    LayoutReadBack(name, s, at, head, args, line, email, t);
    LineStarts(name, s, at + |head| + 2, args, line, email, t);
    if OneLine(args) {
      LineOneLine(name, args, line);
      BodyReadBackIff(name, s, at + |head| + 2, args, line, email, t);
    } else {
      ReadOneLine(name, s, at + |head| + 2);
      NotReadBack(name, s, at + |head| + 2, args, line, email, t);
      if Recovered(args, Handed(email, t == "")) {
        RecoveredOneLine(args, Handed(email, t == ""));
      }
    }
  }

  lemma NotReadBack(name: string, s: string, a: nat, args: seq<string>, line: string, email: string, t: string)
    requires a < |s| && '\n' !in name && !OneLine(args)
    requires var r := ParseBody(name, s, a); r.Email? ==> OneLine(r.args)
    ensures !BodyReadBack(name, s, a, args, line, email, t)
  {
    hide ParseBody, OneLine;
  }

  lemma LineStarts(name: string, s: string, a: nat, args: seq<string>, line: string, email: string, t: string)
    requires Layout(s, a, line, email, t) && name != "" && NoNewline(name) && IsHeader(name, args, line)
    ensures a < |s| && !IsNewline(s[a])
  {
    assert s[a] == line[0] == name[0];
  }

  lemma PrefixOf(x: string, y: string, z: string)
    ensures (x + y + z)[..|x|] == x
  {
  }

  lemma HeadFacts(date: string)
    requires GoodDate(date)
    ensures var head := SENDER + date; |head| >= 5 && head[..5] == "From " && NoNewline(head)
  {
    var tool := "SNAP_WEBSITES_SENDMAIL_TOOL@localhost  ";
    assert NoNewline("From ") && NoNewline(tool);
    PrefixOf("From ", tool, date);
  }

  lemma NameFacts(args: seq<string>)
    ensures ARGS_NAME != "" && NoNewline(ARGS_NAME) && '\n' !in ARGS_NAME && IsHeader(ARGS_NAME, args, ArgsLine(args))
  {
  }

  /** The reader at position `at` hands over the queued email and stops exactly where the record stops. */
  ghost predicate ReadBack(s: string, at: nat, e: Entry, t: string)
    requires at <= |s|
  {
    && Handed(e.email, t == "") != ""
    && ParseNext(s, at) == Email(e.args, Handed(e.email, t == ""), at + |Encode(e)|)
  }

  lemma EncodeIsRecord(e: Entry, t: string)
    ensures IsRecord(Encode(e) + t, SENDER + e.date, ArgsLine(e.args), e.email, t)
    ensures |Encode(e)| == |SENDER + e.date| + |ArgsLine(e.args)| + |e.email| + 6
  {
  }

  /** A record is read back if and only if its text starts with neither a newline nor a blank and has no
      "from " line, and its arguments are good or found in the text; the last record of the file gains one line end. */
  lemma RecordReadBack(s: string, at: nat, e: Entry, t: string)
    requires at <= |s| && s[at..] == Encode(e) + t && GoodDate(e.date) && Follows(t)
    ensures ReadBack(s, at, e, t) <==> GoodBody(e.email) && Recovered(e.args, Handed(e.email, t == ""))
  {
    hide Layout, ParseFrom, Recovered, GoodBody, GoodDate, Follows, NoNewline, ArgsLine, IsHeader, IsRecord, Encode;
    HeadFacts(e.date);
    NameFacts(e.args);
    EncodeIsRecord(e, t);
    LayoutShift(s, at, SENDER + e.date, ArgsLine(e.args), e.email, t);
    AnyRecordReadBack(ARGS_NAME, s, at, SENDER + e.date, e.args, ArgsLine(e.args), e.email, t);
  }
}
