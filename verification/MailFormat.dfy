/** The fallback mail file: how one email is written, and how the next one is read. */
module MailFormat {
  import opened Sequences
  import opened Text

  const SENDER := "From " + "SNAP_WEBSITES_SENDMAIL_TOOL@localhost  "
  const ARGS_NAME := "X-Snap-Sendmail-Args:"
  const CRLF := "\r\n"

  // ---- printer ----

  /** One queued email: the date line, the arguments after the program name, and the text. */
  datatype Entry = Entry(date: string, args: seq<string>, email: string)

  function EscapeCommas(a: string): string {
    if a == "" then "" else (if a[0] == ',' then "\\," else [a[0]]) + EscapeCommas(a[1..])
  }

  function PrintArgs(args: seq<string>): string {
    if args == [] then ""
    else if |args| == 1 then EscapeCommas(args[0])
    else EscapeCommas(args[0]) + "," + PrintArgs(args[1..])
  }

  function ArgsLine(args: seq<string>): string { ARGS_NAME + " " + PrintArgs(args) }

  function Encode(e: Entry): string {
    SENDER + e.date + CRLF + ArgsLine(e.args) + CRLF + e.email + CRLF
  }

  function EncodeAll(queue: seq<Entry>): string {
    if queue == [] then "" else Encode(queue[0]) + EncodeAll(queue[1..])
  }

  // ---- parser ----

  /** "from " in any case at position i. */
  predicate FromWord(s: string, i: nat) {
    && i + 5 <= |s|
    && (s[i] == 'F' || s[i] == 'f')
    && (s[i + 1] == 'R' || s[i + 1] == 'r')
    && (s[i + 2] == 'O' || s[i + 2] == 'o')
    && (s[i + 3] == 'M' || s[i + 3] == 'm')
    && s[i + 4] == ' '
  }

  /** The line feed before the next "from " line that is followed by something, or the end of the file. */
  function FindFrom(s: string, i: nat): (r: nat)
    requires i <= |s|
    ensures i <= r <= |s|
    ensures r < |s| ==> r + 6 < |s| && s[r] == '\n' && FromWord(s, r + 1)
    ensures forall k :: i <= k < r && k + 6 < |s| ==> !(s[k] == '\n' && FromWord(s, k + 1))
    decreases |s| - i
  {
    if i + 6 >= |s| then |s|
    else if s[i] == '\n' && FromWord(s, i + 1) then i
    else FindFrom(s, i + 1)
  }

  /** Where the current email stops: a carriage return before that point is not part of it. */
  function BodyEnd(s: string, start: nat): (r: nat)
    requires start <= |s|
    ensures start <= r <= |s|
  {
    var n := FindFrom(s, start);
    if n > start && s[n - 1] == '\r' then n - 1 else n
  }

  predicate TextAt(s: string, text: string, i: nat) { i + |text| <= |s| && s[i..i + |text|] == text }

  function FindText(s: string, text: string, i: nat): (r: Option<nat>)
    requires i <= |s|
    ensures r.Some? ==> i <= r.value && TextAt(s, text, r.value)
    decreases |s| - i
  {
    if TextAt(s, text, i) then Some(i) else if i == |s| then None else FindText(s, text, i + 1)
  }

  /** Reads arguments from t; `arg` is the one being read. None: the reader never stops. */
  function Scan(t: string, arg: string, args: seq<string>): Option<seq<string>>
    decreases |t|
  {
    if t == "" then Some(if arg == "" then args else args + [arg])
    else if IsNewline(t[0]) then Scan(t[Skip(t, 1, IsFold)..], arg, args)
    else if t[0] == ',' then Scan(t[1..], "", args + [arg])
    else if t[0] == '\\' then
      if |t| > 1 then Scan(t[2..], arg + [t[1]], args) else None
    else Scan(t[1..], arg + [t[0]], args)
  }

  function ScanArgs(t: string): Option<seq<string>> { Scan(t[Skip(t, 0, IsSpace)..], "", []) }

  /** The email without its argument header. Loops: the search for the end of the header never stops. */
  datatype Header = Loops | Header(args: seq<string>, text: string)

  function TakeArgs(name: string, text: string): Header
    requires '\n' !in name
  {
    match FindText(text, name, 0)
    case None => Header([], text)
    case Some(a) =>
      var e := Skip(text, a, NotLineFeed);
      if e + 1 < |text| && IsBlank(text[e + 1]) then Loops
      else
        NameHasNoLineFeed(name, text, a);
        match ScanArgs(text[a + |name|..e])
        case None => Loops
        case Some(args) => Header(args, text[..a] + text[Skip(text, e, IsNewline)..])
  }

  lemma NameHasNoLineFeed(name: string, text: string, a: nat)
    requires TextAt(text, name, a) && '\n' !in name
    ensures a + |name| <= Skip(text, a, NotLineFeed)
  {
    forall k | a <= k < a + |name|
      ensures text[k] != '\n'
    {
      assert text[k] == text[a..a + |name|][k - a];
    }
  }

  predicate ToAt(s: string, h: nat) {
    h + 3 <= |s| && (s[h] == 'T' || s[h] == 't') && (s[h + 1] == 'O' || s[h + 1] == 'o') && s[h + 2] == ':'
  }

  function NextLine(s: string, h: nat): (r: nat)
    requires h < |s|
    ensures h < r <= |s|
  {
    Skip(s, Skip(s, h, NotNewline), IsNewline)
  }

  /** The address of the first line that starts with "To:". */
  function FindTo(s: string, h: nat): Option<string>
    requires h <= |s|
    decreases |s| - h
  {
    if h + 3 >= |s| then None
    else if ToAt(s, h) then
      var start := Skip(s, h + 3, IsBlank);
      Some(s[start..Skip(s, start, NotNewline)])
    else FindTo(s, NextLine(s, h))
  }

  datatype Parsed =
    | EndOfFile
    | BadFormat                                          // no "From " line
    | NoBody                                             // nothing after the "From " line
    | NoArgs
    | Spins                                              // the reader never returns
    | Email(args: seq<string>, text: string, next: nat)  // next: where the reader stops

  /** The record whose text starts at `start`; `name` is the name of the argument header. */
  function ParseBody(name: string, s: string, start: nat): (r: Parsed)
    requires start < |s| && '\n' !in name
    ensures r.Email? ==> start <= r.next <= |s|
  {
    var n := BodyEnd(s, start);
    match TakeArgs(name, s[start..n])
    case Loops => Spins
    case Header(args, text) =>
      if args != [] then Email(args, text, Skip(s, n, IsNewline))
      else
        match FindTo(text, 0)
        case None => NoArgs
        case Some(to) => Email([to], text, Skip(s, n, IsNewline))
  }

  /** Skips the "From " line at position `at`, then reads the record. */
  function ParseFrom(name: string, s: string, at: nat): (r: Parsed)
    requires at <= |s| && '\n' !in name
    ensures r.Email? ==> at < r.next <= |s|
  {
    if at == |s| then EndOfFile
    else if at + 5 > |s| || s[at..at + 5] != "From " then BadFormat
    else
      var start := NextLine(s, at);
      if start == |s| then NoBody else ParseBody(name, s, start)
  }

  /** get_next_email() when the reader is at position `at` of the file. */
  function ParseNext(s: string, at: nat): (r: Parsed)
    requires at <= |s|
    ensures r.Email? ==> at < r.next <= |s|
  {
    ParseFrom(ARGS_NAME, s, at)
  }

  // ---- domain ----

  predicate CleanArg(a: string) {
    forall i :: 0 <= i < |a| ==> a[i] != '\\' && !IsNewline(a[i])
  }

  /** Argument lists the header can carry. */
  predicate GoodArgs(args: seq<string>) {
    && args != []
    && (forall i :: 0 <= i < |args| ==> CleanArg(args[i]))
    && args[|args| - 1] != ""
    && (args[0] != "" ==> !IsSpace(args[0][0]))
  }

  /** Texts the file can carry: a start that is neither newline nor blank, and no "from " line. */
  predicate GoodBody(email: string) {
    && email != "" && !IsNewline(email[0]) && !IsBlank(email[0])
    && !FromWord(email, 0)
    && (forall i :: 0 <= i < |email| && email[i] == '\n' ==> !FromWord(email, i + 1))
  }

  predicate GoodDate(date: string) { '\r' !in date && '\n' !in date }

  predicate Good(e: Entry) { GoodDate(e.date) && GoodArgs(e.args) && GoodBody(e.email) }

  // ---- arguments ----

  lemma ScanEscape(c: char, more: string, arg: string, args: seq<string>)
    ensures Scan("\\" + [c] + more, arg, args) == Scan(more, arg + [c], args)
  {
    var t := "\\" + [c] + more;
    assert t[2..] == more;
  }

  lemma ScanPlain(c: char, more: string, arg: string, args: seq<string>)
    requires c != ',' && c != '\\' && !IsNewline(c)
    ensures Scan([c] + more, arg, args) == Scan(more, arg + [c], args)
  {
    assert ([c] + more)[1..] == more;
  }

  lemma {:induction false} ScanEscaped(a: string, rest: string, arg: string, args: seq<string>)
    requires CleanArg(a)
    ensures Scan(EscapeCommas(a) + rest, arg, args) == Scan(rest, arg + a, args)
  {
    hide Scan, IsNewline;
    if a == "" {
      assert EscapeCommas(a) + rest == rest && arg + a == arg;
    } else {
      var more := EscapeCommas(a[1..]) + rest;
      ScanEscaped(a[1..], rest, arg + [a[0]], args);
      assert arg + [a[0]] + a[1..] == arg + a;
      if a[0] == ',' {
        assert EscapeCommas(a) + rest == "\\" + [','] + more;
        ScanEscape(',', more, arg, args);
      } else {
        assert EscapeCommas(a) + rest == [a[0]] + more;
        ScanPlain(a[0], more, arg, args);
      }
    }
  }

  lemma ScanComma(more: string, arg: string, args: seq<string>)
    ensures Scan("," + more, arg, args) == Scan(more, "", args + [arg])
  {
    assert ("," + more)[1..] == more;
  }

  lemma ScanEnd(arg: string, args: seq<string>)
    ensures Scan("\r", arg, args) == Scan("", arg, args)
  {
    assert "\r"[Skip("\r", 1, IsFold)..] == "";
  }

  lemma ScanNothing(arg: string, args: seq<string>)
    ensures Scan("", arg, args) == Some(if arg == "" then args else args + [arg])
  {
  }

  lemma {:induction false} ScanPrinted(list: seq<string>, args: seq<string>)
    requires list != [] && list[|list| - 1] != "" && forall i :: 0 <= i < |list| ==> CleanArg(list[i])
    ensures Scan(PrintArgs(list) + "\r", "", args) == Some(args + list)
  {
    hide Scan, CleanArg, EscapeCommas;
    assert "" + list[0] == list[0];
    if |list| == 1 {
      ScanEscaped(list[0], "\r", "", args);
      ScanEnd(list[0], args);
      ScanNothing(list[0], args);
      assert list == [list[0]];
    } else {
      var more := PrintArgs(list[1..]) + "\r";
      ScanEscaped(list[0], "," + more, "", args);
      assert PrintArgs(list) + "\r" == EscapeCommas(list[0]) + ("," + more);
      ScanComma(more, list[0], args);
      ScanPrinted(list[1..], args + [list[0]]);
      assert args + [list[0]] + list[1..] == args + list;
    }
  }

  /** The argument header is read back as it was written. */
  lemma ArgsRoundTrip(args: seq<string>)
    requires GoodArgs(args)
    ensures ScanArgs(" " + PrintArgs(args) + "\r") == Some(args)
  {
    var t := " " + PrintArgs(args) + "\r";
    assert t[1..] == PrintArgs(args) + "\r";
    assert Skip(t, 1, IsSpace) == 1;
    assert Skip(t, 0, IsSpace) == 1;
    ScanPrinted(args, []);
    assert [] + args == args;
  }

  // ---- one record ----
}
