/** The sendmail tool: reading, queueing and draining emails, with the file mapped as an array. */
module Sendmail {
  import opened Sequences
  import opened Text
  import opened MailFormat
  import opened MailRoundTrip
  import opened MailQueue
  import opened MailInput

  /** The mail file while it is being drained. */
  class Emails {
    const data: array<char>
    var ptr: nat
    var lastValid: nat
    var args: seq<string>

    ghost predicate Valid()
      reads this
    {
      lastValid <= data.Length && ptr <= data.Length
    }

    constructor (file: string)
      ensures Valid() && fresh(data) && data[..] == file && ptr == 0 && lastValid == 0
    {
      data := new char[|file|](i requires 0 <= i < |file| => file[i]);
      ptr, lastValid, args := 0, 0, [];
    }

    method SkipWhile(i: nat, p: char -> bool) returns (r: nat)
      requires i <= data.Length
      ensures r == Skip(data[..], i, p)
    {
      r := i;
      while r < data.Length && p(data[r])
        invariant i <= r <= data.Length
        invariant Skip(data[..], i, p) == Skip(data[..], r, p)
      {
        r := r + 1;
      }
    }

    /** The next "From " in any case at the start of a line, or the end of the file. */
    method FindSeparator(start: nat) returns (n: nat)
      requires start <= data.Length
      ensures n == FindFrom(data[..], start)
    {
      n := start;
      while n + 6 < data.Length
        invariant start <= n <= data.Length
        invariant FindFrom(data[..], start) == FindFrom(data[..], n)
        decreases data.Length - n
      {
        if data[n] == '\n'
           && (data[n + 1] == 'F' || data[n + 1] == 'f')
           && (data[n + 2] == 'R' || data[n + 2] == 'r')
           && (data[n + 3] == 'O' || data[n + 3] == 'o')
           && (data[n + 4] == 'M' || data[n + 4] == 'm')
           && data[n + 5] == ' '
        {
          return;
        }
        n := n + 1;
      }
      n := data.Length;
    }

    method GetNextEmail() returns (text: string, hung: bool)
      requires Valid()
      modifies this`ptr, this`args
      ensures Valid()
      ensures match ParseNext(data[..], old(ptr))
              case Email(found, body, next) => !hung && text == body && args == found && ptr == next
              case Spins => hung
              case EndOfFile => !hung && text == ""
              case BadFormat => !hung && text == ""
              case NoBody => !hung && text == ""
              case NoArgs => !hung && text == ""
    {
      hide ParseBody;
      text, hung := "", false;
      if ptr >= data.Length {
        return;
      }
      if ptr + 5 > data.Length || data[ptr..ptr + 5] != "From " {
        assert data[..][ptr..] == data[ptr..];
        return;
      }
      assert data[..][ptr..ptr + 5] == data[ptr..ptr + 5];
      ghost var at := ptr;
      var start := SkipWhile(ptr, NotNewline);
      start := SkipWhile(start, IsNewline);
      assert start == NextLine(data[..], at);
      ptr := start;
      if start >= data.Length {
        return;
      }
      text, hung := GetBody(start);
    }

    /** The record whose first line ends before `start`. */
    method GetBody(start: nat) returns (text: string, hung: bool)
      requires Valid() && start < data.Length && '\n' !in ARGS_NAME
      modifies this`ptr, this`args
      ensures Valid()
      ensures match ParseBody(ARGS_NAME, data[..], start)
              case Email(found, body, next) => !hung && text == body && args == found && ptr == next
              case Spins => hung
              case EndOfFile => !hung && text == ""
              case BadFormat => !hung && text == ""
              case NoBody => !hung && text == ""
              case NoArgs => !hung && text == ""
    {
      hide TakeArgs, FindTo, FindFrom, Skip;
      var n := FindSeparator(start);
      if n > start && data[n - 1] == '\r' {
        n := n - 1;
      }
      assert n == BodyEnd(data[..], start);
      assert data[..][start..n] == data[start..n];
      text, hung := ReadRecord(data[start..n]);
      if hung {
        return;
      }
      if args == [] {
        text := "";
        return;
      }
      ptr := SkipWhile(n, IsNewline);
    }

    /** The arguments, from their header or else from the first "To:" line, and the text without that header. */
    method ReadRecord(record: string) returns (text: string, hung: bool)
      modifies this`args
      ensures match TakeArgs(ARGS_NAME, record)
              case Loops => hung
              case Header(found, body) =>
                !hung && text == body
                && args == (if found != [] then found
                            else if FindTo(body, 0).Some? then [FindTo(body, 0).value]
                            else [])
    {
      text, hung := "", true;
      var header := TakeHeader(record);
      if header.Loops? {
        return;
      }
      args := header.args;
      text := header.text;
      hung := false;
      if args == [] {
        var to := FindRecipient(text);
        if to.Some? {
          args := [to.value];
        }
      }
    }

    static method TakeHeader(text: string) returns (h: Header)
      ensures h == TakeArgs(ARGS_NAME, text)
    {
      hide ScanArgs, FindText, Skip;
      var at := FindText(text, ARGS_NAME, 0);
      if at.None? {
        return Header([], text);
      }
      var end := SkipText(text, at.value, NotLineFeed);
      if end + 1 < |text| && IsBlank(text[end + 1]) {
        // the next search starts on this same line feed, and finds it again and again
        return Loops;
      }
      NameHasNoLineFeed(ARGS_NAME, text, at.value);
      var list := ScanArguments(text[at.value + |ARGS_NAME|..end]);
      if list.None? {
        return Loops;
      }
      var body := SkipText(text, end, IsNewline);
      h := Header(list.value, text[..at.value] + text[body..]);
    }

    static method SkipText(s: string, i: nat, p: char -> bool) returns (r: nat)
      requires i <= |s|
      ensures r == Skip(s, i, p)
    {
      r := i;
      while r < |s| && p(s[r])
        invariant i <= r <= |s| && Skip(s, i, p) == Skip(s, r, p)
      {
        r := r + 1;
      }
    }

    /** None: the loop would stay for ever on a final backslash. */
    static method ScanArguments(t: string) returns (r: Option<seq<string>>)
      ensures r == ScanArgs(t)
    {
      var a := SkipText(t, 0, IsSpace);
      var arg: string := "";
      var list: seq<string> := [];
      while a < |t|
        invariant a <= |t| && Scan(t[a..], arg, list) == ScanArgs(t)
        decreases |t| - a
      {
        if IsNewline(t[a]) {
          a := SkipText(t, a + 1, IsFold);
        } else if t[a] == ',' {
          assert t[a..][1..] == t[a + 1..];
          list := list + [arg];
          arg := "";
          a := a + 1;
        } else if t[a] == '\\' {
          if a + 1 < |t| {
            assert t[a..][2..] == t[a + 2..];
            arg := arg + [t[a + 1]];
            a := a + 2;
          } else {
            return None;
          }
        } else {
          assert t[a..][1..] == t[a + 1..];
          arg := arg + [t[a]];
          a := a + 1;
        }
      }
      if arg != "" {
        list := list + [arg];
      }
      r := Some(list);
    }

    static method FindRecipient(s: string) returns (to: Option<string>)
      ensures to == FindTo(s, 0)
    {
      var h := 0;
      while h + 3 < |s|
        invariant h <= |s| && FindTo(s, h) == FindTo(s, 0)
        decreases |s| - h
      {
        if (s[h] == 'T' || s[h] == 't') && (s[h + 1] == 'O' || s[h + 1] == 'o') && s[h + 2] == ':' {
          var start := SkipText(s, h + 3, IsBlank);
          var end := SkipText(s, start, NotNewline);
          return Some(s[start..end]);
        }
        ghost var line := h;
        var e := SkipText(s, h, NotNewline);
        h := SkipText(s, e, IsNewline);
        assert h == NextLine(s, line);
      }
      to := None;
    }

    method EmailSent()
      requires Valid()
      modifies this`lastValid
      ensures Valid() && lastValid == ptr
    {
      lastValid := ptr;
    }

    /** The destructor: what was not sent moves to the front of the file, which is cut or removed. */
    method Close() returns (file: Option<string>)
      requires Valid()
      modifies data
      ensures file == Remaining(old(data[..]), lastValid)
    {
      var size := data.Length - lastValid;
      if size > 0 && lastValid > 0 {
        MoveToFront(size);
      }
      if size > 0 {
        file := Some(data[..size]);
        assert data[..size] == old(data[..])[lastValid..];
      } else {
        file := None;
      }
    }

    method MoveToFront(size: nat)
      requires lastValid + size == data.Length
      modifies data
      ensures forall k :: 0 <= k < size ==> data[k] == old(data[lastValid + k])
    {
      for i := 0 to size
        invariant forall k :: 0 <= k < i ==> data[k] == old(data[lastValid + k])
        invariant forall k :: i <= k < data.Length ==> data[k] == old(data[k])
      {
        data[i] := data[lastValid + i];
      }
    }
  }

  class Tool {
    const args: seq<string>      // argv, the program name first
    var email: string
    var file: Option<string>

    constructor (args: seq<string>, file: Option<string>)
      ensures this.args == args && email == "" && this.file == file
    {
      this.args, this.email, this.file := args, "", file;
    }

    /** getchar() until the end of the input. */
    method ReadEmail(input: string) returns (ok: bool)
      requires email == ""
      modifies this`email
      ensures email == Normalise(input) && (ok <==> email != "")
    {
      var i := Emails.SkipText(input, 0, IsNewline);
      ghost var start := i;
      while i < |input|
        invariant start <= i <= |input| && email == LineEnds(input[start..i])
      {
        var c := input[i];
        LineEndsSnoc(input[start..i], c);
        assert input[start..i + 1] == input[start..i] + [c];
        if c != '\r' {
          if c == '\n' {
            email := email + ['\r'];
          }
          email := email + [c];
        }
        i := i + 1;
      }
      assert input[start..i] == input[start..];
      ok := email != "";
    }

    /** Append the email and its arguments to the file. */
    method EnqueueEmail(date: string)
      modifies this`file
      ensures file == Append(old(file), Entry(date, if |args| > 1 then args[1..] else [], email))
    {
      ghost var entry := Entry(date, if |args| > 1 then args[1..] else [], email);
      var m := SENDER + date + CRLF;
      var list := "";
      if |args| > 1 {
        list := EscapeCommas(args[1]);
        if |args| > 2 {
          for k := 2 to |args|
            invariant list == PrintArgs(args[1..k]) && file == old(file)
          {
            list := list + "," + EscapeCommas(args[k]);
            assert args[1..k + 1] == args[1..k] + [args[k]];
            PrintArgsSnoc(args[1..k], args[k]);
          }
          assert args[1..|args|] == args[1..];
        }
      }
      m := m + (ARGS_NAME + " " + list) + CRLF;
      m := m + email;
      m := m + CRLF;
      assert m == Encode(entry);
      var before := if file.Some? then file.value else "";
      file := Some(before + m);
      assert before + m == before + Encode(entry);
    }

    /** Hand the queued emails to the transport until one is refused; accepts(n) is its n-th answer. */
    method DequeueEmails(accepts: nat -> bool) returns (sent: seq<Attempt>, code: int, hung: bool)
      modifies this`email, this`file
      ensures file == if old(file).None? || old(file).value == "" then old(file)
                      else
                        var d := Drain(old(file).value, 0, accepts, 0);
                        if d.outcome == Hung then old(file) else Remaining(old(file).value, d.keep)
      ensures old(file).Some? && old(file).value != "" ==>
                var d := Drain(old(file).value, 0, accepts, 0);
                && hung == (d.outcome == Hung)
                && (!hung ==> sent == d.sent && code == if d.outcome == Refused then 1 else 0)
      ensures old(file).None? || old(file).value == "" ==>
                sent == [] && !hung && code == if old(file).None? then 0 else 1
    {
      hide ParseNext;
      sent, code, hung := [], 0, false;
      if file.None? {
        return;
      }
      if file.value == "" {
        code := 1;
        return;
      }
      ghost var s := file.value;
      var e := new Emails(file.value);
      while true
        invariant e.Valid() && e.data[..] == s && e.ptr == e.lastValid && fresh(e) && fresh(e.data)
        invariant file == old(file) && code == 0
        invariant var d := Drain(s, e.ptr, accepts, |sent|);
                  Drain(s, 0, accepts, 0) == Drained(sent + d.sent, d.keep, d.outcome)
        decreases |s| - e.ptr
      {
        ghost var parsed := ParseNext(s, e.ptr);
        ghost var rest := Drain(s, e.ptr, accepts, |sent|);
        email, hung := e.GetNextEmail();
        if hung {
          return;
        }
        if email == "" {
          assert rest == Drained([], e.lastValid, Finished);
          break;
        }
        if !accepts(|sent|) {
          assert rest == Drained([], e.lastValid, Refused);
          code := 1;
          break;
        }
        assert sent + rest.sent == sent + [Attempt(e.args, email)] + Drain(s, e.ptr, accepts, |sent| + 1).sent;
        sent := sent + [Attempt(e.args, email)];
        e.EmailSent();
      }
      assert sent + [] == sent;
      file := e.Close();
    }
  }

  lemma {:induction false} PrintArgsSnoc(list: seq<string>, a: string)
    requires list != []
    ensures PrintArgs(list + [a]) == PrintArgs(list) + "," + EscapeCommas(a)
  {
    if |list| == 1 {
      assert (list + [a])[1..] == [a];
    } else {
      PrintArgsSnoc(list[1..], a);
      assert (list + [a])[1..] == list[1..] + [a];
    }
  }
}
