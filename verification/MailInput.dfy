/** The text read from the standard input, with every line ended by a carriage return and a line feed. */
module MailInput {
  import opened Text

  /** Carriage returns are dropped and one is put before every line feed. */
  function LineEnds(s: string): string {
    if s == "" then ""
    else (if s[0] == '\r' then "" else if s[0] == '\n' then "\r\n" else [s[0]]) + LineEnds(s[1..])
  }

  function Normalise(input: string): string {
    LineEnds(input[Skip(input, 0, IsNewline)..])
  }

  function WithoutReturns(s: string): string {
    if s == "" then "" else (if s[0] == '\r' then "" else [s[0]]) + WithoutReturns(s[1..])
  }

  /** A carriage return before every line feed and nowhere else. */
  predicate Crlf(s: string) {
    && (forall i :: 0 <= i < |s| && s[i] == '\n' ==> i > 0 && s[i - 1] == '\r')
    && (forall i :: 0 <= i < |s| && s[i] == '\r' ==> i + 1 < |s| && s[i + 1] == '\n')
  }

  lemma LineEndsSnoc(s: string, c: char)
    ensures LineEnds(s + [c]) == LineEnds(s) + (if c == '\r' then "" else if c == '\n' then "\r\n" else [c])
  {
    LineEndsConcat(s, [c]);
    assert [c][1..] == "";
  }

  lemma {:induction false} LineEndsConcat(a: string, b: string)
    ensures LineEnds(a + b) == LineEnds(a) + LineEnds(b)
  {
    if a == "" {
      assert a + b == b;
    } else {
      assert (a + b)[1..] == a[1..] + b;
      LineEndsConcat(a[1..], b);
    }
  }

  lemma {:induction false} LineEndsCrlf(s: string)
    ensures Crlf(LineEnds(s))
  {
    if s != "" {
      LineEndsCrlf(s[1..]);
      var first, rest := if s[0] == '\r' then "" else if s[0] == '\n' then "\r\n" else [s[0]], LineEnds(s[1..]);
      var r := first + rest;
      assert LineEnds(s) == r;
      forall i | 0 <= i < |r|
        ensures r[i] == '\n' ==> i > 0 && r[i - 1] == '\r'
        ensures r[i] == '\r' ==> i + 1 < |r| && r[i + 1] == '\n'
      {
        if i >= |first| {
          assert r[i] == rest[i - |first|];
        }
      }
    }
  }

  lemma {:induction false} LineEndsKeeps(s: string)
    ensures WithoutReturns(LineEnds(s)) == WithoutReturns(s)
  {
    if s != "" {
      LineEndsKeeps(s[1..]);
      var rest := LineEnds(s[1..]);
      if s[0] == '\n' {
        assert LineEnds(s) == "\r\n" + rest;
        assert ("\r\n" + rest)[1..] == "\n" + rest;
        assert ("\n" + rest)[1..] == rest;
      } else if s[0] == '\r' {
        assert LineEnds(s) == rest && WithoutReturns(s) == WithoutReturns(s[1..]);
      } else {
        assert ([s[0]] + rest)[1..] == rest;
      }
    }
  }

  /** Text that already has its carriage returns in place is left alone. */
  lemma {:induction false} LineEndsFixed(s: string)
    requires Crlf(s)
    ensures LineEnds(s) == s
  {
    if s != "" {
      if s[0] == '\r' {
        assert s[1] == '\n';
        var rest := s[2..];
        forall i | 0 <= i < |rest|
          ensures rest[i] == '\n' ==> i > 0 && rest[i - 1] == '\r'
          ensures rest[i] == '\r' ==> i + 1 < |rest| && rest[i + 1] == '\n'
        {
          assert rest[i] == s[i + 2];
        }
        LineEndsFixed(rest);
        assert s[1..][1..] == rest;
        assert s == "\r\n" + rest;
      } else {
        assert s[0] != '\n';
        var rest := s[1..];
        forall i | 0 <= i < |rest|
          ensures rest[i] == '\n' ==> i > 0 && rest[i - 1] == '\r'
          ensures rest[i] == '\r' ==> i + 1 < |rest| && rest[i + 1] == '\n'
        {
          assert rest[i] == s[i + 1];
        }
        LineEndsFixed(rest);
        assert s == [s[0]] + rest;
      }
    }
  }

  /** The output starts with no newline, has its carriage returns in place, loses nothing but carriage
      returns and leading newlines, and is a fixed point. */
  lemma NormaliseFacts(input: string)
    ensures var out := Normalise(input);
            && (out != "" ==> !IsNewline(out[0]))
            && Crlf(out)
            && WithoutReturns(out) == WithoutReturns(input[Skip(input, 0, IsNewline)..])
            && Normalise(out) == out
  {
    var rest := input[Skip(input, 0, IsNewline)..];
    var out := Normalise(input);
    LineEndsCrlf(rest);
    LineEndsKeeps(rest);
    if rest != "" {
      assert out[0] == rest[0];
    }
    assert out[Skip(out, 0, IsNewline)..] == out;
    LineEndsFixed(out);
  }
}
