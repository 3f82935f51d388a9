/** The recipient that is searched in the text of an email without arguments. */
module MailRecipient {
  import opened Sequences
  import opened Text
  import opened MailFormat

  /** A line starts at h. */
  predicate LineStart(s: string, h: nat)
    requires h <= |s|
  {
    h == 0 || IsNewline(s[h - 1])
  }

  /** A line with a recipient starts at h, and its colon does not end the text. */
  predicate RecipientLine(s: string, h: nat) {
    && h + 3 < |s| && LineStart(s, h)
    && (s[h] == 'T' || s[h] == 't') && (s[h + 1] == 'O' || s[h + 1] == 'o') && s[h + 2] == ':'
  }

  /** After the colon of the line at h come blanks up to `start`, and then `to`, up to the end of the line. */
  predicate Holds(s: string, h: nat, start: nat, to: string) {
    && h + 3 <= start && start + |to| <= |s| && s[start..start + |to|] == to
    && (forall k :: h + 3 <= k < start ==> IsBlank(s[k]))
    && (start < |s| ==> !IsBlank(s[start]))
    && (forall k :: 0 <= k < |to| ==> !IsNewline(to[k]))
    && (start + |to| < |s| ==> IsNewline(s[start + |to|]))
  }

  ghost predicate RecipientAt(s: string, h: nat, to: string) { exists start: nat :: Holds(s, h, start, to) }

  /** From position `from` on, the line at h is the first one with a recipient. */
  predicate FirstLine(s: string, from: nat, h: nat) {
    from <= h && RecipientLine(s, h) && forall j :: from <= j < h ==> !RecipientLine(s, j)
  }

  lemma {:induction false} FindToFrom(s: string, h: nat) returns (k: nat)
    requires h <= |s| && (h < |s| ==> LineStart(s, h))
    ensures FindTo(s, h).None? ==> forall j :: h <= j < |s| ==> !RecipientLine(s, j)
    ensures FindTo(s, h).Some? ==> FirstLine(s, h, k) && RecipientAt(s, k, FindTo(s, h).value)
    decreases |s| - h
  {
    k := h;
    if h + 3 < |s| {
      if ToAt(s, h) {
        ToHere(s, h);
      } else {
        NotBetween(s, h);
        k := FindToFrom(s, NextLine(s, h));
      }
    }
  }

  lemma ToHere(s: string, h: nat)
    requires h + 3 < |s| && ToAt(s, h)
    ensures FindTo(s, h).Some? && RecipientAt(s, h, FindTo(s, h).value)
  {
    var start := Skip(s, h + 3, IsBlank);
    var end := Skip(s, start, NotNewline);
    var to := s[start..end];
    assert forall k :: 0 <= k < |to| ==> to[k] == s[start + k] && NotNewline(s[start + k]);
    assert Holds(s, h, start, to);
  }

  lemma NotBetween(s: string, h: nat)
    requires h < |s| && LineStart(s, h) && !ToAt(s, h)
    ensures h < NextLine(s, h) <= |s| && (NextLine(s, h) < |s| ==> LineStart(s, NextLine(s, h)))
    ensures forall k :: h <= k < NextLine(s, h) ==> !RecipientLine(s, k)
  {
    var end, next := Skip(s, h, NotNewline), NextLine(s, h);
    forall k | h <= k < next
      ensures !RecipientLine(s, k)
    {
      if h < k <= end {
        assert NotNewline(s[k - 1]);
      }
      if end <= k {
        assert IsNewline(s[k]);
      }
    }
  }

  lemma HoldsWhere(s: string, h: nat, start: nat, to: string)
    requires Holds(s, h, start, to)
    ensures h + 3 <= |s| && start == Skip(s, h + 3, IsBlank) && start + |to| == Skip(s, start, NotNewline)
  {
    SkipIs(s, h + 3, IsBlank, start);
    assert forall k :: 0 <= k < |to| ==> s[start + k] == to[k];
    assert forall k :: start <= k < start + |to| ==> s[k] == to[k - start];
    SkipIs(s, start, NotNewline, start + |to|);
  }

  lemma RecipientUnique(s: string, h: nat, a: string, b: string)
    requires RecipientAt(s, h, a) && RecipientAt(s, h, b)
    ensures a == b
  {
    var i: nat :| Holds(s, h, i, a);
    var j: nat :| Holds(s, h, j, b);
    HoldsWhere(s, h, i, a);
    HoldsWhere(s, h, j, b);
  }

  /** The recipient found is that of the first line that starts with "To:", in any case. */
  lemma RecipientIs(s: string, to: string)
    ensures FindTo(s, 0) == Some(to) <==> exists h :: FirstLine(s, 0, h) && RecipientAt(s, h, to)
  {
    hide FindTo, RecipientAt;
    var k := FindToFrom(s, 0);
    if h :| FirstLine(s, 0, h) && RecipientAt(s, h, to) {
      assert FindTo(s, 0).Some?;
      assert k == h;
      RecipientUnique(s, h, to, FindTo(s, 0).value);
    }
  }
}
