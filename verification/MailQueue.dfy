/** The fallback mail file as a queue: what is appended comes out in order, and only when it was accepted. */
module MailQueue {
  import opened Sequences
  import opened Text
  import opened MailFormat
  import opened MailRoundTrip

  /** One call of the mail transport: its arguments and its input. */
  datatype Attempt = Attempt(args: seq<string>, text: string)

  datatype Outcome =
    | Finished   // no email left to read
    | Refused    // the transport refused an email
    | Hung       // the reader never returned

  /** `keep` is where the part of the file that stays starts. */
  datatype Drained = Drained(sent: seq<Attempt>, keep: nat, outcome: Outcome)

  /** dequeue() from position `at`; the transport's answer to the n-th attempt is accepts(n). */
  function Drain(s: string, at: nat, accepts: nat -> bool, n: nat): (d: Drained)
    requires at <= |s|
    ensures at <= d.keep <= |s|
    decreases |s| - at
  {
    match ParseNext(s, at)
    case Spins => Drained([], at, Hung)
    case Email(args, text, next) =>
      if text == "" then Drained([], at, Finished)
      else if !accepts(n) then Drained([], at, Refused)
      else
        var d := Drain(s, next, accepts, n + 1);
        Drained([Attempt(args, text)] + d.sent, d.keep, d.outcome)
    case EndOfFile => Drained([], at, Finished)
    case BadFormat => Drained([], at, Finished)
    case NoBody => Drained([], at, Finished)
    case NoArgs => Drained([], at, Finished)
  }

  /** The file that remains; None: it was removed. */
  function Remaining(s: string, keep: nat): Option<string>
    requires keep <= |s|
  {
    if keep == |s| then None else Some(s[keep..])
  }

  function FileOf(queue: seq<Entry>): Option<string> {
    if queue == [] then None else Some(EncodeAll(queue))
  }

  /** How many of `size` attempts are accepted before the first refusal. */
  function Accepted(accepts: nat -> bool, n: nat, size: nat): (j: nat)
    ensures j <= size
    ensures forall i: nat :: n <= i < n + j ==> accepts(i)
    ensures j < size ==> !accepts(n + j)
    decreases size
  {
    if size == 0 || !accepts(n) then 0 else Accepted(accepts, n + 1, size - 1) + 1
  }

  function HandedOver(queue: seq<Entry>, j: nat): (r: seq<Attempt>)
    requires j <= |queue|
  {
    if j == 0 then []
    else [Attempt(queue[0].args, Handed(queue[0].email, |queue| == 1))] + HandedOver(queue[1..], j - 1)
  }

  ghost predicate AllGood(queue: seq<Entry>) {
    forall i :: 0 <= i < |queue| ==> Good(queue[i])
  }

  lemma EncodeFollows(e: Entry, t: string)
    requires GoodDate(e.date)
    ensures Follows(Encode(e) + t) && Encode(e) + t != ""
  {
    hide Encode, GoodDate, NoNewline;
    var head := SENDER + e.date;
    HeadFacts(e.date);
    EncodeIsRecord(e, t);
  }

  lemma EncodeAllFollows(queue: seq<Entry>)
    requires AllGood(queue)
    ensures Follows(EncodeAll(queue)) && (EncodeAll(queue) == "" <==> queue == [])
  {
    hide Encode, Follows, GoodArgs, GoodBody, GoodDate;
    if queue != [] {
      EncodeFollows(queue[0], EncodeAll(queue[1..]));
    } else {
      NothingFollows();
    }
  }

  lemma NothingFollows()
    ensures Follows("")
  {
  }

  lemma DrainEnd(s: string, accepts: nat -> bool, n: nat)
    ensures Drain(s, |s|, accepts, n) == Drained([], |s|, Finished)
  {
  }

  lemma DrainStep(s: string, at: nat, accepts: nat -> bool, n: nat, args: seq<string>, text: string, next: nat)
    requires at <= |s| && ParseNext(s, at) == Email(args, text, next) && text != ""
    ensures at < next <= |s|
    ensures Drain(s, at, accepts, n) ==
            if !accepts(n) then Drained([], at, Refused)
            else
              var d := Drain(s, next, accepts, n + 1);
              Drained([Attempt(args, text)] + d.sent, d.keep, d.outcome)
  {
    hide ParseNext;
  }

  /** The first email of the file is handed over as it was queued. */
  lemma FirstDrained(s: string, at: nat, queue: seq<Entry>, accepts: nat -> bool, n: nat)
    requires at <= |s| && s[at..] == EncodeAll(queue) && AllGood(queue) && queue != []
    ensures var e, rest := queue[0], queue[1..];
            var next := at + |Encode(e)|;
            && at < next <= |s| && s[next..] == EncodeAll(rest)
            && Drain(s, at, accepts, n) ==
               if !accepts(n) then Drained([], at, Refused)
               else
                 var d := Drain(s, next, accepts, n + 1);
                 Drained([Attempt(e.args, Handed(e.email, rest == []))] + d.sent, d.keep, d.outcome)
  {
    hide Encode, ParseNext, GoodArgs, GoodBody, GoodDate, Follows, Handed, Drain;
    var e, rest := queue[0], queue[1..];
    EncodeAllFollows(rest);
    RecordReadBack(s, at, e, EncodeAll(rest));
    var next := at + |Encode(e)|;
    assert s[next..] == s[at..][|Encode(e)|..] == EncodeAll(rest);
    DrainStep(s, at, accepts, n, e.args, Handed(e.email, rest == []), next);
  }

  /** A queue is drained from the front, up to the first refusal; the rest stays as it was. */
  lemma {:induction false} QueueDrained(s: string, at: nat, queue: seq<Entry>, accepts: nat -> bool, n: nat)
    requires at <= |s| && s[at..] == EncodeAll(queue) && AllGood(queue)
    ensures var j := Accepted(accepts, n, |queue|);
            var d := Drain(s, at, accepts, n);
            && d.sent == HandedOver(queue, j)
            && d.outcome == (if j == |queue| then Finished else Refused)
            && s[d.keep..] == EncodeAll(queue[j..])
    decreases |queue|
  {
    hide Encode, Good, Handed, Drain;
    if queue == [] {
      DrainEnd(s, accepts, n);
      assert at == |s|;
    } else {
      FirstDrained(s, at, queue, accepts, n);
      if accepts(n) {
        var rest := queue[1..];
        QueueDrained(s, at + |Encode(queue[0])|, rest, accepts, n + 1);
        var j := Accepted(accepts, n + 1, |rest|);
        assert queue[j + 1..] == rest[j..];
      }
    }
  }

  // ---- files of another making ----

  predicate StartsRecord(s: string, at: nat) { at + 5 <= |s| && s[at..at + 5] == "From " }

  /** Where the reader gives up at once: at the end, before anything but "From ", and after a last line of that kind
      that is followed by no more than newlines. */
  lemma GivesUp(s: string, at: nat)
    requires at <= |s|
    ensures ParseNext(s, at) == EndOfFile <==> at == |s|
    ensures ParseNext(s, at) == BadFormat <==> at < |s| && !StartsRecord(s, at)
    ensures ParseNext(s, at) == NoBody <==>
              at < |s| && StartsRecord(s, at)
              && exists e: nat :: at <= e <= |s| && NoneOf(s, at, e, IsNewline) && NoneOf(s, e, |s|, NotNewline)
  {
    hide ParseBody;
    if at < |s| && StartsRecord(s, at) {
      LastLine(s, at);
      if NextLine(s, at) < |s| {
        BodyKinds(ARGS_NAME, s, NextLine(s, at));
      }
    }
  }

  lemma BodyKinds(name: string, s: string, start: nat)
    requires start < |s| && '\n' !in name
    ensures var r := ParseBody(name, s, start); r.Spins? || r.NoArgs? || r.Email?
  {
    hide BodyEnd, TakeArgs, FindTo, Skip;
  }

  predicate NoneOf(s: string, i: nat, j: nat, p: char -> bool)
    requires j <= |s|
  {
    forall k :: i <= k < j ==> !p(s[k])
  }

  lemma LastLine(s: string, at: nat)
    requires at < |s|
    ensures NextLine(s, at) == |s| <==>
              exists e: nat :: at <= e <= |s| && NoneOf(s, at, e, IsNewline) && NoneOf(s, e, |s|, NotNewline)
  {
    var end := Skip(s, at, NotNewline);
    assert NoneOf(s, at, end, IsNewline);
    if NextLine(s, at) == |s| {
      assert NoneOf(s, end, |s|, NotNewline);
    }
    if e: nat :| at <= e <= |s| && NoneOf(s, at, e, IsNewline) && NoneOf(s, e, |s|, NotNewline) {
      SkipIs(s, at, NotNewline, e);
      SkipIs(s, e, IsNewline, |s|);
    }
  }

  /** A file that does not start with a record is left as it is, and nothing is sent. */
  lemma OtherFileKept(s: string, accepts: nat -> bool)
    requires s != "" && !StartsRecord(s, 0)
    ensures Drain(s, 0, accepts, 0) == Drained([], 0, Finished) && Remaining(s, 0) == Some(s)
  {
    GivesUp(s, 0);
  }

  // ---- runs ----

  datatype Op = Enqueue(entry: Entry) | Dequeue(accepts: nat -> bool)

  /** The mail file, with all that was queued and all that was accepted so far. */
  datatype Spool = Spool(file: Option<string>, queued: seq<Entry>, sent: seq<Attempt>, hung: bool)

  function Append(file: Option<string>, e: Entry): Option<string> {
    Some((if file.Some? then file.value else "") + Encode(e))
  }

  function Next(s: Spool, op: Op): Spool {
    match op
    case Enqueue(e) => s.(file := Append(s.file, e), queued := s.queued + [e])
    case Dequeue(accepts) =>
      if s.file.None? || s.file.value == "" then s
      else
        var d := Drain(s.file.value, 0, accepts, 0);
        if d.outcome == Hung then s.(hung := true)
        else s.(file := Remaining(s.file.value, d.keep), sent := s.sent + d.sent)
  }

  function After(ops: seq<Op>): Spool {
    if ops == [] then Spool(None, [], [], false) else Next(After(ops[..|ops| - 1]), ops[|ops| - 1])
  }

  /** The email itself, but for the line end that the last email of the file gains. */
  predicate Delivers(a: Attempt, e: Entry) {
    a.args == e.args && (a.text == e.email || a.text == e.email + CRLF)
  }

  ghost predicate Fifo(s: Spool) {
    && !s.hung
    && |s.sent| <= |s.queued|
    && (forall i :: 0 <= i < |s.sent| ==> Delivers(s.sent[i], s.queued[i]))
    && s.file == FileOf(s.queued[|s.sent|..])
  }

  lemma {:induction false} EncodeAllAppend(queue: seq<Entry>, e: Entry)
    ensures EncodeAll(queue + [e]) == EncodeAll(queue) + Encode(e)
  {
    hide Encode;
    if queue == [] {
      assert queue + [e] == [e];
      assert EncodeAll([e]) == Encode(e) + EncodeAll([]);
    } else {
      EncodeAllAppend(queue[1..], e);
      assert (queue + [e])[1..] == queue[1..] + [e];
    }
  }

  lemma {:induction false} HandedOverDelivers(queue: seq<Entry>, j: nat)
    requires j <= |queue|
    ensures var r := HandedOver(queue, j);
            |r| == j && forall i :: 0 <= i < j ==> Delivers(r[i], queue[i])
  {
    if j > 0 {
      HandedOverDelivers(queue[1..], j - 1);
      var r := HandedOver(queue[1..], j - 1);
      assert forall i {:trigger queue[i]} :: 0 < i < j ==> Delivers(r[i - 1], queue[1..][i - 1]);
    }
  }

  lemma EnqueueFifo(s: Spool, e: Entry)
    requires Fifo(s) && AllGood(s.queued)
    ensures Fifo(Next(s, Enqueue(e)))
  {
    hide Encode, Delivers, EncodeAll;
    var pending := s.queued[|s.sent|..];
    assert (s.queued + [e])[|s.sent|..] == pending + [e];
    EncodeAllAppend(pending, e);
    EncodeAllNothing();
    assert "" + Encode(e) == Encode(e);
  }

  lemma EncodeAllNothing()
    ensures EncodeAll([]) == ""
  {
  }

  lemma DequeueFifo(s: Spool, accepts: nat -> bool)
    requires Fifo(s) && AllGood(s.queued)
    ensures Fifo(Next(s, Dequeue(accepts)))
  {
    hide Encode, Delivers, EncodeAll, Drain, Good;
    var pending := s.queued[|s.sent|..];
    if pending != [] {
      var file := s.file.value;
      assert file[0..] == file;
      assert AllGood(pending);
      EncodeAllFollows(pending);
      QueueDrained(file, 0, pending, accepts, 0);
      var j := Accepted(accepts, 0, |pending|);
      HandedOverDelivers(pending, j);
      assert s.queued[|s.sent| + j..] == pending[j..];
      var d := Drain(file, 0, accepts, 0);
      EncodeAllFollows(pending[j..]);
      assert d.keep == |file| <==> file[d.keep..] == "";
    }
  }

  /** First in, first out: over any interleaving of enqueue() and dequeue(), with the transport failing at
      any email, the accepted emails are a prefix of the queued ones, each handed over as it was queued,
      and the file is exactly the encoding of those not yet accepted. */
  lemma {:induction false} MailIsFifo(ops: seq<Op>)
    requires forall i :: 0 <= i < |ops| && ops[i].Enqueue? ==> Good(ops[i].entry)
    ensures Fifo(After(ops)) && AllGood(After(ops).queued)
  {
    hide Encode, Good, Delivers, Drain;
    if ops != [] {
      var k := |ops| - 1;
      MailIsFifo(ops[..k]);
      match ops[k]
      case Enqueue(e) => EnqueueFifo(After(ops[..k]), e);
      case Dequeue(accepts) => DequeueFifo(After(ops[..k]), accepts);
    }
  }
}
