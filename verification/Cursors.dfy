/** snapdbproxy: the cursors and batches of one connection, handed out by index. */
module Cursors {
  import opened Sequences

  /** A vector entry; it is closed when its query was reset. What else it holds stays. */
  datatype Slot<Q, X> = Slot(query: Option<Q>, extra: X)

  /** The entries that are still in use, by index. */
  function Open<Q, X>(slots: seq<Slot<Q, X>>): map<nat, (Q, X)> {
    map h: nat | h < |slots| && slots[h].query.Some? :: (slots[h].query.value, slots[h].extra)
  }

  /** The last entry is in use. */
  predicate Trimmed<Q, X>(slots: seq<Slot<Q, X>>) {
    slots == [] || slots[|slots| - 1].query.Some?
  }

  /** Drop the closed entries at the end. */
  function Compact<Q, X>(slots: seq<Slot<Q, X>>): (r: seq<Slot<Q, X>>)
    ensures Trimmed(r) && |r| <= |slots| && r == slots[..|r|]
    ensures forall i :: |r| <= i < |slots| ==> slots[i].query.None?
  {
    if slots == [] || slots[|slots| - 1].query.Some? then slots else Compact(slots[..|slots| - 1])
  }

  function Release<Q, X>(slots: seq<Slot<Q, X>>, h: nat): seq<Slot<Q, X>>
    requires h < |slots|
  {
    Compact(slots[h := slots[h].(query := None)])
  }

  /** Only the released entry is gone, although the vector may have shrunk by several. */
  lemma ReleaseCloses<Q, X>(slots: seq<Slot<Q, X>>, h: nat)
    requires h < |slots|
    ensures Open(Release(slots, h)) == Open(slots) - {h}
    ensures Trimmed(Release(slots, h))
  {
    var r := Release(slots, h);
    var t := slots[h := slots[h].(query := None)];
    forall i: nat
      ensures i in Open(r) <==> i in Open(slots) && i != h
      ensures i in Open(r) ==> Open(r)[i] == Open(slots)[i]
    {
      if i < |r| {
        assert r[i] == t[i];
      } else if i < |slots| {
        assert t[i].query.None?;
      }
    }
  }

  /** A vector whose last entry is in use is as long as its largest handle demands; without handles it is empty. */
  lemma TrimmedLength<Q, X>(slots: seq<Slot<Q, X>>)
    requires Trimmed(slots)
    ensures slots == [] <==> Open(slots) == map[]
    ensures slots != [] ==> |slots| - 1 in Open(slots)
  {
    if slots != [] {
      assert |slots| - 1 in Open(slots);
    }
  }

  // ---- the orders of a client ----

  type Row = nat -> string
  type Page = seq<Row>
  type CursorSlot = Slot<seq<Page>, int>   // the pages to come, and the column count
  type BatchSlot = Slot<nat, nat>          // the query, and the batch it was added to

  datatype Connection = Connection(open: bool, cursors: seq<CursorSlot>, batches: seq<BatchSlot>)

  const CLOSED := Connection(false, [], [])
  const CONNECTED := Connection(true, [], [])

  datatype Order =
    | DeclareCursor(pages: seq<Page>, columns: int)
    | FetchCursor(cursor: int)
    | CloseCursor(cursor: int)
    | DeclareBatch(query: nat, name: nat)
    | CommitBatch(batch: int)
    | RollbackBatch(batch: int)

  /** What the client gets; Failed when an exception or a broken socket closed the connection. */
  datatype Reply = Handle(handle: nat, rows: seq<string>) | Rows(rows: seq<string>) | Ran(name: nat) | Done | Failed

  function RowColumns(row: Row, columns: int): seq<string>
    decreases if columns > 0 then columns else 0
  {
    if columns <= 0 then [] else RowColumns(row, columns - 1) + [row(columns - 1)]
  }

  function Columns(page: Page, columns: int): seq<string> {
    if page == [] then [] else Columns(page[..|page| - 1], columns) + RowColumns(page[|page| - 1], columns)
  }

  predicate CellAt(result: seq<string>, page: Page, columns: nat, i: nat, k: nat)
    requires i < |page|
  {
    0 <= i * columns + k < |result| && result[i * columns + k] == page[i](k)
  }

  /** The cells of a page, row by row; no column, no cell. */
  predicate Cells(result: seq<string>, page: Page, columns: int) {
    if columns <= 0 then result == []
    else
      && |result| == |page| * columns
      && forall i: nat, k: nat {:trigger CellAt(result, page, columns, i, k)} ::
           i < |page| && k < columns ==> CellAt(result, page, columns, i, k)
  }

  lemma {:induction false} RowCells(row: Row, columns: nat)
    ensures |RowColumns(row, columns)| == columns
    ensures forall k :: 0 <= k < columns ==> RowColumns(row, columns)[k] == row(k)
  {
    if columns > 0 {
      RowCells(row, columns - 1);
    }
  }

  lemma CellsJoin(front: seq<string>, last: seq<string>, page: Page, columns: nat)
    requires page != [] && columns > 0 && Cells(front, page[..|page| - 1], columns)
    requires |last| == columns && forall k :: 0 <= k < columns ==> last[k] == page[|page| - 1](k)
    ensures Cells(front + last, page, columns)
  {
    hide CellAt;
    var n := |page| - 1;
    assert |page| * columns == n * columns + columns;
    forall i: nat, k: nat | i < |page| && k < columns
      ensures CellAt(front + last, page, columns, i, k)
    {
      if i < n {
        assert CellAt(front, page[..n], columns, i, k);
        OldCell(front, last, page, columns, i, k);
      } else {
        LastCell(front, last, page, columns, k);
      }
    }
  }

  lemma OldCell(front: seq<string>, last: seq<string>, page: Page, columns: nat, i: nat, k: nat)
    requires i + 1 < |page| && CellAt(front, page[..|page| - 1], columns, i, k)
    ensures CellAt(front + last, page, columns, i, k)
  {
    assert page[..|page| - 1][i] == page[i];
  }

  lemma LastCell(front: seq<string>, last: seq<string>, page: Page, columns: nat, k: nat)
    requires page != [] && |front| == (|page| - 1) * columns && k < |last| == columns
    requires last[k] == page[|page| - 1](k)
    ensures CellAt(front + last, page, columns, |page| - 1, k)
  {
  }

  /** Row i and column k are found at position i * columns + k. */
  lemma {:induction false} PageCells(page: Page, columns: int)
    ensures Cells(Columns(page, columns), page, columns)
  {
    if page != [] {
      var n := |page| - 1;
      PageCells(page[..n], columns);
      if columns > 0 {
        hide Cells;
        RowCells(page[n], columns);
        CellsJoin(Columns(page[..n], columns), RowColumns(page[n], columns), page, columns);
      }
    }
  }

  function PageRows(pages: seq<Page>, k: nat, columns: int): seq<string> {
    if k < |pages| then Columns(pages[k], columns) else []
  }

  function Rest(pages: seq<Page>): seq<Page> { if pages == [] then [] else pages[1..] }

  predicate InRange<Q, X>(slots: seq<Slot<Q, X>>, h: int) { 0 <= h < |slots| }

  /** A rollback does not check its index, and after a commit whose reply fails the batch is gone when it is cleared. */
  predicate Defined(s: Connection, o: Order, sent: bool) {
    match o
    case CommitBatch(b) => InRange(s.batches, b) ==> sent
    case RollbackBatch(b) => b == -1 || InRange(s.batches, b)
    case _ => true
  }

  function Execute(s: Connection, o: Order, sent: bool): (Connection, Reply)
    requires s.open && Defined(s, o, sent)
  {
    match o
    case DeclareCursor(pages, columns) =>
      if sent then
        (s.(cursors := s.cursors + [Slot(Some(Rest(pages)), columns)]),
         Handle(|s.cursors|, PageRows(pages, 0, columns)))
      else (CLOSED, Failed)
    case FetchCursor(c) =>
      if InRange(s.cursors, c) && s.cursors[c].query.Some? && sent then
        var pages := s.cursors[c].query.value;
        (s.(cursors := s.cursors[c := s.cursors[c].(query := Some(Rest(pages)))]),
         Rows(PageRows(pages, 0, s.cursors[c].extra)))
      else (CLOSED, Failed)
    case CloseCursor(c) =>
      if InRange(s.cursors, c) && sent then (s.(cursors := Release(s.cursors, c)), Done) else (CLOSED, Failed)
    case DeclareBatch(query, name) =>
      if sent then (s.(batches := s.batches + [Slot(Some(query), name)]), Handle(|s.batches|, []))
      else (CLOSED, Failed)
    case CommitBatch(b) =>
      if InRange(s.batches, b) then (s.(batches := Release(s.batches, b)), Ran(s.batches[b].extra))
      else (CLOSED, Failed)
    case RollbackBatch(b) =>
      if b == -1 then (s.(batches := Compact(s.batches)), Done)
      else (s.(batches := Release(s.batches, b)), Done)
  }

  datatype Step = Step(order: Order, sent: bool, reply: Reply)

  /** The state after the steps of a client. */
  ghost function After(run: seq<Step>): Connection {
    if run == [] then CONNECTED
    else
      var before := After(run[..|run| - 1]);
      var step := run[|run| - 1];
      if before.open && Defined(before, step.order, step.sent) then Execute(before, step.order, step.sent).0
      else CLOSED
  }

  /** Every order was executed by an open connection and answered with what it computed. */
  ghost predicate Valid(run: seq<Step>) {
    run == [] ||
    (var before, step := After(run[..|run| - 1]), run[|run| - 1];
     && Valid(run[..|run| - 1])
     && before.open && Defined(before, step.order, step.sent)
     && step.reply == Execute(before, step.order, step.sent).1)
  }

  datatype Reading = Reading(pages: seq<Page>, columns: int, replies: seq<seq<string>>)

  /** What a cursor index stands for, from the client's side alone: the query whose declaration returned it last,
      with the replies received since; None once it was closed. */
  function Client(run: seq<Step>, h: nat): Option<Reading> {
    if run == [] then None
    else
      var before := Client(run[..|run| - 1], h);
      var step := run[|run| - 1];
      match step.order
      case DeclareCursor(pages, columns) =>
        if step.reply.Handle? && step.reply.handle == h then Some(Reading(pages, columns, [step.reply.rows]))
        else before
      case FetchCursor(c) =>
        if c == h && before.Some? && step.reply.Rows? then
          Some(before.value.(replies := before.value.replies + [step.reply.rows]))
        else before
      case CloseCursor(c) => if c == h then None else before
      case _ => before
  }

  /** The k-th reply is the k-th page of the query, or empty past the last; the entry holds the pages to come. */
  ghost predicate Agrees(slot: Option<(seq<Page>, int)>, reading: Option<Reading>) {
    match reading
    case None => slot == None
    case Some(r) =>
      && r.replies != []
      && (forall k :: 0 <= k < |r.replies| ==> r.replies[k] == PageRows(r.pages, k, r.columns))
      && slot == Some((if |r.replies| <= |r.pages| then r.pages[|r.replies|..] else [], r.columns))
  }

  function Entry(s: Connection, h: nat): Option<(seq<Page>, int)> {
    if h in Open(s.cursors) then Some(Open(s.cursors)[h]) else None
  }

  lemma AgreesFetch(pages: seq<Page>, columns: int, slot: (seq<Page>, int), r: Reading)
    requires Agrees(Some(slot), Some(r))
    ensures Agrees(Some((Rest(slot.0), slot.1)), Some(r.(replies := r.replies + [PageRows(slot.0, 0, slot.1)])))
  {
    hide Columns;
    var replies := r.replies + [PageRows(slot.0, 0, slot.1)];
    forall k | 0 <= k < |replies|
      ensures replies[k] == PageRows(r.pages, k, r.columns)
    {
    }
  }

  /** An open handle stands for the query it was issued for, and its replies are that query's pages, in order. */
  lemma {:induction false} HandlesDenote(run: seq<Step>, h: nat)
    requires Valid(run) && After(run).open
    ensures Agrees(Entry(After(run), h), Client(run, h))
    ensures Trimmed(After(run).cursors) && Trimmed(After(run).batches)
  {
    if run != [] {
      hide Columns, Agrees;
      var front, step := run[..|run| - 1], run[|run| - 1];
      var before := After(front);
      HandlesDenote(front, h);
      match step.order
      case DeclareCursor(pages, columns) =>
      case FetchCursor(c) =>
        var slot := before.cursors[c];
        FetchOpen(before.cursors, c);
        if c == h {
          AgreesSome(Entry(before, h), Client(front, h));
          AgreesFetch(slot.query.value, slot.extra, (slot.query.value, slot.extra), Client(front, h).value);
        }
      case CloseCursor(c) =>
        ReleaseCloses(before.cursors, c);
        AgreesNone();
      case DeclareBatch(query, name) =>
      case CommitBatch(b) =>
      case RollbackBatch(b) =>
    } else {
      AgreesNone();
    }
  }

  /** So the k-th reply holds the cells of the k-th page, or nothing past the last. */
  lemma RepliesAreCells(run: seq<Step>, h: nat, k: nat)
    requires Valid(run) && After(run).open && Client(run, h).Some? && k < |Client(run, h).value.replies|
    ensures var r := Client(run, h).value;
            if k < |r.pages| then Cells(r.replies[k], r.pages[k], r.columns) else r.replies[k] == []
  {
    hide Cells, After, Valid, Client;
    HandlesDenote(run, h);
    var r := Client(run, h).value;
    if k < |r.pages| {
      PageCells(r.pages[k], r.columns);
    }
  }

  lemma AgreesNone()
    ensures Agrees(None, None)
  {
  }

  lemma AgreesSome(slot: Option<(seq<Page>, int)>, r: Option<Reading>)
    requires Agrees(slot, r)
    ensures slot.Some? == r.Some?
  {
  }

  lemma FetchOpen(slots: seq<CursorSlot>, c: nat)
    requires c < |slots| && slots[c].query.Some?
    ensures var rest := Rest(slots[c].query.value);
            Open(slots[c := slots[c].(query := Some(rest))]) == Open(slots)[c := (rest, slots[c].extra)]
    ensures Trimmed(slots) ==> Trimmed(slots[c := slots[c].(query := Some(Rest(slots[c].query.value)))])
  {
  }

  /** The handle of a new cursor stood for nothing. */
  lemma NewHandleUnused(run: seq<Step>, pages: seq<Page>, columns: int)
    requires Valid(run) && After(run).open
    ensures var reply := Execute(After(run), DeclareCursor(pages, columns), true).1;
            reply.Handle? && Client(run, reply.handle).None?
  {
    hide Columns, Agrees;
    var h := |After(run).cursors|;
    HandlesDenote(run, h);
    AgreesSome(Entry(After(run), h), Client(run, h));
  }

  // ---- closing all ----

  /** The orders to close these cursors, one after the other, as long as the connection is open. */
  function CloseAll(s: Connection, handles: seq<nat>): Connection {
    if handles == [] then s
    else
      var front := CloseAll(s, handles[..|handles| - 1]);
      if front.open then Execute(front, CloseCursor(handles[|handles| - 1]), true).0 else front
  }

  function Named(handles: seq<nat>): set<nat> { set h | h in handles }

  /** Some cursor with this index or a larger one is still open when its turn comes. */
  ghost predicate InTurn(s: Connection, handles: seq<nat>, k: nat)
    requires k < |handles|
  {
    exists g: nat :: g in Open(s.cursors) && handles[k] <= g && g !in handles[..k]
  }

  ghost predicate AllInTurn(s: Connection, handles: seq<nat>) {
    forall k :: 0 <= k < |handles| ==> InTurn(s, handles, k)
  }

  lemma AllButLast(s: Connection, handles: seq<nat>)
    requires handles != []
    ensures var k := |handles| - 1;
            AllInTurn(s, handles) <==> AllInTurn(s, handles[..k]) && InTurn(s, handles, k)
  {
    var k := |handles| - 1;
    hide Open;
    forall j | 0 <= j < k
      ensures InTurn(s, handles[..k], j) <==> InTurn(s, handles, j)
    {
      assert handles[..k][..j] == handles[..j];
    }
  }

  lemma CloseNext(s: Connection, front: Connection, handles: seq<nat>, k: nat)
    requires k < |handles| && front.open && Trimmed(front.cursors)
    requires Open(front.cursors).Keys == Open(s.cursors).Keys - Named(handles[..k])
    ensures var r := Execute(front, CloseCursor(handles[k]), true).0;
            && (r.open <==> InTurn(s, handles, k))
            && (if r.open then
                  Trimmed(r.cursors) && r.batches == front.batches
                  && Open(r.cursors).Keys == Open(s.cursors).Keys - Named(handles[..k + 1])
                else r == CLOSED)
  {
    hide Compact, Release;
    IndexInTurn(front, s, handles, k);
    if handles[k] < |front.cursors| {
      ReleaseCloses(front.cursors, handles[k]);
      assert handles[..k + 1] == handles[..k] + [handles[k]];
    }
  }

  lemma {:induction false} CloseAllCloses(s: Connection, handles: seq<nat>)
    requires s.open && Trimmed(s.cursors)
    ensures var r := CloseAll(s, handles);
            && (r.open <==> AllInTurn(s, handles))
            && (if r.open then
                  Trimmed(r.cursors) && r.batches == s.batches
                  && Open(r.cursors).Keys == Open(s.cursors).Keys - Named(handles)
                else r == CLOSED)
  {
    if handles != [] {
      hide Execute, InTurn, AllInTurn, Trimmed, Named, Open;
      var k := |handles| - 1;
      CloseAllCloses(s, handles[..k]);
      AllButLast(s, handles);
      assert handles[..k + 1] == handles;
      if CloseAll(s, handles[..k]).open {
        CloseNext(s, CloseAll(s, handles[..k]), handles, k);
      }
    }
  }

  lemma IndexInTurn(front: Connection, s: Connection, handles: seq<nat>, k: nat)
    requires k < |handles| && Trimmed(front.cursors)
    requires Open(front.cursors).Keys == Open(s.cursors).Keys - Named(handles[..k])
    ensures handles[k] < |front.cursors| <==> InTurn(s, handles, k)
  {
    TrimmedLength(front.cursors);
    if handles[k] < |front.cursors| {
      var g := |front.cursors| - 1;
      assert g in Open(front.cursors).Keys;
      assert g in Open(s.cursors) && g !in handles[..k];
    }
    if InTurn(s, handles, k) {
      var g: nat :| g in Open(s.cursors) && handles[k] <= g && g !in handles[..k];
      assert g in Open(front.cursors).Keys;
    }
  }

  /** Closing leaves an open connection without cursors exactly when every open cursor is named and none of the
      orders comes too late; otherwise the connection is closed, or cursors are left. */
  lemma EmptyAfterAll(s: Connection, handles: seq<nat>)
    requires s.open && Trimmed(s.cursors)
    ensures var r := CloseAll(s, handles);
            (r.open && r.cursors == []) <==>
            ((forall h :: h in Open(s.cursors) ==> h in handles)
             && AllInTurn(s, handles))
  {
    CloseAllCloses(s, handles);
    var r := CloseAll(s, handles);
    if r.open {
      TrimmedLength(r.cursors);
      var left := Open(r.cursors);
      assert forall h: nat :: h in left.Keys <==> h in Open(s.cursors).Keys && h !in handles;
      assert left == map[] <==> forall h: nat :: h !in left.Keys;
    }
  }

  /** The open cursors, each closed once, can be closed in any order. */
  lemma AnyOrderEmpties(s: Connection, handles: seq<nat>)
    requires s.open && Trimmed(s.cursors)
    requires forall h: nat :: h in Open(s.cursors) <==> h in handles
    requires forall i, j :: 0 <= i < j < |handles| ==> handles[i] != handles[j]
    ensures var r := CloseAll(s, handles); r.open && r.cursors == []
  {
    forall k | 0 <= k < |handles|
      ensures InTurn(s, handles, k)
    {
      assert handles[k] in Open(s.cursors) && handles[k] !in handles[..k];
    }
    EmptyAfterAll(s, handles);
  }

  // ---- batches ----

  /** The batch a client's index stands for: the one of the declaration that returned it last, until it was ended. */
  function ClientBatch(run: seq<Step>, h: nat): Option<(nat, nat)> {
    if run == [] then None
    else
      var before := ClientBatch(run[..|run| - 1], h);
      var step := run[|run| - 1];
      match step.order
      case DeclareBatch(query, name) =>
        if step.reply.Handle? && step.reply.handle == h then Some((query, name)) else before
      case CommitBatch(b) => if b == h then None else before
      case RollbackBatch(b) => if b == h then None else before
      case _ => before
  }

  lemma {:induction false} BatchesDenote(run: seq<Step>, h: nat)
    requires Valid(run) && After(run).open
    ensures var open := Open(After(run).batches);
            ClientBatch(run, h) == if h in open then Some(open[h]) else None
    ensures Trimmed(After(run).batches)
  {
    if run != [] {
      hide Columns, Compact;
      var front, step := run[..|run| - 1], run[|run| - 1];
      var before := After(front);
      BatchesDenote(front, h);
      match step.order
      case DeclareBatch(query, name) =>
      case CommitBatch(b) =>
        ReleaseCloses(before.batches, b);
      case RollbackBatch(b) =>
        if b == -1 {
        } else {
          ReleaseCloses(before.batches, b);
        }
      case DeclareCursor(pages, columns) =>
      case FetchCursor(c) =>
      case CloseCursor(c) =>
    }
  }

  /** A commit runs the batch its index stands for. An index that stands for nothing is refused exactly when no
      later batch is open; otherwise its ended batch runs once more. */
  lemma CommitRuns(run: seq<Step>, b: nat)
    requires Valid(run) && After(run).open
    ensures var reply := Execute(After(run), CommitBatch(b), true).1;
            match ClientBatch(run, b)
            case Some(batch) => reply == Ran(batch.1)
            case None => reply == Failed <==> forall h: nat :: h > b ==> ClientBatch(run, h).None?
  {
    hide After, Valid, ClientBatch, Release;
    var batches := After(run).batches;
    BatchesDenote(run, b);
    if b >= |batches| {
      forall h: nat | h > b
        ensures ClientBatch(run, h).None?
      {
        BatchesDenote(run, h);
      }
    } else if b !in Open(batches) {
      TrimmedLength(batches);
      BatchesDenote(run, |batches| - 1);
    }
  }

  // ---- refusals ----

  /** No cursor of the client has this index or a larger one. */
  ghost predicate BeyondCursors(run: seq<Step>, c: int) {
    c < 0 || forall h: nat :: h >= c ==> Client(run, h).None?
  }

  ghost predicate BeyondBatches(run: seq<Step>, b: int) {
    b < 0 || forall h: nat :: h >= b ==> ClientBatch(run, h).None?
  }

  ghost predicate Refused(run: seq<Step>, o: Order, sent: bool) {
    match o
    case DeclareCursor(_, _) => !sent
    case DeclareBatch(_, _) => !sent
    case FetchCursor(c) => !sent || c < 0 || Client(run, c).None?
    case CloseCursor(c) => !sent || BeyondCursors(run, c)
    case CommitBatch(b) => BeyondBatches(run, b)
    case RollbackBatch(_) => false
  }

  /** Exactly which orders close the connection: those whose reply cannot be sent, a fetch on what is no cursor of the
      client, a close or a commit on an index beyond every open one. All others leave it open. */
  lemma RefusedExactly(run: seq<Step>, o: Order, sent: bool)
    requires Valid(run) && After(run).open && Defined(After(run), o, sent)
    ensures var (s, reply) := Execute(After(run), o, sent);
            && (reply == Failed <==> Refused(run, o, sent))
            && (if reply == Failed then s == CLOSED else s.open)
  {
    hide After, Valid, Client, ClientBatch, Columns, Compact, Agrees, BeyondCursors, BeyondBatches;
    match o
    case FetchCursor(c) =>
      if c >= 0 {
        HandlesDenote(run, c);
        AgreesSome(Entry(After(run), c), Client(run, c));
      }
    case CloseCursor(c) => IndexRefused(run, c);
    case CommitBatch(b) => BatchRefused(run, b);
    case _ =>
  }

  lemma IndexRefused(run: seq<Step>, c: int)
    requires Valid(run) && After(run).open
    ensures BeyondCursors(run, c) <==> !InRange(After(run).cursors, c)
  {
    hide After, Valid, Client, Columns, Agrees;
    var cursors := After(run).cursors;
    HandlesDenote(run, 0);
    if c < 0 {
    } else if c >= |cursors| {
      forall h: nat | h >= c
        ensures Client(run, h).None?
      {
        HandlesDenote(run, h);
        AgreesSome(Entry(After(run), h), Client(run, h));
      }
    } else {
      TrimmedLength(cursors);
      HandlesDenote(run, |cursors| - 1);
      AgreesSome(Entry(After(run), |cursors| - 1), Client(run, |cursors| - 1));
    }
  }

  lemma BatchRefused(run: seq<Step>, b: int)
    requires Valid(run) && After(run).open
    ensures BeyondBatches(run, b) <==> !InRange(After(run).batches, b)
  {
    hide After, Valid, ClientBatch;
    var batches := After(run).batches;
    BatchesDenote(run, 0);
    if b < 0 {
    } else if b >= |batches| {
      forall h: nat | h >= b
        ensures ClientBatch(run, h).None?
      {
        BatchesDenote(run, h);
      }
    } else {
      TrimmedLength(batches);
      BatchesDenote(run, |batches| - 1);
    }
  }
}
