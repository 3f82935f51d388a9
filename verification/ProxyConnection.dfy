/** The snapdbproxy connection object: its cursor and batch vectors, updated order by order. */
module ProxyConnection {
  import opened Sequences
  import opened Cursors

  /** What a handler does: it answers, or it throws and the loop over the orders closes the connection. */
  datatype Outcome = Replied(reply: Reply) | Thrown

  class SnapdbproxyConnection {
    var client: bool
    var cursors: seq<CursorSlot>
    var batches: seq<BatchSlot>

    function State(): Connection
      reads this
    {
      Connection(client, cursors, batches)
    }

    constructor ()
      ensures State() == CONNECTED
    {
      client, cursors, batches := true, [], [];
    }

    method Close()
      modifies this
      ensures State() == CLOSED
    {
      client, cursors, batches := false, [], [];
    }

    method DeclareCursor(pages: seq<Page>, columns: int, sent: bool) returns (r: Outcome)
      requires client
      modifies this
      ensures r == Replied(Execute(old(State()), Order.DeclareCursor(pages, columns), sent).1)
      ensures State() == Execute(old(State()), Order.DeclareCursor(pages, columns), sent).0
    {
      hide Columns;
      var index := |cursors|;
      var rows := [];
      if pages != [] {
        rows := ReadRows(pages[0], columns);
      }
      cursors := cursors + [Slot(Some(Rest(pages)), columns)];
      r := Replied(Handle(index, rows));
      if !sent {
        Close();
        r := Replied(Failed);
      }
    }

    /** State as it is when the handler returns or throws; the caller closes the connection after a throw. */
    method FetchCursor(cursor: int, sent: bool) returns (r: Outcome)
      requires client
      modifies this
      ensures var (s, reply) := Execute(old(State()), Order.FetchCursor(cursor), sent);
              if r.Thrown? then s == CLOSED && reply == Failed else r.reply == reply && State() == s
    {
      hide Columns;
      if cursor < 0 || cursor >= |cursors| {
        return Thrown;
      }
      var slot := cursors[cursor];
      if slot.query.None? {
        return Thrown;
      }
      var rows := [];
      var pages := slot.query.value;
      if pages != [] {
        rows := ReadRows(pages[0], slot.extra);
        cursors := cursors[cursor := slot.(query := Some(pages[1..]))];
      }
      r := Replied(Rows(rows));
      if !sent {
        Close();
        r := Replied(Failed);
      }
    }

    method CloseCursor(cursor: int, sent: bool) returns (r: Outcome)
      requires client
      modifies this
      ensures var (s, reply) := Execute(old(State()), Order.CloseCursor(cursor), sent);
              if r.Thrown? then s == CLOSED && reply == Failed else r.reply == reply && State() == s
    {
      if cursor < 0 || cursor >= |cursors| {
        return Thrown;
      }
      if !sent {
        Close();
        return Replied(Failed);
      }
      cursors := cursors[cursor := cursors[cursor].(query := None)];
      ghost var released := cursors;
      while cursors != [] && cursors[|cursors| - 1].query == None
        invariant client == old(client) && batches == old(batches)
        invariant Compact(cursors) == Compact(released)
        decreases |cursors|
      {
        cursors := cursors[..|cursors| - 1];
      }
      r := Replied(Done);
    }

    method DeclareBatch(query: nat, name: nat, sent: bool) returns (r: Outcome)
      requires client
      modifies this
      ensures r == Replied(Execute(old(State()), Order.DeclareBatch(query, name), sent).1)
      ensures State() == Execute(old(State()), Order.DeclareBatch(query, name), sent).0
    {
      batches := batches + [Slot(Some(query), name)];
      r := Replied(Handle(|batches| - 1, []));
      if !sent {
        Close();
        r := Replied(Failed);
      }
    }

    method ClearBatch(batch: int)
      requires batch == -1 || InRange(batches, batch)
      modifies this`batches
      ensures batches == if batch == -1 then Compact(old(batches)) else Release(old(batches), batch)
    {
      if batch != -1 {
        batches := batches[batch := batches[batch].(query := None)];
      }
      ghost var released := batches;
      while batches != [] && batches[|batches| - 1].query == None
        invariant Compact(batches) == Compact(released)
        decreases |batches|
      {
        batches := batches[..|batches| - 1];
      }
    }

    method CommitBatch(batch: int) returns (r: Outcome)
      requires client
      modifies this
      ensures var (s, reply) := Execute(old(State()), Order.CommitBatch(batch), true);
              if r.Thrown? then s == CLOSED && reply == Failed else r.reply == reply && State() == s
    {
      if batch < 0 || batch >= |batches| {
        return Thrown;
      }
      var name := batches[batch].extra;
      ClearBatch(batch);
      r := Replied(Ran(name));
    }

    /** One turn of the loop over the orders. */
    method RunOrder(order: Order, sent: bool) returns (reply: Reply)
      requires client && Defined(State(), order, sent)
      modifies this
      ensures (State(), reply) == Execute(old(State()), order, sent)
    {
      var r: Outcome;
      match order {
        case DeclareCursor(pages, columns) => r := DeclareCursor(pages, columns, sent);
        case FetchCursor(cursor) => r := FetchCursor(cursor, sent);
        case CloseCursor(cursor) => r := CloseCursor(cursor, sent);
        case DeclareBatch(query, name) => r := DeclareBatch(query, name, sent);
        case CommitBatch(batch) => r := CommitBatch(batch);
        case RollbackBatch(batch) =>
          ClearBatch(batch);
          r := Replied(Done);
      }
      if r.Thrown? {
        Close();
        return Failed;
      }
      reply := r.reply;
    }
  }

  /** The rows of a page, column by column. */
  method ReadRows(page: Page, columns: int) returns (result: seq<string>)
    ensures result == Columns(page, columns)
    ensures Cells(result, page, columns)
  {
    result := [];
    for i := 0 to |page|
      invariant result == Columns(page[..i], columns)
    {
      var row := page[i];
      var idx := 0;
      assert page[..i + 1][..i] == page[..i];
      while idx < columns
        invariant 0 <= idx <= if columns > 0 then columns else 0
        invariant result == Columns(page[..i], columns) + RowColumns(row, idx)
      {
        result := result + [row(idx)];
        idx := idx + 1;
      }
      assert RowColumns(row, columns) == RowColumns(row, idx);
      assert Columns(page[..i + 1], columns) == Columns(page[..i], columns) + RowColumns(row, columns);
    }
    assert page[..|page|] == page;
    PageCells(page, columns);
  }
}
