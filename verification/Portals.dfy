/** session.py and connection.py: a portal whose rows are drained across several Execute messages. */
module Portals {
  import opened Prelude

  // ---- Values ----

  /** The rows a source has still to yield, and whether it then raises instead of stopping. A source
      that has raised is finished. */
  datatype Source<+R> = Source(rows: seq<R>, raises: bool)

  datatype Drained<+R> = Drained(rows: seq<R>, suspended: bool, raised: bool, rest: Source<R>)

  /** What one drain takes: up to `limit` rows, or all of them when it is not positive. The end of the
      source is not looked for once the limit is reached. */
  function Drain<R>(s: Source<R>, limit: int): (d: Drained<R>)
    ensures d.suspended <==> 0 < limit <= |s.rows|
    ensures !d.raised ==> d.rows + d.rest.rows == s.rows
    ensures d.raised ==> d.rows == []
  {
    if 0 < limit <= |s.rows| then Drained(s.rows[..limit], true, false, Source(s.rows[limit..], s.raises))
    else if s.raises then Drained([], false, true, Source([], false))
    else Drained(s.rows, false, false, Source([], false))
  }

  datatype Out<+R> = DataRow(row: R) | PortalSuspended | CommandComplete(count: nat) | ErrorResponse

  /** A portal in the connection's table: its source, how often that was started, and the rows handed
      over so far. */
  datatype Entry<+R> = Entry(source: Source<R>, starts: nat, returned: nat)

  /** One Execute: the limit the client gave, and whether a source not yet started starts. */
  datatype Call = Call(limit: int, starts: bool)

  /** How rows reach the wire: whether the statement has columns, and which rows can be encoded. */
  datatype Format<!R> = Format(columns: bool, encodable: R -> bool)

  /** The rows written, up to the first that cannot be encoded. */
  function Written<R>(f: Format<R>, rows: seq<R>): seq<Out<R>> {
    if !f.columns || rows == [] then []
    else if f.encodable(rows[0]) then [DataRow(rows[0])] + Written(f, rows[1..])
    else [ErrorResponse]
  }

  predicate AllEncodable<R>(f: Format<R>, rows: seq<R>) {
    f.columns ==> forall i :: 0 <= i < |rows| ==> f.encodable(rows[i])
  }

  datatype Executed<+R> = Executed(entry: Entry<R>, rows: seq<R>, out: seq<Out<R>>)

  /** The messages that answer a drain; `returned` counts its rows too. */
  function Answer<R>(f: Format<R>, d: Drained<R>, returned: nat): seq<Out<R>> {
    if d.raised then [ErrorResponse]
    else if !AllEncodable(f, d.rows) then Written(f, d.rows)
    else Written(f, d.rows) + [if d.suspended then PortalSuspended else CommandComplete(returned)]
  }

  function Execute<R>(f: Format<R>, e: Entry<R>, c: Call): Executed<R> {
    if e.starts == 0 && !c.starts then Executed(e, [], [ErrorResponse])
    else
      var d := Drain(e.source, c.limit);
      var returned := e.returned + |d.rows|;
      Executed(Entry(d.rest, if e.starts == 0 then 1 else e.starts, returned), d.rows, Answer(f, d, returned))
  }

  /** A whole run on one portal: the rows handed over, and everything written. */
  datatype Run<+R> = Run(entry: Entry<R>, rows: seq<R>, out: seq<Out<R>>)

  function RunAll<R>(f: Format<R>, s: Source<R>, calls: seq<Call>): Run<R> {
    if calls == [] then Run(Entry(s, 0, 0), [], [])
    else
      var before := RunAll(f, s, calls[..|calls| - 1]);
      var x := Execute(f, before.entry, calls[|calls| - 1]);
      Run(x.entry, before.rows + x.rows, before.out + x.out)
  }

  // ---- The source's loops and objects ----

  class RowIterator<R> {
    var rows: seq<R>
    var raises: bool

    constructor (s: Source<R>)
      ensures View() == s
    {
      rows, raises := s.rows, s.raises;
    }

    ghost function View(): Source<R>
      reads this
    {
      Source(rows, raises)
    }

    /** None is the end of the source; `raised` is an exception of its own. */
    method Next() returns (row: Option<R>, raised: bool)
      modifies this
      ensures row.Some? <==> old(rows) != []
      ensures row.Some? ==> row.value == old(rows)[0] && View() == Source(old(rows)[1..], old(raises)) && !raised
      ensures row.None? ==> View() == Source([], false) && raised == old(raises)
    {
      if rows != [] {
        row, raised, rows := Some(rows[0]), false, rows[1..];
      } else {
        row, raised, raises := None, raises, false;
      }
    }
  }

  method DrainRows<R>(source: RowIterator<R>, limit: int) returns (rows: seq<R>, suspended: bool, raised: bool)
    modifies source
    ensures Drained(rows, suspended, raised, source.View()) == Drain(old(source.View()), limit)
  {
    rows := [];
    var count := 0;
    suspended, raised := false, false;
    ghost var all := source.rows;
    while limit <= 0 || count < limit
      invariant count == |rows| <= |all|
      invariant limit > 0 ==> count <= limit
      invariant rows == all[..count] && source.View() == Source(all[count..], old(source.raises))
      decreases |source.rows|
    {
      var row, failed := source.Next();
      if row.None? {
        if failed {
          return [], false, true;
        }
        return rows, false, false;
      }
      rows := rows + [row.value];
      count := count + 1;
    }
    suspended := limit > 0;
  }

  /** CallbackPortal and StaticPortal: the source is made by the first execute and kept. */
  class Portal<R> {
    const script: Source<R>
    var source: RowIterator?<R>
    ghost var starts: nat

    ghost predicate Valid()
      reads this
    {
      starts == if source == null then 0 else 1
    }

    ghost function Left(): Source<R>
      reads this, source
    {
      if source == null then script else source.View()
    }

    constructor (s: Source<R>)
      ensures Valid() && Left() == s && starts == 0 && source == null
    {
      script, source, starts := s, null, 0;
    }

    method Run(call: Call) returns (rows: seq<R>, suspended: bool, raised: bool)
      requires Valid()
      modifies this, source
      ensures Valid() && (source == old(source) || fresh(source))
      ensures if old(starts) == 0 && !call.starts then
                raised && rows == [] && Left() == old(Left()) && starts == 0
              else
                && Drained(rows, suspended, raised, Left()) == Drain(old(Left()), call.limit)
                && starts == 1
    {
      if source == null {
        if !call.starts {
          return [], false, true;
        }
        source := new RowIterator(script);
        starts := starts + 1;
      }
      rows, suspended, raised := DrainRows(source, call.limit);
    }
  }

  class PortalEntry<R> {
    const portal: Portal<R>
    const format: Format<R>
    var returned: nat

    ghost function View(): Entry<R>
      reads this, portal, portal.source
    {
      Entry(portal.Left(), portal.starts, returned)
    }

    constructor (s: Source<R>, f: Format<R>)
      ensures portal.Valid() && View() == Entry(s, 0, 0) && format == f && fresh(portal) && portal.source == null
    {
      var p := new Portal(s);
      portal, format, returned := p, f, 0;
    }

    /** The messages one Execute writes. */
    method HandleExecute(call: Call) returns (out: seq<Out<R>>)
      requires portal.Valid()
      modifies this, portal, portal.source
      ensures portal.Valid() && (portal.source == old(portal.source) || fresh(portal.source))
      ensures View() == Execute(format, old(View()), call).entry
      ensures out == Execute(format, old(View()), call).out
    {
      var rows, suspended, raised := portal.Run(call);
      if raised {
        return [ErrorResponse];
      }
      returned := returned + |rows|;
      var ok;
      out, ok := WriteRows(format, rows);
      if ok {
        out := out + [if suspended then PortalSuspended else CommandComplete(returned)];
      }
    }
  }

  method WriteRows<R>(f: Format<R>, rows: seq<R>) returns (out: seq<Out<R>>, ok: bool)
    ensures out == Written(f, rows) && ok == AllEncodable(f, rows)
  {
    out := [];
    if f.columns {
      var i := 0;
      while i < |rows|
        invariant i <= |rows|
        invariant out + Written(f, rows[i..]) == Written(f, rows)
        invariant AllEncodable(f, rows[..i])
      {
        assert rows[i..][1..] == rows[i + 1..];
        if !f.encodable(rows[i]) {
          return out + [ErrorResponse], false;
        }
        assert out + ([DataRow(rows[i])] + Written(f, rows[i + 1..])) == out + [DataRow(rows[i])] + Written(f, rows[i + 1..]);
        out := out + [DataRow(rows[i])];
        i := i + 1;
      }
      assert rows[..i] == rows;
    }
    ok := true;
  }

  // ---- Every run ----

  function DataRows<R>(out: seq<Out<R>>): seq<R> {
    if out == [] then []
    else DataRows(out[..|out| - 1]) + if out[|out| - 1].DataRow? then [out[|out| - 1].row] else []
  }

  lemma {:induction false} DataRowsAppend<R>(a: seq<Out<R>>, b: seq<Out<R>>)
    ensures DataRows(a + b) == DataRows(a) + DataRows(b)
    decreases |b|
  {
    if b == [] {
      assert a + b == a;
    } else {
      assert (a + b)[..|a + b| - 1] == a + b[..|b| - 1];
      DataRowsAppend(a, b[..|b| - 1]);
    }
  }

  /** What has been handed over is a prefix of the source, and what is left is the rest of it until
      the source has raised; it was started at most once, and the count is of the rows handed over. */
  ghost predicate Drawn<R>(s: Source<R>, r: Run<R>) {
    && r.rows <= s.rows
    && r.entry.returned == |r.rows|
    && r.entry.starts <= 1
    && (r.entry.starts == 0 ==> r.rows == [] && r.entry.source == s)
    && (r.entry.source == Source(s.rows[|r.rows|..], s.raises) || r.entry.source == Source([], false))
    && (!s.raises ==> r.rows + r.entry.source.rows == s.rows)
  }

  lemma {:induction false} RowsArePrefix<R>(f: Format<R>, s: Source<R>, calls: seq<Call>)
    ensures Drawn(s, RunAll(f, s, calls))
    decreases |calls|
  {
    if calls != [] {
      var before := RunAll(f, s, calls[..|calls| - 1]);
      RowsArePrefix(f, s, calls[..|calls| - 1]);
      DrawnStep(f, s, before, calls[|calls| - 1]);
    }
  }

  lemma DrawnStep<R>(f: Format<R>, s: Source<R>, before: Run<R>, c: Call)
    requires Drawn(s, before)
    ensures var x := Execute(f, before.entry, c);
            Drawn(s, Run(x.entry, before.rows + x.rows, before.out + x.out))
  {
    if before.entry.starts != 0 || c.starts {
      DrainStep(s, before.rows, before.entry.source, c.limit);
    } else {
      assert before.rows + [] == before.rows;
    }
  }

  lemma DrainStep<R>(s: Source<R>, done: seq<R>, left: Source<R>, limit: int)
    requires done <= s.rows
    requires left == Source(s.rows[|done|..], s.raises) || left == Source([], false)
    requires !s.raises ==> done + left.rows == s.rows
    ensures var d := Drain(left, limit);
            && done + d.rows <= s.rows
            && (d.rest == Source(s.rows[|done + d.rows|..], s.raises) || d.rest == Source([], false))
            && (!s.raises ==> done + d.rows + d.rest.rows == s.rows)
  {
    assert done + s.rows[|done|..] == s.rows;
  }

  /** What a list of calls leaves of a source's rows, told from the limits alone: how many rows, whether
      the source was started, and whether a call came to its end, which is then the number left at that
      call. */
  datatype Tally = Tally(left: nat, started: bool, ended: bool)

  function Tallied(n: nat, calls: seq<Call>): (t: Tally)
    ensures t.left <= n
    decreases |calls|
  {
    if calls == [] then Tally(n, false, false)
    else
      var t := Tallied(n, calls[..|calls| - 1]);
      var c := calls[|calls| - 1];
      if t.ended || (!t.started && !c.starts) then t
      else if 0 < c.limit <= t.left then Tally(t.left - c.limit, true, false)
      else t.(started := true, ended := true)
  }

  /** The run as the tally tells it. */
  ghost predicate Told<R>(s: Source<R>, r: Run<R>, t: Tally)
    requires t.left <= |s.rows|
  {
    var given := |s.rows| - t.left;
    && r.entry.starts == (if t.started then 1 else 0)
    && (t.ended ==> t.started)
    && r.entry.source == (if t.ended then Source([], false) else Source(s.rows[given..], s.raises))
    && r.rows == (if t.ended && !s.raises then s.rows else s.rows[..given])
    && r.entry.returned == |r.rows|
  }

  lemma {:induction false} TallyTells<R>(f: Format<R>, s: Source<R>, calls: seq<Call>)
    ensures Told(s, RunAll(f, s, calls), Tallied(|s.rows|, calls))
    decreases |calls|
  {
    if calls != [] {
      var front := calls[..|calls| - 1];
      TallyTells(f, s, front);
      ToldStep(f, s, RunAll(f, s, front), Tallied(|s.rows|, front), calls[|calls| - 1]);
    }
  }

  lemma ToldStep<R>(f: Format<R>, s: Source<R>, before: Run<R>, t: Tally, c: Call)
    requires t.left <= |s.rows| && Told(s, before, t)
    ensures var x := Execute(f, before.entry, c);
            var after := Run(x.entry, before.rows + x.rows, before.out + x.out);
            Told(s, after, if t.ended || (!t.started && !c.starts) then t
                           else if 0 < c.limit <= t.left then Tally(t.left - c.limit, true, false)
                           else t.(started := true, ended := true))
  {
    var given := |s.rows| - t.left;
    if !t.started && !c.starts {
      assert before.rows + [] == before.rows;
    } else if t.ended {
      assert before.rows + [] == before.rows;
    } else if 0 < c.limit <= t.left {
      assert s.rows[given..][c.limit..] == s.rows[given + c.limit..];
      assert s.rows[..given] + s.rows[given..][..c.limit] == s.rows[..given + c.limit];
    } else {
      assert s.rows[..given] + s.rows[given..] == s.rows;
      assert s.rows[..given] + [] == s.rows[..given];
    }
  }

  /** Suspension exactly when a positive limit is reached; an error when the call comes to the end of a
      source that raises there; and otherwise completion, with the length of the source as the count,
      less the rows that were left when it raised. */
  ghost predicate Reports<R>(f: Format<R>, s: Source<R>, t: Tally, c: Call, x: Executed<R>)
    requires t.left <= |s.rows|
  {
    var runs := t.started || c.starts;
    var stops := !t.ended && 0 < c.limit <= t.left;
    var raises := !t.ended && !stops && s.raises;
    var count := if s.raises then |s.rows| - t.left else |s.rows|;
    && (PortalSuspended in x.out <==> runs && stops && AllEncodable(f, x.rows))
    && (forall n :: CommandComplete(n) in x.out <==>
                    runs && !stops && !raises && AllEncodable(f, x.rows) && n == count)
    && (runs && raises ==> x.out == [ErrorResponse])
  }

  /** What an Execute reports after any run on any source. */
  lemma SuspensionAndCompletion<R>(f: Format<R>, s: Source<R>, calls: seq<Call>, c: Call)
    ensures Reports(f, s, Tallied(|s.rows|, calls), c, Execute(f, RunAll(f, s, calls).entry, c))
  {
    TallyTells(f, s, calls);
    ExecuteReports(f, s, RunAll(f, s, calls), Tallied(|s.rows|, calls), c);
  }

  lemma ExecuteReports<R>(f: Format<R>, s: Source<R>, r: Run<R>, t: Tally, c: Call)
    requires t.left <= |s.rows| && Told(s, r, t)
    ensures Reports(f, s, t, c, Execute(f, r.entry, c))
  {
    if t.started || c.starts {
      var d := Drain(r.entry.source, c.limit);
      AnswerSays(f, d, r.entry.returned + |d.rows|);
      DrainedByTally(s, r, t, c.limit);
    }
  }

  lemma DrainedByTally<R>(s: Source<R>, r: Run<R>, t: Tally, limit: int)
    requires t.left <= |s.rows| && Told(s, r, t)
    ensures var d := Drain(r.entry.source, limit);
            var stops := !t.ended && 0 < limit <= t.left;
            && (d.suspended <==> stops) && (d.raised <==> !t.ended && !stops && s.raises)
            && (!d.suspended && !d.raised ==>
                  r.entry.returned + |d.rows| == if s.raises then |s.rows| - t.left else |s.rows|)
  {
  }

  /** A completion reports the length of the source if and only if the source does not raise or the call
      that came to its end found no rows left; the rows it misses are the ones left then, and they were
      never handed over. */
  lemma CompletionCount<R>(f: Format<R>, s: Source<R>, calls: seq<Call>, c: Call, n: nat)
    requires CommandComplete(n) in Execute(f, RunAll(f, s, calls).entry, c).out
    ensures var t := Tallied(|s.rows|, calls);
            && (n == |s.rows| <==> !s.raises || t.left == 0)
            && (s.raises ==> t.ended && n == |s.rows| - t.left && RunAll(f, s, calls).rows == s.rows[..n])
  {
    SuspensionAndCompletion(f, s, calls, c);
    TallyTells(f, s, calls);
  }

  lemma AnswerSays<R>(f: Format<R>, d: Drained<R>, returned: nat)
    ensures PortalSuspended in Answer(f, d, returned) <==> !d.raised && AllEncodable(f, d.rows) && d.suspended
    ensures forall n :: CommandComplete(n) in Answer(f, d, returned) <==>
                        !d.raised && AllEncodable(f, d.rows) && !d.suspended && n == returned
  {
    WrittenOnlyRows(f, d.rows);
  }

  lemma {:induction false} WrittenOnlyRows<R>(f: Format<R>, rows: seq<R>)
    ensures PortalSuspended !in Written(f, rows)
    ensures forall n :: CommandComplete(n) !in Written(f, rows)
  {
    if f.columns && rows != [] {
      WrittenOnlyRows(f, rows[1..]);
    }
  }

  /** Rows that were all put on the wire. */
  predicate Sendable<R>(f: Format<R>, rows: seq<R>) {
    |rows| == 0 || (f.columns && forall i :: 0 <= i < |rows| ==> f.encodable(rows[i]))
  }

  lemma {:induction false} WrittenRows<R>(f: Format<R>, rows: seq<R>)
    ensures DataRows(Written(f, rows)) <= rows
    ensures |DataRows(Written(f, rows))| == |rows| <==> Sendable(f, rows)
  {
    if f.columns && rows != [] {
      WrittenRows(f, rows[1..]);
      if f.encodable(rows[0]) {
        DataRowsAppend([DataRow(rows[0])], Written(f, rows[1..]));
        assert DataRows([DataRow(rows[0])]) == [rows[0]];
        assert rows == [rows[0]] + rows[1..];
      } else {
        assert DataRows<R>([ErrorResponse]) == [];
      }
    }
  }

  /** The rows one Execute puts on the wire. */
  lemma ExecuteWrites<R>(f: Format<R>, e: Entry<R>, c: Call)
    ensures var x := Execute(f, e, c);
            && DataRows(x.out) <= x.rows
            && (|DataRows(x.out)| == |x.rows| <==> Sendable(f, x.rows))
  {
    assert DataRows<R>([ErrorResponse]) == [];
    var d := Drain(e.source, c.limit);
    AnswerWrites(f, d, e.returned + |d.rows|);
  }

  lemma AnswerWrites<R>(f: Format<R>, d: Drained<R>, returned: nat)
    requires d.raised ==> d.rows == []
    ensures DataRows(Answer(f, d, returned)) <= d.rows
    ensures |DataRows(Answer(f, d, returned))| == |d.rows| <==> Sendable(f, d.rows)
  {
    WrittenRows(f, d.rows);
    if d.raised {
      assert DataRows<R>([ErrorResponse]) == [];
    } else if AllEncodable(f, d.rows) {
      var last: Out<R> := if d.suspended then PortalSuspended else CommandComplete(returned);
      DataRowsAppend(Written(f, d.rows), [last]);
      assert DataRows([last]) == [];
    }
  }

  /** The count a completion reports is the number of DataRows the client was sent if and only if every
      row handed over could be sent; then the DataRows are those rows, in order. */
  lemma {:induction false} CountMatchesTheWire<R>(f: Format<R>, s: Source<R>, calls: seq<Call>)
    ensures var r := RunAll(f, s, calls);
            && |DataRows(r.out)| <= r.entry.returned
            && (|DataRows(r.out)| == r.entry.returned <==> Sendable(f, r.rows))
            && (Sendable(f, r.rows) ==> DataRows(r.out) == r.rows)
    decreases |calls|
  {
    RowsArePrefix(f, s, calls);
    if calls != [] {
      var front := calls[..|calls| - 1];
      var before := RunAll(f, s, front);
      var x := Execute(f, before.entry, calls[|calls| - 1]);
      CountMatchesTheWire(f, s, front);
      RowsArePrefix(f, s, front);
      ExecuteWrites(f, before.entry, calls[|calls| - 1]);
      DataRowsAppend(before.out, x.out);
      SendableAppend(f, before.rows, x.rows);
    }
  }

  lemma SendableAppend<R>(f: Format<R>, a: seq<R>, b: seq<R>)
    ensures Sendable(f, a + b) <==> Sendable(f, a) && Sendable(f, b)
  {
    if Sendable(f, a + b) {
      assert forall i :: 0 <= i < |a| ==> (a + b)[i] == a[i];
      assert forall i :: 0 <= i < |b| ==> (a + b)[|a| + i] == b[i];
    }
  }

  // ---- The order of an Execute's messages ----

  /** The first `n` rows as DataRows, in order, and one message of another kind behind them: the error of
      the row that cannot be encoded when there is one, and otherwise what the drain came to. */
  ghost predicate RowsThenEnd<R>(f: Format<R>, rows: seq<R>, out: seq<Out<R>>, n: nat, end: Out<R>) {
    && |out| == n + 1 && n <= |rows|
    && (forall i :: 0 <= i < n ==> out[i] == DataRow(rows[i]) && f.columns && f.encodable(rows[i]))
    && out[n] == (if f.columns && n < |rows| then ErrorResponse else end)
    && (f.columns && n < |rows| ==> !f.encodable(rows[n]))
  }

  lemma {:induction false} WrittenInOrder<R>(f: Format<R>, rows: seq<R>, end: Out<R>) returns (n: nat)
    ensures var w := Written(f, rows);
            && RowsThenEnd(f, rows, if AllEncodable(f, rows) then w + [end] else w, n, end)
            && (AllEncodable(f, rows) && f.columns ==> n == |rows|)
  {
    n := 0;
    if f.columns && rows != [] {
      assert AllEncodable(f, rows) <==> f.encodable(rows[0]) && AllEncodable(f, rows[1..]) by {
        assert forall i :: 0 < i < |rows| ==> rows[i] == rows[1..][i - 1];
      }
      if f.encodable(rows[0]) {
        n := WrittenInOrder(f, rows[1..], end);
        n := n + 1;
      }
    }
  }

  /** What an Execute ends with when every row it takes can be sent. */
  function End<R>(e: Entry<R>, c: Call): Out<R> {
    var runs := e.starts != 0 || c.starts;
    var stops := 0 < c.limit <= |e.source.rows|;
    if !runs || (!stops && e.source.raises) then ErrorResponse
    else if stops then PortalSuspended
    else CommandComplete(e.returned + |e.source.rows|)
  }

  /** An Execute writes the rows it takes, in order, up to the first that cannot be encoded, and then
      exactly one message that is not a DataRow. */
  lemma ExecuteWritesInOrder<R>(f: Format<R>, e: Entry<R>, c: Call) returns (n: nat)
    ensures var x := Execute(f, e, c);
            && RowsThenEnd(f, x.rows, x.out, n, End(e, c)) && !x.out[n].DataRow?
            && (f.columns && x.out[n] != ErrorResponse ==> n == |x.rows|)
  {
    n := 0;
    if e.starts != 0 || c.starts {
      var d := Drain(e.source, c.limit);
      if !d.raised {
        n := WrittenInOrder(f, d.rows, End(e, c));
      }
    }
  }

  /** How many messages are not DataRows. */
  function Ends<R>(out: seq<Out<R>>): nat {
    if out == [] then 0 else Ends(out[..|out| - 1]) + if out[|out| - 1].DataRow? then 0 else 1
  }

  lemma {:induction false} EndsAppend<R>(a: seq<Out<R>>, b: seq<Out<R>>)
    ensures Ends(a + b) == Ends(a) + Ends(b)
    decreases |b|
  {
    if b == [] {
      assert a + b == a;
    } else {
      assert (a + b)[..|a + b| - 1] == a + b[..|b| - 1];
      EndsAppend(a, b[..|b| - 1]);
    }
  }

  lemma {:induction false} OnlyRows<R>(out: seq<Out<R>>)
    requires forall i :: 0 <= i < |out| ==> out[i].DataRow?
    ensures Ends(out) == 0
  {
    if out != [] {
      OnlyRows(out[..|out| - 1]);
    }
  }

  /** Over a run each Execute writes one message that is not a DataRow, and the run ends with one: no
      DataRow comes after the message that ends its Execute and before the next Execute. */
  lemma {:induction false} OneEndEach<R>(f: Format<R>, s: Source<R>, calls: seq<Call>)
    ensures var out := RunAll(f, s, calls).out;
            Ends(out) == |calls| && (calls != [] ==> out != [] && !out[|out| - 1].DataRow?)
    decreases |calls|
  {
    if calls != [] {
      var front := calls[..|calls| - 1];
      var before := RunAll(f, s, front);
      var x := Execute(f, before.entry, calls[|calls| - 1]);
      OneEndEach(f, s, front);
      ExecuteEnds(f, before.entry, calls[|calls| - 1]);
      EndsAppend(before.out, x.out);
      LastOf(before.out, x.out);
    }
  }

  lemma ExecuteEnds<R>(f: Format<R>, e: Entry<R>, c: Call)
    ensures var out := Execute(f, e, c).out; out != [] && !out[|out| - 1].DataRow? && Ends(out) == 1
  {
    var n := ExecuteWritesInOrder(f, e, c);
    var out := Execute(f, e, c).out;
    OnlyRows(out[..n]);
    assert out[..|out| - 1] == out[..n];
  }

  lemma LastOf<T>(a: seq<T>, b: seq<T>)
    requires b != []
    ensures (a + b)[|a + b| - 1] == b[|b| - 1]
  {
  }

  /** A source that raises takes the rows of that call with it, and the next Execute reports completion
      with the count of what came before: here two rows are lost and the count is zero. */
  lemma RaisingLosesRows(f: Format<int>)
    ensures RunAll(f, Source([1, 2], true), [Call(0, true), Call(0, true)]).out == [ErrorResponse, CommandComplete(0)]
  {
    var s := Source([1, 2], true);
    var one := [Call(0, true)];
    assert one[..0] == [];
    assert RunAll(f, s, one) == Run(Entry(Source([], false), 1, 0), [], [ErrorResponse]);
    assert (one + one)[..1] == one && one + one == [Call(0, true), Call(0, true)];
  }

  /** A row that cannot be encoded is counted and not sent: one DataRow, an error, and a count of two. */
  lemma UnencodableIsCounted(f: Format<int>)
    requires f.columns && f.encodable(1) && !f.encodable(2)
    ensures RunAll(f, Source([1, 2], false), [Call(2, true), Call(0, true)]).out ==
            [DataRow(1), ErrorResponse, CommandComplete(2)]
  {
    var s := Source([1, 2], false);
    var one, two := [Call(2, true)], [Call(2, true), Call(0, true)];
    assert one[..0] == [] && two[..1] == one;
    assert [1, 2][..2] == [1, 2] && [1, 2][1..] == [2] && [1, 2][2..] == [];
    assert Written(f, [2]) == [ErrorResponse];
    assert Written(f, [1, 2]) == [DataRow(1), ErrorResponse];
    assert !AllEncodable(f, [1, 2]) by { assert !f.encodable([1, 2][1]); }
    assert RunAll(f, s, one) == Run(Entry(Source([], false), 1, 2), [1, 2], [DataRow(1), ErrorResponse]);
  }
}
