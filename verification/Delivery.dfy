/** Where asynchronous messages land in a connection's output, and that none is lost. */
module Delivery {
  import opened Prelude
  import opened TransactionLog
  import opened ServerModel

  // ---- Fanout, seen from one connection ----

  function DeliverAll(c: Conn, batch: seq<Async>): Conn {
    if c.ready then c.(out := c.out + Pushes(batch), handed := c.handed + batch)
    else c.(queue := c.queue + batch, handed := c.handed + batch)
  }

  /** The notifications of a fanout that reach connection `q`: those on the channels it is
      registered for, in order. */
  function BatchFor(r: Registry, q: nat, notes: seq<Note>, pid: nat): seq<Async> {
    if notes == [] then []
    else
      var last := notes[|notes| - 1];
      BatchFor(r, q, notes[..|notes| - 1], pid) +
      if q in Subscribers(r, last.channel) then [Notification(pid, last)] else []
  }

  lemma {:induction false} FanoutReaches(w: World, notes: seq<Note>, pid: nat, q: nat)
    requires q in w.conns
    ensures q in FanoutAll(w, notes, pid).conns
    ensures FanoutAll(w, notes, pid).conns[q] == DeliverAll(w.conns[q], BatchFor(w.registry, q, notes, pid))
    ensures FanoutAll(w, notes, pid).registry == w.registry
    decreases |notes|
  {
    var c := w.conns[q];
    if notes == [] {
      assert c.out + Pushes([]) == c.out && c.handed + [] == c.handed && c.queue + [] == c.queue;
    } else {
      var front := notes[..|notes| - 1];
      var note := notes[|notes| - 1];
      FanoutReaches(w, front, pid, q);
      var batch := BatchFor(w.registry, q, front, pid);
      if q in Subscribers(w.registry, note.channel) {
        DeliverOneMore(c, batch, Notification(pid, note));
      } else {
        assert batch + [] == batch;
      }
    }
  }

  lemma DeliverOneMore(c: Conn, batch: seq<Async>, a: Async)
    ensures Deliver(DeliverAll(c, batch), a) == DeliverAll(c, batch + [a])
  {
    assert Pushes(batch + [a]) == Pushes(batch) + [Pushed(a)];
    assert c.out + Pushes(batch) + [Pushed(a)] == c.out + (Pushes(batch) + [Pushed(a)]);
    assert c.queue + batch + [a] == c.queue + (batch + [a]);
    assert c.handed + batch + [a] == c.handed + (batch + [a]);
  }

  /** A settled effect changes every other connection only by what the fanout hands it, and the
      acting one by its own update, that same fanout, and its registrations. */
  lemma SettleReaches(w: World, pid: nat, e: Effect, q: nat)
    requires pid in w.conns && q in w.conns
    ensures q in Settle(w, pid, e).conns
    ensures var batch := BatchFor(w.registry, q, e.notes, pid);
            Settle(w, pid, e).conns[q] ==
            if q != pid then DeliverAll(w.conns[q], batch)
            else if e.register.None? then DeliverAll(e.conn, batch)
            else DeliverAll(e.conn, batch).(registered := e.register.value)
  {
    var w1 := w.(conns := w.conns[pid := e.conn]);
    FanoutReaches(w1, e.notes, pid, q);
    FanoutReaches(w1, e.notes, pid, pid);
  }

  // ---- Placement ----

  /** Position i comes after a ReadyForQuery with nothing but pushed messages in between. */
  ghost predicate FollowsReady(out: seq<Out>, i: nat)
    requires i <= |out|
  {
    exists j :: 0 <= j < i && out[j].ReadyForQuery? && AllPushed(out, j + 1, i)
  }

  /** Position i comes before a ReadyForQuery with nothing but pushed messages in between. */
  ghost predicate PrecedesReady(out: seq<Out>, i: nat)
    requires i < |out|
  {
    exists j :: i < j < |out| && out[j].ReadyForQuery? && AllPushed(out, i + 1, j)
  }

  predicate AllPushed(out: seq<Out>, from: nat, to: nat)
    requires from <= to <= |out|
  {
    forall k :: from <= k < to ==> out[k].Pushed?
  }

  /** Position i comes after the report of a broken byte stream that came at a ReadyForQuery, with
      nothing but pushed messages in between. */
  ghost predicate AfterFatal(out: seq<Out>, i: nat)
    requires i <= |out|
  {
    exists j :: 0 <= j < i && out[j].FatalError? && AllPushed(out, j + 1, i) && FollowsReady(out, j)
  }

  /** Where a pushed message may be written at once. */
  ghost predicate Standing(out: seq<Out>, i: nat)
    requires i <= |out|
  {
    FollowsReady(out, i) || AfterFatal(out, i)
  }

  ghost predicate Placed(out: seq<Out>) {
    forall i :: 0 <= i < |out| && out[i].Pushed? ==> Standing(out, i) || PrecedesReady(out, i)
  }

  /** The same, resting on nothing before the messages themselves. */
  ghost predicate PlacedAlone(out: seq<Out>) {
    forall i :: 0 <= i < |out| && out[i].Pushed? ==> FollowsReady(out, i) || PrecedesReady(out, i)
  }

  predicate NoFatal(out: seq<Out>) {
    forall i :: 0 <= i < |out| ==> !out[i].FatalError?
  }

  /** Nothing but pushed messages follows the report of a broken byte stream. */
  predicate FatalIsLast(out: seq<Out>) {
    forall j :: 0 <= j < |out| && out[j].FatalError? ==> AllPushed(out, j + 1, |out|)
  }

  lemma PlacedConcat(a: seq<Out>, b: seq<Out>)
    requires Placed(a) && PlacedAlone(b)
    ensures Placed(a + b)
  {
    var s := a + b;
    forall i | 0 <= i < |s| && s[i].Pushed?
      ensures Standing(s, i) || PrecedesReady(s, i)
    {
      if i < |a| {
        PlacedInFront(a, b, i);
      } else {
        PlacedBehind(a, b, i - |a|);
      }
    }
  }

  lemma FollowsInFront(a: seq<Out>, b: seq<Out>, i: nat)
    requires i <= |a| && FollowsReady(a, i)
    ensures FollowsReady(a + b, i)
  {
    var j :| 0 <= j < i && a[j].ReadyForQuery? && AllPushed(a, j + 1, i);
    assert (a + b)[j].ReadyForQuery? && AllPushed(a + b, j + 1, i);
  }

  lemma StandsInFront(a: seq<Out>, b: seq<Out>, i: nat)
    requires i <= |a| && Standing(a, i)
    ensures Standing(a + b, i)
  {
    if FollowsReady(a, i) {
      FollowsInFront(a, b, i);
    } else {
      var j :| 0 <= j < i && a[j].FatalError? && AllPushed(a, j + 1, i) && FollowsReady(a, j);
      FollowsInFront(a, b, j);
      assert (a + b)[j].FatalError? && AllPushed(a + b, j + 1, i);
    }
  }

  lemma PlacedInFront(a: seq<Out>, b: seq<Out>, i: nat)
    requires i < |a| && (Standing(a, i) || PrecedesReady(a, i))
    ensures Standing(a + b, i) || PrecedesReady(a + b, i)
  {
    var s := a + b;
    if Standing(a, i) {
      StandsInFront(a, b, i);
    } else {
      var j :| i < j < |a| && a[j].ReadyForQuery? && AllPushed(a, i + 1, j);
      assert s[j].ReadyForQuery? && AllPushed(s, i + 1, j);
    }
  }

  lemma PlacedBehind(a: seq<Out>, b: seq<Out>, i: nat)
    requires i < |b| && (FollowsReady(b, i) || PrecedesReady(b, i))
    ensures FollowsReady(a + b, |a| + i) || PrecedesReady(a + b, |a| + i)
  {
    var s := a + b;
    var n := |a|;
    assert forall k :: 0 <= k < |b| ==> s[n + k] == b[k];
    if FollowsReady(b, i) {
      var j :| 0 <= j < i && b[j].ReadyForQuery? && AllPushed(b, j + 1, i);
      assert AllPushed(s, n + j + 1, n + i) by {
        assert forall k :: n + j + 1 <= k < n + i ==> s[k] == b[k - n];
      }
      assert s[n + j].ReadyForQuery?;
    } else {
      var j :| i < j < |b| && b[j].ReadyForQuery? && AllPushed(b, i + 1, j);
      assert AllPushed(s, n + i + 1, n + j) by {
        assert forall k :: n + i + 1 <= k < n + j ==> s[k] == b[k - n];
      }
      assert s[n + j].ReadyForQuery?;
    }
  }

  /** Pushed messages keep the place where they may be written. */
  lemma PushStands(out: seq<Out>, batch: seq<Async>, i: nat)
    requires Standing(out, |out|) && |out| <= i <= |out| + |batch|
    ensures Standing(out + Pushes(batch), i)
  {
    var s := out + Pushes(batch);
    assert forall k :: |out| <= k < |s| ==> s[k].Pushed?;
    if FollowsReady(out, |out|) {
      var j :| 0 <= j < |out| && out[j].ReadyForQuery? && AllPushed(out, j + 1, |out|);
      assert s[j].ReadyForQuery? && AllPushed(s, j + 1, i);
    } else {
      var j :| 0 <= j < |out| && out[j].FatalError? && AllPushed(out, j + 1, |out|) && FollowsReady(out, j);
      FollowsInFront(out, Pushes(batch), j);
      assert s[j].FatalError? && AllPushed(s, j + 1, i);
    }
  }

  lemma PushPlaced(out: seq<Out>, batch: seq<Async>)
    requires Placed(out) && Standing(out, |out|)
    ensures Placed(out + Pushes(batch)) && Standing(out + Pushes(batch), |out| + |batch|)
  {
    var s := out + Pushes(batch);
    PushStands(out, batch, |s|);
    forall i | 0 <= i < |s| && s[i].Pushed?
      ensures Standing(s, i) || PrecedesReady(s, i)
    {
      if i < |out| {
        PlacedInFront(out, Pushes(batch), i);
      } else {
        PushStands(out, batch, i);
      }
    }
  }

  /** The report of a broken byte stream at a ReadyForQuery is a place too. */
  lemma FatalStands(out: seq<Out>)
    requires FollowsReady(out, |out|)
    ensures Standing(out + [FatalError], |out| + 1)
  {
    var s := out + [FatalError];
    FollowsInFront(out, [FatalError], |out|);
    assert s[|out|].FatalError? && AllPushed(s, |out| + 1, |out| + 1);
  }

  /** What the end of a command writes: reports, the queue, and the ReadyForQuery. */
  lemma FlushPlaced(params: seq<Param>, queue: seq<Async>, status: Status)
    ensures PlacedAlone(Flush(params, queue, status)) && NoFatal(Flush(params, queue, status))
  {
    var s := Flush(params, queue, status);
    var last := |s| - 1;
    assert s[last].ReadyForQuery? && forall k :: |params| <= k < last ==> s[k].Pushed?;
    forall i | 0 <= i < |s| && s[i].Pushed?
      ensures PrecedesReady(s, i)
    {
      assert i < last && AllPushed(s, i + 1, last);
    }
  }

  // ---- Nothing lost, and one ReadyForQuery each ----

  function Messages(out: seq<Out>): seq<Async> {
    if out == [] then []
    else
      var last := out[|out| - 1];
      Messages(out[..|out| - 1]) + if last.Pushed? then [last.message] else []
  }

  /** The status each ReadyForQuery carried. */
  function ReadyStatuses(out: seq<Out>): seq<Status> {
    if out == [] then []
    else
      var last := out[|out| - 1];
      ReadyStatuses(out[..|out| - 1]) + if last.ReadyForQuery? then [last.status] else []
  }

  lemma {:induction false} MessagesConcat(a: seq<Out>, b: seq<Out>)
    ensures Messages(a + b) == Messages(a) + Messages(b)
    ensures ReadyStatuses(a + b) == ReadyStatuses(a) + ReadyStatuses(b)
  {
    if b == [] {
      assert a + b == a;
    } else {
      var front := b[..|b| - 1];
      MessagesConcat(a, front);
      assert (a + b)[..|a + b| - 1] == a + front;
    }
  }

  lemma {:induction false} MessagesOfPushes(batch: seq<Async>)
    ensures Messages(Pushes(batch)) == batch && ReadyStatuses(Pushes(batch)) == []
  {
    if batch != [] {
      var front := batch[..|batch| - 1];
      MessagesOfPushes(front);
      assert Pushes(batch)[..|batch| - 1] == Pushes(front);
      assert front + [batch[|batch| - 1]] == batch;
    }
  }

  lemma {:induction false} MessagesOfStatuses(params: seq<Param>)
    ensures Messages(Statuses(params)) == [] && ReadyStatuses(Statuses(params)) == [] && PlacedAlone(Statuses(params))
  {
    if params != [] {
      var front := params[..|params| - 1];
      MessagesOfStatuses(front);
      assert Statuses(params)[..|params| - 1] == Statuses(front);
    }
  }

  predicate Answering(c: Conn) {
    c.busy.Some? && c.busy.value.answers
  }

  /** What holds of every connection at every moment, as far as its output is concerned. */
  ghost predicate Orderly(c: Conn) {
    && Placed(c.out) && FatalIsLast(c.out)
    && (c.ready ==> AtRest(c))
    && (c.doomed <==> !NoFatal(c.out)) && (c.doomed ==> c.busy.None?)
    && c.handed == Messages(c.out) + c.queue
    && Counted(c)
  }

  /** A connection whose ready flag is set: it stands where pushed messages may go, holds none back,
      and its last ReadyForQuery carried the status it has. */
  ghost predicate AtRest(c: Conn) {
    && c.open && c.queue == [] && c.params == [] && c.busy.None? && !c.skipping && Standing(c.out, |c.out|)
    && var statuses := ReadyStatuses(c.out); statuses != [] && statuses[|statuses| - 1] == c.tx
  }

  /** One ReadyForQuery at startup and one for every Query or Sync, less at most the last. */
  predicate Counted(c: Conn) {
    var n := |ReadyStatuses(c.out)|;
    && c.asked <= n <= 1 + c.asked
    && (c.open && !c.doomed ==> n + (if Answering(c) then 1 else 0) == 1 + c.asked)
  }

  /** Messages of a command's own, appended to an output that reports no broken stream. */
  lemma AppendPlain(out: seq<Out>, tail: seq<Out>)
    requires Placed(out) && NoFatal(out) && PlacedAlone(tail) && NoFatal(tail)
    ensures Placed(out + tail) && FatalIsLast(out + tail) && NoFatal(out + tail)
    ensures Messages(out + tail) == Messages(out) + Messages(tail)
    ensures ReadyStatuses(out + tail) == ReadyStatuses(out) + ReadyStatuses(tail)
  {
    PlacedConcat(out, tail);
    MessagesConcat(out, tail);
  }

  /** Pushed messages appended where they may go. */
  lemma AppendPushes(out: seq<Out>, batch: seq<Async>)
    requires Placed(out) && FatalIsLast(out) && Standing(out, |out|)
    ensures var s := out + Pushes(batch);
            && Placed(s) && FatalIsLast(s) && Standing(s, |s|) && (NoFatal(out) <==> NoFatal(s))
            && Messages(s) == Messages(out) + batch && ReadyStatuses(s) == ReadyStatuses(out)
  {
    PushPlaced(out, batch);
    MessagesConcat(out, Pushes(batch));
    MessagesOfPushes(batch);
    FatalStaysLast(out, batch);
  }

  lemma FatalStaysLast(out: seq<Out>, batch: seq<Async>)
    requires FatalIsLast(out)
    ensures FatalIsLast(out + Pushes(batch)) && (NoFatal(out) <==> NoFatal(out + Pushes(batch)))
  {
    var s := out + Pushes(batch);
    forall j | 0 <= j < |s| && s[j].FatalError?
      ensures AllPushed(s, j + 1, |s|)
    {
      assert j < |out| && AllPushed(out, j + 1, |out|);
    }
    assert forall j :: 0 <= j < |out| ==> s[j] == out[j];
  }

  lemma DeliverAllOrderly(c: Conn, batch: seq<Async>)
    requires Orderly(c)
    ensures Orderly(DeliverAll(c, batch))
  {
    if c.ready {
      AppendPushes(c.out, batch);
      assert Messages(c.out) + [] == Messages(c.out);
    } else {
      assert c.handed + batch == Messages(c.out) + (c.queue + batch);
    }
  }

  lemma OneReply(r: Reply)
    ensures PlacedAlone([Replied(r)]) && NoFatal([Replied(r)])
    ensures Messages([Replied(r)]) == [] && ReadyStatuses([Replied(r)]) == []
  {
  }

  lemma WriteOrderly(c: Conn, r: Reply)
    requires Orderly(c) && !c.ready && !c.doomed
    ensures Orderly(WriteReply(c, r))
  {
    OneReply(r);
    AppendPlain(c.out, [Replied(r)]);
  }

  /** The report of a broken stream, appended to an output without one. */
  lemma AppendFatal(out: seq<Out>)
    requires Placed(out) && NoFatal(out)
    ensures var s := out + [FatalError];
            && Placed(s) && FatalIsLast(s) && (Standing(out, |out|) ==> Standing(s, |s|))
            && Messages(s) == Messages(out) && ReadyStatuses(s) == ReadyStatuses(out)
  {
    PlacedConcat(out, [FatalError]);
    MessagesConcat(out, [FatalError]);
    assert Messages([FatalError]) == [] && ReadyStatuses([FatalError]) == [];
    if Standing(out, |out|) {
      FatalStands(out);
    }
  }

  lemma DoomOrderly(c: Conn)
    requires Orderly(c) && !c.doomed
    ensures Orderly(DoomConn(c))
  {
    AppendFatal(c.out);
  }

  function Flush(params: seq<Param>, queue: seq<Async>, status: Status): seq<Out> {
    Statuses(params) + Pushes(queue) + [ReadyForQuery(status)]
  }

  lemma FlushFacts(out: seq<Out>, params: seq<Param>, queue: seq<Async>, status: Status)
    requires Placed(out) && NoFatal(out)
    ensures var s := out + Statuses(params) + Pushes(queue) + [ReadyForQuery(status)];
            && Placed(s) && FatalIsLast(s) && NoFatal(s) && Standing(s, |s|)
            && Messages(s) == Messages(out) + queue && ReadyStatuses(s) == ReadyStatuses(out) + [status]
  {
    var tail := Flush(params, queue, status);
    assert out + Statuses(params) + Pushes(queue) + [ReadyForQuery(status)] == out + tail;
    FlushPlaced(params, queue, status);
    FlushedMessages(params, queue, status);
    AppendPlain(out, tail);
    EndsAtReady(out, tail);
  }

  lemma FinishOrderly(c: Conn)
    requires Orderly(c) && c.open && c.busy.Some?
    ensures Orderly(FinishStep(c))
  {
    if c.busy.value.answers {
      FlushFacts(c.out, c.params, c.queue, c.tx);
      assert c.handed + [] == c.handed;
    }
  }

  lemma EndsAtReady(out: seq<Out>, tail: seq<Out>)
    requires tail != [] && tail[|tail| - 1].ReadyForQuery?
    ensures FollowsReady(out + tail, |out + tail|)
  {
    var s := out + tail;
    assert s[|s| - 1].ReadyForQuery? && AllPushed(s, |s|, |s|);
  }

  lemma FlushedMessages(params: seq<Param>, queue: seq<Async>, status: Status)
    ensures var tail := Flush(params, queue, status);
            Messages(tail) == queue && ReadyStatuses(tail) == [status]
  {
    MessagesOfStatuses(params);
    MessagesOfPushes(queue);
    MessagesConcat(Statuses(params), Pushes(queue));
    MessagesConcat(Statuses(params) + Pushes(queue), [ReadyForQuery(status)]);
    assert Messages([ReadyForQuery(status)]) == [] && ReadyStatuses([ReadyForQuery(status)]) == [status];
  }

  /** Two connections that differ in nothing the output invariant looks at. */
  predicate SameWire(a: Conn, b: Conn) {
    && a.out == b.out && a.ready == b.ready && a.open == b.open && a.queue == b.queue && a.handed == b.handed
    && a.asked == b.asked && a.busy == b.busy && a.skipping == b.skipping && a.doomed == b.doomed
  }

  lemma {:induction false} ReportChangedWire(cfg: Config, c: Conn, before: Settings, order: seq<string>)
    ensures var d := ReportChanged(cfg, c, before, order); d == c.(params := d.params)
    decreases |order|
  {
    if order != [] {
      ReportChangedWire(cfg, c, before, order[..|order| - 1]);
    }
  }

  lemma ReportWire(cfg: Config, c: Conn, key: string)
    ensures Report(cfg, c, key) == c.(params := Report(cfg, c, key).params)
  {
  }

  lemma ApplyOneWire(cfg: Config, c: Conn, a: Assignment, local: bool, hook: Hook)
    ensures var d := ApplySetConfig(cfg, c, a, local, hook).conn;
            d == c.(sess := d.sess, params := d.params, log := c.log.(events := d.log.events))
  {
    if cfg.settable(a.name) && Stored(cfg, a).Ok? {
      var value := Stored(cfg, a).value;
      var c1 := c.(sess := SessionStates.Recorded(c.sess, a.name, value, local),
                   log := LogRecord(c.log, Write(a.name, value, local)));
      var c2 := Report(cfg, c1, a.name);
      ReportWire(cfg, c1, a.name);
      if hook.Refuse? {
        ReportWire(cfg, c2.(sess := SessionStates.Undone(c2.sess, a.name, local, SessionStates.UndoOf(c.sess, a.name)), log := c.log), a.name);
      }
    }
  }

  lemma {:induction false} ApplyAllWire(cfg: Config, c: Conn, assignments: seq<Assignment>, local: bool, hooks: seq<Hook>)
    ensures var d := ApplyAll(cfg, c, assignments, local, hooks).conn;
            d == c.(sess := d.sess, params := d.params, log := c.log.(events := d.log.events))
    decreases |assignments|
  {
    if assignments != [] {
      var first := ApplySetConfig(cfg, c, assignments[0], local, Answer(hooks));
      ApplyOneWire(cfg, c, assignments[0], local, Answer(hooks));
      if first.ok {
        ApplyAllWire(cfg, first.conn, assignments[1..], local, Rest(hooks));
      }
    }
  }

  /** A statement's own effect on the wire is at most one notice of its own. */
  lemma ExecuteWire(cfg: Config, c: Conn, stmt: Stmt, oracle: Oracle)
    ensures var d := Execute(cfg, c, stmt, oracle).conn;
            SameWire(d, c) || SameWire(d, WriteReply(c, OwnNotice))
  {
    match stmt
    case Commit => EndBlockWire(cfg, c, true, oracle.order);
    case Rollback => EndBlockWire(cfg, c, false, oracle.order);
    case RollbackTo(name) => RollbackToWire(cfg, c, name, oracle.order);
    case Set(assignments, local) => SetWire(cfg, c, assignments, local, oracle.hooks);
    case ResetAll => ApplyAllWire(cfg, c, Resets(oracle.order), false, oracle.hooks);
    case DiscardAll => DiscardWire(cfg, c, oracle);
    case _ => PlainWire(cfg, c, stmt, oracle);
  }

  lemma PlainWire(cfg: Config, c: Conn, stmt: Stmt, oracle: Oracle)
    requires !(stmt.Commit? || stmt.Rollback? || stmt.RollbackTo? || stmt.Set? || stmt.ResetAll? || stmt.DiscardAll?)
    ensures SameWire(Execute(cfg, c, stmt, oracle).conn, c)
  {
    match stmt
    case Listen(channel) => SubscriptionWire(c, Subscribe(channel));
    case Unlisten(channel) => SubscriptionWire(c, Unsubscribe(channel));
    case UnlistenAll => SubscriptionWire(c, UnsubscribeAll);
    case Notify(note) => NotifyWire(c, note);
    case _ => StackWire(cfg, c, stmt, oracle);
  }

  lemma SubscriptionWire(c: Conn, e: Change)
    ensures SameWire(SubscriptionStatement(c, e).conn, c)
  {
  }

  lemma NotifyWire(c: Conn, note: Note)
    ensures SameWire(NotifyStatement(c, note).conn, c)
  {
  }

  lemma StackWire(cfg: Config, c: Conn, stmt: Stmt, oracle: Oracle)
    requires stmt.Begin? || stmt.Savepoint? || stmt.Release? || stmt.DiscardOther? || stmt.Query?
    ensures SameWire(Execute(cfg, c, stmt, oracle).conn, c)
  {
  }

  lemma DiscardWire(cfg: Config, c: Conn, oracle: Oracle)
    ensures SameWire(DiscardAllStatement(cfg, c, oracle).conn, c)
  {
    ApplyAllWire(cfg, c, Resets(oracle.order), false, Rest(oracle.hooks));
  }

  lemma EndBlockWire(cfg: Config, c: Conn, committed: bool, order: seq<string>)
    ensures SameWire(EndBlock(cfg, c, committed, order).conn, c)
  {
    var cleared := c.sess.(savepoints := []);
    var ended := if committed then SessionStates.CommitTransaction(cleared) else SessionStates.EndTransaction(cleared);
    ReportChangedWire(cfg, c.(tx := Idle, sess := ended), c.sess.core.visible, order);
  }

  lemma RollbackToWire(cfg: Config, c: Conn, name: string, order: seq<string>)
    ensures SameWire(RollbackToStatement(cfg, c, name, order).conn, c)
  {
    var index := LastIndex(c.sess.savepoints, name);
    if !c.tx.Idle? && index >= 0 {
      var kept := c.sess.(savepoints := c.sess.savepoints[..index + 1]);
      var restored := SessionStates.RestoreScope(kept, index + 1);
      ReportChangedWire(cfg, c.(sess := restored, log := LogRollbackTo(c.log, index), tx := InBlock), c.sess.core.visible, order);
    }
  }

  lemma SetWire(cfg: Config, c: Conn, assignments: seq<Assignment>, local: bool, hooks: seq<Hook>)
    ensures var d := SetStatement(cfg, c, assignments, local, hooks).conn;
            SameWire(d, c) || SameWire(d, WriteReply(c, OwnNotice))
  {
    ApplyAllWire(cfg, c, assignments, local, hooks);
  }

  lemma SameWireOrderly(a: Conn, b: Conn)
    requires SameWire(a, b) && Orderly(b) && !b.ready
    ensures Orderly(a)
  {
  }

  lemma FailOrderly(c: Conn)
    requires Orderly(c) && !c.ready && c.open && !c.doomed
    ensures Orderly(FailCommand(c))
  {
    WriteOrderly(c, ErrorResponse);
  }

  lemma ActOrderly(cfg: Config, c: Conn, oracle: Oracle)
    requires Orderly(c) && c.open && c.busy.Some? && c.busy.value.todo != []
    ensures Orderly(ActStep(cfg, c, oracle).conn) && !ActStep(cfg, c, oracle).conn.ready
  {
    var c1 := Pop(c);
    match c.busy.value.todo[0]
    case Emit(reply) => WriteOrderly(c1, reply);
    case Throw => FailOrderly(c1);
    case Run(stmt) =>
      if c.tx.Failed? && !AllowedWhenFailed(stmt) {
        FailOrderly(c1);
      } else {
        var d := Execute(cfg, c1, stmt, oracle).conn;
        ExecuteWire(cfg, c1, stmt, oracle);
        WriteOrderly(c1, OwnNotice);
        SameWireOrderly(d, if SameWire(d, c1) then c1 else WriteReply(c1, OwnNotice));
        FailOrderly(d);
      }
  }

  lemma OwnOrderly(cfg: Config, c: Conn, ev: Event)
    requires Orderly(c) && Enabled(cfg, c, ev)
    ensures Orderly(OwnEffect(cfg, c, ev).conn)
  {
    match ev
    case Receive(m) =>
    case Act(oracle) => ActOrderly(cfg, c, oracle);
    case Finish => FinishOrderly(c);
    case Cancel => FailOrderly(c);
    case Fatal => DoomOrderly(c);
    case Hangup =>
  }

  lemma StartupFacts(cfg: Config, s: Startup)
    ensures var out := StartupMessages(cfg, s);
            Placed(out) && NoFatal(out) && Standing(out, |out|) && Messages(out) == [] && ReadyStatuses(out) == [Idle]
  {
    var params := StartupParams(cfg, s);
    var head := [Replied(AuthenticationOk)];
    var tail := [Replied(BackendKeyData), ReadyForQuery(Idle)];
    MessagesOfStatuses(params);
    MessagesConcat(head, Statuses(params));
    MessagesConcat(head + Statuses(params), tail);
    assert tail[..1] == [Replied(BackendKeyData)];
    assert Messages(head) == [] && ReadyStatuses(head) == [];
    assert Messages(tail) == [] && ReadyStatuses(tail) == [Idle];
    PlacedConcat(head, Statuses(params));
    PlacedConcat(head + Statuses(params), tail);
    EndsAtReady(head + Statuses(params), tail);
  }

  lemma NewConnOrderly(cfg: Config, s: Startup)
    ensures Orderly(NewConn(cfg, s))
  {
    StartupFacts(cfg, s);
  }
}
