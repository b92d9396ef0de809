/** What holds over whole stretches of a run: skipping until Sync, and the failed state. */
module Stretches {
  import opened Prelude
  import opened TransactionLog
  import opened SessionStates
  import opened ServerModel
  import opened Delivery
  import opened Registrations
  import opened Runs
  import Parameters
  import Statements
  import Notifications

  /** The connections a step does not belong to are only handed messages. */
  lemma OthersAreOnlyHanded(cfg: Config, w: World, step: Step, q: nat)
    requires q in w.conns
    requires !(step.Own? && step.pid == q)
    ensures q in Next(cfg, w, step).conns
    ensures exists batch :: Next(cfg, w, step).conns[q] == DeliverAll(w.conns[q], batch)
  {
    var c := w.conns[q];
    assert c == DeliverAll(c, []) by {
      assert c.out + Pushes([]) == c.out && c.queue + [] == c.queue && c.handed + [] == c.handed;
    }
    match step
    case Own(pid, ev) =>
      if pid in w.conns && Enabled(cfg, w.conns[pid], ev) {
        SettleReaches(w, pid, OwnEffect(cfg, w.conns[pid], ev), q);
      }
    case Broadcast(note, source) => OneIsABatch(c, Notification(source, note));
    case Push(pid, a) => OneIsABatch(c, a);
    case Connect(_, _) =>
  }

  lemma OneIsABatch(c: Conn, a: Async)
    ensures Deliver(c, a) == DeliverAll(c, [a])
  {
    assert Pushes([a]) == [Pushed(a)];
  }

  // ---- Skipping ----

  /** Skipping, with no Query or Sync in hand. */
  predicate Deaf(c: Conn) {
    c.open && c.skipping && !c.ready && (c.busy.Some? ==> !c.busy.value.answers && c.busy.value.todo == [])
  }

  /** A step that is not this connection's, or takes it through messages other than Query and Sync; not
      a cancel request, a broken stream or the end. */
  predicate NoSync(step: Step, pid: nat) {
    step.Own? && step.pid == pid ==>
      match step.event
      case Receive(m) => m.Extended? || m.Stray?
      case Act(_) => true
      case Finish => true
      case Cancel => false
      case Fatal => false
      case Hangup => false
  }

  /** Nothing but the queue of pushed messages may differ. */
  predicate OnlyQueued(c: Conn, d: Conn) {
    && c.queue <= d.queue
    && d.out == c.out && d.sess == c.sess && d.tx == c.tx && d.params == c.params && d.log == c.log
    && d.registered == c.registered && d.sent == c.sent && d.asked == c.asked
  }

  lemma DeafStep(cfg: Config, w: World, step: Step, pid: nat)
    requires pid in w.conns && Deaf(w.conns[pid]) && NoSync(step, pid)
    ensures pid in Next(cfg, w, step).conns
    ensures Deaf(Next(cfg, w, step).conns[pid]) && OnlyQueued(w.conns[pid], Next(cfg, w, step).conns[pid])
  {
    var c := w.conns[pid];
    if step.Own? && step.pid == pid {
      if Enabled(cfg, c, step.event) {
        DeafOwn(cfg, c, step.event);
        var e := OwnEffect(cfg, c, step.event);
        SettleReaches(w, pid, e, pid);
        assert BatchFor(w.registry, pid, [], pid) == [];
      }
    } else {
      OthersAreOnlyHanded(cfg, w, step, pid);
    }
  }

  lemma DeafOwn(cfg: Config, c: Conn, ev: ServerModel.Event)
    requires Deaf(c) && Enabled(cfg, c, ev) && NoSync(Own(0, ev), 0)
    ensures var e := OwnEffect(cfg, c, ev);
            e.notes == [] && e.register == None && e.conn == c.(busy := e.conn.busy) && Deaf(e.conn)
  {
  }

  /** From an error to the next Query or Sync a connection writes nothing and nothing of it changes but
      the queue of pushed messages, whatever it is sent and whatever the others do. */
  lemma {:induction false} SilentUntilSync(cfg: Config, steps: seq<Step>, more: seq<Step>, pid: nat)
    requires pid in RunAll(cfg, steps).conns && Deaf(RunAll(cfg, steps).conns[pid])
    requires forall i :: 0 <= i < |more| ==> NoSync(more[i], pid)
    ensures pid in RunAll(cfg, steps + more).conns && Deaf(RunAll(cfg, steps + more).conns[pid])
    ensures OnlyQueued(RunAll(cfg, steps).conns[pid], RunAll(cfg, steps + more).conns[pid])
    decreases |more|
  {
    if more == [] {
      assert steps + more == steps;
    } else {
      var front := more[..|more| - 1];
      SilentUntilSync(cfg, steps, front, pid);
      RunSplit(cfg, steps, more);
      DeafStep(cfg, RunAll(cfg, steps + front), more[|more| - 1], pid);
    }
  }

  /** In such a stretch a step writes to the connection if and only if it is a cancel request that
      catches a message before it is dropped, or a broken stream. */
  lemma SilenceIsBrokenOnlyBy(cfg: Config, w: World, step: Step, pid: nat)
    requires pid in w.conns && Deaf(w.conns[pid])
    ensures pid in Next(cfg, w, step).conns
    ensures Next(cfg, w, step).conns[pid].out != w.conns[pid].out <==>
            step.Own? && step.pid == pid && (step.event.Cancel? || step.event.Fatal?) && Enabled(cfg, w.conns[pid], step.event)
  {
    var c := w.conns[pid];
    if step.Own? && step.pid == pid {
      if Enabled(cfg, c, step.event) {
        var e := OwnEffect(cfg, c, step.event);
        DeafWrites(cfg, c, step.event);
        SettleReaches(w, pid, e, pid);
        assert BatchFor(w.registry, pid, [], pid) == [];
        assert e.conn.out + Pushes([]) == e.conn.out;
      }
    } else {
      OthersAreOnlyHanded(cfg, w, step, pid);
    }
  }

  lemma DeafWrites(cfg: Config, c: Conn, ev: ServerModel.Event)
    requires Deaf(c) && Enabled(cfg, c, ev)
    ensures var e := OwnEffect(cfg, c, ev);
            e.notes == [] && !e.conn.ready && (e.conn.out != c.out <==> ev.Cancel? || ev.Fatal?)
  {
    if ev.Cancel? || ev.Fatal? {
      assert |OwnEffect(cfg, c, ev).conn.out| == |c.out| + 1;
    }
  }

  /** An extended-protocol error, its end, another extended-protocol message, and a cancel request that
      catches it: the connection is skipping and writes a second ErrorResponse. */
  lemma CancelBreaksTheSilence(cfg: Config, s: Startup, o: Oracle)
    ensures var steps := SkippingSteps(o);
            var before := RunAll(cfg, [Connect(0, s)] + steps);
            var after := RunAll(cfg, [Connect(0, s)] + steps + [Own(0, Cancel)]);
            && 0 in before.conns && Deaf(before.conns[0])
            && 0 in after.conns && after.conns[0].out == before.conns[0].out + [Replied(ErrorResponse)]
            && before.conns[0].out == StartupMessages(cfg, s) + [Replied(ErrorResponse)]
  {
    OneConnection(cfg, s);
    var start := [Connect(0, s)];
    var steps := SkippingSteps(o);
    var c := NewConn(cfg, s);
    var c1 := ReceiveMessage(c, Extended([Throw])).conn;
    var c2 := FailCommand(Pop(c1));
    var c3 := FinishStep(c2);
    var c4 := ReceiveMessage(c3, Extended([])).conn;
    OwnAlone(cfg, start, 0, Receive(Extended([Throw])), c, c1);
    OwnAlone(cfg, start + [steps[0]], 0, Act(o), c1, c2);
    OwnAlone(cfg, start + [steps[0]] + [steps[1]], 0, Finish, c2, c3);
    OwnAlone(cfg, start + [steps[0]] + [steps[1]] + [steps[2]], 0, Receive(Extended([])), c3, c4);
    assert start + [steps[0]] + [steps[1]] + [steps[2]] + [steps[3]] == start + steps;
    OwnAlone(cfg, start + steps, 0, Cancel, c4, FailCommand(c4));
  }

  function SkippingSteps(o: Oracle): seq<Step> {
    [Own(0, Receive(Extended([Throw]))), Own(0, Act(o)), Own(0, Finish), Own(0, Receive(Extended([])))]
  }

  /** An effect that fans nothing out and registers nothing is all that happens to the connection. */
  lemma SettledAlone(w: World, pid: nat, e: Effect)
    requires pid in w.conns && e.notes == [] && e.register == None
    ensures pid in Settle(w, pid, e).conns && Settle(w, pid, e).conns[pid] == e.conn
  {
    SettleReaches(w, pid, e, pid);
    assert BatchFor(w.registry, pid, [], pid) == [];
    assert e.conn.out + Pushes([]) == e.conn.out && e.conn.queue + [] == e.conn.queue && e.conn.handed + [] == e.conn.handed;
  }

  /** One own step of a connection with such an effect. */
  lemma OwnAlone(cfg: Config, steps: seq<Step>, pid: nat, ev: ServerModel.Event, c: Conn, d: Conn)
    requires pid in RunAll(cfg, steps).conns && RunAll(cfg, steps).conns[pid] == c
    requires Enabled(cfg, c, ev) && OwnEffect(cfg, c, ev) == Effect(d, [], None, true)
    ensures pid in RunAll(cfg, steps + [Own(pid, ev)]).conns && RunAll(cfg, steps + [Own(pid, ev)]).conns[pid] == d
  {
    var w := RunAll(cfg, steps);
    RunSplit(cfg, steps, [Own(pid, ev)]);
    assert steps + [] == steps && [Own(pid, ev)][..0] == [];
    SettledAlone(w, pid, OwnEffect(cfg, c, ev));
  }

  /** Does this event answer the command in progress with an error? */
  predicate Errs(cfg: Config, c: Conn, ev: ServerModel.Event)
    requires Enabled(cfg, c, ev)
  {
    ev.Cancel? ||
    (ev.Act? &&
     match c.busy.value.todo[0]
     case Throw => true
     case Emit(_) => false
     case Run(stmt) => (c.tx.Failed? && !AllowedWhenFailed(stmt)) || Statements.Fails(cfg, Pop(c), stmt, ev.oracle))
  }

  // ---- What ReadyForQuery says ----

  /** The status of the connection each time it finished a Query or Sync. */
  function StatusesAtFinish(cfg: Config, steps: seq<Step>, pid: nat): seq<Status>
    decreases |steps|
  {
    if steps == [] then []
    else
      var front := steps[..|steps| - 1];
      StatusesAtFinish(cfg, front, pid) + StatusNow(cfg, RunAll(cfg, front), steps[|steps| - 1], pid)
  }

  function StatusNow(cfg: Config, w: World, step: Step, pid: nat): seq<Status> {
    if pid in w.conns && step == Own(pid, Finish) && Enabled(cfg, w.conns[pid], Finish) && Answering(w.conns[pid])
    then [w.conns[pid].tx] else []
  }

  lemma OwnStatuses(cfg: Config, c: Conn, ev: ServerModel.Event)
    requires Orderly(c) && Enabled(cfg, c, ev)
    ensures ReadyStatuses(OwnEffect(cfg, c, ev).conn.out) ==
            ReadyStatuses(c.out) + if ev.Finish? && Answering(c) then [c.tx] else []
  {
    match ev
    case Act(oracle) => ActStatuses(cfg, c, oracle);
    case Finish =>
      if Answering(c) {
        FlushFacts(c.out, c.params, c.queue, c.tx);
      }
    case Cancel => ReplyStatuses(c.out, ErrorResponse);
    case Fatal => AppendFatal(c.out);
    case _ =>
  }

  lemma ReplyStatuses(out: seq<Out>, r: Reply)
    ensures ReadyStatuses(out + [Replied(r)]) == ReadyStatuses(out)
  {
    MessagesConcat(out, [Replied(r)]);
    OneReply(r);
  }

  lemma ActStatuses(cfg: Config, c: Conn, oracle: Oracle)
    requires c.busy.Some? && c.busy.value.todo != []
    ensures ReadyStatuses(ActStep(cfg, c, oracle).conn.out) == ReadyStatuses(c.out)
  {
    var c1 := Pop(c);
    match c.busy.value.todo[0]
    case Emit(reply) => ReplyStatuses(c.out, reply);
    case Throw => ReplyStatuses(c.out, ErrorResponse);
    case Run(stmt) =>
      if c.tx.Failed? && !AllowedWhenFailed(stmt) {
        ReplyStatuses(c.out, ErrorResponse);
      } else {
        ExecuteStatuses(cfg, c1, stmt, oracle);
        ReplyStatuses(Execute(cfg, c1, stmt, oracle).conn.out, ErrorResponse);
      }
  }

  lemma ExecuteStatuses(cfg: Config, c: Conn, stmt: Stmt, oracle: Oracle)
    ensures ReadyStatuses(Execute(cfg, c, stmt, oracle).conn.out) == ReadyStatuses(c.out)
  {
    ExecuteWire(cfg, c, stmt, oracle);
    ReplyStatuses(c.out, OwnNotice);
  }

  lemma PushesStatuses(c: Conn, batch: seq<Async>)
    ensures ReadyStatuses(DeliverAll(c, batch).out) == ReadyStatuses(c.out)
  {
    MessagesConcat(c.out, Pushes(batch));
    MessagesOfPushes(batch);
  }

  lemma StepStatuses(cfg: Config, w: World, step: Step, pid: nat)
    requires pid in w.conns && Orderly(w.conns[pid])
    ensures pid in Next(cfg, w, step).conns
    ensures ReadyStatuses(Next(cfg, w, step).conns[pid].out) ==
            ReadyStatuses(w.conns[pid].out) + StatusNow(cfg, w, step, pid)
  {
    var c := w.conns[pid];
    if step.Own? && step.pid == pid {
      if Enabled(cfg, c, step.event) {
        var e := OwnEffect(cfg, c, step.event);
        OwnStatuses(cfg, c, step.event);
        SettleReaches(w, pid, e, pid);
        PushesStatuses(e.conn, BatchFor(w.registry, pid, e.notes, pid));
      }
    } else {
      OthersAreOnlyHanded(cfg, w, step, pid);
      var batch :| Next(cfg, w, step).conns[pid] == DeliverAll(c, batch);
      PushesStatuses(c, batch);
    }
  }

  lemma {:induction false} NoStatusesYet(cfg: Config, steps: seq<Step>, pid: nat)
    requires pid !in RunAll(cfg, steps).conns
    ensures StatusesAtFinish(cfg, steps, pid) == []
    decreases |steps|
  {
    if steps != [] {
      var w := RunAll(cfg, steps[..|steps| - 1]);
      if pid in w.conns {
        RunStatuses(cfg, steps[..|steps| - 1], steps[|steps| - 1], pid);
      }
      NoStatusesYet(cfg, steps[..|steps| - 1], pid);
    }
  }

  /** In every run the ReadyForQuery messages a connection has written carry, in order, I for the one
      at startup and then its transaction status each time it finished a Query or Sync. */
  lemma {:induction false} StatusesOfARun(cfg: Config, steps: seq<Step>, pid: nat)
    requires pid in RunAll(cfg, steps).conns
    ensures ReadyStatuses(RunAll(cfg, steps).conns[pid].out) == [Idle] + StatusesAtFinish(cfg, steps, pid)
    decreases |steps|
  {
    if steps != [] {
      var front := steps[..|steps| - 1];
      if pid in RunAll(cfg, front).conns {
        StatusesOfARun(cfg, front, pid);
        RunStatuses(cfg, front, steps[|steps| - 1], pid);
      } else {
        NoStatusesYet(cfg, front, pid);
        NewInStep(cfg, RunAll(cfg, front), steps[|steps| - 1], pid);
      }
    }
  }

  lemma RunStatuses(cfg: Config, steps: seq<Step>, step: Step, pid: nat)
    requires pid in RunAll(cfg, steps).conns
    ensures var w := RunAll(cfg, steps);
            && pid in Next(cfg, w, step).conns
            && ReadyStatuses(Next(cfg, w, step).conns[pid].out) ==
               ReadyStatuses(w.conns[pid].out) + StatusNow(cfg, w, step, pid)
  {
    EveryRunIsGood(cfg, steps);
    assert GoodConn(RunAll(cfg, steps).conns[pid]);
    StepStatuses(cfg, RunAll(cfg, steps), step, pid);
  }

  lemma NewInStep(cfg: Config, w: World, step: Step, pid: nat)
    requires pid !in w.conns && pid in Next(cfg, w, step).conns
    ensures ReadyStatuses(Next(cfg, w, step).conns[pid].out) == [Idle]
  {
    match step
    case Connect(_, startup) => StartupStatuses(cfg, startup);
    case Own(p, ev) =>
      if p in w.conns && Enabled(cfg, w.conns[p], ev) {
        var e := OwnEffect(cfg, w.conns[p], ev);
        FanoutKeepsKeys(w.(conns := w.conns[p := e.conn]), e.notes, p);
        assert false;
      }
    case _ =>
  }

  /** The same, and whenever the ready flag is set the last ReadyForQuery carries the status the
      connection has. */
  lemma ReadyForQueryCarriesStatus(cfg: Config, steps: seq<Step>, pid: nat)
    requires pid in RunAll(cfg, steps).conns
    ensures var c := RunAll(cfg, steps).conns[pid];
            var statuses := ReadyStatuses(c.out);
            && statuses == [Idle] + StatusesAtFinish(cfg, steps, pid)
            && (c.ready ==> statuses[|statuses| - 1] == c.tx)
  {
    StatusesOfARun(cfg, steps, pid);
    EveryRunIsGood(cfg, steps);
    assert GoodConn(RunAll(cfg, steps).conns[pid]);
  }

  lemma StartupStatuses(cfg: Config, s: Startup)
    ensures ReadyStatuses(NewConn(cfg, s).out) == [Idle]
  {
    var params := StartupParams(cfg, s);
    var head := [Replied(AuthenticationOk)];
    var tail := [Replied(BackendKeyData), ReadyForQuery(Idle)];
    MessagesOfStatuses(params);
    MessagesConcat(head, Statuses(params));
    MessagesConcat(head + Statuses(params), tail);
    OneReply(AuthenticationOk);
    assert tail[..1] == [Replied(BackendKeyData)];
    OneReply(BackendKeyData);
  }

  // ---- The failed state ----

  /** Does this step run a statement of the connection that may leave the failed state? */
  predicate MayRecover(cfg: Config, w: World, step: Step, pid: nat)
    requires pid in w.conns
  {
    && step.Own? && step.pid == pid && step.event.Act? && Enabled(cfg, w.conns[pid], step.event)
    && w.conns[pid].busy.value.todo[0].Run? && AllowedWhenFailed(w.conns[pid].busy.value.todo[0].stmt)
  }

  lemma FailedStep(cfg: Config, w: World, step: Step, pid: nat)
    requires pid in w.conns && w.conns[pid].tx.Failed? && !MayRecover(cfg, w, step, pid)
    ensures pid in Next(cfg, w, step).conns
    ensures var d := Next(cfg, w, step).conns[pid];
            d.tx.Failed? && d.sess == w.conns[pid].sess && d.log == w.conns[pid].log && d.sent == w.conns[pid].sent
  {
    var c := w.conns[pid];
    if step.Own? && step.pid == pid {
      if Enabled(cfg, c, step.event) {
        var e := OwnEffect(cfg, c, step.event);
        FailedOwn(cfg, c, step.event);
        SettleReaches(w, pid, e, pid);
        DeliverAllSame(e.conn, BatchFor(w.registry, pid, e.notes, pid));
      }
    } else {
      OthersAreOnlyHanded(cfg, w, step, pid);
    }
  }

  lemma FailedOwn(cfg: Config, c: Conn, ev: ServerModel.Event)
    requires c.tx.Failed? && Enabled(cfg, c, ev)
    requires !(ev.Act? && c.busy.value.todo[0].Run? && AllowedWhenFailed(c.busy.value.todo[0].stmt))
    ensures var d := OwnEffect(cfg, c, ev).conn; d.tx.Failed? && d.sess == c.sess && d.log == c.log && d.sent == c.sent
  {
    if ev.Act? {
      FailedAct(cfg, c, ev.oracle);
    }
  }

  lemma FailedAct(cfg: Config, c: Conn, oracle: Oracle)
    requires c.tx.Failed? && c.busy.Some? && c.busy.value.todo != []
    requires !(c.busy.value.todo[0].Run? && AllowedWhenFailed(c.busy.value.todo[0].stmt))
    ensures var d := ActStep(cfg, c, oracle).conn; d.tx.Failed? && d.sess == c.sess && d.log == c.log && d.sent == c.sent
  {
  }

  /** No step of a stretch runs such a statement. */
  predicate NeverRecovers(cfg: Config, steps: seq<Step>, more: seq<Step>, pid: nat)
    decreases |more|
  {
    more == [] ||
    var front := more[..|more| - 1];
    && NeverRecovers(cfg, steps, front, pid)
    && pid in RunAll(cfg, steps + front).conns
    && !MayRecover(cfg, RunAll(cfg, steps + front), more[|more| - 1], pid)
  }

  /** A failed transaction stays failed, with its settings, subscriptions, pending notifications and
      savepoints untouched, until the connection runs COMMIT, ROLLBACK or ROLLBACK TO. */
  lemma {:induction false} FailedUntilRecovered(cfg: Config, steps: seq<Step>, more: seq<Step>, pid: nat)
    requires pid in RunAll(cfg, steps).conns && RunAll(cfg, steps).conns[pid].tx.Failed?
    requires NeverRecovers(cfg, steps, more, pid)
    ensures pid in RunAll(cfg, steps + more).conns
    ensures var c := RunAll(cfg, steps).conns[pid];
            var d := RunAll(cfg, steps + more).conns[pid];
            d.tx.Failed? && d.sess == c.sess && d.log == c.log && d.sent == c.sent
    decreases |more|
  {
    if more == [] {
      assert steps + more == steps;
    } else {
      var front := more[..|more| - 1];
      FailedUntilRecovered(cfg, steps, front, pid);
      RunSplit(cfg, steps, more);
      FailedStep(cfg, RunAll(cfg, steps + front), more[|more| - 1], pid);
    }
  }

  // ---- Errors and the transaction status ----

  /** The status each step of its own leaves a connection in: an error fails an open transaction, a
      statement that does not fail leaves the status the statement says, and nothing else changes it. */
  function StatusNext(cfg: Config, c: Conn, ev: ServerModel.Event): Status
    requires Enabled(cfg, c, ev)
  {
    if Errs(cfg, c, ev) then if c.tx.Idle? then Idle else Failed
    else if ev.Act? && c.busy.value.todo[0].Run? then
      Statements.StatusAfter(cfg, Pop(c), c.busy.value.todo[0].stmt, ev.oracle)
    else c.tx
  }

  lemma OwnStatus(cfg: Config, c: Conn, ev: ServerModel.Event)
    requires Enabled(cfg, c, ev)
    ensures OwnEffect(cfg, c, ev).conn.tx == StatusNext(cfg, c, ev)
  {
    if ev.Act? && c.busy.value.todo[0].Run? {
      ActStatus(cfg, c, ev.oracle);
    }
  }

  lemma ActStatus(cfg: Config, c: Conn, oracle: Oracle)
    requires Enabled(cfg, c, Act(oracle)) && c.busy.value.todo[0].Run?
    ensures ActStep(cfg, c, oracle).conn.tx == StatusNext(cfg, c, Act(oracle))
  {
    var stmt := c.busy.value.todo[0].stmt;
    Statements.FailsExactly(cfg, Pop(c), stmt, oracle);
    Statements.StatusExactly(cfg, Pop(c), stmt, oracle);
  }

  /** In every run and for every step: the connection's status afterwards. */
  lemma StatusOfEveryStep(cfg: Config, w: World, step: Step, pid: nat)
    requires pid in w.conns
    ensures pid in Next(cfg, w, step).conns
    ensures Next(cfg, w, step).conns[pid].tx ==
            if step.Own? && step.pid == pid && Enabled(cfg, w.conns[pid], step.event) then
              StatusNext(cfg, w.conns[pid], step.event)
            else w.conns[pid].tx
  {
    var c := w.conns[pid];
    if step.Own? && step.pid == pid {
      if Enabled(cfg, c, step.event) {
        var e := OwnEffect(cfg, c, step.event);
        OwnStatus(cfg, c, step.event);
        SettleReaches(w, pid, e, pid);
        DeliverAllSame(e.conn, BatchFor(w.registry, pid, e.notes, pid));
      }
    } else {
      OthersAreOnlyHanded(cfg, w, step, pid);
    }
  }

  /** Status E is entered only by an error in an open transaction. */
  lemma FailedOnlyByError(cfg: Config, w: World, step: Step, pid: nat)
    requires pid in w.conns && !w.conns[pid].tx.Failed?
    ensures pid in Next(cfg, w, step).conns
    ensures Next(cfg, w, step).conns[pid].tx.Failed? <==>
            && w.conns[pid].tx.InBlock?
            && step.Own? && step.pid == pid && Enabled(cfg, w.conns[pid], step.event) && Errs(cfg, w.conns[pid], step.event)
  {
    StatusOfEveryStep(cfg, w, step, pid);
  }

  /** An error: the report is the last thing written, the rest of the dispatch is dropped, the connection
      skips, an open transaction has failed, and nothing is fanned out or registered. */
  predicate Reported(c: Conn, d: Conn) {
    && d.tx == (if c.tx.Idle? then Idle else Failed)
    && c.busy.Some? && d.busy == Some(Work(c.busy.value.answers, [], true))
    && d.skipping && !d.ready && d.open == c.open && d.registered == c.registered
    && d.out != [] && d.out[|d.out| - 1] == Replied(ErrorResponse)
  }

  lemma OwnReports(cfg: Config, c: Conn, ev: ServerModel.Event)
    requires Enabled(cfg, c, ev) && Errs(cfg, c, ev) && !c.ready
    ensures var e := OwnEffect(cfg, c, ev); Reported(c, e.conn) && e.notes == [] && e.register == None
  {
    if ev.Act? && c.busy.value.todo[0].Run? {
      ActReports(cfg, c, ev.oracle);
    }
  }

  lemma ActReports(cfg: Config, c: Conn, oracle: Oracle)
    requires Enabled(cfg, c, Act(oracle)) && Errs(cfg, c, Act(oracle)) && !c.ready && c.busy.value.todo[0].Run?
    ensures var e := ActStep(cfg, c, oracle); Reported(c, e.conn) && e.notes == [] && e.register == None
  {
    var stmt := c.busy.value.todo[0].stmt;
    ActStatus(cfg, c, oracle);
    if !(c.tx.Failed? && !AllowedWhenFailed(stmt)) {
      Statements.FailsExactly(cfg, Pop(c), stmt, oracle);
      StatementReports(cfg, Pop(c), stmt, oracle);
      FailReports(Execute(cfg, Pop(c), stmt, oracle).conn);
    }
  }

  lemma FailReports(c: Conn)
    requires c.busy.Some? && !c.ready
    ensures Reported(c, FailCommand(c))
  {
  }

  lemma StatementReports(cfg: Config, c: Conn, stmt: Stmt, oracle: Oracle)
    requires Statements.Fails(cfg, c, stmt, oracle) && c.busy.Some? && !c.ready
    ensures var e := Execute(cfg, c, stmt, oracle);
            && e.notes == [] && e.register == None && e.conn.registered == c.registered
            && SameWireButOut(e.conn, c)
  {
    Statements.FailureKeeps(cfg, c, stmt, oracle);
    ExecuteWire(cfg, c, stmt, oracle);
    match stmt
    case Set(assignments, local) => ApplyAllWire(cfg, c, assignments, local, oracle.hooks);
    case ResetAll => ApplyAllWire(cfg, c, Resets(oracle.order), false, oracle.hooks);
    case DiscardAll => ApplyAllWire(cfg, c, Resets(oracle.order), false, Rest(oracle.hooks));
    case _ =>
  }

  predicate SameWireButOut(d: Conn, c: Conn) {
    d.busy == c.busy && d.ready == c.ready && d.open == c.open
  }

  /** Every error, of a Query as well as of an extended-protocol message, in every run. */
  lemma ErrorsFail(cfg: Config, steps: seq<Step>, pid: nat, ev: ServerModel.Event)
    requires pid in RunAll(cfg, steps).conns && Enabled(cfg, RunAll(cfg, steps).conns[pid], ev)
    requires Errs(cfg, RunAll(cfg, steps).conns[pid], ev)
    ensures var w' := Next(cfg, RunAll(cfg, steps), Own(pid, ev));
            pid in w'.conns && Reported(RunAll(cfg, steps).conns[pid], w'.conns[pid])
  {
    var w := RunAll(cfg, steps);
    EveryRunIsGood(cfg, steps);
    assert GoodConn(w.conns[pid]);
    OwnReports(cfg, w.conns[pid], ev);
    SettledAlone(w, pid, OwnEffect(cfg, w.conns[pid], ev));
  }

  /** So an error of an extended-protocol message begins a silence. */
  lemma ErrorsDeafen(cfg: Config, steps: seq<Step>, pid: nat, ev: ServerModel.Event)
    requires pid in RunAll(cfg, steps).conns && Enabled(cfg, RunAll(cfg, steps).conns[pid], ev)
    requires Errs(cfg, RunAll(cfg, steps).conns[pid], ev) && !Answering(RunAll(cfg, steps).conns[pid])
    ensures var w' := Next(cfg, RunAll(cfg, steps), Own(pid, ev));
            && pid in w'.conns && Deaf(w'.conns[pid])
            && w'.conns[pid].out != [] && w'.conns[pid].out[|w'.conns[pid].out| - 1] == Replied(ErrorResponse)
  {
    ErrorsFail(cfg, steps, pid, ev);
  }

  /** And the next Query or Sync ends it: whatever the Query holds is not run, and all that is written is
      the reports, the messages held back, and a ReadyForQuery. */
  lemma SilenceEnds(cfg: Config, steps: seq<Step>, pid: nat, m: Message)
    requires pid in RunAll(cfg, steps).conns && Deaf(RunAll(cfg, steps).conns[pid]) && Answered(m)
    requires RunAll(cfg, steps).conns[pid].busy.None? && !RunAll(cfg, steps).conns[pid].doomed
    ensures var c := RunAll(cfg, steps).conns[pid];
            var conns := RunAll(cfg, steps + [Own(pid, Receive(m))] + [Own(pid, Finish)]).conns;
            && pid in conns && conns[pid].ready && !conns[pid].skipping
            && conns[pid].out == c.out + Flush(c.params, c.queue, c.tx)
            && conns[pid].sess == c.sess && conns[pid].tx == c.tx
  {
    var c := RunAll(cfg, steps).conns[pid];
    var d := ReceiveMessage(c, m).conn;
    OwnAlone(cfg, steps, pid, Receive(m), c, d);
    OwnAlone(cfg, steps + [Own(pid, Receive(m))], pid, Finish, d, FinishStep(d));
    Associate(c.out, Statuses(c.params), Pushes(c.queue));
    Associate(c.out, Statuses(c.params) + Pushes(c.queue), [ReadyForQuery(c.tx)]);
  }

  predicate AllFailed(statuses: seq<Status>, from: nat) {
    forall i :: from <= i < |statuses| ==> statuses[i] == Failed
  }

  /** Over a stretch without a recovering statement, every ReadyForQuery a failed connection writes
      carries E. */
  lemma {:induction false} FailedAnswers(cfg: Config, steps: seq<Step>, more: seq<Step>, pid: nat)
    requires pid in RunAll(cfg, steps).conns && RunAll(cfg, steps).conns[pid].tx.Failed?
    requires NeverRecovers(cfg, steps, more, pid)
    ensures pid in RunAll(cfg, steps + more).conns
    ensures var before := ReadyStatuses(RunAll(cfg, steps).conns[pid].out);
            var after := ReadyStatuses(RunAll(cfg, steps + more).conns[pid].out);
            before <= after && AllFailed(after, |before|)
    decreases |more|
  {
    if more == [] {
      assert steps + more == steps;
    } else {
      var front := more[..|more| - 1];
      FailedAnswers(cfg, steps, front, pid);
      FailedUntilRecovered(cfg, steps, front, pid);
      RunSplit(cfg, steps, more);
      RunStatuses(cfg, steps + front, more[|more| - 1], pid);
    }
  }

  /** An error inside a transaction: until COMMIT, ROLLBACK or ROLLBACK TO, whatever the client sends, the
      connection answers with E, and its settings, subscriptions, savepoints and pending notifications stay
      what the error left. */
  lemma ErrorsAnswerFailed(cfg: Config, steps: seq<Step>, pid: nat, ev: ServerModel.Event, more: seq<Step>)
    requires pid in RunAll(cfg, steps).conns && Enabled(cfg, RunAll(cfg, steps).conns[pid], ev)
    requires Errs(cfg, RunAll(cfg, steps).conns[pid], ev) && !RunAll(cfg, steps).conns[pid].tx.Idle?
    requires NeverRecovers(cfg, steps + [Own(pid, ev)], more, pid)
    ensures pid in RunAll(cfg, steps + [Own(pid, ev)] + more).conns
    ensures var error := RunAll(cfg, steps + [Own(pid, ev)]).conns;
            var after := RunAll(cfg, steps + [Own(pid, ev)] + more).conns[pid];
            var before := ReadyStatuses(RunAll(cfg, steps).conns[pid].out);
            && pid in error && after.tx == Failed && after.sess == error[pid].sess && after.sent == RunAll(cfg, steps).conns[pid].sent
            && before <= ReadyStatuses(after.out) && AllFailed(ReadyStatuses(after.out), |before|)
  {
    var errs := [Own(pid, ev)];
    ErrorsFail(cfg, steps, pid, ev);
    RunSplit(cfg, steps, errs);
    assert steps + [] == steps && errs[..0] == [];
    RunStatuses(cfg, steps, Own(pid, ev), pid);
    FailedAnswers(cfg, steps + errs, more, pid);
    FailedUntilRecovered(cfg, steps + errs, more, pid);
    ErrorsSendNothing(cfg, steps, pid, ev);
  }

  lemma ErrorsSendNothing(cfg: Config, steps: seq<Step>, pid: nat, ev: ServerModel.Event)
    requires pid in RunAll(cfg, steps).conns && Enabled(cfg, RunAll(cfg, steps).conns[pid], ev)
    requires Errs(cfg, RunAll(cfg, steps).conns[pid], ev)
    ensures var w' := Next(cfg, RunAll(cfg, steps), Own(pid, ev));
            pid in w'.conns && w'.conns[pid].sent == RunAll(cfg, steps).conns[pid].sent
  {
    var w := RunAll(cfg, steps);
    EveryRunIsGood(cfg, steps);
    assert GoodConn(w.conns[pid]);
    OwnReports(cfg, w.conns[pid], ev);
    Notifications.StepSends(cfg, w, Own(pid, ev), pid);
    assert w.conns[pid].sent + [] == w.conns[pid].sent;
  }

  /** Finishing a Query or Sync writes the reports, the messages held back, and a ReadyForQuery with the
      status, behind what was written before. */
  lemma FinishAnswers(cfg: Config, steps: seq<Step>, pid: nat)
    requires var conns := RunAll(cfg, steps).conns; pid in conns && Enabled(cfg, conns[pid], Finish) && Answering(conns[pid])
    ensures var c := RunAll(cfg, steps).conns[pid];
            var w' := Next(cfg, RunAll(cfg, steps), Own(pid, Finish));
            && pid in w'.conns && w'.conns[pid].ready
            && w'.conns[pid].out == c.out + Flush(c.params, c.queue, c.tx)
  {
    var w := RunAll(cfg, steps);
    var c := w.conns[pid];
    var e := OwnEffect(cfg, c, Finish);
    SettledAlone(w, pid, e);
    Associate(c.out, Statuses(c.params), Pushes(c.queue));
    Associate(c.out, Statuses(c.params) + Pushes(c.queue), [ReadyForQuery(c.tx)]);
  }

  // ---- The order of a command's replies ----

  function Emits(replies: seq<Reply>): (actions: seq<Action>)
    ensures |actions| == |replies|
  {
    seq(|replies|, i requires 0 <= i < |replies| => Emit(replies[i]))
  }

  function Plain(replies: seq<Reply>): seq<Out> {
    seq(|replies|, i requires 0 <= i < |replies| => Replied(replies[i]))
  }

  function Acts(pid: nat, n: nat, o: Oracle): seq<Step> {
    seq(n, i requires 0 <= i < n => Own(pid, Act(o)))
  }

  lemma {:induction false} EmitsInOrder(cfg: Config, steps: seq<Step>, pid: nat, replies: seq<Reply>, o: Oracle, c: Conn)
    requires pid in RunAll(cfg, steps).conns && RunAll(cfg, steps).conns[pid] == c
    requires c.open && c.busy.Some? && c.busy.value.todo == Emits(replies)
    ensures var conns := RunAll(cfg, steps + Acts(pid, |replies|, o)).conns;
            && pid in conns
            && conns[pid] == c.(out := c.out + Plain(replies),
                                busy := Some(Work(c.busy.value.answers, [], replies != [] || c.busy.value.over)))
    decreases |replies|
  {
    if replies == [] {
      assert steps + Acts(pid, 0, o) == steps && c.out + Plain([]) == c.out;
    } else {
      var rest := replies[1..];
      var d := WriteReply(Pop(c), replies[0]);
      assert Emits(replies)[1..] == Emits(rest);
      OwnAlone(cfg, steps, pid, Act(o), c, d);
      EmitsInOrder(cfg, steps + [Own(pid, Act(o))], pid, rest, o, d);
      assert steps + [Own(pid, Act(o))] + Acts(pid, |rest|, o) == steps + Acts(pid, |replies|, o);
      assert c.out + Plain(replies) == c.out + [Replied(replies[0])] + Plain(rest);
    }
  }

  predicate Resting(cfg: Config, steps: seq<Step>, pid: nat) {
    var conns := RunAll(cfg, steps).conns; pid in conns && conns[pid].ready && !conns[pid].doomed
  }

  /** A message in hand whose dispatch is done. */
  predicate Dispatched(c: Conn, d: Conn, answers: bool, replies: seq<Reply>) {
    d.out == c.out + Plain(replies) && d.tx == c.tx && DispatchOver(d, answers)
  }

  predicate DispatchOver(d: Conn, answers: bool) {
    && d.params == [] && d.queue == [] && d.open && !d.doomed && !d.ready && !d.skipping
    && d.busy.Some? && d.busy.value.answers == answers && d.busy.value.todo == []
  }

  lemma DispatchedInOrder(cfg: Config, steps: seq<Step>, pid: nat, m: Message, replies: seq<Reply>, o: Oracle)
    requires Resting(cfg, steps, pid) && (m == SimpleQuery(Emits(replies)) || m == Extended(Emits(replies)))
    ensures var after := RunAll(cfg, steps + ([Own(pid, Receive(m))] + Acts(pid, |replies|, o))).conns;
            pid in after && Dispatched(RunAll(cfg, steps).conns[pid], after[pid], Answered(m), replies)
  {
    var c := RunAll(cfg, steps).conns[pid];
    EveryRunIsGood(cfg, steps);
    assert GoodConn(c);
    var d := ReceiveMessage(c, m).conn;
    OwnAlone(cfg, steps, pid, Receive(m), c, d);
    EmitsInOrder(cfg, steps + [Own(pid, Receive(m))], pid, replies, o, d);
    Associate(steps, [Own(pid, Receive(m))], Acts(pid, |replies|, o));
  }

  /** A connection at a ReadyForQuery that is sent a Query answers with what its dispatch writes, in
      order, and one more ReadyForQuery. */
  lemma QueryAnswersInOrder(cfg: Config, steps: seq<Step>, pid: nat, replies: seq<Reply>, o: Oracle)
    requires Resting(cfg, steps, pid)
    ensures var c := RunAll(cfg, steps).conns[pid];
            var asked := [Own(pid, Receive(SimpleQuery(Emits(replies))))] + Acts(pid, |replies|, o);
            var conns := RunAll(cfg, steps + asked + [Own(pid, Finish)]).conns;
            && pid in conns && conns[pid].ready && conns[pid].tx == c.tx
            && conns[pid].out == c.out + Plain(replies) + [ReadyForQuery(c.tx)]
  {
    var m := SimpleQuery(Emits(replies));
    DispatchedInOrder(cfg, steps, pid, m, replies, o);
    AnsweredAtRest(cfg, steps + ([Own(pid, Receive(m))] + Acts(pid, |replies|, o)), pid);
  }

  lemma AnsweredAtRest(cfg: Config, steps: seq<Step>, pid: nat)
    requires var conns := RunAll(cfg, steps).conns; pid in conns && Enabled(cfg, conns[pid], Finish) && Answering(conns[pid])
    requires var c := RunAll(cfg, steps).conns[pid]; c.params == [] && c.queue == []
    ensures var c := RunAll(cfg, steps).conns[pid];
            var conns := RunAll(cfg, steps + [Own(pid, Finish)]).conns;
            && pid in conns && conns[pid].ready && conns[pid].tx == c.tx
            && conns[pid].out == c.out + [ReadyForQuery(c.tx)]
  {
    var c := RunAll(cfg, steps).conns[pid];
    assert Flush(c.params, c.queue, c.tx) == [ReadyForQuery(c.tx)];
    assert c.out + Statuses([]) + Pushes([]) + [ReadyForQuery(c.tx)] == c.out + [ReadyForQuery(c.tx)];
    OwnAlone(cfg, steps, pid, Finish, c, FinishStep(c));
  }

  /** The same for a message of the extended protocol, but the ReadyForQuery waits for the Sync. */
  lemma ExtendedAnswersAtSync(cfg: Config, steps: seq<Step>, pid: nat, replies: seq<Reply>, o: Oracle)
    requires Resting(cfg, steps, pid)
    ensures var c := RunAll(cfg, steps).conns[pid];
            var asked := [Own(pid, Receive(Extended(Emits(replies))))] + Acts(pid, |replies|, o);
            var before := RunAll(cfg, steps + asked + [Own(pid, Finish)]).conns;
            var after := RunAll(cfg, steps + asked + [Own(pid, Finish)] + [Own(pid, Receive(Sync))] + [Own(pid, Finish)]).conns;
            && pid in before && before[pid].out == c.out + Plain(replies) && !before[pid].ready
            && pid in after && after[pid].ready && after[pid].out == c.out + Plain(replies) + [ReadyForQuery(c.tx)]
  {
    var m := Extended(Emits(replies));
    var asked := [Own(pid, Receive(m))] + Acts(pid, |replies|, o);
    DispatchedInOrder(cfg, steps, pid, m, replies, o);
    var d := RunAll(cfg, steps + asked).conns[pid];
    SyncAnswers(cfg, steps + asked, pid, d);
  }

  lemma SyncAnswers(cfg: Config, steps: seq<Step>, pid: nat, d: Conn)
    requires pid in RunAll(cfg, steps).conns && RunAll(cfg, steps).conns[pid] == d
    requires DispatchOver(d, false)
    ensures var before := RunAll(cfg, steps + [Own(pid, Finish)]).conns;
            var after := RunAll(cfg, steps + [Own(pid, Finish)] + [Own(pid, Receive(Sync))] + [Own(pid, Finish)]).conns;
            && pid in before && before[pid].out == d.out && !before[pid].ready
            && pid in after && after[pid].ready && after[pid].out == d.out + [ReadyForQuery(d.tx)]
  {
    var e := FinishStep(d);
    OwnAlone(cfg, steps, pid, Finish, d, e);
    OwnAlone(cfg, steps + [Own(pid, Finish)], pid, Receive(Sync), e, ReceiveMessage(e, Sync).conn);
    AnsweredAtRest(cfg, steps + [Own(pid, Finish)] + [Own(pid, Receive(Sync))], pid);
  }

  // ---- Reported settings ----

  lemma StepInStep(cfg: Config, w: World, step: Step, pid: nat, r: string)
    requires Parameters.Sound(cfg) && r in cfg.reported && pid in w.conns && Parameters.Current(cfg, w.conns[pid], r)
    ensures pid in Next(cfg, w, step).conns && Parameters.Current(cfg, Next(cfg, w, step).conns[pid], r)
  {
    var c := w.conns[pid];
    if step.Own? && step.pid == pid {
      if Enabled(cfg, c, step.event) {
        var e := OwnEffect(cfg, c, step.event);
        var batch := BatchFor(w.registry, pid, e.notes, pid);
        Parameters.OwnInStep(cfg, c, step.event, r);
        Parameters.DeliverAllInStep(cfg, e.conn, batch, r);
        SettleReaches(w, pid, e, pid);
        Parameters.SameViewInStep(cfg, Next(cfg, w, step).conns[pid], DeliverAll(e.conn, batch), r);
      }
    } else {
      OthersAreOnlyHanded(cfg, w, step, pid);
      var batch :| Next(cfg, w, step).conns[pid] == DeliverAll(c, batch);
      Parameters.DeliverAllInStep(cfg, c, batch, r);
    }
  }

  /** A client that is in step with a setting at some point of a run, for instance because it has been
      reported since startup, stays in step for the rest of it. */
  lemma {:induction false} OnceInStep(cfg: Config, steps: seq<Step>, more: seq<Step>, pid: nat, r: string)
    requires Parameters.Sound(cfg) && r in cfg.reported
    requires pid in RunAll(cfg, steps).conns && Parameters.Current(cfg, RunAll(cfg, steps).conns[pid], r)
    ensures pid in RunAll(cfg, steps + more).conns && Parameters.Current(cfg, RunAll(cfg, steps + more).conns[pid], r)
    decreases |more|
  {
    if more == [] {
      assert steps + more == steps;
    } else {
      var front := more[..|more| - 1];
      OnceInStep(cfg, steps, front, pid, r);
      RunSplit(cfg, steps, more);
      StepInStep(cfg, RunAll(cfg, steps + front), more[|more| - 1], pid, r);
    }
  }
}
