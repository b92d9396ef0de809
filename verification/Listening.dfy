/** LISTEN, UNLISTEN and NOTIFY from the statement to what other connections are handed, over whole
    runs. */
module Listening {
  import opened Prelude
  import opened TransactionLog
  import opened SessionStates
  import opened ServerModel
  import opened Delivery
  import opened Transactions
  import opened Registrations
  import opened Runs
  import opened Notifications
  import Statements
  import Stretches

  /** The connection's next action is this statement, and it is not refused for a failed transaction. */
  predicate RunsNext(cfg: Config, w: World, pid: nat, stmt: Stmt, oracle: Oracle) {
    && pid in w.conns && Enabled(cfg, w.conns[pid], Act(oracle)) && w.conns[pid].busy.value.todo[0] == Run(stmt)
    && (w.conns[pid].tx.Failed? ==> AllowedWhenFailed(stmt))
  }

  // ---- NOTIFY, up to COMMIT ----

  /** A note is among those a fanout hands over exactly when it is one of its notes, on a channel the
      connection is registered for. */
  lemma {:induction false} BatchHas(r: Registry, q: nat, notes: seq<Note>, pid: nat, n: Note)
    ensures Notification(pid, n) in BatchFor(r, q, notes, pid) <==> n in notes && q in Subscribers(r, n.channel)
    decreases |notes|
  {
    if notes != [] {
      BatchHas(r, q, notes[..|notes| - 1], pid, n);
      assert notes == notes[..|notes| - 1] + [notes[|notes| - 1]];
    }
  }

  /** NOTIFY in an open transaction: afterwards the notification is pending, and nothing else is that was
      not before. */
  lemma NotifyIsPending(cfg: Config, w: World, pid: nat, n: Note, oracle: Oracle)
    requires RunsNext(cfg, w, pid, Notify(n), oracle) && !w.conns[pid].tx.Idle?
    ensures var w' := Next(cfg, w, Own(pid, Act(oracle)));
            && pid in w'.conns && w'.conns[pid].tx == w.conns[pid].tx
            && (forall m :: m in w'.conns[pid].sess.core.pending <==> m == n || m in w.conns[pid].sess.core.pending)
            && w'.conns[pid].sent == w.conns[pid].sent
  {
    var c := w.conns[pid];
    Statements.NotifyExactly(cfg, Pop(c), n, oracle);
    NotifyStays(cfg, Pop(c), n, oracle);
    var e := OwnEffect(cfg, c, Act(oracle));
    SettleReaches(w, pid, e, pid);
    DeliverAllSame(e.conn, BatchFor(w.registry, pid, e.notes, pid));
  }

  lemma NotifyStays(cfg: Config, c: Conn, n: Note, oracle: Oracle)
    requires !c.tx.Idle?
    ensures var e := Execute(cfg, c, Notify(n), oracle); e.ok && e.conn.tx == c.tx && e.conn.sent == c.sent
  {
  }

  /** The state a ROLLBACK TO takes up: the frame at the savepoint's place, or the state as it is. */
  function Kept(c: Conn, name: string): Core {
    var index := LastIndex(c.sess.savepoints, name);
    if 0 <= index && index + 1 < |c.sess.scopes| then c.sess.scopes[index + 1] else c.sess.core
  }

  /** The step is no ROLLBACK TO of this connection that takes up a state without the notification. */
  predicate NotRolledOver(cfg: Config, w: World, step: Step, pid: nat, n: Note)
    requires pid in w.conns
  {
    step.Own? && step.pid == pid && step.event.Act? && Enabled(cfg, w.conns[pid], step.event) &&
    w.conns[pid].busy.value.todo[0].Run? && w.conns[pid].busy.value.todo[0].stmt.RollbackTo? ==>
      n in Kept(w.conns[pid], w.conns[pid].busy.value.todo[0].stmt.name).pending
  }

  lemma ExecuteKeepsPending(cfg: Config, c: Conn, stmt: Stmt, oracle: Oracle, n: Note)
    requires !c.tx.Idle? && n in c.sess.core.pending && !Execute(cfg, c, stmt, oracle).conn.tx.Idle?
    requires stmt.RollbackTo? ==> n in Kept(c, stmt.name).pending
    ensures n in Execute(cfg, c, stmt, oracle).conn.sess.core.pending
  {
    match stmt
    case Commit => EndBlockFacts(cfg, c, true, oracle.order);
    case Rollback => EndBlockFacts(cfg, c, false, oracle.order);
    case RollbackTo(name) =>
      if LastIndex(c.sess.savepoints, name) >= 0 {
        RollbackToFacts(cfg, c, name, oracle.order);
      }
    case Set(assignments, local) => Statements.ApplyAllKeeps(cfg, c, assignments, local, oracle.hooks);
    case ResetAll => Statements.ApplyAllKeeps(cfg, c, Resets(oracle.order), false, oracle.hooks);
    case DiscardAll =>
    case _ =>
  }

  lemma OwnKeepsPending(cfg: Config, c: Conn, ev: ServerModel.Event, n: Note)
    requires !c.tx.Idle? && n in c.sess.core.pending && Enabled(cfg, c, ev) && !OwnEffect(cfg, c, ev).conn.tx.Idle?
    requires ev.Act? && c.busy.value.todo[0].Run? && c.busy.value.todo[0].stmt.RollbackTo? ==>
               n in Kept(c, c.busy.value.todo[0].stmt.name).pending
    ensures n in OwnEffect(cfg, c, ev).conn.sess.core.pending
  {
    if ev.Act? && c.busy.value.todo[0].Run? {
      ActKeepsPending(cfg, c, ev.oracle, n);
    }
  }

  lemma ActKeepsPending(cfg: Config, c: Conn, oracle: Oracle, n: Note)
    requires !c.tx.Idle? && n in c.sess.core.pending && Enabled(cfg, c, Act(oracle)) && c.busy.value.todo[0].Run?
    requires !ActStep(cfg, c, oracle).conn.tx.Idle?
    requires c.busy.value.todo[0].stmt.RollbackTo? ==> n in Kept(c, c.busy.value.todo[0].stmt.name).pending
    ensures n in ActStep(cfg, c, oracle).conn.sess.core.pending
  {
    var stmt := c.busy.value.todo[0].stmt;
    if !(c.tx.Failed? && !AllowedWhenFailed(stmt)) {
      ExecuteKeepsPending(cfg, Pop(c), stmt, oracle, n);
    }
  }

  lemma StepKeepsPending(cfg: Config, w: World, step: Step, pid: nat, n: Note)
    requires pid in w.conns && !w.conns[pid].tx.Idle? && n in w.conns[pid].sess.core.pending
    requires NotRolledOver(cfg, w, step, pid, n)
    requires pid in Next(cfg, w, step).conns && !Next(cfg, w, step).conns[pid].tx.Idle?
    ensures n in Next(cfg, w, step).conns[pid].sess.core.pending
  {
    var c := w.conns[pid];
    if step.Own? && step.pid == pid {
      if Enabled(cfg, c, step.event) {
        var e := OwnEffect(cfg, c, step.event);
        SettleReaches(w, pid, e, pid);
        DeliverAllSame(e.conn, BatchFor(w.registry, pid, e.notes, pid));
        OwnKeepsPending(cfg, c, step.event, n);
      }
    } else {
      Stretches.OthersAreOnlyHanded(cfg, w, step, pid);
    }
  }

  /** Over the stretch the transaction stays open and no ROLLBACK TO takes the notification back. */
  predicate StaysRaised(cfg: Config, steps: seq<Step>, more: seq<Step>, pid: nat, n: Note)
    decreases |more|
  {
    && pid in RunAll(cfg, steps + more).conns && !RunAll(cfg, steps + more).conns[pid].tx.Idle?
    && (more != [] ==>
          var front := more[..|more| - 1];
          && StaysRaised(cfg, steps, front, pid, n)
          && NotRolledOver(cfg, RunAll(cfg, steps + front), more[|more| - 1], pid, n))
  }

  lemma {:induction false} RaisedStays(cfg: Config, steps: seq<Step>, more: seq<Step>, pid: nat, n: Note)
    requires StaysRaised(cfg, steps, more, pid, n)
    requires pid in RunAll(cfg, steps).conns && n in RunAll(cfg, steps).conns[pid].sess.core.pending
    ensures n in RunAll(cfg, steps + more).conns[pid].sess.core.pending
    decreases |more|
  {
    if more == [] {
      assert steps + more == steps;
    } else {
      var front := more[..|more| - 1];
      RaisedStays(cfg, steps, front, pid, n);
      RunSplit(cfg, steps, more);
      StepKeepsPending(cfg, RunAll(cfg, steps + front), more[|more| - 1], pid, n);
    }
  }

  /** What a statement hands every connection, and what of it: of its notes those on the channels the
      connection is registered for. */
  lemma StatementHands(cfg: Config, steps: seq<Step>, pid: nat, stmt: Stmt, oracle: Oracle, q: nat, n: Note)
    requires RunsNext(cfg, RunAll(cfg, steps), pid, stmt, oracle) && q in RunAll(cfg, steps).conns
    ensures var w := RunAll(cfg, steps);
            var c := w.conns[pid];
            var w' := Next(cfg, w, Own(pid, Act(oracle)));
            var notes := if stmt.Notify? && c.tx.Idle? then [stmt.note]
                         else if stmt.Commit? && !c.tx.Idle? then c.sess.core.pending else [];
            && q in w'.conns && w.conns[q].handed <= w'.conns[q].handed
            && (Notification(pid, n) in w'.conns[q].handed[|w.conns[q].handed|..] <==>
                n in notes && n.channel in w.conns[q].registered)
  {
    var w := RunAll(cfg, steps);
    var c := w.conns[pid];
    FanoutIsExact(cfg, steps, pid, Act(oracle), q);
    OnlyTheseFanOut(cfg, Pop(c), stmt, oracle);
    EveryRunIsGood(cfg, steps);
    assert n.channel in w.conns[q].registered <==> Listed(w.registry, n.channel, q);
    BatchHas(w.registry, q, OwnEffect(cfg, c, Act(oracle)).notes, pid, n);
  }

  /** A NOTIFY in a transaction that is committed, and not rolled back over before, is handed at the
      COMMIT to every connection that is registered for its channel then, and to no other; before the
      COMMIT the connection sends nothing. */
  lemma NotifyReachesListeners(
    cfg: Config, steps: seq<Step>, pid: nat, n: Note, o: Oracle, more: seq<Step>, o': Oracle, q: nat)
    requires RunsNext(cfg, RunAll(cfg, steps), pid, Notify(n), o) && !RunAll(cfg, steps).conns[pid].tx.Idle?
    requires StaysRaised(cfg, steps + [Own(pid, Act(o))], more, pid, n)
    requires RunsNext(cfg, RunAll(cfg, steps + [Own(pid, Act(o))] + more), pid, Commit, o')
    requires q in RunAll(cfg, steps + [Own(pid, Act(o))] + more).conns
    ensures var w := RunAll(cfg, steps + [Own(pid, Act(o))] + more);
            var w' := Next(cfg, w, Own(pid, Act(o')));
            && q in w'.conns && w.conns[q].handed <= w'.conns[q].handed
            && (Notification(pid, n) in w'.conns[q].handed[|w.conns[q].handed|..] <==> n.channel in w.conns[q].registered)
  {
    var notify := [Own(pid, Act(o))];
    RunSplit(cfg, steps, notify);
    assert steps + [] == steps && notify[..0] == [];
    NotifyIsPending(cfg, RunAll(cfg, steps), pid, n, o);
    RaisedStays(cfg, steps + notify, more, pid, n);
    StatementHands(cfg, steps + notify + more, pid, Commit, o', q, n);
  }

  /** What was handed to a connection stays handed. */
  lemma {:induction false} HandedStays(cfg: Config, steps: seq<Step>, more: seq<Step>, q: nat)
    requires q in RunAll(cfg, steps).conns
    ensures q in RunAll(cfg, steps + more).conns
    ensures RunAll(cfg, steps).conns[q].handed <= RunAll(cfg, steps + more).conns[q].handed
    decreases |more|
  {
    if more == [] {
      assert steps + more == steps;
    } else {
      var front := more[..|more| - 1];
      HandedStays(cfg, steps, front, q);
      RunSplit(cfg, steps, more);
      StepKeepsHanded(cfg, RunAll(cfg, steps + front), more[|more| - 1], q);
    }
  }

  lemma StepKeepsHanded(cfg: Config, w: World, step: Step, q: nat)
    requires q in w.conns
    ensures q in Next(cfg, w, step).conns && w.conns[q].handed <= Next(cfg, w, step).conns[q].handed
  {
    if step.Own? && step.pid == q {
      if Enabled(cfg, w.conns[q], step.event) {
        SettleReaches(w, q, OwnEffect(cfg, w.conns[q], step.event), q);
        OwnKeepsHanded(cfg, w.conns[q], step.event);
      }
    } else {
      Stretches.OthersAreOnlyHanded(cfg, w, step, q);
    }
  }

  /** And a message handed to a connection has been written whenever it later stands at a ReadyForQuery. */
  lemma HandedIsWritten(cfg: Config, steps: seq<Step>, more: seq<Step>, q: nat, a: Async)
    requires q in RunAll(cfg, steps).conns && a in RunAll(cfg, steps).conns[q].handed
    ensures q in RunAll(cfg, steps + more).conns
    ensures RunAll(cfg, steps + more).conns[q].ready ==> a in Messages(RunAll(cfg, steps + more).conns[q].out)
  {
    HandedStays(cfg, steps, more, q);
    NothingLostOrReordered(cfg, steps + more, q);
  }

  // ---- LISTEN and UNLISTEN, in the registry ----

  /** Outside a transaction LISTEN, UNLISTEN and UNLISTEN * take effect in the server's registry at once:
      on each channel this connection is then listed as the statement says, and every other one as before. */
  lemma SubscriptionsTakeEffect(
    cfg: Config, steps: seq<Step>, pid: nat, stmt: Stmt, oracle: Oracle, channel: string, q: nat)
    requires RunsNext(cfg, RunAll(cfg, steps), pid, stmt, oracle) && Statements.Subscribes(stmt)
    requires RunAll(cfg, steps).conns[pid].tx.Idle?
    ensures var w := RunAll(cfg, steps);
            var w' := Next(cfg, w, Own(pid, Act(oracle)));
            && (Listed(w'.registry, channel, q) <==>
                if q == pid then Statements.HeardAfter(stmt, channel, Listed(w.registry, channel, pid))
                else Listed(w.registry, channel, q))
            && pid in w'.conns && w'.conns[pid].tx == Idle
            && (channel in w'.conns[pid].registered <==> Listed(w'.registry, channel, pid))
            && (channel in w'.conns[pid].sess.core.listening <==> Listed(w'.registry, channel, pid))
  {
    var w := RunAll(cfg, steps);
    var c := w.conns[pid];
    EveryRunIsGood(cfg, steps);
    EveryRunIsGood(cfg, steps + [Own(pid, Act(oracle))]);
    RunSplit(cfg, steps, [Own(pid, Act(oracle))]);
    assert steps + [Own(pid, Act(oracle))][..0] == steps;
    assert Anchored(c);
    var e := OwnEffect(cfg, c, Act(oracle));
    Statements.SubscriptionsExactly(cfg, Pop(c), stmt, oracle);
    SubscriptionSucceeds(cfg, Pop(c), stmt, oracle);
    SettleRegistry(w, pid, e);
    SettleReaches(w, pid, e, pid);
    DeliverAllSame(e.conn, BatchFor(w.registry, pid, e.notes, pid));
    RetargetListed(w.registry, pid, c.registered, e.register.value, channel, q);
  }

  lemma SubscriptionSucceeds(cfg: Config, c: Conn, stmt: Stmt, oracle: Oracle)
    requires Statements.Subscribes(stmt)
    ensures Execute(cfg, c, stmt, oracle).ok
  {
  }

  /** Inside one they change the subscriptions and leave the registry alone. */
  lemma SubscriptionsWait(cfg: Config, w: World, pid: nat, stmt: Stmt, oracle: Oracle, channel: string)
    requires RunsNext(cfg, w, pid, stmt, oracle) && Statements.Subscribes(stmt) && !w.conns[pid].tx.Idle?
    ensures var w' := Next(cfg, w, Own(pid, Act(oracle)));
            && w'.registry == w.registry && pid in w'.conns
            && (channel in w'.conns[pid].sess.core.listening <==>
                Statements.HeardAfter(stmt, channel, channel in w.conns[pid].sess.core.listening))
  {
    var c := w.conns[pid];
    var e := OwnEffect(cfg, c, Act(oracle));
    Statements.SubscriptionsExactly(cfg, Pop(c), stmt, oracle);
    SubscriptionSucceeds(cfg, Pop(c), stmt, oracle);
    SettleRegistry(w, pid, e);
    SettleReaches(w, pid, e, pid);
    DeliverAllSame(e.conn, BatchFor(w.registry, pid, e.notes, pid));
  }

  /** COMMIT registers what is subscribed then. */
  lemma CommitRegisters(cfg: Config, steps: seq<Step>, pid: nat, oracle: Oracle, channel: string)
    requires RunsNext(cfg, RunAll(cfg, steps), pid, Commit, oracle) && !RunAll(cfg, steps).conns[pid].tx.Idle?
    ensures var w := RunAll(cfg, steps);
            Listed(Next(cfg, w, Own(pid, Act(oracle))).registry, channel, pid) <==> channel in w.conns[pid].sess.core.listening
  {
    var w := RunAll(cfg, steps);
    var c := w.conns[pid];
    EveryRunIsGood(cfg, steps);
    var e := OwnEffect(cfg, c, Act(oracle));
    EndBlockFacts(cfg, Pop(c), true, oracle.order);
    Stretches.OwnStatus(cfg, c, Act(oracle));
    Statements.RegisteredStays(cfg, Pop(c), Commit, oracle);
    SettleRegistry(w, pid, e);
    RetargetListed(w.registry, pid, c.registered, e.register.value, channel, pid);
  }

  // ---- Silence after UNLISTEN, hearing after LISTEN ----

  /** The channel is subscribed to, or not, in the state, in every frame, and in the registrations. */
  predicate Uniform(c: Conn, channel: string, b: bool) {
    UniformState(c.sess, channel, b) && (channel in c.registered) == b
  }

  predicate UniformState(s: Sess, channel: string, b: bool) {
    (channel in s.core.listening) == b && forall i :: 0 <= i < |s.scopes| ==> (channel in s.scopes[i].listening) == b
  }

  /** A statement that could change that. */
  predicate Unsettles(stmt: Stmt, channel: string, b: bool) {
    if b then stmt == Unlisten(channel) || stmt.UnlistenAll? || stmt.DiscardAll? else stmt == Listen(channel)
  }

  lemma ExecuteUniform(cfg: Config, c: Conn, stmt: Stmt, oracle: Oracle, channel: string, b: bool)
    requires UniformState(c.sess, channel, b) && !Unsettles(stmt, channel, b)
    ensures var e := Execute(cfg, c, stmt, oracle);
            && UniformState(e.conn.sess, channel, b)
            && (e.register.Some? ==> (channel in e.register.value) == b)
  {
    match stmt
    case Commit => EndUniform(cfg, c, true, oracle.order, channel, b);
    case Rollback => EndUniform(cfg, c, false, oracle.order, channel, b);
    case RollbackTo(name) => RollbackToUniform(cfg, c, name, oracle.order, channel, b);
    case Set(assignments, local) => Statements.ApplyAllKeeps(cfg, c, assignments, local, oracle.hooks);
    case ResetAll => Statements.ApplyAllKeeps(cfg, c, Resets(oracle.order), false, oracle.hooks);
    case DiscardAll => Statements.ApplyAllKeeps(cfg, c, Resets(oracle.order), false, Rest(oracle.hooks));
    case _ => PlainUniform(cfg, c, stmt, oracle, channel, b);
  }

  lemma EndUniform(cfg: Config, c: Conn, committed: bool, order: seq<string>, channel: string, b: bool)
    requires UniformState(c.sess, channel, b)
    ensures var e := EndBlock(cfg, c, committed, order);
            UniformState(e.conn.sess, channel, b) && (e.register.Some? ==> (channel in e.register.value) == b)
  {
    if !c.tx.Idle? {
      EndBlockFacts(cfg, c, committed, order);
    }
  }

  lemma RollbackToUniform(cfg: Config, c: Conn, name: string, order: seq<string>, channel: string, b: bool)
    requires UniformState(c.sess, channel, b)
    ensures var e := RollbackToStatement(cfg, c, name, order);
            UniformState(e.conn.sess, channel, b) && (e.register.Some? ==> (channel in e.register.value) == b)
  {
    if !c.tx.Idle? && LastIndex(c.sess.savepoints, name) >= 0 {
      RollbackToFacts(cfg, c, name, order);
    }
  }

  lemma PlainUniform(cfg: Config, c: Conn, stmt: Stmt, oracle: Oracle, channel: string, b: bool)
    requires UniformState(c.sess, channel, b) && !Unsettles(stmt, channel, b)
    requires !(stmt.Commit? || stmt.Rollback? || stmt.RollbackTo? || stmt.Set? || stmt.ResetAll? || stmt.DiscardAll?)
    ensures var e := Execute(cfg, c, stmt, oracle);
            UniformState(e.conn.sess, channel, b) && (e.register.Some? ==> (channel in e.register.value) == b)
  {
    if Statements.Subscribes(stmt) {
      Statements.SubscriptionsExactly(cfg, c, stmt, oracle);
    } else if stmt.Notify? {
      Statements.NotifyExactly(cfg, c, stmt.note, oracle);
    } else {
      StackUniform(cfg, c, stmt, oracle, channel, b);
    }
  }

  lemma StackUniform(cfg: Config, c: Conn, stmt: Stmt, oracle: Oracle, channel: string, b: bool)
    requires UniformState(c.sess, channel, b)
    requires stmt.Begin? || stmt.Savepoint? || stmt.Release? || stmt.DiscardOther? || stmt.Query?
    ensures var e := Execute(cfg, c, stmt, oracle); UniformState(e.conn.sess, channel, b) && e.register == None
  {
  }

  /** A step that runs no such statement of this connection and does not end it. */
  predicate Settles(cfg: Config, w: World, step: Step, pid: nat, channel: string, b: bool)
    requires pid in w.conns
  {
    && !(step.Push? && step.pid == pid)
    && (step.Own? && step.pid == pid && Enabled(cfg, w.conns[pid], step.event) ==>
          && (step.event.Act? && w.conns[pid].busy.value.todo[0].Run? ==>
                !Unsettles(w.conns[pid].busy.value.todo[0].stmt, channel, b))
          && (b ==> !step.event.Hangup? && step.event != Receive(Terminate)))
  }

  lemma OwnUniform(cfg: Config, w: World, pid: nat, ev: ServerModel.Event, channel: string, b: bool)
    requires pid in w.conns && Enabled(cfg, w.conns[pid], ev) && Settles(cfg, w, Own(pid, ev), pid, channel, b)
    requires Uniform(w.conns[pid], channel, b)
    ensures var e := OwnEffect(cfg, w.conns[pid], ev);
            && UniformState(e.conn.sess, channel, b) && e.conn.registered == w.conns[pid].registered
            && (e.register.Some? ==> (channel in e.register.value) == b)
  {
    var c := w.conns[pid];
    if ev.Act? && c.busy.value.todo[0].Run? {
      ExecuteUniform(cfg, Pop(c), c.busy.value.todo[0].stmt, ev.oracle, channel, b);
      Statements.RegisteredStays(cfg, Pop(c), c.busy.value.todo[0].stmt, ev.oracle);
    }
  }

  lemma StepUniform(cfg: Config, w: World, step: Step, pid: nat, channel: string, b: bool)
    requires pid in w.conns && Uniform(w.conns[pid], channel, b) && Settles(cfg, w, step, pid, channel, b)
    ensures pid in Next(cfg, w, step).conns && Uniform(Next(cfg, w, step).conns[pid], channel, b)
  {
    if step.Own? && step.pid == pid {
      if Enabled(cfg, w.conns[pid], step.event) {
        var e := OwnEffect(cfg, w.conns[pid], step.event);
        OwnUniform(cfg, w, pid, step.event, channel, b);
        SettleReaches(w, pid, e, pid);
        DeliverAllSame(e.conn, BatchFor(w.registry, pid, e.notes, pid));
      }
    } else {
      Stretches.OthersAreOnlyHanded(cfg, w, step, pid);
    }
  }

  predicate StaysSettled(cfg: Config, steps: seq<Step>, more: seq<Step>, pid: nat, channel: string, b: bool)
    decreases |more|
  {
    more == [] ||
    var front := more[..|more| - 1];
    && StaysSettled(cfg, steps, front, pid, channel, b)
    && pid in RunAll(cfg, steps + front).conns
    && Settles(cfg, RunAll(cfg, steps + front), more[|more| - 1], pid, channel, b)
  }

  lemma {:induction false} UniformStays(cfg: Config, steps: seq<Step>, more: seq<Step>, pid: nat, channel: string, b: bool)
    requires pid in RunAll(cfg, steps).conns && Uniform(RunAll(cfg, steps).conns[pid], channel, b)
    requires StaysSettled(cfg, steps, more, pid, channel, b)
    ensures pid in RunAll(cfg, steps + more).conns && Uniform(RunAll(cfg, steps + more).conns[pid], channel, b)
    decreases |more|
  {
    if more == [] {
      assert steps + more == steps;
    } else {
      var front := more[..|more| - 1];
      UniformStays(cfg, steps, front, pid, channel, b);
      RunSplit(cfg, steps, more);
      StepUniform(cfg, RunAll(cfg, steps + front), more[|more| - 1], pid, channel, b);
    }
  }

  lemma {:induction false} UnlistedBatch(r: Registry, q: nat, notes: seq<Note>, pid: nat, channel: string)
    requires q !in Subscribers(r, channel)
    ensures OnChannel(BatchFor(r, q, notes, pid), channel) == []
    decreases |notes|
  {
    if notes != [] {
      var front := notes[..|notes| - 1];
      UnlistedBatch(r, q, front, pid, channel);
      BatchSnoc(r, q, notes, pid);
      OnChannelSnoc(BatchFor(r, q, front, pid), Notification(pid, notes[|notes| - 1]), channel);
    }
  }

  /** A step hands nothing on a channel to a connection that is not registered for it, unless it pushes
      the message at that connection directly. */
  lemma UnlistedHearsNothing(cfg: Config, w: World, step: Step, q: nat, channel: string)
    requires q in w.conns && q !in Subscribers(w.registry, channel) && !(step.Push? && step.pid == q)
    ensures q in Next(cfg, w, step).conns
    ensures OnChannel(Next(cfg, w, step).conns[q].handed, channel) == OnChannel(w.conns[q].handed, channel)
  {
    match step
    case Own(pid, ev) =>
      if pid in w.conns && Enabled(cfg, w.conns[pid], ev) {
        OwnHandsNothing(cfg, w, pid, ev, q, channel);
      }
    case Broadcast(note, source) =>
      BroadcastHands(w, note, source, q);
      OnChannelSnoc(w.conns[q].handed, Notification(source, note), channel);
      assert w.conns[q].handed + [] == w.conns[q].handed;
    case _ =>
  }

  lemma OwnHandsNothing(cfg: Config, w: World, pid: nat, ev: ServerModel.Event, q: nat, channel: string)
    requires pid in w.conns && q in w.conns && q !in Subscribers(w.registry, channel) && Enabled(cfg, w.conns[pid], ev)
    ensures var w' := Settle(w, pid, OwnEffect(cfg, w.conns[pid], ev));
            q in w'.conns && OnChannel(w'.conns[q].handed, channel) == OnChannel(w.conns[q].handed, channel)
  {
    var e := OwnEffect(cfg, w.conns[pid], ev);
    SettleReaches(w, pid, e, q);
    OwnKeepsHanded(cfg, w.conns[pid], ev);
    UnlistedBatch(w.registry, q, e.notes, pid, channel);
    OnChannelConcat(w.conns[q].handed, BatchFor(w.registry, q, e.notes, pid), channel);
  }

  lemma {:induction false} SilenceStays(cfg: Config, steps: seq<Step>, more: seq<Step>, pid: nat, channel: string)
    requires pid in RunAll(cfg, steps).conns && Uniform(RunAll(cfg, steps).conns[pid], channel, false)
    requires StaysSettled(cfg, steps, more, pid, channel, false)
    ensures pid in RunAll(cfg, steps + more).conns
    ensures Heard(cfg, steps + more, pid, channel) == Heard(cfg, steps, pid, channel)
    decreases |more|
  {
    if more == [] {
      assert steps + more == steps;
    } else {
      var front := more[..|more| - 1];
      SilenceStays(cfg, steps, front, pid, channel);
      UniformStays(cfg, steps, front, pid, channel, false);
      RunSplit(cfg, steps, more);
      EveryRunIsGood(cfg, steps + front);
      assert !Listed(RunAll(cfg, steps + front).registry, channel, pid);
      UnlistedHearsNothing(cfg, RunAll(cfg, steps + front), more[|more| - 1], pid, channel);
    }
  }

  lemma UniformAfter(cfg: Config, steps: seq<Step>, pid: nat, stmt: Stmt, oracle: Oracle, channel: string)
    requires RunsNext(cfg, RunAll(cfg, steps), pid, stmt, oracle) && Statements.Subscribes(stmt)
    requires RunAll(cfg, steps).conns[pid].tx.Idle?
    ensures var w := RunAll(cfg, steps);
            var conns := RunAll(cfg, steps + [Own(pid, Act(oracle))]).conns;
            && pid in conns
            && Uniform(conns[pid], channel, Statements.HeardAfter(stmt, channel, Listed(w.registry, channel, pid)))
  {
    var act := [Own(pid, Act(oracle))];
    SubscriptionsTakeEffect(cfg, steps, pid, stmt, oracle, channel, pid);
    RunSplit(cfg, steps, act);
    assert steps + act[..0] == steps;
    EveryRunIsGood(cfg, steps + act);
    assert GoodConn(RunAll(cfg, steps + act).conns[pid]);
  }

  /** After UNLISTEN of a channel, or UNLISTEN *, outside a transaction, a connection is handed nothing on
      the channel, whatever it and the others do, until it runs LISTEN on it. */
  lemma UnlistenSilences(cfg: Config, steps: seq<Step>, pid: nat, stmt: Stmt, oracle: Oracle, more: seq<Step>, channel: string)
    requires RunsNext(cfg, RunAll(cfg, steps), pid, stmt, oracle) && RunAll(cfg, steps).conns[pid].tx.Idle?
    requires stmt == Unlisten(channel) || stmt == UnlistenAll
    requires StaysSettled(cfg, steps + [Own(pid, Act(oracle))], more, pid, channel, false)
    ensures pid in RunAll(cfg, steps + [Own(pid, Act(oracle))] + more).conns
    ensures Heard(cfg, steps + [Own(pid, Act(oracle))] + more, pid, channel) == Heard(cfg, steps, pid, channel)
  {
    var act := [Own(pid, Act(oracle))];
    UniformAfter(cfg, steps, pid, stmt, oracle, channel);
    SilenceStays(cfg, steps + act, more, pid, channel);
    RunSplit(cfg, steps, act);
    assert steps + act[..0] == steps;
    FanoutIsExact(cfg, steps, pid, Act(oracle), pid);
    OnlyTheseFanOut(cfg, Pop(RunAll(cfg, steps).conns[pid]), stmt, oracle);
    assert BatchFor(RunAll(cfg, steps).registry, pid, [], pid) == [];
    assert RunAll(cfg, steps).conns[pid].handed + [] == RunAll(cfg, steps).conns[pid].handed;
  }

  lemma {:induction false} SettledIsSubscribed(cfg: Config, steps: seq<Step>, more: seq<Step>, pid: nat, channel: string)
    requires pid in RunAll(cfg, steps).conns && Uniform(RunAll(cfg, steps).conns[pid], channel, true)
    requires StaysSettled(cfg, steps, more, pid, channel, true)
    ensures Subscribed(cfg, steps, more, pid, channel)
    decreases |more|
  {
    if more != [] {
      var front := more[..|more| - 1];
      SettledIsSubscribed(cfg, steps, front, pid, channel);
      UniformStays(cfg, steps, front, pid, channel, true);
    }
  }

  /** After LISTEN on a channel outside a transaction a connection is handed everything fanned out on it,
      in order and nothing else on it, until it unsubscribes or ends. */
  lemma ListenHears(cfg: Config, steps: seq<Step>, pid: nat, oracle: Oracle, more: seq<Step>, channel: string)
    requires RunsNext(cfg, RunAll(cfg, steps), pid, Listen(channel), oracle) && RunAll(cfg, steps).conns[pid].tx.Idle?
    requires StaysSettled(cfg, steps + [Own(pid, Act(oracle))], more, pid, channel, true)
    ensures var begun := steps + [Own(pid, Act(oracle))];
            && pid in RunAll(cfg, begun).conns && pid in RunAll(cfg, begun + more).conns
            && Heard(cfg, begun + more, pid, channel) == Heard(cfg, begun, pid, channel) + Fanned(cfg, begun, more, channel)
  {
    var begun := steps + [Own(pid, Act(oracle))];
    UniformAfter(cfg, steps, pid, Listen(channel), oracle, channel);
    SettledIsSubscribed(cfg, begun, more, pid, channel);
    HandedInOrder(cfg, begun, more, pid, channel);
  }
}
