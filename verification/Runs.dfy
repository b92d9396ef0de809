/** The theorems about every run: any number of connections, any interleaving of their steps. */
module Runs {
  import opened Prelude
  import opened SettingValues
  import opened TransactionLog
  import opened SessionStates
  import opened ServerModel
  import opened Delivery
  import opened Transactions
  import opened Registrations
  import Parameters

  ghost predicate GoodConn(c: Conn) {
    Orderly(c) && LawfulConn(c)
  }

  ghost predicate Good(w: World) {
    Agreement(w) && forall pid :: pid in w.conns ==> GoodConn(w.conns[pid])
  }

  lemma OwnGood(cfg: Config, w: World, pid: nat, ev: ServerModel.Event)
    requires Good(w) && pid in w.conns && Enabled(cfg, w.conns[pid], ev)
    ensures Good(Next(cfg, w, Own(pid, ev)))
  {
    var c := w.conns[pid];
    var e := OwnEffect(cfg, c, ev);
    assert GoodConn(c) && Anchored(c);
    OwnOrderly(cfg, c, ev);
    OwnLawful(cfg, c, ev);
    OwnRegisters(cfg, c, ev);
    SettleGood(w, pid, e);
  }

  lemma SettleGood(w: World, pid: nat, e: Effect)
    requires Good(w) && pid in w.conns && GoodConn(e.conn) && RegistersRightly(w.conns[pid], e)
    ensures Good(Settle(w, pid, e))
  {
    SettleAgrees(w, pid, e);
    SettleRegistry(w, pid, e);
    forall q | q in w.conns
      ensures GoodConn(Settle(w, pid, e).conns[q])
    {
      SettleReaches(w, pid, e, q);
      var batch := BatchFor(w.registry, q, e.notes, pid);
      var before := if q == pid then e.conn else w.conns[q];
      assert GoodConn(w.conns[q]);
      DeliverAllOrderly(before, batch);
      DeliverAllSame(before, batch);
      RegisteredDoesNotMatter(DeliverAll(before, batch), if e.register.Some? then e.register.value else {});
    }
  }

  lemma RegisteredDoesNotMatter(c: Conn, to: set<string>)
    requires GoodConn(c)
    ensures GoodConn(c.(registered := to))
  {
  }

  lemma BroadcastGood(w: World, note: Note, source: nat)
    requires Good(w)
    ensures Good(Fanout(w, note, source))
  {
    var w' := Fanout(w, note, source);
    forall q | q in w.conns
      ensures GoodConn(w'.conns[q]) && Anchored(w'.conns[q]) && w'.conns[q].registered == w.conns[q].registered
    {
      assert GoodConn(w.conns[q]) && Anchored(w.conns[q]);
      DeliverGood(w.conns[q], Notification(source, note));
    }
  }

  lemma DeliverGood(c: Conn, a: Async)
    requires GoodConn(c)
    ensures GoodConn(Deliver(c, a))
  {
    assert Pushes([a]) == [Pushed(a)];
    assert Deliver(c, a) == DeliverAll(c, [a]);
    DeliverAllOrderly(c, [a]);
  }

  lemma PushGood(w: World, pid: nat, a: Async)
    requires Good(w) && pid in w.conns
    ensures Good(w.(conns := w.conns[pid := Deliver(w.conns[pid], a)]))
  {
    assert GoodConn(w.conns[pid]) && Anchored(w.conns[pid]);
    DeliverGood(w.conns[pid], a);
    ReplacedAgrees(w, pid, Deliver(w.conns[pid], a));
  }

  lemma ReplacedAgrees(w: World, pid: nat, c: Conn)
    requires Agreement(w) && pid in w.conns && c.registered == w.conns[pid].registered && Anchored(c)
    ensures Agreement(w.(conns := w.conns[pid := c]))
  {
  }

  lemma ConnectGood(cfg: Config, w: World, pid: nat, s: Startup)
    requires Good(w) && pid !in w.conns
    ensures Good(w.(conns := w.conns[pid := NewConn(cfg, s)]))
  {
    NewConnOrderly(cfg, s);
    assert forall channel :: !Listed(w.registry, channel, pid);
  }

  lemma NextGood(cfg: Config, w: World, step: Step)
    requires Good(w)
    ensures Good(Next(cfg, w, step))
  {
    match step
    case Connect(pid, s) => if pid !in w.conns { ConnectGood(cfg, w, pid, s); }
    case Own(pid, ev) => if pid in w.conns && Enabled(cfg, w.conns[pid], ev) { OwnGood(cfg, w, pid, ev); }
    case Broadcast(note, source) => BroadcastGood(w, note, source);
    case Push(pid, a) => if pid in w.conns && w.conns[pid].open { PushGood(w, pid, a); }
  }

  /** Every reachable state is good: outputs are in order, transactions lawful, the registry agrees. */
  lemma {:induction false} EveryRunIsGood(cfg: Config, steps: seq<Step>)
    ensures Good(RunAll(cfg, steps))
    decreases |steps|
  {
    if steps != [] {
      EveryRunIsGood(cfg, steps[..|steps| - 1]);
      NextGood(cfg, RunAll(cfg, steps[..|steps| - 1]), steps[|steps| - 1]);
    }
  }

  /** A longer run is a shorter one and its last step. */
  lemma RunSplit(cfg: Config, steps: seq<Step>, more: seq<Step>)
    requires more != []
    ensures RunAll(cfg, steps + more) == Next(cfg, RunAll(cfg, steps + more[..|more| - 1]), more[|more| - 1])
  {
    assert (steps + more)[..|steps + more| - 1] == steps + more[..|more| - 1];
  }

  // ---- The output ----

  /** Every pushed message stands beside a ReadyForQuery, with only pushed messages in between, if and
      only if it does not come after the report of a broken byte stream that itself came at a
      ReadyForQuery. */
  lemma PushedOnlyBetweenCommands(cfg: Config, steps: seq<Step>, pid: nat, i: nat)
    requires pid in RunAll(cfg, steps).conns
    requires i < |RunAll(cfg, steps).conns[pid].out| && RunAll(cfg, steps).conns[pid].out[i].Pushed?
    ensures var out := RunAll(cfg, steps).conns[pid].out;
            FollowsReady(out, i) || PrecedesReady(out, i) <==> !AfterFatal(out, i)
  {
    EveryRunIsGood(cfg, steps);
    assert GoodConn(RunAll(cfg, steps).conns[pid]);
    BesideReadyExactly(RunAll(cfg, steps).conns[pid].out, i);
  }

  lemma BesideReadyExactly(out: seq<Out>, i: nat)
    requires Placed(out) && FatalIsLast(out) && i < |out| && out[i].Pushed?
    ensures FollowsReady(out, i) || PrecedesReady(out, i) <==> !AfterFatal(out, i)
  {
    if AfterFatal(out, i) {
      var j :| 0 <= j < i && out[j].FatalError? && AllPushed(out, j + 1, i) && FollowsReady(out, j);
      assert AllPushed(out, j + 1, |out|);
    }
  }

  /** Where a message pushed now would land, told from the two flags: it is written at once exactly when
      the ready flag is set, and then beside a ReadyForQuery if and only if the byte stream has not been
      reported broken. Otherwise it is held back. */
  lemma PushedNowLands(cfg: Config, steps: seq<Step>, pid: nat, a: Async)
    requires pid in RunAll(cfg, steps).conns && RunAll(cfg, steps).conns[pid].open
    ensures var c := RunAll(cfg, steps).conns[pid];
            var d := Next(cfg, RunAll(cfg, steps), Push(pid, a)).conns[pid];
            && (c.ready <==> d.out == c.out + [Pushed(a)])
            && (c.ready ==> (FollowsReady(d.out, |c.out|) <==> !c.doomed))
            && (!c.ready ==> d.out == c.out && d.queue == c.queue + [a])
  {
    EveryRunIsGood(cfg, steps);
    var c := RunAll(cfg, steps).conns[pid];
    assert GoodConn(c);
    if c.ready {
      StandingExactly(c.out, a);
    }
  }

  lemma StandingExactly(out: seq<Out>, a: Async)
    requires Standing(out, |out|) && FatalIsLast(out)
    ensures FollowsReady(out + [Pushed(a)], |out|) <==> NoFatal(out)
  {
    var s := out + [Pushed(a)];
    if FollowsReady(s, |out|) {
      var j :| 0 <= j < |out| && s[j].ReadyForQuery? && AllPushed(s, j + 1, |out|);
      forall k | 0 <= k < |out|
        ensures !out[k].FatalError?
      {
        assert s[k] == out[k] && s[j] == out[j];
      }
    }
    if NoFatal(out) {
      FollowsInFront(out, [Pushed(a)], |out|);
    }
  }

  /** The exception is reachable: a stream broken while idle, and a notification before the task ends. */
  lemma PushedAfterFatal(cfg: Config, s: Startup, a: Async)
    ensures var conns := RunAll(cfg, [Connect(0, s), Own(0, Fatal), Push(0, a)]).conns;
            0 in conns && conns[0].out == StartupMessages(cfg, s) + [FatalError, Pushed(a)]
  {
    var steps := [Connect(0, s), Own(0, Fatal), Push(0, a)];
    OneConnection(cfg, s);
    assert steps[..2][..1] == [Connect(0, s)];
    var w1 := RunAll(cfg, [Connect(0, s)]);
    var c := DoomConn(NewConn(cfg, s));
    SettleReaches(w1, 0, OwnEffect(cfg, w1.conns[0], Fatal), 0);
    assert BatchFor(w1.registry, 0, [], 0) == [];
    assert c.out + Pushes([]) == c.out && c.handed + [] == c.handed;
    assert RunAll(cfg, steps[..2]).conns[0] == c;
    assert c.out + [Pushed(a)] == StartupMessages(cfg, s) + [FatalError, Pushed(a)];
  }

  lemma OneConnection(cfg: Config, s: Startup)
    ensures RunAll(cfg, [Connect(0, s)]) == World(map[0 := NewConn(cfg, s)], map[])
  {
    var steps := [Connect(0, s)];
    assert steps[..0] == [];
    assert RunAll(cfg, []) == START;
    assert RunAll(cfg, steps) == Next(cfg, RunAll(cfg, steps[..0]), steps[0]);
  }

  /** No pushed message splits a command's replies: between two replies around it there is a
      ReadyForQuery, so it is neither inside a run of rows nor after a PortalSuspended. */
  lemma PushedNeverInsideACommand(cfg: Config, steps: seq<Step>, pid: nat, i: nat, j: nat, k: nat)
    requires pid in RunAll(cfg, steps).conns
    requires i < j < k < |RunAll(cfg, steps).conns[pid].out|
    requires var out := RunAll(cfg, steps).conns[pid].out; out[i].Replied? && out[j].Pushed? && out[k].Replied?
    ensures var out := RunAll(cfg, steps).conns[pid].out; exists z :: i < z < k && out[z].ReadyForQuery?
  {
    EveryRunIsGood(cfg, steps);
    assert GoodConn(RunAll(cfg, steps).conns[pid]);
    PushedOnlyBetweenCommands(cfg, steps, pid, j);
    ReadyBetween(RunAll(cfg, steps).conns[pid].out, i, j, k);
  }

  lemma ReadyBetween(out: seq<Out>, i: nat, j: nat, k: nat)
    requires i < j < k < |out| && out[i].Replied? && out[k].Replied? && FatalIsLast(out)
    requires FollowsReady(out, j) || PrecedesReady(out, j) || AfterFatal(out, j)
    ensures exists z :: i < z < k && out[z].ReadyForQuery?
  {
    if FollowsReady(out, j) {
      var z :| 0 <= z < j && out[z].ReadyForQuery? && AllPushed(out, z + 1, j);
    } else if PrecedesReady(out, j) {
      var z :| j < z < |out| && out[z].ReadyForQuery? && AllPushed(out, j + 1, z);
    } else {
      assert false;
    }
  }

  /** What was handed to a connection is what it wrote followed by what it still holds, and it holds
      nothing whenever it stands at a ReadyForQuery. */
  lemma NothingLostOrReordered(cfg: Config, steps: seq<Step>, pid: nat)
    requires pid in RunAll(cfg, steps).conns
    ensures var c := RunAll(cfg, steps).conns[pid];
            c.handed == Messages(c.out) + c.queue && (c.ready ==> c.queue == [] && c.handed == Messages(c.out))
  {
    EveryRunIsGood(cfg, steps);
    assert GoodConn(RunAll(cfg, steps).conns[pid]);
  }

  /** One ReadyForQuery at startup and one for each Query or Sync, except the one being answered or
      cut short by the end of the connection. */
  lemma OneReadyForQueryEach(cfg: Config, steps: seq<Step>, pid: nat)
    requires pid in RunAll(cfg, steps).conns
    ensures var c := RunAll(cfg, steps).conns[pid];
            && c.asked <= |ReadyStatuses(c.out)| <= 1 + c.asked
            && (c.open && !c.doomed ==> |ReadyStatuses(c.out)| == 1 + c.asked - if Answering(c) then 1 else 0)
  {
    EveryRunIsGood(cfg, steps);
    assert GoodConn(RunAll(cfg, steps).conns[pid]);
  }

  // ---- The registry ----

  /** A connection is in the server's set for a channel exactly when it believes it is registered,
      no set is empty, outside a transaction the registrations are the subscriptions, and a closed
      connection is in no set. */
  lemma RegistryAgrees(cfg: Config, steps: seq<Step>)
    ensures Agreement(RunAll(cfg, steps))
  {
    EveryRunIsGood(cfg, steps);
  }

  /** Inside a transaction only ROLLBACK TO moves a connection's registrations. */
  lemma RegistrationsHoldInsideABlock(cfg: Config, steps: seq<Step>, step: Step, pid: nat)
    requires var w := RunAll(cfg, steps); pid in w.conns && !w.conns[pid].tx.Idle?
    requires var w' := Next(cfg, RunAll(cfg, steps), step);
             pid in w'.conns && !w'.conns[pid].tx.Idle? && w'.conns[pid].open &&
             w'.conns[pid].registered != RunAll(cfg, steps).conns[pid].registered
    ensures var c := RunAll(cfg, steps).conns[pid];
            step.Own? && step.pid == pid && step.event.Act? && c.busy.Some? && c.busy.value.todo != [] &&
            c.busy.value.todo[0].Run? && c.busy.value.todo[0].stmt.RollbackTo?
  {
    var w := RunAll(cfg, steps);
    EveryRunIsGood(cfg, steps);
    match step
    case Own(p, ev) =>
      if p in w.conns && Enabled(cfg, w.conns[p], ev) {
        var e := OwnEffect(cfg, w.conns[p], ev);
        assert Anchored(w.conns[p]);
        OwnRegisters(cfg, w.conns[p], ev);
        SettleReaches(w, p, e, pid);
        var batch := BatchFor(w.registry, pid, e.notes, p);
        DeliverAllSame(w.conns[pid], batch);
        DeliverAllSame(e.conn, batch);
      }
    case _ =>
  }

  /** What a ROLLBACK TO does to the registrations, in every run. Before it they are the subscriptions
      at BEGIN or at the last ROLLBACK TO, after it the subscriptions it restores, so it moves them if
      and only if the frame it takes, or the state itself when there is none, holds others than are
      registered. At a transaction's first ROLLBACK TO that is when a LISTEN or UNLISTEN made between
      BEGIN and the savepoint changed the subscriptions. */
  lemma RollbackToRegistersEarly(cfg: Config, steps: seq<Step>, pid: nat, name: string, oracle: Oracle)
    requires RollsBackNext(cfg, RunAll(cfg, steps), pid, name, oracle)
    ensures var c := RunAll(cfg, steps).conns[pid];
            var index := LastIndex(c.sess.savepoints, name);
            var after := Next(cfg, RunAll(cfg, steps), Own(pid, Act(oracle))).conns[pid].registered;
            var kept := if index + 1 < |c.sess.scopes| then c.sess.scopes[index + 1] else c.sess.core;
            && c.registered == c.log.synced
            && after == kept.listening == Replay(c.log.base, GoesBackTo(c.log, index)).listening
            && (after != c.registered <==> kept.listening != c.registered)
            && (!c.log.touched ==>
                  && index < |c.log.marks|
                  && (after != c.registered <==> AtMark(c.log, index).listening != c.log.base.listening))
  {
    EveryRunIsGood(cfg, steps);
    var w := RunAll(cfg, steps);
    var c := w.conns[pid];
    assert GoodConn(c) && Anchored(c);
    RestoredListening(cfg, Pop(c), name, oracle.order);
    SettleRegisters(w, pid, OwnEffect(cfg, c, Act(oracle)));
  }

  /** The subscriptions a ROLLBACK TO restores, and asks to have registered. */
  lemma RestoredListening(cfg: Config, c: Conn, name: string, order: seq<string>)
    requires LawfulConn(c) && !c.tx.Idle? && LastIndex(c.sess.savepoints, name) >= 0
    ensures var index := LastIndex(c.sess.savepoints, name);
            var kept := if index + 1 < |c.sess.scopes| then c.sess.scopes[index + 1] else c.sess.core;
            var e := RollbackToStatement(cfg, c, name, order);
            && e.ok && e.register == Some(kept.listening)
            && kept == Replay(c.log.base, GoesBackTo(c.log, index))
            && (!c.log.touched ==> index < |c.log.marks| && kept == AtMark(c.log, index) && c.log.synced == c.log.base.listening)
  {
    LawfulRollbackTo(cfg, c, name, order);
    RollbackToFacts(cfg, c, name, order);
  }

  lemma SettleRegisters(w: World, pid: nat, e: Effect)
    requires pid in w.conns && e.register.Some?
    ensures pid in Settle(w, pid, e).conns && Settle(w, pid, e).conns[pid].registered == e.register.value
  {
    SettleReaches(w, pid, e, pid);
  }

  /** The connection's next action is a ROLLBACK TO of one of its savepoints. */
  predicate RollsBackNext(cfg: Config, w: World, pid: nat, name: string, oracle: Oracle) {
    && pid in w.conns && Enabled(cfg, w.conns[pid], Act(oracle)) && w.conns[pid].busy.value.todo[0] == Run(RollbackTo(name))
    && !w.conns[pid].tx.Idle? && LastIndex(w.conns[pid].sess.savepoints, name) >= 0
  }

  /** BEGIN; LISTEN x; SAVEPOINT a. */
  function ListeningInside(cfg: Config, c: Conn, o: Oracle): Conn {
    Execute(cfg, Execute(cfg, Execute(cfg, c, Begin, o).conn, Listen("x"), o).conn, Savepoint("a"), o).conn
  }

  /** After BEGIN; LISTEN x; SAVEPOINT a the channel is not registered; ROLLBACK TO a registers it, and
      the transaction is still open. */
  lemma ListenBecomesRealEarly(cfg: Config, w: World, pid: nat, c: Conn, o: Oracle)
    requires c.tx.Idle? && Settled(c.sess) && "x" !in c.registered
    requires pid in w.conns && w.conns[pid] == ListeningInside(cfg, c, o)
    ensures "x" !in w.conns[pid].registered
    ensures var d := Settle(w, pid, Execute(cfg, w.conns[pid], RollbackTo("a"), o)).conns[pid];
            "x" in d.registered && d.tx == InBlock
  {
    var d := w.conns[pid];
    AfterListenInside(cfg, c, o);
    RollbackToFacts(cfg, d, "a", o.order);
    SettleReaches(w, pid, Execute(cfg, d, RollbackTo("a"), o), pid);
  }

  lemma AfterListenInside(cfg: Config, c: Conn, o: Oracle)
    requires c.tx.Idle? && Settled(c.sess)
    ensures var d := ListeningInside(cfg, c, o);
            var heard := Apply(c.sess.core, Subscribe("x"));
            && d.sess == Sess(heard, c.sess.known, [c.sess.core, heard], ["a"])
            && d.tx == InBlock && d.registered == c.registered
  {
    var c1 := Execute(cfg, c, Begin, o).conn;
    assert c1.sess == Sess(c.sess.core, c.sess.known, [c.sess.core], []) && c1.tx == InBlock;
    var c2 := Execute(cfg, c1, Listen("x"), o).conn;
    assert c2.sess == c1.sess.(core := Apply(c.sess.core, Subscribe("x")));
  }

  // ---- Transactions ----

  /** Outside a transaction nothing is pending and both dictionaries are equal; inside one there are
      between 1 and |savepoints| + 1 frames, the bottom one the state at BEGIN and the others the
      states at the savepoints they were opened for, and the state is what the log adds up to. */
  lemma TransactionsAreLawful(cfg: Config, steps: seq<Step>, pid: nat)
    requires pid in RunAll(cfg, steps).conns
    ensures var c := RunAll(cfg, steps).conns[pid];
            var s := c.sess;
            if c.tx.Idle? then s.scopes == [] && s.savepoints == [] && s.core.pending == [] && s.core.visible == s.core.committed
            else
              && 1 <= |s.scopes| <= |s.savepoints| + 1
              && s.scopes == [c.log.base] + Copies(c.log)
              && s.core == Replay(c.log.base, c.log.events)
              && NoDuplicates(s.core.pending)
  {
    EveryRunIsGood(cfg, steps);
    assert GoodConn(RunAll(cfg, steps).conns[pid]);
  }

  /** A log's base is the state at the BEGIN that opened it, and only BEGIN changes it. */
  lemma BaseIsTheStateAtBegin(cfg: Config, c: Conn, stmt: Stmt, oracle: Oracle)
    ensures Execute(cfg, c, stmt, oracle).conn.log.base ==
            if stmt.Begin? && !c.tx.InBlock? then c.sess.core else c.log.base
  {
    match stmt
    case Commit => EndBlockBase(cfg, c, true, oracle.order);
    case Rollback => EndBlockBase(cfg, c, false, oracle.order);
    case RollbackTo(name) => RollbackToBase(cfg, c, name, oracle.order);
    case Set(assignments, local) => ApplyAllWire(cfg, c, assignments, local, oracle.hooks);
    case ResetAll => ApplyAllWire(cfg, c, Resets(oracle.order), false, oracle.hooks);
    case DiscardAll => ApplyAllWire(cfg, c, Resets(oracle.order), false, Rest(oracle.hooks));
    case _ =>
  }

  lemma EndBlockBase(cfg: Config, c: Conn, committed: bool, order: seq<string>)
    ensures EndBlock(cfg, c, committed, order).conn.log == c.log
  {
    if !c.tx.Idle? {
      EndBlockFacts(cfg, c, committed, order);
    }
  }

  lemma RollbackToBase(cfg: Config, c: Conn, name: string, order: seq<string>)
    ensures RollbackToStatement(cfg, c, name, order).conn.log.base == c.log.base
  {
    var index := LastIndex(c.sess.savepoints, name);
    if !c.tx.Idle? && index >= 0 {
      RollbackToFacts(cfg, c, name, order);
    }
  }

  lemma RollbackToFacts(cfg: Config, c: Conn, name: string, order: seq<string>)
    requires !c.tx.Idle? && LastIndex(c.sess.savepoints, name) >= 0
    ensures var index := LastIndex(c.sess.savepoints, name);
            var d := RollbackToStatement(cfg, c, name, order).conn;
            && d.sess == RestoreScope(c.sess.(savepoints := c.sess.savepoints[..index + 1]), index + 1)
            && d.log == LogRollbackTo(c.log, index)
            && d.tx == InBlock
            && RollbackToStatement(cfg, c, name, order).register == Some(d.sess.core.listening)
  {
    var index := LastIndex(c.sess.savepoints, name);
    var kept := c.sess.(savepoints := c.sess.savepoints[..index + 1]);
    ReportChangedWire(cfg, c.(sess := RestoreScope(kept, index + 1), log := LogRollbackTo(c.log, index), tx := InBlock),
                      c.sess.core.visible, order);
  }

  /** ROLLBACK puts back all four transactional components as they stood at BEGIN, in every run and
      whatever ROLLBACK TO did before, and sends nothing. */
  lemma RollbackRestoresBegin(cfg: Config, steps: seq<Step>, pid: nat, order: seq<string>)
    requires pid in RunAll(cfg, steps).conns && !RunAll(cfg, steps).conns[pid].tx.Idle?
    ensures var c := RunAll(cfg, steps).conns[pid];
            var e := EndBlock(cfg, c, false, order);
            e.conn.sess.core == c.log.base && e.conn.tx == Idle && e.notes == [] && e.register == Some(c.log.base.listening)
  {
    EveryRunIsGood(cfg, steps);
    var c := RunAll(cfg, steps).conns[pid];
    assert GoodConn(c);
    EndBlockFacts(cfg, c, false, order);
  }

  /** COMMIT leaves what the log adds up to without its local writes, and hands over for fanout
      exactly the notifications the log raised, each once and in order. */
  lemma CommitKeepsTheLog(cfg: Config, steps: seq<Step>, pid: nat, order: seq<string>)
    requires var c := RunAll(cfg, steps).conns; pid in c && !c[pid].tx.Idle?
    ensures var c := RunAll(cfg, steps).conns[pid];
            var e := EndBlock(cfg, c, true, order);
            var durable := Replay(c.log.base, WithoutLocal(c.log.events));
            && e.conn.tx == Idle
            && e.conn.sess.core == durable.(pending := [])
            && e.notes == durable.pending
            && e.register == Some(durable.listening)
            && NoDuplicates(e.notes)
            && (forall n :: n in e.notes <==> Raise(n) in c.log.events)
  {
    EveryRunIsGood(cfg, steps);
    var c := RunAll(cfg, steps).conns[pid];
    assert GoodConn(c);
    EndBlockFacts(cfg, c, true, order);
    CommitDropsLocal(c.log.base, c.log.events);
    ReplayPending(c.log.base, c.log.events);
  }

  /** COMMIT fans the notifications out in the order of their first NOTIFY. */
  lemma CommitKeepsTheOrder(cfg: Config, steps: seq<Step>, pid: nat, order: seq<string>, n: Note, m: Note)
    requires var c := RunAll(cfg, steps).conns; pid in c && !c[pid].tx.Idle?
    requires var c := RunAll(cfg, steps).conns[pid];
             Raise(n) in c.log.events && Raise(m) in c.log.events &&
             FirstRaise(c.log.events, n) < FirstRaise(c.log.events, m)
    ensures var notes := EndBlock(cfg, RunAll(cfg, steps).conns[pid], true, order).notes;
            IndexOf(notes, n) < IndexOf(notes, m) < |notes|
  {
    CommitKeepsTheLog(cfg, steps, pid, order);
    EveryRunIsGood(cfg, steps);
    var c := RunAll(cfg, steps).conns[pid];
    assert GoodConn(c);
    CommitDropsLocal(c.log.base, c.log.events);
    ReplayPending(c.log.base, c.log.events);
    ReplayPendingOrder(c.log.base, c.log.events);
    var notes := EndBlock(cfg, c, true, order).notes;
    IndexOfFront(notes, notes, m);
  }

  /** ROLLBACK TO takes the state back to what it was when some savepoint was taken: the one it names
      if and only if that savepoint was taken with as many frames as savepoints and not rolled back to
      since, and otherwise one taken later, or it changes nothing. */
  ghost predicate RollsBackExactly(cfg: Config, c: Conn, name: string, order: seq<string>)
    requires Framed(c.sess, c.log) && LastIndex(c.sess.savepoints, name) >= 0
  {
    var l := c.log;
    var index := LastIndex(c.sess.savepoints, name);
    var mark := l.marks[index];
    var d := RollbackToStatement(cfg, c, name, order).conn;
    && mark.name == name && d.tx == InBlock
    && (mark.own <==> index < |l.frames| && l.frames[index].id == mark.id)
    && (mark.own ==> d.sess.core == c.sess.scopes[index + 1] == AtMark(l, index))
    && (!mark.own && index < |l.frames| ==>
          && l.frames[index].id > mark.id
          && d.sess.core == c.sess.scopes[index + 1] == Replay(l.base, l.frames[index].events))
    && (index >= |l.frames| ==> d.sess.core == c.sess.core)
  }

  lemma RollbackToExactly(cfg: Config, steps: seq<Step>, pid: nat, name: string, order: seq<string>)
    requires pid in RunAll(cfg, steps).conns && !RunAll(cfg, steps).conns[pid].tx.Idle?
    requires LastIndex(RunAll(cfg, steps).conns[pid].sess.savepoints, name) >= 0
    ensures var c := RunAll(cfg, steps).conns[pid];
            Framed(c.sess, c.log) && RollsBackExactly(cfg, c, name, order)
  {
    EveryRunIsGood(cfg, steps);
    assert GoodConn(RunAll(cfg, steps).conns[pid]);
    LawfulRollbackTo(cfg, RunAll(cfg, steps).conns[pid], name, order);
  }

  lemma LawfulRollbackTo(cfg: Config, c: Conn, name: string, order: seq<string>)
    requires LawfulConn(c) && !c.tx.Idle? && LastIndex(c.sess.savepoints, name) >= 0
    ensures RollsBackExactly(cfg, c, name, order)
  {
    var index := LastIndex(c.sess.savepoints, name);
    assert FrameMatches(c.log, index);
    assert Names(c.log)[index] == name;
    if index < |c.log.frames| {
      assert c.sess.scopes[index + 1] == Copies(c.log)[index];
    }
    RollbackToFacts(cfg, c, name, order);
  }

  /** Until a transaction's first ROLLBACK TO there are exactly |savepoints| + 1 frames, and that
      first ROLLBACK TO restores the state at the innermost savepoint of the name. */
  lemma FirstRollbackToRestores(cfg: Config, steps: seq<Step>, pid: nat, name: string, order: seq<string>)
    requires pid in RunAll(cfg, steps).conns
    requires var c := RunAll(cfg, steps).conns[pid]; !c.tx.Idle? && !c.log.touched
    ensures var c := RunAll(cfg, steps).conns[pid];
            var index := LastIndex(c.sess.savepoints, name);
            && |c.sess.scopes| == |c.sess.savepoints| + 1
            && (index >= 0 ==>
                  && index < |c.log.marks|
                  && RollbackToStatement(cfg, c, name, order).conn.sess.core == AtMark(c.log, index))
  {
    EveryRunIsGood(cfg, steps);
    var c := RunAll(cfg, steps).conns[pid];
    assert GoodConn(c);
    if LastIndex(c.sess.savepoints, name) >= 0 {
      LawfulRollbackTo(cfg, c, name, order);
    }
  }

  /** BEGIN; SAVEPOINT a; ROLLBACK TO a; LISTEN x. */
  function RolledBackOnce(cfg: Config, c: Conn, o: Oracle): Conn {
    var c1 := Execute(cfg, Execute(cfg, c, Begin, o).conn, Savepoint("a"), o).conn;
    Execute(cfg, Execute(cfg, c1, RollbackTo("a"), o).conn, Listen("x"), o).conn
  }

  lemma AfterSavepoint(cfg: Config, c: Conn, o: Oracle)
    requires c.tx.Idle? && Settled(c.sess)
    ensures var d := Execute(cfg, Execute(cfg, c, Begin, o).conn, Savepoint("a"), o).conn;
            d.sess == Sess(c.sess.core, c.sess.known, [c.sess.core, c.sess.core], ["a"]) && d.tx == InBlock
  {
  }

  lemma AfterRollbackToA(cfg: Config, c: Conn, core: Core, o: Oracle)
    requires !c.tx.Idle? && c.sess == Sess(core, c.sess.known, [core, core], ["a"])
    ensures var d := Execute(cfg, c, RollbackTo("a"), o).conn;
            d.sess == Sess(core, c.sess.known, [core], ["a"]) && d.tx == InBlock
  {
    RollbackToFacts(cfg, c, "a", o.order);
    assert c.sess.savepoints[..1] == ["a"] && c.sess.scopes[..1] == [core];
  }

  lemma AfterRolledBackOnce(cfg: Config, c: Conn, o: Oracle)
    requires c.tx.Idle? && Settled(c.sess)
    ensures var d := RolledBackOnce(cfg, c, o);
            d.sess == Sess(Apply(c.sess.core, Subscribe("x")), c.sess.known, [c.sess.core], ["a"]) && d.tx == InBlock
  {
    var c1 := Execute(cfg, Execute(cfg, c, Begin, o).conn, Savepoint("a"), o).conn;
    AfterSavepoint(cfg, c, o);
    AfterRollbackToA(cfg, c1, c.sess.core, o);
  }

  /** Rolling back a second time to one savepoint restores nothing: the channel subscribed since
      then stays. */
  lemma SecondRollbackToMisses(cfg: Config, c: Conn, o: Oracle)
    requires c.tx.Idle? && Settled(c.sess) && "x" !in c.sess.core.listening
    ensures var once := RolledBackOnce(cfg, c, o);
            var again := Execute(cfg, once, RollbackTo("a"), o);
            again.ok && again.conn.sess.core == once.sess.core != c.sess.core
  {
    AfterRolledBackOnce(cfg, c, o);
    RollbackToFacts(cfg, RolledBackOnce(cfg, c, o), "a", o.order);
  }

  /** With another savepoint in between, it restores that one's state instead. */
  lemma SecondRollbackToTakesAnother(cfg: Config, c: Conn, o: Oracle)
    requires c.tx.Idle? && Settled(c.sess) && "x" !in c.sess.core.listening
    ensures var once := RolledBackOnce(cfg, c, o);
            var later := Execute(cfg, Execute(cfg, once, Savepoint("b"), o).conn, Listen("y"), o).conn;
            var again := Execute(cfg, later, RollbackTo("a"), o);
            again.ok && again.conn.sess.core == once.sess.core != c.sess.core
  {
    var once := RolledBackOnce(cfg, c, o);
    AfterRolledBackOnce(cfg, c, o);
    var later := Execute(cfg, Execute(cfg, once, Savepoint("b"), o).conn, Listen("y"), o).conn;
    assert later.sess.savepoints == ["a", "b"] && later.sess.scopes == [c.sess.core, once.sess.core];
    assert LastIndex(later.sess.savepoints, "a") == 0 by {
      assert later.sess.savepoints[..1] == ["a"];
    }
    RollbackToFacts(cfg, later, "a", o.order);
  }

  // ---- The failed state ----

  /** A failed transaction is left only by COMMIT or ROLLBACK, to Idle, or by ROLLBACK TO, back into
      the block; any other statement fails and changes nothing of the session's state. */
  lemma FailedIsLeftOnlyBy(cfg: Config, c: Conn, stmt: Stmt, oracle: Oracle)
    requires c.tx.Failed? && Enabled(cfg, c, Act(oracle)) && c.busy.value.todo[0] == Run(stmt)
    ensures var e := OwnEffect(cfg, c, Act(oracle));
            if stmt.Commit? || stmt.Rollback? then e.conn.tx == Idle
            else if stmt.RollbackTo? && LastIndex(c.sess.savepoints, stmt.name) >= 0 then e.conn.tx == InBlock
            else RefusedInFailed(c, e)
  {
    var c1 := Pop(c);
    match stmt
    case Commit => EndBlockFacts(cfg, c1, true, oracle.order);
    case Rollback => EndBlockFacts(cfg, c1, false, oracle.order);
    case RollbackTo(name) =>
      if LastIndex(c.sess.savepoints, name) >= 0 {
        RollbackToFacts(cfg, c1, name, oracle.order);
      } else {
        FailedRefuses(c, c1);
      }
    case _ => FailedRefuses(c, c1);
  }

  /** An error, and nothing of the session's state or the log changed. */
  predicate RefusedInFailed(c: Conn, e: Effect) {
    && e.conn.tx == Failed && e.conn.sess == c.sess && e.conn.log == c.log && e.notes == [] && e.register == None
    && e.conn.skipping && e.conn.out == c.out + [Replied(ErrorResponse)]
  }

  lemma FailedRefuses(c: Conn, c1: Conn)
    requires c.tx.Failed? && c1 == c.(busy := c1.busy)
    ensures RefusedInFailed(c, Effect(FailCommand(c1), [], None, true))
    ensures RefusedInFailed(c, Effect(FailCommand(c1), [], None, false))
  {
  }

  // ---- NOTIFY ----

  /** What one statement hands to the server for fanout. */
  lemma OnlyTheseFanOut(cfg: Config, c: Conn, stmt: Stmt, oracle: Oracle)
    ensures Execute(cfg, c, stmt, oracle).notes ==
            if stmt.Notify? && c.tx.Idle? then [stmt.note]
            else if stmt.Commit? && !c.tx.Idle? then c.sess.core.pending
            else []
  {
    match stmt
    case Commit => if !c.tx.Idle? { EndBlockFacts(cfg, c, true, oracle.order); }
    case Rollback => if !c.tx.Idle? { EndBlockFacts(cfg, c, false, oracle.order); }
    case _ =>
  }

  /** One step of a run hands every connection exactly the notifications of that step on channels it
      is registered for at that moment. A step of a connection whose transaction is and stays open
      hands out nothing. */
  lemma FanoutIsExact(cfg: Config, steps: seq<Step>, pid: nat, ev: ServerModel.Event, q: nat)
    requires var w := RunAll(cfg, steps); pid in w.conns && q in w.conns && Enabled(cfg, w.conns[pid], ev)
    ensures var w := RunAll(cfg, steps);
            var e := OwnEffect(cfg, w.conns[pid], ev);
            var w' := Next(cfg, w, Own(pid, ev));
            && q in w'.conns
            && w'.conns[q].handed == w.conns[q].handed + BatchFor(w.registry, q, e.notes, pid)
            && (!w.conns[pid].tx.Idle? && !e.conn.tx.Idle? ==> e.notes == [])
            && NoDuplicates(e.notes)
  {
    var w := RunAll(cfg, steps);
    EveryRunIsGood(cfg, steps);
    assert GoodConn(w.conns[pid]);
    SettleReaches(w, pid, OwnEffect(cfg, w.conns[pid], ev), q);
    OwnKeepsHanded(cfg, w.conns[pid], ev);
    OwnNotes(cfg, w.conns[pid], ev);
  }

  lemma OwnNotes(cfg: Config, c: Conn, ev: ServerModel.Event)
    requires LawfulConn(c) && Enabled(cfg, c, ev)
    ensures var e := OwnEffect(cfg, c, ev);
            (!c.tx.Idle? && !e.conn.tx.Idle? ==> e.notes == []) && NoDuplicates(e.notes)
  {
    if ev.Act? && c.busy.value.todo[0].Run? {
      var stmt := c.busy.value.todo[0].stmt;
      if !c.tx.Failed? || AllowedWhenFailed(stmt) {
        OnlyTheseFanOut(cfg, Pop(c), stmt, ev.oracle);
        if stmt.Commit? && !c.tx.Idle? {
          EndBlockFacts(cfg, Pop(c), true, ev.oracle.order);
        }
      }
    }
  }

  lemma OwnKeepsHanded(cfg: Config, c: Conn, ev: ServerModel.Event)
    requires Enabled(cfg, c, ev)
    ensures OwnEffect(cfg, c, ev).conn.handed == c.handed
  {
    if ev.Act? && c.busy.value.todo[0].Run? {
      ExecuteWire(cfg, Pop(c), c.busy.value.todo[0].stmt, ev.oracle);
    }
  }

  // ---- Reported settings ----

  /** Every connection whose startup burst agreed on a setting is in step with it. */
  ghost predicate AllInStep(cfg: Config, w: World, r: string)
    requires r in cfg.reported
  {
    forall pid :: pid in w.conns && Parameters.StartupAgrees(cfg, w.conns[pid].startup, r) ==>
      Parameters.Current(cfg, w.conns[pid], r)
  }

  lemma OwnStartup(cfg: Config, c: Conn, ev: ServerModel.Event)
    requires Enabled(cfg, c, ev)
    ensures OwnEffect(cfg, c, ev).conn.startup == c.startup
  {
    if ev.Act? && c.busy.value.todo[0].Run? {
      ExecuteStartup(cfg, Pop(c), c.busy.value.todo[0].stmt, ev.oracle);
    }
  }

  lemma ExecuteStartup(cfg: Config, c: Conn, stmt: Stmt, oracle: Oracle)
    ensures Execute(cfg, c, stmt, oracle).conn.startup == c.startup
  {
    match stmt
    case Commit => EndBlockStartup(cfg, c, true, oracle.order);
    case Rollback => EndBlockStartup(cfg, c, false, oracle.order);
    case RollbackTo(name) =>
      var index := LastIndex(c.sess.savepoints, name);
      if !c.tx.Idle? && index >= 0 {
        var kept := c.sess.(savepoints := c.sess.savepoints[..index + 1]);
        ReportChangedWire(cfg, c.(sess := RestoreScope(kept, index + 1), log := LogRollbackTo(c.log, index), tx := InBlock),
                          c.sess.core.visible, oracle.order);
      }
    case Set(assignments, local) => ApplyAllWire(cfg, c, assignments, local, oracle.hooks);
    case ResetAll => ApplyAllWire(cfg, c, Resets(oracle.order), false, oracle.hooks);
    case DiscardAll => ApplyAllWire(cfg, c, Resets(oracle.order), false, Rest(oracle.hooks));
    case _ =>
  }

  lemma EndBlockStartup(cfg: Config, c: Conn, committed: bool, order: seq<string>)
    ensures EndBlock(cfg, c, committed, order).conn.startup == c.startup
  {
    var cleared := c.sess.(savepoints := []);
    var ended := if committed then CommitTransaction(cleared) else SessionStates.EndTransaction(cleared);
    ReportChangedWire(cfg, c.(tx := Idle, sess := ended), c.sess.core.visible, order);
  }

  lemma NextInStep(cfg: Config, w: World, step: Step, r: string)
    requires Parameters.Sound(cfg) && r in cfg.reported && AllInStep(cfg, w, r)
    ensures AllInStep(cfg, Next(cfg, w, step), r)
  {
    var w' := Next(cfg, w, step);
    match step
    case Connect(pid, s) => Parameters.StartupInStep(cfg, s, r);
    case Own(pid, ev) =>
      if pid in w.conns && Enabled(cfg, w.conns[pid], ev) {
        OwnAllInStep(cfg, w, pid, ev, r);
      }
    case Broadcast(note, source) =>
      forall q | q in w.conns && Parameters.StartupAgrees(cfg, w.conns[q].startup, r)
        ensures Parameters.Current(cfg, w'.conns[q], r)
      {
        DeliverInStep(cfg, w.conns[q], Notification(source, note), r);
      }
    case Push(pid, a) =>
      if pid in w.conns && Parameters.StartupAgrees(cfg, w.conns[pid].startup, r) {
        DeliverInStep(cfg, w.conns[pid], a, r);
      }
  }

  lemma DeliverInStep(cfg: Config, c: Conn, a: Async, r: string)
    requires Parameters.Sound(cfg) && r in cfg.reported && Parameters.Current(cfg, c, r)
    ensures Parameters.Current(cfg, Deliver(c, a), r)
  {
    assert Pushes([a]) == [Pushed(a)];
    assert Deliver(c, a) == DeliverAll(c, [a]);
    Parameters.DeliverAllInStep(cfg, c, [a], r);
  }

  lemma OwnAllInStep(cfg: Config, w: World, pid: nat, ev: ServerModel.Event, r: string)
    requires Parameters.Sound(cfg) && r in cfg.reported && AllInStep(cfg, w, r)
    requires pid in w.conns && Enabled(cfg, w.conns[pid], ev)
    ensures AllInStep(cfg, Settle(w, pid, OwnEffect(cfg, w.conns[pid], ev)), r)
  {
    var e := OwnEffect(cfg, w.conns[pid], ev);
    var w' := Settle(w, pid, e);
    FanoutKeepsKeys(w.(conns := w.conns[pid := e.conn]), e.notes, pid);
    OwnStartup(cfg, w.conns[pid], ev);
    forall q | q in w'.conns && Parameters.StartupAgrees(cfg, w'.conns[q].startup, r)
      ensures Parameters.Current(cfg, w'.conns[q], r)
    {
      SettleReaches(w, pid, e, q);
      var before := if q == pid then e.conn else w.conns[q];
      var batch := BatchFor(w.registry, q, e.notes, pid);
      DeliverAllSame(before, batch);
      if q == pid {
        Parameters.OwnInStep(cfg, w.conns[pid], ev, r);
      }
      Parameters.DeliverAllInStep(cfg, before, batch, r);
      Parameters.SameViewInStep(cfg, w'.conns[q], DeliverAll(before, batch), r);
    }
  }

  lemma {:induction false} EveryRunIsInStep(cfg: Config, steps: seq<Step>, r: string)
    requires Parameters.Sound(cfg) && r in cfg.reported
    ensures AllInStep(cfg, RunAll(cfg, steps), r)
    decreases |steps|
  {
    if steps != [] {
      EveryRunIsInStep(cfg, steps[..|steps| - 1], r);
      NextInStep(cfg, RunAll(cfg, steps[..|steps| - 1]), steps[|steps| - 1], r);
    }
  }

  /** The client's cache of a reported setting is what SHOW answers, and a setting the client was never
      told of is at its default. */
  predicate CacheMatches(cfg: Config, c: Conn, r: string)
    requires r in cfg.reported
  {
    match Get(Parameters.Cache(c.out), cfg.reported[r])
    case Some(told) => told == Show(cfg, c, r)
    case None => Show(cfg, c, r) == cfg.default(c.startup, r)
  }

  lemma CacheMatchesShow(cfg: Config, steps: seq<Step>, pid: nat, r: string)
    requires Parameters.Sound(cfg) && r in cfg.reported
    requires pid in RunAll(cfg, steps).conns && RunAll(cfg, steps).conns[pid].ready
    requires Parameters.StartupAgrees(cfg, RunAll(cfg, steps).conns[pid].startup, r)
    ensures CacheMatches(cfg, RunAll(cfg, steps).conns[pid], r)
  {
    EveryRunIsInStep(cfg, steps, r);
    EveryRunIsGood(cfg, steps);
    assert GoodConn(RunAll(cfg, steps).conns[pid]);
  }

  /** After these steps the connection stands at a ReadyForQuery, and its client started with `s`. */
  predicate ReadyAs(cfg: Config, steps: seq<Step>, pid: nat, s: Startup) {
    var conns := RunAll(cfg, steps).conns;
    pid in conns && conns[pid].ready && conns[pid].startup == s
  }

  /** For clients with a given startup packet, the cache matches at every ReadyForQuery of every run if
      and only if what the server announces at startup agrees with the setting's default. */
  lemma CacheAlwaysMatchesExactly(cfg: Config, s: Startup, r: string)
    requires Parameters.Sound(cfg) && r in cfg.reported
    ensures Parameters.StartupAgrees(cfg, s, r) <==>
            forall steps, pid :: ReadyAs(cfg, steps, pid, s) ==> CacheMatches(cfg, RunAll(cfg, steps).conns[pid], r)
  {
    if Parameters.StartupAgrees(cfg, s, r) {
      forall steps, pid | ReadyAs(cfg, steps, pid, s)
        ensures CacheMatches(cfg, RunAll(cfg, steps).conns[pid], r)
      {
        CacheMatchesShow(cfg, steps, pid, r);
      }
    } else {
      OneConnection(cfg, s);
      Parameters.StartupInStep(cfg, s, r);
      assert ReadyAs(cfg, [Connect(0, s)], 0, s);
    }
  }

  /** In every run of the server as it is shipped, at every ReadyForQuery, the client's cache of every
      reported setting is what SHOW answers. */
  lemma ShippedCacheMatches(serverVersion: string, catalog: Catalog, steps: seq<Step>, pid: nat, r: string)
    requires r in REPORTED_SETTINGS
    requires var cfg := Shipped(Parameters.DefaultParameterStatus(serverVersion), catalog);
             pid in RunAll(cfg, steps).conns && RunAll(cfg, steps).conns[pid].ready
    ensures var cfg := Shipped(Parameters.DefaultParameterStatus(serverVersion), catalog);
            CacheMatches(cfg, RunAll(cfg, steps).conns[pid], r)
  {
    var cfg := Shipped(Parameters.DefaultParameterStatus(serverVersion), catalog);
    Parameters.ShippedDefaultIsSound(serverVersion, catalog);
    Parameters.ShippedAgrees(serverVersion, catalog, RunAll(cfg, steps).conns[pid].startup, r);
    CacheMatchesShow(cfg, steps, pid, r);
  }
}
