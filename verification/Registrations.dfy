/** The server's channel registry against what each connection believes it is registered for. */
module Registrations {
  import opened Prelude
  import opened TransactionLog
  import opened SessionStates
  import opened ServerModel
  import opened Delivery
  import opened Transactions

  predicate Listed(r: Registry, channel: string, pid: nat) {
    channel in r && pid in r[channel]
  }

  /** No stored set is empty. */
  predicate NoHusks(r: Registry) {
    forall channel :: channel in r ==> r[channel] != {}
  }

  /** Outside a transaction the registrations are the subscriptions, inside one the subscriptions as
      they were at BEGIN or at the last ROLLBACK TO; a closed connection has none. */
  predicate Anchored(c: Conn) {
    if !c.open then c.registered == {}
    else if c.tx.Idle? then c.registered == c.sess.core.listening
    else c.registered == c.log.synced
  }

  ghost predicate Agreement(w: World) {
    && NoHusks(w.registry)
    && (forall channel, pid :: Listed(w.registry, channel, pid) ==> pid in w.conns)
    && (forall channel, pid :: pid in w.conns ==> (channel in w.conns[pid].registered <==> Listed(w.registry, channel, pid)))
    && (forall pid :: pid in w.conns ==> Anchored(w.conns[pid]))
  }

  lemma RetargetListed(r: Registry, pid: nat, from: set<string>, to: set<string>, channel: string, q: nat)
    requires forall ch :: ch in from <==> Listed(r, ch, pid)
    ensures Listed(Retarget(r, pid, from, to), channel, q) <==>
            if q == pid then channel in to else Listed(r, channel, q)
  {
    if q != pid && Listed(r, channel, q) && channel in from - to {
      assert q in r[channel] - {pid};
    }
    assert channel in from ==> Listed(r, channel, pid);
  }

  lemma RetargetNoHusks(r: Registry, pid: nat, from: set<string>, to: set<string>)
    requires NoHusks(r)
    ensures NoHusks(Retarget(r, pid, from, to))
  {
    var t := Retarget(r, pid, from, to);
    forall channel | channel in t
      ensures t[channel] != {}
    {
      if channel in to - from {
        assert pid in t[channel];
      }
    }
  }

  /** A connection's own step touches its registrations only through `register` and leaves it
      anchored. */
  ghost predicate RegistersRightly(c: Conn, e: Effect) {
    var target := if e.register.Some? then e.register.value else c.registered;
    && e.conn.registered == c.registered
    && Anchored(e.conn.(registered := target))
  }

  /** A statement that does so, registers inside a transaction only if it `may`, and fails without
      registering. */
  ghost predicate Registers(c: Conn, e: Effect, may: bool) {
    && RegistersRightly(c, e) && e.conn.open
    && (!c.tx.Idle? && !e.conn.tx.Idle? && e.register.Some? ==> may)
    && (!e.ok ==> e.register.None?)
  }

  lemma ExecuteRegisters(cfg: Config, c: Conn, stmt: Stmt, oracle: Oracle)
    requires LawfulConn(c) && Anchored(c) && c.open && (c.tx.Failed? ==> AllowedWhenFailed(stmt))
    ensures Registers(c, Execute(cfg, c, stmt, oracle), stmt.RollbackTo?)
  {
    match stmt
    case Begin => BeginRegisters(c);
    case Commit => EndBlockRegisters(cfg, c, true, oracle.order);
    case Rollback => EndBlockRegisters(cfg, c, false, oracle.order);
    case RollbackTo(name) => RollbackToRegisters(cfg, c, name, oracle.order);
    case Set(assignments, local) => SetRegisters(cfg, c, assignments, local, oracle.hooks);
    case ResetAll => ApplyAllRegisters(cfg, c, Resets(oracle.order), false, oracle.hooks);
    case DiscardAll => DiscardRegisters(cfg, c, oracle);
    case Listen(channel) => SubscriptionRegisters(c, Subscribe(channel));
    case Unlisten(channel) => SubscriptionRegisters(c, Unsubscribe(channel));
    case UnlistenAll => SubscriptionRegisters(c, UnsubscribeAll);
    case Notify(note) => NotifyRegisters(c, note);
    case _ => QuietRegisters(cfg, c, stmt, oracle);
  }

  lemma BeginRegisters(c: Conn)
    requires Anchored(c) && c.open && !c.tx.Failed?
    ensures Registers(c, Just(BeginStatement(c)), false)
  {
  }

  lemma QuietRegisters(cfg: Config, c: Conn, stmt: Stmt, oracle: Oracle)
    requires Anchored(c) && c.open && (stmt.Savepoint? || stmt.Release? || stmt.DiscardOther? || stmt.Query?)
    ensures Registers(c, Execute(cfg, c, stmt, oracle), false)
  {
  }

  lemma SubscriptionRegisters(c: Conn, e: Change)
    requires Anchored(c) && c.open
    ensures Registers(c, SubscriptionStatement(c, e), false)
  {
  }

  lemma NotifyRegisters(c: Conn, note: Note)
    requires Anchored(c) && c.open
    ensures Registers(c, NotifyStatement(c, note), false)
  {
  }

  lemma ApplyAllRegisters(cfg: Config, c: Conn, assignments: seq<Assignment>, local: bool, hooks: seq<Hook>)
    requires Anchored(c) && c.open
    ensures Registers(c, Just(ApplyAll(cfg, c, assignments, local, hooks)), false)
  {
    ApplyAllWire(cfg, c, assignments, local, hooks);
    ApplyAllListening(cfg, c, assignments, local, hooks);
  }

  lemma SetRegisters(cfg: Config, c: Conn, assignments: seq<Assignment>, local: bool, hooks: seq<Hook>)
    requires Anchored(c) && c.open
    ensures Registers(c, Just(SetStatement(cfg, c, assignments, local, hooks)), false)
  {
    ApplyAllRegisters(cfg, c, assignments, local, hooks);
  }

  lemma DiscardRegisters(cfg: Config, c: Conn, oracle: Oracle)
    requires Anchored(c) && c.open
    ensures Registers(c, DiscardAllStatement(cfg, c, oracle), false)
  {
    ApplyAllRegisters(cfg, c, Resets(oracle.order), false, Rest(oracle.hooks));
    ApplyAllWire(cfg, c, Resets(oracle.order), false, Rest(oracle.hooks));
  }

  lemma EndBlockRegisters(cfg: Config, c: Conn, committed: bool, order: seq<string>)
    requires Anchored(c) && c.open
    ensures Registers(c, EndBlock(cfg, c, committed, order), false)
    ensures EndBlock(cfg, c, committed, order).conn.tx.Idle? && EndBlock(cfg, c, committed, order).ok
  {
    var cleared := c.sess.(savepoints := []);
    var ended := if committed then CommitTransaction(cleared) else SessionStates.EndTransaction(cleared);
    ReportChangedWire(cfg, c.(tx := Idle, sess := ended), c.sess.core.visible, order);
  }

  lemma RollbackToRegisters(cfg: Config, c: Conn, name: string, order: seq<string>)
    requires LawfulConn(c) && Anchored(c) && c.open
    ensures Registers(c, RollbackToStatement(cfg, c, name, order), true)
  {
    var index := LastIndex(c.sess.savepoints, name);
    if !c.tx.Idle? && index >= 0 {
      var kept := c.sess.(savepoints := c.sess.savepoints[..index + 1]);
      var c1 := c.(sess := RestoreScope(kept, index + 1), log := LogRollbackTo(c.log, index), tx := InBlock);
      ReportChangedWire(cfg, c1, c.sess.core.visible, order);
      RestoreLawful(c.sess, c.log, index);
    }
  }

  lemma {:induction false} ApplyAllListening(cfg: Config, c: Conn, assignments: seq<Assignment>, local: bool, hooks: seq<Hook>)
    ensures ApplyAll(cfg, c, assignments, local, hooks).conn.sess.core.listening == c.sess.core.listening
    ensures ApplyAll(cfg, c, assignments, local, hooks).conn.sess.core.pending == c.sess.core.pending
    decreases |assignments|
  {
    if assignments != [] {
      var first := ApplySetConfig(cfg, c, assignments[0], local, Answer(hooks));
      ApplyOneListening(cfg, c, assignments[0], local, Answer(hooks));
      if first.ok {
        ApplyAllListening(cfg, first.conn, assignments[1..], local, Rest(hooks));
      }
    }
  }

  lemma ApplyOneListening(cfg: Config, c: Conn, a: Assignment, local: bool, hook: Hook)
    ensures ApplySetConfig(cfg, c, a, local, hook).conn.sess.core.listening == c.sess.core.listening
    ensures ApplySetConfig(cfg, c, a, local, hook).conn.sess.core.pending == c.sess.core.pending
  {
    if cfg.settable(a.name) && Stored(cfg, a).Ok? {
      ApplyOneIs(cfg, c, a, local, hook);
    }
  }

  lemma OwnRegisters(cfg: Config, c: Conn, ev: ServerModel.Event)
    requires LawfulConn(c) && Anchored(c) && Enabled(cfg, c, ev)
    ensures RegistersRightly(c, OwnEffect(cfg, c, ev))
    ensures var e := OwnEffect(cfg, c, ev);
            !c.tx.Idle? && !e.conn.tx.Idle? && e.conn.open && e.register.Some? ==>
              ev.Act? && c.busy.value.todo[0].Run? && c.busy.value.todo[0].stmt.RollbackTo?
  {
    if ev.Act? {
      ActRegisters(cfg, c, ev.oracle);
    }
  }

  lemma ActRegisters(cfg: Config, c: Conn, oracle: Oracle)
    requires LawfulConn(c) && Anchored(c) && Enabled(cfg, c, Act(oracle))
    ensures RegistersRightly(c, ActStep(cfg, c, oracle))
    ensures var e := ActStep(cfg, c, oracle);
            !c.tx.Idle? && !e.conn.tx.Idle? && e.conn.open && e.register.Some? ==>
              c.busy.value.todo[0].Run? && c.busy.value.todo[0].stmt.RollbackTo?
  {
    var c1 := Pop(c);
    FailRegisters(c1);
    match c.busy.value.todo[0]
    case Emit(reply) =>
    case Throw =>
    case Run(stmt) =>
      if !c.tx.Failed? || AllowedWhenFailed(stmt) {
        ExecuteRegisters(cfg, c1, stmt, oracle);
        if !Execute(cfg, c1, stmt, oracle).ok {
          RefusedRegisters(c1, Execute(cfg, c1, stmt, oracle), stmt.RollbackTo?);
        }
      }
  }

  lemma FailRegisters(c: Conn)
    requires Anchored(c) && c.open
    ensures RegistersRightly(c, Effect(FailCommand(c), [], None, true))
  {
  }

  lemma RefusedRegisters(c: Conn, e: Effect, may: bool)
    requires Registers(c, e, may) && !e.ok
    ensures Registers(c, e.(conn := FailCommand(e.conn)), may)
  {
  }

  /** Agreement speaks of nothing a delivery changes. */
  lemma DeliverAllSame(c: Conn, batch: seq<Async>)
    ensures var d := DeliverAll(c, batch);
            d.registered == c.registered && d.open == c.open && d.tx == c.tx && d.sess == c.sess && d.log == c.log &&
            d.params == c.params && d.startup == c.startup && d.busy == c.busy && d.sent == c.sent && d.ready == c.ready
  {
  }

  lemma SettleRegistry(w: World, pid: nat, e: Effect)
    requires pid in w.conns && e.conn.registered == w.conns[pid].registered
    ensures Settle(w, pid, e).registry ==
            if e.register.None? then w.registry
            else Retarget(w.registry, pid, w.conns[pid].registered, e.register.value)
    ensures Settle(w, pid, e).conns.Keys == w.conns.Keys
  {
    var w1 := w.(conns := w.conns[pid := e.conn]);
    FanoutReaches(w1, e.notes, pid, pid);
    FanoutKeepsKeys(w1, e.notes, pid);
  }

  lemma SettleAgrees(w: World, pid: nat, e: Effect)
    requires Agreement(w) && pid in w.conns
    requires RegistersRightly(w.conns[pid], e)
    ensures Agreement(Settle(w, pid, e))
  {
    var w' := Settle(w, pid, e);
    var c := w.conns[pid];
    SettleRegistry(w, pid, e);
    if e.register.Some? {
      RetargetNoHusks(w.registry, pid, c.registered, e.register.value);
      assert forall ch :: ch in c.registered <==> Listed(w.registry, ch, pid);
    }
    forall channel, q
      ensures Listed(w'.registry, channel, q) <==>
              if q == pid && e.register.Some? then channel in e.register.value else Listed(w.registry, channel, q)
    {
      if e.register.Some? {
        RetargetListed(w.registry, pid, c.registered, e.register.value, channel, q);
      }
    }
    forall q | q in w'.conns
      ensures Anchored(w'.conns[q])
      ensures w'.conns[q].registered == if q == pid && e.register.Some? then e.register.value else w.conns[q].registered
    {
      SettleReaches(w, pid, e, q);
      var batch := BatchFor(w.registry, q, e.notes, pid);
      DeliverAllSame(w.conns[q], batch);
      DeliverAllSame(e.conn, batch);
      assert Anchored(w.conns[q]);
    }
  }
}
