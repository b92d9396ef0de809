/** The stack of copied frames against the reference log: what a transaction keeps, and exactly
    when ROLLBACK TO does what the log says. */
module Transactions {
  import opened Prelude
  import opened SettingValues
  import opened TransactionLog
  import opened SessionStates
  import opened ServerModel
  import opened Delivery

  /** Outside a transaction nothing is pending, nothing is stacked and no setting is local. */
  predicate Settled(s: Sess) {
    s.scopes == [] && s.savepoints == [] && s.core.pending == [] && s.core.visible == s.core.committed
  }

  predicate NotesOnce(s: Sess) {
    NoDuplicates(s.core.pending) && forall i :: 0 <= i < |s.scopes| ==> NoDuplicates(s.scopes[i].pending)
  }

  /** The frames as the log accounts for them: the bottom one is the state at BEGIN, and each other
      one the state when the savepoint it was opened for was taken. */
  ghost predicate Framed(s: Sess, l: Log) {
    && WellFormed(l)
    && s.scopes == [l.base] + Copies(l)
    && s.savepoints == Names(l)
  }

  function Copies(l: Log): (r: seq<Core>)
    ensures |r| == |l.frames|
  {
    seq(|l.frames|, i requires 0 <= i < |l.frames| => Replay(l.base, l.frames[i].events))
  }

  function Names(l: Log): (r: seq<string>)
    ensures |r| == |l.marks|
  {
    seq(|l.marks|, i requires 0 <= i < |l.marks| => l.marks[i].name)
  }

  ghost predicate Lawful(s: Sess, tx: Status, l: Log) {
    if tx.Idle? then Settled(s)
    else
      && Framed(s, l)
      && l.base.pending == [] && l.base.visible == l.base.committed
      && s.core == Current(l)
      && NotesOnce(s)
  }

  ghost predicate LawfulConn(c: Conn) {
    Lawful(c.sess, c.tx, c.log)
  }

  // ---- Each operation keeps it ----

  lemma BeginLawful(c: Conn)
    requires LawfulConn(c) && !c.tx.Failed?
    ensures LawfulConn(BeginStatement(c).conn)
  {
  }

  lemma ChangeLawful(s: Sess, tx: Status, l: Log, e: Change, known: set<string>)
    requires Lawful(s, tx, l) && !tx.Idle?
    ensures Lawful(s.(core := Apply(s.core, e), known := known), tx, LogRecord(l, e))
  {
    var l' := LogRecord(l, e);
    RecordKeepsWellFormed(l, e);
    assert l'.events[..|l'.events| - 1] == l.events;
    assert Copies(l') == Copies(l) && Names(l') == Names(l);
  }

  lemma SavepointLawful(c: Conn, name: string)
    requires LawfulConn(c)
    ensures LawfulConn(SavepointStatement(c, name).conn)
  {
    if !c.tx.Idle? {
      var l' := LogSavepoint(c.log, name);
      SavepointKeepsWellFormed(c.log, name);
      assert Copies(l') == Copies(c.log) + [Current(c.log)];
      assert Names(l') == Names(c.log) + [name];
    }
  }

  lemma ReleaseLawful(c: Conn, name: string)
    requires LawfulConn(c)
    ensures LawfulConn(ReleaseStatement(c, name).conn)
    ensures ReleaseStatement(c, name).conn.sess.core == c.sess.core
  {
    var index := LastIndex(c.sess.savepoints, name);
    if !c.tx.Idle? && index >= 0 {
      var l' := LogRelease(c.log, index);
      ReleaseKeepsWellFormed(c.log, index);
      CopiesCut(c.log, l', index);
      assert Names(l') == Names(c.log)[..index];
    }
  }

  /** Cutting the frames cuts the copies. */
  lemma CopiesCut(l: Log, l': Log, index: nat)
    requires l'.base == l.base && l'.frames == l.frames[..Min(index, |l.frames|)]
    ensures [l.base] + Copies(l') == ([l.base] + Copies(l))[..Min(index + 1, |l.frames| + 1)]
  {
  }

  /** The part of ROLLBACK TO that is not about reports. */
  lemma RestoreLawful(s: Sess, l: Log, index: nat)
    requires Lawful(s, InBlock, l) && index < |s.savepoints|
    ensures var r := RestoreScope(s.(savepoints := s.savepoints[..index + 1]), index + 1);
            Lawful(r, InBlock, LogRollbackTo(l, index))
  {
    var l' := LogRollbackTo(l, index);
    RollbackToKeepsWellFormed(l, index);
    CopiesCut(l, l', index);
    assert Names(l') == Names(l)[..index + 1];
    if index < |l.frames| {
      assert s.scopes[index + 1] == Copies(l)[index];
    }
  }

  lemma RollbackToLawful(cfg: Config, c: Conn, name: string, order: seq<string>)
    requires LawfulConn(c)
    ensures LawfulConn(RollbackToStatement(cfg, c, name, order).conn)
  {
    var index := LastIndex(c.sess.savepoints, name);
    if !c.tx.Idle? && index >= 0 {
      var kept := c.sess.(savepoints := c.sess.savepoints[..index + 1]);
      var c1 := c.(sess := RestoreScope(kept, index + 1), log := LogRollbackTo(c.log, index), tx := InBlock);
      RestoreLawful(c.sess, c.log, index);
      ReportChangedWire(cfg, c1, c.sess.core.visible, order);
    }
  }

  lemma EndBlockLawful(cfg: Config, c: Conn, committed: bool, order: seq<string>)
    requires LawfulConn(c)
    ensures LawfulConn(EndBlock(cfg, c, committed, order).conn)
  {
    if !c.tx.Idle? {
      EndBlockFacts(cfg, c, committed, order);
    }
  }

  /** The end of a transaction block, without its reports. */
  lemma EndBlockFacts(cfg: Config, c: Conn, committed: bool, order: seq<string>)
    requires !c.tx.Idle?
    ensures var cleared := c.sess.(savepoints := []);
            var ended := if committed then CommitTransaction(cleared) else SessionStates.EndTransaction(cleared);
            var e := EndBlock(cfg, c, committed, order);
            && e.conn.tx == Idle
            && e.conn.sess == ended.(core := if committed then ended.core.(pending := []) else ended.core)
            && e.conn.log == c.log
            && e.notes == (if committed then ended.core.pending else [])
            && e.register == Some(ended.core.listening)
            && e.conn.sent == c.sent + e.notes
  {
    var cleared := c.sess.(savepoints := []);
    var ended := if committed then CommitTransaction(cleared) else SessionStates.EndTransaction(cleared);
    ReportChangedWire(cfg, c.(tx := Idle, sess := ended), c.sess.core.visible, order);
    assert c.sent + [] == c.sent;
  }

  /** A change recorded and not yet reported. */
  function Changed(c: Conn, key: string, value: Option<Value>, local: bool): Conn {
    c.(sess := Recorded(c.sess, key, value, local), log := LogRecord(c.log, Write(key, value, local)))
  }

  /** One accepted or refused change: recorded and reported, and when refused put back and reported. */
  lemma ApplyOneIs(cfg: Config, c: Conn, a: Assignment, local: bool, hook: Hook)
    requires cfg.settable(a.name) && Stored(cfg, a).Ok?
    ensures var reported := Report(cfg, Changed(c, a.name, Stored(cfg, a).value, local), a.name);
            ApplySetConfig(cfg, c, a, local, hook).conn ==
            if hook.Refuse? then Report(cfg, reported.(sess := c.sess, log := c.log), a.name) else reported
  {
    UndoRestores(c.sess, a.name, Stored(cfg, a).value, local);
  }

  lemma ApplyOneLawful(cfg: Config, c: Conn, a: Assignment, local: bool, hook: Hook)
    requires LawfulConn(c) && !(local && c.tx.Idle?)
    ensures LawfulConn(ApplySetConfig(cfg, c, a, local, hook).conn)
    ensures hook.Refuse? ==> ApplySetConfig(cfg, c, a, local, hook).conn.sess == c.sess
  {
    if cfg.settable(a.name) && Stored(cfg, a).Ok? {
      ApplyOneIs(cfg, c, a, local, hook);
      if !hook.Refuse? {
        ChangedLawful(c, a.name, Stored(cfg, a).value, local);
      }
    }
  }

  lemma ChangedLawful(c: Conn, key: string, value: Option<Value>, local: bool)
    requires LawfulConn(c) && !(local && c.tx.Idle?)
    ensures LawfulConn(Changed(c, key, value, local))
  {
    if !c.tx.Idle? {
      ChangeLawful(c.sess, c.tx, c.log, Write(key, value, local), c.sess.known + {key});
    }
  }

  lemma {:induction false} ApplyAllLawful(cfg: Config, c: Conn, assignments: seq<Assignment>, local: bool, hooks: seq<Hook>)
    requires LawfulConn(c) && !(local && c.tx.Idle?)
    ensures LawfulConn(ApplyAll(cfg, c, assignments, local, hooks).conn)
    decreases |assignments|
  {
    if assignments != [] {
      var first := ApplySetConfig(cfg, c, assignments[0], local, Answer(hooks));
      ApplyOneLawful(cfg, c, assignments[0], local, Answer(hooks));
      ApplyOneWire(cfg, c, assignments[0], local, Answer(hooks));
      if first.ok {
        ApplyAllLawful(cfg, first.conn, assignments[1..], local, Rest(hooks));
      }
    }
  }

  lemma SubscriptionLawful(c: Conn, e: Change)
    requires LawfulConn(c) && !e.Write? && !e.Raise?
    ensures LawfulConn(SubscriptionStatement(c, e).conn)
  {
    if !c.tx.Idle? {
      ChangeLawful(c.sess, c.tx, c.log, e, c.sess.known);
    }
  }

  lemma NotifyLawful(c: Conn, note: Note)
    requires LawfulConn(c)
    ensures LawfulConn(NotifyStatement(c, note).conn)
  {
    if !c.tx.Idle? {
      ChangeLawful(c.sess, c.tx, c.log, Raise(note), c.sess.known);
    }
  }

  lemma SetLawful(cfg: Config, c: Conn, assignments: seq<Assignment>, local: bool, hooks: seq<Hook>)
    requires LawfulConn(c)
    ensures LawfulConn(SetStatement(cfg, c, assignments, local, hooks).conn)
  {
    if !(local && c.tx.Idle?) {
      ApplyAllLawful(cfg, c, assignments, local, hooks);
    }
  }

  lemma DiscardLawful(cfg: Config, c: Conn, oracle: Oracle)
    requires LawfulConn(c)
    ensures LawfulConn(DiscardAllStatement(cfg, c, oracle).conn)
  {
    ApplyAllLawful(cfg, c, Resets(oracle.order), false, Rest(oracle.hooks));
    ApplyAllWire(cfg, c, Resets(oracle.order), false, Rest(oracle.hooks));
  }

  lemma ExecuteLawful(cfg: Config, c: Conn, stmt: Stmt, oracle: Oracle)
    requires LawfulConn(c) && (c.tx.Failed? ==> AllowedWhenFailed(stmt))
    ensures LawfulConn(Execute(cfg, c, stmt, oracle).conn)
  {
    match stmt
    case Begin => BeginLawful(c);
    case Commit => EndBlockLawful(cfg, c, true, oracle.order);
    case Rollback => EndBlockLawful(cfg, c, false, oracle.order);
    case Savepoint(name) => SavepointLawful(c, name);
    case Release(name) => ReleaseLawful(c, name);
    case RollbackTo(name) => RollbackToLawful(cfg, c, name, oracle.order);
    case Set(assignments, local) => SetLawful(cfg, c, assignments, local, oracle.hooks);
    case ResetAll => ApplyAllLawful(cfg, c, Resets(oracle.order), false, oracle.hooks);
    case DiscardAll => DiscardLawful(cfg, c, oracle);
    case _ => PlainLawful(cfg, c, stmt, oracle);
  }

  lemma PlainLawful(cfg: Config, c: Conn, stmt: Stmt, oracle: Oracle)
    requires LawfulConn(c)
    requires stmt.DiscardOther? || stmt.Listen? || stmt.Unlisten? || stmt.UnlistenAll? || stmt.Notify? || stmt.Query?
    ensures LawfulConn(Execute(cfg, c, stmt, oracle).conn)
  {
    match stmt
    case Listen(channel) => SubscriptionLawful(c, Subscribe(channel));
    case Unlisten(channel) => SubscriptionLawful(c, Unsubscribe(channel));
    case UnlistenAll => SubscriptionLawful(c, UnsubscribeAll);
    case Notify(note) => NotifyLawful(c, note);
    case _ =>
  }

  lemma FailLawful(c: Conn)
    requires LawfulConn(c)
    ensures LawfulConn(FailCommand(c))
  {
  }

  lemma OwnLawful(cfg: Config, c: Conn, ev: ServerModel.Event)
    requires LawfulConn(c) && Enabled(cfg, c, ev)
    ensures LawfulConn(OwnEffect(cfg, c, ev).conn)
  {
    if ev.Act? {
      ActLawful(cfg, c, ev.oracle);
    }
  }

  lemma ActLawful(cfg: Config, c: Conn, oracle: Oracle)
    requires LawfulConn(c) && Enabled(cfg, c, Act(oracle))
    ensures LawfulConn(ActStep(cfg, c, oracle).conn)
  {
    var c1 := Pop(c);
    FailLawful(c1);
    if c.busy.value.todo[0].Run? {
      var stmt := c.busy.value.todo[0].stmt;
      if !c.tx.Failed? || AllowedWhenFailed(stmt) {
        ExecuteLawful(cfg, c1, stmt, oracle);
        FailLawful(Execute(cfg, c1, stmt, oracle).conn);
      }
    }
  }
}
