/** The client's cache of reported settings against what SHOW would answer. */
module Parameters {
  import opened Prelude
  import opened SettingValues
  import opened TransactionLog
  import opened SessionStates
  import opened ServerModel
  import opened Delivery
  import opened Transactions

  /** What a client remembers of the ParameterStatus messages it was sent. */
  function Cache(out: seq<Out>): map<string, string> {
    if out == [] then map[]
    else
      var front := Cache(out[..|out| - 1]);
      match out[|out| - 1]
      case ParameterStatus(name, value) => front[name := value]
      case _ => front
  }

  predicate DistinctNames(params: seq<Param>) {
    forall i, j :: 0 <= i < j < |params| ==> params[i].name != params[j].name
  }

  /** No two settings are reported under one name, and none is announced twice at startup. */
  predicate Sound(cfg: Config) {
    && DistinctNames(cfg.parameterStatus)
    && forall k, l :: k in cfg.reported && l in cfg.reported && k != l ==> cfg.reported[k] != cfg.reported[l]
  }

  /** What the client will believe of a setting once the reports it is owed are out. */
  function Believed(c: Conn, name: string): Option<string> {
    var owed := Assoc(c.params, name);
    if owed.Some? then owed else Get(Cache(c.out), name)
  }

  predicate InStep(cfg: Config, c: Conn, r: string)
    requires r in cfg.reported
  {
    match Believed(c, cfg.reported[r])
    case Some(v) => v == Show(cfg, c, r)
    case None => Show(cfg, c, r) == cfg.default(c.startup, r)
  }

  // ---- Association lists ----

  lemma {:induction false} AssocAssign(params: seq<Param>, name: string, value: string, other: string)
    ensures Assoc(Assign(params, name, value), other) == if other == name then Some(value) else Assoc(params, other)
  {
    if params != [] && params[0].name != name {
      AssocAssign(params[1..], name, value, other);
      assert Assign(params, name, value)[1..] == Assign(params[1..], name, value);
    } else if params != [] {
      assert Assign(params, name, value)[1..] == params[1..];
    }
  }

  lemma {:induction false} AssocNone(params: seq<Param>, name: string)
    ensures Assoc(params, name).None? <==> forall i :: 0 <= i < |params| ==> params[i].name != name
  {
    if params != [] {
      AssocNone(params[1..], name);
      assert forall i :: 0 < i < |params| ==> params[i] == params[1..][i - 1];
    }
  }

  lemma {:induction false} AssignDistinct(params: seq<Param>, name: string, value: string)
    requires DistinctNames(params)
    ensures DistinctNames(Assign(params, name, value))
  {
    if params != [] && params[0].name != name {
      var rest := Assign(params[1..], name, value);
      AssignDistinct(params[1..], name, value);
      AssocNone(params[1..], params[0].name);
      AssocAssign(params[1..], name, value, params[0].name);
      AssocNone(rest, params[0].name);
    } else if params != [] {
      assert Assign(params, name, value)[1..] == params[1..];
    }
  }

  lemma {:induction false} AssocSnoc(params: seq<Param>, p: Param, name: string)
    ensures Assoc(params + [p], name) ==
            if Assoc(params, name).Some? then Assoc(params, name)
            else if p.name == name then Some(p.value) else None
  {
    if params == [] {
      assert params + [p] == [p];
    } else {
      AssocSnoc(params[1..], p, name);
      assert (params + [p])[1..] == params[1..] + [p];
    }
  }

  // ---- The cache ----

  lemma CacheOne(out: seq<Out>, p: Param)
    ensures Cache(out + [ParameterStatus(p.name, p.value)]) == Cache(out)[p.name := p.value]
  {
    var s := out + [ParameterStatus(p.name, p.value)];
    assert s[..|s| - 1] == out;
  }

  lemma StatusesSnoc(out: seq<Out>, front: seq<Param>, p: Param)
    ensures out + Statuses(front + [p]) == out + Statuses(front) + [ParameterStatus(p.name, p.value)]
  {
  }

  lemma {:induction false} CacheStatuses(out: seq<Out>, params: seq<Param>, name: string)
    requires DistinctNames(params)
    ensures Get(Cache(out + Statuses(params)), name) ==
            if Assoc(params, name).Some? then Assoc(params, name) else Get(Cache(out), name)
    decreases |params|
  {
    if params == [] {
      assert out + Statuses(params) == out;
    } else {
      var front := params[..|params| - 1];
      var p := params[|params| - 1];
      assert params == front + [p];
      CacheStatuses(out, front, name);
      StatusesSnoc(out, front, p);
      CacheOne(out + Statuses(front), p);
      AssocSnoc(front, p, name);
      AssocNone(front, p.name);
    }
  }

  lemma {:induction false} CacheIgnores(out: seq<Out>, tail: seq<Out>)
    requires forall i :: 0 <= i < |tail| ==> !tail[i].ParameterStatus?
    ensures Cache(out + tail) == Cache(out)
    decreases |tail|
  {
    if tail == [] {
      assert out + tail == out;
    } else {
      CacheIgnores(out, tail[..|tail| - 1]);
      var s := out + tail;
      assert s[..|s| - 1] == out + tail[..|tail| - 1];
    }
  }

  // ---- Every step keeps the client in step ----

  /** The part of a connection `InStep` looks at. */
  predicate SameView(a: Conn, b: Conn, r: string) {
    && a.startup == b.startup && Cache(a.out) == Cache(b.out) && a.params == b.params
    && Get(a.sess.core.visible, r) == Get(b.sess.core.visible, r)
  }

  lemma SameViewInStep(cfg: Config, a: Conn, b: Conn, r: string)
    requires Sound(cfg) && r in cfg.reported
    requires SameView(a, b, r) && InStep(cfg, b, r)
    ensures InStep(cfg, a, r)
  {
  }

  ghost predicate Current(cfg: Config, c: Conn, r: string)
    requires r in cfg.reported
  {
    DistinctNames(c.params) && InStep(cfg, c, r)
  }

  /** A report puts the client in step with the setting, whatever it believed before. */
  lemma ReportPutsInStep(cfg: Config, c: Conn, r: string)
    requires Sound(cfg) && r in cfg.reported && DistinctNames(c.params)
    ensures Current(cfg, Report(cfg, c, r), r)
  {
    AssocAssign(c.params, cfg.reported[r], Show(cfg, c, r), cfg.reported[r]);
    AssignDistinct(c.params, cfg.reported[r], Show(cfg, c, r));
  }

  /** Reporting the one key that changed. */
  lemma ReportInStep(cfg: Config, before: Conn, c: Conn, key: string, r: string)
    requires Sound(cfg) && r in cfg.reported
    requires Current(cfg, before, r)
    requires c.startup == before.startup && c.out == before.out && DistinctNames(c.params)
    requires r != key ==> Assoc(c.params, cfg.reported[r]) == Assoc(before.params, cfg.reported[r])
    requires r != key ==> Get(c.sess.core.visible, r) == Get(before.sess.core.visible, r)
    ensures Current(cfg, Report(cfg, c, key), r)
  {
    if key in cfg.reported {
      AssocAssign(c.params, cfg.reported[key], Show(cfg, c, key), cfg.reported[r]);
      AssignDistinct(c.params, cfg.reported[key], Show(cfg, c, key));
    }
  }

  lemma ReportElsewhere(cfg: Config, c: Conn, key: string, r: string)
    requires Sound(cfg) && r in cfg.reported
    requires r != key
    ensures Assoc(Report(cfg, c, key).params, cfg.reported[r]) == Assoc(c.params, cfg.reported[r])
  {
    if key in cfg.reported {
      AssocAssign(c.params, cfg.reported[key], Show(cfg, c, key), cfg.reported[r]);
    }
  }

  lemma ChangedElsewhere(c: Conn, key: string, value: Option<Value>, local: bool, r: string)
    requires r != key
    ensures Get(Changed(c, key, value, local).sess.core.visible, r) == Get(c.sess.core.visible, r)
  {
  }

  lemma ApplyOneInStep(cfg: Config, c: Conn, a: Assignment, local: bool, hook: Hook, r: string)
    requires Sound(cfg) && r in cfg.reported
    requires Current(cfg, c, r)
    ensures Current(cfg, ApplySetConfig(cfg, c, a, local, hook).conn, r)
  {
    if cfg.settable(a.name) && Stored(cfg, a).Ok? {
      var c1 := Changed(c, a.name, Stored(cfg, a).value, local);
      ApplyOneIs(cfg, c, a, local, hook);
      if r != a.name {
        ChangedElsewhere(c, a.name, Stored(cfg, a).value, local, r);
      }
      if hook.Refuse? {
        RefusalInStep(cfg, c, c1, Report(cfg, c1, a.name).(sess := c.sess, log := c.log), a.name, r);
      } else {
        ReportInStep(cfg, c, c1, a.name, r);
      }
    }
  }

  /** A change reported, taken back, and reported again. */
  lemma RefusalInStep(cfg: Config, c: Conn, c1: Conn, c3: Conn, key: string, r: string)
    requires Sound(cfg) && r in cfg.reported && Current(cfg, c, r)
    requires c1.startup == c.startup && c1.out == c.out && c1.params == c.params
    requires c3 == Report(cfg, c1, key).(sess := c.sess, log := c.log)
    ensures Current(cfg, Report(cfg, c3, key), r)
  {
    if r != key {
      ReportElsewhere(cfg, c1, key, r);
    }
    if key in cfg.reported {
      AssignDistinct(c1.params, cfg.reported[key], Show(cfg, c1, key));
    }
    ReportInStep(cfg, c, c3, key, r);
  }

  lemma {:induction false} ApplyAllInStep(
    cfg: Config, c: Conn, assignments: seq<Assignment>, local: bool, hooks: seq<Hook>, r: string)
    requires Sound(cfg) && r in cfg.reported
    requires Current(cfg, c, r)
    ensures Current(cfg, ApplyAll(cfg, c, assignments, local, hooks).conn, r)
    decreases |assignments|
  {
    if assignments != [] {
      var first := ApplySetConfig(cfg, c, assignments[0], local, Answer(hooks));
      ApplyOneInStep(cfg, c, assignments[0], local, Answer(hooks), r);
      if first.ok {
        ApplyAllInStep(cfg, first.conn, assignments[1..], local, Rest(hooks), r);
      }
    }
  }

  function NamesOf(names: seq<string>): set<string> {
    set k | k in names
  }

  /** A completed run of resets takes exactly the names it was given out of both dictionaries. */
  lemma {:induction false} ResetsClear(cfg: Config, c: Conn, names: seq<string>, hooks: seq<Hook>)
    requires ApplyAll(cfg, c, Resets(names), false, hooks).ok
    ensures var d := ApplyAll(cfg, c, Resets(names), false, hooks).conn.sess.core;
            && d.visible == c.sess.core.visible - NamesOf(names)
            && d.committed == c.sess.core.committed - NamesOf(names)
    decreases |names|
  {
    if names != [] {
      var first := ApplySetConfig(cfg, c, Resets(names)[0], false, Answer(hooks));
      assert Resets(names)[1..] == Resets(names[1..]);
      ResetOneClears(cfg, c, names[0], Answer(hooks));
      ResetsClear(cfg, first.conn, names[1..], Rest(hooks));
      assert NamesOf(names) == {names[0]} + NamesOf(names[1..]);
    }
  }

  lemma ResetOneClears(cfg: Config, c: Conn, name: string, hook: Hook)
    requires ApplySetConfig(cfg, c, Assignment(name, None), false, hook).ok
    ensures var d := ApplySetConfig(cfg, c, Assignment(name, None), false, hook).conn.sess.core;
            d.visible == c.sess.core.visible - {name} && d.committed == c.sess.core.committed - {name}
  {
  }

  /** A completed RESET ALL empties the visible dictionary, and leaves in the committed one exactly the
      settings that were not visible: ones a SET LOCAL ... TO DEFAULT had hidden. */
  lemma ResetAllExactly(cfg: Config, c: Conn, oracle: Oracle)
    requires Lists(oracle.order, c.sess.core.visible) && ResetAllSettings(cfg, c, oracle).ok
    ensures var d := ResetAllSettings(cfg, c, oracle).conn.sess.core;
            && d.visible == map[]
            && d.committed == c.sess.core.committed - c.sess.core.visible.Keys
            && (d.committed == map[] <==> c.sess.core.committed.Keys <= c.sess.core.visible.Keys)
  {
    ResetsClear(cfg, c, oracle.order, oracle.hooks);
    assert NamesOf(oracle.order) == c.sess.core.visible.Keys;
    NothingLeft(c.sess.core.visible, c.sess.core.visible.Keys);
    NothingLeft(c.sess.core.committed, c.sess.core.visible.Keys);
  }

  lemma NothingLeft(m: Settings, keys: set<string>)
    ensures m - keys == map[] <==> m.Keys <= keys
  {
    if m.Keys <= keys {
      assert (m - keys).Keys == {};
    } else {
      var k :| k in m.Keys && k !in keys;
      assert k in m - keys;
    }
  }

  /** So a COMMIT after a completed RESET ALL brings settings back exactly when some were hidden. */
  lemma ResetAllThenCommit(cfg: Config, c: Conn, oracle: Oracle, order: seq<string>)
    requires !c.tx.Idle? && Lists(oracle.order, c.sess.core.visible) && ResetAllSettings(cfg, c, oracle).ok
    ensures var d := EndBlock(cfg, ResetAllSettings(cfg, c, oracle).conn, true, order).conn.sess.core;
            && d.visible == d.committed == c.sess.core.committed - c.sess.core.visible.Keys
            && (d.visible == map[] <==> c.sess.core.committed.Keys <= c.sess.core.visible.Keys)
  {
    ResetAllExactly(cfg, c, oracle);
    ApplyAllWire(cfg, c, Resets(oracle.order), false, oracle.hooks);
    EndBlockFacts(cfg, ResetAllSettings(cfg, c, oracle).conn, true, order);
  }

  /** BEGIN; SET key; SET LOCAL key TO DEFAULT; RESET ALL; COMMIT, every change accepted. */
  function HiddenThenReset(cfg: Config, c: Conn, key: string, text: string): Conn {
    var o := Oracle([], []);
    var c2 := Execute(cfg, Execute(cfg, c, Begin, o).conn, Set([Assignment(key, Some(text))], false), o).conn;
    var c4 := Execute(cfg, Execute(cfg, c2, Set([Assignment(key, None)], true), o).conn, ResetAll, o).conn;
    Execute(cfg, c4, Commit, o).conn
  }

  /** After that the setting is back, although the RESET ALL completed. */
  lemma ResetAllMissesHidden(cfg: Config, c: Conn, key: string, text: string, value: Value)
    requires c.tx.Idle? && c.sess == EMPTY && cfg.settable(key) && cfg.parse(key, text) == Ok(value)
    ensures HiddenThenReset(cfg, c, key, text).sess.core.visible == map[key := value]
  {
    var o := Oracle([], []);
    var c1 := Execute(cfg, c, Begin, o).conn;
    var c2 := Execute(cfg, c1, Set([Assignment(key, Some(text))], false), o).conn;
    SetOne(cfg, c1, Assignment(key, Some(text)), false);
    assert c2.tx == InBlock && c2.sess.core.visible == c2.sess.core.committed == map[key := value];
    var c3 := Execute(cfg, c2, Set([Assignment(key, None)], true), o).conn;
    SetOne(cfg, c2, Assignment(key, None), true);
    assert c3.tx == InBlock && c3.sess.core.visible == map[] && c3.sess.core.committed == map[key := value];
    var c4 := Execute(cfg, c3, ResetAll, o).conn;
    assert c4 == c3;
    EndBlockFacts(cfg, c4, true, []);
  }

  /** A SET of one setting in an open transaction, accepted by the session. */
  lemma SetOne(cfg: Config, c: Conn, a: Assignment, local: bool)
    requires !c.tx.Idle? && cfg.settable(a.name) && Stored(cfg, a).Ok?
    ensures var d := SetStatement(cfg, c, [a], local, []).conn;
            d.tx == c.tx && d.sess == Recorded(c.sess, a.name, Stored(cfg, a).value, local)
  {
    ApplyOneIs(cfg, c, a, local, Accept);
    assert [a][1..] == [];
    assert ApplyAll(cfg, ApplySetConfig(cfg, c, a, local, Accept).conn, [], local, []).conn == ApplySetConfig(cfg, c, a, local, Accept).conn;
    assert forall b :: b in [a] ==> b == a;
  }

  /** Reporting everything that differs from before. */
  lemma {:induction false} ReportChangedOwes(cfg: Config, c: Conn, before: Settings, order: seq<string>, r: string)
    requires Sound(cfg) && r in cfg.reported
    requires DistinctNames(c.params)
    ensures DistinctNames(ReportChanged(cfg, c, before, order).params)
    ensures Assoc(ReportChanged(cfg, c, before, order).params, cfg.reported[r]) ==
            if r in order && Get(before, r) != Get(c.sess.core.visible, r) then Some(Show(cfg, c, r))
            else Assoc(c.params, cfg.reported[r])
    decreases |order|
  {
    if order != [] {
      var front := order[..|order| - 1];
      var name := order[|order| - 1];
      assert order == front + [name];
      var rest := ReportChanged(cfg, c, before, front);
      ReportChangedOwes(cfg, c, before, front, r);
      ReportChangedWire(cfg, c, before, front);
      if Get(before, name) != Get(c.sess.core.visible, name) {
        if name in cfg.reported {
          AssignDistinct(rest.params, cfg.reported[name], Show(cfg, rest, name));
          AssocAssign(rest.params, cfg.reported[name], Show(cfg, rest, name), cfg.reported[r]);
        }
      }
    }
  }

  lemma ReportChangedInStep(cfg: Config, c: Conn, d: Conn, order: seq<string>, r: string)
    requires Sound(cfg) && r in cfg.reported
    requires Current(cfg, c, r)
    requires d.startup == c.startup && d.out == c.out && d.params == c.params
    requires Covers(order, c.sess.core.visible, d.sess.core.visible)
    ensures Current(cfg, ReportChanged(cfg, d, c.sess.core.visible, order), r)
  {
    ReportChangedOwes(cfg, d, c.sess.core.visible, order, r);
    ReportChangedWire(cfg, d, c.sess.core.visible, order);
    if r !in order {
      assert r !in c.sess.core.visible.Keys + d.sess.core.visible.Keys;
    }
  }

  lemma EndBlockInStep(cfg: Config, c: Conn, committed: bool, order: seq<string>, r: string)
    requires Sound(cfg) && r in cfg.reported
    requires Current(cfg, c, r)
    requires Covers(order, c.sess.core.visible, EndBlock(cfg, c, committed, order).conn.sess.core.visible)
    ensures Current(cfg, EndBlock(cfg, c, committed, order).conn, r)
  {
    if !c.tx.Idle? {
      var cleared := c.sess.(savepoints := []);
      var ended := if committed then CommitTransaction(cleared) else SessionStates.EndTransaction(cleared);
      var d := c.(tx := Idle, sess := ended);
      ReportChangedWire(cfg, d, c.sess.core.visible, order);
      ReportChangedInStep(cfg, c, d, order, r);
    }
  }

  lemma RollbackToInStep(cfg: Config, c: Conn, name: string, order: seq<string>, r: string)
    requires Sound(cfg) && r in cfg.reported
    requires Current(cfg, c, r)
    requires Covers(order, c.sess.core.visible, RollbackToStatement(cfg, c, name, order).conn.sess.core.visible)
    ensures Current(cfg, RollbackToStatement(cfg, c, name, order).conn, r)
  {
    var index := LastIndex(c.sess.savepoints, name);
    if !c.tx.Idle? && index >= 0 {
      var kept := c.sess.(savepoints := c.sess.savepoints[..index + 1]);
      var d := c.(sess := RestoreScope(kept, index + 1), log := LogRollbackTo(c.log, index), tx := InBlock);
      ReportChangedWire(cfg, d, c.sess.core.visible, order);
      ReportChangedInStep(cfg, c, d, order, r);
    }
  }

  lemma NoticeInStep(cfg: Config, c: Conn, r: string)
    requires Sound(cfg) && r in cfg.reported && Current(cfg, c, r)
    ensures Current(cfg, WriteReply(c, OwnNotice), r)
  {
    CacheIgnores(c.out, [Replied(OwnNotice)]);
  }

  lemma SetInStep(cfg: Config, c: Conn, assignments: seq<Assignment>, local: bool, hooks: seq<Hook>, r: string)
    requires Sound(cfg) && r in cfg.reported
    requires Current(cfg, c, r)
    ensures Current(cfg, SetStatement(cfg, c, assignments, local, hooks).conn, r)
  {
    if local && c.tx.Idle? {
      NoticeInStep(cfg, c, r);
    } else {
      ApplyAllInStep(cfg, c, assignments, local, hooks, r);
    }
  }

  lemma DiscardInStep(cfg: Config, c: Conn, oracle: Oracle, r: string)
    requires Sound(cfg) && r in cfg.reported
    requires Current(cfg, c, r) && Lists(oracle.order, c.sess.core.visible)
    ensures Current(cfg, DiscardAllStatement(cfg, c, oracle).conn, r)
  {
    var hooks := Rest(oracle.hooks);
    ApplyAllInStep(cfg, c, Resets(oracle.order), false, hooks, r);
    if ApplyAll(cfg, c, Resets(oracle.order), false, hooks).ok {
      ResetsClear(cfg, c, oracle.order, hooks);
      assert NamesOf(oracle.order) == c.sess.core.visible.Keys;
    }
  }

  lemma ExecuteInStep(cfg: Config, c: Conn, stmt: Stmt, oracle: Oracle, r: string)
    requires Sound(cfg) && r in cfg.reported
    requires Current(cfg, c, r) && Plausible(cfg, c, stmt, oracle)
    ensures Current(cfg, Execute(cfg, c, stmt, oracle).conn, r)
  {
    match stmt
    case Commit => EndBlockInStep(cfg, c, true, oracle.order, r);
    case Rollback => EndBlockInStep(cfg, c, false, oracle.order, r);
    case RollbackTo(name) => RollbackToInStep(cfg, c, name, oracle.order, r);
    case Set(assignments, local) => SetInStep(cfg, c, assignments, local, oracle.hooks, r);
    case ResetAll => ApplyAllInStep(cfg, c, Resets(oracle.order), false, oracle.hooks, r);
    case DiscardAll => DiscardInStep(cfg, c, oracle, r);
    case _ => QuietInStep(cfg, c, stmt, oracle, r);
  }

  /** The statements that report nothing change no setting. */
  lemma QuietInStep(cfg: Config, c: Conn, stmt: Stmt, oracle: Oracle, r: string)
    requires Sound(cfg) && r in cfg.reported && Current(cfg, c, r)
    requires !(stmt.Commit? || stmt.Rollback? || stmt.RollbackTo? || stmt.Set? || stmt.ResetAll? || stmt.DiscardAll?)
    ensures Current(cfg, Execute(cfg, c, stmt, oracle).conn, r)
  {
    QuietKeeps(cfg, c, stmt, oracle);
    SameViewInStep(cfg, Execute(cfg, c, stmt, oracle).conn, c, r);
  }

  /** Nothing the client's view of the settings rests on differs. */
  predicate SameSettings(d: Conn, c: Conn) {
    d.params == c.params && d.sess.core.visible == c.sess.core.visible && d.out == c.out && d.startup == c.startup
  }

  lemma QuietKeeps(cfg: Config, c: Conn, stmt: Stmt, oracle: Oracle)
    requires !(stmt.Commit? || stmt.Rollback? || stmt.RollbackTo? || stmt.Set? || stmt.ResetAll? || stmt.DiscardAll?)
    ensures SameSettings(Execute(cfg, c, stmt, oracle).conn, c)
  {
    match stmt
    case Listen(channel) => SubscriptionKeeps(c, Subscribe(channel));
    case Unlisten(channel) => SubscriptionKeeps(c, Unsubscribe(channel));
    case UnlistenAll => SubscriptionKeeps(c, UnsubscribeAll);
    case Notify(note) => NotifyKeeps(c, note);
    case _ => StackKeeps(cfg, c, stmt, oracle);
  }

  lemma SubscriptionKeeps(c: Conn, e: Change)
    requires !e.Write?
    ensures SameSettings(SubscriptionStatement(c, e).conn, c)
  {
  }

  lemma NotifyKeeps(c: Conn, note: Note)
    ensures SameSettings(NotifyStatement(c, note).conn, c)
  {
  }

  lemma StackKeeps(cfg: Config, c: Conn, stmt: Stmt, oracle: Oracle)
    requires stmt.Begin? || stmt.Savepoint? || stmt.Release? || stmt.DiscardOther? || stmt.Query?
    ensures SameSettings(Execute(cfg, c, stmt, oracle).conn, c)
  {
  }

  lemma DeliverAllInStep(cfg: Config, c: Conn, batch: seq<Async>, r: string)
    requires Sound(cfg) && r in cfg.reported
    requires Current(cfg, c, r)
    ensures Current(cfg, DeliverAll(c, batch), r)
  {
    CacheIgnores(c.out, Pushes(batch));
  }

  lemma FinishInStep(cfg: Config, c: Conn, r: string)
    requires Sound(cfg) && r in cfg.reported
    requires Current(cfg, c, r) && c.busy.Some?
    ensures Current(cfg, FinishStep(c), r)
  {
    if c.busy.value.answers {
      var tail := Pushes(c.queue) + [ReadyForQuery(c.tx)];
      assert c.out + Statuses(c.params) + Pushes(c.queue) + [ReadyForQuery(c.tx)] == c.out + Statuses(c.params) + tail;
      CacheStatuses(c.out, c.params, cfg.reported[r]);
      CacheIgnores(c.out + Statuses(c.params), tail);
    }
  }

  lemma FailInStep(cfg: Config, c: Conn, r: string)
    requires Sound(cfg) && r in cfg.reported
    requires Current(cfg, c, r)
    ensures Current(cfg, FailCommand(c), r)
  {
    CacheIgnores(c.out, [Replied(ErrorResponse)]);
  }

  lemma ActInStep(cfg: Config, c: Conn, oracle: Oracle, r: string)
    requires Sound(cfg) && r in cfg.reported
    requires Current(cfg, c, r) && Enabled(cfg, c, Act(oracle))
    ensures Current(cfg, ActStep(cfg, c, oracle).conn, r)
  {
    var c1 := Pop(c);
    assert Current(cfg, c1, r);
    match c.busy.value.todo[0]
    case Emit(reply) => CacheIgnores(c1.out, [Replied(reply)]);
    case Throw => FailInStep(cfg, c1, r);
    case Run(stmt) =>
      if c.tx.Failed? && !AllowedWhenFailed(stmt) {
        FailInStep(cfg, c1, r);
      } else {
        ExecuteInStep(cfg, c1, stmt, oracle, r);
        FailInStep(cfg, Execute(cfg, c1, stmt, oracle).conn, r);
      }
  }

  lemma OwnInStep(cfg: Config, c: Conn, ev: ServerModel.Event, r: string)
    requires Sound(cfg) && r in cfg.reported
    requires Current(cfg, c, r) && Enabled(cfg, c, ev)
    ensures Current(cfg, OwnEffect(cfg, c, ev).conn, r)
  {
    if ev.Act? {
      ActInStep(cfg, c, ev.oracle, r);
    } else {
      OtherInStep(cfg, c, ev, r);
    }
  }

  lemma OtherInStep(cfg: Config, c: Conn, ev: ServerModel.Event, r: string)
    requires Sound(cfg) && r in cfg.reported && !ev.Act?
    requires Current(cfg, c, r) && Enabled(cfg, c, ev)
    ensures Current(cfg, OwnEffect(cfg, c, ev).conn, r)
  {
    match ev
    case Receive(m) => SameViewInStep(cfg, ReceiveMessage(c, m).conn, c, r);
    case Finish => FinishInStep(cfg, c, r);
    case Cancel => FailInStep(cfg, c, r);
    case Fatal =>
      CacheIgnores(c.out, [FatalError]);
      SameViewInStep(cfg, DoomConn(c), c, r);
    case Hangup => SameViewInStep(cfg, CloseConn(c), c, r);
  }

  // ---- Startup ----

  /** Does what the startup burst says of a setting agree with its default? */
  predicate StartupAgrees(cfg: Config, s: Startup, r: string)
    requires r in cfg.reported
  {
    var sent := Assoc(StartupParams(cfg, s), cfg.reported[r]);
    sent.Some? ==> sent.value == cfg.default(s, r)
  }

  lemma StartupDistinct(cfg: Config, s: Startup)
    requires DistinctNames(cfg.parameterStatus)
    ensures DistinctNames(StartupParams(cfg, s))
  {
    AssocNone(cfg.parameterStatus, "application_name");
  }

  /** At the first ReadyForQuery the client is in step with a setting if and only if the server's
      configured ParameterStatus agrees with that setting's default. */
  lemma StartupInStep(cfg: Config, s: Startup, r: string)
    requires Sound(cfg) && r in cfg.reported
    ensures InStep(cfg, NewConn(cfg, s), r) <==> StartupAgrees(cfg, s, r)
    ensures DistinctNames(NewConn(cfg, s).params)
  {
    var params := StartupParams(cfg, s);
    var head := [Replied(AuthenticationOk)];
    var tail := [Replied(BackendKeyData), ReadyForQuery(Idle)];
    StartupDistinct(cfg, s);
    CacheIgnores([], head);
    assert [] + head == head;
    CacheStatuses(head, params, cfg.reported[r]);
    CacheIgnores(head + Statuses(params), tail);
  }

  /** The burst in order: the authentication, what the server is configured to announce, the application's
      name unless that is among it, the key data, and the first ReadyForQuery. */
  lemma StartupInOrder(cfg: Config, s: Startup, i: nat)
    ensures var out := StartupMessages(cfg, s);
            var n := |cfg.parameterStatus|;
            var named := Assoc(cfg.parameterStatus, "application_name").Some?;
            && |out| == n + (if named then 3 else 4)
            && out[0] == Replied(AuthenticationOk)
            && (i < n ==> out[i + 1] == ParameterStatus(cfg.parameterStatus[i].name, cfg.parameterStatus[i].value))
            && (!named ==> out[n + 1] == ParameterStatus("application_name", s.applicationName))
            && out[|out| - 2..] == [Replied(BackendKeyData), ReadyForQuery(Idle)]
  {
  }

  // ---- The shipped tables ----

  datatype Setting =
    | ApplicationName | ClientEncoding | DateStyle | IntervalStyle | IsSuperuser
    | SearchPath | SessionAuthorization | StandardConformingStrings | TimeZone

  /** The key a reported setting is tracked under. */
  function Key(s: Setting): string {
    match s
    case ApplicationName => "application_name"
    case ClientEncoding => "client_encoding"
    case DateStyle => "datestyle"
    case IntervalStyle => "intervalstyle"
    case IsSuperuser => "is_superuser"
    case SearchPath => "search_path"
    case SessionAuthorization => "session_authorization"
    case StandardConformingStrings => "standard_conforming_strings"
    case TimeZone => "timezone"
  }

  /** The name a client caches it under. */
  function ReportedName(s: Setting): string {
    match s
    case DateStyle => "DateStyle"
    case IntervalStyle => "IntervalStyle"
    case TimeZone => "TimeZone"
    case _ => Key(s)
  }

  lemma KnownSetting(key: string) returns (s: Setting)
    requires key in REPORTED_SETTINGS
    ensures key == Key(s) && REPORTED_SETTINGS[key] == ReportedName(s)
  {
    s := if key == "application_name" then ApplicationName
         else if key == "client_encoding" then ClientEncoding
         else if key == "datestyle" then DateStyle
         else if key == "intervalstyle" then IntervalStyle
         else if key == "is_superuser" then IsSuperuser
         else if key == "search_path" then SearchPath
         else if key == "session_authorization" then SessionAuthorization
         else if key == "standard_conforming_strings" then StandardConformingStrings
         else TimeZone;
  }

  /** No two reported settings have names, or keys, of one length, so none share one. */
  function NameLength(s: Setting): nat {
    match s
    case ApplicationName => 16
    case ClientEncoding => 15
    case DateStyle => 9
    case IntervalStyle => 13
    case IsSuperuser => 12
    case SearchPath => 11
    case SessionAuthorization => 21
    case StandardConformingStrings => 27
    case TimeZone => 8
  }

  lemma NamesDiffer(s: Setting, t: Setting)
    requires s != t
    ensures Key(s) != Key(t) && ReportedName(s) != ReportedName(t)
  {
    LengthOfName(s);
    LengthOfName(t);
  }

  lemma LengthOfName(s: Setting)
    ensures |Key(s)| == |ReportedName(s)| == NameLength(s)
  {
  }

  /** The source's table reports no two settings under one name. */
  lemma ShippedIsSound(parameterStatus: seq<Param>, catalog: Catalog)
    requires DistinctNames(parameterStatus)
    ensures Sound(Shipped(parameterStatus, catalog))
  {
    forall k, l | k in REPORTED_SETTINGS && l in REPORTED_SETTINGS && k != l
      ensures REPORTED_SETTINGS[k] != REPORTED_SETTINGS[l]
    {
      var s := KnownSetting(k);
      var t := KnownSetting(l);
      NamesDiffer(s, t);
    }
  }

  /** What the shipped server announces. */
  function DefaultParameterStatus(serverVersion: string): seq<Param> {
    [Param("server_encoding", "UTF8"), Param("client_encoding", "UTF8"), Param("DateStyle", "ISO, MDY"),
     Param("IntervalStyle", "postgres"), Param("integer_datetimes", "on"), Param("standard_conforming_strings", "on"),
     Param("TimeZone", "UTC"), Param("server_version", serverVersion)]
  }

  lemma DefaultNames(serverVersion: string)
    ensures DistinctNames(DefaultParameterStatus(serverVersion))
  {
    var d := DefaultParameterStatus(serverVersion);
    AnnouncedLengths(serverVersion);
    assert "server_encoding"[0] != "client_encoding"[0];
  }

  lemma AnnouncedLengths(serverVersion: string)
    ensures var d := DefaultParameterStatus(serverVersion);
            forall i :: 0 <= i < |d| ==> |d[i].name| == [15, 15, 9, 13, 17, 27, 8, 14][i]
  {
  }

  lemma DefaultValues(serverVersion: string)
    ensures var d := DefaultParameterStatus(serverVersion);
            && Assoc(d, "client_encoding") == Some("UTF8") && Assoc(d, "DateStyle") == Some("ISO, MDY")
            && Assoc(d, "IntervalStyle") == Some("postgres") && Assoc(d, "TimeZone") == Some("UTC")
            && Assoc(d, "standard_conforming_strings") == Some("on")
  {
    var d := DefaultParameterStatus(serverVersion);
    DefaultNames(serverVersion);
    AssocAt(d, 1);
    AssocAt(d, 2);
    AssocAt(d, 3);
    AssocAt(d, 5);
    AssocAt(d, 6);
  }

  /** What the burst announces of a reported setting before the application's name. */
  function Announced(s: Setting): Option<string> {
    match s
    case ClientEncoding => Some("UTF8")
    case DateStyle => Some("ISO, MDY")
    case IntervalStyle => Some("postgres")
    case StandardConformingStrings => Some("on")
    case TimeZone => Some("UTC")
    case _ => None
  }

  lemma AnnouncedValue(serverVersion: string, s: Setting)
    ensures Assoc(DefaultParameterStatus(serverVersion), ReportedName(s)) == Announced(s)
  {
    if Announced(s).Some? {
      DefaultValues(serverVersion);
    } else {
      NotAnnounced(serverVersion, s);
    }
  }

  lemma NotAnnounced(serverVersion: string, s: Setting)
    requires Announced(s).None?
    ensures Assoc(DefaultParameterStatus(serverVersion), ReportedName(s)) == None
  {
    var d := DefaultParameterStatus(serverVersion);
    LengthOfName(s);
    AnnouncedLengths(serverVersion);
    forall i | 0 <= i < |d|
      ensures d[i].name != ReportedName(s)
    {
      assert |d[i].name| != NameLength(s);
    }
    AssocNone(d, ReportedName(s));
  }

  lemma {:induction false} AssocAt(params: seq<Param>, i: nat)
    requires DistinctNames(params) && i < |params|
    ensures Assoc(params, params[i].name) == Some(params[i].value)
  {
    if i > 0 {
      AssocAt(params[1..], i - 1);
    }
  }

  /** The shipped server's startup burst agrees with every reported setting's default, whoever connects. */
  lemma ShippedAgrees(serverVersion: string, catalog: Catalog, startup: Startup, r: string)
    requires r in REPORTED_SETTINGS
    ensures StartupAgrees(Shipped(DefaultParameterStatus(serverVersion), catalog), startup, r)
  {
    var d := DefaultParameterStatus(serverVersion);
    var s := KnownSetting(r);
    AnnouncedValue(serverVersion, s);
    if s == ApplicationName {
      NameAgrees(d, catalog, startup);
    } else {
      NamesDiffer(s, ApplicationName);
      StartupOther(Shipped(d, catalog), startup, ReportedName(s));
      AnnouncedDefault(serverVersion, startup, s);
    }
  }

  lemma NameAgrees(parameterStatus: seq<Param>, catalog: Catalog, s: Startup)
    requires Assoc(parameterStatus, "application_name") == None
    ensures StartupAgrees(Shipped(parameterStatus, catalog), s, "application_name")
  {
    NameAnnounced(Shipped(parameterStatus, catalog), s);
    assert Default(parameterStatus, s, "application_name") == s.applicationName;
  }

  lemma NameAnnounced(cfg: Config, s: Startup)
    requires Assoc(cfg.parameterStatus, "application_name") == None
    ensures Assoc(StartupParams(cfg, s), "application_name") == Some(s.applicationName)
  {
    AssocSnoc(cfg.parameterStatus, Param("application_name", s.applicationName), "application_name");
  }

  lemma AnnouncedDefault(serverVersion: string, startup: Startup, s: Setting)
    ensures Announced(s).Some? ==> Announced(s) == Some(Default(DefaultParameterStatus(serverVersion), startup, Key(s)))
  {
    if Announced(s).Some? {
      AnnouncedValue(serverVersion, s);
      DefaultOf(DefaultParameterStatus(serverVersion), startup, s);
    }
  }

  /** What an override in the server's configuration has no say in. */
  function Fixed(startup: Startup, s: Setting): Option<string> {
    match s
    case ApplicationName => Some(startup.applicationName)
    case SessionAuthorization => Some(startup.user)
    case IsSuperuser => Some("off")
    case SearchPath => Some("\"$user\", public")
    case StandardConformingStrings => Some("on")
    case _ => None
  }

  /** What a reported setting nobody set reads as: what the client started with, or a fixed value, or what
      the server is configured to announce, or its built-in value when that says nothing. */
  lemma DefaultOf(d: seq<Param>, startup: Startup, s: Setting)
    ensures Fixed(startup, s).Some? || Announced(s).Some?
    ensures Default(d, startup, Key(s)) ==
            if Fixed(startup, s).Some? then Fixed(startup, s).value
            else Or(Assoc(d, ReportedName(s)), Announced(s).value)
  {
    LengthOfName(s);
    LengthOfName(ApplicationName);
    LengthOfName(ClientEncoding);
    LengthOfName(DateStyle);
    LengthOfName(IntervalStyle);
    LengthOfName(IsSuperuser);
    LengthOfName(SearchPath);
    LengthOfName(SessionAuthorization);
    LengthOfName(StandardConformingStrings);
  }

  /** The nine settings are reported, under these names, and no others are. */
  lemma ReportedAre(key: string)
    ensures key in REPORTED_SETTINGS <==> exists s: Setting :: key == Key(s)
    ensures forall s: Setting :: Key(s) in REPORTED_SETTINGS && REPORTED_SETTINGS[Key(s)] == ReportedName(s)
  {
    if key in REPORTED_SETTINGS {
      var s := KnownSetting(key);
    }
    forall s: Setting
      ensures Key(s) in REPORTED_SETTINGS && REPORTED_SETTINGS[Key(s)] == ReportedName(s)
    {
      IsReported(s);
    }
  }

  lemma IsReported(s: Setting)
    ensures Key(s) in REPORTED_SETTINGS && REPORTED_SETTINGS[Key(s)] == ReportedName(s)
  {
    assert Key(s) in REPORTED_SETTINGS.Keys;
    var t := KnownSetting(Key(s));
    if s != t {
      NamesDiffer(s, t);
    }
  }

  lemma ShippedDefaultIsSound(serverVersion: string, catalog: Catalog)
    ensures Sound(Shipped(DefaultParameterStatus(serverVersion), catalog))
  {
    DefaultNames(serverVersion);
    ShippedIsSound(DefaultParameterStatus(serverVersion), catalog);
  }

  /** Embedding code that writes `parameter_status` can break the agreement: here the burst says off
      and SHOW says on. */
  lemma OverriddenDisagrees(catalog: Catalog, s: Startup)
    ensures var cfg := Shipped([Param("standard_conforming_strings", "off")], catalog);
            && "standard_conforming_strings" in cfg.reported
            && !StartupAgrees(cfg, s, "standard_conforming_strings")
  {
    var cfg := Shipped([Param("standard_conforming_strings", "off")], catalog);
    NamesDiffer(StandardConformingStrings, ApplicationName);
    StartupOther(cfg, s, "standard_conforming_strings");
    DefaultOf(cfg.parameterStatus, s, StandardConformingStrings);
    assert "off"[1] != "on"[1];
  }

  lemma StartupOther(cfg: Config, s: Startup, name: string)
    requires name != "application_name"
    ensures Assoc(StartupParams(cfg, s), name) == Assoc(cfg.parameterStatus, name)
  {
    if Assoc(cfg.parameterStatus, "application_name").Some? {
      assert StartupParams(cfg, s) == cfg.parameterStatus;
    } else {
      AssocSnoc(cfg.parameterStatus, Param("application_name", s.applicationName), name);
    }
  }
}
