/** What each statement does to the session, told by membership and by key rather than by the functions
    that do it, and when it fails. */
module Statements {
  import opened Prelude
  import opened SettingValues
  import opened TransactionLog
  import opened SessionStates
  import opened ServerModel
  import opened Delivery
  import opened Transactions
  import Parameters
  import Runs

  // ---- When a statement fails ----

  /** A name no savepoint of the transaction has, or no transaction at all. */
  predicate NoSuchSavepoint(c: Conn, name: string) {
    c.tx.Idle? || name !in c.sess.savepoints
  }

  function HookAt(hooks: seq<Hook>, i: nat): Hook {
    if i < |hooks| then hooks[i] else Accept
  }

  /** Can the i-th of these changes be made: may the setting be set, does the text mean a value, and does
      the session accept it? */
  predicate Goes(cfg: Config, assignments: seq<Assignment>, hooks: seq<Hook>, i: nat)
    requires i < |assignments|
  {
    cfg.settable(assignments[i].name) && Stored(cfg, assignments[i]).Ok? && HookAt(hooks, i).Accept?
  }

  predicate AllGo(cfg: Config, assignments: seq<Assignment>, hooks: seq<Hook>) {
    forall i :: 0 <= i < |assignments| ==> Goes(cfg, assignments, hooks, i)
  }

  /** A SET LOCAL outside a transaction does nothing, and so cannot fail on a value. */
  predicate SetFails(cfg: Config, c: Conn, assignments: seq<Assignment>, local: bool, hooks: seq<Hook>) {
    if local && c.tx.Idle? then exists i :: 0 <= i < |assignments| && !cfg.settable(assignments[i].name)
    else !AllGo(cfg, assignments, hooks)
  }

  predicate Fails(cfg: Config, c: Conn, stmt: Stmt, oracle: Oracle) {
    match stmt
    case Savepoint(_) => c.tx.Idle?
    case Release(name) => NoSuchSavepoint(c, name)
    case RollbackTo(name) => NoSuchSavepoint(c, name)
    case Set(assignments, local) => SetFails(cfg, c, assignments, local, oracle.hooks)
    case ResetAll => !AllGo(cfg, Resets(oracle.order), oracle.hooks)
    case DiscardAll =>
      !c.tx.Idle? || !HookAt(oracle.hooks, 0).Accept? || !AllGo(cfg, Resets(oracle.order), Rest(oracle.hooks))
    case DiscardOther => !HookAt(oracle.hooks, 0).Accept?
    case _ => false
  }

  lemma {:induction false} ApplyAllFails(cfg: Config, c: Conn, assignments: seq<Assignment>, local: bool, hooks: seq<Hook>)
    ensures ApplyAll(cfg, c, assignments, local, hooks).ok <==> AllGo(cfg, assignments, hooks)
    decreases |assignments|
  {
    if assignments != [] {
      var first := ApplySetConfig(cfg, c, assignments[0], local, Answer(hooks));
      assert first.ok <==> Goes(cfg, assignments, hooks, 0);
      if first.ok {
        ApplyAllFails(cfg, first.conn, assignments[1..], local, Rest(hooks));
        forall i | 0 < i < |assignments|
          ensures Goes(cfg, assignments, hooks, i) <==> Goes(cfg, assignments[1..], Rest(hooks), i - 1)
        {
        }
        assert forall i :: 0 <= i < |assignments| - 1 ==>
                 (Goes(cfg, assignments[1..], Rest(hooks), i) <==> Goes(cfg, assignments, hooks, i + 1));
      }
    }
  }

  lemma SetFailsExactly(cfg: Config, c: Conn, assignments: seq<Assignment>, local: bool, hooks: seq<Hook>)
    ensures SetStatement(cfg, c, assignments, local, hooks).ok <==> !SetFails(cfg, c, assignments, local, hooks)
  {
    ApplyAllFails(cfg, c, assignments, local, hooks);
    if exists a :: a in assignments && !cfg.settable(a.name) {
      var a :| a in assignments && !cfg.settable(a.name);
      var i :| 0 <= i < |assignments| && assignments[i] == a;
      assert !Goes(cfg, assignments, hooks, i);
    }
  }

  lemma SavepointFound(c: Conn, name: string)
    ensures LastIndex(c.sess.savepoints, name) >= 0 <==> name in c.sess.savepoints
  {
  }

  /** A statement fails exactly when this says so. */
  lemma FailsExactly(cfg: Config, c: Conn, stmt: Stmt, oracle: Oracle)
    ensures Execute(cfg, c, stmt, oracle).ok <==> !Fails(cfg, c, stmt, oracle)
  {
    match stmt
    case Release(name) => SavepointFound(c, name);
    case RollbackTo(name) => SavepointFound(c, name);
    case Set(assignments, local) => SetFailsExactly(cfg, c, assignments, local, oracle.hooks);
    case ResetAll => ApplyAllFails(cfg, c, Resets(oracle.order), false, oracle.hooks);
    case DiscardAll => ApplyAllFails(cfg, c, Resets(oracle.order), false, Rest(oracle.hooks));
    case _ =>
  }

  // ---- The transaction status ----

  /** The status a statement leaves. */
  function StatusAfter(cfg: Config, c: Conn, stmt: Stmt, oracle: Oracle): Status {
    if Fails(cfg, c, stmt, oracle) then c.tx
    else if stmt.Begin? || stmt.RollbackTo? then InBlock
    else if stmt.Commit? || stmt.Rollback? then Idle
    else c.tx
  }

  lemma StatusExactly(cfg: Config, c: Conn, stmt: Stmt, oracle: Oracle)
    ensures Execute(cfg, c, stmt, oracle).conn.tx == StatusAfter(cfg, c, stmt, oracle)
  {
    FailsExactly(cfg, c, stmt, oracle);
    match stmt
    case Commit => EndStatus(cfg, c, true, oracle.order);
    case Rollback => EndStatus(cfg, c, false, oracle.order);
    case RollbackTo(name) =>
      if !Fails(cfg, c, stmt, oracle) {
        Runs.RollbackToFacts(cfg, c, name, oracle.order);
      }
    case Set(assignments, local) => ApplyAllWire(cfg, c, assignments, local, oracle.hooks);
    case ResetAll => ApplyAllWire(cfg, c, Resets(oracle.order), false, oracle.hooks);
    case DiscardAll => ApplyAllWire(cfg, c, Resets(oracle.order), false, Rest(oracle.hooks));
    case _ =>
  }

  lemma EndStatus(cfg: Config, c: Conn, committed: bool, order: seq<string>)
    ensures EndBlock(cfg, c, committed, order).conn.tx == Idle
  {
    if !c.tx.Idle? {
      EndBlockFacts(cfg, c, committed, order);
    }
  }

  // ---- Subscriptions ----

  /** Is a channel subscribed to after the statement, given whether it was before? */
  predicate HeardAfter(stmt: Stmt, channel: string, before: bool) {
    match stmt
    case Listen(x) => channel == x || before
    case Unlisten(x) => channel != x && before
    case UnlistenAll => false
    case _ => before
  }

  predicate Subscribes(stmt: Stmt) {
    stmt.Listen? || stmt.Unlisten? || stmt.UnlistenAll?
  }

  /** LISTEN, UNLISTEN and UNLISTEN * change the subscriptions, and of the session nothing else; outside a
      transaction they ask for the registrations to follow, and inside they do not. */
  lemma SubscriptionsExactly(cfg: Config, c: Conn, stmt: Stmt, oracle: Oracle)
    requires Subscribes(stmt)
    ensures var e := Execute(cfg, c, stmt, oracle);
            var d := e.conn;
            && (forall x :: x in d.sess.core.listening <==> HeardAfter(stmt, x, x in c.sess.core.listening))
            && d == c.(sess := c.sess.(core := c.sess.core.(listening := d.sess.core.listening)), log := d.log)
            && e.notes == []
            && e.register == (if c.tx.Idle? then Some(d.sess.core.listening) else None)
  {
  }

  // ---- Notifications ----

  /** NOTIFY in a transaction puts its notification behind the pending ones, unless it is among them, and
      fans nothing out; outside one it fans it out and keeps nothing. */
  lemma NotifyExactly(cfg: Config, c: Conn, note: Note, oracle: Oracle)
    ensures var e := Execute(cfg, c, Notify(note), oracle);
            var d := e.conn;
            && (c.tx.Idle? ==> e.notes == [note] && d.sess == c.sess)
            && (!c.tx.Idle? ==>
                  && e.notes == []
                  && c.sess.core.pending <= d.sess.core.pending
                  && (forall n :: n in d.sess.core.pending <==> n == note || n in c.sess.core.pending)
                  && (note in c.sess.core.pending ==> d.sess.core.pending == c.sess.core.pending)
                  && d.sess == c.sess.(core := c.sess.core.(pending := d.sess.core.pending))
                  && d.log == c.log.(events := c.log.events + [Raise(note)]))
  {
  }

  // ---- Savepoints ----

  /** The stack up to the innermost savepoint of the name, that one left out. */
  predicate UpTo(stack: seq<string>, name: string, kept: seq<string>) {
    && |kept| < |stack| && kept == stack[..|kept|] && stack[|kept|] == name
    && name !in stack[|kept| + 1..]
  }

  /** SAVEPOINT puts its name on the stack and a copy of the state on the frames. */
  lemma SavepointExactly(cfg: Config, c: Conn, name: string, oracle: Oracle)
    requires !c.tx.Idle?
    ensures var d := Execute(cfg, c, Savepoint(name), oracle).conn;
            && d.sess.savepoints == c.sess.savepoints + [name]
            && d.sess.scopes == c.sess.scopes + [c.sess.core]
            && d.sess.core == c.sess.core
  {
  }

  /** RELEASE takes the innermost savepoint of the name and everything inside it off the stack, with
      their frames, and keeps the state. */
  lemma ReleaseExactly(cfg: Config, c: Conn, name: string, oracle: Oracle)
    requires !c.tx.Idle? && name in c.sess.savepoints
    ensures var d := Execute(cfg, c, Release(name), oracle).conn;
            && UpTo(c.sess.savepoints, name, d.sess.savepoints)
            && d.sess.scopes == c.sess.scopes[..Min(|d.sess.savepoints| + 1, |c.sess.scopes|)]
            && d.sess.core == c.sess.core
  {
    SavepointFound(c, name);
    var index := LastIndex(c.sess.savepoints, name);
    assert name !in c.sess.savepoints[index + 1..];
  }

  /** ROLLBACK TO takes everything inside the innermost savepoint of the name off the stack, and keeps that
      one. */
  lemma RollbackToStack(cfg: Config, c: Conn, name: string, oracle: Oracle)
    requires !c.tx.Idle? && name in c.sess.savepoints
    ensures var stack := Execute(cfg, c, RollbackTo(name), oracle).conn.sess.savepoints;
            && stack != [] && stack[|stack| - 1] == name
            && UpTo(c.sess.savepoints, name, stack[..|stack| - 1])
  {
    SavepointFound(c, name);
    var index := LastIndex(c.sess.savepoints, name);
    assert name !in c.sess.savepoints[index + 1..];
    Runs.RollbackToFacts(cfg, c, name, oracle.order);
  }

  /** BEGIN outside an open block starts an empty stack over one frame, the state as it is; inside it does
      nothing. */
  lemma BeginExactly(cfg: Config, c: Conn, oracle: Oracle)
    ensures var d := Execute(cfg, c, Begin, oracle).conn;
            if c.tx.InBlock? then d == c
            else
              && d.tx == InBlock && d.sess.savepoints == [] && d.sess.core == c.sess.core
              && d.sess.scopes == c.sess.scopes + [c.sess.core]
  {
  }

  // ---- Settings ----

  /** The last of the assignments to a key. */
  function LastTo(assignments: seq<Assignment>, key: string): (i: int)
    ensures -1 <= i < |assignments|
    ensures i >= 0 ==> assignments[i].name == key
    ensures forall j :: i < j < |assignments| ==> assignments[j].name != key
  {
    if assignments == [] then -1
    else if assignments[|assignments| - 1].name == key then |assignments| - 1
    else LastTo(assignments[..|assignments| - 1], key)
  }

  /** A setting after these changes: what its last change stores, or what it was. */
  function Assigned(cfg: Config, assignments: seq<Assignment>, key: string, before: Option<Value>): Option<Value> {
    var i := LastTo(assignments, key);
    if i < 0 then before else if Stored(cfg, assignments[i]).Ok? then Stored(cfg, assignments[i]).value else before
  }

  lemma LastToFront(assignments: seq<Assignment>, key: string)
    requires assignments != []
    ensures LastTo(assignments, key) ==
            if LastTo(assignments[1..], key) >= 0 then LastTo(assignments[1..], key) + 1
            else if assignments[0].name == key then 0 else -1
  {
    var rest := assignments[1..];
    var j := LastTo(rest, key);
    assert forall k :: 0 < k < |assignments| ==> assignments[k] == rest[k - 1];
    LastToIs(assignments, key, if j >= 0 then j + 1 else if assignments[0].name == key then 0 else -1);
  }

  lemma LastToIs(assignments: seq<Assignment>, key: string, i: int)
    requires -1 <= i < |assignments|
    requires i >= 0 ==> assignments[i].name == key
    requires forall j :: i < j < |assignments| ==> assignments[j].name != key
    ensures LastTo(assignments, key) == i
  {
  }

  lemma AssignedFront(cfg: Config, assignments: seq<Assignment>, key: string, before: Option<Value>)
    requires assignments != []
    requires forall i :: 0 <= i < |assignments| ==> Stored(cfg, assignments[i]).Ok?
    ensures var a := assignments[0];
            Assigned(cfg, assignments, key, before) ==
            Assigned(cfg, assignments[1..], key, if a.name == key then Stored(cfg, a).value else before)
  {
    LastToFront(assignments, key);
  }

  /** The value a change that goes through leaves under a key. */
  function Changes(cfg: Config, a: Assignment, key: string, before: Option<Value>): Option<Value>
    requires Stored(cfg, a).Ok?
  {
    if a.name == key then Stored(cfg, a).value else before
  }

  lemma OneGoes(cfg: Config, c: Conn, a: Assignment, local: bool, hook: Hook, k: string)
    requires cfg.settable(a.name) && Stored(cfg, a).Ok? && hook.Accept?
    ensures var o := ApplySetConfig(cfg, c, a, local, hook);
            var s := o.conn.sess;
            && o.ok
            && Get(s.core.visible, k) == Changes(cfg, a, k, Get(c.sess.core.visible, k))
            && Get(s.core.committed, k) ==
               (if local then Get(c.sess.core.committed, k) else Changes(cfg, a, k, Get(c.sess.core.committed, k)))
            && s.known == c.sess.known + {a.name} && Beside(s, c.sess)
  {
    ApplyOneIs(cfg, c, a, local, hook);
    ReportWire(cfg, Changed(c, a.name, Stored(cfg, a).value, local), a.name);
  }

  /** The same in everything but the settings. */
  predicate Beside(s: Sess, t: Sess) {
    s.core.listening == t.core.listening && s.core.pending == t.core.pending && s.scopes == t.scopes && s.savepoints == t.savepoints
  }

  lemma RestGoes(cfg: Config, assignments: seq<Assignment>, hooks: seq<Hook>)
    requires assignments != [] && AllGo(cfg, assignments, hooks)
    ensures Goes(cfg, assignments, hooks, 0) && AllGo(cfg, assignments[1..], Rest(hooks))
  {
    var rest := assignments[1..];
    forall i | 0 <= i < |rest|
      ensures Goes(cfg, rest, Rest(hooks), i)
    {
      assert Goes(cfg, assignments, hooks, i + 1);
    }
  }

  /** Changes that all go through leave every setting at its last assignment, SET LOCAL in the visible
      dictionary alone, make their names known, and change nothing else. */
  lemma {:induction false} AssignmentsExactly(
    cfg: Config, c: Conn, assignments: seq<Assignment>, local: bool, hooks: seq<Hook>, k: string)
    requires AllGo(cfg, assignments, hooks)
    ensures var s := ApplyAll(cfg, c, assignments, local, hooks).conn.sess;
            && Get(s.core.visible, k) == Assigned(cfg, assignments, k, Get(c.sess.core.visible, k))
            && Get(s.core.committed, k) ==
               (if local then Get(c.sess.core.committed, k) else Assigned(cfg, assignments, k, Get(c.sess.core.committed, k)))
            && (k in s.known <==> k in c.sess.known || LastTo(assignments, k) >= 0)
            && Beside(s, c.sess)
    decreases |assignments|
  {
    if assignments != [] {
      var a := assignments[0];
      RestGoes(cfg, assignments, hooks);
      OneGoes(cfg, c, a, local, Answer(hooks), k);
      AssignmentsExactly(cfg, ApplySetConfig(cfg, c, a, local, Answer(hooks)).conn, assignments[1..], local, Rest(hooks), k);
      LastToFront(assignments, k);
      forall i | 0 <= i < |assignments|
        ensures Stored(cfg, assignments[i]).Ok?
      {
        assert Goes(cfg, assignments, hooks, i);
      }
      AssignedFront(cfg, assignments, k, Get(c.sess.core.visible, k));
      AssignedFront(cfg, assignments, k, Get(c.sess.core.committed, k));
    }
  }

  lemma OneOwes(cfg: Config, c: Conn, a: Assignment, local: bool, hook: Hook, r: string)
    requires Parameters.Sound(cfg) && r in cfg.reported
    requires cfg.settable(a.name) && Stored(cfg, a).Ok? && hook.Accept?
    ensures var d := ApplySetConfig(cfg, c, a, local, hook).conn;
            && d.startup == c.startup
            && Assoc(d.params, cfg.reported[r]) ==
               if a.name == r then Some(Show(cfg, d, r)) else Assoc(c.params, cfg.reported[r])
  {
    var changed := Changed(c, a.name, Stored(cfg, a).value, local);
    ApplyOneIs(cfg, c, a, local, hook);
    ReportWire(cfg, changed, a.name);
    if a.name == r {
      Parameters.AssocAssign(c.params, cfg.reported[r], Show(cfg, changed, r), cfg.reported[r]);
    } else {
      Parameters.ReportElsewhere(cfg, changed, a.name, r);
    }
  }

  /** They owe the client a report of each reported setting they change, with what it reads as in the end,
      and of no other. */
  lemma {:induction false} AssignmentsOwe(
    cfg: Config, c: Conn, assignments: seq<Assignment>, local: bool, hooks: seq<Hook>, r: string)
    requires Parameters.Sound(cfg) && r in cfg.reported && AllGo(cfg, assignments, hooks)
    ensures var d := ApplyAll(cfg, c, assignments, local, hooks).conn;
            && d.startup == c.startup
            && Assoc(d.params, cfg.reported[r]) ==
               if LastTo(assignments, r) >= 0 then Some(Show(cfg, d, r)) else Assoc(c.params, cfg.reported[r])
    decreases |assignments|
  {
    if assignments != [] {
      var first := ApplySetConfig(cfg, c, assignments[0], local, Answer(hooks)).conn;
      RestGoes(cfg, assignments, hooks);
      OneGoes(cfg, c, assignments[0], local, Answer(hooks), r);
      OneOwes(cfg, c, assignments[0], local, Answer(hooks), r);
      AssignmentsOwe(cfg, first, assignments[1..], local, Rest(hooks), r);
      LastToFront(assignments, r);
      if LastTo(assignments[1..], r) < 0 {
        AssignmentsExactly(cfg, first, assignments[1..], local, Rest(hooks), r);
      }
    }
  }

  /** A SET that does not fail sets every setting it names, and of the session nothing else. */
  lemma SetExactly(cfg: Config, c: Conn, assignments: seq<Assignment>, local: bool, oracle: Oracle, k: string)
    requires !Fails(cfg, c, Set(assignments, local), oracle) && !(local && c.tx.Idle?)
    ensures var s := Execute(cfg, c, Set(assignments, local), oracle).conn.sess;
            && Get(s.core.visible, k) == Assigned(cfg, assignments, k, Get(c.sess.core.visible, k))
            && Get(s.core.committed, k) ==
               (if local then Get(c.sess.core.committed, k) else Assigned(cfg, assignments, k, Get(c.sess.core.committed, k)))
            && (k in s.known <==> k in c.sess.known || LastTo(assignments, k) >= 0)
            && Beside(s, c.sess)
  {
    AssignmentsExactly(cfg, c, assignments, local, oracle.hooks, k);
    forall a | a in assignments
      ensures cfg.settable(a.name)
    {
      var i :| 0 <= i < |assignments| && assignments[i] == a;
      assert Goes(cfg, assignments, oracle.hooks, i);
    }
  }

  /** And SHOW answers accordingly: a setting last given a text reads back as the value that text means, and
      one put back to its default as that. */
  lemma SetShows(cfg: Config, c: Conn, assignments: seq<Assignment>, local: bool, oracle: Oracle, k: string)
    requires !Fails(cfg, c, Set(assignments, local), oracle) && !(local && c.tx.Idle?)
    ensures var d := Execute(cfg, c, Set(assignments, local), oracle).conn;
            var i := LastTo(assignments, k);
            if i < 0 then Show(cfg, d, k) == Show(cfg, c, k)
            else
              match assignments[i].value
              case None => Show(cfg, d, k) == cfg.default(c.startup, k)
              case Some(text) => cfg.parse(k, text).Ok? && Show(cfg, d, k) == cfg.render(k, cfg.parse(k, text).value)
  {
    SetExactly(cfg, c, assignments, local, oracle, k);
    Runs.ExecuteStartup(cfg, c, Set(assignments, local), oracle);
    var i := LastTo(assignments, k);
    if i >= 0 {
      assert Goes(cfg, assignments, oracle.hooks, i);
    }
  }

  /** SET LOCAL outside a transaction changes nothing. */
  lemma SetLocalOutside(cfg: Config, c: Conn, assignments: seq<Assignment>, oracle: Oracle)
    requires c.tx.Idle?
    ensures var d := Execute(cfg, c, Set(assignments, true), oracle).conn;
            d == c.(out := c.out + [Replied(OwnNotice)])
  {
  }

  /** A change that does not go through stops the statement and leaves what the changes before it did: the
      session as it was before that one. */
  lemma {:induction false} StoppedExactly(
    cfg: Config, c: Conn, assignments: seq<Assignment>, local: bool, hooks: seq<Hook>, i: nat)
    requires i < |assignments| && !Goes(cfg, assignments, hooks, i)
    requires forall j :: 0 <= j < i ==> Goes(cfg, assignments, hooks, j)
    requires !HookAt(hooks, i).Cancelled?
    ensures ApplyAll(cfg, c, assignments, local, hooks).conn.sess ==
            ApplyAll(cfg, c, assignments[..i], local, hooks).conn.sess
    decreases i
  {
    var a := assignments[0];
    var first := ApplySetConfig(cfg, c, a, local, Answer(hooks));
    if i == 0 {
      if cfg.settable(a.name) && Stored(cfg, a).Ok? {
        ApplyOneIs(cfg, c, a, local, Answer(hooks));
      }
    } else {
      assert Goes(cfg, assignments, hooks, 0);
      assert first.ok;
      assert !Goes(cfg, assignments[1..], Rest(hooks), i - 1);
      forall j | 0 <= j < i - 1
        ensures Goes(cfg, assignments[1..], Rest(hooks), j)
      {
        assert Goes(cfg, assignments, hooks, j + 1);
      }
      StoppedExactly(cfg, first.conn, assignments[1..], local, Rest(hooks), i - 1);
      assert assignments[..i][1..] == assignments[1..][..i - 1];
    }
  }

  /** A cancellation that catches a change being made stops the statement too, but undoes nothing: that
      change stays, as if it had been accepted. */
  lemma {:induction false} CancelledExactly(
    cfg: Config, c: Conn, assignments: seq<Assignment>, local: bool, hooks: seq<Hook>, i: nat)
    requires i < |assignments| && i < |hooks| && hooks[i].Cancelled?
    requires cfg.settable(assignments[i].name) && Stored(cfg, assignments[i]).Ok?
    requires forall j :: 0 <= j < i ==> Goes(cfg, assignments, hooks, j)
    ensures var o := ApplyAll(cfg, c, assignments, local, hooks);
            !o.ok && o.conn == ApplyAll(cfg, c, assignments[..i + 1], local, hooks[..i]).conn
    decreases i
  {
    var first := ApplySetConfig(cfg, c, assignments[0], local, Answer(hooks));
    if i == 0 {
      ApplyOneIs(cfg, c, assignments[0], local, Cancelled);
      ApplyOneIs(cfg, c, assignments[0], local, Accept);
      assert assignments[..1][1..] == [];
    } else {
      assert Goes(cfg, assignments, hooks, 0);
      forall j | 0 <= j < i - 1
        ensures Goes(cfg, assignments[1..], hooks[1..], j)
      {
        assert Goes(cfg, assignments, hooks, j + 1);
      }
      CancelledExactly(cfg, first.conn, assignments[1..], local, hooks[1..], i - 1);
      assert assignments[..i + 1][1..] == assignments[1..][..i] && hooks[..i][1..] == hooks[1..][..i - 1];
    }
  }

  // ---- DISCARD ----

  /** DISCARD ALL that does not fail leaves nothing but the known names, and unregisters the connection. */
  lemma DiscardAllExactly(cfg: Config, c: Conn, oracle: Oracle)
    requires !Fails(cfg, c, DiscardAll, oracle)
    ensures var e := Execute(cfg, c, DiscardAll, oracle);
            var s := e.conn.sess;
            && s.core.visible == map[] && s.core.committed == map[] && s.core.listening == {} && s.core.pending == []
            && s.scopes == [] && s.savepoints == [] && e.register == Some({}) && e.notes == []
            && (forall k :: k in s.known <==> k in c.sess.known || k in oracle.order)
  {
    FailsExactly(cfg, c, DiscardAll, oracle);
    var resets := Resets(oracle.order);
    forall k
      ensures k in Execute(cfg, c, DiscardAll, oracle).conn.sess.known <==> k in c.sess.known || k in oracle.order
    {
      AssignmentsExactly(cfg, c, resets, false, Rest(oracle.hooks), k);
      ResetsName(oracle.order, k);
    }
  }

  lemma ResetsName(order: seq<string>, k: string)
    ensures LastTo(Resets(order), k) >= 0 <==> k in order
  {
    if k in order {
      var i :| 0 <= i < |order| && order[i] == k;
      assert Resets(order)[i].name == k;
    }
  }

  /** A statement that fails leaves subscriptions, pending notifications, savepoints and frames alone, and
      hands nothing over. */
  lemma FailureKeeps(cfg: Config, c: Conn, stmt: Stmt, oracle: Oracle)
    requires Fails(cfg, c, stmt, oracle)
    ensures var e := Execute(cfg, c, stmt, oracle);
            Beside(e.conn.sess, c.sess) && e.notes == [] && e.register == None
  {
    FailsExactly(cfg, c, stmt, oracle);
    match stmt
    case Set(assignments, local) => ApplyAllKeeps(cfg, c, assignments, local, oracle.hooks);
    case ResetAll => ApplyAllKeeps(cfg, c, Resets(oracle.order), false, oracle.hooks);
    case DiscardAll => ApplyAllKeeps(cfg, c, Resets(oracle.order), false, Rest(oracle.hooks));
    case _ =>
  }

  lemma OneKeeps(cfg: Config, c: Conn, a: Assignment, local: bool, hook: Hook)
    ensures Beside(ApplySetConfig(cfg, c, a, local, hook).conn.sess, c.sess)
  {
    if cfg.settable(a.name) && Stored(cfg, a).Ok? {
      ApplyOneIs(cfg, c, a, local, hook);
    }
  }

  lemma {:induction false} ApplyAllKeeps(cfg: Config, c: Conn, assignments: seq<Assignment>, local: bool, hooks: seq<Hook>)
    ensures Beside(ApplyAll(cfg, c, assignments, local, hooks).conn.sess, c.sess)
    decreases |assignments|
  {
    if assignments != [] {
      var first := ApplySetConfig(cfg, c, assignments[0], local, Answer(hooks));
      OneKeeps(cfg, c, assignments[0], local, Answer(hooks));
      if first.ok {
        ApplyAllKeeps(cfg, first.conn, assignments[1..], local, Rest(hooks));
      }
    }
  }

  /** No statement moves the registrations itself: it asks for them to be moved. */
  lemma RegisteredStays(cfg: Config, c: Conn, stmt: Stmt, oracle: Oracle)
    ensures Execute(cfg, c, stmt, oracle).conn.registered == c.registered
  {
    match stmt
    case Commit => EndRegistered(cfg, c, true, oracle.order);
    case Rollback => EndRegistered(cfg, c, false, oracle.order);
    case RollbackTo(name) => RollbackToRegistered(cfg, c, name, oracle.order);
    case Set(assignments, local) => ApplyAllWire(cfg, c, assignments, local, oracle.hooks);
    case ResetAll => ApplyAllWire(cfg, c, Resets(oracle.order), false, oracle.hooks);
    case DiscardAll => ApplyAllWire(cfg, c, Resets(oracle.order), false, Rest(oracle.hooks));
    case _ =>
  }

  lemma EndRegistered(cfg: Config, c: Conn, committed: bool, order: seq<string>)
    ensures EndBlock(cfg, c, committed, order).conn.registered == c.registered
  {
    var cleared := c.sess.(savepoints := []);
    var ended := if committed then CommitTransaction(cleared) else SessionStates.EndTransaction(cleared);
    ReportChangedWire(cfg, c.(tx := Idle, sess := ended), c.sess.core.visible, order);
  }

  lemma RollbackToRegistered(cfg: Config, c: Conn, name: string, order: seq<string>)
    ensures RollbackToStatement(cfg, c, name, order).conn.registered == c.registered
  {
    var index := LastIndex(c.sess.savepoints, name);
    if !c.tx.Idle? && index >= 0 {
      var kept := c.sess.(savepoints := c.sess.savepoints[..index + 1]);
      ReportChangedWire(cfg, c.(sess := RestoreScope(kept, index + 1), log := LogRollbackTo(c.log, index), tx := InBlock),
                        c.sess.core.visible, order);
    }
  }
}
