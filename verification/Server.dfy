/** The objects of connection.py and server.py. Every method is tied to the value-level machine of
    ServerModel, so that the theorems about its runs are theorems about these objects. */
module Server {
  import opened Prelude
  import opened SettingValues
  import opened TransactionLog
  import opened SessionStates
  import opened ServerModel
  import opened Delivery
  import Runs

  class Connection {
    const pid: nat
    const startup: Startup
    const state: SessionState
    var txStatus: Status
    var ignoreUntilSync: bool
    var atReadyForQuery: bool
    var pendingParameterStatus: seq<Param>
    var pendingAsync: seq<Async>
    var registeredChannels: set<string>
    var work: Option<Work>
    var isDoomed: bool
    var isOpen: bool
    ghost var written: seq<Out>
    ghost var log: Log
    ghost var sent: seq<Note>
    ghost var handed: seq<Async>
    ghost var asked: nat

    ghost function View(): Conn
      reads this, state
    {
      Conn(startup, state.View(), txStatus, ignoreUntilSync, atReadyForQuery, pendingParameterStatus, pendingAsync,
           registeredChannels, written, work, isDoomed, isOpen, log, sent, handed, asked)
    }

    constructor (cfg: Config, pid: nat, startup: Startup)
      ensures View() == NewConn(cfg, startup) && this.pid == pid && fresh(state)
    {
      this.pid, this.startup := pid, startup;
      state := new SessionState();
      txStatus, ignoreUntilSync, atReadyForQuery := Idle, false, true;
      pendingParameterStatus, pendingAsync, registeredChannels := [], [], {};
      work, isDoomed, isOpen := None, false, true;
      written, log, sent, handed, asked := StartupMessages(cfg, startup), LogBegin(EMPTY_CORE), [], [], 0;
    }

    // ---- Writing ----

    method Write(reply: Reply)
      modifies this
      ensures View() == WriteReply(old(View()), reply)
    {
      written := written + [Replied(reply)];
    }

    method ReportSetting(cfg: Config, key: string)
      modifies this
      ensures View() == Report(cfg, old(View()), key)
    {
      if key in cfg.reported {
        var value := if key in state.sessionVars then cfg.render(key, state.sessionVars[key]) else cfg.default(startup, key);
        pendingParameterStatus := Assign(pendingParameterStatus, cfg.reported[key], value);
      }
    }

    method ReportDifferences(cfg: Config, before: Settings, order: seq<string>)
      modifies this
      ensures View() == ReportChanged(cfg, old(View()), before, order)
    {
      ghost var start := View();
      var i := 0;
      assert order[..0] == [];
      while i < |order|
        invariant 0 <= i <= |order|
        invariant View() == ReportChanged(cfg, start, before, order[..i])
      {
        assert order[..i + 1][..i] == order[..i];
        ReportChangedWire(cfg, start, before, order[..i]);
        if Get(before, order[i]) != Get(state.sessionVars, order[i]) {
          ReportSetting(cfg, order[i]);
        }
        i := i + 1;
      }
      assert order[..|order|] == order;
    }

    method FlushParameterStatus()
      modifies this
      ensures View() == old(View()).(out := old(View()).out + Statuses(old(View()).params), params := [])
    {
      ghost var start := written;
      var i := 0;
      while i < |pendingParameterStatus|
        invariant 0 <= i <= |pendingParameterStatus|
        invariant View() == old(View()).(out := written)
        invariant written == start + Statuses(pendingParameterStatus[..i])
      {
        var p := pendingParameterStatus[i];
        assert Statuses(pendingParameterStatus[..i + 1]) ==
               Statuses(pendingParameterStatus[..i]) + [ParameterStatus(p.name, p.value)];
        written := written + [ParameterStatus(p.name, p.value)];
        i := i + 1;
      }
      assert pendingParameterStatus[..i] == pendingParameterStatus;
      pendingParameterStatus := [];
    }

    method DeliverAsync(message: Async)
      modifies this
      ensures View() == Deliver(old(View()), message)
    {
      if atReadyForQuery {
        written := written + [Pushed(message)];
      } else {
        pendingAsync := pendingAsync + [message];
      }
      handed := handed + [message];
    }

    method FlushAsync()
      modifies this
      ensures View() == old(View()).(out := old(View()).out + Pushes(old(View()).queue), queue := [])
    {
      ghost var start := written;
      var i := 0;
      while i < |pendingAsync|
        invariant 0 <= i <= |pendingAsync|
        invariant View() == old(View()).(out := written)
        invariant written == start + Pushes(pendingAsync[..i])
      {
        assert Pushes(pendingAsync[..i + 1]) == Pushes(pendingAsync[..i]) + [Pushed(pendingAsync[i])];
        written := written + [Pushed(pendingAsync[i])];
        i := i + 1;
      }
      assert pendingAsync[..i] == pendingAsync;
      pendingAsync := [];
    }

    // ---- Settings ----

    /** One change of a setting, told to the session; `hook` is what the session did. */
    method ApplyOne(cfg: Config, a: Assignment, local: bool, hook: Hook) returns (ok: bool)
      modifies this, state
      ensures Outcome(View(), ok) == ApplySetConfig(cfg, old(View()), a, local, hook)
    {
      if !cfg.settable(a.name) {
        return false;
      }
      var stored := Stored(cfg, a);
      if stored.Err? {
        return false;
      }
      ghost var before := log;
      var undo := state.RecordSetting(a.name, stored.value, local);
      log := LogRecord(log, TransactionLog.Write(a.name, stored.value, local));
      ReportSetting(cfg, a.name);
      if hook.Refuse? {
        state.UndoSetting(a.name, local, undo);
        log := before;
        ReportSetting(cfg, a.name);
      }
      ok := hook.Accept?;
    }

    method ApplyEach(cfg: Config, assignments: seq<Assignment>, local: bool, hooks: seq<Hook>) returns (ok: bool)
      modifies this, state
      ensures Outcome(View(), ok) == ApplyAll(cfg, old(View()), assignments, local, hooks)
    {
      var rest, answers := assignments, hooks;
      ok := true;
      while ok && rest != []
        invariant if ok then ApplyAll(cfg, View(), rest, local, answers) == ApplyAll(cfg, old(View()), assignments, local, hooks)
                  else Outcome(View(), false) == ApplyAll(cfg, old(View()), assignments, local, hooks)
        decreases |rest|
      {
        ok := ApplyOne(cfg, rest[0], local, Answer(answers));
        rest, answers := rest[1..], Rest(answers);
      }
    }

    method SetSettings(cfg: Config, assignments: seq<Assignment>, local: bool, hooks: seq<Hook>) returns (ok: bool)
      modifies this, state
      ensures Outcome(View(), ok) == SetStatement(cfg, old(View()), assignments, local, hooks)
    {
      var outside := local && txStatus.Idle?;
      if outside {
        Write(OwnNotice);
      }
      if exists a :: a in assignments && !cfg.settable(a.name) {
        return false;
      }
      if outside {
        return true;
      }
      ok := ApplyEach(cfg, assignments, local, hooks);
    }

    // ---- Transaction control ----

    method BeginBlock()
      modifies this, state
      ensures View() == BeginStatement(old(View())).conn
    {
      var redundant := txStatus.InBlock?;
      txStatus := InBlock;
      if redundant {
        return;
      }
      state.savepoints := [];
      log := LogBegin(View().sess.core);
      state.Open();
    }

    method TakeSavepoint(name: string) returns (ok: bool)
      modifies this, state
      ensures Outcome(View(), ok) == SavepointStatement(old(View()), name)
    {
      if txStatus.Idle? {
        return false;
      }
      state.savepoints := state.savepoints + [name];
      log := LogSavepoint(log, name);
      state.Open();
      ok := true;
    }

    method FindSavepoint(name: string) returns (index: int)
      ensures index == LastIndex(state.savepoints, name)
    {
      index := |state.savepoints| - 1;
      while index >= 0 && state.savepoints[index] != name
        invariant -1 <= index < |state.savepoints|
        invariant forall j :: index < j < |state.savepoints| ==> state.savepoints[j] != name
      {
        index := index - 1;
      }
    }

    method ReleaseSavepoint(name: string) returns (ok: bool)
      modifies this, state
      ensures Outcome(View(), ok) == ReleaseStatement(old(View()), name)
    {
      var index := FindSavepoint(name);
      if txStatus.Idle? || index < 0 {
        return false;
      }
      state.savepoints := state.savepoints[..index];
      log := LogRelease(log, index);
      state.Discard(index + 1);
      ok := true;
    }

    /** ROLLBACK TO, up to the point where the registry has to be told. */
    method RestoreSavepoint(cfg: Config, name: string, order: seq<string>) returns (ok: bool)
      modifies this, state
      ensures var e := RollbackToStatement(cfg, old(View()), name, order);
              View() == e.conn && ok == e.ok && (ok ==> e.register == Some(state.listening) && e.notes == [])
      ensures !ok ==> RollbackToStatement(cfg, old(View()), name, order) == Effect(View(), [], None, false)
    {
      var index := FindSavepoint(name);
      if txStatus.Idle? || index < 0 {
        return false;
      }
      var before := state.sessionVars;
      state.savepoints := state.savepoints[..index + 1];
      log := LogRollbackTo(log, index);
      state.Restore(index + 1);
      txStatus := InBlock;
      ghost var restored := View();
      ReportDifferences(cfg, before, order);
      ReportChangedWire(cfg, restored, before, order);
      ok := true;
    }

    /** COMMIT or ROLLBACK, up to the point where notifications go out and the registry is told. */
    method SettleBlock(cfg: Config, committed: bool, order: seq<string>) returns (notes: seq<Note>, wasOpen: bool)
      modifies this, state
      ensures var e := EndBlock(cfg, old(View()), committed, order);
              View() == e.conn && notes == e.notes &&
              wasOpen == !old(txStatus).Idle? && e.register == if wasOpen then Some(state.listening) else None
    {
      wasOpen := !txStatus.Idle?;
      txStatus := Idle;
      state.savepoints := [];
      notes := [];
      if !wasOpen {
        return;
      }
      var before := state.sessionVars;
      if committed {
        state.Commit();
      } else {
        state.End();
      }
      ghost var ended := View();
      ReportDifferences(cfg, before, order);
      ReportChangedWire(cfg, ended, before, order);
      if committed {
        notes := state.TakePendingNotifies();
        sent := sent + notes;
      }
    }

    // ---- LISTEN and NOTIFY, as far as they are the connection's own ----

    method ChangeSubscription(e: Change)
      requires e.Subscribe? || e.Unsubscribe? || e.UnsubscribeAll?
      modifies this, state
      ensures View() == SubscriptionStatement(old(View()), e).conn
    {
      match e {
        case Subscribe(channel) => state.listening := state.listening + {channel};
        case Unsubscribe(channel) => state.listening := state.listening - {channel};
        case UnsubscribeAll => state.listening := {};
      }
      log := LogRecord(log, e);
    }

    method RaiseNote(note: Note) returns (notes: seq<Note>)
      modifies this, state
      ensures View() == NotifyStatement(old(View()), note).conn && notes == NotifyStatement(old(View()), note).notes
    {
      if txStatus.Idle? {
        sent := sent + [note];
        return [note];
      }
      if note !in state.pendingNotifies {
        state.pendingNotifies := state.pendingNotifies + [note];
      }
      log := LogRecord(log, Raise(note));
      notes := [];
    }

    // ---- Any statement ----

    /** What executing a statement does to the connection itself; the caller owes the server the
        notifications and the registrations it returns. */
    method Execute(cfg: Config, stmt: Stmt, oracle: Oracle) returns (notes: seq<Note>, register: Option<set<string>>, ok: bool)
      modifies this, state
      ensures Effect(View(), notes, register, ok) == ServerModel.Execute(cfg, old(View()), stmt, oracle)
    {
      notes, register, ok := [], None, true;
      match stmt {
        case Begin => BeginBlock();
        case Commit =>
          var wasOpen;
          notes, wasOpen := SettleBlock(cfg, true, oracle.order);
          register := if wasOpen then Some(state.listening) else None;
        case Rollback =>
          var wasOpen;
          notes, wasOpen := SettleBlock(cfg, false, oracle.order);
          register := if wasOpen then Some(state.listening) else None;
        case Savepoint(name) => ok := TakeSavepoint(name);
        case Release(name) => ok := ReleaseSavepoint(name);
        case RollbackTo(name) =>
          ok := RestoreSavepoint(cfg, name, oracle.order);
          register := if ok then Some(state.listening) else None;
        case Set(assignments, local) => ok := SetSettings(cfg, assignments, local, oracle.hooks);
        case ResetAll => ok := ApplyEach(cfg, Resets(oracle.order), false, oracle.hooks);
        case DiscardAll => register, ok := Discard(cfg, oracle);
        case DiscardOther => ok := Answer(oracle.hooks).Accept?;
        case Listen(channel) =>
          ChangeSubscription(Subscribe(channel));
          register := if txStatus.Idle? then Some(state.listening) else None;
        case Unlisten(channel) =>
          ChangeSubscription(Unsubscribe(channel));
          register := if txStatus.Idle? then Some(state.listening) else None;
        case UnlistenAll =>
          ChangeSubscription(UnsubscribeAll);
          register := if txStatus.Idle? then Some(state.listening) else None;
        case Notify(note) => notes := RaiseNote(note);
        case Query =>
      }
    }

    method Discard(cfg: Config, oracle: Oracle) returns (register: Option<set<string>>, ok: bool)
      modifies this, state
      ensures Effect(View(), [], register, ok) == DiscardAllStatement(cfg, old(View()), oracle)
    {
      if !txStatus.Idle? || !Answer(oracle.hooks).Accept? {
        return None, false;
      }
      ok := ApplyEach(cfg, Resets(oracle.order), false, Rest(oracle.hooks));
      if ok {
        state.ResetAll();
        register := Some(state.listening);
      } else {
        register := None;
      }
    }

    // ---- The command loop ----

    method Fail()
      modifies this
      ensures View() == FailCommand(old(View()))
    {
      Write(ErrorResponse);
      if !txStatus.Idle? {
        txStatus := Failed;
      }
      ignoreUntilSync := true;
      if work.Some? {
        work := Some(work.value.(todo := [], over := true));
      }
    }

    /** The next action of the command in progress. */
    method ActOn(cfg: Config, oracle: Oracle) returns (notes: seq<Note>, register: Option<set<string>>)
      requires work.Some? && work.value.todo != []
      modifies this, state
      ensures var e := ActStep(cfg, old(View()), oracle);
              View() == e.conn && notes == e.notes && register == e.register
    {
      var action := work.value.todo[0];
      work := Some(work.value.(todo := work.value.todo[1..], over := |work.value.todo| == 1));
      notes, register := [], None;
      match action {
        case Emit(reply) => Write(reply);
        case Throw => Fail();
        case Run(stmt) => notes, register := RunStatement(cfg, stmt, oracle);
      }
    }

    /** A statement, refused in a failed transaction and answered with an error when it fails. */
    method RunStatement(cfg: Config, stmt: Stmt, oracle: Oracle) returns (notes: seq<Note>, register: Option<set<string>>)
      modifies this, state
      ensures var e := ServerModel.Execute(cfg, old(View()), stmt, oracle);
              if old(txStatus).Failed? && !AllowedWhenFailed(stmt) then
                View() == FailCommand(old(View())) && notes == [] && register == None
              else View() == (if e.ok then e.conn else FailCommand(e.conn)) && notes == e.notes && register == e.register
    {
      if txStatus.Failed? && !AllowedWhenFailed(stmt) {
        Fail();
        return [], None;
      }
      var ok;
      notes, register, ok := Execute(cfg, stmt, oracle);
      if !ok {
        Fail();
      }
    }

    method Accept(m: Message)
      requires !m.Terminate?
      modifies this
      ensures View() == ReceiveMessage(old(View()), m).conn
    {
      atReadyForQuery := false;
      var answered := m.SimpleQuery? || m.Sync?;
      var dispatched := !ignoreUntilSync && (m.SimpleQuery? || m.Extended?);
      work := Some(Work(answered, if dispatched then m.actions else [], false));
      asked := asked + if answered then 1 else 0;
    }

    method FinishCommand()
      requires work.Some?
      modifies this
      ensures View() == FinishStep(old(View()))
    {
      if work.value.answers {
        FlushParameterStatus();
        FlushAsync();
        written := written + [ReadyForQuery(txStatus)];
        ignoreUntilSync := false;
        atReadyForQuery := true;
      }
      work := None;
    }

    /** The byte stream cannot be followed any more. */
    method Doom()
      modifies this
      ensures View() == DoomConn(old(View()))
    {
      written := written + [FatalError];
      work, isDoomed := None, true;
    }

    method Close()
      modifies this
      ensures View() == CloseConn(old(View()))
    {
      atReadyForQuery, work, isOpen := false, None, false;
    }
  }

  lemma Reregistered(w: World, after: World, pid: nat, c: Conn, target: set<string>)
    requires pid in w.conns && w.conns[pid] == c && after.conns.Keys == w.conns.Keys
    requires after.conns[pid] == c.(registered := target)
    requires forall q :: q in w.conns && q != pid ==> after.conns[q] == w.conns[q]
    requires after.registry == Retarget(w.registry, pid, c.registered, target)
    ensures after == Register(w, pid, Some(target))
  {
    assert after.conns == w.conns[pid := c.(registered := target)];
  }

  lemma Inserted(before: map<nat, Conn>, after: map<nat, Conn>, pid: nat, c: Conn)
    requires after.Keys == before.Keys + {pid} && pid !in before && after[pid] == c
    requires forall p :: p in before ==> after[p] == before[p]
    ensures after == before[pid := c]
  {
  }

  /** The part of the server that connections share. The registry holds pids where the source holds
      the connections they identify. */
  class PgServer {
    const cfg: Config
    var connections: map<nat, Connection>
    var listeners: Registry
    ghost var history: seq<ServerModel.Step>

    ghost predicate Valid()
      reads this`connections, connections.Values
    {
      && (forall p :: p in connections ==> connections[p].pid == p)
      && (forall p, q :: p in connections && q in connections && p != q ==> connections[p].state != connections[q].state)
    }

    ghost function View(): World
      reads this`connections, this`listeners, connections.Values, set p | p in connections :: connections[p].state
    {
      World(map p | p in connections :: connections[p].View(), listeners)
    }

    constructor (cfg: Config)
      ensures Valid() && View() == RunAll(cfg, history) && this.cfg == cfg && history == []
    {
      this.cfg, connections, listeners, history := cfg, map[], map[], [];
    }

    /** A new connection beside the others. */
    method Admit(c: Connection)
      requires Valid() && c.pid !in connections
      requires forall p :: p in connections ==> connections[p].state != c.state
      modifies this`connections
      ensures Valid() && View() == World(old(View()).conns[c.pid := c.View()], old(listeners))
    {
      Insert(c);
      Inserted(old(View()).conns, View().conns, c.pid, c.View());
    }

    method Insert(c: Connection)
      requires Valid() && c.pid !in connections
      requires forall p :: p in connections ==> connections[p].state != c.state
      modifies this`connections
      ensures Valid() && connections == old(connections)[c.pid := c]
    {
      connections := connections[c.pid := c];
    }

    method Connect(pid: nat, startup: Startup)
      requires Valid() && pid !in connections
      modifies this`connections
      ensures Valid() && View() == Next(cfg, old(View()), ServerModel.Connect(pid, startup))
    {
      var c := new Connection(cfg, pid, startup);
      assert View() == old(View());
      Admit(c);
    }

    // ---- The channel registry ----

    method AddListener(channel: string, pid: nat)
      modifies this`listeners
      ensures listeners == ServerModel.AddListener(old(listeners), channel, pid)
    {
      var subscribers := if channel in listeners then listeners[channel] else {};
      listeners := listeners[channel := subscribers + {pid}];
    }

    method RemoveListener(channel: string, pid: nat)
      modifies this`listeners
      ensures listeners == ServerModel.RemoveListener(old(listeners), channel, pid)
    {
      if channel !in listeners {
        return;
      }
      var subscribers := listeners[channel] - {pid};
      if subscribers == {} {
        listeners := listeners - {channel};
      } else {
        listeners := listeners[channel := subscribers];
      }
    }

    /** Move a connection's registrations to a set of channels, by removing what it no longer wants
        and adding what is new. */
    method MoveRegistrations(c: Connection, target: set<string>)
      modifies this`listeners, c`registeredChannels
      ensures c.registeredChannels == target
      ensures listeners == Retarget(old(listeners), c.pid, old(c.registeredChannels), target)
    {
      ghost var from := c.registeredChannels;
      var leaving, joining := c.registeredChannels - target, target - c.registeredChannels;
      ghost var gone, come: set<string> := {}, {};
      RetargetNothing(listeners, c.pid);
      while leaving != {}
        invariant leaving + gone == from - target && leaving !! gone
        invariant listeners == Retarget(old(listeners), c.pid, gone, {})
        decreases leaving
      {
        var channel :| channel in leaving;
        RetargetLeave(old(listeners), c.pid, gone, channel);
        RemoveListener(channel, c.pid);
        leaving, gone := leaving - {channel}, gone + {channel};
      }
      ghost var middle := listeners;
      RetargetNothing(middle, c.pid);
      while joining != {}
        invariant joining + come == target - from && joining !! come
        invariant listeners == Retarget(middle, c.pid, {}, come)
        decreases joining
      {
        var channel :| channel in joining;
        RetargetJoin(middle, c.pid, come, channel);
        AddListener(channel, c.pid);
        joining, come := joining - {channel}, come + {channel};
      }
      assert gone == from - target && come == target - from;
      RetargetInTwo(old(listeners), c.pid, from, target);
      c.registeredChannels := target;
    }

    // ---- Fanout ----

    /** One message to one connection. */
    method DeliverTo(q: nat, message: Async)
      requires Valid() && q in connections
      modifies connections[q]
      ensures Valid() && View() == Updated(old(View()), q, Deliver(old(View()).conns[q], message))
    {
      ghost var w := View();
      connections[q].DeliverAsync(message);
      forall p | p in connections && p != q
        ensures connections[p].View() == w.conns[p]
      {
        assert connections[p] != connections[q];
      }
      OnlyOneChanged(View(), w, q, connections[q].View());
    }

    /** One turn of a fanout; a subscriber that is gone is passed over. */
    method DeliverNext(q: nat, message: Async, ghost w: World, ghost done: set<nat>)
      requires Valid() && q !in done && View() == ReachedAll(w, done, message)
      modifies connections.Values
      ensures Valid() && View() == ReachedAll(w, done + {q}, message)
    {
      ReachedOne(w, done, q, message);
      if q in connections {
        DeliverTo(q, message);
      }
    }

    /** Hand a notification to every connection listening to its channel, in any order. */
    method Notify(note: Note, source: nat)
      requires Valid()
      modifies connections.Values
      ensures Valid() && View() == Fanout(old(View()), note, source)
    {
      var waiting := if note.channel in listeners then listeners[note.channel] else {};
      var message := Notification(source, note);
      ghost var w, done, targets := View(), {}, waiting;
      ReachedNone(w, message);
      while waiting != {}
        invariant done !! waiting && done + waiting == targets && Valid()
        invariant View() == ReachedAll(w, done, message)
        decreases waiting
      {
        var q :| q in waiting;
        DeliverNext(q, message, w, done);
        waiting, done := waiting - {q}, done + {q};
      }
      FanoutIsReached(w, note, source);
    }

    /** A message pushed at one connection by code outside its own command. */
    method Push(pid: nat, message: Async)
      requires Valid() && pid in connections && connections[pid].isOpen
      modifies connections[pid]
      ensures Valid() && View() == Updated(old(View()), pid, Deliver(old(View()).conns[pid], message))
    {
      DeliverTo(pid, message);
    }

    method NotifyAll(notes: seq<Note>, source: nat)
      requires Valid()
      modifies connections.Values
      ensures Valid() && View() == FanoutAll(old(View()), notes, source)
    {
      ghost var start := View();
      var i := 0;
      assert notes[..0] == [];
      while i < |notes|
        invariant 0 <= i <= |notes| && Valid()
        invariant View() == FanoutAll(start, notes[..i], source)
      {
        FanoutSnoc(start, notes, i, source);
        Notify(notes[i], source);
        i := i + 1;
      }
      assert notes[..|notes|] == notes;
    }

    // ---- One stretch of a connection's task ----

    method Reregister(pid: nat, target: set<string>)
      requires Valid() && pid in connections
      modifies this`listeners, connections[pid]
      ensures Valid() && View() == Register(old(View()), pid, Some(target))
    {
      ghost var w := View();
      ghost var v := connections[pid].View();
      MoveConnection(pid, target);
      Reregistered(w, View(), pid, v, target);
    }

    method MoveConnection(pid: nat, target: set<string>)
      requires Valid() && pid in connections
      modifies this`listeners, connections[pid]
      ensures Valid() && connections[pid].View() == old(connections[pid].View()).(registered := target)
      ensures forall q :: q in connections && q != pid ==> connections[q].View() == old(connections[q].View())
      ensures listeners == Retarget(old(listeners), pid, old(connections[pid].registeredChannels), target)
    {
      var c := connections[pid];
      MoveRegistrations(c, target);
      forall q | q in connections && q != pid
        ensures connections[q].View() == old(connections[q].View())
      {
        assert connections[q] != c;
      }
    }

    /** Carry out what a connection's own update left owing. */
    method Carry(pid: nat, notes: seq<Note>, register: Option<set<string>>, ghost w: World, ghost e: Effect)
      requires Valid() && pid in connections && pid in w.conns
      requires View() == Updated(w, pid, e.conn) && notes == e.notes && register == e.register
      modifies this`listeners, connections.Values
      ensures Valid() && View() == Settle(w, pid, e)
    {
      FanoutKeepsKeys(Updated(w, pid, e.conn), notes, pid);
      NotifyAll(notes, pid);
      if register.Some? {
        Reregister(pid, register.value);
      }
    }

    /** What one stretch of a connection's task does to the connection itself. */
    method Advance(pid: nat, ev: ServerModel.Event) returns (notes: seq<Note>, register: Option<set<string>>)
      requires Valid() && pid in connections && Enabled(cfg, connections[pid].View(), ev)
      modifies connections[pid], connections[pid].state
      ensures var e := OwnEffect(cfg, old(connections[pid].View()), ev);
              connections[pid].View() == e.conn && notes == e.notes && register == e.register
    {
      var c := connections[pid];
      notes, register := [], None;
      match ev {
        case Receive(m) =>
          if m.Terminate? {
            c.Close();
            register := Some({});
          } else {
            c.Accept(m);
          }
        case Act(oracle) => notes, register := c.ActOn(cfg, oracle);
        case Finish => c.FinishCommand();
        case Cancel => c.Fail();
        case Fatal => c.Doom();
        case Hangup =>
          c.Close();
          register := Some({});
      }
    }

    /** The same, seen from the server: no other connection changes. */
    method AdvanceAlone(pid: nat, ev: ServerModel.Event) returns (notes: seq<Note>, register: Option<set<string>>)
      requires Valid() && pid in connections && Enabled(cfg, connections[pid].View(), ev)
      modifies connections[pid], connections[pid].state
      ensures Valid()
      ensures var e := OwnEffect(cfg, old(View()).conns[pid], ev);
              View() == Updated(old(View()), pid, e.conn) && notes == e.notes && register == e.register
    {
      ghost var w := View();
      notes, register := Advance(pid, ev);
      forall q | q in connections && q != pid
        ensures connections[q].View() == w.conns[q]
      {
        assert connections[q] != connections[pid] && connections[q].state != connections[pid].state;
      }
      OnlyOneChanged(View(), w, pid, connections[pid].View());
    }

    /** One step of one connection, to the point where another task may run. */
    method Step(pid: nat, ev: ServerModel.Event)
      requires Valid() && pid in connections && Enabled(cfg, connections[pid].View(), ev)
      modifies this`listeners, connections.Values, set p | p in connections :: connections[p].state
      ensures Valid() && View() == Next(cfg, old(View()), Own(pid, ev))
    {
      ghost var w := View();
      var notes, register := AdvanceAlone(pid, ev);
      Carry(pid, notes, register, w, OwnEffect(cfg, w.conns[pid], ev));
    }

    // ---- Every step ----

    /** Can the step happen now? */
    ghost predicate CanTake(step: ServerModel.Step)
      reads this, connections.Values, set p | p in connections :: connections[p].state
    {
      match step
      case Connect(pid, _) => pid !in connections
      case Own(pid, ev) => pid in connections && Enabled(cfg, connections[pid].View(), ev)
      case Broadcast(_, _) => true
      case Push(pid, _) => pid in connections && connections[pid].isOpen
    }

    /** Whatever the server has been through, its state is that of the value machine after the same
        steps. */
    method Take(step: ServerModel.Step)
      requires Valid() && View() == RunAll(cfg, history) && CanTake(step)
      modifies this, connections.Values, set p | p in connections :: connections[p].state
      ensures Valid() && history == old(history) + [step] && View() == RunAll(cfg, history)
    {
      Perform(step);
      RunSnoc(cfg, history, step);
      history := history + [step];
    }

    method Perform(step: ServerModel.Step)
      requires Valid() && CanTake(step)
      modifies this, connections.Values, set p | p in connections :: connections[p].state
      ensures Valid() && history == old(history) && View() == Next(cfg, old(View()), step)
    {
      match step {
        case Connect(pid, startup) => Connect(pid, startup);
        case Own(pid, ev) => Step(pid, ev);
        case Broadcast(note, source) => Notify(note, source);
        case Push(pid, message) => Push(pid, message);
      }
    }
  }

  lemma RunSnoc(cfg: Config, history: seq<ServerModel.Step>, step: ServerModel.Step)
    ensures RunAll(cfg, history + [step]) == Next(cfg, RunAll(cfg, history), step)
  {
    assert (history + [step])[..|history|] == history;
  }

  /** So everything proved of every run holds of the objects. */
  lemma ServerIsGood(server: PgServer)
    requires server.View() == RunAll(server.cfg, server.history)
    ensures Runs.Good(server.View())
  {
    Runs.EveryRunIsGood(server.cfg, server.history);
  }

  /** The world after a connection's own update, before its notifications and registrations. */
  function Updated(w: World, pid: nat, c: Conn): World {
    w.(conns := w.conns[pid := c])
  }

  lemma OnlyOneChanged(now: World, w: World, pid: nat, c: Conn)
    requires now.conns.Keys == w.conns.Keys && pid in w.conns && now.registry == w.registry
    requires now.conns[pid] == c && forall q :: q in w.conns && q != pid ==> now.conns[q] == w.conns[q]
    ensures now == Updated(w, pid, c)
  {
  }

  /** The world after a message reached some of its connections. */
  function ReachedAll(w: World, done: set<nat>, message: Async): World {
    w.(conns := map p | p in w.conns :: if p in done then Deliver(w.conns[p], message) else w.conns[p])
  }

  lemma ReachedNone(w: World, message: Async)
    ensures ReachedAll(w, {}, message) == w
  {
  }

  lemma ReachedOne(w: World, done: set<nat>, q: nat, message: Async)
    requires q !in done
    ensures q in w.conns ==>
              Updated(ReachedAll(w, done, message), q, Deliver(w.conns[q], message)) == ReachedAll(w, done + {q}, message)
              && ReachedAll(w, done, message).conns[q] == w.conns[q]
    ensures q !in w.conns ==> ReachedAll(w, done, message) == ReachedAll(w, done + {q}, message)
  {
  }

  lemma FanoutSnoc(w: World, notes: seq<Note>, i: nat, source: nat)
    requires i < |notes|
    ensures FanoutAll(w, notes[..i + 1], source) == Fanout(FanoutAll(w, notes[..i], source), notes[i], source)
  {
    assert notes[..i + 1][..i] == notes[..i];
  }

  lemma FanoutIsReached(w: World, note: Note, source: nat)
    ensures Fanout(w, note, source) == ReachedAll(w, Subscribers(w.registry, note.channel), Notification(source, note))
  {
  }

  lemma RetargetNothing(r: Registry, pid: nat)
    ensures Retarget(r, pid, {}, {}) == r
  {
  }

  lemma RetargetLeave(r: Registry, pid: nat, gone: set<string>, channel: string)
    requires channel !in gone
    ensures ServerModel.RemoveListener(Retarget(r, pid, gone, {}), channel, pid) == Retarget(r, pid, gone + {channel}, {})
  {
  }

  lemma RetargetJoin(r: Registry, pid: nat, come: set<string>, channel: string)
    requires channel !in come
    ensures ServerModel.AddListener(Retarget(r, pid, {}, come), channel, pid) == Retarget(r, pid, {}, come + {channel})
  {
  }

  lemma RetargetInTwo(r: Registry, pid: nat, from: set<string>, to: set<string>)
    ensures Retarget(Retarget(r, pid, from - to, {}), pid, {}, to - from) == Retarget(r, pid, from, to)
  {
  }
}
