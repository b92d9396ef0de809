/** The connection, middleware and server of connection.py, middleware.py and server.py as a state
    machine over values: any number of connections, each taking one uninterrupted stretch of its
    command loop at a time.

    Everything a connection does in one such stretch has the same shape: it updates itself, hands
    some notifications to the server for fanout, and then may move its registrations. `Effect`
    holds those parts and `Settle` carries them out. */
module ServerModel {
  import opened Prelude
  import opened SettingValues
  import opened TransactionLog
  import opened SessionStates

  /** The transaction status of a ReadyForQuery: `I`, `T` and `E` on the wire. */
  datatype Status = Idle | InBlock | Failed

  /** What the server pushes without being asked. */
  datatype Async = Notification(pid: nat, note: Note) | Notice(text: string)

  datatype Reply =
    | AuthenticationOk | BackendKeyData
    | RowDescription | DataRow | CommandComplete | PortalSuspended | EmptyQueryResponse | ErrorResponse
    | ParseComplete | BindComplete | CloseComplete | ParameterDescription | NoData | OwnNotice
    | CopyInResponse | CopyOutResponse | CopyData | CopyDone

  /** One message a connection wrote. */
  datatype Out =
    | Replied(reply: Reply)
    | ParameterStatus(name: string, value: string)
    | Pushed(message: Async)
    | ReadyForQuery(status: Status)
    | FatalError

  datatype Param = Param(name: string, value: string)

  datatype Startup = Startup(user: string, applicationName: string)

  /** What the server was configured with: the ParameterStatus it announces, and the tables the
      middleware consults for a setting (which settings are reported and under what name, whether
      one may be set, what a text means, how a value reads back, and what a reported setting is when
      nobody set it). `Shipped` is the source's own. */
  datatype Config = Config(
    parameterStatus: seq<Param>,
    reported: map<string, string>,
    settable: string -> bool,
    parse: (string, string) -> Result<Value>,
    render: (string, Value) -> string,
    default: (Startup, string) -> string)

  function Shipped(parameterStatus: seq<Param>, catalog: Catalog): Config {
    Config(parameterStatus,
           REPORTED_SETTINGS,
           name => '.' in name || (name in catalog && catalog[name].settable),
           (name, text) => Parse(catalog, name, text),
           (name, value) => Render(Get(catalog, name), value),
           (startup, key) => Default(parameterStatus, startup, key))
  }

  // ---- Client input ----

  datatype Stmt =
    | Begin | Commit | Rollback
    | Savepoint(name: string) | Release(name: string) | RollbackTo(name: string)
    | Set(assignments: seq<Assignment>, local: bool)
    | ResetAll
    | DiscardAll | DiscardOther
    | Listen(channel: string) | Unlisten(channel: string) | UnlistenAll
    | Notify(note: Note)
    | Query

  /** `SET name TO value`, where None is TO DEFAULT or RESET. */
  datatype Assignment = Assignment(name: string, value: Option<string>)

  /** One thing the dispatch of a message does: run a statement, write part of a reply, or raise. */
  datatype Action = Run(stmt: Stmt) | Emit(reply: Reply) | Throw

  /** A message the client sends, with what dispatching it comes to. Copy messages outside copy
      mode are `Stray`, and everything of the extended protocol but Sync is `Extended`. */
  datatype Message = SimpleQuery(actions: seq<Action>) | Extended(actions: seq<Action>) | Sync | Stray | Terminate

  /** What the session's set_parameter or discard hook did with a change it was told about. */
  datatype Hook = Accept | Refuse | Cancelled

  /** What the surroundings decide while one action runs: the hooks' answers, and the order Python
      happens to iterate the setting names in. */
  datatype Oracle = Oracle(hooks: seq<Hook>, order: seq<string>)

  function Answer(hooks: seq<Hook>): Hook {
    if hooks == [] then Accept else hooks[0]
  }

  function Rest(hooks: seq<Hook>): seq<Hook> {
    if hooks == [] then [] else hooks[1..]
  }

  /** One uninterrupted stretch of a connection's task. `Fatal` is a byte stream that can no longer be
      followed: the client is told, and the connection ends only after an await. */
  datatype Event = Receive(message: Message) | Act(oracle: Oracle) | Finish | Cancel | Fatal | Hangup

  // ---- A connection ----

  /** The command in progress: whether a ReadyForQuery ends it, what is left of its dispatch, and
      whether the dispatch is over, by its last action or by an error. A cancel request does nothing to
      a dispatch that is over. */
  datatype Work = Work(answers: bool, todo: seq<Action>, over: bool)

  /** The last four components are history: the log of the open transaction, the notifications
      fanned out for this connection, the ones handed to it, and how many Query and Sync messages
      it received. Nothing above them depends on them. */
  datatype Conn = Conn(
    startup: Startup, sess: Sess, tx: Status, skipping: bool, ready: bool, params: seq<Param>, queue: seq<Async>,
    registered: set<string>, out: seq<Out>, busy: Option<Work>, doomed: bool, open: bool,
    log: Log, sent: seq<Note>, handed: seq<Async>, asked: nat)

  // ---- Reported settings ----

  /** Each reported setting's key, and the name a client caches it under. */
  const REPORTED_SETTINGS: map<string, string> := map[
    "application_name" := "application_name",
    "client_encoding" := "client_encoding",
    "datestyle" := "DateStyle",
    "intervalstyle" := "IntervalStyle",
    "is_superuser" := "is_superuser",
    "search_path" := "search_path",
    "session_authorization" := "session_authorization",
    "standard_conforming_strings" := "standard_conforming_strings",
    "timezone" := "TimeZone"]

  function Assoc(params: seq<Param>, name: string): Option<string> {
    if params == [] then None
    else if params[0].name == name then Some(params[0].value)
    else Assoc(params[1..], name)
  }

  /** A dictionary write on an insertion-ordered dictionary: in place, or at the end. */
  function Assign(params: seq<Param>, name: string, value: string): seq<Param> {
    if params == [] then [Param(name, value)]
    else if params[0].name == name then [Param(name, value)] + params[1..]
    else [params[0]] + Assign(params[1..], name, value)
  }

  function Or(a: Option<string>, b: string): string {
    match a
    case Some(v) => v
    case None => b
  }

  function Default(parameterStatus: seq<Param>, s: Startup, key: string): string {
    if key == "application_name" then s.applicationName
    else if key == "client_encoding" then Or(Assoc(parameterStatus, "client_encoding"), "UTF8")
    else if key == "datestyle" then Or(Assoc(parameterStatus, "DateStyle"), "ISO, MDY")
    else if key == "intervalstyle" then Or(Assoc(parameterStatus, "IntervalStyle"), "postgres")
    else if key == "is_superuser" then "off"
    else if key == "search_path" then "\"$user\", public"
    else if key == "session_authorization" then s.user
    else if key == "standard_conforming_strings" then "on"
    else if key == "timezone" then Or(Assoc(parameterStatus, "TimeZone"), "UTC")
    else ""
  }

  /** What SHOW answers for a reported setting. */
  function Show(cfg: Config, c: Conn, key: string): string {
    if key in c.sess.core.visible then cfg.render(key, c.sess.core.visible[key]) else cfg.default(c.startup, key)
  }

  function Report(cfg: Config, c: Conn, key: string): Conn {
    if key in cfg.reported then c.(params := Assign(c.params, cfg.reported[key], Show(cfg, c, key))) else c
  }

  /** Report every setting that differs from what it was before. */
  function ReportChanged(cfg: Config, c: Conn, before: Settings, order: seq<string>): Conn
    decreases |order|
  {
    if order == [] then c
    else
      var rest := ReportChanged(cfg, c, before, order[..|order| - 1]);
      var name := order[|order| - 1];
      if Get(before, name) != Get(c.sess.core.visible, name) then Report(cfg, rest, name) else rest
  }

  predicate Covers(order: seq<string>, before: Settings, now: Settings) {
    forall k :: k in before.Keys + now.Keys ==> k in order
  }

  // ---- Settings ----

  datatype Outcome = Outcome(conn: Conn, ok: bool)

  /** The value a change stores: None drops the override. */
  function Stored(cfg: Config, a: Assignment): Result<Option<Value>> {
    match a.value
    case None => Ok(None)
    case Some(text) =>
      match cfg.parse(a.name, text)
      case Ok(v) => Ok(Some(v))
      case Err(reason) => Err(reason)
  }

  function ApplySetConfig(cfg: Config, c: Conn, a: Assignment, local: bool, hook: Hook): Outcome {
    if !cfg.settable(a.name) then Outcome(c, false)
    else
      match Stored(cfg, a)
      case Err(_) => Outcome(c, false)
      case Ok(value) =>
        var undo := UndoOf(c.sess, a.name);
        var c1 := c.(sess := Recorded(c.sess, a.name, value, local),
                     log := LogRecord(c.log, Write(a.name, value, local)));
        var c2 := Report(cfg, c1, a.name);
        match hook
        case Accept => Outcome(c2, true)
        case Cancelled => Outcome(c2, false)
        case Refuse =>
          var c3 := c2.(sess := Undone(c2.sess, a.name, local, undo), log := c.log);
          Outcome(Report(cfg, c3, a.name), false)
  }

  function ApplyAll(cfg: Config, c: Conn, assignments: seq<Assignment>, local: bool, hooks: seq<Hook>): Outcome
    decreases |assignments|
  {
    if assignments == [] then Outcome(c, true)
    else
      var first := ApplySetConfig(cfg, c, assignments[0], local, Answer(hooks));
      if first.ok then ApplyAll(cfg, first.conn, assignments[1..], local, Rest(hooks)) else first
  }

  function SetStatement(cfg: Config, c: Conn, assignments: seq<Assignment>, local: bool, hooks: seq<Hook>): Outcome {
    var outside := local && c.tx.Idle?;
    var warned := if outside then WriteReply(c, OwnNotice) else c;
    if exists a :: a in assignments && !cfg.settable(a.name) then Outcome(warned, false)
    else if outside then Outcome(warned, true)
    else ApplyAll(cfg, warned, assignments, local, hooks)
  }

  function Resets(names: seq<string>): seq<Assignment> {
    seq(|names|, i requires 0 <= i < |names| => Assignment(names[i], None))
  }

  function ResetAllSettings(cfg: Config, c: Conn, oracle: Oracle): Outcome {
    ApplyAll(cfg, c, Resets(oracle.order), false, oracle.hooks)
  }

  /** The names Python lists when it copies the keys of a dictionary. */
  predicate Lists(order: seq<string>, settings: Settings) {
    NoDuplicates(order) && (forall k :: k in order ==> k in settings) && (forall k :: k in settings ==> k in order)
  }

  // ---- Statements ----

  datatype Effect = Effect(conn: Conn, notes: seq<Note>, register: Option<set<string>>, ok: bool)

  function Just(o: Outcome): Effect {
    Effect(o.conn, [], None, o.ok)
  }

  function WriteReply(c: Conn, r: Reply): Conn {
    c.(out := c.out + [Replied(r)])
  }

  function BeginStatement(c: Conn): Outcome {
    if c.tx.InBlock? then Outcome(c, true)
    else
      Outcome(c.(tx := InBlock, sess := OpenScope(c.sess.(savepoints := [])),
                 log := LogBegin(c.sess.core)), true)
  }

  function EndBlock(cfg: Config, c: Conn, committed: bool, order: seq<string>): Effect {
    var cleared := c.sess.(savepoints := []);
    if c.tx.Idle? then Effect(c.(sess := cleared), [], None, true)
    else
      var ended := if committed then CommitTransaction(cleared) else SessionStates.EndTransaction(cleared);
      var c1 := ReportChanged(cfg, c.(tx := Idle, sess := ended), c.sess.core.visible, order);
      if committed then
        var notes := ended.core.pending;
        Effect(c1.(sess := c1.sess.(core := c1.sess.core.(pending := [])), sent := c1.sent + notes),
               notes, Some(ended.core.listening), true)
      else Effect(c1, [], Some(ended.core.listening), true)
  }

  /** The innermost savepoint of that name. */
  function LastIndex(stack: seq<string>, name: string): (i: int)
    ensures -1 <= i < |stack|
    ensures i >= 0 ==> stack[i] == name
    ensures forall j :: i < j < |stack| ==> stack[j] != name
  {
    if stack == [] then -1
    else if stack[|stack| - 1] == name then |stack| - 1
    else LastIndex(stack[..|stack| - 1], name)
  }

  function SavepointStatement(c: Conn, name: string): Outcome {
    if c.tx.Idle? then Outcome(c, false)
    else
      Outcome(c.(sess := OpenScope(c.sess.(savepoints := c.sess.savepoints + [name])),
                 log := LogSavepoint(c.log, name)), true)
  }

  function ReleaseStatement(c: Conn, name: string): Outcome {
    var index := LastIndex(c.sess.savepoints, name);
    if c.tx.Idle? || index < 0 then Outcome(c, false)
    else
      var kept := c.sess.(savepoints := c.sess.savepoints[..index]);
      Outcome(c.(sess := DiscardScopes(kept, index + 1), log := LogRelease(c.log, index)), true)
  }

  function RollbackToStatement(cfg: Config, c: Conn, name: string, order: seq<string>): Effect {
    var index := LastIndex(c.sess.savepoints, name);
    if c.tx.Idle? || index < 0 then Effect(c, [], None, false)
    else
      var kept := c.sess.(savepoints := c.sess.savepoints[..index + 1]);
      var restored := RestoreScope(kept, index + 1);
      var c1 := c.(sess := restored, log := LogRollbackTo(c.log, index), tx := InBlock);
      Effect(ReportChanged(cfg, c1, c.sess.core.visible, order), [], Some(restored.core.listening), true)
  }

  function DiscardAllStatement(cfg: Config, c: Conn, oracle: Oracle): Effect {
    if !c.tx.Idle? || !Answer(oracle.hooks).Accept? then Effect(c, [], None, false)
    else
      var o := ResetAllSettings(cfg, c, Oracle(Rest(oracle.hooks), oracle.order));
      if o.ok then Effect(o.conn.(sess := Reset(o.conn.sess)), [], Some({}), true) else Just(o)
  }

  /** LISTEN, UNLISTEN and UNLISTEN *: effective at once outside a transaction. */
  function SubscriptionStatement(c: Conn, e: Change): Effect {
    var core := Apply(c.sess.core, e);
    Effect(c.(sess := c.sess.(core := core), log := LogRecord(c.log, e)), [],
           if c.tx.Idle? then Some(core.listening) else None, true)
  }

  function NotifyStatement(c: Conn, note: Note): Effect {
    if c.tx.Idle? then Effect(c.(sent := c.sent + [note]), [note], None, true)
    else
      var e := Raise(note);
      Effect(c.(sess := c.sess.(core := Apply(c.sess.core, e)), log := LogRecord(c.log, e)), [], None, true)
  }

  function Execute(cfg: Config, c: Conn, stmt: Stmt, oracle: Oracle): Effect {
    match stmt
    case Begin => Just(BeginStatement(c))
    case Commit => EndBlock(cfg, c, true, oracle.order)
    case Rollback => EndBlock(cfg, c, false, oracle.order)
    case Savepoint(name) => Just(SavepointStatement(c, name))
    case Release(name) => Just(ReleaseStatement(c, name))
    case RollbackTo(name) => RollbackToStatement(cfg, c, name, oracle.order)
    case Set(assignments, local) => Just(SetStatement(cfg, c, assignments, local, oracle.hooks))
    case ResetAll => Just(ResetAllSettings(cfg, c, oracle))
    case DiscardAll => DiscardAllStatement(cfg, c, oracle)
    case DiscardOther => Effect(c, [], None, Answer(oracle.hooks).Accept?)
    case Listen(channel) => SubscriptionStatement(c, Subscribe(channel))
    case Unlisten(channel) => SubscriptionStatement(c, Unsubscribe(channel))
    case UnlistenAll => SubscriptionStatement(c, UnsubscribeAll)
    case Notify(note) => NotifyStatement(c, note)
    case Query => Effect(c, [], None, true)
  }

  predicate AllowedWhenFailed(stmt: Stmt) {
    stmt.Commit? || stmt.Rollback? || stmt.RollbackTo?
  }

  /** Is the oracle's order one the statement could meet? It lists exactly the settings a RESET ALL
      or DISCARD ALL goes through, and at least the ones a transaction end compares. */
  predicate Plausible(cfg: Config, c: Conn, stmt: Stmt, oracle: Oracle) {
    match stmt
    case ResetAll => Lists(oracle.order, c.sess.core.visible)
    case DiscardAll => Lists(oracle.order, c.sess.core.visible)
    case Commit => Covers(oracle.order, c.sess.core.visible, Execute(cfg, c, stmt, oracle).conn.sess.core.visible)
    case Rollback => Covers(oracle.order, c.sess.core.visible, Execute(cfg, c, stmt, oracle).conn.sess.core.visible)
    case RollbackTo(_) => Covers(oracle.order, c.sess.core.visible, Execute(cfg, c, stmt, oracle).conn.sess.core.visible)
    case _ => true
  }

  // ---- The command loop ----

  /** An error ends the command: a reply, the status, and skipping until the next ReadyForQuery. */
  function FailCommand(c: Conn): Conn {
    WriteReply(c, ErrorResponse).(
      tx := if c.tx.Idle? then Idle else Failed,
      skipping := true,
      busy := if c.busy.Some? then Some(c.busy.value.(todo := [], over := true)) else None)
  }

  function Actions(c: Conn, m: Message): seq<Action> {
    match m
    case SimpleQuery(actions) => if c.skipping then [] else actions
    case Extended(actions) => if c.skipping then [] else actions
    case _ => []
  }

  function Answered(m: Message): bool {
    m.SimpleQuery? || m.Sync?
  }

  function CloseConn(c: Conn): Conn {
    c.(ready := false, busy := None, open := false)
  }

  /** The report of a broken byte stream. The ready flag stays as it was. */
  function DoomConn(c: Conn): Conn {
    c.(out := c.out + [FatalError], busy := None, doomed := true)
  }

  function ReceiveMessage(c: Conn, m: Message): Effect {
    if m.Terminate? then Effect(CloseConn(c), [], Some({}), true)
    else
      Effect(c.(ready := false, busy := Some(Work(Answered(m), Actions(c, m), false)),
                asked := c.asked + if Answered(m) then 1 else 0), [], None, true)
  }

  function Pop(c: Conn): Conn
    requires c.busy.Some? && c.busy.value.todo != []
  {
    c.(busy := Some(c.busy.value.(todo := c.busy.value.todo[1..], over := |c.busy.value.todo| == 1)))
  }

  function ActStep(cfg: Config, c: Conn, oracle: Oracle): Effect
    requires c.busy.Some? && c.busy.value.todo != []
  {
    var c1 := Pop(c);
    match c.busy.value.todo[0]
    case Emit(reply) => Effect(WriteReply(c1, reply), [], None, true)
    case Throw => Effect(FailCommand(c1), [], None, true)
    case Run(stmt) =>
      if c.tx.Failed? && !AllowedWhenFailed(stmt) then Effect(FailCommand(c1), [], None, true)
      else
        var e := Execute(cfg, c1, stmt, oracle);
        if e.ok then e else e.(conn := FailCommand(e.conn))
  }

  function Statuses(params: seq<Param>): seq<Out> {
    seq(|params|, i requires 0 <= i < |params| => ParameterStatus(params[i].name, params[i].value))
  }

  function Pushes(messages: seq<Async>): seq<Out> {
    seq(|messages|, i requires 0 <= i < |messages| => Pushed(messages[i]))
  }

  function FinishStep(c: Conn): Conn
    requires c.busy.Some?
  {
    if c.busy.value.answers then
      c.(out := c.out + Statuses(c.params) + Pushes(c.queue) + [ReadyForQuery(c.tx)],
         params := [], queue := [], skipping := false, ready := true, busy := None)
    else c.(busy := None)
  }

  predicate Enabled(cfg: Config, c: Conn, ev: Event) {
    c.open &&
    match ev
    case Receive(_) => c.busy.None? && !c.doomed
    case Act(oracle) =>
      c.busy.Some? && c.busy.value.todo != [] &&
      (c.busy.value.todo[0].Run? ==> Plausible(cfg, Pop(c), c.busy.value.todo[0].stmt, oracle))
    case Finish => c.busy.Some? && c.busy.value.todo == []
    case Cancel => c.busy.Some? && !c.busy.value.over
    case Fatal => !c.doomed
    case Hangup => true
  }

  /** What one stretch of a connection's own task does. */
  function OwnEffect(cfg: Config, c: Conn, ev: Event): Effect
    requires Enabled(cfg, c, ev)
  {
    match ev
    case Receive(m) => ReceiveMessage(c, m)
    case Act(oracle) => ActStep(cfg, c, oracle)
    case Finish => Effect(FinishStep(c), [], None, true)
    case Cancel => Effect(FailCommand(c), [], None, true)
    case Fatal => Effect(DoomConn(c), [], None, true)
    case Hangup => Effect(CloseConn(c), [], Some({}), true)
  }

  // ---- The server ----

  type Registry = map<string, set<nat>>

  datatype World = World(conns: map<nat, Conn>, registry: Registry)

  function Subscribers(r: Registry, channel: string): set<nat> {
    if channel in r then r[channel] else {}
  }

  function Deliver(c: Conn, a: Async): Conn {
    if c.ready then c.(out := c.out + [Pushed(a)], handed := c.handed + [a])
    else c.(queue := c.queue + [a], handed := c.handed + [a])
  }

  function Fanout(w: World, note: Note, pid: nat): World {
    w.(conns := map q | q in w.conns ::
         if q in Subscribers(w.registry, note.channel) then Deliver(w.conns[q], Notification(pid, note))
         else w.conns[q])
  }

  function FanoutAll(w: World, notes: seq<Note>, pid: nat): World
    decreases |notes|
  {
    if notes == [] then w
    else Fanout(FanoutAll(w, notes[..|notes| - 1], pid), notes[|notes| - 1], pid)
  }

  function AddListener(r: Registry, channel: string, pid: nat): Registry {
    r[channel := Subscribers(r, channel) + {pid}]
  }

  function RemoveListener(r: Registry, channel: string, pid: nat): Registry {
    if channel !in r then r
    else if r[channel] - {pid} == {} then r - {channel}
    else r[channel := r[channel] - {pid}]
  }

  /** Move a connection's registrations from one set of channels to another. */
  function Retarget(r: Registry, pid: nat, from: set<string>, to: set<string>): Registry {
    map channel | channel in r.Keys + (to - from) && !(channel in from - to && channel in r && r[channel] - {pid} == {}) ::
      if channel in from - to then Subscribers(r, channel) - {pid}
      else if channel in to - from then Subscribers(r, channel) + {pid}
      else Subscribers(r, channel)
  }

  function Register(w: World, pid: nat, target: Option<set<string>>): World
    requires pid in w.conns
  {
    match target
    case None => w
    case Some(to) =>
      World(w.conns[pid := w.conns[pid].(registered := to)],
            Retarget(w.registry, pid, w.conns[pid].registered, to))
  }

  function Settle(w: World, pid: nat, e: Effect): World
    requires pid in w.conns
  {
    var w1 := w.(conns := w.conns[pid := e.conn]);
    var w2 := FanoutAll(w1, e.notes, pid);
    FanoutKeepsKeys(w1, e.notes, pid);
    Register(w2, pid, e.register)
  }

  lemma FanoutKeepsKeys(w: World, notes: seq<Note>, pid: nat)
    ensures FanoutAll(w, notes, pid).conns.Keys == w.conns.Keys
    ensures FanoutAll(w, notes, pid).registry == w.registry
    decreases |notes|
  {
    if notes != [] {
      FanoutKeepsKeys(w, notes[..|notes| - 1], pid);
    }
  }

  function StartupMessages(cfg: Config, s: Startup): seq<Out> {
    [Replied(AuthenticationOk)] + Statuses(StartupParams(cfg, s)) + [Replied(BackendKeyData), ReadyForQuery(Idle)]
  }

  function StartupParams(cfg: Config, s: Startup): seq<Param> {
    cfg.parameterStatus +
    if Assoc(cfg.parameterStatus, "application_name").Some? then []
    else [Param("application_name", s.applicationName)]
  }

  function NewConn(cfg: Config, s: Startup): Conn {
    Conn(s, EMPTY, Idle, false, true, [], [], {}, StartupMessages(cfg, s), None, false, true,
         LogBegin(EMPTY_CORE), [], [], 0)
  }

  /** One step of the whole server: a client arrives, a connection's task runs, embedding code
      raises a notification, or something pushes a message at one connection. */
  datatype Step =
    | Connect(pid: nat, startup: Startup)
    | Own(pid: nat, event: Event)
    | Broadcast(note: Note, source: nat)
    | Push(pid: nat, message: Async)

  function Next(cfg: Config, w: World, step: Step): World {
    match step
    case Connect(pid, startup) =>
      if pid in w.conns then w else w.(conns := w.conns[pid := NewConn(cfg, startup)])
    case Own(pid, ev) =>
      if pid in w.conns && Enabled(cfg, w.conns[pid], ev) then
        Settle(w, pid, OwnEffect(cfg, w.conns[pid], ev))
      else w
    case Broadcast(note, source) => Fanout(w, note, source)
    case Push(pid, message) =>
      if pid in w.conns && w.conns[pid].open then w.(conns := w.conns[pid := Deliver(w.conns[pid], message)]) else w
  }

  const START := World(map[], map[])

  /** The state after any sequence of steps; a step that cannot happen changes nothing. */
  function RunAll(cfg: Config, steps: seq<Step>): World
    decreases |steps|
  {
    if steps == [] then START else Next(cfg, RunAll(cfg, steps[..|steps| - 1]), steps[|steps| - 1])
  }
}
