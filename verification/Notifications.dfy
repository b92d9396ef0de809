/** Where every delivered notification came from, over whole runs. */
module Notifications {
  import opened Prelude
  import opened TransactionLog
  import opened SessionStates
  import opened ServerModel
  import opened Delivery
  import opened Transactions
  import opened Registrations
  import opened Runs

  // ---- What a connection's own step sends ----

  lemma ExecuteSends(cfg: Config, c: Conn, stmt: Stmt, oracle: Oracle)
    ensures var e := Execute(cfg, c, stmt, oracle); e.conn.sent == c.sent + e.notes
  {
    match stmt
    case Commit => if !c.tx.Idle? { EndBlockFacts(cfg, c, true, oracle.order); }
    case Rollback => if !c.tx.Idle? { EndBlockFacts(cfg, c, false, oracle.order); }
    case RollbackTo(name) => RollbackToSends(cfg, c, name, oracle.order);
    case Set(assignments, local) => ApplyAllWire(cfg, c, assignments, local, oracle.hooks);
    case ResetAll => ApplyAllWire(cfg, c, Resets(oracle.order), false, oracle.hooks);
    case DiscardAll => ApplyAllWire(cfg, c, Resets(oracle.order), false, Rest(oracle.hooks));
    case _ =>
  }

  lemma RollbackToSends(cfg: Config, c: Conn, name: string, order: seq<string>)
    ensures RollbackToStatement(cfg, c, name, order).conn.sent == c.sent
  {
    var index := LastIndex(c.sess.savepoints, name);
    if !c.tx.Idle? && index >= 0 {
      var kept := c.sess.(savepoints := c.sess.savepoints[..index + 1]);
      ReportChangedWire(cfg, c.(sess := RestoreScope(kept, index + 1), log := LogRollbackTo(c.log, index), tx := InBlock),
                        c.sess.core.visible, order);
    }
  }

  lemma OwnSends(cfg: Config, c: Conn, ev: ServerModel.Event)
    requires Enabled(cfg, c, ev)
    ensures var e := OwnEffect(cfg, c, ev); e.conn.sent == c.sent + e.notes
  {
    if ev.Act? && c.busy.value.todo[0].Run? {
      ExecuteSends(cfg, Pop(c), c.busy.value.todo[0].stmt, ev.oracle);
    }
  }

  /** How one step of a run changes what a connection has sent. */
  lemma StepSends(cfg: Config, w: World, step: Step, q: nat)
    requires q in w.conns
    ensures var w' := Next(cfg, w, step);
            && q in w'.conns
            && w'.conns[q].sent ==
               if step.Own? && step.pid == q && Enabled(cfg, w.conns[q], step.event) then
                 w.conns[q].sent + OwnEffect(cfg, w.conns[q], step.event).notes
               else w.conns[q].sent
  {
    if step.Own? && step.pid in w.conns && Enabled(cfg, w.conns[step.pid], step.event) {
      var e := OwnEffect(cfg, w.conns[step.pid], step.event);
      OwnSends(cfg, w.conns[step.pid], step.event);
      SettleReaches(w, step.pid, e, q);
      DeliverAllSame(w.conns[q], BatchFor(w.registry, q, e.notes, step.pid));
      DeliverAllSame(e.conn, BatchFor(w.registry, q, e.notes, step.pid));
    }
  }

  // ---- Every delivery is accounted for ----

  /** A notification was sent by the connection it names, raised by embedding code in that
      connection's name, or pushed at this connection directly. */
  predicate Accounted(w: World, steps: seq<Step>, q: nat, a: Async)
    requires a.Notification?
  {
    || (a.pid in w.conns && a.note in w.conns[a.pid].sent)
    || Broadcast(a.note, a.pid) in steps
    || Push(q, a) in steps
  }

  lemma {:induction false} BatchComesFrom(r: Registry, q: nat, notes: seq<Note>, pid: nat, a: Async)
    requires a in BatchFor(r, q, notes, pid)
    ensures a.Notification? && a.pid == pid && a.note in notes && q in Subscribers(r, a.note.channel)
    decreases |notes|
  {
    if notes != [] && a in BatchFor(r, q, notes[..|notes| - 1], pid) {
      BatchComesFrom(r, q, notes[..|notes| - 1], pid, a);
    }
  }

  /** A message newly handed over in a step came with that step. */
  lemma StepHands(cfg: Config, w: World, step: Step, q: nat, a: Async)
    requires q in Next(cfg, w, step).conns && a in Next(cfg, w, step).conns[q].handed && a.Notification?
    requires !(q in w.conns && a in w.conns[q].handed)
    ensures step == Broadcast(a.note, a.pid) || step == Push(q, a) ||
            (step.Own? && step.pid == a.pid && a.pid in w.conns && Enabled(cfg, w.conns[a.pid], step.event) &&
             a.note in OwnEffect(cfg, w.conns[a.pid], step.event).notes)
  {
    if step.Own? && step.pid in w.conns && Enabled(cfg, w.conns[step.pid], step.event) {
      var e := OwnEffect(cfg, w.conns[step.pid], step.event);
      FanoutKeepsKeys(w.(conns := w.conns[step.pid := e.conn]), e.notes, step.pid);
      SettleReaches(w, step.pid, e, q);
      OwnKeepsHanded(cfg, w.conns[step.pid], step.event);
      BatchComesFrom(w.registry, q, e.notes, step.pid, a);
    }
  }

  /** In every run, every notification any connection was handed is accounted for. */
  lemma {:induction false} EveryDeliveryIsAccounted(cfg: Config, steps: seq<Step>, q: nat, a: Async)
    requires q in RunAll(cfg, steps).conns && a in RunAll(cfg, steps).conns[q].handed && a.Notification?
    ensures Accounted(RunAll(cfg, steps), steps, q, a)
    decreases |steps|
  {
    if steps != [] {
      var front := steps[..|steps| - 1];
      var step := steps[|steps| - 1];
      var w := RunAll(cfg, front);
      assert steps == front + [step];
      if q in w.conns && a in w.conns[q].handed {
        EveryDeliveryIsAccounted(cfg, front, q, a);
      } else {
        StepHands(cfg, w, step, q, a);
      }
      if a.pid in w.conns {
        StepSends(cfg, w, step, a.pid);
      }
    }
  }

  // ---- Transactions send all or nothing ----

  /** A connection sends nothing while its transaction stays open, whatever everyone does. */
  lemma {:induction false} OpenTransactionSendsNothing(cfg: Config, steps: seq<Step>, more: seq<Step>, pid: nat)
    requires pid in RunAll(cfg, steps).conns
    requires forall k :: 0 <= k <= |more| ==>
               var w := RunAll(cfg, steps + more[..k]); pid in w.conns && !w.conns[pid].tx.Idle?
    ensures pid in RunAll(cfg, steps + more).conns
    ensures RunAll(cfg, steps + more).conns[pid].sent == RunAll(cfg, steps).conns[pid].sent
    decreases |more|
  {
    assert more[..|more|] == more;
    if more == [] {
      assert steps + more == steps;
    } else {
      var front := more[..|more| - 1];
      assert forall k :: 0 <= k <= |front| ==> front[..k] == more[..k];
      OpenTransactionSendsNothing(cfg, steps, front, pid);
      RunSplit(cfg, steps, more);
      OpenStepSendsNothing(cfg, steps + front, more[|more| - 1], pid);
    }
  }

  lemma OpenStepSendsNothing(cfg: Config, steps: seq<Step>, step: Step, pid: nat)
    requires pid in RunAll(cfg, steps).conns && !RunAll(cfg, steps).conns[pid].tx.Idle?
    requires pid in Next(cfg, RunAll(cfg, steps), step).conns && !Next(cfg, RunAll(cfg, steps), step).conns[pid].tx.Idle?
    ensures Next(cfg, RunAll(cfg, steps), step).conns[pid].sent == RunAll(cfg, steps).conns[pid].sent
  {
    var w := RunAll(cfg, steps);
    EveryRunIsGood(cfg, steps);
    assert GoodConn(w.conns[pid]);
    StepSends(cfg, w, step, pid);
    if step.Own? && step.pid == pid && Enabled(cfg, w.conns[pid], step.event) {
      var e := OwnEffect(cfg, w.conns[pid], step.event);
      SettleReaches(w, pid, e, pid);
      DeliverAllSame(e.conn, BatchFor(w.registry, pid, e.notes, pid));
      OwnNotes(cfg, w.conns[pid], step.event);
    }
  }

  /** Nothing raised in a transaction that ends in ROLLBACK is sent: from any point inside it to after
      its ROLLBACK the connection sends nothing at all, and afterwards nothing is pending. */
  lemma RolledBackIsNeverSent(cfg: Config, steps: seq<Step>, more: seq<Step>, pid: nat, oracle: Oracle)
    requires pid in RunAll(cfg, steps).conns
    requires forall k :: 0 <= k <= |more| ==>
               var w := RunAll(cfg, steps + more[..k]); pid in w.conns && !w.conns[pid].tx.Idle?
    requires var w := RunAll(cfg, steps + more);
             && pid in w.conns && Enabled(cfg, w.conns[pid], Act(oracle))
             && w.conns[pid].busy.value.todo[0] == Run(Rollback)
    ensures var w' := Next(cfg, RunAll(cfg, steps + more), Own(pid, Act(oracle)));
            && pid in w'.conns && w'.conns[pid].tx == Idle && w'.conns[pid].sess.core.pending == []
            && w'.conns[pid].sent == RunAll(cfg, steps).conns[pid].sent
  {
    var w := RunAll(cfg, steps + more);
    var e := OwnEffect(cfg, w.conns[pid], Act(oracle));
    OpenTransactionSendsNothing(cfg, steps, more, pid);
    StepSends(cfg, w, Own(pid, Act(oracle)), pid);
    OnlyTheseFanOut(cfg, Pop(w.conns[pid]), Rollback, oracle);
    assert more[..|more|] == more;
    EndBlockFacts(cfg, Pop(w.conns[pid]), false, oracle.order);
    EveryRunIsGood(cfg, steps + more);
    assert GoodConn(w.conns[pid]);
    SettleReaches(w, pid, e, pid);
    DeliverAllSame(e.conn, BatchFor(w.registry, pid, e.notes, pid));
  }

  // ---- One order for everybody ----

  /** The messages that are notifications on one channel. */
  function OnChannel(messages: seq<Async>, channel: string): seq<Async> {
    if messages == [] then []
    else
      var last := messages[|messages| - 1];
      OnChannel(messages[..|messages| - 1], channel) +
      if last.Notification? && last.note.channel == channel then [last] else []
  }

  lemma {:induction false} OnChannelConcat(a: seq<Async>, b: seq<Async>, channel: string)
    ensures OnChannel(a + b, channel) == OnChannel(a, channel) + OnChannel(b, channel)
    decreases |b|
  {
    if b == [] {
      assert a + b == a;
    } else {
      OnChannelConcat(a, b[..|b| - 1], channel);
      assert (a + b)[..|a + b| - 1] == a + b[..|b| - 1];
    }
  }

  function Named(notes: seq<Note>, pid: nat): seq<Async> {
    seq(|notes|, i requires 0 <= i < |notes| => Notification(pid, notes[i]))
  }

  lemma OnChannelSnoc(front: seq<Async>, a: Async, channel: string)
    ensures OnChannel(front + [a], channel) ==
            OnChannel(front, channel) + if a.Notification? && a.note.channel == channel then [a] else []
  {
    assert (front + [a])[..|front|] == front;
  }

  /** A subscriber's batch holds everything fanned out on its channel. */
  lemma {:induction false} BatchOnChannel(r: Registry, q: nat, notes: seq<Note>, pid: nat, channel: string)
    requires q in Subscribers(r, channel)
    ensures OnChannel(BatchFor(r, q, notes, pid), channel) == OnChannel(Named(notes, pid), channel)
    decreases |notes|
  {
    if notes != [] {
      var front := notes[..|notes| - 1];
      var last := notes[|notes| - 1];
      BatchOnChannel(r, q, front, pid, channel);
      BatchSnoc(r, q, notes, pid);
      OnChannelSnoc(BatchFor(r, q, front, pid), Notification(pid, last), channel);
      OnChannelSnoc(Named(front, pid), Notification(pid, last), channel);
    }
  }

  lemma BatchSnoc(r: Registry, q: nat, notes: seq<Note>, pid: nat)
    requires notes != []
    ensures var front := notes[..|notes| - 1];
            var a := Notification(pid, notes[|notes| - 1]);
            && Named(notes, pid) == Named(front, pid) + [a]
            && BatchFor(r, q, notes, pid) ==
               if q in Subscribers(r, a.note.channel) then BatchFor(r, q, front, pid) + [a] else BatchFor(r, q, front, pid)
  {
  }

  /** What a step fans out, whoever listens. */
  function FannedOut(cfg: Config, w: World, step: Step): seq<Async> {
    match step
    case Own(pid, ev) =>
      if pid in w.conns && Enabled(cfg, w.conns[pid], ev) then Named(OwnEffect(cfg, w.conns[pid], ev).notes, pid) else []
    case Broadcast(note, source) => Named([note], source)
    case _ => []
  }

  lemma StepOnChannel(cfg: Config, w: World, step: Step, q: nat, channel: string)
    requires q in w.conns && q in Subscribers(w.registry, channel) && !(step.Push? && step.pid == q)
    ensures q in Next(cfg, w, step).conns
    ensures OnChannel(Next(cfg, w, step).conns[q].handed, channel) ==
            OnChannel(w.conns[q].handed, channel) + OnChannel(FannedOut(cfg, w, step), channel)
  {
    match step
    case Own(pid, ev) =>
      if pid in w.conns && Enabled(cfg, w.conns[pid], ev) {
        OwnOnChannel(cfg, w, pid, ev, q, channel);
      }
    case Broadcast(note, source) => BroadcastOnChannel(w, note, source, q, channel);
    case _ =>
  }

  lemma OwnOnChannel(cfg: Config, w: World, pid: nat, ev: ServerModel.Event, q: nat, channel: string)
    requires pid in w.conns && q in w.conns && q in Subscribers(w.registry, channel) && Enabled(cfg, w.conns[pid], ev)
    ensures var e := OwnEffect(cfg, w.conns[pid], ev);
            && q in Settle(w, pid, e).conns
            && OnChannel(Settle(w, pid, e).conns[q].handed, channel) ==
               OnChannel(w.conns[q].handed, channel) + OnChannel(Named(e.notes, pid), channel)
  {
    var e := OwnEffect(cfg, w.conns[pid], ev);
    SettleReaches(w, pid, e, q);
    OwnKeepsHanded(cfg, w.conns[pid], ev);
    BatchOnChannel(w.registry, q, e.notes, pid, channel);
    OnChannelConcat(w.conns[q].handed, BatchFor(w.registry, q, e.notes, pid), channel);
  }

  lemma BroadcastOnChannel(w: World, note: Note, source: nat, q: nat, channel: string)
    requires q in w.conns && q in Subscribers(w.registry, channel)
    ensures OnChannel(Fanout(w, note, source).conns[q].handed, channel) ==
            OnChannel(w.conns[q].handed, channel) + OnChannel(Named([note], source), channel)
  {
    var a := Notification(source, note);
    BroadcastHands(w, note, source, q);
    OneNamed(note, source, channel);
    OnChannelSnoc(w.conns[q].handed, a, channel);
    assert w.conns[q].handed + [] == w.conns[q].handed;
  }

  lemma OneNamed(note: Note, source: nat, channel: string)
    ensures OnChannel(Named([note], source), channel) == if note.channel == channel then [Notification(source, note)] else []
  {
    assert Named([note], source) == [] + [Notification(source, note)];
    OnChannelSnoc([], Notification(source, note), channel);
  }

  lemma BroadcastHands(w: World, note: Note, source: nat, q: nat)
    requires q in w.conns
    ensures Fanout(w, note, source).conns[q].handed ==
            w.conns[q].handed + if q in Subscribers(w.registry, note.channel) then [Notification(source, note)] else []
  {
  }

  /** The notifications fanned out on a channel over a stretch of a run. */
  function Fanned(cfg: Config, steps: seq<Step>, more: seq<Step>, channel: string): seq<Async>
    decreases |more|
  {
    if more == [] then []
    else
      var front := more[..|more| - 1];
      Fanned(cfg, steps, front, channel) + OnChannel(FannedOut(cfg, RunAll(cfg, steps + front), more[|more| - 1]), channel)
  }

  /** Over the stretch the connection is registered for the channel, and nothing is pushed at it directly. */
  predicate Subscribed(cfg: Config, steps: seq<Step>, more: seq<Step>, q: nat, channel: string)
    decreases |more|
  {
    more == [] ||
    var front := more[..|more| - 1];
    && Subscribed(cfg, steps, front, q, channel)
    && q in RunAll(cfg, steps + front).conns && channel in RunAll(cfg, steps + front).conns[q].registered
    && !(more[|more| - 1].Push? && more[|more| - 1].pid == q)
  }

  /** What a connection has been handed on a channel. */
  function Heard(cfg: Config, steps: seq<Step>, q: nat, channel: string): seq<Async>
    requires q in RunAll(cfg, steps).conns
  {
    OnChannel(RunAll(cfg, steps).conns[q].handed, channel)
  }

  lemma HeardStep(cfg: Config, steps: seq<Step>, more: seq<Step>, q: nat, channel: string)
    requires more != [] && Subscribed(cfg, steps, more, q, channel)
    ensures var front := more[..|more| - 1];
            && q in RunAll(cfg, steps + more).conns
            && Heard(cfg, steps + more, q, channel) ==
               Heard(cfg, steps + front, q, channel) +
               OnChannel(FannedOut(cfg, RunAll(cfg, steps + front), more[|more| - 1]), channel)
  {
    var front := more[..|more| - 1];
    RunSplit(cfg, steps, more);
    EveryRunIsGood(cfg, steps + front);
    assert Listed(RunAll(cfg, steps + front).registry, channel, q);
    StepOnChannel(cfg, RunAll(cfg, steps + front), more[|more| - 1], q, channel);
  }

  /** A connection registered for a channel throughout a stretch of a run is handed exactly what was
      fanned out on it, in the order of the fanouts. */
  lemma {:induction false} HandedInOrder(cfg: Config, steps: seq<Step>, more: seq<Step>, q: nat, channel: string)
    requires q in RunAll(cfg, steps).conns && Subscribed(cfg, steps, more, q, channel)
    ensures q in RunAll(cfg, steps + more).conns
    ensures Heard(cfg, steps + more, q, channel) == Heard(cfg, steps, q, channel) + Fanned(cfg, steps, more, channel)
    decreases |more|
  {
    if more == [] {
      assert steps + more == steps;
    } else {
      var front := more[..|more| - 1];
      var now := OnChannel(FannedOut(cfg, RunAll(cfg, steps + front), more[|more| - 1]), channel);
      HandedInOrder(cfg, steps, front, q, channel);
      HeardStep(cfg, steps, more, q, channel);
      Associate(Heard(cfg, steps, q, channel), Fanned(cfg, steps, front, channel), now);
    }
  }

  /** Two connections registered for a channel throughout are handed the same notifications on it in
      the same order. */
  lemma SameOrderForBoth(cfg: Config, steps: seq<Step>, more: seq<Step>, p: nat, q: nat, channel: string)
    requires p in RunAll(cfg, steps).conns && Subscribed(cfg, steps, more, p, channel)
    requires q in RunAll(cfg, steps).conns && Subscribed(cfg, steps, more, q, channel)
    ensures p in RunAll(cfg, steps + more).conns && q in RunAll(cfg, steps + more).conns
    ensures exists fanned :: && Heard(cfg, steps + more, p, channel) == Heard(cfg, steps, p, channel) + fanned
                             && Heard(cfg, steps + more, q, channel) == Heard(cfg, steps, q, channel) + fanned
  {
    HandedInOrder(cfg, steps, more, p, channel);
    HandedInOrder(cfg, steps, more, q, channel);
  }
}
