/** The reference semantics of a transaction: a base value and a log of what was done since.

    Nothing here copies or restores a state. A savepoint remembers the log, ROLLBACK TO goes back to
    a remembered log, COMMIT keeps what the log adds up to minus the local writes, and ROLLBACK drops
    it. SessionState's stack of copied frames is compared against this. */
module TransactionLog {
  import opened Prelude
  import opened SettingValues

  type Settings = map<string, Value>

  datatype Note = Note(channel: string, payload: string)

  /** Everything that rolls back together: what one `_Scope` copies. */
  datatype Core = Core(visible: Settings, committed: Settings, listening: set<string>, pending: seq<Note>)

  datatype Change =
    | Write(key: string, value: Option<Value>, local: bool)
    | Subscribe(channel: string)
    | Unsubscribe(channel: string)
    | UnsubscribeAll
    | Raise(note: Note)

  function Apply(c: Core, e: Change): Core {
    match e
    case Write(key, value, local) =>
      c.(visible := Put(c.visible, key, value),
         committed := if local then c.committed else Put(c.committed, key, value))
    case Subscribe(channel) => c.(listening := c.listening + {channel})
    case Unsubscribe(channel) => c.(listening := c.listening - {channel})
    case UnsubscribeAll => c.(listening := {})
    case Raise(note) => c.(pending := if note in c.pending then c.pending else c.pending + [note])
  }

  function Replay(c: Core, events: seq<Change>): Core {
    if events == [] then c else Apply(Replay(c, events[..|events| - 1]), events[|events| - 1])
  }

  /** A savepoint: its name, a serial number that tells it apart from every other savepoint of the
      transaction, and the log when it was taken. It is `own` when it was taken with as many frames
      on the stack as savepoints and has not been rolled back to since. */
  datatype Mark = Mark(name: string, id: nat, events: seq<Change>, own: bool)

  /** What a copied frame above the BEGIN frame was taken for: which savepoint, and its log. */
  datatype Frame = Frame(id: nat, events: seq<Change>)

  /** One transaction's history: the state at BEGIN and what has been done to it since, the savepoints,
      the frames, bottom first, whether there was a ROLLBACK TO, and the subscriptions when the
      registrations were last brought in line with them. */
  datatype Log = Log(
    base: Core, events: seq<Change>, marks: seq<Mark>, frames: seq<Frame>, next: nat, touched: bool,
    synced: set<string>)

  function LogBegin(c: Core): Log {
    Log(c, [], [], [], 0, false, c.listening)
  }

  function LogRecord(l: Log, e: Change): Log {
    l.(events := l.events + [e])
  }

  function LogSavepoint(l: Log, name: string): Log {
    l.(marks := l.marks + [Mark(name, l.next, l.events, |l.frames| == |l.marks|)],
       frames := l.frames + [Frame(l.next, l.events)],
       next := l.next + 1)
  }

  function LogRelease(l: Log, index: nat): Log {
    if index >= |l.marks| then l
    else
      l.(marks := l.marks[..index],
         frames := l.frames[..Min(index, |l.frames|)])
  }

  /** The log a ROLLBACK TO goes back to: that of the frame at the savepoint's index, or the log as
      it is when the stack of frames is too short. */
  function GoesBackTo(l: Log, index: nat): seq<Change> {
    if index < |l.frames| then l.frames[index].events else l.events
  }

  function LogRollbackTo(l: Log, index: nat): Log {
    if index >= |l.marks| then l
    else
      l.(events := GoesBackTo(l, index),
         marks := l.marks[..index] + [l.marks[index].(own := false)],
         frames := l.frames[..Min(index, |l.frames|)],
         touched := true,
         synced := Replay(l.base, GoesBackTo(l, index)).listening)
  }

  /** What the transaction has made of its base so far. */
  function Current(l: Log): Core {
    Replay(l.base, l.events)
  }

  /** The state when savepoint `index` was taken. */
  function AtMark(l: Log, index: nat): Core
    requires index < |l.marks|
  {
    Replay(l.base, l.marks[index].events)
  }

  /** What every transaction's history satisfies, whatever statements it ran. */
  ghost predicate WellFormed(l: Log) {
    && |l.frames| <= |l.marks|
    && (forall i :: 0 <= i < |l.marks| ==> l.marks[i].id < l.next && FrameMatches(l, i))
    && (forall i :: 0 <= i < |l.frames| ==> l.frames[i].id < l.next)
    && (forall i, j :: 0 <= i < |l.frames| && 0 <= j < |l.marks| && l.frames[i].id == l.marks[j].id ==>
                       l.frames[i].events == l.marks[j].events)
    && (!l.touched ==> Untouched(l))
  }

  /** Before the first ROLLBACK TO both stacks are level and every savepoint is own. */
  predicate Untouched(l: Log) {
    && |l.frames| == |l.marks| && l.synced == l.base.listening
    && forall i :: 0 <= i < |l.marks| ==> l.marks[i].own
  }

  /** The frame at a savepoint's index is the one it opened, log included, when it is its own; and
      otherwise, if there is one, that of a savepoint taken later. */
  predicate FrameMatches(l: Log, i: nat)
    requires i < |l.marks|
  {
    && (l.marks[i].own ==> i < |l.frames| && l.frames[i] == Frame(l.marks[i].id, l.marks[i].events))
    && (!l.marks[i].own && i < |l.frames| ==> l.frames[i].id > l.marks[i].id)
  }

  lemma RecordKeepsWellFormed(l: Log, e: Change)
    requires WellFormed(l)
    ensures WellFormed(LogRecord(l, e))
  {
    assert forall i :: 0 <= i < |l.marks| ==> FrameMatches(l, i) ==> FrameMatches(LogRecord(l, e), i);
  }

  lemma SavepointKeepsWellFormed(l: Log, name: string)
    requires WellFormed(l)
    ensures WellFormed(LogSavepoint(l, name))
  {
    var m := LogSavepoint(l, name);
    forall i | 0 <= i < |m.marks|
      ensures FrameMatches(m, i)
    {
      if i < |l.marks| {
        assert FrameMatches(l, i);
      }
    }
  }

  lemma ReleaseKeepsWellFormed(l: Log, index: nat)
    requires WellFormed(l)
    requires index < |l.marks|
    ensures WellFormed(LogRelease(l, index))
  {
    forall i | 0 <= i < index
      ensures FrameMatches(LogRelease(l, index), i)
    {
      assert FrameMatches(l, i);
    }
  }

  lemma RollbackToKeepsWellFormed(l: Log, index: nat)
    requires WellFormed(l)
    requires index < |l.marks|
    ensures WellFormed(LogRollbackTo(l, index))
  {
    var m := LogRollbackTo(l, index);
    forall i | 0 <= i < |m.marks|
      ensures FrameMatches(m, i)
    {
      assert FrameMatches(l, i);
    }
  }

  // ---- What a log adds up to, key by key and channel by channel ----

  /** The last entry of the log that writes `key` (ignoring local writes when asked), or -1. */
  function LastWrite(events: seq<Change>, key: string, durable: bool): (i: int)
    ensures -1 <= i < |events|
    ensures i >= 0 ==> events[i].Write? && events[i].key == key && !(durable && events[i].local)
    ensures forall j :: i < j < |events| ==>
              !(events[j].Write? && events[j].key == key && !(durable && events[j].local))
  {
    if events == [] then -1
    else
      var last := |events| - 1;
      if events[last].Write? && events[last].key == key && !(durable && events[last].local) then last
      else LastWrite(events[..last], key, durable)
  }

  /** Visible settings hold each key's last write and the committed ones its last durable write;
      a key never written keeps its value at BEGIN. */
  lemma {:induction false} ReplaySettings(c: Core, events: seq<Change>, key: string)
    ensures var i := LastWrite(events, key, false);
            Get(Replay(c, events).visible, key) == if i < 0 then Get(c.visible, key) else events[i].value
    ensures var i := LastWrite(events, key, true);
            Get(Replay(c, events).committed, key) == if i < 0 then Get(c.committed, key) else events[i].value
  {
    if events != [] {
      ReplaySettings(c, events[..|events| - 1], key);
    }
  }

  predicate Durable(e: Change) {
    !(e.Write? && e.local)
  }

  function WithoutLocal(events: seq<Change>): seq<Change> {
    if events == [] then []
    else
      var last := |events| - 1;
      WithoutLocal(events[..last]) + if Durable(events[last]) then [events[last]] else []
  }

  /** A COMMIT leaves what the transaction would have made of its base had no SET LOCAL run. */
  lemma {:induction false} CommitDropsLocal(c: Core, events: seq<Change>)
    requires c.visible == c.committed
    ensures Replay(c, events).committed == Replay(c, WithoutLocal(events)).visible
    ensures Replay(c, events).committed == Replay(c, WithoutLocal(events)).committed
    ensures Replay(c, events).listening == Replay(c, WithoutLocal(events)).listening
    ensures Replay(c, events).pending == Replay(c, WithoutLocal(events)).pending
  {
    if events != [] {
      var last := |events| - 1;
      CommitDropsLocal(c, events[..last]);
      ReplayWithoutLocal(c, events);
      ApplySame(Replay(c, events[..last]), Replay(c, WithoutLocal(events[..last])), events[last]);
    }
  }

  lemma ReplayWithoutLocal(c: Core, events: seq<Change>)
    requires events != []
    ensures var last := |events| - 1;
            var front := Replay(c, WithoutLocal(events[..last]));
            Replay(c, WithoutLocal(events)) == if Durable(events[last]) then Apply(front, events[last]) else front
  {
    var last := |events| - 1;
    var front := WithoutLocal(events[..last]);
    if Durable(events[last]) {
      var kept := front + [events[last]];
      assert kept[..|kept| - 1] == front;
    } else {
      assert WithoutLocal(events) == front;
    }
  }

  lemma ApplySame(a: Core, b: Core, e: Change)
    requires a.committed == b.visible == b.committed && a.listening == b.listening && a.pending == b.pending
    ensures var a' := Apply(a, e);
            var b' := if Durable(e) then Apply(b, e) else b;
            a'.committed == b'.visible == b'.committed && a'.listening == b'.listening && a'.pending == b'.pending
  {
  }

  /** Does the log's last word on `channel` subscribe to it? */
  function Listens(events: seq<Change>, channel: string, before: bool): bool {
    if events == [] then before
    else
      match events[|events| - 1]
      case Subscribe(c) => c == channel || Listens(events[..|events| - 1], channel, before)
      case Unsubscribe(c) => c != channel && Listens(events[..|events| - 1], channel, before)
      case UnsubscribeAll => false
      case _ => Listens(events[..|events| - 1], channel, before)
  }

  lemma {:induction false} ReplayListening(c: Core, events: seq<Change>, channel: string)
    ensures channel in Replay(c, events).listening <==> Listens(events, channel, channel in c.listening)
  {
    if events != [] {
      ReplayListening(c, events[..|events| - 1], channel);
    }
  }

  /** The pending notifications: every (channel, payload) the log raised, once, in the order of
      its first raising. */
  lemma {:induction false} ReplayPending(c: Core, events: seq<Change>)
    requires c.pending == []
    ensures NoDuplicates(Replay(c, events).pending)
    ensures forall n :: n in Replay(c, events).pending <==> Raise(n) in events
  {
    if events != [] {
      var last := |events| - 1;
      ReplayPending(c, events[..last]);
      assert events == events[..last] + [events[last]];
    }
  }

  lemma {:induction false} ReplayPendingOrder(c: Core, events: seq<Change>)
    requires c.pending == []
    ensures forall n, m :: n in Replay(c, events).pending && m in Replay(c, events).pending &&
                           FirstRaise(events, n) < FirstRaise(events, m) ==>
                             IndexOf(Replay(c, events).pending, n) < IndexOf(Replay(c, events).pending, m)
  {
    if events != [] {
      var last := |events| - 1;
      var front := events[..last];
      ReplayPending(c, front);
      ReplayPendingOrder(c, front);
      var old' := Replay(c, front).pending;
      var now := Replay(c, events).pending;
      ReplayPending(c, events);
      assert old' <= now;
      forall n, m | n in now && m in now && FirstRaise(events, n) < FirstRaise(events, m)
        ensures IndexOf(now, n) < IndexOf(now, m)
      {
        FirstRaiseFront(events, n);
        FirstRaiseFront(events, m);
        if m in old' {
          assert Raise(m) in front;
          assert n in old';
          IndexOfFront(old', now, n);
          IndexOfFront(old', now, m);
        } else {
          assert now == old' + [m];
          assert n in old';
          IndexOfFront(old', now, n);
          IndexOfFront(old', now, m);
        }
      }
    }
  }

  function FirstRaise(events: seq<Change>, n: Note): (i: nat)
    ensures i <= |events|
    ensures i < |events| ==> events[i] == Raise(n)
    ensures forall j :: 0 <= j < i ==> events[j] != Raise(n)
  {
    if events == [] then 0
    else if events[0] == Raise(n) then 0
    else 1 + FirstRaise(events[1..], n)
  }

  function IndexOf(notes: seq<Note>, n: Note): (i: nat)
    ensures i <= |notes|
    ensures i < |notes| ==> notes[i] == n
    ensures forall j :: 0 <= j < i ==> notes[j] != n
  {
    if notes == [] then 0 else if notes[0] == n then 0 else 1 + IndexOf(notes[1..], n)
  }

  lemma FirstRaiseFront(events: seq<Change>, n: Note)
    requires events != []
    ensures var front := events[..|events| - 1];
            Raise(n) in front ==> FirstRaise(events, n) == FirstRaise(front, n) < |front|
    ensures Raise(n) !in events[..|events| - 1] ==> FirstRaise(events, n) >= |events| - 1
  {
    var front := events[..|events| - 1];
    if Raise(n) in front {
      var i := FirstRaise(front, n);
      assert i < |front| by {
        var k :| 0 <= k < |front| && front[k] == Raise(n);
      }
      assert events[i] == Raise(n);
    }
  }

  lemma IndexOfFront(before: seq<Note>, now: seq<Note>, n: Note)
    requires before <= now
    ensures n in before ==> IndexOf(now, n) == IndexOf(before, n) < |before|
    ensures n !in before ==> IndexOf(now, n) >= |before|
  {
    if n in before {
      var k :| 0 <= k < |before| && before[k] == n;
      assert now[IndexOf(before, n)] == n;
    }
  }
}
