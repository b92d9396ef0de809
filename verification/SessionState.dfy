/** state.py: the part of a connection's state that `DISCARD ALL` resets and ROLLBACK restores. */
module SessionStates {
  import opened Prelude
  import opened SettingValues
  import opened TransactionLog

  /** The state as a value. `core` is what the source keeps in four fields of their own, and
      `scopes` its stack of copies of those four. */
  datatype Sess = Sess(core: Core, known: set<string>, scopes: seq<Core>, savepoints: seq<string>)

  const EMPTY_CORE := Core(map[], map[], {}, [])
  const EMPTY := Sess(EMPTY_CORE, {}, [], [])

  function OpenScope(s: Sess): Sess {
    s.(scopes := s.scopes + [s.core])
  }

  function DiscardScopes(s: Sess, depth: nat): Sess {
    s.(scopes := s.scopes[..Min(depth, |s.scopes|)])
  }

  function RestoreScope(s: Sess, depth: nat): Sess {
    if depth >= |s.scopes| then s else s.(core := s.scopes[depth], scopes := s.scopes[..depth])
  }

  function CommitTransaction(s: Sess): Sess {
    s.(core := s.core.(visible := s.core.committed), scopes := [])
  }

  function EndTransaction(s: Sess): Sess {
    RestoreScope(s, 0).(scopes := [])
  }

  function Reset(s: Sess): Sess {
    EMPTY.(known := s.known)
  }

  /** The object the middleware and the session share. */
  class SessionState {
    var sessionVars: Settings
    var committedVars: Settings
    var knownSettings: set<string>
    var listening: set<string>
    var pendingNotifies: seq<Note>
    var scopes: seq<Core>
    var savepoints: seq<string>

    ghost function View(): Sess
      reads this
    {
      Sess(Core(sessionVars, committedVars, listening, pendingNotifies), knownSettings, scopes, savepoints)
    }

    constructor ()
      ensures View() == EMPTY
    {
      sessionVars, committedVars, knownSettings := map[], map[], {};
      listening, pendingNotifies, scopes, savepoints := {}, [], [], [];
    }

    method Open()
      modifies this
      ensures View() == OpenScope(old(View()))
    {
      scopes := scopes + [Core(sessionVars, committedVars, listening, pendingNotifies)];
    }

    method Discard(depth: nat)
      modifies this
      ensures View() == DiscardScopes(old(View()), depth)
    {
      if depth < |scopes| {
        scopes := scopes[..depth];
      }
    }

    method Restore(depth: nat)
      modifies this
      ensures View() == RestoreScope(old(View()), depth)
    {
      if depth >= |scopes| {
        return;
      }
      var scope := scopes[depth];
      sessionVars := scope.visible;
      committedVars := scope.committed;
      listening := scope.listening;
      pendingNotifies := scope.pending;
      scopes := scopes[..depth];
    }

    method Commit()
      modifies this
      ensures View() == CommitTransaction(old(View()))
    {
      sessionVars := committedVars;
      scopes := [];
    }

    method End()
      modifies this
      ensures View() == EndTransaction(old(View()))
    {
      Restore(0);
      scopes := [];
    }

    method TakePendingNotifies() returns (pending: seq<Note>)
      modifies this
      ensures pending == old(pendingNotifies)
      ensures View() == old(View()).(core := old(View()).core.(pending := []))
    {
      pending, pendingNotifies := pendingNotifies, [];
    }

    method ResetAll()
      modifies this
      ensures View() == Reset(old(View()))
    {
      sessionVars, committedVars := map[], map[];
      listening, pendingNotifies, scopes, savepoints := {}, [], [], [];
    }

    /** One setting written or dropped, in one dictionary or both; the returned value is what the
        source's undo closure holds. */
    method RecordSetting(key: string, value: Option<Value>, local: bool) returns (undo: Undo)
      modifies this
      ensures View() == Recorded(old(View()), key, value, local)
      ensures undo == UndoOf(old(View()), key)
    {
      undo := Undo(Get(sessionVars, key), Get(committedVars, key), key in knownSettings);
      knownSettings := knownSettings + {key};
      sessionVars := Put(sessionVars, key, value);
      if !local {
        committedVars := Put(committedVars, key, value);
      }
    }

    method UndoSetting(key: string, local: bool, undo: Undo)
      modifies this
      ensures View() == Undone(old(View()), key, local, undo)
    {
      sessionVars := Put(sessionVars, key, undo.visible);
      if !local {
        committedVars := Put(committedVars, key, undo.committed);
      }
      if !undo.wasKnown {
        knownSettings := knownSettings - {key};
      }
    }
  }

  datatype Undo = Undo(visible: Option<Value>, committed: Option<Value>, wasKnown: bool)

  function UndoOf(s: Sess, key: string): Undo {
    Undo(Get(s.core.visible, key), Get(s.core.committed, key), key in s.known)
  }

  function Recorded(s: Sess, key: string, value: Option<Value>, local: bool): Sess {
    s.(core := Apply(s.core, Write(key, value, local)), known := s.known + {key})
  }

  function Undone(s: Sess, key: string, local: bool, undo: Undo): Sess {
    var committed := if local then s.core.committed else Put(s.core.committed, key, undo.committed);
    s.(core := s.core.(visible := Put(s.core.visible, key, undo.visible), committed := committed),
       known := if undo.wasKnown then s.known else s.known - {key})
  }

  /** A write the session refuses leaves both dictionaries and the known names as they were. */
  lemma UndoRestores(s: Sess, key: string, value: Option<Value>, local: bool)
    ensures Undone(Recorded(s, key, value, local), key, local, UndoOf(s, key)) == s
  {
    PutBack(s.core.visible, key, value);
    PutBack(s.core.committed, key, value);
    assert key !in s.known ==> s.known + {key} - {key} == s.known;
    assert key in s.known ==> s.known + {key} == s.known;
  }

  lemma PutBack<V>(m: map<string, V>, key: string, value: Option<V>)
    ensures Put(Put(m, key, value), key, Get(m, key)) == m
  {
  }
}
