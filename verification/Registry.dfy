/** The session manager as the code has it: a map that `New` and `Delete` change in place, one call at a time. */
module Registry {
  import opened Bytes
  import opened Uuid
  import opened Lifecycle
  import opened LifecycleInvariant

  datatype Version = CorpRelay | CorpRelayV4 | Unsupported

  datatype Error = NoSuchSid | SessionLimit | BadProtocolVersion

  datatype Result<+T> = Ok(value: T) | Err(error: Error)

  class Manager {
    const maxSessions: int
    var sessions: map<Uuid, nat>
    var created: seq<Uuid>      // the identifiers of all sessions ever created, by number

    /** A positive limit holds, and every key is the identifier of its session. */
    predicate Valid()
      reads this
    {
      && (maxSessions > 0 ==> |sessions| <= maxSessions)
      && forall sid :: sid in sessions ==> sessions[sid] < |created| && created[sessions[sid]] == sid
    }

    constructor (maxSessions: int)
      ensures Valid() && this.maxSessions == maxSessions && sessions == map[] && created == []
    {
      this.maxSessions := maxSessions;
      sessions, created := map[], [];
    }

    /** Checks the limit, then the version; registers the session under its identifier. */
    method New(sid: Uuid, v: Version) returns (r: Result<nat>)
      requires Valid()
      modifies this
      ensures Valid()
      ensures r == if maxSessions > 0 && |old(sessions)| >= maxSessions then Err(SessionLimit)
                   else if v.Unsupported? then Err(BadProtocolVersion) else Ok(|old(created)|)
      ensures r.Err? ==> sessions == old(sessions) && created == old(created)
      ensures r.Ok? ==> sessions == old(sessions)[sid := r.value] && created == old(created) + [sid]
    {
      if maxSessions > 0 && |sessions| >= maxSessions {
        return Err(SessionLimit);
      }
      if v.Unsupported? {
        return Err(BadProtocolVersion);
      }
      var n := |created|;
      InsertGrows(sessions, sid, n);
      created := created + [sid];
      sessions := sessions[sid := n];
      return Ok(n);
    }

    method Get(sid: Uuid) returns (r: Result<nat>)
      requires Valid()
      ensures r == if sid in sessions then Ok(sessions[sid]) else Err(NoSuchSid)
      ensures r.Ok? ==> r.value < |created| && created[r.value] == sid
    {
      if sid !in sessions {
        return Err(NoSuchSid);
      }
      return Ok(sessions[sid]);
    }

    /** Removes the session if it is there; a second removal is an error and changes nothing. */
    method Delete(sid: Uuid) returns (r: Result<()>)
      requires Valid()
      modifies this
      ensures Valid() && created == old(created)
      ensures sid !in sessions && sessions == old(sessions) - {sid}
      ensures r == if sid in old(sessions) then Ok(()) else Err(NoSuchSid)
      ensures r.Err? ==> sessions == old(sessions)
    {
      if sid !in sessions {
        assert sessions - {sid} == sessions;
        return Err(NoSuchSid);
      }
      RemoveShrinks(sessions, sid);
      sessions := sessions - {sid};
      return Ok(());
    }
  }

  // ---- the calls as events of the lifecycle model

  /** The manager of a state in which nobody holds its lock. */
  ghost predicate Shows(m: Manager, s: State)
    reads m
  {
    && s.creating.None? && s.limit == m.maxSessions && s.table == m.sessions
    && |s.all| == |m.created| && forall i :: 0 <= i < |s.all| ==> s.all[i].sid == m.created[i]
  }

  /** `New` is exactly the pair of events NewBegin and NewEnd, and succeeds exactly when they are possible. */
  method CreateSession(m: Manager, ghost s: State, sid: Uuid, v4: bool) returns (ok: bool, ghost t: State)
    requires m.Valid() && Shows(m, s) && Fresh(s, sid)
    modifies m
    ensures m.Valid() && Shows(m, t) && ok == HasRoom(s.limit, s.table)
    ensures if ok then Exec(s, [NewBegin(sid, v4), NewEnd]) == Some(t)
            else t == s && ManagerStep(s, NewBegin(sid, v4)).None?
  {
    var r := m.New(sid, if v4 then CorpRelayV4 else CorpRelay);
    ok, t := r.Ok?, s;
    if ok {
      t := NewState(s, sid, v4);
      CreateEvents(s, sid, v4);
    }
  }

  ghost function NewState(s: State, sid: Uuid, v4: bool): State {
    s.(all := s.all + [NewSession(sid, v4).(inserted := true)],
       table := s.table[sid := |s.all|],
       handlers := s.handlers + if v4 then [Handler(|s.all|, true, Looked)] else [])
  }

  lemma CreateEvents(s: State, sid: Uuid, v4: bool)
    requires s.creating.None? && HasRoom(s.limit, s.table) && Fresh(s, sid)
    ensures Exec(s, [NewBegin(sid, v4), NewEnd]) == Some(NewState(s, sid, v4))
  {
    var x := NewSession(sid, v4);
    var es := [NewBegin(sid, v4), NewEnd];
    var begun := s.(all := s.all + [x], creating := Some(|s.all|));
    assert Step(s, es[0]) == Some(begun);
    assert begun.all[|s.all| := x.(inserted := true)] == s.all + [x.(inserted := true)];
    assert s.handlers + [] == s.handlers;
    assert Step(begun, NewEnd) == Some(NewState(s, sid, v4));
    hide Step;
    assert es[1..] == [NewEnd] && es[1..][1..] == [];
    assert Exec(begun, [NewEnd]) == Some(NewState(s, sid, v4));
  }

  /** `Get` finds a session exactly when the event is possible, and it is the one that the new request has. */
  method LookUp(m: Manager, ghost s: State, sid: Uuid) returns (r: Result<nat>)
    requires m.Valid() && Shows(m, s)
    ensures r.Ok? <==> Step(s, Get(sid)).Some?
    ensures r.Ok? ==> Step(s, Get(sid)).value.handlers == s.handlers + [Handler(r.value, false, Looked)]
    ensures r.Ok? ==> r.value < |s.all| && s.all[r.value].sid == sid
  {
    r := m.Get(sid);
  }

  /** `Delete` by a watcher or a handler leaves the table that the event leaves. */
  method RemoveSession(m: Manager, ghost s: State, ghost e: Event, ghost t: State, sid: Uuid)
    requires m.Valid() && Shows(m, s) && Step(s, e) == Some(t)
    requires e.WatcherDeletes? ==> s.all[e.i].sid == sid
    requires e.HandlerDeletes? ==> s.all[s.handlers[e.h].session].sid == sid
    requires e.WatcherDeletes? || e.HandlerDeletes?
    modifies m
    ensures m.Valid() && Shows(m, t)
  {
    var _ := m.Delete(sid);
  }
}
