/** Closed sessions that stay registered: that they do, for how long, and what that does to the relay. */
module LifecycleLeak {
  import opened Bytes
  import opened Uuid
  import opened Lifecycle
  import opened LifecycleInvariant
  import opened LifecycleProofs
  import V4Peer

  /** The deadline goroutine took the token, the watcher still waits for one, and nobody is left to offer it. */
  predicate Leaked(s: State, i: nat) {
    && i < |s.all|
    && s.all[i].closed && s.all[i].deadline.Told? && s.all[i].watcher.Listening? && s.all[i].sid in s.table
    && forall h :: 0 <= h < |s.handlers| && s.handlers[h].session == i ==> s.handlers[h].phase.Finished?
  }

  // ---- it lasts

  lemma LeakOwn(s: State, j: nat, e: Event, t: State, i: nat)
    requires Inv(s) && Leaked(s, i) && j < |s.all| && SessionStep(s, j, e) == Some(t)
    ensures i < |t.all| && t.all[i].closed && t.all[i].deadline.Told? && t.all[i].watcher.Listening?
    ensures forall h :: 0 <= h < |t.handlers| && t.handlers[h].session == i ==> t.handlers[h].phase.Finished?
  {
    hide V4Peer.Step, TableInv, CauseInv, KeyInv, Distinct, LimitInv, TokenInv, ServerInv;
  }

  lemma LeakHandler(s: State, h: nat, e: Event, t: State, i: nat)
    requires Inv(s) && Leaked(s, i) && h < |s.handlers| && HandlerInv(s, h) && HandlerStep(s, h, e) == Some(t)
    ensures i < |t.all| && t.all[i].closed && t.all[i].deadline.Told? && t.all[i].watcher.Listening?
    ensures forall k :: 0 <= k < |t.handlers| && t.handlers[k].session == i ==> t.handlers[k].phase.Finished?
  {
    hide TableInv, CauseInv, KeyInv, Distinct, LimitInv, TokenInv, ServerInv;
  }

  lemma LeakManager(s: State, e: Event, t: State, i: nat)
    requires Inv(s) && Leaked(s, i) && ManagerStep(s, e) == Some(t) && e != Get(s.all[i].sid)
    ensures i < |t.all| && t.all[i].closed && t.all[i].deadline.Told? && t.all[i].watcher.Listening?
    ensures forall k :: 0 <= k < |t.handlers| && t.handlers[k].session == i ==> t.handlers[k].phase.Finished?
  {
    assert TableInv(s, i);
    NewHandler(s, e, t, i);
    hide Inv, TableInv, KeyInv;
  }

  /** The request handler that a call of the manager may add is not one of a session that nobody looked up. */
  lemma NewHandler(s: State, e: Event, t: State, i: nat)
    requires KeyInv(s) && i < |s.all| && s.all[i].inserted && TableInv(s, i)
    requires ManagerStep(s, e) == Some(t) && e != Get(s.all[i].sid)
    ensures s.handlers <= t.handlers
    ensures forall k :: |s.handlers| <= k < |t.handlers| ==> t.handlers[k].session != i
  {
  }

  /** None of its handlers dropped it, so the session is in the table as long as its watcher is there. */
  lemma LeakRegistered(s: State, t: State, i: nat)
    requires Inv(s) && Inv(t) && i < |s.all| && i < |t.all| && s.all[i].sid in s.table
    requires Evolves(s.all[i], t.all[i]) && t.all[i].dropped == s.all[i].dropped && t.all[i].watcher.Listening?
    ensures t.all[i].sid in t.table
  {
    assert TableInv(s, i) && TableInv(t, i);
    hide CauseInv, Distinct, LimitInv, SessionInv, HandlerInv, KeyInv;
  }

  lemma NotDropped(s: State, e: Event, t: State, i: nat)
    requires Inv(s) && Leaked(s, i) && Step(s, e) == Some(t)
    ensures i < |t.all| && t.all[i].dropped == s.all[i].dropped
  {
    hide ManagerStep, SessionStep, HandlerStep, TableInv, CauseInv, KeyInv, Distinct, LimitInv;
    if OfManager(e) {
      ManagerDrops(s, e, t, i);
    } else if OfSession(e) {
      OwnStep(s, e.i, e, t);
    } else {
      HandlerOwn(s, e.h, e, t);
    }
  }

  lemma ManagerDrops(s: State, e: Event, t: State, i: nat)
    requires ManagerStep(s, e) == Some(t) && i < |s.all|
    ensures i < |t.all| && t.all[i].dropped == s.all[i].dropped
  {
  }

  lemma LeakStep(s: State, e: Event, t: State, i: nat)
    requires Inv(s) && Leaked(s, i) && Step(s, e) == Some(t) && e != Get(s.all[i].sid)
    ensures Leaked(t, i) && t.all[i].sid == s.all[i].sid
  {
    hide Inv, ManagerStep, SessionStep, HandlerStep;
    InvStep(s, e, t);
    StepEvolves(s, e, t, i);
    NotDropped(s, e, t, i);
    if OfManager(e) {
      LeakManager(s, e, t, i);
    } else if OfSession(e) {
      LeakOwn(s, e.i, e, t, i);
    } else {
      HasHandlerInv(s, e.h);
      LeakHandler(s, e.h, e, t, i);
    }
    LeakRegistered(s, t, i);
  }

  predicate NoLookup(es: seq<Event>, sid: Uuid) {
    forall k :: 0 <= k < |es| ==> es[k] != Get(sid)
  }

  /** Unless somebody looks it up again, such a session keeps its place in the registry in every run. */
  lemma {:induction false} LeakForGood(s: State, es: seq<Event>, i: nat)
    requires Inv(s) && Leaked(s, i) && Exec(s, es).Some? && NoLookup(es, s.all[i].sid)
    ensures Leaked(Exec(s, es).value, i)
    decreases es
  {
    hide Step, Inv;
    if es != [] {
      var next := Step(s, es[0]).value;
      LeakStep(s, es[0], next, i);
      InvStep(s, es[0], next);
      LeakForGood(next, es[1..], i);
    }
  }

  // ---- it fills the registry

  /** Sessions with different identifiers in the table take as many places. */
  lemma {:induction false} PlacesTaken(all: seq<Session>, L: set<nat>, keys: set<Uuid>)
    requires forall i :: i in L ==> i < |all| && all[i].sid in keys
    requires forall i, j :: 0 <= i < j < |all| ==> all[i].sid != all[j].sid
    ensures |L| <= |keys|
    decreases |L|
  {
    if L != {} {
      var i :| i in L;
      PlacesTaken(all, L - {i}, keys - {all[i].sid});
    }
  }

  lemma {:induction false} LimitStays(s: State, es: seq<Event>)
    requires Inv(s) && Exec(s, es).Some?
    ensures Exec(s, es).value.limit == s.limit && Inv(Exec(s, es).value)
    decreases es
  {
    hide Step, Inv;
    if es != [] {
      var next := Step(s, es[0]).value;
      LimitStep(s, es[0], next);
      InvStep(s, es[0], next);
      LimitStays(next, es[1..]);
    }
  }

  lemma LimitStep(s: State, e: Event, t: State)
    requires Step(s, e) == Some(t)
    ensures t.limit == s.limit
  {
    hide V4Peer.Step;
  }

  lemma NoRoom(s: State, L: set<nat>, sid: Uuid, v4: bool)
    requires Inv(s) && s.limit > 0 && |L| >= s.limit && forall i :: i in L ==> Leaked(s, i)
    ensures Step(s, NewBegin(sid, v4)).None?
  {
    hide SessionInv, TableInv, CauseInv, HandlerInv, KeyInv, LimitInv, Fresh;
    PlacesTaken(s.all, L, s.table.Keys);
  }

  /**
   As many leaked sessions as the limit allows, whatever it is, end the service: in no continuation in which nobody
   looks one of them up can a session be created.
   */
  lemma LeakBlocksRelay(s: State, L: set<nat>, es: seq<Event>, sid: Uuid, v4: bool)
    requires Reachable(s) && s.limit > 0 && |L| >= s.limit && Exec(s, es).Some?
    requires forall i :: i in L ==> Leaked(s, i) && NoLookup(es, s.all[i].sid)
    ensures Step(Exec(s, es).value, NewBegin(sid, v4)).None?
  {
    hide Exec, Step, Inv, Reachable, NoLookup, Leaked;
    ReachableInv(s);
    LimitStays(s, es);
    forall i | i in L ensures Leaked(Exec(s, es).value, i) {
      LeakForGood(s, es, i);
    }
    NoRoom(Exec(s, es).value, L, sid, v4);
  }

  // ---- it happens, as often as one likes

  /** `s` with one more session, registered, and its handler. */
  function With(s: State, x: Session, phase: Phase): State {
    s.(all := s.all + [x], table := s.table[x.sid := |s.all|], handlers := s.handlers + [Handler(|s.all|, true, phase)])
  }

  lemma WithMoves(s: State, x: Session, y: Session, p: Phase, q: Phase)
    requires y.sid == x.sid
    ensures var t := With(s, x, p);
            && |t.all| == |s.all| + 1 && t.all[|s.all|] == x && |t.handlers| == |s.handlers| + 1
            && t.handlers[|s.handlers|] == Handler(|s.all|, true, p) && t.creating == s.creating && t.limit == s.limit
            && Put(t, |s.all|, y) == With(s, y, p)
            && Go(t, |s.handlers|, q) == With(s, x, q)
  {
    assert (s.all + [x])[|s.all| := y] == s.all + [y];
    var h := Handler(|s.all|, true, p);
    assert (s.handlers + [h])[|s.handlers| := h.(phase := q)] == s.handlers + [h.(phase := q)];
  }

  lemma CreateOne(s: State, sid: Uuid)
    requires Reachable(s) && s.creating.None? && HasRoom(s.limit, s.table) && Fresh(s, sid)
    ensures Reachable(With(s, NewSession(sid, true).(inserted := true), Looked))
  {
    var x := NewSession(sid, true);
    var s1 := s.(all := s.all + [x], creating := Some(|s.all|));
    Reach(s, NewBegin(sid, true), s1);
    var y := x.(inserted := true);
    assert (s.all + [x])[|s.all| := y] == s.all + [y];
    Reach(s1, NewEnd, With(s, y, Looked));
  }

  /** The session after its `Run` ended with an error and the deadline goroutine took the token. */
  function LeakedSession(sid: Uuid): Session {
    NewSession(sid, true).(inserted := true, closed := true, deadline := Told, receives := 1, sends := 1)
  }

  lemma RunOne(s: State, x: Session)
    requires Reachable(With(s, x, Looked))
    ensures Reachable(With(s, x, Closing(ByError)))
  {
    hide Reachable, Put, Go, With;
    var h := |s.handlers|;
    WithMoves(s, x, x, Looked, Running);
    Reach(With(s, x, Looked), StartRun(h), With(s, x, Running));
    WithMoves(s, x, x, Running, Closing(ByError));
    Reach(With(s, x, Running), RunFails(h, false), With(s, x, Closing(ByError)));
  }

  lemma CloseOne(s: State, x: Session, y: Session)
    requires Reachable(With(s, x, Closing(ByError))) && y == x.(closed := true)
    ensures Reachable(With(s, y, Sending(ByError)))
  {
    hide Reachable, Put, Go, With;
    WithMoves(s, x, y, Closing(ByError), Sending(ByError));
    WithMoves(s, y, y, Closing(ByError), Sending(ByError));
    Reach(With(s, x, Closing(ByError)), HandlerCloses(|s.handlers|), With(s, y, Sending(ByError)));
  }

  lemma TellOne(s: State, y: Session, z: Session)
    requires Reachable(With(s, y, Sending(ByError))) && y.deadline.Armed?
    requires z == y.(deadline := Told, receives := y.receives + 1, sends := y.sends + 1)
    ensures Reachable(With(s, z, Finished(ByError)))
  {
    hide Reachable, Put, Go, With;
    WithMoves(s, y, z, Sending(ByError), Finished(ByError));
    WithMoves(s, z, z, Sending(ByError), Finished(ByError));
    var e := Handoff(|s.all|, ByHandler(|s.handlers|), ToDeadline);
    Reach(With(s, y, Sending(ByError)), e, With(s, z, Finished(ByError)));
  }

  lemma LeakOne(s: State, sid: Uuid)
    requires Reachable(s) && s.creating.None? && HasRoom(s.limit, s.table) && Fresh(s, sid)
    ensures Reachable(With(s, LeakedSession(sid), Finished(ByError)))
  {
    hide Reachable, With, HasRoom, Fresh;
    CreateOne(s, sid);
    var x := NewSession(sid, true).(inserted := true);
    RunOne(s, x);
    CloseOne(s, x, x.(closed := true));
    TellOne(s, x.(closed := true), LeakedSession(sid));
  }

  /** The leaked sessions so far: all of them, under these identifiers. */
  predicate AllLeaked(s: State, limit: int, sids: seq<Uuid>) {
    && s.limit == limit && s.creating.None? && |s.all| == |sids| == |s.table|
    && forall i :: 0 <= i < |sids| ==> s.all[i].sid == sids[i] && Leaked(s, i)
  }

  lemma OneMore(s: State, limit: int, sids: seq<Uuid>, x: Session, t: State)
    requires Inv(s) && AllLeaked(s, limit, sids) && Fresh(s, x.sid)
    requires x.closed && x.deadline.Told? && x.watcher.Listening? && t == With(s, x, Finished(ByError))
    ensures AllLeaked(t, limit, sids + [x.sid])
  {
    TableGrows(s, x.sid);
    hide Inv, Fresh;
    forall h | 0 <= h < |s.handlers| ensures s.handlers[h].session < |s.all| {
      HasHandlerInv(s, h);
    }
    forall i | 0 <= i < |t.all| ensures Leaked(t, i) {
      if i < |s.all| {
        assert Leaked(s, i);
      }
    }
  }

  lemma TableGrows(s: State, sid: Uuid)
    requires Inv(s) && Fresh(s, sid)
    ensures |s.table[sid := |s.all|]| == |s.table| + 1
  {
    hide SessionInv, TableInv, CauseInv, LimitInv, Distinct, HandlerInv;
    assert sid !in s.table.Keys;
    assert s.table[sid := |s.all|].Keys == s.table.Keys + {sid};
  }

  /** Under any limit, for any different identifiers that fit it, there is a run that leaks all those sessions. */
  lemma {:induction false} LeakHappens(limit: int, sids: seq<Uuid>)
    requires limit > 0 ==> |sids| <= limit
    requires forall i, j :: 0 <= i < j < |sids| ==> sids[i] != sids[j]
    ensures exists s :: AllLeaked(s, limit, sids) && Reachable(s)
  {
    hide Reachable, Leaked, Inv;
    if sids == [] {
      StartReached(limit);
      assert AllLeaked(Start(limit), limit, sids);
    } else {
      var n := |sids| - 1;
      LeakHappens(limit, sids[..n]);
      var s :| AllLeaked(s, limit, sids[..n]) && Reachable(s);
      ReachableInv(s);
      LeakOne(s, sids[n]);
      OneMore(s, limit, sids[..n], LeakedSession(sids[n]), With(s, LeakedSession(sids[n]), Finished(ByError)));
      assert sids[..n] + [sids[n]] == sids;
    }
  }

  lemma StartReached(limit: int)
    ensures Reachable(Start(limit))
  {
    assert Exec(Start(limit), []) == Some(Start(limit));
  }

  /** Nobody can create a session any more, as long as nobody looks up one of these. */
  ghost predicate Exhausted(s: State, sids: seq<Uuid>) {
    forall es, sid, v4 :: Exec(s, es).Some? && (forall i :: 0 <= i < |sids| ==> NoLookup(es, sids[i])) ==>
      Step(Exec(s, es).value, NewBegin(sid, v4)).None?
  }

  /** Every positive limit can be exhausted for good, with any identifiers. */
  lemma RelayCanBeExhausted(limit: int, sids: seq<Uuid>)
    requires limit > 0 && |sids| == limit
    requires forall i, j :: 0 <= i < j < |sids| ==> sids[i] != sids[j]
    ensures exists s :: Reachable(s) && s.limit == limit && AllLeaked(s, limit, sids) && Exhausted(s, sids)
  {
    LeakHappens(limit, sids);
    hide Reachable, Leaked, Step, Exec, NoLookup;
    var s :| AllLeaked(s, limit, sids) && Reachable(s);
    forall es, sid, v4
      | Exec(s, es).Some? && forall i :: 0 <= i < |sids| ==> NoLookup(es, sids[i])
      ensures Step(Exec(s, es).value, NewBegin(sid, v4)).None?
    {
      LeakBlocksRelay(s, Below(|sids|), es, sid, v4);
    }
    assert Exhausted(s, sids);
  }

  function Below(n: nat): (r: set<nat>)
    ensures |r| == n
    ensures forall i :: i in r <==> 0 <= i < n
  {
    if n == 0 then {} else Below(n - 1) + {n - 1}
  }
}
