/** The requests that use a session, over every run: which of them delete it, and which of them ever return. */
module LifecycleHandlers {
  import opened Bytes
  import opened Uuid
  import opened Lifecycle
  import opened LifecycleInvariant
  import opened LifecycleProofs
  import V4Peer

  // ---- one handler, step by step

  predicate HasEnd(p: Phase) {
    !p.Looked? && !p.Running?
  }

  /** The way of a handler through its phases, and the events that take it there. */
  predicate PhaseNext(v4: bool, p: Phase, h: nat, e: Event, q: Phase) {
    match e
    case StartRun(k) => if k == h then p.Looked? && q == Running else q == p
    case GiveUp(k) => if k == h then p.Looked? && q == AfterRun(v4, NoRun) else q == p
    case RunFails(k, eof) => if k == h then p.Running? && q == Closing(if eof then ByEof else ByError) else q == p
    case HandlerCloses(k) => if k == h then p.Closing? && q == Sending(p.end) else q == p
    case HandlerDeletes(k) => if k == h then p.Deleting? && q == Finished(p.end) else q == p
    case _ => if Releases(e, h) then p.Sending? && q == AfterRun(v4, p.end) else q == p
  }

  lemma HandlerPhase(s: State, e: Event, t: State, h: nat)
    requires h < |s.handlers| && !OfManager(e) && !OfSession(e)
    requires e.h < |s.handlers| && s.handlers[e.h].session < |s.all| && HandlerStep(s, e.h, e) == Some(t)
    ensures |t.handlers| == |s.handlers| && t.handlers[h] == s.handlers[h].(phase := t.handlers[h].phase)
    ensures PhaseNext(s.handlers[h].v4, s.handlers[h].phase, h, e, t.handlers[h].phase)
  {
  }

  lemma ManagerPhase(s: State, e: Event, t: State, h: nat)
    requires h < |s.handlers| && ManagerStep(s, e) == Some(t)
    ensures h < |t.handlers| && t.handlers[h] == s.handlers[h]
  {
  }

  lemma Moves(s: State, e: Event, t: State, h: nat)
    requires Step(s, e) == Some(t) && h < |s.handlers|
    ensures h < |t.handlers| && t.handlers[h] == s.handlers[h].(phase := t.handlers[h].phase)
    ensures PhaseNext(s.handlers[h].v4, s.handlers[h].phase, h, e, t.handlers[h].phase)
  {
    hide ManagerStep, SessionStep, HandlerStep, AfterRun;
    if OfManager(e) {
      ManagerPhase(s, e, t, h);
    } else if OfSession(e) {
      OwnHandlers(s, e.i, e, t, h);
    } else {
      HandlerPhase(s, e, t, h);
    }
  }

  /** The ending of a handler is fixed by the event that ended its run, and kept. */
  predicate EndingKept(p: Phase, h: nat, es: seq<Event>, q: Phase) {
    if HasEnd(p) then HasEnd(q) && q.end == p.end && RunFails(h, true) !in es
    else if HasEnd(q) then q.end.ByEof? <==> RunFails(h, true) in es
    else RunFails(h, true) !in es
  }

  lemma {:induction false} Ending(s: State, es: seq<Event>, h: nat)
    requires Exec(s, es).Some? && h < |s.handlers|
    ensures var u := Exec(s, es).value;
            && h < |u.handlers| && u.handlers[h] == s.handlers[h].(phase := u.handlers[h].phase)
            && EndingKept(s.handlers[h].phase, h, es, u.handlers[h].phase)
    decreases es
  {
    hide Step;
    if es != [] {
      var next := Step(s, es[0]).value;
      Moves(s, es[0], next, h);
      Ending(next, es[1..], h);
      assert es == [es[0]] + es[1..];
      assert RunFails(h, true) in es <==> es[0] == RunFails(h, true) || RunFails(h, true) in es[1..];
    }
  }

  /** A v4 handler that deletes is one whose run ended with end of file. */
  lemma {:induction false} DeletesAfterEof(s: State, es: seq<Event>, h: nat)
    requires Inv(s) && Exec(s, es).Some? && h < |s.handlers| && s.handlers[h].v4 && HandlerDeletes(h) in es
    ensures var u := Exec(s, es).value;
            h < |u.handlers| && HasEnd(u.handlers[h].phase) && u.handlers[h].phase.end.ByEof?
    decreases es
  {
    hide Step, Inv;
    var next := Step(s, es[0]).value;
    Moves(s, es[0], next, h);
    if es[0] == HandlerDeletes(h) {
      HasHandlerInv(s, h);
      Ending(next, es[1..], h);
    } else {
      InvStep(s, es[0], next);
      assert HandlerDeletes(h) in es[1..];
      DeletesAfterEof(next, es[1..], h);
    }
  }

  // ---- which requests delete

  lemma {:induction false} SidKept(s: State, es: seq<Event>, i: nat)
    requires Inv(s) && Exec(s, es).Some? && i < |s.all|
    ensures Inv(Exec(s, es).value) && i < |Exec(s, es).value.all|
    ensures Exec(s, es).value.all[i].sid == s.all[i].sid && Exec(s, es).value.all[i].v4 == s.all[i].v4
    decreases es
  {
    hide Step, Inv;
    if es != [] {
      var next := Step(s, es[0]).value;
      StepEvolves(s, es[0], next, i);
      VersionKept(s, es[0], next, i);
      InvStep(s, es[0], next);
      SidKept(next, es[1..], i);
    }
  }

  lemma VersionKept(s: State, e: Event, t: State, i: nat)
    requires Step(s, e) == Some(t) && i < |s.all|
    ensures i < |t.all| && t.all[i].v4 == s.all[i].v4
  {
    hide V4Peer.Step;
  }

  /** A handler that deletes has removed its session by the time it is through. */
  lemma ThroughIsOut(s: State, h: nat)
    requires Inv(s) && h < |s.handlers| && s.handlers[h].phase.Finished?
    requires Deletes(s.handlers[h].v4, s.handlers[h].phase.end)
    ensures s.handlers[h].session < |s.all| && s.all[s.handlers[h].session].sid !in s.table
  {
    assert HandlerInv(s, h) && TableInv(s, s.handlers[h].session);
    hide KeyInv, Distinct, LimitInv, SessionInv, CauseInv;
  }

  lemma GetAdds(s: State, sid: Uuid, t: State)
    requires Step(s, Get(sid)) == Some(t)
    ensures sid in s.table && t == s.(handlers := s.handlers + [Handler(s.table[sid], false, Looked)])
  {
  }

  /**
   From the lookup of a session on: once the request that looked it up is through, whatever happened to it, the
   identifier is out of the registry.
   */
  lemma LookedUpOnce(s: State, sid: Uuid, t: State, es: seq<Event>, u: State)
    requires Reachable(s) && Step(s, Get(sid)) == Some(t) && Exec(t, es) == Some(u)
    ensures |s.handlers| < |u.handlers|
    ensures u.handlers[|s.handlers|].phase.Finished? ==> sid !in u.table
  {
    hide Step, Exec, Inv, Reachable;
    ReachableInv(s);
    GetAdds(s, sid, t);
    InvStep(s, Get(sid), t);
    KeyOf(s, sid);
    Ending(t, es, |s.handlers|);
    SidKept(t, es, s.table[sid]);
    if u.handlers[|s.handlers|].phase.Finished? {
      ThroughIsOut(u, |s.handlers|);
    }
  }

  lemma KeyOf(s: State, sid: Uuid)
    requires Inv(s) && sid in s.table
    ensures s.table[sid] < |s.all| && s.all[s.table[sid]].sid == sid
  {
  }

  lemma EndAdds(s: State, t: State)
    requires Step(s, NewEnd) == Some(t)
    ensures s.creating.Some? && s.creating.value < |s.all| && |t.all| == |s.all|
    ensures var i := s.creating.value;
            && t.all[i].sid == s.all[i].sid
            && t.handlers == s.handlers + if s.all[i].v4 then [Handler(i, true, Looked)] else []
  {
  }

  /**
   From the creation of a session on: a corp-relay session has no request yet. A v4 session has the one that created
   it, which deletes it if its run ended with end of file, and only then.
   */
  lemma CreatedOnce(s: State, t: State, es: seq<Event>, u: State)
    requires Reachable(s) && Step(s, NewEnd) == Some(t) && Exec(t, es) == Some(u)
    ensures s.creating.Some? && s.creating.value < |s.all|
    ensures !s.all[s.creating.value].v4 ==> t.handlers == s.handlers
    ensures s.all[s.creating.value].v4 ==>
              var h := |s.handlers|;
              && |t.handlers| == h + 1 && h < |u.handlers|
              && (HandlerDeletes(h) in es ==> RunFails(h, true) in es)
              && (RunFails(h, true) in es && u.handlers[h].phase.Finished? ==>
                    s.all[s.creating.value].sid !in u.table)
  {
    hide Step, Exec, Inv, Reachable;
    ReachableInv(s);
    EndAdds(s, t);
    InvStep(s, NewEnd, t);
    var i, h := s.creating.value, |s.handlers|;
    assert s.handlers + [] == s.handlers;
    if s.all[i].v4 {
      Ending(t, es, h);
      SidKept(t, es, i);
      if HandlerDeletes(h) in es {
        DeletesAfterEof(t, es, h);
      }
      if RunFails(h, true) in es && u.handlers[h].phase.Finished? {
        ThroughIsOut(u, h);
      }
    }
  }

  // ---- which requests come from where

  /** Only v4 sessions have a request of the v4 kind, and each one has just one. */
  predicate OwnerInv(s: State) {
    && (forall h :: 0 <= h < |s.handlers| && s.handlers[h].v4 ==>
          s.handlers[h].session < |s.all| && s.all[s.handlers[h].session].v4)
    && (forall h, k :: 0 <= h < k < |s.handlers| && s.handlers[h].v4 && s.handlers[k].v4 ==>
          s.handlers[h].session != s.handlers[k].session)
    && (forall h :: 0 <= h < |s.handlers| && s.handlers[h].v4 ==> s.creating != Some(s.handlers[h].session))
  }

  lemma OwnerKept(s: State, e: Event, t: State)
    requires OwnerInv(s) && Step(s, e) == Some(t) && !OfManager(e)
    ensures |t.handlers| == |s.handlers| && t.creating == s.creating && OwnerInv(t)
  {
    SameCount(s, e, t);
    hide Step;
    forall h | 0 <= h < |s.handlers| ensures t.handlers[h] == s.handlers[h].(phase := t.handlers[h].phase) {
      Moves(s, e, t, h);
    }
    forall h | 0 <= h < |s.handlers| && s.handlers[h].v4
      ensures t.handlers[h].session < |t.all| && t.all[t.handlers[h].session].v4
    {
      VersionKept(s, e, t, s.handlers[h].session);
    }
  }

  lemma SameCount(s: State, e: Event, t: State)
    requires Step(s, e) == Some(t) && !OfManager(e)
    ensures |t.handlers| == |s.handlers| && t.creating == s.creating
  {
    hide V4Peer.Step;
  }

  lemma OwnerManager(s: State, e: Event, t: State)
    requires OwnerInv(s) && ManagerStep(s, e) == Some(t)
    requires forall h :: 0 <= h < |s.handlers| ==> s.handlers[h].session < |s.all|
    ensures OwnerInv(t)
  {
    hide HasRoom, Fresh, NewSession;
  }

  lemma OwnerStep(s: State, e: Event, t: State)
    requires Inv(s) && OwnerInv(s) && Step(s, e) == Some(t)
    ensures OwnerInv(t)
  {
    if OfManager(e) {
      hide OwnerInv, ManagerStep, Inv;
      forall h | 0 <= h < |s.handlers| ensures s.handlers[h].session < |s.all| {
        HasHandlerInv(s, h);
      }
      OwnerManager(s, e, t);
    } else {
      hide OwnerInv, Step, Inv;
      OwnerKept(s, e, t);
    }
  }

  lemma {:induction false} OwnerRun(s: State, es: seq<Event>)
    requires Inv(s) && OwnerInv(s) && Exec(s, es).Some?
    ensures OwnerInv(Exec(s, es).value)
    decreases es
  {
    hide Step, Inv, OwnerInv;
    if es != [] {
      var next := Step(s, es[0]).value;
      OwnerStep(s, es[0], next);
      InvStep(s, es[0], next);
      OwnerRun(next, es[1..]);
    }
  }

  /** A v4 request belongs to a v4 session, and no two of them to the same. */
  lemma OneOwner(s: State)
    requires Reachable(s)
    ensures forall h :: 0 <= h < |s.handlers| && s.handlers[h].v4 ==>
              s.handlers[h].session < |s.all| && s.all[s.handlers[h].session].v4
    ensures forall h, k :: 0 <= h < k < |s.handlers| && s.handlers[h].v4 && s.handlers[k].v4 ==>
              s.handlers[h].session != s.handlers[k].session
  {
    var limit, es :| Exec(Start(limit), es) == Some(s);
    StartInv(limit);
    hide Inv, Exec;
    OwnerRun(Start(limit), es);
  }

  // ---- what can happen next

  /** A request may start or give up, and its run may end either way; those are all the choices it has. */
  lemma Choices(s: State, h: nat)
    requires Reachable(s) && h < |s.handlers|
    ensures Step(s, StartRun(h)).Some? <==> s.handlers[h].phase.Looked?
    ensures Step(s, GiveUp(h)).Some? <==> s.handlers[h].phase.Looked?
    ensures forall eof :: Step(s, RunFails(h, eof)).Some? <==> s.handlers[h].phase.Running?
    ensures Step(s, HandlerCloses(h)).Some? <==> s.handlers[h].phase.Closing?
    ensures Step(s, HandlerDeletes(h)).Some? <==> s.handlers[h].phase.Deleting? && s.creating.None?
  {
    hide Reachable, Inv, SessionInv, Step;
    ReachableInv(s);
    HasHandlerInv(s, h);
    ChoicesOf(s, h);
  }

  lemma ChoicesOf(s: State, h: nat)
    requires h < |s.handlers| && s.handlers[h].session < |s.all|
    ensures Step(s, StartRun(h)).Some? <==> s.handlers[h].phase.Looked?
    ensures Step(s, GiveUp(h)).Some? <==> s.handlers[h].phase.Looked?
    ensures forall eof :: Step(s, RunFails(h, eof)).Some? <==> s.handlers[h].phase.Running?
    ensures Step(s, HandlerCloses(h)).Some? <==> s.handlers[h].phase.Closing?
    ensures Step(s, HandlerDeletes(h)).Some? <==> s.handlers[h].phase.Deleting? && s.creating.None?
  {
    hide AfterRun;
  }

  /** A session may be looked up whenever it is registered, and a v4 session may do whatever its machine may do. */
  lemma OpenToAll(s: State, sid: Uuid, i: nat, e: V4Peer.Event)
    requires i < |s.all|
    ensures Step(s, Get(sid)).Some? <==> s.creating.None? && sid in s.table
    ensures Step(s, TimerFires(i)).Some? <==> s.all[i].deadline.Armed?
    ensures Step(s, Traffic(i, e)).Some? <==> s.all[i].v4 && V4Peer.Step(s.all[i].peer, e).Some?
    ensures Step(s, Traffic(i, e)).Some? ==>
              Some(Step(s, Traffic(i, e)).value.all[i].peer) == V4Peer.Step(s.all[i].peer, e)
  {
    hide V4Peer.Step;
  }
}
