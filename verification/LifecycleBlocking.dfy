/** Closing a session blocks until somebody takes its token: how many requests ever return, and which never do. */
module LifecycleBlocking {
  import opened Bytes
  import opened Uuid
  import opened Lifecycle
  import opened LifecycleInvariant
  import opened LifecycleProofs
  import opened LifecycleHandlers
  import V4Peer

  // ---- tokens of requests

  /** The handler ran session `i`, and its `Run` has returned. */
  predicate HasReturned(hd: Handler, i: nat) {
    hd.session == i && (hd.phase.Deleting? || hd.phase.Finished?) && !hd.phase.end.NoRun?
  }

  function Returned(hs: seq<Handler>, i: nat): nat {
    if hs == [] then 0 else Returned(hs[..|hs| - 1], i) + AsNat(HasReturned(hs[|hs| - 1], i))
  }

  lemma ReturnedSnoc(hs: seq<Handler>, hd: Handler, i: nat)
    ensures Returned(hs + [hd], i) == Returned(hs, i) + AsNat(HasReturned(hd, i))
  {
    assert (hs + [hd])[..|hs|] == hs;
  }

  lemma {:induction false} ReturnedPut(hs: seq<Handler>, h: nat, hd: Handler, i: nat)
    requires h < |hs|
    ensures Returned(hs[h := hd], i) == Returned(hs, i) - AsNat(HasReturned(hs[h], i)) + AsNat(HasReturned(hd, i))
  {
    hide HasReturned;
    var n := |hs| - 1;
    if h < n {
      ReturnedPut(hs[..n], h, hd, i);
      assert hs[h := hd][..n] == hs[..n][h := hd];
    } else {
      assert hs[h := hd][..n] == hs[..n];
    }
  }

  /** Whoever is closing a session ran it. */
  predicate RanInv(s: State, h: nat)
    requires h < |s.handlers|
  {
    s.handlers[h].phase.Closing? || s.handlers[h].phase.Sending? ==> !s.handlers[h].phase.end.NoRun?
  }

  /** Every token sent was sent by the deadline goroutine or by a request whose `Run` has then returned. */
  predicate SentInv(s: State, i: nat)
    requires i < |s.all|
  {
    s.all[i].sends == Returned(s.handlers, i) + AsNat(s.all[i].deadline.Delivered?)
  }

  ghost predicate CountInv(s: State) {
    && (forall h :: 0 <= h < |s.handlers| ==> RanInv(s, h))
    && (forall i :: 0 <= i < |s.all| ==> SentInv(s, i))
    && (forall h :: 0 <= h < |s.handlers| ==> s.handlers[h].session < |s.all|)
  }

  lemma RanStep(s: State, e: Event, t: State, h: nat)
    requires Step(s, e) == Some(t) && h < |s.handlers| && RanInv(s, h)
    ensures h < |t.handlers| && RanInv(t, h)
  {
    hide Step;
    Moves(s, e, t, h);
  }

  /** Only a handoff sends a token. */
  lemma SendsStep(s: State, e: Event, t: State, i: nat)
    requires Step(s, e) == Some(t) && i < |s.all|
    ensures i < |t.all|
    ensures var x, y := s.all[i], t.all[i];
            if e.Handoff? && e.i == i
            then && y.sends == x.sends + 1
                 && AsNat(y.deadline.Delivered?) == AsNat(x.deadline.Delivered?) + AsNat(e.from.ByDeadline?)
            else y.sends == x.sends && y.deadline.Delivered? == x.deadline.Delivered?
  {
    hide V4Peer.Step;
  }

  predicate Grown(hs: seq<Handler>, ks: seq<Handler>) {
    ks == hs || (|ks| == |hs| + 1 && ks == hs + [ks[|hs|]] && ks[|hs|].phase.Looked?)
  }

  /** The handlers after a step, as an update of those before. */
  lemma HandlersStep(s: State, e: Event, t: State)
    requires Step(s, e) == Some(t)
    ensures if OfManager(e) then Grown(s.handlers, t.handlers)
            else if OfSession(e) && !(e.Handoff? && e.from.ByHandler?) then t.handlers == s.handlers
            else var h := if OfSession(e) then e.from.h else e.h;
                 h < |s.handlers| && h < |t.handlers| && t.handlers == s.handlers[h := t.handlers[h]]
  {
    hide V4Peer.Step;
  }

  lemma {:induction false} NoneReturned(hs: seq<Handler>, i: nat)
    requires forall h :: 0 <= h < |hs| ==> hs[h].session != i
    ensures Returned(hs, i) == 0
  {
    if hs != [] {
      NoneReturned(hs[..|hs| - 1], i);
    }
  }

  /** A handler's `Run` returns when its token is taken. */
  lemma ReturnsWhenTaken(s: State, e: Event, t: State, h: nat, i: nat)
    requires Step(s, e) == Some(t) && h < |s.handlers| && RanInv(s, h)
    ensures h < |t.handlers|
    ensures AsNat(HasReturned(t.handlers[h], i)) ==
            AsNat(HasReturned(s.handlers[h], i)) + AsNat(Releases(e, h) && s.handlers[h].session == i)
  {
    hide Step;
    Moves(s, e, t, h);
  }

  lemma ReleasedIsOwn(s: State, e: Event, t: State)
    requires Step(s, e) == Some(t) && e.Handoff? && e.from.ByHandler?
    ensures e.from.h < |s.handlers| && s.handlers[e.from.h].session == e.i && e.i < |s.all|
  {
    hide V4Peer.Step;
  }

  lemma ReturnedStep(s: State, e: Event, t: State, i: nat)
    requires CountInv(s) && Step(s, e) == Some(t)
    ensures Returned(t.handlers, i) == Returned(s.handlers, i) + AsNat(e.Handoff? && e.from.ByHandler? && e.i == i)
  {
    hide Step, Returned, HasReturned, SentInv, RanInv;
    HandlersStep(s, e, t);
    if OfManager(e) {
      if t.handlers != s.handlers {
        ReturnedSnoc(s.handlers, t.handlers[|s.handlers|], i);
        LookedHasNot(t.handlers[|s.handlers|], i);
      }
    } else if !OfSession(e) || (e.Handoff? && e.from.ByHandler?) {
      var h := if OfSession(e) then e.from.h else e.h;
      ReturnedPut(s.handlers, h, t.handlers[h], i);
      assert RanInv(s, h);
      ReturnsWhenTaken(s, e, t, h, i);
      if OfSession(e) {
        ReleasedIsOwn(s, e, t);
      }
    }
  }

  lemma LookedHasNot(hd: Handler, i: nat)
    requires hd.phase.Looked?
    ensures !HasReturned(hd, i)
  {
  }

  lemma NewIsSilent(s: State, e: Event, t: State, i: nat)
    requires Step(s, e) == Some(t) && |s.all| <= i < |t.all|
    ensures t.all[i].sends == 0 && !t.all[i].deadline.Delivered? && e.NewBegin? && t.handlers == s.handlers
  {
    hide V4Peer.Step;
  }

  lemma SentStep(s: State, e: Event, t: State, i: nat)
    requires CountInv(s) && Step(s, e) == Some(t) && i < |t.all|
    ensures SentInv(t, i)
  {
    hide Step, Returned, RanInv;
    if i < |s.all| {
      assert SentInv(s, i);
      SendsStep(s, e, t, i);
      ReturnedStep(s, e, t, i);
    } else {
      NewIsSilent(s, e, t, i);
      NoneReturned(t.handlers, i);
    }
  }

  lemma CountStep(s: State, e: Event, t: State)
    requires Inv(s) && CountInv(s) && Step(s, e) == Some(t)
    ensures CountInv(t)
  {
    hide Step, SentInv, RanInv, Inv;
    InvStep(s, e, t);
    HandlersStep(s, e, t);
    forall i | 0 <= i < |t.all| ensures SentInv(t, i) {
      SentStep(s, e, t, i);
    }
    forall h | 0 <= h < |t.handlers| ensures RanInv(t, h) && t.handlers[h].session < |t.all| {
      HasHandlerInv(t, h);
      if h < |s.handlers| {
        RanStep(s, e, t, h);
      } else {
        LookedRan(t, h);
      }
    }
  }

  lemma LookedRan(s: State, h: nat)
    requires h < |s.handlers| && s.handlers[h].phase.Looked?
    ensures RanInv(s, h)
  {
  }

  lemma {:induction false} CountRun(s: State, es: seq<Event>)
    requires Inv(s) && CountInv(s) && Exec(s, es).Some?
    ensures CountInv(Exec(s, es).value)
    decreases es
  {
    hide Step, Inv, CountInv;
    if es != [] {
      var next := Step(s, es[0]).value;
      CountStep(s, es[0], next);
      InvStep(s, es[0], next);
      CountRun(next, es[1..]);
    }
  }

  lemma ReachableCount(s: State)
    requires Reachable(s)
    ensures CountInv(s)
  {
    var limit, es :| Exec(Start(limit), es) == Some(s);
    StartInv(limit);
    assert CountInv(Start(limit));
    hide Inv, Exec, CountInv, Start;
    CountRun(Start(limit), es);
  }

  /**
   However many requests use a session, at most two of their runs ever return, and at most one once the timer has
   fired: none, if the deadline goroutine's own token was the one taken.
   */
  lemma FewReturn(s: State, i: nat)
    requires Reachable(s) && i < |s.all|
    ensures Returned(s.handlers, i) + AsNat(s.all[i].deadline.Delivered?) == s.all[i].receives <= 2
    ensures Fired(s.all[i]) ==> Returned(s.handlers, i) + AsNat(s.all[i].deadline.Delivered?) <= 1
  {
    ReachableCount(s);
    assert SentInv(s, i);
    hide CountInv;
    TokensBalance(s, i);
  }

  // ---- requests that never return

  /** Nobody is left to take a token: the deadline goroutine waits no more, and neither does the watcher. */
  predicate NobodyWaits(x: Session) {
    !x.deadline.Armed? && !x.watcher.Listening?
  }

  lemma NobodyWaitsStep(s: State, e: Event, t: State, i: nat)
    requires Step(s, e) == Some(t) && i < |s.all| && NobodyWaits(s.all[i])
    ensures i < |t.all| && NobodyWaits(t.all[i])
    ensures e.Handoff? ==> e.i != i
  {
    hide V4Peer.Step;
  }

  /** The handler is inside `Run`. */
  predicate InRun(p: Phase) {
    p.Running? || p.Closing? || p.Sending?
  }

  predicate Blocked(s: State, h: nat) {
    && h < |s.handlers| && InRun(s.handlers[h].phase)
    && s.handlers[h].session < |s.all| && NobodyWaits(s.all[s.handlers[h].session])
  }

  lemma BlockedStep(s: State, e: Event, t: State, h: nat)
    requires Step(s, e) == Some(t) && Blocked(s, h)
    ensures Blocked(t, h)
  {
    hide Step, NobodyWaits;
    NobodyWaitsStep(s, e, t, s.handlers[h].session);
    Moves(s, e, t, h);
    if e.Handoff? && e.from.ByHandler? {
      ReleasedIsOwn(s, e, t);
    }
  }

  /** Such a handler never returns, in any continuation. */
  lemma {:induction false} BlockedForGood(s: State, es: seq<Event>, h: nat)
    requires Blocked(s, h) && Exec(s, es).Some?
    ensures Blocked(Exec(s, es).value, h)
    decreases es
  {
    hide Step, Blocked;
    if es != [] {
      BlockedStep(s, es[0], Step(s, es[0]).value, h);
      BlockedForGood(Step(s, es[0]).value, es[1..], h);
    }
  }

  // ---- and only those

  /** What a handler and those it waits for do next to get it through. */
  function ReturnStep(s: State, h: nat): Event
    requires h < |s.handlers| && s.handlers[h].session < |s.all|
  {
    var i := s.handlers[h].session;
    match s.handlers[h].phase
    case Looked => StartRun(h)
    case Running => RunFails(h, false)
    case Closing(_) => HandlerCloses(h)
    case Sending(_) => Handoff(i, ByHandler(h), if s.all[i].watcher.Listening? then ToWatcher else ToDeadline)
    case _ => if s.creating.Some? then NewEnd else HandlerDeletes(h)
  }

  function ReturnDistance(s: State, h: nat): nat
    requires h < |s.handlers|
  {
    match s.handlers[h].phase
    case Looked => 7
    case Running => 6
    case Closing(_) => 5
    case Sending(_) => 4
    case Deleting(_) => 2 + AsNat(s.creating.Some?)
    case Finished(_) => 0
  }

  lemma ReturnMoves(s: State, h: nat)
    requires Reachable(s) && h < |s.handlers| && !s.handlers[h].phase.Finished?
    ensures s.handlers[h].session < |s.all|
    ensures InRun(s.handlers[h].phase) && !Blocked(s, h) ==> Step(s, ReturnStep(s, h)).Some?
    ensures s.handlers[h].phase.Deleting? ==> Step(s, ReturnStep(s, h)).Some?
  {
    ReachableInv(s);
    assert HandlerInv(s, h);
    hide KeyInv, Distinct, TableInv, CauseInv, SessionInv;
  }

  lemma ReturnNearer(s: State, h: nat, t: State)
    requires h < |s.handlers| && s.handlers[h].session < |s.all| && Step(s, ReturnStep(s, h)) == Some(t)
    requires InRun(s.handlers[h].phase) || s.handlers[h].phase.Deleting?
    ensures h < |t.handlers| && ReturnDistance(t, h) < ReturnDistance(s, h)
    ensures !Blocked(s, h) && (s.handlers[h].phase.Running? || s.handlers[h].phase.Closing?) ==> !Blocked(t, h)
    ensures !s.handlers[h].phase.Running? && !s.handlers[h].phase.Closing? ==> !InRun(t.handlers[h].phase)
    ensures !t.handlers[h].phase.Looked?
  {
  }

  ghost predicate CanReturn(s: State, h: nat) {
    exists es, u :: Exec(s, es) == Some(u) && h < |u.handlers| && u.handlers[h].phase.Finished?
  }

  lemma ReturnLater(s: State, e: Event, t: State, h: nat)
    requires Step(s, e) == Some(t) && CanReturn(t, h)
    ensures CanReturn(s, h)
  {
    hide Step;
    var es, u :| Exec(t, es) == Some(u) && h < |u.handlers| && u.handlers[h].phase.Finished?;
    assert ([e] + es)[1..] == es;
    assert Exec(s, [e] + es) == Some(u);
  }

  lemma {:induction false} ReturnRun(s: State, h: nat)
    requires Reachable(s) && h < |s.handlers| && !Blocked(s, h) && !s.handlers[h].phase.Looked?
    ensures CanReturn(s, h)
    decreases ReturnDistance(s, h)
  {
    if s.handlers[h].phase.Finished? {
      assert Exec(s, []) == Some(s);
    } else {
      hide Reachable, Step, CanReturn, ReturnStep;
      ReturnMoves(s, h);
      var t := Step(s, ReturnStep(s, h)).value;
      ReturnNearer(s, h, t);
      Reach(s, ReturnStep(s, h), t);
      ReturnRun(t, h);
      ReturnLater(s, ReturnStep(s, h), t, h);
    }
  }

  /**
   A request that is inside `Run` can return if and only if the deadline goroutine or the watcher of its session is
   still waiting for a token. After the session's timer fired and its watcher left, none can.
   */
  lemma ReturnsIff(s: State, h: nat)
    requires Reachable(s) && h < |s.handlers| && InRun(s.handlers[h].phase)
    ensures s.handlers[h].session < |s.all|
    ensures var x := s.all[s.handlers[h].session];
            CanReturn(s, h) <==> x.deadline.Armed? || x.watcher.Listening?
  {
    ReturnMoves(s, h);
    if Blocked(s, h) {
      forall es, u | Exec(s, es) == Some(u) ensures h < |u.handlers| && !u.handlers[h].phase.Finished? {
        BlockedForGood(s, es, h);
      }
    } else {
      hide Reachable, CanReturn;
      ReturnRun(s, h);
    }
  }

  /** A request that is still inside `Run` when its session has expired and come to rest never returns. */
  lemma ExpiredNeverReturns(s: State, h: nat, es: seq<Event>)
    requires Reachable(s) && h < |s.handlers| && InRun(s.handlers[h].phase) && Exec(s, es).Some?
    requires s.handlers[h].session < |s.all| && Fired(s.all[s.handlers[h].session])
    requires AtRest(s, s.handlers[h].session)
    ensures h < |Exec(s, es).value.handlers| && InRun(Exec(s, es).value.handlers[h].phase)
  {
    ExpiredIsRemoved(s, s.handlers[h].session);
    hide Reachable, AtRest, Exec;
    BlockedForGood(s, es, h);
  }

  /** The timer can do this to every request that runs a session which nobody has closed yet. */
  lemma ExpiryBlocks(s: State, h: nat)
    requires h < |s.handlers| && s.handlers[h].phase.Running? && s.handlers[h].session < |s.all|
    requires s.all[s.handlers[h].session].deadline.Armed? && s.all[s.handlers[h].session].watcher.Listening?
    ensures var i := s.handlers[h].session;
            var u := Exec(s, [TimerFires(i), DeadlineCloses(i), Handoff(i, ByDeadline, ToWatcher)]);
            u.Some? && Blocked(u.value, h)
  {
    var i := s.handlers[h].session;
    var es := [TimerFires(i), DeadlineCloses(i), Handoff(i, ByDeadline, ToWatcher)];
    var s1 := Put(s, i, s.all[i].(deadline := Expired));
    var s2 := Put(s1, i, s1.all[i].(deadline := Offering, closed := true));
    var u := Put(s2, i, SenderDone(ReceiverTakes(s2.all[i], ToWatcher), ByDeadline));
    assert Step(s, es[0]) == Some(s1) && Step(s1, es[1]) == Some(s2) && Step(s2, es[2]) == Some(u);
    hide Step;
    assert es[1..][0] == es[1] && es[1..][1..] == [es[2]] && [es[2]][1..] == [];
    assert Exec(s2, [es[2]]) == Exec(u, []) == Some(u);
    assert Exec(s1, es[1..]) == Exec(s2, [es[2]]);
  }
}
