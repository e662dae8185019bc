/** The registry over every run: what holds, and exactly when a closed session is not removed. */
module LifecycleProofs {
  import opened Bytes
  import opened Uuid
  import opened Lifecycle
  import opened LifecycleInvariant

  ghost predicate Reachable(s: State) {
    exists limit, es :: Exec(Start(limit), es) == Some(s)
  }

  lemma ReachableInv(s: State)
    requires Reachable(s)
    ensures Inv(s)
  {
    hide Inv, Start;
    var limit, es :| Exec(Start(limit), es) == Some(s);
    StartInv(limit);
    InvRun(Start(limit), es);
  }

  // ---- the registry

  /** At most `limit` sessions are registered, each under the identifier that its `SID()` returns now. */
  lemma RegistryHolds(s: State)
    requires Reachable(s)
    ensures s.limit > 0 ==> |s.table| <= s.limit
    ensures forall sid :: sid in s.table ==> s.table[sid] < |s.all| && s.all[s.table[sid]].sid == sid
    ensures forall i :: 0 <= i < |s.all| && s.all[i].v4 ==> s.all[i].sid == s.all[i].peer.sid
  {
    ReachableInv(s);
    hide TokenInv, TableInv, CauseInv, HandlerInv, Distinct;
    forall i | 0 <= i < |s.all| && s.all[i].v4 ensures s.all[i].sid == s.all[i].peer.sid {
      assert SessionInv(s.all[i]);
    }
  }

  lemma AboutSession(s: State, i: nat)
    requires Reachable(s) && i < |s.all|
    ensures TokenInv(s.all[i]) && TableInv(s, i) && CauseInv(s, i)
  {
    ReachableInv(s);
    assert SessionInv(s.all[i]);
    hide KeyInv, Distinct, LimitInv, HandlerInv, TokenInv, TableInv, CauseInv;
  }

  /** Tokens: as many taken as sent, never more than two; the deadline goroutine takes none once its timer has fired. */
  lemma TokensBalance(s: State, i: nat)
    requires Reachable(s) && i < |s.all|
    ensures s.all[i].sends == s.all[i].receives <= 2
    ensures Fired(s.all[i]) ==> s.all[i].receives <= 1
    ensures s.all[i].receives > 0 ==> s.all[i].closed
  {
    AboutSession(s, i);
  }

  /** The watcher removes a session only after it was inserted and after its ssh connection was closed. */
  lemma WatcherInOrder(s: State, i: nat, t: State)
    requires Reachable(s) && i < |s.all| && Step(s, WatcherDeletes(i)) == Some(t)
    ensures s.all[i].inserted && s.all[i].closed
    ensures s.all[i].sid in s.table || s.all[i].dropped
    ensures s.all[i].sid !in t.table && t.table == s.table - {s.all[i].sid}
  {
    AboutSession(s, i);
  }

  // ---- expiry

  /** The timer of the session has fired. */
  predicate Fired(x: Session) {
    x.deadline.Expired? || x.deadline.Offering? || x.deadline.Delivered?
  }

  /** The deadline goroutine and the watcher of session `i` cannot take a step. */
  ghost predicate AtRest(s: State, i: nat) {
    && s.creating.None?
    && Step(s, DeadlineCloses(i)).None?
    && Step(s, WatcherDeletes(i)).None?
    && forall from, to :: Step(s, Handoff(i, from, to)).None?
  }

  /** Once the timer of a session has fired, the session is out of the registry whenever its goroutines are at rest. */
  lemma ExpiredIsRemoved(s: State, i: nat)
    requires Reachable(s) && i < |s.all| && AtRest(s, i) && Fired(s.all[i])
    ensures s.all[i].sid !in s.table && s.all[i].watcher.Gone?
  {
    AboutSession(s, i);
    assert Step(s, Handoff(i, ByDeadline, ToWatcher)).None?;
  }

  /** What the goroutines of a session whose timer has fired do next. */
  function ExpiryStep(s: State, i: nat): Event
    requires i < |s.all|
  {
    if s.creating.Some? then NewEnd
    else if s.all[i].deadline.Expired? then DeadlineCloses(i)
    else if s.all[i].watcher.Listening? then Handoff(i, ByDeadline, ToWatcher)
    else WatcherDeletes(i)
  }

  function ExpiryDistance(s: State, i: nat): nat
    requires i < |s.all|
  {
    var x := s.all[i];
    if x.watcher.Gone? then 0
    else
      AsNat(s.creating.Some?) + AsNat(x.deadline.Expired?) + AsNat(x.watcher.Listening?) + 1
  }

  lemma ExpiryMoves(s: State, i: nat, t: State)
    requires Reachable(s) && i < |s.all| && Fired(s.all[i]) && !s.all[i].watcher.Gone?
    requires Step(s, ExpiryStep(s, i)) == Some(t)
    ensures i < |t.all| && Fired(t.all[i]) && t.all[i].sid == s.all[i].sid
    ensures ExpiryDistance(t, i) == ExpiryDistance(s, i) - 1
  {
    AboutSession(s, i);
    hide Reachable, TableInv, CauseInv, HandlerStep, TrafficStep;
  }

  lemma ExpiryCan(s: State, i: nat)
    requires Reachable(s) && i < |s.all| && Fired(s.all[i]) && !s.all[i].watcher.Gone?
    ensures Step(s, ExpiryStep(s, i)).Some?
  {
    AboutSession(s, i);
    ReachableInv(s);
    hide TableInv, CauseInv, HandlerInv, KeyInv, Distinct;
  }

  /** Steps of the deadline goroutine and the watcher of session `i`, and the end of a pending `New`. */
  predicate OwnOnly(es: seq<Event>, i: nat) {
    forall k :: 0 <= k < |es| ==>
      es[k] == NewEnd || es[k] == DeadlineCloses(i) || es[k] == WatcherDeletes(i)
      || es[k] == Handoff(i, ByDeadline, ToWatcher)
  }

  /** A run of at most `n` such steps after which `sid` is not registered. */
  ghost predicate Removable(s: State, i: nat, sid: Uuid, n: nat) {
    exists es :: OwnOnly(es, i) && |es| <= n && Exec(s, es).Some? && sid !in Exec(s, es).value.table
  }

  lemma RemovableAfter(s: State, i: nat, t: State, sid: Uuid, n: nat)
    requires i < |s.all| && Step(s, ExpiryStep(s, i)) == Some(t) && Removable(t, i, sid, n)
    ensures Removable(s, i, sid, n + 1)
  {
    hide Step;
    var es :| OwnOnly(es, i) && |es| <= n && Exec(t, es).Some? && sid !in Exec(t, es).value.table;
    var all := [ExpiryStep(s, i)] + es;
    assert all[1..] == es;
    assert OwnOnly(all, i) && Exec(s, all) == Exec(t, es);
  }

  lemma {:induction false} ExpiryRun(s: State, i: nat)
    requires Reachable(s) && i < |s.all| && Fired(s.all[i])
    ensures Removable(s, i, s.all[i].sid, ExpiryDistance(s, i))
    decreases ExpiryDistance(s, i)
  {
    if s.all[i].watcher.Gone? {
      AboutSession(s, i);
      assert Exec(s, []) == Some(s) && OwnOnly([], i);
    } else {
      hide Reachable, Step, Removable;
      ExpiryCan(s, i);
      var t := Step(s, ExpiryStep(s, i)).value;
      ExpiryMoves(s, i, t);
      Reach(s, ExpiryStep(s, i), t);
      ExpiryRun(t, i);
      RemovableAfter(s, i, t, s.all[i].sid, ExpiryDistance(t, i));
    }
  }

  /**
   From every state after the timer of a session fired, at most four steps of its own goroutines and of a pending
   `New` take the session out of the registry.
   */
  lemma ExpiryRemoves(s: State, i: nat)
    requires Reachable(s) && i < |s.all| && Fired(s.all[i])
    ensures exists es ::
              OwnOnly(es, i) && |es| <= 4 && Exec(s, es).Some? && s.all[i].sid !in Exec(s, es).value.table
  {
    ExpiryRun(s, i);
  }

  // ---- closing

  /** The handlers of session `i` that are through are of v4 requests, and none of their runs ended with end of file. */
  predicate OnlyV4Errors(s: State, i: nat) {
    forall h :: 0 <= h < |s.handlers| && s.handlers[h].session == i && s.handlers[h].phase.Finished? ==>
      s.handlers[h].v4 && !s.handlers[h].phase.end.ByEof?
  }

  lemma DroppedIff(s: State, i: nat)
    requires Reachable(s) && i < |s.all|
    ensures s.all[i].dropped <==> !OnlyV4Errors(s, i)
  {
    AboutSession(s, i);
    ReachableInv(s);
    hide TokenInv, TableInv, KeyInv, Distinct, LimitInv;
    if s.all[i].dropped {
      var h :| HasDropped(s, h, i);
    }
    if !OnlyV4Errors(s, i) {
      var h :| 0 <= h < |s.handlers| && s.handlers[h].session == i && s.handlers[h].phase.Finished?
               && !(s.handlers[h].v4 && !s.handlers[h].phase.end.ByEof?);
      assert HandlerInv(s, h);
    }
  }

  lemma SenderBlocked(s: State, i: nat, h: nat)
    requires i < |s.all| && AtRest(s, i) && IsSending(s, h, i)
    ensures !s.all[i].watcher.Listening?
  {
    assert Step(s, Handoff(i, ByHandler(h), ToWatcher)).None?;
  }

  /** Somebody took the token of a closed session, if its goroutines are at rest. */
  lemma TokenTaken(s: State, i: nat)
    requires Reachable(s) && i < |s.all| && AtRest(s, i) && s.all[i].closed
    ensures s.all[i].receives > 0
  {
    AboutSession(s, i);
    assert Step(s, Handoff(i, ByDeadline, ToWatcher)).None?;
    forall h | IsSending(s, h, i) ensures !s.all[i].watcher.Listening? {
      SenderBlocked(s, i, h);
    }
  }

  /**
   A closed session at rest is still registered exactly when none of its requests was a corp-relay request or ended
   with end of file, of those that are through, and its only token went to the deadline goroutine.
   */
  lemma ClosedAtRest(s: State, i: nat)
    requires Reachable(s) && i < |s.all| && AtRest(s, i) && s.all[i].closed
    ensures s.all[i].sid in s.table <==>
              OnlyV4Errors(s, i) && s.all[i].deadline.Told? && s.all[i].receives == 1
  {
    TokenTaken(s, i);
    DroppedIff(s, i);
    AboutSession(s, i);
    hide CauseInv, OnlyV4Errors;
  }

  // ---- one-shot identifiers

  predicate Out(s: State, i: nat) {
    i < |s.all| && s.all[i].inserted && s.all[i].sid !in s.table
  }

  lemma OutStep(s: State, e: Event, t: State, i: nat)
    requires Inv(s) && Step(s, e) == Some(t) && Out(s, i)
    ensures Out(t, i) && t.all[i].sid == s.all[i].sid
  {
    InvStep(s, e, t);
    StepEvolves(s, e, t, i);
    hide Step, HandlerInv, KeyInv, Distinct, LimitInv, SessionInv, CauseInv;
    assert TableInv(s, i) && TableInv(t, i);
  }

  /** An identifier that has left the registry never comes back. */
  lemma {:induction false} OutForGood(s: State, es: seq<Event>, i: nat)
    requires Inv(s) && Out(s, i) && Exec(s, es).Some?
    ensures Out(Exec(s, es).value, i) && Exec(s, es).value.all[i].sid == s.all[i].sid
    decreases es
  {
    hide Step, Inv;
    if es != [] {
      var next := Step(s, es[0]).value;
      OutStep(s, es[0], next, i);
      InvStep(s, es[0], next);
      OutForGood(next, es[1..], i);
    }
  }

  /**
   Once a corp-relay request that looked a session up has returned, or a v4 request whose run ended with end of
   file, every later lookup of that session fails.
   */
  lemma OneShot(s: State, h: nat, es: seq<Event>)
    requires Reachable(s) && h < |s.handlers| && Exec(s, es).Some?
    requires s.handlers[h].phase.Finished? && (!s.handlers[h].v4 || s.handlers[h].phase.end.ByEof?)
    ensures s.handlers[h].session < |s.all|
    ensures Step(Exec(s, es).value, Get(s.all[s.handlers[h].session].sid)).None?
  {
    ReachableInv(s);
    var i := s.handlers[h].session;
    assert HandlerInv(s, h) && TableInv(s, i);
    hide Inv, Exec, HandlerInv, TableInv;
    OutForGood(s, es, i);
  }

  // ---- runs, step by step

  lemma {:induction false} ExecSnoc(s: State, es: seq<Event>, e: Event)
    requires Exec(s, es).Some?
    ensures Exec(s, es + [e]) == Step(Exec(s, es).value, e)
    decreases es
  {
    hide Step;
    if es == [] {
      assert (es + [e])[1..] == [];
    } else {
      assert (es + [e])[1..] == es[1..] + [e];
      ExecSnoc(Step(s, es[0]).value, es[1..], e);
    }
  }

  lemma Reach(s: State, e: Event, t: State)
    requires Reachable(s) && Step(s, e) == Some(t)
    ensures Reachable(t)
  {
    hide Step, Start;
    var limit, es :| Exec(Start(limit), es) == Some(s);
    ExecSnoc(Start(limit), es, e);
  }
}
