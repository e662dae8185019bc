/** What every step of the relay's goroutines, handlers and sessions keeps. */
module LifecycleInvariant {
  import opened Bytes
  import opened Uuid
  import opened Lifecycle
  import V4Peer
  import V4PeerTheorems

  /** What never changes back. */
  predicate Evolves(x: Session, y: Session) {
    && y.sid == x.sid
    && (x.inserted ==> y.inserted)
    && (x.closed ==> y.closed)
    && (x.dropped ==> y.dropped)
    && (x.watcher.Gone? ==> y.watcher.Gone?)
    && x.receives <= y.receives
  }

  // ---- one session

  /** No traffic, honest or not, changes the identifier of a session that the manager created. */
  lemma TrafficKeeps(x: Session, e: V4Peer.Event, p: V4Peer.Peer)
    requires x.v4 && ServerInv(x) && V4Peer.Step(x.peer, e) == Some(p)
    ensures p.sid == x.sid && ServerInv(x.(peer := p, sid := p.sid))
  {
    V4PeerTheorems.SidStepKeeps(x.peer, e, p);
  }

  /** How a step of session `i` changes that session; the others stay as they are. */
  lemma OwnStep(s: State, i: nat, e: Event, t: State)
    requires i < |s.all| && SessionStep(s, i, e) == Some(t) && SessionInv(s.all[i])
    requires e.Handoff? && e.from.ByHandler? && e.from.h < |s.handlers| ==> HandlerInv(s, e.from.h)
    ensures |t.all| == |s.all| && t.all == s.all[i := t.all[i]] && t.limit == s.limit && t.creating == s.creating
    ensures SessionInv(t.all[i]) && Evolves(s.all[i], t.all[i])
    ensures t.all[i].inserted == s.all[i].inserted && t.all[i].dropped == s.all[i].dropped
    ensures t.table == if e.WatcherDeletes? then s.table - {s.all[i].sid} else s.table
    ensures t.all[i].watcher.Gone? == (s.all[i].watcher.Gone? || e.WatcherDeletes?)
    ensures e.WatcherDeletes? ==> s.creating.None?
    ensures e.Handoff? ==> t.all[i].receives > 0
    ensures !e.Handoff? ==> (t.all[i].closed ==> s.all[i].closed || t.all[i].deadline.Offering?)
    ensures !e.Handoff? ==> (s.all[i].deadline.Offering? ==> t.all[i].deadline.Offering?)
  {
    hide V4Peer.Step;
    if e.Traffic? {
      TrafficKeeps(s.all[i], e.event, V4Peer.Step(s.all[i].peer, e.event).value);
    }
  }

  predicate Releases(e: Event, h: nat) {
    e.Handoff? && e.from == ByHandler(h)
  }

  /** What a step of session `i` does to a handler: it may release one of its own whose token was taken. */
  lemma OwnHandlers(s: State, i: nat, e: Event, t: State, h: nat)
    requires i < |s.all| && SessionStep(s, i, e) == Some(t) && h < |s.handlers|
    ensures |t.handlers| == |s.handlers|
    ensures !Releases(e, h) ==> t.handlers[h] == s.handlers[h]
    ensures Releases(e, h) ==> s.handlers[h].session == i && s.handlers[h].phase.Sending?
    ensures Releases(e, h) ==>
              t.handlers[h] == s.handlers[h].(phase := AfterRun(s.handlers[h].v4, s.handlers[h].phase.end))
  {
    hide V4Peer.Step;
  }

  lemma OwnCount(s: State, i: nat, e: Event, t: State)
    requires i < |s.all| && SessionStep(s, i, e) == Some(t)
    ensures |t.handlers| == |s.handlers|
  {
    hide V4Peer.Step;
  }

  lemma RemoveShrinks(m: map<Uuid, nat>, k: Uuid)
    ensures |m - {k}| <= |m|
  {
    assert (m - {k}).Keys == m.Keys - {k};
    assert |(m - {k}).Keys| <= |m.Keys|;
  }

  lemma InsertGrows(m: map<Uuid, nat>, k: Uuid, v: nat)
    ensures |m[k := v]| <= |m| + 1
  {
    assert m[k := v].Keys == m.Keys + {k};
  }

  /** Removing a key, or none, while identifiers stay, keeps what is said of keys and of the limit. */
  lemma KeysKept(s: State, t: State, k: Uuid)
    requires KeyInv(s) && Distinct(s) && LimitInv(s)
    requires |t.all| == |s.all| && t.limit == s.limit && t.creating == s.creating
    requires forall i :: 0 <= i < |s.all| ==> t.all[i].sid == s.all[i].sid
    requires t.table == s.table || t.table == s.table - {k}
    ensures KeyInv(t) && Distinct(t) && LimitInv(t)
  {
    RemoveShrinks(s.table, k);
  }

  /** What a step of session `i` leaves of the reasons why session `j` is closed or dropped. */
  lemma OwnCause(s: State, i: nat, e: Event, t: State, j: nat)
    requires i < |s.all| && j < |s.all| && SessionStep(s, i, e) == Some(t) && SessionInv(s.all[i]) && CauseInv(s, j)
    requires e.Handoff? && e.from.ByHandler? && e.from.h < |s.handlers| ==> HandlerInv(s, e.from.h)
    ensures j < |t.all| && CauseInv(t, j)
  {
    OwnStep(s, i, e, t);
    OwnCount(s, i, e, t);
    hide SessionStep, SessionInv, HandlerInv;
    if t.all[j].dropped {
      var h :| HasDropped(s, h, j);
      OwnHandlers(s, i, e, t, h);
      assert HasDropped(t, h, j);
    }
    if s.all[j].closed && s.all[j].receives == 0 && !s.all[j].deadline.Offering? {
      var h :| IsSending(s, h, j);
      OwnHandlers(s, i, e, t, h);
      assert Releases(e, h) || IsSending(t, h, j);
    }
  }

  lemma OwnTable(s: State, i: nat, e: Event, t: State, j: nat)
    requires Inv(s) && i < |s.all| && j < |s.all| && SessionStep(s, i, e) == Some(t)
    ensures j < |t.all| && TableInv(t, j)
  {
    assert TableInv(s, j) && TableInv(s, i);
    OwnStep(s, i, e, t);
    hide SessionStep, SessionInv, HandlerInv, CauseInv;
    assert i != j ==> s.all[i].sid != s.all[j].sid;
  }

  lemma OwnHandlerInv(s: State, i: nat, e: Event, t: State, h: nat)
    requires Inv(s) && i < |s.all| && h < |s.handlers| && SessionStep(s, i, e) == Some(t)
    ensures h < |t.handlers| && HandlerInv(t, h)
  {
    assert HandlerInv(s, h);
    OwnStep(s, i, e, t);
    OwnHandlers(s, i, e, t, h);
    hide SessionStep, SessionInv, TableInv, CauseInv;
  }

  lemma SessionGroup(s: State, i: nat, e: Event, t: State)
    requires Inv(s) && i < |s.all| && SessionStep(s, i, e) == Some(t)
    ensures Inv(t)
  {
    hide SessionStep, SessionInv, TableInv, CauseInv, HandlerInv, KeyInv, Distinct, LimitInv;
    OwnStep(s, i, e, t);
    OwnCount(s, i, e, t);
    KeysKept(s, t, s.all[i].sid);
    forall j | 0 <= j < |t.all| ensures TableInv(t, j) && CauseInv(t, j) {
      OwnTable(s, i, e, t, j);
      OwnCause(s, i, e, t, j);
    }
    forall h | 0 <= h < |t.handlers| ensures HandlerInv(t, h) {
      OwnHandlerInv(s, i, e, t, h);
    }
  }

  // ---- one handler

  /** How a step of a handler changes its session and itself; the others stay as they are. */
  lemma HandlerOwn(s: State, h: nat, e: Event, t: State)
    requires h < |s.handlers| && HandlerInv(s, h) && HandlerStep(s, h, e) == Some(t)
    requires s.handlers[h].session < |s.all| && SessionInv(s.all[s.handlers[h].session])
    ensures var i := s.handlers[h].session;
            && t.all == s.all[i := t.all[i]] && t.limit == s.limit && t.creating == s.creating
            && t.handlers == s.handlers[h := t.handlers[h]]
            && t.handlers[h].session == i && t.handlers[h].v4 == s.handlers[h].v4
            && SessionInv(t.all[i]) && Evolves(s.all[i], t.all[i])
            && t.all[i] == s.all[i].(closed := t.all[i].closed, dropped := t.all[i].dropped)
            && t.table == (if e.HandlerDeletes? then s.table - {s.all[i].sid} else s.table)
            && t.all[i].dropped == (s.all[i].dropped || e.HandlerDeletes?)
            && t.all[i].closed == (s.all[i].closed || e.HandlerCloses?)
    ensures e.HandlerDeletes? ==> s.creating.None? && HasDropped(t, h, s.handlers[h].session)
    ensures e.HandlerCloses? ==> IsSending(t, h, s.handlers[h].session)
    ensures !s.handlers[h].phase.Sending? && !s.handlers[h].phase.Finished?
    ensures HandlerInv(t, h)
  {
  }

  lemma HandlerCause(s: State, h: nat, e: Event, t: State, j: nat)
    requires Inv(s) && h < |s.handlers| && HandlerInv(s, h) && HandlerStep(s, h, e) == Some(t) && j < |s.all|
    ensures j < |t.all| && CauseInv(t, j)
  {
    HandlerOwn(s, h, e, t);
    assert CauseInv(s, j);
    hide HandlerStep, SessionInv, HandlerInv, TableInv;
    if s.all[j].dropped {
      var k :| HasDropped(s, k, j);
      assert HasDropped(t, k, j);
    }
    if s.all[j].closed && s.all[j].receives == 0 && !s.all[j].deadline.Offering? {
      var k :| IsSending(s, k, j);
      assert IsSending(t, k, j);
    }
  }

  lemma HandlerTable(s: State, h: nat, e: Event, t: State, j: nat)
    requires Inv(s) && h < |s.handlers| && HandlerInv(s, h) && HandlerStep(s, h, e) == Some(t) && j < |s.all|
    ensures j < |t.all| && TableInv(t, j)
  {
    HandlerOwn(s, h, e, t);
    var i := s.handlers[h].session;
    assert TableInv(s, j);
    assert i != j ==> s.all[i].sid != s.all[j].sid;
    hide HandlerStep, SessionInv, CauseInv;
  }

  lemma HandlerOthers(s: State, h: nat, e: Event, t: State, k: nat)
    requires Inv(s) && h < |s.handlers| && HandlerInv(s, h) && HandlerStep(s, h, e) == Some(t) && k < |s.handlers|
    ensures k < |t.handlers| && HandlerInv(t, k)
  {
    HandlerOwn(s, h, e, t);
    assert HandlerInv(s, k);
    hide HandlerStep, SessionInv, TableInv, CauseInv;
  }

  lemma HandlerGroup(s: State, h: nat, e: Event, t: State)
    requires Inv(s) && h < |s.handlers| && HandlerInv(s, h) && HandlerStep(s, h, e) == Some(t)
    ensures Inv(t)
  {
    HasHandlerInv(s, h);
    hide HandlerStep, SessionInv, TableInv, CauseInv, HandlerInv, KeyInv, Distinct, LimitInv;
    HandlerOwn(s, h, e, t);
    KeysKept(s, t, s.all[s.handlers[h].session].sid);
    forall j | 0 <= j < |t.all| ensures TableInv(t, j) && CauseInv(t, j) {
      HandlerTable(s, h, e, t, j);
      HandlerCause(s, h, e, t, j);
    }
    forall k | 0 <= k < |t.handlers| ensures HandlerInv(t, k) {
      HandlerOthers(s, h, e, t, k);
    }
  }

  // ---- the manager

  lemma ManagerCause(s: State, e: Event, t: State, j: nat)
    requires ManagerStep(s, e) == Some(t) && j < |s.all| && CauseInv(s, j)
    ensures j < |t.all| && CauseInv(t, j)
  {
    if s.all[j].dropped {
      var k :| HasDropped(s, k, j);
      assert HasDropped(t, k, j);
    }
    if s.all[j].closed && s.all[j].receives == 0 && !s.all[j].deadline.Offering? {
      var k :| IsSending(s, k, j);
      assert IsSending(t, k, j);
    }
  }

  lemma ManagerHandlers(s: State, e: Event, t: State, h: nat)
    requires Inv(s) && ManagerStep(s, e) == Some(t) && h < |t.handlers|
    ensures HandlerInv(t, h)
  {
    hide SessionInv, CauseInv, LimitInv, Distinct;
    if h < |s.handlers| {
      assert HandlerInv(s, h);
    } else if e.Get? {
      assert TableInv(s, s.table[e.sid]);
    }
  }

  lemma ManagerTable(s: State, e: Event, t: State, j: nat)
    requires Inv(s) && ManagerStep(s, e) == Some(t) && j < |t.all|
    ensures TableInv(t, j)
  {
    hide SessionInv, CauseInv, HandlerInv;
    if j < |s.all| {
      assert TableInv(s, j);
    }
  }

  lemma BeginKeys(s: State, e: Event, t: State)
    requires KeyInv(s) && Distinct(s) && LimitInv(s) && e.NewBegin? && ManagerStep(s, e) == Some(t)
    ensures KeyInv(t) && Distinct(t) && LimitInv(t)
  {
  }

  lemma InsertKeys(s: State, t: State, i: nat)
    requires KeyInv(s) && Distinct(s) && LimitInv(s) && s.creating == Some(i) && i < |s.all|
    requires |t.all| == |s.all| && t.limit == s.limit && t.creating.None? && t.table == s.table[s.all[i].sid := i]
    requires forall j :: 0 <= j < |s.all| ==> t.all[j].sid == s.all[j].sid
    ensures KeyInv(t) && Distinct(t) && LimitInv(t)
  {
    InsertGrows(s.table, s.all[i].sid, i);
  }

  lemma EndKeys(s: State, e: Event, t: State)
    requires KeyInv(s) && Distinct(s) && LimitInv(s) && e.NewEnd? && ManagerStep(s, e) == Some(t)
    ensures KeyInv(t) && Distinct(t) && LimitInv(t)
  {
    hide KeyInv, Distinct, LimitInv;
    InsertKeys(s, t, s.creating.value);
  }

  lemma ManagerKeys(s: State, e: Event, t: State)
    requires KeyInv(s) && Distinct(s) && LimitInv(s) && ManagerStep(s, e) == Some(t)
    ensures KeyInv(t) && Distinct(t) && LimitInv(t)
  {
    match e
    case NewBegin(_, _) => BeginKeys(s, e, t);
    case NewEnd => EndKeys(s, e, t);
    case Get(_) => KeysKept(s, t, NIL);
  }

  lemma ManagerSessions(s: State, e: Event, t: State, j: nat)
    requires ManagerStep(s, e) == Some(t) && j < |t.all| && (j < |s.all| ==> SessionInv(s.all[j]))
    ensures SessionInv(t.all[j])
    ensures j < |s.all| ==> Evolves(s.all[j], t.all[j])
    ensures j >= |s.all| ==> !t.all[j].closed && !t.all[j].dropped
  {
  }

  lemma ManagerGroup(s: State, e: Event, t: State)
    requires Inv(s) && ManagerStep(s, e) == Some(t)
    ensures Inv(t)
  {
    hide ManagerStep, SessionInv, TableInv, HandlerInv, KeyInv, Distinct, LimitInv;
    ManagerKeys(s, e, t);
    forall j | 0 <= j < |t.all| ensures SessionInv(t.all[j]) && TableInv(t, j) && CauseInv(t, j) {
      ManagerSessions(s, e, t, j);
      ManagerTable(s, e, t, j);
      if j < |s.all| {
        ManagerCause(s, e, t, j);
      }
    }
    forall h | 0 <= h < |t.handlers| ensures HandlerInv(t, h) {
      ManagerHandlers(s, e, t, h);
    }
  }

  // ---- every step

  lemma InvStep(s: State, e: Event, t: State)
    requires Inv(s) && Step(s, e) == Some(t)
    ensures Inv(t)
  {
    hide Inv, ManagerStep, SessionStep, HandlerStep;
    if OfManager(e) {
      ManagerGroup(s, e, t);
    } else if OfSession(e) {
      SessionGroup(s, e.i, e, t);
    } else {
      HasHandlerInv(s, e.h);
      HandlerGroup(s, e.h, e, t);
    }
  }

  lemma HasHandlerInv(s: State, h: nat)
    requires Inv(s) && h < |s.handlers|
    ensures HandlerInv(s, h) && SessionInv(s.all[s.handlers[h].session])
  {
  }

  /** Sessions are never forgotten, and what has happened to one is never undone. */
  lemma StepEvolves(s: State, e: Event, t: State, i: nat)
    requires Inv(s) && Step(s, e) == Some(t) && i < |s.all|
    ensures i < |t.all| && Evolves(s.all[i], t.all[i]) && t.limit == s.limit
  {
    hide ManagerStep, SessionStep, HandlerStep, TableInv, CauseInv, KeyInv, Distinct, LimitInv;
    if OfManager(e) {
      ManagerSame(s, e, t);
      ManagerSessions(s, e, t, i);
    } else if OfSession(e) {
      OwnStep(s, e.i, e, t);
    } else {
      HandlerOwn(s, e.h, e, t);
    }
  }

  lemma ManagerSame(s: State, e: Event, t: State)
    requires ManagerStep(s, e) == Some(t)
    ensures t.limit == s.limit && |s.all| <= |t.all| && |s.handlers| <= |t.handlers|
  {
  }

  lemma {:induction false} InvRun(s: State, es: seq<Event>)
    requires Inv(s) && Exec(s, es).Some?
    ensures Inv(Exec(s, es).value)
    decreases es
  {
    hide Step, Inv;
    if es != [] {
      var next := Step(s, es[0]).value;
      InvStep(s, es[0], next);
      InvRun(next, es[1..]);
    }
  }
}
