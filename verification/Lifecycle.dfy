/**
 The relay's sessions from registration to removal, with every goroutine that has a part in it.

 For each session: the deadline goroutine, which waits for its timer or for a token on the session's `done`
 channel; the manager's watcher, which waits for a token and then removes the session; any number of request
 handlers, which run the session and then close it; and the traffic of a v4 session, which is a machine of its own.
 `Close` closes ssh and then offers one token, and blocks until somebody takes it. `New` holds the manager's lock
 from its check of the limit to the insertion.
 */
module Lifecycle {
  import opened Bytes
  import opened Uuid
  import V4Peer

  datatype Deadline =
    | Armed                 // in the select
    | Expired               // the timer fired, inside Close, ssh not closed yet
    | Offering              // ssh is closed, blocked on the send
    | Delivered             // its token was taken
    | Told                  // took a token instead of the timer

  datatype Watcher = Listening | Removing | Gone

  /**
   `sid` is what the session's `SID()` returns now; a v4 session reads it from its machine `peer`, which for a
   corp-relay session means nothing. `inserted`, `dropped`, `closed`, `sends` and `receives` record what has happened.
   */
  datatype Session = Session(
    sid: Uuid, v4: bool, peer: V4Peer.Peer, deadline: Deadline, watcher: Watcher,
    inserted: bool, dropped: bool, closed: bool, sends: nat, receives: nat)

  /** How a handler's run of the session ended. */
  datatype Ending = NoRun | ByEof | ByError

  datatype Phase =
    | Looked                // has the session, does not run it yet
    | Running
    | Closing(end: Ending)  // Run has its error, and is inside Close
    | Sending(end: Ending)
    | Deleting(end: Ending) // about to call Delete
    | Finished(end: Ending)

  datatype Handler = Handler(session: nat, v4: bool, phase: Phase)

  datatype State = State(
    limit: int, table: map<Uuid, nat>, all: seq<Session>, creating: Option<nat>, handlers: seq<Handler>)

  datatype Sender = ByDeadline | ByHandler(h: nat)
  datatype Receiver = ToDeadline | ToWatcher

  datatype Event =
    | NewBegin(sid: Uuid, v4: bool)
    | NewEnd
    | Get(sid: Uuid)
    | TimerFires(i: nat)
    | DeadlineCloses(i: nat)
    | Handoff(i: nat, from: Sender, to: Receiver)
    | WatcherDeletes(i: nat)
    | Traffic(i: nat, event: V4Peer.Event)
    | StartRun(h: nat)
    | GiveUp(h: nat)        // no Run: the request was bad, or the WebSocket could not be set up
    | RunFails(h: nat, eof: bool)
    | HandlerCloses(h: nat)
    | HandlerDeletes(h: nat)

  // ---- the registry

  /** The limit test of `New`; a limit that is not positive is none. */
  predicate HasRoom(limit: int, table: map<Uuid, nat>) {
    limit > 0 ==> |table| < limit
  }

  // ---- steps

  function NewSession(sid: Uuid, v4: bool): Session {
    Session(sid, v4, V4Peer.Start(V4Peer.Server, sid), Armed, Listening, false, false, false, 0, 0)
  }

  predicate Fresh(s: State, sid: Uuid) {
    forall i :: 0 <= i < |s.all| ==> s.all[i].sid != sid
  }

  function Put(s: State, i: nat, x: Session): State
    requires i < |s.all|
  {
    s.(all := s.all[i := x])
  }

  function Go(s: State, h: nat, p: Phase): State
    requires h < |s.handlers|
  {
    s.(handlers := s.handlers[h := s.handlers[h].(phase := p)])
  }

  predicate Offers(s: State, i: nat, from: Sender)
    requires i < |s.all|
  {
    match from
    case ByDeadline => s.all[i].deadline.Offering?
    case ByHandler(h) => h < |s.handlers| && s.handlers[h].session == i && s.handlers[h].phase.Sending?
  }

  predicate Waits(x: Session, to: Receiver) {
    if to == ToDeadline then x.deadline.Armed? else x.watcher.Listening?
  }

  /** A corp-relay handler deletes whatever happened; a v4 handler only after an end of file. */
  predicate Deletes(v4: bool, end: Ending) {
    !v4 || end.ByEof?
  }

  /** What a handler does once `Run` has returned. */
  function AfterRun(v4: bool, end: Ending): Phase {
    if Deletes(v4, end) then Deleting(end) else Finished(end)
  }

  function ReceiverTakes(x: Session, to: Receiver): Session {
    if to == ToDeadline then x.(deadline := Told, receives := x.receives + 1)
    else x.(watcher := Removing, receives := x.receives + 1)
  }

  function SenderDone(x: Session, from: Sender): Session {
    if from == ByDeadline then x.(deadline := Delivered, sends := x.sends + 1) else x.(sends := x.sends + 1)
  }

  function HandoffStep(s: State, i: nat, from: Sender, to: Receiver): Option<State>
    requires i < |s.all|
  {
    if Offers(s, i, from) && Waits(s.all[i], to) then
      var t := Put(s, i, SenderDone(ReceiverTakes(s.all[i], to), from));
      Some(if from.ByHandler? then Go(t, from.h, AfterRun(s.handlers[from.h].v4, s.handlers[from.h].phase.end)) else t)
    else None
  }

  /** The traffic of a v4 session, whatever it is, moves its machine and nothing else. */
  function TrafficStep(s: State, i: nat, e: V4Peer.Event): Option<State>
    requires i < |s.all|
  {
    var x := s.all[i];
    if !x.v4 then None
    else
      match V4Peer.Step(x.peer, e)
      case None => None
      case Some(p) => Some(Put(s, i, x.(peer := p, sid := p.sid)))
  }

  function SessionStep(s: State, i: nat, e: Event): Option<State>
    requires i < |s.all|
  {
    var x := s.all[i];
    match e
    case TimerFires(_) =>
      if x.deadline.Armed? then Some(Put(s, i, x.(deadline := Expired))) else None
    case DeadlineCloses(_) =>
      if x.deadline.Expired? then Some(Put(s, i, x.(deadline := Offering, closed := true))) else None
    case Handoff(_, from, to) => HandoffStep(s, i, from, to)
    case WatcherDeletes(_) =>
      if x.watcher.Removing? && s.creating.None?
      then Some(Put(s, i, x.(watcher := Gone)).(table := s.table - {x.sid})) else None
    case Traffic(_, te) => TrafficStep(s, i, te)
    case _ => None
  }

  function HandlerStep(s: State, h: nat, e: Event): Option<State>
    requires h < |s.handlers| && s.handlers[h].session < |s.all|
  {
    var hd, i := s.handlers[h], s.handlers[h].session;
    match e
    case StartRun(_) =>
      if hd.phase.Looked? then Some(Go(s, h, Running)) else None
    case GiveUp(_) =>
      if hd.phase.Looked? then Some(Go(s, h, AfterRun(hd.v4, NoRun))) else None
    case RunFails(_, eof) =>
      if hd.phase.Running? then Some(Go(s, h, Closing(if eof then ByEof else ByError))) else None
    case HandlerCloses(_) =>
      if hd.phase.Closing?
      then Some(Go(Put(s, i, s.all[i].(closed := true)), h, Sending(hd.phase.end))) else None
    case HandlerDeletes(_) =>
      if hd.phase.Deleting? && s.creating.None? then
        var t := Go(Put(s, i, s.all[i].(dropped := true)), h, Finished(hd.phase.end));
        Some(t.(table := s.table - {s.all[i].sid}))
      else None
    case _ => None
  }

  function ManagerStep(s: State, e: Event): Option<State> {
    match e
    case NewBegin(sid, v4) =>
      // uuid.New never repeats; the goroutines of the session start here, before it is inserted.
      if s.creating.None? && HasRoom(s.limit, s.table) && Fresh(s, sid)
      then Some(s.(all := s.all + [NewSession(sid, v4)], creating := Some(|s.all|))) else None
    case NewEnd =>
      if s.creating.Some? && s.creating.value < |s.all| then
        var i := s.creating.value;
        var x := s.all[i];
        var t := Put(s, i, x.(inserted := true)).(table := s.table[x.sid := i], creating := None);
        Some(if x.v4 then t.(handlers := s.handlers + [Handler(i, true, Looked)]) else t)
      else None
    case Get(sid) =>
      if s.creating.None? && sid in s.table
      then Some(s.(handlers := s.handlers + [Handler(s.table[sid], false, Looked)])) else None
    case _ => None
  }

  predicate OfManager(e: Event) {
    e.NewBegin? || e.NewEnd? || e.Get?
  }

  predicate OfSession(e: Event) {
    e.TimerFires? || e.DeadlineCloses? || e.Handoff? || e.WatcherDeletes? || e.Traffic?
  }

  function Step(s: State, e: Event): Option<State> {
    if OfManager(e) then ManagerStep(s, e)
    else if OfSession(e) then
      if e.i < |s.all| then SessionStep(s, e.i, e) else None
    else
      if e.h < |s.handlers| && s.handlers[e.h].session < |s.all| then HandlerStep(s, e.h, e) else None
  }

  function Start(limit: int): State {
    State(limit, map[], [], None, [])
  }

  function Exec(s: State, es: seq<Event>): Option<State>
    decreases es
  {
    if es == [] then Some(s)
    else
      match Step(s, es[0])
      case None => None
      case Some(next) => Exec(next, es[1..])
  }

  // ---- the invariant

  function AsNat(b: bool): nat {
    if b then 1 else 0
  }

  /** Tokens sent and taken balance, and no one takes two; whoever took one did so after ssh was closed. */
  predicate TokenInv(x: Session) {
    && x.sends == x.receives == AsNat(x.deadline.Told?) + AsNat(!x.watcher.Listening?)
    && (x.deadline.Offering? || x.deadline.Delivered? || x.sends > 0 ==> x.closed)
    && (x.deadline.Delivered? ==> !x.watcher.Listening?)
  }

  /** The machine of a v4 session is a server's, so nothing it receives changes what `SID()` returns. */
  predicate ServerInv(x: Session) {
    x.v4 ==> x.peer.role == V4Peer.Server && x.peer.sid == x.sid
  }

  predicate SessionInv(x: Session) {
    TokenInv(x) && ServerInv(x)
  }

  /** A session is registered from its insertion until its watcher or a handler removes it. */
  predicate TableInv(s: State, i: nat)
    requires i < |s.all|
  {
    var x := s.all[i];
    && (x.sid in s.table <==> x.inserted && !x.watcher.Gone? && !x.dropped)
    && (x.watcher.Gone? || x.dropped ==> x.inserted)
    && (x.inserted <==> s.creating != Some(i))
  }

  predicate HandlerInv(s: State, h: nat)
    requires h < |s.handlers|
  {
    var hd := s.handlers[h];
    && hd.session < |s.all|
    && s.all[hd.session].inserted
    && (hd.phase.Sending? ==> s.all[hd.session].closed)
    && (hd.phase.Deleting? ==> Deletes(hd.v4, hd.phase.end))
    && (hd.phase.Finished? && Deletes(hd.v4, hd.phase.end) ==> s.all[hd.session].dropped)
  }

  predicate IsSending(s: State, h: nat, i: nat) {
    h < |s.handlers| && s.handlers[h].session == i && s.handlers[h].phase.Sending?
  }

  predicate HasDropped(s: State, h: nat, i: nat) {
    && h < |s.handlers| && s.handlers[h].session == i
    && s.handlers[h].phase.Finished? && Deletes(s.handlers[h].v4, s.handlers[h].phase.end)
  }

  /** Whoever closed ssh offers a token until somebody takes it; and only handlers that delete drop a session. */
  ghost predicate CauseInv(s: State, i: nat)
    requires i < |s.all|
  {
    var x := s.all[i];
    && (x.closed ==> x.receives > 0 || x.deadline.Offering? || exists h :: IsSending(s, h, i))
    && (x.dropped ==> exists h :: HasDropped(s, h, i))
  }

  /** Every key is the identifier of its session. */
  predicate KeyInv(s: State) {
    forall sid :: sid in s.table ==> s.table[sid] < |s.all| && s.all[s.table[sid]].sid == sid
  }

  predicate Distinct(s: State) {
    forall i, j :: 0 <= i < j < |s.all| ==> s.all[i].sid != s.all[j].sid
  }

  /** The registry never outgrows a positive limit; a session being created has its place reserved. */
  predicate LimitInv(s: State) {
    && (s.limit > 0 ==> |s.table| + AsNat(s.creating.Some?) <= s.limit)
    && (s.creating.Some? ==> s.creating.value < |s.all|)
  }

  ghost predicate Inv(s: State) {
    && KeyInv(s) && Distinct(s) && LimitInv(s)
    && (forall i :: 0 <= i < |s.all| ==> SessionInv(s.all[i]))
    && (forall i :: 0 <= i < |s.all| ==> TableInv(s, i))
    && (forall i :: 0 <= i < |s.all| ==> CauseInv(s, i))
    && (forall h :: 0 <= h < |s.handlers| ==> HandlerInv(s, h))
  }

  lemma StartInv(limit: int)
    ensures Inv(Start(limit))
  {
  }
}
