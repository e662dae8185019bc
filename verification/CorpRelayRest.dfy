/** Two corp-relay sessions without I/O failures: whatever was read gets through, under every schedule. */
module CorpRelayRest {
  import opened Bytes
  import opened CorpRelay
  import opened CorpRelayProofs
  import opened CorpRelaySystem

  ghost predicate Reached(s: System) {
    exists mvs :: Exec(INIT, mvs) == Some(s) && FaultFree(mvs)
  }

  lemma ReachedHonest(s: System)
    requires Reached(s)
    ensures Honest(s)
  {
    hide Honest;
    var mvs :| Exec(INIT, mvs) == Some(s) && FaultFree(mvs);
    InitHonest();
    NoFalseAlarms(INIT, mvs);
  }

  /** What arrives between healthy ends is accepted. */
  lemma NoAlarm(s: System, side: Side, f: Frame)
    requires Honest(s) && Arrives(s, side, f)
    ensures Take(f).Some?
  {
    hide Take, Taken, WriterInv, ReporterInv, CountInv, RecvInv, SendInv;
  }

  /** Nobody has stopped, and what arrives next is accepted. */
  lemma NeverAlarmed(s: System, side: Side)
    requires Reached(s)
    ensures !s.End(side).ssh.SshStopped? && !s.End(side).ws.WsStopped?
    ensures forall f :: Arrives(s, side, f) ==> Take(f).Some?
  {
    ReachedHonest(s);
    hide Take, SysInv, Reached;
    forall f | Arrives(s, side, f) ensures Take(f).Some? {
      NoAlarm(s, side, f);
    }
  }

  // ---- at rest

  predicate QuietEnd(p: Peer, far: Peer) {
    p.ssh.Reading? && p.ws.Awaiting? && |p.got| == |far.sent|
  }

  /** Nothing is in flight and nobody is busy. */
  predicate Quiet(s: System) {
    QuietEnd(s.helper, s.relay) && QuietEnd(s.relay, s.helper)
  }

  lemma QuietBytes(s: System, side: Side)
    requires Honest(s) && Quiet(s)
    ensures s.Far(side).delivered == s.End(side).read
  {
    var near, far := s.End(side), s.Far(side);
    BytesConserved(s, side);
    assert InFlight(near, far) == [];
    hide Inv;
    NothingMore(far.delivered, Pending(far), Taken(InFlight(near, far)), Held(near), near.read);
  }

  lemma CountIsDelivered(p: Peer)
    requires Inv(p) && Healthy(p) && p.ws.Awaiting?
    ensures p.c == |p.delivered| % TWO_24
  {
    hide Taken, Clean, WriterInv, ReporterInv, SendInv, CleanInv, WriteAck;
    assert p.delivered + [] == p.delivered;
  }

  /** At rest, each ssh has been given all that the other sent, and the counters are these numbers modulo 2^24. */
  lemma RestAgrees(s: System, side: Side)
    requires Reached(s) && Quiet(s)
    ensures var near, far := s.End(side), s.Far(side);
            far.delivered == near.read && far.c == |near.read| % TWO_24
  {
    ReachedHonest(s);
    hide Inv, Reached;
    QuietBytes(s, side);
    CountIsDelivered(s.Far(side));
  }

  // ---- the number of steps to rest

  /** A message is received, and if it is binary delivered. */
  function FrameCost(f: Frame): nat {
    if f.Binary? then 2 else 1
  }

  function TotalCost(log: seq<Frame>): nat {
    if log == [] then 0 else TotalCost(log[..|log| - 1]) + FrameCost(log[|log| - 1])
  }

  function SshCost(t: SshTask): nat {
    match t
    case Holding(_) => 6
    case Opened(_) => 5
    case Acked(_, _) => 4
    case Closing(_, _) => 3
    case _ => 0
  }

  /** What this end still has to do, and what it put on the wire, less what it took from the wire. */
  function Balance(p: Peer): int {
    SshCost(p.ssh) + (if p.ws.Delivering? then 1 else 0) + TotalCost(p.sent) - TotalCost(p.got)
  }

  function Work(s: System): int {
    Balance(s.helper) + Balance(s.relay)
  }

  /** A step of the relay itself: no failure, no fresh input from ssh and no latency report. */
  predicate Internal(e: Event) {
    !Fault(e) && !e.SshRead? && !e.Report?
  }

  lemma CostSnoc(log: seq<Frame>, f: Frame)
    ensures TotalCost(log + [f]) == TotalCost(log) + FrameCost(f)
  {
    assert (log + [f])[..|log|] == log;
  }

  lemma BalanceStep(p: Peer, e: Event, q: Peer)
    requires Healthy(p) && Internal(e) && Step(p, e) == Some(q) && (e.Receive? ==> Take(e.f).Some?)
    ensures Balance(q) == Balance(p) - 1
  {
    hide TotalCost, ReadAck, WriteAck, IncCounter, Mark;
    if e.Receive? {
      CostSnoc(p.got, e.f);
    } else if e.Flush? {
      CostSnoc(p.sent, Binary(p.ssh.buf));
    }
  }

  lemma WorkStep(s: System, mv: Move, t: System)
    requires Honest(s) && Internal(mv.event) && Next(s, mv) == Some(t)
    ensures Honest(t) && Work(t) == Work(s) - 1
  {
    hide Balance, Step, SysInv, Take;
    HonestStep(s, mv, t);
    if mv.event.Receive? {
      NoAlarm(s, mv.side, mv.event.f);
    }
    BalanceStep(s.End(mv.side), mv.event, t.End(mv.side));
  }

  lemma {:induction false} CostPrefix(p: seq<Frame>, q: seq<Frame>)
    requires p <= q
    ensures TotalCost(p) <= TotalCost(q)
  {
    if p != q {
      CostPrefix(p, q[..|q| - 1]);
    } else {
      assert p == q;
    }
  }

  lemma WorkIsNat(s: System)
    requires Honest(s)
    ensures Work(s) >= 0
    ensures Quiet(s) ==> Work(s) == 0
  {
    hide Inv, TotalCost;
    assert Quiet(s) ==> s.helper.got == s.relay.sent && s.relay.got == s.helper.sent;
    CostPrefix(s.helper.got, s.relay.sent);
    CostPrefix(s.relay.got, s.helper.sent);
  }

  // ---- a busy system can always move

  /** What this end can do by itself, if it is busy. */
  function Busy(p: Peer): Option<Event> {
    if p.ws.Delivering? then Some(Deliver)
    else
      match p.ssh
      case Holding(_) => Some(Open)
      case Opened(_) => Some(PutAck)
      case Acked(_, _) => Some(PutData)
      case Closing(_, _) => Some(Flush)
      case _ => None
  }

  lemma BusyMoves(p: Peer)
    requires Healthy(p)
    ensures Busy(p).Some? ==> Step(p, Busy(p).value).Some? && Internal(Busy(p).value) && !Busy(p).value.Receive?
    ensures Busy(p).None? ==> p.ssh.Reading? && p.ws.Awaiting?
  {
    hide WriteAck;
  }

  ghost predicate Movable(s: System) {
    exists mv: Move :: Next(s, mv).Some? && Internal(mv.event)
  }

  lemma EndMoves(s: System, side: Side)
    requires Healthy(s.End(side)) && Busy(s.End(side)).Some?
    ensures Movable(s)
  {
    BusyMoves(s.End(side));
    hide Healthy, Busy, Step;
    assert Next(s, Move(side, Busy(s.End(side)).value)).Some?;
  }

  lemma QueueMoves(s: System, side: Side)
    requires s.End(side).ws.Awaiting? && |s.End(side).got| < |s.Far(side).sent|
    ensures Movable(s)
  {
    hide Handle;
    var f := s.Far(side).sent[|s.End(side).got|];
    assert Next(s, Move(side, Receive(f))).Some?;
  }

  lemma CanMove(s: System)
    requires Honest(s) && !Quiet(s)
    ensures Movable(s)
  {
    hide Movable, Inv, Busy;
    BusyMoves(s.helper);
    BusyMoves(s.relay);
    hide Healthy;
    if Busy(s.helper).Some? {
      EndMoves(s, Helper);
    } else if Busy(s.relay).Some? {
      EndMoves(s, Relay);
    } else if |s.helper.got| < |s.relay.sent| {
      QueueMoves(s, Helper);
    } else {
      QueueMoves(s, Relay);
    }
  }

  // ---- schedules

  predicate AllInternal(mvs: seq<Move>) {
    forall i :: 0 <= i < |mvs| ==> Internal(mvs[i].event)
  }

  lemma {:induction false} ScheduleCounts(s: System, mvs: seq<Move>)
    requires Honest(s) && AllInternal(mvs) && Exec(s, mvs).Some?
    ensures Honest(Exec(s, mvs).value) && Work(Exec(s, mvs).value) == Work(s) - |mvs|
    decreases mvs
  {
    hide Next, Honest, Work;
    if mvs != [] {
      var next := Next(s, mvs[0]).value;
      WorkStep(s, mvs[0], next);
      ScheduleCounts(next, mvs[1..]);
    }
  }

  /**
   However the goroutines are scheduled: without new input the system takes at most `Work(s)` steps; as long as it is
   not at rest some goroutine can go on; and when none can, it has taken exactly that many and delivered everything.
   */
  lemma EverySchedule(s: System, mvs: seq<Move>, t: System)
    requires Reached(s) && AllInternal(mvs) && Exec(s, mvs) == Some(t)
    ensures |mvs| <= Work(s)
    ensures Movable(t) <==> !Quiet(t)
    ensures Quiet(t) <==> |mvs| == Work(s)
    ensures Quiet(t) ==> t.relay.delivered == t.helper.read && t.helper.delivered == t.relay.read
  {
    hide Honest, Quiet, Next, Work, Reached, Internal, Movable, Exec;
    ReachedHonest(s);
    ScheduleCounts(s, mvs);
    WorkIsNat(t);
    if Quiet(t) {
      QuietBytes(t, Helper);
      QuietBytes(t, Relay);
    } else {
      CanMove(t);
    }
    if Movable(t) {
      MovableWork(t);
    }
  }

  /** A system that can move has work left. */
  lemma MovableWork(s: System)
    requires Honest(s) && Movable(s)
    ensures Work(s) > 0
  {
    hide Honest, Next, Work, Internal;
    var mv: Move :| Next(s, mv).Some? && Internal(mv.event);
    WorkStep(s, mv, Next(s, mv).value);
    WorkIsNat(Next(s, mv).value);
  }

  ghost predicate CanRest(s: System) {
    exists mvs, t :: Exec(s, mvs) == Some(t) && AllInternal(mvs) && Quiet(t)
  }

  lemma RestAfter(s: System, mv: Move)
    requires Internal(mv.event) && Next(s, mv).Some? && CanRest(Next(s, mv).value)
    ensures CanRest(s)
  {
    hide Next, Quiet, Internal;
    var mvs, t :| Exec(Next(s, mv).value, mvs) == Some(t) && AllInternal(mvs) && Quiet(t);
    var all := [mv] + mvs;
    assert all[1..] == mvs;
    assert Exec(s, all) == Some(t) && AllInternal(all);
  }

  lemma {:induction false} Drains(s: System)
    requires Honest(s)
    ensures CanRest(s)
    decreases Work(s)
  {
    WorkIsNat(s);
    hide Honest, Work, Next, Quiet, Internal;
    if Quiet(s) {
      assert Exec(s, []) == Some(s) && AllInternal([]);
    } else {
      hide CanRest;
      CanMove(s);
      var mv: Move :| Next(s, mv).Some? && Internal(mv.event);
      WorkStep(s, mv, Next(s, mv).value);
      WorkIsNat(Next(s, mv).value);
      Drains(Next(s, mv).value);
      RestAfter(s, mv);
    }
  }

  /** And there is always a schedule to rest. */
  lemma SomeSchedule(s: System)
    requires Reached(s)
    ensures exists mvs, t :: Exec(s, mvs) == Some(t) && AllInternal(mvs) && Quiet(t)
  {
    ReachedHonest(s);
    hide Honest, Reached;
    Drains(s);
  }

  // ---- whatever is put in comes out

  /** Bytes that the ssh connection of one end gives in one read. */
  datatype Input = Input(side: Side, chunk: seq<Byte>)

  /** All that the ssh connection of `side` gives. */
  function Given(inputs: seq<Input>, side: Side): seq<Byte> {
    if inputs == [] then []
    else
      var n := |inputs| - 1;
      Given(inputs[..n], side) + if inputs[n].side == side then inputs[n].chunk else []
  }

  lemma {:induction false} ExecAppend(s: System, a: seq<Move>, b: seq<Move>)
    requires Exec(s, a).Some?
    ensures Exec(s, a + b) == Exec(Exec(s, a).value, b)
    decreases a
  {
    hide Next;
    if a == [] {
      assert a + b == b;
    } else {
      assert (a + b)[1..] == a[1..] + b;
      ExecAppend(Next(s, a[0]).value, a[1..], b);
    }
  }

  lemma ReachedLater(s: System, mvs: seq<Move>)
    requires Reached(s) && FaultFree(mvs) && Exec(s, mvs).Some?
    ensures Reached(Exec(s, mvs).value)
  {
    hide Next, Step;
    var before :| Exec(INIT, before) == Some(s) && FaultFree(before);
    ExecAppend(INIT, before, mvs);
    assert FaultFree(before + mvs);
  }

  lemma {:induction false} NothingRead(s: System, mvs: seq<Move>)
    requires AllInternal(mvs) && Exec(s, mvs).Some?
    ensures forall side :: Exec(s, mvs).value.End(side).read == s.End(side).read
    decreases mvs
  {
    if mvs != [] {
      var next := Next(s, mvs[0]).value;
      LogsGrow(s.End(mvs[0].side), mvs[0].event, next.End(mvs[0].side));
      assert forall side :: side != mvs[0].side ==> next.End(side) == s.End(side);
      hide Step;
      NothingRead(next, mvs[1..]);
    }
  }

  /** A state at rest that has the same bytes read. */
  lemma Settles(s: System)
    requires Reached(s)
    ensures exists t :: Reached(t) && Quiet(t) && forall side :: t.End(side).read == s.End(side).read
  {
    SomeSchedule(s);
    hide Reached, Quiet, Exec;
    var mvs, t :| Exec(s, mvs) == Some(t) && AllInternal(mvs) && Quiet(t);
    NothingRead(s, mvs);
    ReachedLater(s, mvs);
  }

  lemma CanRead(s: System, side: Side, chunk: seq<Byte>)
    requires Reached(s) && Quiet(s) && |chunk| <= 0xff_ffff
    ensures exists t :: Reached(t) && t.End(side).read == s.End(side).read + chunk
                        && forall other :: other != side ==> t.End(other).read == s.End(other).read
  {
    var mvs := [Move(side, SshRead(chunk))];
    assert mvs[1..] == [];
    var t := Next(s, mvs[0]).value;
    assert Exec(t, []) == Some(t) && Exec(s, mvs) == Exec(t, mvs[1..]);
    hide Reached;
    ReachedLater(s, mvs);
  }

  /** A latency report may be sent as well; it changes nothing that is read or delivered. */
  lemma CanReport(s: System, side: Side, text: seq<Byte>)
    requires Reached(s) && Quiet(s)
    ensures exists t :: Reached(t) && t.End(side).sent == s.End(side).sent + [Text(text)]
                        && forall any ::
                             t.End(any).read == s.End(any).read && t.End(any).delivered == s.End(any).delivered
  {
    ReachedHonest(s);
    var mvs := [Move(side, Report(text))];
    assert mvs[1..] == [];
    var t := Next(s, mvs[0]).value;
    assert Exec(t, []) == Some(t) && Exec(s, mvs) == Exec(t, mvs[1..]);
    hide Reached, Inv;
    ReachedLater(s, mvs);
  }

  /** At rest, with these inputs taken in and no others. */
  ghost predicate Took(s: System, inputs: seq<Input>) {
    Reached(s) && Quiet(s) && forall side :: s.End(side).read == Given(inputs, side)
  }

  lemma TookNothing()
    ensures exists s :: Took(s, [])
  {
    var s := INIT;
    assert Exec(INIT, []) == Some(INIT) && FaultFree([]);
    assert forall side :: s.End(side).read == [];
    hide Reached, Quiet;
    Settles(s);
    var t :| Reached(t) && Quiet(t) && forall side :: t.End(side).read == s.End(side).read;
    assert Took(t, []);
  }

  lemma TakesOne(s: System, inputs: seq<Input>, x: Input)
    requires Took(s, inputs) && |x.chunk| <= 0xff_ffff
    ensures exists t :: Took(t, inputs + [x])
  {
    hide Reached, Quiet;
    CanRead(s, x.side, x.chunk);
    var t :| Reached(t) && t.End(x.side).read == s.End(x.side).read + x.chunk
             && forall other :: other != x.side ==> t.End(other).read == s.End(other).read;
    Settles(t);
    var u :| Reached(u) && Quiet(u) && forall side :: u.End(side).read == t.End(side).read;
    assert (inputs + [x])[..|inputs|] == inputs;
    assert Took(u, inputs + [x]);
  }

  lemma {:induction false} Takes(inputs: seq<Input>)
    requires forall i :: 0 <= i < |inputs| ==> |inputs[i].chunk| <= 0xff_ffff
    ensures exists s :: Took(s, inputs)
  {
    hide Took;
    if inputs == [] {
      TookNothing();
    } else {
      var n := |inputs| - 1;
      Takes(inputs[..n]);
      var s :| Took(s, inputs[..n]);
      TakesOne(s, inputs[..n], inputs[n]);
      assert inputs == inputs[..n] + [inputs[n]];
    }
  }

  /**
   Whatever the two ssh connections give, in whatever chunks and order, there is a run that takes it all in, and at
   whose end each has been given all that the other gave.
   */
  lemma GetsThrough(inputs: seq<Input>)
    requires forall i :: 0 <= i < |inputs| ==> |inputs[i].chunk| <= 0xff_ffff
    ensures exists s :: Reached(s) && Quiet(s)
                        && forall side :: s.End(side).read == s.Far(side).delivered == Given(inputs, side)
  {
    hide Reached, Quiet, Given;
    Takes(inputs);
    var s :| Took(s, inputs);
    forall side ensures s.Far(side).delivered == s.End(side).read {
      RestAgrees(s, side);
    }
  }
}
