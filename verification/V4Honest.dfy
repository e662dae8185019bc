/**
 The corp-relay-v4 client/server system while no I/O call has failed: what every step keeps, what is conserved, and
 how far the system is from rest. V4FaultFree states the results for whole runs.
 */
module V4Honest {
  import opened Bytes
  import opened Command
  import opened Uuid
  import opened V4Log
  import opened V4Peer
  import opened V4PeerProofs
  import opened V4System

  predicate TaskFine(t: Task) {
    && !t.Stopped?
    && (t.Sends() ==> t.cmd.Valid())
    && (t.Writing? ==> !t.failed)
  }

  predicate Healthy(p: Peer) {
    TaskFine(p.ssh) && TaskFine(p.ws) && Sound(p)
  }

  predicate Honest(s: System) {
    SysInv(s) && Healthy(s.client) && Healthy(s.server)
  }

  // ---- no false alarms

  /** An ACK from an honest far end is ahead of the counter by the size of one chunk. */
  lemma AckArrival(p: Peer, far: Peer, m: Message)
    requires Inv(p) && Inv(far) && p.ws.Idle? && p.got < far.sent && m == far.sent[|p.got|]
    requires Unmarshal(m).Ok? && Unmarshal(m).value.Ack?
    ensures 1 <= Advance(p.wCount, Unmarshal(m).value.ack) <= MAX_ARRAY_LEN
  {
    hide Unmarshal, Commands, Payload, Acks, AcksOwed, NonAcks, LockInv, JobInv, RoleInv, SendInv, HelloInv, SidInv;
    var k, a := |p.got|, Unmarshal(m).value.ack;
    var cs, all := Commands(p.got), Commands(far.sent);
    var owed := AcksOwed(Commands(far.got));
    ArrivalIsCommand(p, far, m);
    AcksSnoc(cs, Ack(a));
    assert all[..k + 1] == cs + [Ack(a)];
    Prefix(all[..k + 1], all);
    var n := |Acks(cs)|;
    assert owed[n] == a && Before(owed, n) == Before(Acks(cs), n);
    forall i | 0 <= i < |Commands(far.got)| ensures Commands(far.got)[i].Valid() {
      CommandsAt(far.got, i);
    }
    OwedAdvance(Commands(far.got), n);
  }

  /** No end ever sends RECONNECT_SUCCESS, and a client never sends CONNECT_SUCCESS. */
  lemma KindOnWire(p: Peer, i: nat)
    requires Inv(p) && i < |Commands(p.sent)|
    ensures !Commands(p.sent)[i].ReconnectSuccess?
    ensures p.role == Client ==> !Commands(p.sent)[i].ConnectSuccess?
  {
    hide Commands, NonAcks, Format, LockInv, JobInv, RoleInv, RecvInv, AckInv, SendInv, SidInv;
    if !Commands(p.sent)[i].Ack? {
      NonAckIn(Commands(p.sent), i);
    }
  }

  /** Whatever arrives between healthy ends is processed without an error. */
  lemma NoAlarm(s: System, side: Role, m: Message)
    requires Honest(s) && s.End(side).ws.Idle? && Arrives(s, side, m)
    ensures !Handle(s.End(side), m).ws.Stopped?
    ensures Unmarshal(m).Ok? && Unmarshal(m).value.Valid()
  {
    hide Unmarshal, Commands, Inv, Parse;
    var p, far := s.End(side), s.Far(side);
    var k := |p.got|;
    CommandsAt(far.sent, k);
    assert WellFormed(p.got) by { CommandsPrefix(p.got, far.sent); }
    ArrivalIsCommand(p, far, m);
    KindOnWire(far, k);
    match Unmarshal(m).value {
      case Ack(_) => AckArrival(p, far, m);
      case ConnectSuccess(_) => HelloArrival(s, m);
      case _ =>
    }
  }

  lemma TaskKeepsFine(t: Task, free: bool, broken: bool, act: Act)
    requires TaskFine(t) && TaskAfter(t, free, broken, act).Some?
    requires !act.OpenFail? && !act.WriteFail? && !act.FlushLost?
    ensures TaskFine(TaskAfter(t, free, broken, act).value)
  {
  }

  lemma HealthyEvent(p: Peer, e: Event, q: Peer)
    requires Inv(p) && Healthy(p) && !Fault(e) && !e.Receive? && Step(p, e) == Some(q)
    ensures Healthy(q)
  {
    hide Unmarshal, Commands, Encode, Flatten, WriteCalls, TaskAfter;
    hide LockInv, RecvInv, AckInv, SendInv, HelloInv, SidInv;
    if e.Send? {
      TaskKeepsFine(p.TaskOf(e.who), p.mu.None?, p.broken, e.act);
      if e.act.Flush? {
        FlushKeepsSound(p, e.who);
      }
    }
  }

  lemma FlushKeepsSound(p: Peer, who: Who)
    requires JobInv(p.TaskOf(who)) && TaskFine(p.TaskOf(who)) && WellFormed(p.sent) && SendStep(p, who, Flush).Some?
    ensures WellFormed(p.sent + [p.TaskOf(who).buf])
    ensures Commands(p.sent + [p.TaskOf(who).buf]) == Commands(p.sent) + [p.TaskOf(who).cmd]
  {
    hide Commands, Encode, Flatten;
    FlushAdds(p.TaskOf(who), p.sent);
  }

  lemma HealthyReceive(p: Peer, m: Message, q: Peer)
    requires Healthy(p) && p.ws.Idle? && !Handle(p, m).ws.Stopped? && q == Handle(p.(got := p.got + [m]), m)
    ensures Healthy(q)
  {
    hide Unmarshal, Commands, Parse;
  }

  lemma HonestStep(s: System, mv: Move, t: System)
    requires Honest(s) && !Fault(mv.event) && Next(s, mv) == Some(t)
    ensures Honest(t)
  {
    hide Inv, SameSid, Healthy, Handle, SendStep;
    SysStep(s, mv, t);
    var p := s.End(mv.side);
    if mv.event.Receive? {
      NoAlarm(s, mv.side, mv.event.m);
      HealthyReceive(p, mv.event.m, t.End(mv.side));
    } else {
      HealthyEvent(p, mv.event, t.End(mv.side));
    }
  }

  predicate FaultFree(mvs: seq<Move>) {
    forall i :: 0 <= i < |mvs| ==> !Fault(mvs[i].event)
  }

  /** No run without I/O failures, however long, makes a goroutine of either end stop or a command be refused. */
  lemma {:induction false} NoFalseAlarms(s: System, mvs: seq<Move>)
    requires Honest(s) && FaultFree(mvs) && Exec(s, mvs).Some?
    ensures Honest(Exec(s, mvs).value)
    decreases mvs
  {
    hide Next, Honest;
    if mvs != [] {
      var next := Next(s, mvs[0]).value;
      HonestStep(s, mvs[0], next);
      NoFalseAlarms(next, mvs[1..]);
    }
  }

  lemma InitHonest(sid: Uuid)
    ensures Honest(Init(sid))
  {
    InitInv(sid);
    hide Inv;
  }

  // ---- conservation

  lemma {:induction false} AllParse(log: seq<Message>)
    requires forall i :: 0 <= i < |log| ==> Unmarshal(log[i]).Ok?
    ensures WellFormed(log)
  {
    hide Unmarshal;
    if log != [] {
      AllParse(log[..|log| - 1]);
    }
  }

  lemma CommandsTail(log: seq<Message>, n: nat, tail: seq<Message>)
    requires WellFormed(log) && n + |tail| == |log|
    requires forall i :: 0 <= i < |tail| ==> tail[i] == log[n + i]
    ensures WellFormed(tail)
    ensures forall i :: 0 <= i < |tail| ==> Commands(tail)[i] == Commands(log)[n + i]
  {
    hide Unmarshal, Commands;
    forall i | 0 <= i < |tail| ensures Unmarshal(tail[i]) == Ok(Commands(log)[n + i]) {
      CommandsAt(log, n + i);
    }
    AllParse(tail);
    forall i | 0 <= i < |tail| ensures Commands(tail)[i] == Commands(log)[n + i] {
      CommandsAt(tail, i);
    }
  }

  /** A well-formed log cut where the receiver stands: what it has, and what is in flight to it. */
  lemma CommandsCut(near: Peer, far: Peer)
    requires WellFormed(near.sent) && far.got <= near.sent
    ensures Commands(far.got) == Commands(near.sent)[..|far.got|]
    ensures Commands(InFlight(near, far)) == Commands(near.sent)[|far.got|..]
  {
    hide Unmarshal, Commands;
    CommandsPrefix(far.got, near.sent);
    CommandsTail(near.sent, |far.got|, InFlight(near, far));
  }

  /**
   Conservation of bytes: delivered, being delivered, in flight and held by `runSSH`, in this order, are the bytes
   read at the near end.
   */
  lemma BytesConserved(s: System, side: Role)
    requires Honest(s)
    ensures var near, far := s.End(side), s.Far(side);
            far.delivered + Pending(far) + Payload(Commands(InFlight(near, far))) + Held(near) == near.read
  {
    hide Commands, Payload, Acks, AcksOwed, NonAcks, LockInv, JobInv, RoleInv, HelloInv, SidInv, AckInv;
    var near, far := s.End(side), s.Far(side);
    var n := |far.got|;
    CommandsCut(near, far);
    PayloadSplit(Commands(near.sent), n);
  }

  /**
   Conservation of acks: those taken by the near end, those in flight to it and the one still to be sent are
   exactly the acks owed for what the far end received. They start just after the near end's `wCount` and end at
   the far end's `rCount`.
   */
  lemma AcksConserved(s: System, side: Role)
    requires Honest(s)
    ensures var near, far := s.End(side), s.Far(side);
            var owed := AcksOwed(Commands(far.got));
            var taken := Acks(Commands(near.got));
            && |taken| <= |owed|
            && taken + Acks(Commands(InFlight(far, near))) + (if AckPending(far) then [far.rCount] else []) == owed
            && near.wCount == Before(owed, |taken|)
            && far.rCount == Before(owed, |owed|)
  {
    hide Commands, Payload, Acks, AcksOwed, NonAcks, LockInv, JobInv, RoleInv, HelloInv, SidInv, SendInv;
    var near, far := s.End(side), s.Far(side);
    var n := |near.got|;
    CommandsCut(far, near);
    AcksSplit(Commands(far.sent), n);
    OwedEnd(Commands(far.got));
    AcksTail(Acks(Commands(far.sent)), AcksOwed(Commands(far.got)), AckPending(far));
  }

  lemma AcksTail(acks: seq<U64>, owed: seq<U64>, pending: bool)
    requires acks <= owed && |acks| + (if pending then 1 else 0) == |owed|
    ensures acks + (if pending then [Before(owed, |owed|)] else []) == owed
  {
  }

  /** Each ack in that account is one chunk, 1 to 16384 bytes, ahead of the one before it. */
  lemma AcksAdvance(p: Peer, i: nat)
    requires i < |AcksOwed(Commands(p.got))|
    ensures var owed := AcksOwed(Commands(p.got)); 1 <= Advance(Before(owed, i), owed[i]) <= MAX_ARRAY_LEN
  {
    hide Commands, AcksOwed;
    forall k | 0 <= k < |Commands(p.got)| ensures Commands(p.got)[k].Valid() {
      CommandsAt(p.got, k);
    }
    OwedAdvance(Commands(p.got), i);
  }

  predicate QuietEnd(p: Peer, far: Peer) {
    p.ssh.Idle? && p.ws.Idle? && |p.got| == |far.sent|
  }

  /** Nothing is in flight and nobody is busy. */
  predicate Quiet(s: System) {
    QuietEnd(s.client, s.server) && QuietEnd(s.server, s.client)
  }

  lemma QuietBytes(s: System, side: Role)
    requires Honest(s) && Quiet(s)
    ensures s.Far(side).delivered == s.End(side).read
  {
    assert Payload(Commands([])) == [];
    hide Inv, Healthy, Commands, Payload;
    var near, far := s.End(side), s.Far(side);
    BytesConserved(s, side);
    assert InFlight(near, far) == [];
    NothingMore(far.delivered, Pending(far), Payload(Commands(InFlight(near, far))), Held(near), near.read);
  }

  lemma QuietAcks(s: System, side: Role)
    requires Honest(s) && Quiet(s)
    ensures s.End(side).wCount == s.Far(side).rCount
  {
    assert Acks(Commands([])) == [];
    hide Inv, Healthy, Commands, Acks, AcksOwed;
    var near, far := s.End(side), s.Far(side);
    AcksConserved(s, side);
    assert InFlight(far, near) == [];
    NothingMore(Acks(Commands(near.got)), [], Acks(Commands(InFlight(far, near))), [], AcksOwed(Commands(far.got)));
  }

  lemma CountIsDelivered(p: Peer)
    requires Inv(p) && p.ws.Idle?
    ensures p.rCount == |p.delivered| % TWO_64
  {
    hide Commands, Payload;
    assert p.delivered + [] == p.delivered;
  }

  lemma QuietSid(s: System)
    requires Honest(s) && Quiet(s)
    ensures s.client.sid == s.server.sid
  {
    hide LockInv, JobInv, RoleInv, RecvInv, AckInv, SendInv, SidInv, Commands, NonAcks, Format;
    assert s.client.got == s.server.sent;
  }

  /**
   At rest, the client knows the server's identifier, all bytes have arrived, and the counters of both ends agree
   with the byte count modulo 2^64.
   */
  lemma QuietAgrees(s: System, side: Role)
    requires Honest(s) && Quiet(s)
    ensures var near, far := s.End(side), s.Far(side);
            && far.delivered == near.read
            && near.wCount == far.rCount == |near.read| % TWO_64
    ensures s.client.sid == s.server.sid
  {
    QuietSid(s);
    hide Inv;
    QuietBytes(s, side);
    QuietAcks(s, side);
    CountIsDelivered(s.Far(side));
  }

  // ---- everything gets through

  /** The steps that a message in flight still needs before all its effects are done. */
  function MessageCost(c: Command): nat {
    if c.Data? then 8 else 1
  }

  function TotalCost(cs: seq<Command>): nat {
    if cs == [] then 0 else TotalCost(cs[..|cs| - 1]) + MessageCost(cs[|cs| - 1])
  }

  function TaskCost(t: Task): nat {
    match t
    case Delivering(_) => 7
    case Wanting(c) => |WriteCalls(c)| + 3 + MessageCost(c)
    case Locked(c) => |WriteCalls(c)| + 2 + MessageCost(c)
    case Writing(c, _, todo, _) => |todo| + 1 + MessageCost(c)
    case _ => 0
  }

  /** What this end still has to do, and what it put on the wire, less what it took from the wire. */
  function Balance(p: Peer): int {
    TaskCost(p.ssh) + TaskCost(p.ws) + TotalCost(Commands(p.sent)) - TotalCost(Commands(p.got))
  }

  /** The number of steps to rest. */
  function Work(s: System): int {
    Balance(s.client) + Balance(s.server)
  }

  /** A step of the relay itself: no failure, and no fresh input from ssh. */
  predicate Internal(e: Event) {
    !Fault(e) && !e.SshRead?
  }

  lemma CostSnoc(cs: seq<Command>, c: Command)
    ensures TotalCost(cs + [c]) == TotalCost(cs) + MessageCost(c)
  {
    assert (cs + [c])[..|cs|] == cs;
  }

  lemma TaskCostStep(t: Task, free: bool, broken: bool, act: Act)
    requires TaskFine(t) && TaskAfter(t, free, broken, act).Some?
    requires !act.OpenFail? && !act.WriteFail? && !act.FlushLost?
    ensures TaskCost(TaskAfter(t, free, broken, act).value) ==
            TaskCost(t) - 1 - (if act.Flush? then MessageCost(t.cmd) else 0)
  {
  }

  lemma SendBalance(p: Peer, who: Who, act: Act, q: Peer)
    requires Inv(p) && Healthy(p) && Internal(Send(who, act)) && SendStep(p, who, act) == Some(q)
    ensures Balance(q) == Balance(p) - 1
  {
    hide Commands, TotalCost, MessageCost, TaskCost, TaskAfter, Encode, Flatten;
    var t := p.TaskOf(who);
    TaskCostStep(t, p.mu.None?, p.broken, act);
    if act.Flush? {
      FlushIsWriting(t, p.mu.None?, p.broken);
      FlushKeepsSound(p, who);
      CostSnoc(Commands(p.sent), t.cmd);
    }
  }

  lemma FlushIsWriting(t: Task, free: bool, broken: bool)
    requires TaskAfter(t, free, broken, Flush).Some?
    ensures t.Writing?
  {
  }

  lemma ReceiveBalance(p: Peer, m: Message, q: Peer)
    requires p.ws.Idle? && WellFormed(p.got) && Unmarshal(m).Ok? && !Handle(p, m).ws.Stopped?
    requires q == Handle(p.(got := p.got + [m]), m)
    ensures Balance(q) == Balance(p) - 1
  {
    hide Commands, Unmarshal, TotalCost, WriteCalls, Parse;
    CommandsSnoc(p.got, m);
    CostSnoc(Commands(p.got), Unmarshal(m).value);
  }

  /** Every internal step, whichever it is, brings the system one step nearer to rest. */
  lemma WorkStep(s: System, mv: Move, t: System)
    requires Honest(s) && Internal(mv.event) && Next(s, mv) == Some(t)
    ensures Work(t) == Work(s) - 1
  {
    var p, e, q := s.End(mv.side), mv.event, t.End(mv.side);
    hide Inv, Healthy, Balance, Handle, SendStep, Commands, Unmarshal;
    match e {
      case Receive(m) =>
        NoAlarm(s, mv.side, m);
        IdleWellFormed(p);
        ReceiveBalance(p, m, q);
      case Send(who, act) => SendBalance(p, who, act, q);
      case Deliver => DeliverBalance(p, q);
    }
  }

  lemma IdleWellFormed(p: Peer)
    requires Inv(p) && p.ws.Idle?
    ensures WellFormed(p.got)
  {
  }

  lemma DeliverBalance(p: Peer, q: Peer)
    requires Step(p, Deliver) == Some(q)
    ensures Balance(q) == Balance(p) - 1
  {
    assert |WriteCalls(Ack(p.rCount))| == 2;
  }

  // ---- a busy system can always move

  lemma {:induction false} CostPrefix(p: seq<Command>, q: seq<Command>)
    requires p <= q
    ensures TotalCost(p) <= TotalCost(q)
    ensures |p| < |q| ==> TotalCost(p) < TotalCost(q)
  {
    if p != q {
      CostPrefix(p, q[..|q| - 1]);
    } else {
      assert p == q;
    }
  }

  /** The act with which a sender goes on. */
  function NextAct(t: Task): Act
    requires t.Sends() && TaskFine(t)
  {
    if t.Wanting? then Acquire else if t.Locked? then Open else if t.todo != [] then Write else Flush
  }

  /** What this end can do by itself, if it is busy. */
  function Busy(p: Peer): Option<Event>
    requires Healthy(p)
  {
    if p.ws.Delivering? then Some(Deliver)
    else if p.ssh.HasLock() then Some(Send(RunSSH, NextAct(p.ssh)))
    else if p.ws.Sends() then Some(Send(RunWS, NextAct(p.ws)))
    else if p.ssh.Wanting? then Some(Send(RunSSH, NextAct(p.ssh)))
    else None
  }

  lemma ActMoves(t: Task, free: bool)
    requires t.Sends() && TaskFine(t) && (t.Wanting? ==> free)
    ensures TaskAfter(t, free, false, NextAct(t)).Some?
    ensures Internal(Send(RunSSH, NextAct(t)))
  {
  }

  lemma BusyMoves(p: Peer)
    requires Inv(p) && Healthy(p) && Busy(p).Some?
    ensures Step(p, Busy(p).value).Some? && Internal(Busy(p).value) && !Busy(p).value.Receive?
  {
    assert p.mu == Some(RunSSH) <==> p.TaskOf(RunSSH).HasLock();
    assert p.mu == Some(RunWS) <==> p.TaskOf(RunWS).HasLock();
    hide Inv, TaskAfter, NextAct, WriteCalls, Unmarshal;
    var e := Busy(p).value;
    if e.Send? {
      ActMoves(p.TaskOf(e.who), p.mu.None?);
    }
  }

  lemma NotBusy(p: Peer)
    requires Inv(p) && Healthy(p) && Busy(p).None?
    ensures p.ssh.Idle? && p.ws.Idle?
  {
  }

  /** Unless the system is at rest, some end has a step to take: no deadlock, no lost wake-up. */
  lemma CanMove(s: System)
    requires Honest(s) && !Quiet(s)
    ensures Movable(s)
  {
    hide Inv, Healthy, Busy, Movable;
    if Busy(s.client).Some? {
      EndMoves(s, Client);
    } else if Busy(s.server).Some? {
      EndMoves(s, Server);
    } else {
      NotBusy(s.client);
      NotBusy(s.server);
      QueueMoves(s, if |s.client.got| < |s.server.sent| then Client else Server);
    }
  }

  lemma EndMoves(s: System, side: Role)
    requires Inv(s.End(side)) && Healthy(s.End(side)) && Busy(s.End(side)).Some?
    ensures Movable(s)
  {
    hide Inv, Healthy, Busy, Step;
    BusyMoves(s.End(side));
    assert Next(s, Move(side, Busy(s.End(side)).value)).Some?;
  }

  lemma QueueMoves(s: System, side: Role)
    requires s.End(side).ws.Idle? && |s.End(side).got| < |s.Far(side).sent|
    ensures Movable(s)
  {
    hide Handle, SendStep;
    assert Next(s, Move(side, Receive(s.Far(side).sent[|s.End(side).got|]))).Some?;
  }

  lemma WorkIsNat(s: System)
    requires Honest(s)
    ensures Work(s) >= 0
    ensures Quiet(s) ==> Work(s) == 0
  {
    hide Inv, Commands, TotalCost, TaskCost;
    assert Quiet(s) ==> s.client.got == s.server.sent && s.server.got == s.client.sent;
    CommandsPrefix(s.client.got, s.server.sent);
    CommandsPrefix(s.server.got, s.client.sent);
    CostPrefix(Commands(s.client.got), Commands(s.server.sent));
    CostPrefix(Commands(s.server.got), Commands(s.client.sent));
    IdleCost();
  }

  lemma IdleCost()
    ensures TaskCost(Idle) == 0
  {
  }

  predicate AllInternal(mvs: seq<Move>) {
    forall i :: 0 <= i < |mvs| ==> Internal(mvs[i].event)
  }

  /** However the two ends are scheduled, the steps they can take without new input are counted in advance. */
  lemma {:induction false} EveryScheduleCounts(s: System, mvs: seq<Move>)
    requires Honest(s) && AllInternal(mvs) && Exec(s, mvs).Some?
    ensures Honest(Exec(s, mvs).value) && Work(Exec(s, mvs).value) == Work(s) - |mvs|
    ensures |mvs| <= Work(s)
    decreases mvs
  {
    hide Next, Honest, Work;
    WorkIsNat(s);
    if mvs != [] {
      var next := Next(s, mvs[0]).value;
      WorkStep(s, mvs[0], next);
      HonestStep(s, mvs[0], next);
      EveryScheduleCounts(next, mvs[1..]);
    }
  }

  /** Some goroutine can go on without new input. */
  ghost predicate Movable(s: System) {
    exists mv: Move :: Next(s, mv).Some? && Internal(mv.event)
  }

  /** A system that can move has work left. */
  lemma MovableWork(s: System)
    requires Honest(s) && Movable(s)
    ensures Work(s) > 0
  {
    hide Honest, Next, Work;
    var mv: Move :| Next(s, mv).Some? && Internal(mv.event);
    WorkStep(s, mv, Next(s, mv).value);
    HonestStep(s, mv, Next(s, mv).value);
    WorkIsNat(Next(s, mv).value);
  }

  lemma ExecCons(s: System, mv: Move, rest: seq<Move>)
    requires Next(s, mv).Some?
    ensures Exec(s, [mv] + rest) == Exec(Next(s, mv).value, rest)
  {
    hide Next;
    assert ([mv] + rest)[1..] == rest;
  }

  ghost predicate CanRest(s: System) {
    exists mvs, t :: Exec(s, mvs) == Some(t) && AllInternal(mvs) && Quiet(t)
  }

  lemma RestAfter(s: System, mv: Move)
    requires Internal(mv.event) && Next(s, mv).Some? && CanRest(Next(s, mv).value)
    ensures CanRest(s)
  {
    hide Next, Quiet, Internal;
    var mvs, t :| Exec(Next(s, mv).value, mvs) == Some(t) && AllInternal(mvs) && Quiet(t);
    ExecCons(s, mv, mvs);
    assert AllInternal([mv] + mvs);
  }

  /** From every honest state there is a schedule to rest. */
  lemma {:induction false} Drains(s: System)
    requires Honest(s)
    ensures CanRest(s)
    decreases Work(s)
  {
    WorkIsNat(s);
    hide Honest, Work, Next, Quiet;
    if Quiet(s) {
      assert Exec(s, []) == Some(s) && AllInternal([]);
    } else {
      hide CanRest;
      CanMove(s);
      var mv: Move :| Next(s, mv).Some? && Internal(mv.event);
      WorkStep(s, mv, Next(s, mv).value);
      HonestStep(s, mv, Next(s, mv).value);
      WorkIsNat(Next(s, mv).value);
      Drains(Next(s, mv).value);
      RestAfter(s, mv);
    }
  }
}
