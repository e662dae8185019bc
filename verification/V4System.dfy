/**
 A client and a server session joined by a WebSocket.

 Each direction is a reliable FIFO queue of whole messages: what one end flushed and the other has not yet
 received. A step is one event of either end.
 */
module V4System {
  import opened Bytes
  import opened Command
  import opened Uuid
  import opened BytePipe
  import opened V4Log
  import opened V4Peer
  import opened V4PeerProofs

  datatype System = System(client: Peer, server: Peer) {
    function End(side: Role): Peer {
      if side == Client then client else server
    }

    function Far(side: Role): Peer {
      if side == Client then server else client
    }

    function With(side: Role, p: Peer): System {
      if side == Client then this.(client := p) else this.(server := p)
    }
  }

  datatype Move = Move(side: Role, event: Event)

  /** The messages on their way from `from` to `to`. */
  function InFlight(from: Peer, to: Peer): seq<Message>
    requires |to.got| <= |from.sent|
  {
    from.sent[|to.got|..]
  }

  /** A message is received only as the head of the queue. */
  predicate Arrives(s: System, side: Role, m: Message) {
    var p, far := s.End(side), s.Far(side);
    |p.got| < |far.sent| && far.sent[|p.got|] == m
  }

  function Next(s: System, mv: Move): Option<System> {
    if mv.event.Receive? && !Arrives(s, mv.side, mv.event.m) then None
    else
      match Step(s.End(mv.side), mv.event)
      case None => None
      case Some(p) => Some(s.With(mv.side, p))
  }

  function Init(sid: Uuid): System {
    System(Start(Client, sid), Start(Server, sid))
  }

  function Exec(s: System, mvs: seq<Move>): Option<System>
    decreases mvs
  {
    if mvs == [] then Some(s)
    else
      match Next(s, mvs[0])
      case None => None
      case Some(next) => Exec(next, mvs[1..])
  }

  // ---- the invariant

  /** The client learns the server's identifier and no other, with the first thing but acks that it receives. */
  predicate SameSid(s: System) {
    && (s.client.sid == NIL || s.client.sid == s.server.sid)
    && (NonAcks(Commands(s.client.got)) != [] ==> s.client.sid == s.server.sid)
  }

  predicate SysInv(s: System) {
    && Inv(s.client) && Inv(s.server)
    && s.client.role == Client && s.server.role == Server
    && s.client.got <= s.server.sent && s.server.got <= s.client.sent
    && SameSid(s)
  }

  lemma InitInv(sid: Uuid)
    ensures SysInv(Init(sid))
  {
    hide Inv;
    StartInv(Client, sid);
    StartInv(Server, sid);
  }

  /** A peer's events change only the fields that its log of messages accounts for. */
  lemma LogsGrow(p: Peer, e: Event, q: Peer)
    requires Step(p, e) == Some(q)
    ensures q.role == p.role
    ensures q.got == if e.Receive? then p.got + [e.m] else p.got
    ensures p.sent <= q.sent && p.read <= q.read && p.delivered <= q.delivered
    ensures q.read == p.read || q.delivered == p.delivered
    ensures q.read == if e.SshRead? then p.read + e.chunk else p.read
    ensures !e.Receive? ==> q.sid == p.sid
  {
    hide Unmarshal, WriteCalls, Parse, Format, TaskAfter;
  }

  lemma {:induction false} NonAckIn(cs: seq<Command>, i: nat)
    requires i < |cs| && !cs[i].Ack?
    ensures cs[i] in NonAcks(cs)
  {
    var n := |cs| - 1;
    if i < n {
      NonAckIn(cs[..n], i);
    }
  }

  /** The message that arrives next, as a command of the far end's log. */
  lemma ArrivalIsCommand(p: Peer, far: Peer, m: Message)
    requires p.got < far.sent && m == far.sent[|p.got|] && WellFormed(p.got) && Unmarshal(m).Ok?
    ensures |p.got| < |Commands(far.sent)| && Commands(far.sent)[|p.got|] == Unmarshal(m).value
    ensures Commands(p.got) == Commands(far.sent)[..|p.got|]
  {
    hide Unmarshal, Commands;
    var log := p.got + [m];
    assert log <= far.sent;
    CommandsSnoc(p.got, m);
    CommandsPrefix(log, far.sent);
    assert Commands(log)[|p.got|] == Unmarshal(m).value;
  }

  /** Apart from acks, an honest server's CONNECT_SUCCESS comes first, and nothing else does. */
  lemma HelloComesFirst(p: Peer, far: Peer, m: Message)
    requires HelloInv(far) && WellFormed(p.got) && p.got < far.sent && m == far.sent[|p.got|]
    requires Unmarshal(m).Ok? && !Unmarshal(m).value.Ack?
    ensures var c, first := Unmarshal(m).value, NonAcks(Commands(p.got)) == [];
            && (c.ConnectSuccess? ==> first && far.role == Server && c == ConnectSuccess(Format(far.sid)))
            && (far.role == Server && first ==> c.ConnectSuccess?)
  {
    hide Unmarshal, Format, Commands, NonAcks;
    var c := Unmarshal(m).value;
    var k, cs, all := |p.got|, Commands(p.got), Commands(far.sent);
    ArrivalIsCommand(p, far, m);
    NonAcksSnoc(cs, c);
    assert all[..k + 1] == cs + [c];
    Prefix(all[..k + 1], all);
    assert NonAcks(all)[|NonAcks(cs)|] == c;
  }

  /** What a CONNECT_SUCCESS finds at the client, and that it comes first. */
  lemma HelloArrival(s: System, m: Message)
    requires SysInv(s) && s.client.ws.Idle? && Arrives(s, Client, m) && Unmarshal(m).Ok?
    ensures var c := Unmarshal(m).value;
            && (c.ConnectSuccess? ==> s.client.sid == NIL && Parse(c.sid) == Good(s.server.sid))
            && (NonAcks(Commands(s.client.got)) == [] ==> c.Ack? || c.ConnectSuccess?)
  {
    hide Unmarshal, Parse, Format, Commands, NonAcks, LockInv, JobInv, RoleInv, AckInv, SendInv, HelloInv;
    if !Unmarshal(m).value.Ack? {
      HelloComesFirst(s.client, s.server, m);
      ParseFormat(s.server.sid);
    }
  }

  /** Only a CONNECT_SUCCESS changes a client's identifier. */
  lemma HandleSid(p: Peer, m: Message)
    requires p.role == Client
    ensures var q := Handle(p, m);
            && q.got == p.got
            && (Unmarshal(m).Err? || !Unmarshal(m).value.ConnectSuccess? ==> q.sid == p.sid)
            && (Unmarshal(m).Ok? && Unmarshal(m).value.ConnectSuccess? && p.sid == NIL ==>
                  Parse(Unmarshal(m).value.sid).Good? ==> q.sid == Parse(Unmarshal(m).value.sid).u)
  {
    hide Unmarshal, Parse;
  }

  lemma LearnSid(s: System, m: Message)
    requires SysInv(s) && s.client.ws.Idle? && Arrives(s, Client, m)
    ensures SameSid(s.(client := Handle(s.client.(got := s.client.got + [m]), m)))
  {
    hide Unmarshal, Parse, Commands, NonAcks, Handle, LockInv, JobInv, RoleInv, AckInv, SendInv, HelloInv, SidInv;
    ReceiveAdds(s.client, m);
    HandleSid(s.client.(got := s.client.got + [m]), m);
    if Unmarshal(m).Ok? {
      HelloArrival(s, m);
    }
  }

  lemma SameSidStep(s: System, mv: Move, t: System)
    requires SysInv(s) && Next(s, mv) == Some(t)
    ensures SameSid(t)
  {
    hide Commands, NonAcks, Inv, Handle, SendStep;
    LogsGrow(s.End(mv.side), mv.event, t.End(mv.side));
    if mv.event.Receive? && mv.side == Client {
      LearnSid(s, mv.event.m);
    } else if mv.event.Receive? {
      ServerKeepsSid(s.server, mv.event.m);
    }
  }

  lemma ServerKeepsSid(p: Peer, m: Message)
    requires p.role == Server
    ensures Handle(p.(got := p.got + [m]), m).sid == p.sid
  {
    hide Unmarshal, Parse;
  }

  lemma SysStep(s: System, mv: Move, t: System)
    requires SysInv(s) && Next(s, mv) == Some(t)
    ensures SysInv(t)
  {
    hide Inv, Step, SameSid;
    SameSidStep(s, mv, t);
    InvStep(s.End(mv.side), mv.event, t.End(mv.side));
    LogsGrow(s.End(mv.side), mv.event, t.End(mv.side));
  }

  lemma {:induction false} SysRun(s: System, mvs: seq<Move>)
    requires SysInv(s) && Exec(s, mvs).Some?
    ensures SysInv(Exec(s, mvs).value)
    decreases mvs
  {
    hide Next, SysInv;
    if mvs != [] {
      var next := Next(s, mvs[0]).value;
      SysStep(s, mvs[0], next);
      SysRun(next, mvs[1..]);
    }
  }

  ghost predicate Reachable(s: System) {
    exists sid, mvs :: Exec(Init(sid), mvs) == Some(s)
  }

  lemma ReachableInv(s: System)
    requires Reachable(s)
    ensures SysInv(s)
  {
    hide SysInv, Init;
    var sid, mvs :| Exec(Init(sid), mvs) == Some(s);
    InitInv(sid);
    SysRun(Init(sid), mvs);
  }

  // ---- the byte pipe

  function Abs(s: System): Duplex {
    Duplex(Pipe(s.client.read, s.server.delivered), Pipe(s.server.read, s.client.delivered))
  }

  /** What the receiving ssh took is a prefix of what the sending ssh gave, whatever failed on the way. */
  lemma DeliveredPrefix(near: Peer, far: Peer)
    requires Inv(near) && Inv(far) && far.got <= near.sent
    ensures far.delivered <= near.read
  {
    hide Commands, Payload, Acks, AcksOwed, NonAcks, LockInv, JobInv, RoleInv, AckInv, HelloInv, SidInv;
    CommandsPrefix(far.got, near.sent);
    Prefix(Commands(far.got), Commands(near.sent));
    PrefixTrans(far.delivered, Payload(Commands(far.got)), Payload(Commands(near.sent)));
    PrefixTrans(far.delivered, Payload(Commands(near.sent)), near.read);
  }

  lemma AbsValid(s: System)
    requires SysInv(s)
    ensures Abs(s).Valid()
  {
    hide Inv;
    DeliveredPrefix(s.client, s.server);
    DeliveredPrefix(s.server, s.client);
  }

  /** Every step of the system is a step of the duplex pipe, or no step of it at all. */
  lemma StepRefines(s: System, mv: Move, t: System)
    requires SysInv(s) && Next(s, mv) == Some(t)
    ensures Abs(s).Next(Abs(t))
  {
    hide Step, SysInv;
    SysStep(s, mv, t);
    AbsValid(t);
    LogsGrow(s.End(mv.side), mv.event, t.End(mv.side));
  }

  /** The pipe states that a run goes through. */
  function Trace(s: System, mvs: seq<Move>): seq<Duplex>
    requires Exec(s, mvs).Some?
    decreases mvs
  {
    [Abs(s)] + if mvs == [] then [] else Trace(Next(s, mvs[0]).value, mvs[1..])
  }

  lemma {:induction false} TraceSteps(s: System, mvs: seq<Move>)
    requires SysInv(s) && Exec(s, mvs).Some?
    ensures var tr := Trace(s, mvs); |tr| == |mvs| + 1 && tr[0] == Abs(s) && tr[|mvs|] == Abs(Exec(s, mvs).value)
    ensures var tr := Trace(s, mvs); forall i :: 0 <= i < |tr| - 1 ==> tr[i].Next(tr[i + 1])
    decreases mvs
  {
    hide Next, SysInv, Abs, Duplex.Next;
    if mvs != [] {
      var next := Next(s, mvs[0]).value;
      SysStep(s, mvs[0], next);
      StepRefines(s, mvs[0], next);
      TraceSteps(next, mvs[1..]);
      var tr := Trace(s, mvs);
      assert tr[1..] == Trace(next, mvs[1..]);
      assert forall i :: 0 < i < |tr| ==> tr[i] == tr[1..][i - 1];
    }
  }

  /** Refinement: every run of the client/server system, failures included, is a behaviour of the duplex byte pipe. */
  lemma RefinesPipe(sid: Uuid, mvs: seq<Move>)
    requires Exec(Init(sid), mvs).Some?
    ensures IsBehaviour(Trace(Init(sid), mvs)) && |Trace(Init(sid), mvs)| == |mvs| + 1
    ensures var s, end := Exec(Init(sid), mvs).value, Trace(Init(sid), mvs)[|mvs|];
            && end.up == Pipe(s.client.read, s.server.delivered)
            && end.down == Pipe(s.server.read, s.client.delivered)
  {
    InitInv(sid);
    hide SysInv, Exec, Trace;
    TraceSteps(Init(sid), mvs);
  }

  /**
   In every reachable state, whatever failed, each ssh was given a prefix of what the other ssh sent, and the client
   knows no identifier but the server's.
   */
  lemma EveryStateIsValid(s: System)
    requires Reachable(s)
    ensures s.server.delivered <= s.client.read && s.client.delivered <= s.server.read
    ensures s.client.sid == NIL || s.client.sid == s.server.sid
  {
    ReachableInv(s);
    AbsValid(s);
    hide Inv;
  }
}
