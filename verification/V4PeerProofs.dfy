/**
 What one end of a corp-relay-v4 session guarantees on its own, whatever its peer sends and whichever calls fail.
 */
module V4PeerProofs {
  import opened Bytes
  import opened Command
  import opened Uuid
  import opened V4Log
  import opened V4Peer

  // ---- the invariant, part by part

  /** The mutex belongs to the goroutine that is between taking and releasing it, so one writer is open at most. */
  predicate LockInv(p: Peer) {
    && (forall who :: p.mu == Some(who) <==> p.TaskOf(who).HasLock())
    && (p.broken ==> !p.ssh.Writing? && !p.ws.Writing?)
  }

  /** What is buffered on an open writer is a beginning of the one command being sent. */
  predicate JobInv(t: Task) {
    t.Writing? ==>
      if t.cmd.Valid()
      then t.buf <= Encode(t.cmd) && (!t.failed ==> t.buf + Flatten(t.todo) == Encode(t.cmd))
      else t.failed && t.buf == []
  }

  /** The commands each goroutine sends. */
  predicate RoleInv(p: Peer) {
    && !p.ssh.Delivering?
    && (p.ssh.Sends() ==>
          || (p.ssh.cmd.Data? && |p.ssh.cmd.data| <= MAX_ARRAY_LEN)
          || (p.role == Server && p.ssh.cmd == ConnectSuccess(Format(p.sid))))
    && (p.ws.Sends() ==> p.ws.cmd == Ack(p.rCount))
  }

  function Pending(p: Peer): seq<Byte> {
    if p.ws.Delivering? then p.ws.data else []
  }

  /** What arrived, what was counted and what ssh took. */
  predicate RecvInv(p: Peer) {
    var cs := Commands(p.got);
    && p.rCount == |Payload(cs)| % TWO_64
    && p.delivered <= Payload(cs)
    && (!p.ws.Stopped? ==>
          && WellFormed(p.got)
          && p.delivered + Pending(p) == Payload(cs)
          && p.wCount == Before(Acks(cs), |Acks(cs)|))
  }

  /** Sending has gone well so far. */
  predicate Sound(p: Peer) {
    !p.broken && WellFormed(p.sent)
  }

  predicate AckPending(p: Peer) {
    p.ws.Delivering? || p.ws.Sends()
  }

  /** The acks sent are the acks owed for what arrived, in order; at most the newest is still to come. */
  predicate AckInv(p: Peer) {
    var owed := AcksOwed(Commands(p.got));
    var acks := Acks(Commands(p.sent));
    && acks <= owed
    && (!p.ws.Stopped? && Sound(p) ==>
          |acks| + (if AckPending(p) then 1 else 0) == |owed|)
  }

  /** The chunk that `runSSH` has read but not put on the wire. */
  function Held(p: Peer): seq<Byte> {
    if p.ssh.Sends() && p.ssh.cmd.Data? then p.ssh.cmd.data else []
  }

  predicate SendInv(p: Peer) {
    var payload := Payload(Commands(p.sent));
    && payload <= p.read
    && (!p.ssh.Stopped? && Sound(p) ==> payload + Held(p) == p.read)
  }

  predicate Greeting(p: Peer) {
    p.ssh.Sends() && p.ssh.cmd.ConnectSuccess?
  }

  /** Apart from acks: the server's one CONNECT_SUCCESS, then DATA only; DATA only from a client. */
  predicate HelloInv(p: Peer) {
    var cs := NonAcks(Commands(p.sent));
    && (forall i :: 0 <= i < |cs| ==>
          if p.role == Server && i == 0 then cs[i] == ConnectSuccess(Format(p.sid)) else cs[i].Data?)
    && (p.role == Server && Greeting(p) ==> cs == [])
    && (p.role == Server && Sound(p) && !p.ssh.Stopped? && !Greeting(p) ==> cs != [])
    && (p.role == Client ==> !Greeting(p))
  }

  /** A client knows an identifier only from what it received. */
  predicate SidInv(p: Peer) {
    p.role == Client && NonAcks(Commands(p.got)) == [] ==> p.sid == NIL
  }

  predicate Inv(p: Peer) {
    && LockInv(p) && JobInv(p.ssh) && JobInv(p.ws) && RoleInv(p)
    && RecvInv(p) && AckInv(p) && SendInv(p) && HelloInv(p) && SidInv(p)
  }

  // ---- every event keeps it

  lemma StartInv(role: Role, sid: Uuid)
    ensures Inv(Start(role, sid))
  {
    assert forall who :: Start(role, sid).TaskOf(who) == if who == RunSSH then Start(role, sid).ssh else Idle;
  }

  lemma LockStep(p: Peer, e: Event, q: Peer)
    requires LockInv(p) && RoleInv(p) && Step(p, e) == Some(q)
    ensures LockInv(q)
  {
    hide Dispatch, WriteCalls, Format;
    assert p.mu == Some(RunSSH) <==> p.TaskOf(RunSSH).HasLock();
    assert p.mu == Some(RunWS) <==> p.TaskOf(RunWS).HasLock();
  }

  lemma TaskStep(t: Task, free: bool, broken: bool, act: Act)
    requires JobInv(t) && TaskAfter(t, free, broken, act).Some?
    ensures JobInv(TaskAfter(t, free, broken, act).value)
  {
    hide WriteCalls;
    match act
    case Open =>
      assert [] + Flatten(WriteCalls(t.cmd)) == Encode(t.cmd);
    case Write =>
      assert t.buf + Flatten(t.todo) == (t.buf + t.todo[0]) + Flatten(t.todo[1..]);
    case WriteFail(n) =>
      assert t.buf + Flatten(t.todo) == (t.buf + t.todo[0][..n]) + (t.todo[0][n..] + Flatten(t.todo[1..]));
    case _ =>
  }

  lemma JobStep(p: Peer, e: Event, q: Peer)
    requires JobInv(p.ssh) && JobInv(p.ws) && Step(p, e) == Some(q)
    ensures JobInv(q.ssh) && JobInv(q.ws)
  {
    hide Unmarshal, Parse, Format, Encode, Flatten, TaskAfter;
    if e.Send? {
      TaskStep(p.TaskOf(e.who), p.mu.None?, p.broken, e.act);
    }
  }

  lemma RoleStep(p: Peer, e: Event, q: Peer)
    requires RoleInv(p) && Step(p, e) == Some(q)
    ensures RoleInv(q)
  {
    hide Unmarshal, WriteCalls, Parse, Format;
  }

  /** How receiving `m` changes what was received. */
  lemma ReceiveAdds(p: Peer, m: Message)
    requires WellFormed(p.got)
    ensures var cs := Commands(p.got);
            match Unmarshal(m)
            case Err(_) => Commands(p.got + [m]) == cs
            case Ok(c) =>
              && WellFormed(p.got + [m])
              && Commands(p.got + [m]) == cs + [c]
              && Payload(cs + [c]) == Payload(cs) + DataOf(c)
              && Acks(cs + [c]) == Acks(cs) + AckOf(c)
              && NonAcks(cs + [c]) == NonAcks(cs) + (if c.Ack? then [] else [c])
              && AcksOwed(cs + [c]) == AcksOwed(cs) + if c.Data? then [(|Payload(cs)| + |c.data|) % TWO_64] else []
  {
    hide Commands, Payload, Acks, AcksOwed, NonAcks, Unmarshal;
    CommandsSnoc(p.got, m);
    if Unmarshal(m).Ok? {
      Snoc(Commands(p.got), Unmarshal(m).value);
    }
  }

  lemma ReceiveData(p: Peer, m: Message, q: Peer)
    requires p.ws.Idle? && RecvInv(p) && q == Handle(p.(got := p.got + [m]), m)
    requires Unmarshal(m).Ok? && Unmarshal(m).value.Data?
    ensures RecvInv(q)
  {
    hide Unmarshal, Commands, Payload, Acks, AcksOwed, NonAcks, Parse, AckDiff;
    ReceiveAdds(p, m);
    ModAdd64(|Payload(Commands(p.got))|, |Unmarshal(m).value.data|);
  }

  /** The signed distance tells which acks are ahead. */
  lemma AckAhead(w: U64, a: U64)
    ensures AckDiff(w, a) >= 0 <==> Advance(w, a) < TWO_63
    ensures AckDiff(w, a) == 0 <==> a == w
  {
  }

  lemma ReceiveAck(p: Peer, m: Message, q: Peer)
    requires p.ws.Idle? && RecvInv(p) && q == Handle(p.(got := p.got + [m]), m)
    requires Unmarshal(m).Ok? && Unmarshal(m).value.Ack?
    ensures RecvInv(q)
  {
    hide Unmarshal, Commands, Payload, Acks, AcksOwed, NonAcks, Parse, AckDiff;
    ReceiveAdds(p, m);
    AckAhead(p.wCount, Unmarshal(m).value.ack);
  }

  lemma ReceiveStep(p: Peer, m: Message, q: Peer)
    requires p.ws.Idle? && RecvInv(p) && q == Handle(p.(got := p.got + [m]), m)
    ensures RecvInv(q)
  {
    hide Unmarshal, Commands, Payload, Acks, AcksOwed, NonAcks, Parse, AckDiff;
    if Unmarshal(m).Ok? && Unmarshal(m).value.Data? {
      ReceiveData(p, m, q);
    } else if Unmarshal(m).Ok? && Unmarshal(m).value.Ack? {
      ReceiveAck(p, m, q);
    } else {
      ReceiveAdds(p, m);
    }
  }

  lemma RecvStep(p: Peer, e: Event, q: Peer)
    requires RecvInv(p) && Step(p, e) == Some(q)
    ensures RecvInv(q)
  {
    hide Commands, Payload, Acks, Handle, WriteCalls;
    if e.Receive? {
      ReceiveStep(p, e.m, q);
    }
  }

  /** What flushing a writer adds to the commands on the wire: the whole command, or nothing and no more ever. */
  lemma FlushAdds(t: Task, sent: seq<Message>)
    requires JobInv(t) && t.Writing? && (t.failed || t.todo == [])
    ensures if WellFormed(sent) && t.cmd.Valid() && t.buf == Encode(t.cmd)
            then Commands(sent + [t.buf]) == Commands(sent) + [t.cmd] && WellFormed(sent + [t.buf])
            else Commands(sent + [t.buf]) == Commands(sent) && !WellFormed(sent + [t.buf])
    ensures !t.failed ==> t.cmd.Valid() && t.buf == Encode(t.cmd)
  {
    assert t.todo == [] ==> t.buf + Flatten(t.todo) == t.buf;
    assert Unmarshal([]).Err?;
    hide Unmarshal, Encode, Commands, Flatten;
    CommandsSnoc(sent, t.buf);
    if t.cmd.Valid() {
      PrefixParses(t.cmd, t.buf);
    }
  }

  // A flush is the one event that changes what is on the wire; the three lemmas below say what it does to each
  // account, and the three after them that no other event does harm.

  lemma AckFlush(p: Peer, who: Who, q: Peer)
    requires JobInv(p.TaskOf(who)) && RoleInv(p) && RecvInv(p) && AckInv(p) && LockInv(p)
    requires SendStep(p, who, Flush) == Some(q)
    ensures AckInv(q)
  {
    hide Encode, Flatten, WriteCalls, Commands, Payload, Acks, AcksOwed, NonAcks, Format;
    FlushAdds(p.TaskOf(who), p.sent);
    AcksSnoc(Commands(p.sent), p.TaskOf(who).cmd);
    OwedEnd(Commands(p.got));
  }

  lemma SendFlush(p: Peer, who: Who, q: Peer)
    requires JobInv(p.TaskOf(who)) && RoleInv(p) && SendInv(p) && LockInv(p)
    requires SendStep(p, who, Flush) == Some(q)
    ensures SendInv(q)
  {
    hide Encode, Flatten, WriteCalls, Commands, Payload, Format;
    FlushAdds(p.TaskOf(who), p.sent);
    PayloadSnoc(Commands(p.sent), p.TaskOf(who).cmd);
  }

  lemma HelloFlush(p: Peer, who: Who, q: Peer)
    requires JobInv(p.TaskOf(who)) && RoleInv(p) && HelloInv(p) && LockInv(p)
    requires SendStep(p, who, Flush) == Some(q)
    ensures HelloInv(q)
  {
    hide Encode, Flatten, WriteCalls, Commands, NonAcks, Format;
    FlushAdds(p.TaskOf(who), p.sent);
    NonAcksSnoc(Commands(p.sent), p.TaskOf(who).cmd);
  }

  lemma AckStep(p: Peer, e: Event, q: Peer)
    requires JobInv(p.ssh) && JobInv(p.ws) && RoleInv(p) && RecvInv(p) && AckInv(p) && LockInv(p)
    requires Step(p, e) == Some(q)
    ensures AckInv(q)
  {
    hide Unmarshal, WriteCalls, Commands, Payload, Acks, AcksOwed, NonAcks, Parse, Format;
    if e.Receive? {
      ReceiveAdds(p, e.m);
    } else if e.Send? && e.act.Flush? {
      AckFlush(p, e.who, q);
    }
  }

  lemma WireStep(p: Peer, e: Event, q: Peer)
    requires LockInv(p) && JobInv(p.ssh) && JobInv(p.ws) && RoleInv(p) && SendInv(p)
    requires Step(p, e) == Some(q)
    ensures SendInv(q)
  {
    hide Unmarshal, WriteCalls, Commands, Payload, Parse, Format;
    if e.Send? && e.act.Flush? {
      SendFlush(p, e.who, q);
    }
  }

  lemma HelloStep(p: Peer, e: Event, q: Peer)
    requires LockInv(p) && JobInv(p.ssh) && JobInv(p.ws) && RoleInv(p) && HelloInv(p)
    requires Step(p, e) == Some(q)
    ensures HelloInv(q)
  {
    hide Unmarshal, Commands, NonAcks, Parse, Format, JobInv, LockInv;
    if e.Send? {
      hide HelloInv;
      if e.act.Flush? {
        HelloFlush(p, e.who, q);
      } else {
        HelloSend(p, e.who, e.act, q);
      }
    }
  }

  lemma HelloSend(p: Peer, who: Who, act: Act, q: Peer)
    requires RoleInv(p) && HelloInv(p) && SendStep(p, who, act) == Some(q) && !act.Flush?
    ensures HelloInv(q)
  {
    hide WriteCalls, Commands, NonAcks, Format;
  }

  lemma SidStep(p: Peer, e: Event, q: Peer)
    requires RecvInv(p) && SidInv(p) && Step(p, e) == Some(q)
    ensures SidInv(q)
  {
    hide Commands, NonAcks, RecvInv, Handle;
    if e.Receive? {
      SidReceive(p, e.m, q);
    } else {
      hide SidInv;
      SidElsewhere(p, e, q);
    }
  }

  lemma SidReceive(p: Peer, m: Message, q: Peer)
    requires p.ws.Idle? && RecvInv(p) && SidInv(p) && q == Handle(p.(got := p.got + [m]), m)
    ensures SidInv(q)
  {
    hide Unmarshal, Commands, Payload, Acks, AcksOwed, NonAcks, Parse;
    ReceiveAdds(p, m);
  }

  lemma SidElsewhere(p: Peer, e: Event, q: Peer)
    requires Step(p, e) == Some(q) && !e.Receive? && SidInv(p)
    ensures SidInv(q)
  {
    hide Commands, NonAcks, TaskAfter, Handle;
  }

  lemma InvStep(p: Peer, e: Event, q: Peer)
    requires Inv(p) && Step(p, e) == Some(q)
    ensures Inv(q)
  {
    hide Step, LockInv, JobInv, RoleInv, RecvInv, AckInv, SendInv, HelloInv, SidInv;
    LockStep(p, e, q);
    JobStep(p, e, q);
    RoleStep(p, e, q);
    RecvStep(p, e, q);
    AckStep(p, e, q);
    WireStep(p, e, q);
    HelloStep(p, e, q);
    SidStep(p, e, q);
  }

  lemma {:induction false} InvRun(p: Peer, es: seq<Event>)
    requires Inv(p) && Run(p, es).Some?
    ensures Inv(Run(p, es).value)
    decreases es
  {
    hide Step, Inv;
    if es != [] {
      var next := Step(p, es[0]).value;
      InvStep(p, es[0], next);
      InvRun(next, es[1..]);
    }
  }
}
