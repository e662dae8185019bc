/**
 Guarantees of a single corp-relay-v4 session over every run: any interleaving of its goroutines, any sequence of
 messages from the other end, any pattern of I/O failures.
 */
module V4PeerTheorems {
  import opened Bytes
  import opened Command
  import opened Uuid
  import opened V4Log
  import opened V4Peer
  import opened V4PeerProofs

  ghost predicate Reachable(p: Peer) {
    exists role, sid, es :: Run(Start(role, sid), es) == Some(p)
  }

  lemma ReachableInv(p: Peer)
    requires Reachable(p)
    ensures Inv(p)
  {
    hide Inv, Start;
    var role, sid, es :| Run(Start(role, sid), es) == Some(p);
    StartInv(role, sid);
    InvRun(Start(role, sid), es);
  }

  /** Two writers are never open at once, and the mutex is held exactly while a goroutine is sending. */
  lemma OneWriter(p: Peer)
    requires Reachable(p)
    ensures !(p.ssh.Writing? && p.ws.Writing?)
    ensures p.mu.None? <==> !p.ssh.HasLock() && !p.ws.HasLock()
    ensures p.ssh.Stopped? && p.ws.Stopped? ==> p.mu.None?
  {
    ReachableInv(p);
    assert p.mu == Some(RunSSH) <==> p.TaskOf(RunSSH).HasLock();
    assert p.mu == Some(RunWS) <==> p.TaskOf(RunWS).HasLock();
  }

  /**
   A flushed message is the encoding of the one command being sent; only a failed write cuts it short, and then
   the goroutine stops and the other end cannot take what was flushed for a different command.
   */
  lemma FlushedMessage(p: Peer, who: Who, q: Peer)
    requires Reachable(p) && Step(p, Send(who, Flush)) == Some(q)
    ensures var t := p.TaskOf(who);
            && q.sent == p.sent + [t.buf]
            && (!t.failed ==> t.buf == Encode(t.cmd) && Unmarshal(t.buf) == Ok(t.cmd) && q.TaskOf(who).Idle?)
            && (t.failed ==> t.buf <= Encode(t.cmd) && q.TaskOf(who).Stopped?)
            && (Unmarshal(t.buf).Ok? ==> Unmarshal(t.buf).value == t.cmd)
  {
    ReachableInv(p);
    hide Encode, Commands, Unmarshal;
    var t := p.TaskOf(who);
    FlushAdds(t, p.sent);
    UnmarshalEncode(t.cmd);
    if t.cmd.Valid() {
      PrefixParses(t.cmd, t.buf);
    } else {
      NothingParses();
    }
  }

  lemma NothingParses()
    ensures Unmarshal([]).Err?
  {
  }

  lemma LostFlush(p: Peer, who: Who, q: Peer)
    requires Step(p, Send(who, FlushLost)) == Some(q)
    ensures q == p.With(who, q.TaskOf(who)).(mu := None, broken := true)
    ensures p.TaskOf(who).Writing? && q.TaskOf(who) == if p.TaskOf(who).failed then Stopped else Idle
  {
  }

  /** The wire is short of what is being written on it: a DATA, the newest ACK or the greeting. */
  lemma WireShort(p: Peer, who: Who)
    requires Inv(p) && Sound(p) && p.TaskOf(who).Writing? && !p.TaskOf(who).failed
    ensures var cs, cmd := Commands(p.sent), p.TaskOf(who).cmd;
            && (who == RunSSH && cmd.Data? ==> Payload(cs) < p.read)
            && (who == RunSSH && !cmd.Data? ==> cmd == ConnectSuccess(Format(p.sid)) && NonAcks(cs) == [])
            && (who == RunWS ==> cmd.Ack? && |Acks(cs)| < |AcksOwed(Commands(p.got))|)
  {
    hide Payload, Commands, Acks, AcksOwed, NonAcks, Encode, Flatten, Format;
    hide LockInv, RecvInv, SidInv;
    assert Payload(Commands(p.sent)) + Held(p) == p.read || p.ssh.Stopped?;
  }

  lemma BrokenStep(p: Peer, e: Event, q: Peer)
    requires LockInv(p) && RoleInv(p) && p.broken && Step(p, e) == Some(q)
    ensures q.broken && q.sent == p.sent
  {
    assert !p.TaskOf(RunSSH).Writing? && !p.TaskOf(RunWS).Writing?;
    hide LockInv, Handle, RoleInv, WriteCalls;
    if e.Receive? {
      HandleKeepsWire(p.(got := p.got + [e.m]), e.m);
    }
  }

  lemma HandleKeepsWire(p: Peer, m: Message)
    ensures Handle(p, m).broken == p.broken && Handle(p, m).sent == p.sent
  {
    hide Dispatch;
  }

  /** Nothing is flushed after a failed flush, in any continuation. */
  lemma {:induction false} BrokenForGood(p: Peer, es: seq<Event>)
    requires Inv(p) && p.broken && Run(p, es).Some?
    ensures Run(p, es).value.broken && Run(p, es).value.sent == p.sent
    decreases es
  {
    if es != [] {
      var next := Step(p, es[0]).value;
      BrokenStep(p, es[0], next);
      hide Step, Inv;
      InvStep(p, es[0], next);
      BrokenForGood(next, es[1..]);
    }
  }

  /**
   Closing the writer is the one call whose error the code drops. Whichever goroutine it happens to goes on as if its
   command had been sent, and frees the mutex; but a chunk read from ssh, the newest ACK owed or the greeting is
   missing on the wire, and whatever happens from then on, nothing follows the gap.
   */
  lemma LostFlushUnnoticed(p: Peer, who: Who, q: Peer, es: seq<Event>)
    requires Reachable(p) && Sound(p) && Step(p, Send(who, FlushLost)) == Some(q)
    requires !p.TaskOf(who).failed && Run(q, es).Some?
    ensures q.TaskOf(who).Idle? && q.mu.None? && Run(q, es).value.sent == p.sent
    ensures var cs, cmd := Commands(p.sent), p.TaskOf(who).cmd;
            && (who == RunSSH && cmd.Data? ==> Payload(cs) < p.read)
            && (who == RunSSH && !cmd.Data? ==> cmd == ConnectSuccess(Format(p.sid)) && NonAcks(cs) == [])
            && (who == RunWS ==> cmd.Ack? && |Acks(cs)| < |AcksOwed(Commands(p.got))|)
  {
    hide Payload, Commands, Acks, AcksOwed, NonAcks, Format, Inv, Step, Run;
    ReachableInv(p);
    LostFlush(p, who, q);
    WireShort(p, who);
    InvStep(p, Send(who, FlushLost), q);
    BrokenForGood(q, es);
  }

  /** An ACK on its way out carries the number of bytes that ssh has taken so far, modulo 2^64. */
  lemma AckIsDelivered(p: Peer)
    requires Reachable(p) && p.ws.Sends()
    ensures p.ws.cmd == Ack(|p.delivered| % TWO_64)
  {
    ReachableInv(p);
    hide Payload, Commands;
    assert p.delivered + [] == p.delivered;
  }

  /** The acks on the wire are those owed for the DATA received, one each and in order, advancing by 1 to 16384. */
  lemma AckLog(p: Peer)
    requires Reachable(p)
    ensures Acks(Commands(p.sent)) <= AcksOwed(Commands(p.got))
    ensures forall i :: 0 <= i < |Acks(Commands(p.sent))| ==>
              1 <= Advance(Before(Acks(Commands(p.sent)), i), Acks(Commands(p.sent))[i]) <= MAX_ARRAY_LEN
  {
    ReachableInv(p);
    hide Acks, AcksOwed, Commands, Payload, NonAcks;
    var cs := Commands(p.got);
    forall k | 0 <= k < |cs| ensures cs[k].Valid() {
      CommandsAt(p.got, k);
    }
    forall i | 0 <= i < |Acks(Commands(p.sent))|
      ensures 1 <= Advance(Before(Acks(Commands(p.sent)), i), Acks(Commands(p.sent))[i]) <= MAX_ARRAY_LEN
    {
      OwedAdvance(cs, i);
    }
  }

  lemma StoppedStep(p: Peer, e: Event, q: Peer)
    requires Inv(p) && p.ws.Stopped? && Step(p, e) == Some(q)
    ensures q.ws.Stopped? && q.delivered == p.delivered
    ensures Acks(Commands(q.sent)) == Acks(Commands(p.sent))
  {
    hide Unmarshal, Encode, WriteCalls, Flatten, Commands, Acks, Payload, AcksOwed, NonAcks, Format, Parse;
    if e.Send? && e.act.Flush? {
      FlushAdds(p.TaskOf(e.who), p.sent);
      AcksSnoc(Commands(p.sent), p.TaskOf(e.who).cmd);
    }
  }

  /** Once `runWS` has stopped, after a failed ssh write for one, no byte is delivered and no ACK sent ever again. */
  lemma {:induction false} StoppedForGood(p: Peer, es: seq<Event>)
    requires Inv(p) && p.ws.Stopped? && Run(p, es).Some?
    ensures Run(p, es).value.ws.Stopped? && Run(p, es).value.delivered == p.delivered
    ensures Acks(Commands(Run(p, es).value.sent)) == Acks(Commands(p.sent))
    decreases es
  {
    hide Step, Inv, Commands, Acks;
    if es != [] {
      var next := Step(p, es[0]).value;
      StoppedStep(p, es[0], next);
      InvStep(p, es[0], next);
      StoppedForGood(next, es[1..]);
    }
  }

  // ---- the session identifier

  lemma SidStepKeeps(p: Peer, e: Event, q: Peer)
    requires Step(p, e) == Some(q) && (p.role == Server || p.sid != NIL)
    ensures q.sid == p.sid && q.role == p.role
  {
    hide Unmarshal, WriteCalls, Parse, TaskAfter;
  }

  /** No run changes a server's identifier, nor a client's once it has one. */
  lemma {:induction false} SidForGood(p: Peer, es: seq<Event>)
    requires Run(p, es).Some? && (p.role == Server || p.sid != NIL)
    ensures Run(p, es).value.sid == p.sid
    decreases es
  {
    hide Step;
    if es != [] {
      var next := Step(p, es[0]).value;
      SidStepKeeps(p, es[0], next);
      SidForGood(next, es[1..]);
    }
  }

  /** A server puts CONNECT_SUCCESS with its own identifier before all its DATA, and just once, unless sending fails. */
  lemma HelloFirst(p: Peer)
    requires Reachable(p) && p.role == Server
    ensures var cs := NonAcks(Commands(p.sent));
            && (cs != [] ==> cs[0] == ConnectSuccess(Format(p.sid)))
            && (forall i :: 0 < i < |cs| ==> cs[i].Data?)
            && (Sound(p) && !p.ssh.Stopped? && !Greeting(p) ==> cs != [])
  {
    ReachableInv(p);
  }

  // ---- serial-number arithmetic

  /** An ACK is accepted exactly when it lies less than 2^63 ahead; it then becomes the counter. */
  lemma AckVerdict(p: Peer, a: U64)
    ensures Handle(p, Encode(Ack(a))) ==
            if (a - p.wCount) % 0x1_0000_0000_0000_0000 < 0x8000_0000_0000_0000
            then p.(wCount := a) else p.(ws := Stopped)
  {
    UnmarshalEncode(Ack(a));
    hide Unmarshal, Encode;
    assert AckDiff(p.wCount, a) == 0 <==> a == p.wCount;
  }

  /** The sum of all the advances, without wrapping. */
  function Climb(acks: seq<U64>): nat {
    if acks == [] then 0
    else
      var n := |acks| - 1;
      Climb(acks[..n]) + Advance(Before(acks, n), acks[n])
  }

  predicate Serial(acks: seq<U64>) {
    forall i :: 0 <= i < |acks| ==> Advance(Before(acks, i), acks[i]) < TWO_63
  }

  lemma {:induction false} ClimbMod(acks: seq<U64>)
    ensures Climb(acks) % TWO_64 == Before(acks, |acks|)
  {
    if acks != [] {
      var n := |acks| - 1;
      ClimbMod(acks[..n]);
      assert Before(acks[..n], n) == Before(acks, n);
      ModAdd64(Climb(acks[..n]), Advance(Before(acks, n), acks[n]));
      AdvanceBack(Before(acks, n), acks[n]);
    }
  }

  lemma AdvanceBack(a: U64, b: U64)
    ensures (a + Advance(a, b)) % TWO_64 == b
  {
  }

  lemma SerialSnoc(acks: seq<U64>, a: U64)
    requires Serial(acks) && Advance(Before(acks, |acks|), a) < TWO_63
    ensures Serial(acks + [a])
  {
    assert forall i :: 0 <= i <= |acks| ==> Before(acks + [a], i) == Before(acks, i);
  }

  lemma SerialReceive(p: Peer, m: Message, q: Peer)
    requires p.ws.Idle? && RecvInv(p) && Serial(Acks(Commands(p.got))) && q == Handle(p.(got := p.got + [m]), m)
    ensures !q.ws.Stopped? ==> Serial(Acks(Commands(q.got)))
  {
    hide Unmarshal, Parse, Commands, Payload, Acks, AcksOwed, NonAcks, Serial, Before, Advance, AckDiff;
    ReceiveAdds(p, m);
    assert Acks(Commands(p.got)) + [] == Acks(Commands(p.got));
    if Unmarshal(m).Ok? && Unmarshal(m).value.Ack? {
      var a := Unmarshal(m).value.ack;
      AckAhead(p.wCount, a);
      if Advance(p.wCount, a) < TWO_63 {
        SerialSnoc(Acks(Commands(p.got)), a);
      }
    }
  }

  lemma GotElsewhere(p: Peer, e: Event, q: Peer)
    requires Step(p, e) == Some(q) && !e.Receive?
    ensures q.got == p.got && (p.ws.Stopped? ==> q.ws.Stopped?)
  {
    hide Handle, WriteCalls;
  }

  lemma SerialStep(p: Peer, e: Event, q: Peer)
    requires Inv(p) && Step(p, e) == Some(q)
    requires !p.ws.Stopped? ==> Serial(Acks(Commands(p.got)))
    ensures !q.ws.Stopped? ==> Serial(Acks(Commands(q.got)))
  {
    hide Commands, Acks, Serial, Handle, SendStep;
    hide LockInv, JobInv, RoleInv, RecvInv, AckInv, SendInv, HelloInv, SidInv;
    if e.Receive? {
      SerialReceive(p, e.m, q);
    } else {
      GotElsewhere(p, e, q);
    }
  }

  lemma {:induction false} SerialRun(p: Peer, es: seq<Event>)
    requires Inv(p) && Run(p, es).Some? && (!p.ws.Stopped? ==> Serial(Acks(Commands(p.got))))
    ensures var q := Run(p, es).value; !q.ws.Stopped? ==> Serial(Acks(Commands(q.got)))
    decreases es
  {
    hide Step, Inv, Serial, Acks, Commands;
    if es != [] {
      var next := Step(p, es[0]).value;
      SerialStep(p, es[0], next);
      InvStep(p, es[0], next);
      SerialRun(next, es[1..]);
    }
  }

  /**
   While `runWS` runs, every ACK ever taken, from any peer, moved the counter forward by less than 2^63, and
   `wCount` is the whole unbounded climb modulo 2^64.
   */
  lemma AcksClimb(p: Peer)
    requires Reachable(p) && !p.ws.Stopped?
    ensures Serial(Acks(Commands(p.got)))
    ensures p.wCount == Climb(Acks(Commands(p.got))) % TWO_64
  {
    var role, sid, es :| Run(Start(role, sid), es) == Some(p);
    StartInv(role, sid);
    SerialRun(Start(role, sid), es);
    ReachableInv(p);
    ClimbMod(Acks(Commands(p.got)));
  }
}
