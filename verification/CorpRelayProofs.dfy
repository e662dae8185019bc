/** What one end of a corp-relay session guarantees over every run, whatever it receives and whichever calls fail. */
module CorpRelayProofs {
  import opened Bytes
  import opened CorpRelay

  /** One writer at a time, and none on a broken WebSocket. */
  predicate WriterInv(p: Peer) {
    && !(p.ssh.HasWriter() && MainHasWriter(p.main))
    && (p.broken ==> !p.ssh.HasWriter() && !MainHasWriter(p.main))
  }

  /** The error that `Run` took came from a goroutine that had stopped. */
  predicate ReporterInv(p: Peer) {
    !p.main.Waiting? && !p.main.Ended? ==> if p.main.who == RunSSH then p.ssh.SshStopped? else p.ws.WsStopped?
  }

  predicate Unmarked(m: Main) {
    m.Waiting? || m.Reported? || m.FinalOpen?
  }

  /** The low 24 bits count the bytes received; the high byte is the mark, while nothing has cleared it. */
  predicate CountInv(p: Peer) {
    && p.c % TWO_24 == |Taken(p.got)| % TWO_24
    && (Unmarked(p.main) ==> p.c < TWO_24)
    && (p.main.Marked? ==> p.c == if p.main.cleared then p.c % TWO_24 else ACK_ERR_MASK + p.c % TWO_24)
    && (p.main.Marked? && p.main.cleared ==> p.main.who == RunSSH)
    && (p.main.FinalClosing? && p.main.who == RunWS ==>
          p.main.buf <= WriteAck(ACK_ERR_MASK + |Taken(p.got)| % TWO_24))
    && (p.main.FinalClosing? ==> |p.main.buf| <= ACK_BYTE_SIZE)
  }

  function Pending(p: Peer): seq<Byte> {
    if p.ws.Delivering? then p.ws.data else []
  }

  predicate RecvInv(p: Peer) {
    && p.delivered <= Taken(p.got)
    && (!p.ws.WsStopped? ==> Clean(p.got) && p.delivered + Pending(p) == Taken(p.got))
  }

  function Behind(buf: seq<Byte>): seq<Byte> {
    if |buf| >= ACK_BYTE_SIZE then buf[ACK_BYTE_SIZE..] else []
  }

  /** The bytes that `runSSH` has read and not flushed; those that still fit after a failed write. */
  function Held(p: Peer): seq<Byte> {
    match p.ssh
    case Holding(chunk) => chunk
    case Opened(chunk) => chunk
    case Acked(chunk, _) => chunk
    case Closing(buf, _) => Behind(buf)
    case _ => []
  }

  predicate Failing(p: Peer) {
    p.ssh.Closing? && p.ssh.failed
  }

  predicate SendInv(p: Peer) {
    && Taken(p.sent) <= p.read
    && (p.ssh.Acked? ==> |p.ssh.buf| == ACK_BYTE_SIZE)
    && (!p.ssh.SshStopped? && !p.broken && Clean(p.sent) ==>
          && Taken(p.sent) + Held(p) <= p.read
          && (!Failing(p) ==> Taken(p.sent) + Held(p) == p.read))
  }

  /** While `runSSH` has not stopped and `Run` has not ended, the receiver accepts all that is sent. */
  predicate CleanInv(p: Peer) {
    !p.main.Ended? && !p.ssh.SshStopped? ==>
      && Clean(p.sent)
      && (p.ssh.Acked? ==> ReadAck(p.ssh.buf).AckOk?)
      && (p.ssh.Closing? && !p.ssh.failed ==> ReadAck(p.ssh.buf).AckOk?)
  }

  predicate Inv(p: Peer) {
    WriterInv(p) && ReporterInv(p) && CountInv(p) && RecvInv(p) && SendInv(p) && CleanInv(p)
  }

  lemma StartInv()
    ensures Inv(START)
  {
  }

  lemma ControlStep(p: Peer, e: Event, q: Peer)
    requires WriterInv(p) && ReporterInv(p) && Step(p, e) == Some(q)
    ensures WriterInv(q) && ReporterInv(q)
  {
    hide Take, WriteAck, IncCounter, Mark;
  }

  lemma CountReceive(p: Peer, f: Frame, q: Peer)
    requires p.ws.Awaiting? && CountInv(p) && RecvInv(p) && ReporterInv(p) && q == Handle(p.(got := p.got + [f]), f)
    ensures CountInv(q)
  {
    hide Clean, Taken, IncCounter, WriteAck, ReadAck;
    TakenSnoc(p.got, f);
    if Take(f).Some? {
      var n, k := |Taken(p.got)|, |Take(f).value|;
      IncCounterCounts(p.c, k);
      ModAdd24(p.c, k);
      ModAdd24(n, k);
    }
  }

  lemma CountStep(p: Peer, e: Event, q: Peer)
    requires CountInv(p) && RecvInv(p) && ReporterInv(p) && Step(p, e) == Some(q)
    ensures CountInv(q)
  {
    hide Handle, Taken, Clean, Take, WriteAck;
    if e.Receive? {
      CountReceive(p, e.f, q);
    } else if e.PutFinal? || e.PutFinalFail? {
      AckLen(p.c);
    }
  }

  lemma AckLen(c: U32)
    ensures |WriteAck(c)| == ACK_BYTE_SIZE
  {
  }

  lemma RecvStep(p: Peer, e: Event, q: Peer)
    requires RecvInv(p) && Step(p, e) == Some(q)
    ensures RecvInv(q)
  {
    hide Take, Clean, Taken, WriteAck, IncCounter, SshStep, MainStep;
    if e.Receive? {
      TakenSnoc(p.got, e.f);
      TextIsNothing(e.f);
    } else {
      OtherStepsKeep(p, e, q);
    }
  }

  lemma TextIsNothing(f: Frame)
    ensures f.Text? ==> Take(f) == Some([])
  {
  }

  lemma OtherStepsKeep(p: Peer, e: Event, q: Peer)
    requires Step(p, e) == Some(q) && !e.Receive?
    ensures q.got == p.got
    ensures !e.ReceiveFail? && !e.Deliver? && !e.DeliverFail? ==> q.ws == p.ws && q.delivered == p.delivered
  {
    hide WriteAck, Mark;
  }

  /** What flushing a frame does to what the receiver will take. */
  lemma FlushAdds(p: Peer)
    requires p.ssh.Closing?
    ensures var f := Binary(p.ssh.buf);
            && (Clean(p.sent + [f]) <==> Clean(p.sent) && ReadAck(p.ssh.buf).AckOk?)
            && Taken(p.sent + [f]) ==
               Taken(p.sent) + if Clean(p.sent) && ReadAck(p.ssh.buf).AckOk? then Behind(p.ssh.buf) else []
  {
    hide Clean, Taken;
    TakenSnoc(p.sent, Binary(p.ssh.buf));
  }

  /** A final frame carries no data. */
  lemma FinalAdds(p: Peer)
    requires p.main.FinalClosing? && |p.main.buf| <= ACK_BYTE_SIZE
    ensures Taken(p.sent + [Binary(p.main.buf)]) == Taken(p.sent)
    ensures Clean(p.sent + [Binary(p.main.buf)]) ==> Clean(p.sent)
  {
    hide Clean, Taken;
    TakenSnoc(p.sent, Binary(p.main.buf));
  }

  lemma SendFlush(p: Peer, q: Peer)
    requires WriterInv(p) && SendInv(p) && SshStep(p, Flush) == Some(q)
    ensures SendInv(q)
  {
    hide Clean, Taken, ReadAck, Behind;
    FlushAdds(p);
    assert q.sent == p.sent + [Binary(p.ssh.buf)];
    var t := Taken(p.sent);
    assert t + [] == t && Taken(q.sent) + [] == Taken(q.sent);
  }

  lemma SendCut(p: Peer, n: nat)
    requires p.ssh.Acked? && SendInv(p) && n <= |p.ssh.chunk|
    ensures SendInv(p.(ssh := Closing(p.ssh.buf + p.ssh.chunk[..n], n < |p.ssh.chunk|)))
    ensures SendInv(p.(ssh := Closing(p.ssh.buf + p.ssh.chunk[..n], true)))
  {
    hide Clean, Taken;
    var chunk, buf := p.ssh.chunk, p.ssh.buf;
    assert (buf + chunk[..n])[ACK_BYTE_SIZE..] == chunk[..n];
    assert chunk[..n] + chunk[n..] == chunk;
    assert Taken(p.sent) + chunk == (Taken(p.sent) + chunk[..n]) + chunk[n..];
  }

  lemma SendPut(p: Peer, e: Event, q: Peer)
    requires SendInv(p) && SshStep(p, e) == Some(q) && (e.PutAck? || e.PutAckFail? || e.PutData? || e.PutDataFail?)
    ensures SendInv(q)
  {
    hide Clean, Taken, WriteAck;
    match e
    case PutData =>
      SendCut(p, |p.ssh.chunk|);
      assert p.ssh.chunk[..|p.ssh.chunk|] == p.ssh.chunk;
    case PutDataFail(n) => SendCut(p, n);
    case _ => AckLen(p.c);
  }

  predicate OfSsh(e: Event) {
    e.SshRead? || e.SshReadFail? || e.Open? || e.OpenFail? || e.FlushLost?
  }

  lemma SendPlain(p: Peer, e: Event, q: Peer)
    requires SendInv(p) && SshStep(p, e) == Some(q) && OfSsh(e)
    ensures SendInv(q)
  {
    hide Clean, Taken, Behind;
  }

  lemma NotSending(p: Peer, e: Event, q: Peer)
    requires (WsStep(p, e) == Some(q) || MainStep(p, e) == Some(q)) && !e.FlushFinal?
    ensures q.ssh == p.ssh && q.sent == p.sent && q.read == p.read && (p.broken ==> q.broken)
  {
    hide Take, IncCounter, Mark, WriteAck;
  }

  lemma SendFinal(p: Peer, q: Peer)
    requires CountInv(p) && SendInv(p) && MainStep(p, FlushFinal) == Some(q)
    ensures SendInv(q)
  {
    hide Clean, Taken, Behind, WriteAck;
    FinalAdds(p);
  }

  lemma SendReport(p: Peer, text: seq<Byte>, q: Peer)
    requires SendInv(p) && SshStep(p, Report(text)) == Some(q)
    ensures SendInv(q)
  {
    hide Clean, Taken, Behind, Take;
    TakenSnoc(p.sent, Text(text));
    TextIsNothing(Text(text));
  }

  lemma SendStep(p: Peer, e: Event, q: Peer)
    requires WriterInv(p) && CountInv(p) && SendInv(p) && Step(p, e) == Some(q)
    ensures SendInv(q)
  {
    hide Clean, Taken, Behind, SshStep, WsStep, MainStep, CountInv;
    match e {
      case PutAck => SendPut(p, e, q);
      case PutAckFail(_) => SendPut(p, e, q);
      case PutData => SendPut(p, e, q);
      case PutDataFail(_) => SendPut(p, e, q);
      case Flush => SendFlush(p, q);
      case FlushFinal => SendFinal(p, q);
      case Report(text) => SendReport(p, text, q);
      case _ =>
        if OfSsh(e) {
          SendPlain(p, e, q);
        } else {
          NotSending(p, e, q);
        }
    }
  }

  lemma AckReads(c: U32, rest: seq<Byte>)
    requires c < TWO_24
    ensures ReadAck(WriteAck(c) + rest).AckOk? && ReadAck(WriteAck(c)).AckOk?
  {
    hide ReadAck, WriteAck;
    AckRoundTrip(c, rest);
    AckRoundTrip(c, []);
    assert WriteAck(c) + [] == WriteAck(c);
  }

  lemma StillReads(buf: seq<Byte>, more: seq<Byte>)
    requires ReadAck(buf).AckOk?
    ensures ReadAck(buf + more).AckOk?
  {
    assert (buf + more)[..ACK_BYTE_SIZE] == buf[..ACK_BYTE_SIZE];
  }

  lemma CleanStep(p: Peer, e: Event, q: Peer)
    requires WriterInv(p) && CountInv(p) && CleanInv(p) && Step(p, e) == Some(q)
    ensures CleanInv(q)
  {
    hide Clean, Taken, Take, IncCounter, Mark, WriteAck, ReadAck;
    if e.PutAck? && Unmarked(p.main) {
      AckReads(p.c, []);
    } else if e.PutData? && ReadAck(p.ssh.buf).AckOk? {
      StillReads(p.ssh.buf, p.ssh.chunk);
    } else if e.Flush? {
      FlushAdds(p);
    } else if e.Report? {
      TakenSnoc(p.sent, Text(e.text));
      TextIsNothing(Text(e.text));
    }
  }

  lemma InvStep(p: Peer, e: Event, q: Peer)
    requires Inv(p) && Step(p, e) == Some(q)
    ensures Inv(q)
  {
    hide Step, WriterInv, ReporterInv, CountInv, RecvInv, SendInv, CleanInv;
    ControlStep(p, e, q);
    CountStep(p, e, q);
    RecvStep(p, e, q);
    SendStep(p, e, q);
    CleanStep(p, e, q);
  }

  lemma {:induction false} InvRun(p: Peer, es: seq<Event>)
    requires Inv(p) && Run(p, es).Some?
    ensures Inv(Run(p, es).value)
    decreases es
  {
    hide Step, Inv;
    if es != [] {
      var next := Step(p, es[0]).value;
      InvStep(p, es[0], next);
      InvRun(next, es[1..]);
    }
  }

  ghost predicate Reachable(p: Peer) {
    exists es :: Run(START, es) == Some(p)
  }

  lemma ReachableInv(p: Peer)
    requires Reachable(p)
    ensures Inv(p)
  {
    hide Inv;
    var es :| Run(START, es) == Some(p);
    StartInv();
    InvRun(START, es);
  }

  // ---- the counter and the mark

  /**
   Before a failure is marked, the 24-bit counter is the number of bytes received modulo 2^24: those that ssh has
   taken and those being written to it. Every count put in front of a frame is this value.
   */
  lemma CounterCounts(p: Peer)
    requires Reachable(p) && Unmarked(p.main)
    ensures p.c == |Taken(p.got)| % TWO_24
    ensures !p.ws.WsStopped? ==> p.c == (|p.delivered| + |Pending(p)|) % TWO_24
    ensures p.ssh.Opened? ==> Step(p, PutAck) == Some(p.(ssh := Acked(p.ssh.chunk, WriteAck(|Taken(p.got)| % TWO_24))))
  {
    ReachableInv(p);
    hide Taken, Clean, WriteAck;
  }

  /** The last frame after `runWS` failed: as far as it was written, the count received behind a set high byte. */
  lemma FinalFrame(p: Peer)
    requires Reachable(p) && p.main.FinalClosing? && p.main.who == RunWS
    ensures p.main.buf <= WriteAck(ACK_ERR_MASK + |Taken(p.got)| % TWO_24)
    ensures Take(Binary(p.main.buf)).None?
  {
    ReachableInv(p);
    hide Taken, Clean, WriterInv, RecvInv, SendInv, CleanInv, WriteAck, ReadAck;
    var v := ACK_ERR_MASK + |Taken(p.got)| % TWO_24;
    AckLen(v);
    AckRoundTrip(v, []);
    assert WriteAck(v) + [] == WriteAck(v);
    if |p.main.buf| == ACK_BYTE_SIZE {
      assert p.main.buf == WriteAck(v);
    } else {
      ShortIsRefused(p.main.buf);
    }
  }

  lemma ShortIsRefused(buf: seq<Byte>)
    requires |buf| < ACK_BYTE_SIZE
    ensures ReadAck(buf) == ShortRead
  {
  }

  lemma {:induction false} RunSnoc(p: Peer, es: seq<Event>, e: Event)
    requires Run(p, es).Some?
    ensures Run(p, es + [e]) == Step(Run(p, es).value, e)
    decreases es
  {
    hide Step;
    if es == [] {
      assert (es + [e])[1..] == [];
    } else {
      assert (es + [e])[1..] == es[1..] + [e];
      RunSnoc(Step(p, es[0]).value, es[1..], e);
    }
  }

  lemma Reach(p: Peer, e: Event, q: Peer)
    requires Reachable(p) && Step(p, e) == Some(q)
    ensures Reachable(q)
  {
    hide Step;
    var es :| Run(START, es) == Some(p);
    RunSnoc(START, es, e);
  }

  lemma StartReachable()
    ensures Reachable(START)
  {
    assert Run(START, []) == Some(START);
  }
}
