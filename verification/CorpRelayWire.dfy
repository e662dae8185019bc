/** What the frames of a corp-relay session carry in front, and which of them its peer refuses. */
module CorpRelayWire {
  import opened Bytes
  import opened CorpRelay
  import opened CorpRelayProofs

  // ---- the counts on the wire

  /** Cut off inside the count, by a write that failed. */
  predicate Short(buf: seq<Byte>) {
    |buf| < ACK_BYTE_SIZE
  }

  /** The first four bytes are the number of bytes received with the first `k` messages, in 24 bits. */
  predicate Carries(buf: seq<Byte>, got: seq<Frame>, k: nat) {
    k <= |got| && WriteAck(|Taken(got[..k])| % TWO_24) <= buf
  }

  predicate Stamped(f: Frame, got: seq<Frame>, k: nat) {
    match f
    case Binary(b) => Short(b) || Carries(b, got, k)
    case Text(_) => true
    case Other => false
  }

  predicate Climbing(ks: seq<nat>) {
    forall i, j :: 0 <= i < j < |ks| ==> ks[i] <= ks[j]
  }

  predicate UpTo(ks: seq<nat>, k: nat) {
    forall i :: 0 <= i < |ks| ==> ks[i] <= k
  }

  /** Frame `i` was stamped after `ks[i]` messages had been received, and the one being written after `k`. */
  predicate Log(p: Peer, ks: seq<nat>, k: nat) {
    && |ks| == |p.sent| && Climbing(ks) && UpTo(ks, k) && k <= |p.got|
    && (forall i :: 0 <= i < |ks| ==> Stamped(p.sent[i], p.got, ks[i]))
    && (p.ssh.Acked? ==> Carries(p.ssh.buf, p.got, k))
    && (p.ssh.Closing? ==> Stamped(Binary(p.ssh.buf), p.got, k))
  }

  ghost predicate LogInv(p: Peer) {
    !p.main.Ended? ==> exists ks, k :: Log(p, ks, k)
  }

  lemma StampedLater(f: Frame, got: seq<Frame>, more: seq<Frame>, k: nat)
    requires Stamped(f, got, k) && k <= |got|
    ensures Stamped(f, got + more, k)
  {
    assert (got + more)[..k] == got[..k];
  }

  lemma LogGrows(p: Peer, q: Peer, ks: seq<nat>, k: nat, f: Frame)
    requires Log(p, ks, k) && q.sent == p.sent + [f] && q.got == p.got && Stamped(f, p.got, k)
    requires !q.ssh.Acked? && !q.ssh.Closing?
    ensures Log(q, ks + [k], k)
  {
    hide Stamped;
    assert Climbing(ks + [k]) && UpTo(ks + [k], k);
  }

  lemma LogReceives(p: Peer, q: Peer, ks: seq<nat>, k: nat, f: Frame)
    requires Log(p, ks, k) && q.sent == p.sent && q.got == p.got + [f] && q.ssh == p.ssh
    ensures Log(q, ks, k)
  {
    hide Stamped, Carries;
    forall i | 0 <= i < |ks| ensures Stamped(p.sent[i], q.got, ks[i]) {
      StampedLater(p.sent[i], p.got, [f], ks[i]);
    }
    if p.ssh.Acked? || p.ssh.Closing? {
      BufferLater(p, f, k);
    }
  }

  lemma BufferLater(p: Peer, f: Frame, k: nat)
    requires k <= |p.got|
    requires p.ssh.Acked? || p.ssh.Closing?
    ensures Carries(p.ssh.buf, p.got, k) ==> Carries(p.ssh.buf, p.got + [f], k)
    ensures Stamped(Binary(p.ssh.buf), p.got, k) ==> Stamped(Binary(p.ssh.buf), p.got + [f], k)
  {
    assert (p.got + [f])[..k] == p.got[..k];
  }

  /** A frame begun now is stamped with all that was received. */
  lemma LogStamps(p: Peer, ks: seq<nat>, k: nat, n: nat)
    requires Log(p, ks, k) && p.c == |Taken(p.got)| % TWO_24 && n <= ACK_BYTE_SIZE
    ensures forall chunk :: Log(p.(ssh := Acked(chunk, WriteAck(p.c))), ks, |p.got|)
    ensures n <= |WriteAck(p.c)| && Log(p.(ssh := Closing(WriteAck(p.c)[..n], true)), ks, |p.got|)
  {
    hide Taken;
    AckLen(p.c);
    assert p.got[..|p.got|] == p.got;
    assert Carries(WriteAck(p.c), p.got, |p.got|);
    assert n == ACK_BYTE_SIZE ==> WriteAck(p.c)[..n] == WriteAck(p.c);
    assert Stamped(Binary(WriteAck(p.c)[..n]), p.got, |p.got|);
    hide Stamped, Carries, WriteAck;
    assert UpTo(ks, |p.got|);
  }

  lemma LogCopies(p: Peer, ks: seq<nat>, k: nat, data: seq<Byte>, failed: bool)
    requires Log(p, ks, k) && p.ssh.Acked?
    ensures Log(p.(ssh := Closing(p.ssh.buf + data, failed)), ks, k)
  {
    hide Taken, WriteAck;
  }

  /** A step that writes no count, sends nothing and receives nothing. */
  lemma LogStays(p: Peer, q: Peer, ks: seq<nat>, k: nat)
    requires Log(p, ks, k) && q.sent == p.sent && q.got == p.got
    requires q.ssh == p.ssh || !(q.ssh.Acked? || q.ssh.Closing?)
    ensures Log(q, ks, k)
  {
    hide Stamped, Carries;
  }

  lemma LogSsh(p: Peer, e: Event, q: Peer, ks: seq<nat>, k: nat)
    requires Log(p, ks, k) && SshStep(p, e) == Some(q)
    requires p.ssh.Opened? ==> p.c == |Taken(p.got)| % TWO_24
    ensures exists ks', k' :: Log(q, ks', k')
  {
    hide Stamped, Carries, WriteAck, Taken;
    match e {
      case PutAck =>
        LogStamps(p, ks, k, 0);
        assert Log(q, ks, |p.got|);
      case PutAckFail(n) =>
        LogStamps(p, ks, k, n);
        assert Log(q, ks, |p.got|);
      case PutData =>
        LogCopies(p, ks, k, p.ssh.chunk, false);
        assert Log(q, ks, k);
      case PutDataFail(n) =>
        LogCopies(p, ks, k, p.ssh.chunk[..n], true);
        assert Log(q, ks, k);
      case Flush =>
        LogGrows(p, q, ks, k, Binary(p.ssh.buf));
      case Report(text) =>
        TextStamped(text, p.got, k);
        LogGrows(p, q, ks, k, Text(text));
      case _ =>
        LogStays(p, q, ks, k);
    }
  }

  lemma TextStamped(text: seq<Byte>, got: seq<Frame>, k: nat)
    ensures Stamped(Text(text), got, k)
  {
  }

  lemma LogOther(p: Peer, e: Event, q: Peer, ks: seq<nat>, k: nat)
    requires Log(p, ks, k) && (WsStep(p, e) == Some(q) || MainStep(p, e) == Some(q)) && !q.main.Ended?
    ensures Log(q, ks, k)
  {
    assert !e.FlushFinal?;
    NotSending(p, e, q);
    if e.Receive? {
      hide Log, Take, IncCounter;
      LogReceives(p, q, ks, k, e.f);
    } else {
      hide Log, Handle, WriteAck, Mark;
      LogStays(p, q, ks, k);
    }
  }

  lemma EndedStays(p: Peer, e: Event, q: Peer)
    requires Step(p, e) == Some(q) && p.main.Ended?
    ensures q.main.Ended?
  {
    hide Take, WriteAck, IncCounter, Mark;
  }

  lemma LogStep(p: Peer, e: Event, q: Peer)
    requires Inv(p) && LogInv(p) && Step(p, e) == Some(q)
    ensures LogInv(q)
  {
    hide Log, SshStep, WsStep, MainStep, Taken, Clean, RecvInv, SendInv, CleanInv;
    if p.main.Ended? {
      EndedStays(p, e, q);
    } else if !q.main.Ended? {
      var ks, k :| Log(p, ks, k);
      if SshStep(p, e) == Some(q) {
        LogSsh(p, e, q, ks, k);
      } else {
        LogOther(p, e, q, ks, k);
      }
    }
  }

  lemma {:induction false} LogRun(p: Peer, es: seq<Event>)
    requires Inv(p) && LogInv(p) && Run(p, es).Some?
    ensures LogInv(Run(p, es).value)
    decreases es
  {
    hide Step, Inv, LogInv;
    if es != [] {
      var next := Step(p, es[0]).value;
      InvStep(p, es[0], next);
      LogStep(p, es[0], next);
      LogRun(next, es[1..]);
    }
  }

  lemma ReachableLog(p: Peer)
    requires Reachable(p)
    ensures LogInv(p)
  {
    var es :| Run(START, es) == Some(p);
    StartInv();
    assert Log(START, [], 0);
    hide Inv, LogInv, Run;
    LogRun(START, es);
  }

  /**
   Before `Run` has ended, every frame that is long enough starts with the number of bytes that had been received
   with some first messages, modulo 2^24; and these points never go back from one frame to the next.
   */
  lemma AckLog(p: Peer)
    requires Reachable(p) && !p.main.Ended?
    ensures exists ks :: |ks| == |p.sent| && Climbing(ks) && UpTo(ks, |p.got|) && CountsInFront(p, ks)
  {
    ReachableLog(p);
    hide Carries;
    var ks, k :| Log(p, ks, k);
    assert UpTo(ks, |p.got|) && CountsInFront(p, ks);
  }

  predicate CountsInFront(p: Peer, ks: seq<nat>)
    requires |ks| == |p.sent|
  {
    forall i :: 0 <= i < |ks| && p.sent[i].Binary? && |p.sent[i].bytes| >= ACK_BYTE_SIZE ==>
      Carries(p.sent[i].bytes, p.got, ks[i])
  }

  // ---- what the peer refuses

  lemma StampedIsTaken(f: Frame, got: seq<Frame>, k: nat)
    requires Stamped(f, got, k)
    ensures Take(f).None? <==> f.Binary? && Short(f.bytes)
  {
    hide Taken;
    if f.Binary? && !Short(f.bytes) {
      var c := |Taken(got[..k])| % TWO_24;
      AckLen(c);
      hide WriteAck, ReadAck, Take;
      assert f.bytes == WriteAck(c) + f.bytes[ACK_BYTE_SIZE..];
      AckRoundTrip(c, f.bytes[ACK_BYTE_SIZE..]);
    }
  }

  /** Before `Run` has ended, the peer refuses exactly those frames that a failed write cut off inside their count. */
  lemma AcceptedBeforeEnd(p: Peer, i: nat)
    requires Reachable(p) && !p.main.Ended? && i < |p.sent|
    ensures Take(p.sent[i]).None? <==> p.sent[i].Binary? && |p.sent[i].bytes| < ACK_BYTE_SIZE
  {
    ReachableLog(p);
    hide Stamped, Take;
    var ks, k :| Log(p, ks, k);
    StampedIsTaken(p.sent[i], p.got, ks[i]);
  }

  // ---- the mark

  /** A binary message that is counted. */
  predicate Counted(e: Event) {
    e.Receive? && e.f.Binary? && Take(e.f).Some?
  }

  predicate SomeCounted(es: seq<Event>) {
    exists i :: 0 <= i < |es| && Counted(es[i])
  }

  predicate PastMark(m: Main) {
    m.FinalClosing? || m.Ended?
  }

  lemma MarkStep(p: Peer, e: Event, q: Peer)
    requires Step(p, e) == Some(q)
    ensures PastMark(p.main) ==> PastMark(q.main)
    ensures p.main.Marked? && q.main.Marked? ==>
              q.main == p.main.(cleared := p.main.cleared || Counted(e))
    ensures p.main.Marked? ==> q.main.Marked? || PastMark(q.main)
  {
    hide ReadAck, WriteAck, IncCounter, Mark;
  }

  lemma {:induction false} PastMarkRun(p: Peer, es: seq<Event>)
    requires PastMark(p.main) && Run(p, es).Some?
    ensures PastMark(Run(p, es).value.main)
    decreases es
  {
    hide Step;
    if es != [] {
      MarkStep(p, es[0], Step(p, es[0]).value);
      PastMarkRun(Step(p, es[0]).value, es[1..]);
    }
  }

  lemma {:induction false} MarkRun(p: Peer, es: seq<Event>)
    requires p.main.Marked? && Run(p, es).Some? && Run(p, es).value.main.Marked?
    ensures Run(p, es).value.main == p.main.(cleared := p.main.cleared || SomeCounted(es))
    decreases es
  {
    hide Step, Counted;
    if es != [] {
      var next := Step(p, es[0]).value;
      MarkStep(p, es[0], next);
      if PastMark(next.main) {
        PastMarkRun(next, es[1..]);
      } else {
        MarkRun(next, es[1..]);
        CountedCons(es);
      }
    }
  }

  lemma CountedCons(es: seq<Event>)
    requires es != []
    ensures SomeCounted(es) <==> Counted(es[0]) || SomeCounted(es[1..])
  {
    hide Counted;
    if SomeCounted(es) && !Counted(es[0]) {
      var i :| 0 <= i < |es| && Counted(es[i]);
      assert Counted(es[1..][i - 1]);
    }
    if SomeCounted(es[1..]) {
      var i :| 0 <= i < |es[1..]| && Counted(es[1..][i]);
      assert Counted(es[i + 1]);
    }
  }

  lemma FinalAck(p: Peer, q: Peer)
    requires Inv(p) && Step(p, PutFinal) == Some(q)
    ensures p.main.Marked?
    ensures q.main.buf == WriteAck((if p.main.cleared then 0 else ACK_ERR_MASK) + |Taken(p.got)| % TWO_24)
    ensures Take(Binary(q.main.buf)).None? <==> !p.main.cleared
    ensures p.main.who == RunWS ==> !p.main.cleared
  {
    hide Taken, Clean, WriterInv, RecvInv, SendInv, CleanInv, WriteAck, ReadAck;
    AckRoundTrip(p.c, []);
    assert WriteAck(p.c) + [] == WriteAck(p.c);
  }

  /**
   The mark reaches the peer exactly when no acceptable binary message was received between setting it and writing
   it; and none is if it was `runWS` that failed. The last frame has the count in any case.
   */
  lemma MarkSurvives(p: Peer, q: Peer, es: seq<Event>, r: Peer, t: Peer)
    requires Reachable(p) && Step(p, SetMark) == Some(q) && Run(q, es) == Some(r) && Step(r, PutFinal) == Some(t)
    ensures Take(Binary(t.main.buf)).None? <==> !SomeCounted(es)
    ensures p.main.who == RunWS ==> !SomeCounted(es)
    ensures t.main.buf == WriteAck((if SomeCounted(es) then 0 else ACK_ERR_MASK) + |Taken(r.got)| % TWO_24)
  {
    ReachableInv(p);
    assert q.main == Marked(p.main.who, false);
    hide Inv, Run, SomeCounted, WriteAck, Take, Taken;
    InvStep(p, SetMark, q);
    InvRun(q, es);
    FinalAck(r, t);
    MarkRun(q, es);
  }

  const STOPPED := START.(ssh := SshStopped)

  lemma MarkIsSet()
    ensures Reachable(STOPPED.(main := Marked(RunSSH, false), c := ACK_ERR_MASK))
  {
    StartReachable();
    hide Run, Reachable, WriteAck;
    Reach(START, SshReadFail, STOPPED);
    Reach(STOPPED, TakeError(RunSSH), STOPPED.(main := Reported(RunSSH)));
    Reach(STOPPED.(main := Reported(RunSSH)), OpenFinal, STOPPED.(main := FinalOpen(RunSSH)));
    Reach(STOPPED.(main := FinalOpen(RunSSH)), SetMark, STOPPED.(main := Marked(RunSSH, false), c := ACK_ERR_MASK));
  }

  /** The mark can get lost: after `runSSH` failed, one more message clears it, and the peer sees no error. */
  lemma MarkCanBeCleared()
    ensures exists p :: Reachable(p) && p.ssh.SshStopped? && p.main.Ended?
                        && p.sent == [Binary(WriteAck(1))] && Clean(p.sent)
  {
    MarkIsSet();
    hide Run, Reachable, ReadAck, WriteAck, IncCounter, Take;
    var f := Binary(WriteAck(0) + [7]);
    AckRoundTrip(0, [7]);
    AckRoundTrip(1, []);
    assert WriteAck(1) + [] == WriteAck(1);
    IncCounterCounts(ACK_ERR_MASK, 1);
    var p4 := STOPPED.(main := Marked(RunSSH, false), c := ACK_ERR_MASK);
    var p5 := p4.(main := Marked(RunSSH, true), c := 1, ws := Delivering([7]), got := [] + [f]);
    Reach(p4, Receive(f), p5);
    var p6 := p5.(main := FinalClosing(RunSSH, WriteAck(1)));
    Reach(p5, PutFinal, p6);
    var p7 := p5.(main := Ended, sent := [] + [Binary(WriteAck(1))]);
    Reach(p6, FlushFinal, p7);
    assert p7.sent == [Binary(WriteAck(1))] && Clean(p7.sent);
  }
}
