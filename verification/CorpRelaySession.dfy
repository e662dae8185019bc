/**
 The corp-relay session as the code has it: an object with a counter whose methods read the WebSocket and ssh and
 write to them. Every method does steps of the machine in CorpRelay and nothing else; its contract holds while the
 other goroutines do nothing, and their interleavings are the subject of the machine.
 */
module CorpRelaySession {
  import opened Bytes
  import opened Connections
  import opened CorpRelay
  import opened CorpRelayProofs

  /** The frames of a sequence of binary messages. */
  ghost function Frames(ms: seq<seq<Byte>>): (fs: seq<Frame>)
    ensures |fs| == |ms| && forall i :: 0 <= i < |ms| ==> fs[i] == Binary(ms[i])
  {
    if ms == [] then [] else Frames(ms[..|ms| - 1]) + [Binary(ms[|ms| - 1])]
  }

  lemma FramesSnoc(ms: seq<seq<Byte>>, m: seq<Byte>)
    ensures Frames(ms + [m]) == Frames(ms) + [Binary(m)]
  {
    assert (ms + [m])[..|ms|] == ms;
  }

  class Session {
    const ssh: Ssh
    const ws: Socket
    var c: U32

    // The machine that this object has followed so far, and the events that took it there.
    ghost var peer: Peer
    ghost var trace: seq<Event>

    ghost predicate Valid()
      reads this, ssh, ws
    {
      && peer.c == c
      && ssh.taken == peer.delivered
      && Frames(ws.flushed) == peer.sent && ws.broken == peer.broken
      && Run(START, trace) == Some(peer)
    }

    constructor ()
      ensures Valid() && fresh(ssh) && fresh(ws) && peer == START
    {
      ssh := new Ssh();
      ws := new Socket();
      c := 0;
      peer, trace := START, [];
    }

    ghost method Do(e: Event)
      requires Run(START, trace) == Some(peer) && Step(peer, e).Some?
      modifies this`peer, this`trace
      ensures Run(START, trace) == Some(peer) && Some(peer) == Step(old(peer), e)
    {
      RunSnoc(START, trace, e);
      peer, trace := Step(peer, e).value, trace + [e];
    }

    /** Counts `n` more bytes in 24 bits. */
    method IncrementCounter(n: nat)
      modifies this`c
      ensures c == (old(c) + n) % TWO_24 && c == IncCounter(old(c), n)
    {
      IncCounterCounts(c, n);
      c := ((c + n % TWO_32) % TWO_32) % TWO_24;
    }

    /** Handles one binary message: checks the ack in front, counts the rest and writes it to ssh. */
    method ParseBinary(b: seq<Byte>) returns (ok: bool)
      requires Valid() && peer.ws.Awaiting?
      modifies this`c, this`peer, this`trace, ssh
      ensures Valid() && peer.ws == if ok then Awaiting else WsStopped
      ensures peer.got == old(peer).got + [Binary(b)]
      ensures peer.ssh == old(peer).ssh && peer.read == old(peer).read
      ensures !old(peer).main.Marked? ==> peer.main == old(peer).main
      ensures !ReadAck(b).AckOk? ==> !ok && c == old(c) && ssh.taken == old(ssh.taken)
      ensures ReadAck(b).AckOk? ==>
                && c == (old(c) + |b| - ACK_BYTE_SIZE) % TWO_24
                && old(ssh.taken) <= ssh.taken <= old(ssh.taken) + b[ACK_BYTE_SIZE..]
                && (ok ==> ssh.taken == old(ssh.taken) + b[ACK_BYTE_SIZE..])
                && (ok <==> ssh.faults == old(ssh.faults))
      ensures ssh.faults >= old(ssh.faults)
    {
      hide Run, IncCounter, SshStep, MainStep, Frames;
      if !ReadAck(b).AckOk? {
        Do(Receive(Binary(b)));
        return false;
      }
      var data, n := b[ACK_BYTE_SIZE..], 0;
      IncrementCounter(|data|);
      Do(Receive(Binary(b)));
      ok, n := ssh.Write(data);
      assert data == data[..n] + data[n..];
      if ok {
        Do(Deliver);
      } else {
        Do(DeliverFail(n));
      }
    }

    /** One round of `runWS`: a binary message is handled, text is skipped, all else and a read error (None) end it. */
    method WsRound(f: Option<Frame>) returns (ok: bool)
      requires Valid() && peer.ws.Awaiting?
      modifies this`c, this`peer, this`trace, ssh
      ensures Valid() && peer.ws == if ok then Awaiting else WsStopped
      ensures peer.got == old(peer).got + if f.Some? then [f.value] else []
      ensures peer.ssh == old(peer).ssh && peer.read == old(peer).read
      ensures !old(peer).main.Marked? ==> peer.main == old(peer).main
      ensures ssh.faults >= old(ssh.faults) && (ok <==> Fine(f) && ssh.faults == old(ssh.faults))
      ensures !Fine(f) || f.value.Text? ==> c == old(c) && ssh.taken == old(ssh.taken)
      ensures ok && f.value.Binary? ==>
                && c == (old(c) + |f.value.bytes| - 4) % 0x100_0000
                && ssh.taken == old(ssh.taken) + f.value.bytes[4..]
    {
      if f.Some? && f.value.Binary? {
        GoodAck(f.value.bytes);
      }
      hide Run, ReadAck, SshStep, MainStep, IncCounter, Frames;
      match f
      case None =>
        Do(ReceiveFail);
        ok := false;
      case Some(Binary(b)) =>
        ok := ParseBinary(b);
      case Some(Text(text)) =>
        Do(Receive(Text(text)));
        ok := true;
      case Some(Other) =>
        Do(Receive(Other));
        ok := false;
    }

    /** Such a round as one of a loop over an inbox that began after the first `k` messages. */
    method WsTurn(inbox: seq<Option<Frame>>, n: nat, ghost k: nat, ghost faults: nat) returns (ok: bool)
      requires Valid() && peer.ws.Awaiting? && n < |inbox| && k <= |peer.got| && faults <= ssh.faults
      requires WsProgress(inbox, n, Since(peer.got, k), true, ssh.faults > faults)
      modifies this`c, this`peer, this`trace, ssh
      ensures Valid() && peer.ws == if ok then Awaiting else WsStopped
      ensures old(peer).got <= peer.got && peer.ssh == old(peer).ssh && peer.read == old(peer).read
      ensures !old(peer).main.Marked? ==> peer.main == old(peer).main
      ensures ssh.faults >= old(ssh.faults)
      ensures WsProgress(inbox, n + 1, Since(peer.got, k), ok, ssh.faults > faults)
    {
      hide WsProgress, Valid, Fine;
      ghost var got, before := Since(peer.got, k), ssh.faults;
      ok := WsRound(inbox[n]);
      assert Since(peer.got, k) == got + if inbox[n].Some? then [inbox[n].value] else [];
      WsAdvances(inbox, n, got, before > faults, ok, ssh.faults > faults);
    }

    /** The loop of `runWS` over whatever the WebSocket delivers, up to the first error. */
    method RunWS(inbox: seq<Option<Frame>>) returns (n: nat)
      requires Valid() && peer.ws.Awaiting?
      modifies this`c, this`peer, this`trace, ssh
      ensures Valid() && old(peer).got <= peer.got && (!peer.ws.WsStopped? ==> peer.ws.Awaiting? && n == |inbox|)
      ensures WsProgress(inbox, n, Since(peer.got, |old(peer).got|), peer.ws.Awaiting?, ssh.faults > old(ssh.faults))
      ensures ssh.taken <= Taken(peer.got) && (peer.ws.Awaiting? ==> ssh.taken == Taken(peer.got))
      ensures c % 0x100_0000 == |Taken(peer.got)| % 0x100_0000
    {
      hide Run, Taken, Step, Frames, WsProgress;
      ghost var first, before := |peer.got|, ssh.faults;
      WsBegins(inbox);
      SinceStart(peer.got);
      n := 0;
      var running := true;
      while n < |inbox| && running
        invariant Valid() && n <= |inbox| && peer.ws == if running then Awaiting else WsStopped
        invariant old(peer).got <= peer.got && ssh.faults >= before
        invariant WsProgress(inbox, n, Since(peer.got, first), running, ssh.faults > before)
        decreases |inbox| - n
      {
        running := WsTurn(inbox, n, first, before);
        n := n + 1;
      }
      Guarantees(trace, peer);
    }

    /** Sends one chunk behind the current count. */
    method SendFrame(chunk: seq<Byte>) returns (ok: bool)
      requires Valid() && peer.ssh == Holding(chunk) && !MainHasWriter(peer.main)
      modifies this`peer, this`trace, ws
      ensures Valid() && peer.ssh == if ok then Reading else SshStopped
      ensures peer == old(peer).(ssh := peer.ssh, sent := peer.sent, broken := peer.broken)
      ensures ok && !ws.broken ==> ws.flushed == old(ws.flushed) + [WriteAck(c) + chunk]
      ensures ws.faults >= old(ws.faults) && (ws.faults == old(ws.faults) ==> ok && !ws.broken)
    {
      hide Run, WsStep, MainStep, WriteAck, Frames;
      ok := ws.NextWriter();
      if !ok {
        Do(OpenFail);
        return;
      }
      Do(Open);
      ok := PutFrame(chunk);
      hide SshStep;
      CloseWriter(ok);
    }

    /** Writes the count and the chunk to an open writer, up to the first failure. */
    method PutFrame(chunk: seq<Byte>) returns (ok: bool)
      requires Valid() && peer.ssh == Opened(chunk) && !ws.broken && ws.buf == []
      modifies this`peer, this`trace, ws`buf, ws`faults
      ensures Valid() && peer == old(peer).(ssh := Closing(ws.buf, !ok))
      ensures ws.buf <= WriteAck(c) + chunk && (ok ==> ws.buf == WriteAck(c) + chunk)
      ensures ws.faults >= old(ws.faults) && (ws.faults == old(ws.faults) ==> ok)
    {
      hide Run, WsStep, MainStep, WriteAck, Frames;
      AckLen(c);
      var n;
      ok, n := ws.Write(WriteAck(c));
      assert [] + WriteAck(c)[..n] == WriteAck(c)[..n] && WriteAck(c)[..ACK_BYTE_SIZE] == WriteAck(c);
      if !ok {
        Do(PutAckFail(n));
        return;
      }
      Do(PutAck);
      ok, n := ws.Write(chunk);
      assert chunk[..|chunk|] == chunk;
      if ok {
        Do(PutData);
      } else {
        Do(PutDataFail(n));
      }
    }

    method CloseWriter(ok: bool)
      requires Valid() && peer.ssh == Closing(ws.buf, !ok) && !ws.broken
      modifies this`peer, this`trace, ws`flushed, ws`broken, ws`faults
      ensures ws.faults >= old(ws.faults) && (ws.faults == old(ws.faults) ==> !ws.broken)
      ensures Valid() && peer.ssh == if ok then Reading else SshStopped
      ensures peer == old(peer).(ssh := peer.ssh, sent := peer.sent, broken := peer.broken)
      ensures ws.broken || ws.flushed == old(ws.flushed) + [ws.buf]
    {
      hide Run, WsStep, MainStep, Frames;
      FramesSnoc(ws.flushed, ws.buf);
      ws.Close();
      if ws.broken {
        Do(FlushLost);
      } else {
        Do(Flush);
      }
    }

    /** One round of `runSSH`: a read and, if it succeeded, a frame; None is a read error. */
    method SshRound(chunk: Option<seq<Byte>>) returns (ok: bool)
      requires Valid() && peer.ssh.Reading? && !MainHasWriter(peer.main)
      requires chunk.Some? ==> |chunk.value| <= CHUNK_SIZE
      modifies this`peer, this`trace, ws
      ensures Valid() && peer.ssh == if ok then Reading else SshStopped
      ensures peer.read == old(peer).read + if chunk.Some? then chunk.value else []
      ensures peer.got == old(peer).got && peer.main == old(peer).main && peer.ws == old(peer).ws
      ensures chunk.None? ==> !ok && ws.flushed == old(ws.flushed)
      ensures ok && !ws.broken ==> ws.flushed == old(ws.flushed) + [WriteAck(c) + chunk.value]
      ensures ws.faults >= old(ws.faults) && (chunk.Some? && ws.faults == old(ws.faults) ==> ok)
      ensures ws.faults == old(ws.faults) && !old(ws.broken) ==> !ws.broken
    {
      hide Run, WsStep, MainStep, WriteAck, Frames;
      match chunk
      case None =>
        Do(SshReadFail);
        ok := false;
      case Some(data) =>
        Do(SshRead(data));
        ok := SendFrame(data);
    }

    /** Such a round as one of a loop over the reads that began after the first `k` bytes. */
    method SshTurn(chunks: seq<Option<seq<Byte>>>, m: nat, ghost k: nat, ghost faults: nat) returns (ok: bool)
      requires Valid() && peer.ssh.Reading? && !MainHasWriter(peer.main) && m < |chunks| && k <= |peer.read|
      requires faults <= ws.faults && (chunks[m].Some? ==> |chunks[m].value| <= CHUNK_SIZE)
      requires SshProgress(chunks, m, Since(peer.read, k), true, ws.faults > faults)
      modifies this`peer, this`trace, ws
      ensures Valid() && peer.ssh == if ok then Reading else SshStopped
      ensures peer.got == old(peer).got && peer.main == old(peer).main && peer.ws == old(peer).ws
      ensures old(peer).read <= peer.read && ws.faults >= old(ws.faults)
      ensures SshProgress(chunks, m + 1, Since(peer.read, k), ok, ws.faults > faults)
      ensures ws.faults == old(ws.faults) && !old(ws.broken) ==> !ws.broken
    {
      hide SshProgress, Valid;
      ghost var read, before := Since(peer.read, k), ws.faults;
      ok := SshRound(chunks[m]);
      assert Since(peer.read, k) == read + if chunks[m].Some? then chunks[m].value else [];
      SshAdvances(chunks, m, read, before > faults, ok, ws.faults > faults);
    }

    /** The loop of `runSSH`: one frame for every successful read. */
    method RunSSH(chunks: seq<Option<seq<Byte>>>) returns (m: nat)
      requires Valid() && peer.ssh.Reading? && !MainHasWriter(peer.main)
      requires forall i :: 0 <= i < |chunks| && chunks[i].Some? ==> |chunks[i].value| <= CHUNK_SIZE
      modifies this`peer, this`trace, ws
      ensures Valid() && old(peer).read <= peer.read && (!peer.ssh.SshStopped? ==> peer.ssh.Reading? && m == |chunks|)
      ensures SshProgress(chunks, m, Since(peer.read, |old(peer).read|), peer.ssh.Reading?, ws.faults > old(ws.faults))
      ensures Taken(peer.sent) <= peer.read
      ensures peer.ssh.Reading? && !ws.broken && (Clean(peer.sent) || !peer.main.Ended?) ==>
                Taken(peer.sent) == peer.read
      ensures peer.got == old(peer).got && c == old(c)
    {
      hide Run, Step, WriteAck, Taken, Clean, Frames, SshProgress;
      ghost var first, before := |peer.read|, ws.faults;
      SshBegins(chunks);
      SinceStart(peer.read);
      m := 0;
      var running := true;
      while m < |chunks| && running
        invariant Valid() && m <= |chunks| && peer.ssh == if running then Reading else SshStopped
        invariant peer.got == old(peer).got && c == old(c) && peer.main == old(peer).main
        invariant old(peer).read <= peer.read && ws.faults >= before
        invariant SshProgress(chunks, m, Since(peer.read, first), running, ws.faults > before)
        decreases |chunks| - m
      {
        running := SshTurn(chunks, m, first, before);
        m := m + 1;
      }
      Guarantees(trace, peer);
    }

    /** Between two rounds of the loops, `n` and `m` of them done; nobody but the one whose round failed has stopped. */
    ghost predicate Between(inbox: seq<Option<Frame>>, n: nat, chunks: seq<Option<seq<Byte>>>, m: nat, ok: bool,
                            sshFaults: nat, wsFaults: nat)
      reads this, ssh, ws
    {
      && Valid() && n <= |inbox| && m <= |chunks| && peer.main.Waiting?
      && (ok ==> peer.ws.Awaiting? && peer.ssh.Reading?)
      && (!ok ==> (peer.ws.WsStopped? && peer.ssh.Reading?) || (peer.ws.Awaiting? && peer.ssh.SshStopped?))
      && ssh.faults >= sshFaults && ws.faults >= wsFaults && (ws.faults == wsFaults ==> !ws.broken)
      && WsProgress(inbox, n, Since(peer.got, 0), peer.ws.Awaiting?, ssh.faults > sshFaults)
      && SshProgress(chunks, m, Since(peer.read, 0), peer.ssh.Reading?, ws.faults > wsFaults)
    }

    /** Both loops at once, their rounds in any order, until the first error. */
    method RunLoops(inbox: seq<Option<Frame>>, chunks: seq<Option<seq<Byte>>>) returns (n: nat, m: nat, ok: bool)
      requires Valid() && peer == START
      requires forall i :: 0 <= i < |chunks| && chunks[i].Some? ==> |chunks[i].value| <= CHUNK_SIZE
      modifies this`c, this`peer, this`trace, ssh, ws
      ensures Between(inbox, n, chunks, m, ok, old(ssh.faults), old(ws.faults))
      ensures ok ==> n == |inbox| && m == |chunks|
    {
      hide Run, Step, WriteAck, Taken, Clean, Frames, WsProgress, SshProgress, Since;
      WsBegins(inbox);
      SshBegins(chunks);
      SinceStart(peer.got);
      SinceStart(peer.read);
      n, m, ok := 0, 0, true;
      while ok && (n < |inbox| || m < |chunks|)
        invariant Between(inbox, n, chunks, m, ok, old(ssh.faults), old(ws.faults))
        decreases |inbox| - n + |chunks| - m
      {
        var turn: bool := *;
        if n < |inbox| && (turn || m == |chunks|) {
          ok := WsTurn(inbox, n, 0, old(ssh.faults));
          n := n + 1;
        } else {
          ok := SshTurn(chunks, m, 0, old(ws.faults));
          m := m + 1;
        }
      }
    }

    /**
     `Run`: both loops until the first error, if there is one, and then the last frame. `faults` counts the calls of
     the WebSocket that had failed before that frame.
     */
    method RunBoth(inbox: seq<Option<Frame>>, chunks: seq<Option<seq<Byte>>>)
      returns (n: nat, m: nat, ghost faults: nat)
      requires Valid() && peer == START
      requires forall i :: 0 <= i < |chunks| && chunks[i].Some? ==> |chunks[i].value| <= CHUNK_SIZE
      modifies this`c, this`peer, this`trace, ssh, ws
      ensures Valid() && WsProgress(inbox, n, peer.got, peer.ws.Awaiting?, ssh.faults > old(ssh.faults))
      ensures old(ws.faults) <= faults <= ws.faults
      ensures SshProgress(chunks, m, peer.read, peer.ssh.Reading?, faults > old(ws.faults))
      ensures if peer.main.Ended? then peer.ssh.SshStopped? != peer.ws.WsStopped?
              else peer.main.Waiting? && n == |inbox| && m == |chunks| && peer.ssh.Reading? && peer.ws.Awaiting?
      ensures AllFine(inbox) && AllGood(chunks) && ssh.faults == old(ssh.faults) && ws.faults == old(ws.faults) ==>
                !peer.main.Ended? && Taken(Frames(ws.flushed)) == peer.read
      ensures ssh.taken <= Taken(peer.got) && Taken(Frames(ws.flushed)) <= peer.read
      ensures peer.ws.Awaiting? ==> ssh.taken == Taken(peer.got)
      ensures c % 0x100_0000 == |Taken(peer.got)| % 0x100_0000
      ensures peer.main.Ended? && ws.faults == old(ws.faults) ==>
                ws.flushed != []
                && ws.flushed[|ws.flushed| - 1] == WriteAck(0xff00_0000 + |Taken(peer.got)| % 0x100_0000)
    {
      hide Run, Step, WriteAck, Taken, Clean, Frames, WsProgress, SshProgress, Since;
      var ok;
      n, m, ok := RunLoops(inbox, chunks);
      SinceStart(peer.got);
      SinceStart(peer.read);
      NoCause(inbox, n, peer.got, peer.ws.Awaiting?, chunks, m, peer.read, peer.ssh.Reading?);
      faults := ws.faults;
      if !ok {
        ReportError();
        Guarantees(trace, peer);
        Finish();
      }
      Guarantees(trace, peer);
    }

    /** `Run` takes the error from the goroutine that stopped. */
    ghost method ReportError()
      requires Valid() && peer.main.Waiting? && (peer.ws.WsStopped? || peer.ssh.SshStopped?)
      modifies this`peer, this`trace
      ensures Valid() && peer.main.Reported? && peer == old(peer).(main := peer.main)
    {
      hide Run, WsStep, SshStep, Frames;
      Do(TakeError(if peer.ws.WsStopped? then Who.RunWS else Who.RunSSH));
    }

    /** The end of `Run`: the error was taken from a goroutine; one last frame tells the other end. */
    method Finish()
      requires Valid() && peer.main.Reported? && !peer.ssh.HasWriter()
      modifies this`c, this`peer, this`trace, ws
      ensures Valid() && peer.main.Ended?
      ensures peer == old(peer).(c := c, main := Ended, sent := peer.sent, broken := peer.broken)
      ensures c % TWO_24 == old(c) % TWO_24 && ws.faults >= old(ws.faults)
      ensures |ws.flushed| <= |old(ws.flushed)| + 1 && old(ws.flushed) <= ws.flushed
      ensures |ws.flushed| > |old(ws.flushed)| ==>
                c == Mark(old(c)) && ws.flushed[|old(ws.flushed)|] <= WriteAck(Mark(old(c)))
      ensures ws.faults == old(ws.faults) ==> ws.flushed == old(ws.flushed) + [WriteAck(Mark(old(c)))]
    {
      hide Run, WsStep, SshStep, WriteAck, Frames;
      var ok := ws.NextWriter();
      if !ok {
        Do(OpenFinalFail);
        return;
      }
      Do(OpenFinal);
      c := Mark(c);
      Do(SetMark);
      PutLast();
      CloseLast();
    }

    method PutLast()
      requires Valid() && peer.main.Marked? && ws.buf == []
      modifies this`peer, this`trace, ws`buf, ws`faults
      ensures ws.faults >= old(ws.faults) && (ws.faults == old(ws.faults) ==> ws.buf == WriteAck(c))
      ensures Valid() && ws.buf <= WriteAck(c) && peer == old(peer).(main := FinalClosing(old(peer).main.who, ws.buf))
    {
      hide Run, WsStep, SshStep, WriteAck, Mark, Frames;
      AckLen(c);
      var ok, n := ws.Write(WriteAck(c));
      assert [] + WriteAck(c)[..n] == WriteAck(c)[..n] && WriteAck(c)[..ACK_BYTE_SIZE] == WriteAck(c);
      if ok {
        Do(PutFinal);
      } else {
        Do(PutFinalFail(n));
      }
    }

    method CloseLast()
      requires Valid() && peer.main.FinalClosing? && peer.main.buf == ws.buf && !ws.broken
      modifies this`peer, this`trace, ws`flushed, ws`broken, ws`faults
      ensures Valid() && ws.faults >= old(ws.faults)
      ensures peer == old(peer).(main := Ended, sent := peer.sent, broken := peer.broken)
      ensures ws.flushed == if ws.faults == old(ws.faults) then old(ws.flushed) + [ws.buf] else old(ws.flushed)
    {
      hide Run, WsStep, SshStep, WriteAck, Mark, Frames;
      FramesSnoc(ws.flushed, ws.buf);
      ws.Close();
      if ws.broken {
        Do(FlushFinalLost);
      } else {
        Do(FlushFinal);
      }
    }
  }

  // ---- how far the loops are, and why they stopped

  /** What `runWS` goes on after: a text, or a binary message whose 4-byte ack starts with a zero byte. */
  predicate Fine(f: Option<Frame>) {
    f.Some? && (f.value.Text? || (f.value.Binary? && |f.value.bytes| >= 4 && f.value.bytes[0] == 0))
  }

  predicate AllFine(inbox: seq<Option<Frame>>) {
    forall i :: 0 <= i < |inbox| ==> Fine(inbox[i])
  }

  predicate AllGood(chunks: seq<Option<seq<Byte>>>) {
    forall i :: 0 <= i < |chunks| ==> chunks[i].Some?
  }

  /**
   `runWS` has taken the first `n` messages of its inbox, in order. While it goes on, all of them were fine. Once it
   has stopped, all but the last were, and the last was not or the write to ssh failed.
   */
  ghost predicate WsProgress(inbox: seq<Option<Frame>>, n: nat, got: seq<Frame>, running: bool, faulty: bool) {
    && n <= |inbox| && |got| <= n && (forall i :: 0 <= i < |got| ==> inbox[i] == Some(got[i]))
    && if running then |got| == n && AllFine(inbox[..n])
       else n > 0 && AllFine(inbox[..n - 1]) && (faulty || !Fine(inbox[n - 1]))
  }

  lemma WsBegins(inbox: seq<Option<Frame>>)
    ensures forall faulty :: WsProgress(inbox, 0, [], true, faulty)
  {
  }

  lemma WsAdvances(inbox: seq<Option<Frame>>, n: nat, got: seq<Frame>, before: bool, ok: bool, faulty: bool)
    requires n < |inbox| && WsProgress(inbox, n, got, true, before)
    requires ok ==> Fine(inbox[n])
    requires !ok ==> faulty || !Fine(inbox[n])
    ensures WsProgress(inbox, n + 1, got + if inbox[n].Some? then [inbox[n].value] else [], ok, faulty)
  {
    assert inbox[..n + 1] == inbox[..n] + [inbox[n]];
    assert Fine(inbox[n]) ==> inbox[n].Some?;
    hide Fine;
  }

  /** `runSSH` has read the first `m` chunks; it stopped because the last read or a call of the WebSocket failed. */
  ghost predicate SshProgress(chunks: seq<Option<seq<Byte>>>, m: nat, read: seq<Byte>, running: bool, faulty: bool) {
    && m <= |chunks| && read == BytesOf(chunks[..m])
    && if running then AllGood(chunks[..m])
       else m > 0 && AllGood(chunks[..m - 1]) && (faulty || chunks[m - 1].None?)
  }

  lemma SshBegins(chunks: seq<Option<seq<Byte>>>)
    ensures forall faulty :: SshProgress(chunks, 0, [], true, faulty)
  {
  }

  lemma SshAdvances(chunks: seq<Option<seq<Byte>>>, m: nat, read: seq<Byte>, before: bool, ok: bool, faulty: bool)
    requires m < |chunks| && SshProgress(chunks, m, read, true, before)
    requires ok ==> chunks[m].Some?
    requires !ok ==> faulty || chunks[m].None?
    ensures SshProgress(chunks, m + 1, read + if chunks[m].Some? then chunks[m].value else [], ok, faulty)
  {
    BytesNext(chunks, m);
    assert chunks[..m + 1] == chunks[..m] + [chunks[m]];
  }

  /** Where nothing is wrong and nothing failed, nobody has stopped. */
  lemma NoCause(inbox: seq<Option<Frame>>, n: nat, got: seq<Frame>, running: bool,
                chunks: seq<Option<seq<Byte>>>, m: nat, read: seq<Byte>, reading: bool)
    ensures AllFine(inbox) && WsProgress(inbox, n, got, running, false) ==> running
    ensures AllGood(chunks) && SshProgress(chunks, m, read, reading, false) ==> reading
  {
    hide Fine, BytesOf;
  }

  lemma Guarantees(trace: seq<Event>, p: Peer)
    requires Run(START, trace) == Some(p)
    ensures p.delivered <= Taken(p.got)
    ensures p.ws.Awaiting? ==> p.delivered == Taken(p.got)
    ensures p.c % TWO_24 == |Taken(p.got)| % TWO_24
    ensures Taken(p.sent) <= p.read
    ensures p.ssh.Reading? && !p.broken && (Clean(p.sent) || !p.main.Ended?) ==> Taken(p.sent) == p.read
  {
    hide Run, WriterInv, ReporterInv, Taken, Clean;
    StartInv();
    InvRun(START, trace);
    assert p.delivered + [] == p.delivered && Taken(p.sent) + [] == Taken(p.sent);
  }
}
