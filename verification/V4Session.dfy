/**
 The corp-relay-v4 session as the code has it: an object whose methods update its counters and call the ssh
 connection and the WebSocket, each call of which may fail at any time. Every method is shown to do steps of the
 machine in V4Peer and nothing else. A method's contract holds while the other goroutine does nothing; what the two
 do together is the subject of that machine, in which their steps interleave in every way.
 */
module V4Session {
  import opened Bytes
  import opened Command
  import opened Uuid
  import opened V4Log
  import opened V4Peer
  import opened V4PeerProofs
  import opened V4PeerTheorems
  import opened V4Inbox
  import opened Connections

  lemma {:induction false} RunSnoc(p: Peer, es: seq<Event>, e: Event)
    requires Run(p, es).Some?
    ensures Run(p, es + [e]) == Step(Run(p, es).value, e)
    decreases es
  {
    hide Step;
    if es == [] {
      assert (es + [e])[1..] == [];
    } else {
      assert (es + [e])[1..] == es[1..] + [e];
      RunSnoc(Step(p, es[0]).value, es[1..], e);
    }
  }

  class Session {
    const role: Role
    const ssh: Ssh
    const ws: Socket
    var sid: Uuid
    var rCount: U64
    var wCount: U64
    var locked: bool

    // The machine that this object has followed so far, and the events that took it there.
    ghost const origin: Uuid
    ghost var peer: Peer
    ghost var trace: seq<Event>

    /** The fields, and what ssh and the WebSocket were given, are those of a machine that ran from its start. */
    ghost predicate Valid()
      reads this, ssh, ws
    {
      && peer.role == role && peer.sid == sid && peer.rCount == rCount && peer.wCount == wCount
      && (locked <==> peer.mu.Some?)
      && ssh.taken == peer.delivered
      && ws.flushed == peer.sent && ws.broken == peer.broken
      && Run(Start(role, origin), trace) == Some(peer)
    }

    constructor (role: Role, sid: Uuid)
      ensures Valid() && fresh(ssh) && fresh(ws) && !locked
      ensures this.role == role && peer == Start(role, sid)
    {
      this.role := role;
      ssh := new Ssh();
      ws := new Socket();
      this.sid := if role == Server then sid else NIL;
      rCount, wCount, locked := 0, 0, false;
      origin, peer, trace := sid, Start(role, sid), [];
    }

    /** Records one step of the machine. */
    ghost method Do(e: Event)
      requires Run(Start(role, origin), trace) == Some(peer) && Step(peer, e).Some?
      modifies this`peer, this`trace
      ensures Run(Start(role, origin), trace) == Some(peer)
      ensures Some(peer) == Step(old(peer), e)
    {
      RunSnoc(Start(role, origin), trace, e);
      peer, trace := Step(peer, e).value, trace + [e];
    }

    /** Takes the mutex and opens a writer; the mutex is released again if there is none. */
    method WsWriter(ghost who: Who) returns (ok: bool)
      requires Valid() && !locked && peer.TaskOf(who).Wanting?
      modifies this`locked, this`peer, this`trace, ws`buf, ws`faults
      ensures Valid() && locked == ok == (ws.faults == old(ws.faults)) && ws.faults >= old(ws.faults)
      ensures ok ==> ws.buf == [] && !ws.broken
      ensures var c := old(peer).TaskOf(who).cmd;
              peer == if ok
                      then old(peer).With(who, Writing(c, [], WriteCalls(c), !c.Valid())).(mu := Some(who))
                      else old(peer).With(who, Stopped)
    {
      hide Unmarshal, WriteCalls, Parse, Start, Run;
      locked := true;
      Do(Send(who, Acquire));
      ok := ws.NextWriter();
      if ok {
        Do(Send(who, Open));
      } else {
        locked := false;
        Do(Send(who, OpenFail));
      }
    }

    /** Prints the command on the open writer, one call per field, up to the first call that fails. */
    method WriteCommand(cmd: Command, ghost who: Who) returns (ok: bool)
      requires Valid() && locked && ws.buf == [] && cmd.Valid()
      requires peer.TaskOf(who) == Writing(cmd, [], WriteCalls(cmd), false)
      modifies this`peer, this`trace, ws`buf, ws`faults
      ensures Valid() && Written(old(peer), who, cmd, ws.buf, peer)
      ensures ok == !peer.TaskOf(who).failed == (ws.faults == old(ws.faults)) && ws.faults >= old(ws.faults)
      ensures ok ==> peer.TaskOf(who).todo == [] && ws.buf == Encode(cmd)
    {
      hide Unmarshal, WriteCalls, Parse, Handle, Run, Encode, Start, Flatten;
      var calls := WriteCalls(cmd);
      EncodeIsFlat(cmd);
      var i := 0;
      ok := true;
      while i < |calls| && ok
        invariant 0 <= i <= |calls| && Valid() && locked
        invariant Written(old(peer), who, cmd, ws.buf, peer) && ok == !peer.TaskOf(who).failed
        invariant ok == (ws.faults == old(ws.faults)) && ws.faults >= old(ws.faults)
        invariant ok ==> peer.TaskOf(who).todo == calls[i..] && ws.buf + Flatten(calls[i..]) == Encode(cmd)
        decreases |calls| - i, ok
      {
        var n;
        FlattenNext(ws.buf, calls, i);
        ok, n := ws.Write(calls[i]);
        if ok {
          assert calls[i][..n] == calls[i];
          Do(Send(who, Write));
          i := i + 1;
        } else {
          Do(Send(who, WriteFail(n)));
        }
      }
      FlattenEnd(ws.buf);
      assert ok ==> calls[i..] == [];
    }

    /** Closes the writer, whatever happened to it, and releases the mutex; an error of the close is dropped. */
    method Cancel(ghost who: Who)
      requires Valid() && locked && peer.TaskOf(who).Writing? && ws.buf == peer.TaskOf(who).buf && !ws.broken
      requires peer.TaskOf(who).failed || peer.TaskOf(who).todo == []
      modifies this`locked, this`peer, this`trace, ws`flushed, ws`broken, ws`faults
      ensures Valid() && !locked
      ensures var t := old(peer).TaskOf(who);
              var q := old(peer).With(who, if t.failed then Stopped else Idle).(mu := None);
              peer == if ws.faults == old(ws.faults) then q.(sent := q.sent + [t.buf]) else q.(broken := true)
      ensures ws.faults >= old(ws.faults)
    {
      hide Unmarshal, WriteCalls, Parse, Handle, Run, Start;
      ws.Close();
      locked := false;
      if ws.broken {
        Do(Send(who, FlushLost));
      } else {
        Do(Send(who, Flush));
      }
    }

    /** Sends one command under the mutex. On every way out the mutex is free again. */
    method Transmit(cmd: Command, ghost who: Who) returns (ok: bool)
      requires Valid() && !locked && peer.TaskOf(who) == Wanting(cmd)
      modifies this`locked, this`peer, this`trace, ws
      ensures Valid() && !locked && Sent(old(peer), who, cmd, ok, peer) && ws.faults >= old(ws.faults)
      ensures ok ==> cmd.Valid()
      ensures cmd.Valid() && ws.faults == old(ws.faults) ==>
                ok && !ws.broken && ws.flushed == old(ws.flushed) + [Encode(cmd)]
      ensures ok && ws.faults == old(ws.faults) && Sound(old(peer)) ==> Sound(peer)
    {
      SoundGrows(peer.sent, cmd);
      hide Unmarshal, WriteCalls, Parse, Handle, Run, Encode, Start, WellFormed;
      ok := WsWriter(who);
      if ok {
        ok := cmd.Valid();
        if ok {
          ok := WriteCommand(cmd, who);
          PrefixHolds(trace, role, origin, peer, who);
        }
        Cancel(who);
      }
    }

    /** Counts the bytes of a DATA command, then writes them to ssh. */
    method ReadData(b: Message, data: seq<Byte>) returns (ok: bool)
      requires Valid() && peer.ws.Idle? && Unmarshal(b) == Ok(Data(data))
      modifies this`rCount, this`peer, this`trace, ssh
      ensures Valid() && rCount == (old(rCount) + |data|) % TWO_64
      ensures ok == (ssh.faults == old(ssh.faults)) && ssh.faults >= old(ssh.faults)
      ensures ok ==> ssh.taken == old(ssh.taken) + data
      ensures !ok ==> old(ssh.taken) <= ssh.taken <= old(ssh.taken) + data
      ensures peer == old(peer).(got := old(peer).got + [b], rCount := rCount, delivered := ssh.taken,
                                 ws := if ok then Wanting(Ack(rCount)) else Stopped)
    {
      hide Unmarshal, WriteCalls, Parse, Run, Start, SendStep;
      rCount := (rCount + |data|) % TWO_64;
      Do(Receive(b));
      var n;
      ok, n := ssh.Write(data);
      assert data == data[..n] + data[n..];
      if ok {
        Do(Deliver);
      } else {
        Do(DeliverFail(n));
      }
    }

    /** Acknowledges everything that ssh has taken. */
    method SendAck() returns (ok: bool)
      requires Valid() && !locked && peer.ws == Wanting(Ack(rCount))
      modifies this`locked, this`peer, this`trace, ws
      ensures Valid() && !locked && Sent(old(peer), Who.RunWS, Ack(rCount), ok, peer) && ws.faults >= old(ws.faults)
      ensures ws.faults == old(ws.faults) ==> ok && !ws.broken
      ensures ok && !ws.broken ==> ws.flushed == old(ws.flushed) + [Encode(Ack(|ssh.taken| % TWO_64))]
      ensures ok && ws.faults == old(ws.faults) && Sound(old(peer)) ==> Sound(peer)
    {
      assert Reachable(peer);
      AckIsDelivered(peer);
      hide Unmarshal, WriteCalls, Parse, Handle, Run, Encode, Start, Step, Reachable;
      ok := Transmit(Ack(rCount), Who.RunWS);
    }

    /** Moves the write counter forward to the ack, or refuses an ack that lies behind it. */
    method ReadAck(b: Message, ack: U64) returns (ok: bool)
      requires Valid() && peer.ws.Idle? && Unmarshal(b) == Ok(Ack(ack))
      modifies this`wCount, this`peer, this`trace
      ensures Valid() && ok == (Advance(old(wCount), ack) < TWO_63)
      ensures wCount == if ok then ack else old(wCount)
      ensures peer == old(peer).(got := old(peer).got + [b], wCount := wCount, ws := if ok then Idle else Stopped)
    {
      hide Unmarshal, WriteCalls, Parse, Run, Start, SendStep;
      var d := (ack - wCount) % TWO_64;
      var diff := if d < TWO_63 then d else d - TWO_64;
      Do(Receive(b));
      if diff == 0 {
        return true;
      }
      if diff < 0 {
        return false;
      }
      wCount := ack;
      return true;
    }

    /** Takes the identifier that the server announces; the field is assigned even when the text does not parse. */
    method ReadConnect(b: Message, text: seq<Byte>) returns (ok: bool)
      requires Valid() && peer.ws.Idle? && Unmarshal(b) == Ok(ConnectSuccess(text))
      modifies this`sid, this`peer, this`trace
      ensures Valid() && ok == (role == Client && old(sid) == NIL && Parse(text).Good?)
      ensures sid == if role != Client || old(sid) != NIL then old(sid)
                     else if ok then Parse(text).u else Parse(text).partial
      ensures peer == old(peer).(got := old(peer).got + [b], sid := sid, ws := if ok then Idle else Stopped)
    {
      hide Unmarshal, WriteCalls, Parse, Run, Start, SendStep;
      Do(Receive(b));
      if role != Client || sid != NIL {
        return false;
      }
      match Parse(text)
      case Good(u) => sid, ok := u, true;
      case Bad(u) => sid, ok := u, false;
    }

    /** Handles one message. What it does is fixed by the message and three fields; an error stops `runWS`. */
    method RecvCmd(b: Message) returns (ok: bool)
      requires Valid() && !locked && peer.ws.Idle?
      modifies this`sid, this`rCount, this`wCount, this`locked, this`peer, this`trace, ssh, ws
      ensures Valid() && !locked && peer.ws == if ok then Idle else Stopped
      ensures peer.got == old(peer).got + [b] && peer.ssh == old(peer).ssh && peer.read == old(peer).read
      ensures ssh.faults >= old(ssh.faults) && ws.faults >= old(ws.faults) && (ok ==> ssh.faults == old(ssh.faults))
      ensures ok && ws.faults == old(ws.faults) && Sound(old(peer)) ==> Sound(peer)
      ensures match Dispatch(role, old(sid), old(wCount), b)
              case Reject => !ok && Unmoved(old(peer), peer)
              case BadSid(u) => !ok && Unmoved(old(peer), peer.(sid := old(sid))) && sid == u
              case SetSid(u) => ok && Unmoved(old(peer), peer.(sid := old(sid))) && sid == u
              case NewAck(a) => ok && Unmoved(old(peer), peer.(wCount := old(wCount))) && wCount == a
              case Accept(data) =>
                && sid == old(sid) && wCount == old(wCount) && rCount == (old(rCount) + |data|) % TWO_64
                && old(ssh.taken) <= ssh.taken <= old(ssh.taken) + data
                && (ok ==> ssh.taken == old(ssh.taken) + data)
                && (ssh.faults == old(ssh.faults) && ws.faults == old(ws.faults) ==> ok && !ws.broken)
                && (ok && !ws.broken ==> ws.flushed == old(ws.flushed) + [Encode(Ack(|ssh.taken| % TWO_64))])
    {
      hide Unmarshal, WriteCalls, Parse, Handle, Run, Encode, Start, SendStep, Advance;
      match Unmarshal(b)
      case Err(_) =>
        Refuse(b);
        ok := false;
      case Ok(ConnectSuccess(text)) =>
        ok := ReadConnect(b, text);
      case Ok(ReconnectSuccess(_)) =>
        Refuse(b);
        ok := false;
      case Ok(Data(data)) =>
        ok := ReadData(b, data);
        if ok {
          ok := SendAck();
        }
      case Ok(Ack(ack)) =>
        AckAhead(wCount, ack);
        ok := ReadAck(b, ack);
    }

    ghost method Refuse(b: Message)
      requires Valid() && peer.ws.Idle? && Dispatch(role, sid, wCount, b) == Reject
      modifies this`peer, this`trace
      ensures Valid() && peer == old(peer).(got := old(peer).got + [b], ws := Stopped)
    {
      hide Dispatch, Run, Start;
      Do(Receive(b));
    }

    /** One round of `runWS`: a message, or None for a read error or a message that is not binary. */
    method WsRound(m: Option<Message>) returns (ok: bool)
      requires Valid() && !locked && peer.ws.Idle?
      modifies this`sid, this`rCount, this`wCount, this`locked, this`peer, this`trace, ssh, ws
      ensures Valid() && !locked && peer.ws == if ok then Idle else Stopped
      ensures peer.got == old(peer).got + if m.Some? then [m.value] else []
      ensures m.None? ==> ws.flushed == old(ws.flushed) && ssh.taken == old(ssh.taken)
      ensures peer.ssh == old(peer).ssh && peer.read == old(peer).read
      ensures role == Server ==> sid == old(sid)
      ensures ssh.faults >= old(ssh.faults) && ws.faults >= old(ws.faults)
      ensures ok ==> m.Some? && !Refused(role, View(old(sid), old(wCount)), m.value)
      ensures ok ==> View(sid, wCount) == Follow(View(old(sid), old(wCount)), m.value)
      ensures !ok ==> || m.None? || Refused(role, View(old(sid), old(wCount)), m.value)
                      || ssh.faults > old(ssh.faults) || ws.faults > old(ws.faults)
      ensures ok && ws.faults == old(ws.faults) && Sound(old(peer)) ==> Sound(peer)
    {
      hide Unmarshal, WriteCalls, Handle, Run, Encode, Start, SendStep, Refused, Follow;
      match m
      case None =>
        Do(ReceiveFail);
        ok := false;
      case Some(b) =>
        DispatchIs(role, View(sid, wCount), b);
        ok := RecvCmd(b);
    }

    /** Such a round as one of a loop over an inbox that began after the first `k` messages. */
    method WsTurn(inbox: seq<Option<Message>>, n: nat, ghost v: View, ghost k: nat, ghost faults: nat)
      returns (ok: bool)
      requires Valid() && !locked && peer.ws.Idle? && n < |inbox| && k <= |peer.got|
      requires faults <= ssh.faults + ws.faults
      requires WsProgress(role, v, inbox, n, Since(peer.got, k), Idle, View(sid, wCount),
                          ssh.faults + ws.faults > faults)
      modifies this`sid, this`rCount, this`wCount, this`locked, this`peer, this`trace, ssh, ws
      ensures Valid() && !locked && peer.ws == if ok then Idle else Stopped
      ensures old(peer).got <= peer.got && peer.ssh == old(peer).ssh && peer.read == old(peer).read
      ensures WsProgress(role, v, inbox, n + 1, Since(peer.got, k), peer.ws, View(sid, wCount),
                         ssh.faults + ws.faults > faults)
      ensures role == Server ==> sid == old(sid)
      ensures ssh.faults >= old(ssh.faults) && ws.faults >= old(ws.faults)
      ensures ok && ws.faults == old(ws.faults) && Sound(old(peer)) ==> Sound(peer)
    {
      hide WsProgress, Refused, Follow, Valid;
      ghost var was, got, before := View(sid, wCount), Since(peer.got, k), ssh.faults + ws.faults;
      ok := WsRound(inbox[n]);
      ghost var failed := ssh.faults + ws.faults > before;
      assert Since(peer.got, k) == got + if inbox[n].Some? then [inbox[n].value] else [];
      WsAdvances(role, v, inbox, n, got, was, before > faults, ok, View(sid, wCount), failed);
      assert (before > faults || failed) == (ssh.faults + ws.faults > faults);
    }

    /** The loop of `runWS` over whatever the WebSocket delivers, up to the first error. */
    method RunWS(inbox: seq<Option<Message>>) returns (n: nat)
      requires Valid() && !locked && peer.ws.Idle?
      modifies this`sid, this`rCount, this`wCount, this`locked, this`peer, this`trace, ssh, ws
      ensures Valid() && !locked && old(peer).got <= peer.got && (peer.ws.Idle? ==> n == |inbox|)
      ensures WsProgress(role, View(old(sid), old(wCount)), inbox, n, Since(peer.got, |old(peer).got|), peer.ws,
                         View(sid, wCount), ssh.faults + ws.faults > old(ssh.faults + ws.faults))
      ensures ssh.taken <= Payload(Commands(peer.got))
      ensures peer.ws.Idle? ==> ssh.taken == Payload(Commands(peer.got))
      ensures Acks(Commands(ws.flushed)) <= AcksOwed(Commands(peer.got))
      ensures peer.ws.Idle? && Sound(peer) ==> Acks(Commands(ws.flushed)) == AcksOwed(Commands(peer.got))
    {
      hide Step, Run, Start, Commands, Payload, Acks, AcksOwed, Refused, Follow, WsProgress;
      ghost var v, first := View(sid, wCount), |peer.got|;
      ghost var before := ssh.faults + ws.faults;
      WsBegins(role, v, inbox);
      assert Since(peer.got, first) == [];
      n := 0;
      var running := true;
      while n < |inbox| && running
        invariant Valid() && !locked && n <= |inbox| && peer.ws == if running then Idle else Stopped
        invariant first <= |peer.got| && old(peer).got <= peer.got && ssh.faults + ws.faults >= before
        invariant WsProgress(role, v, inbox, n, Since(peer.got, first), peer.ws, View(sid, wCount),
                             ssh.faults + ws.faults > before)
        decreases |inbox| - n
      {
        running := WsTurn(inbox, n, v, first, before);
        n := n + 1;
      }
      Guarantees(trace, role, origin, peer);
    }

    /** One round of `runSSH`: a read and, if it succeeded, a DATA command. */
    method Round(chunk: Option<seq<Byte>>) returns (ok: bool)
      requires Valid() && !locked && peer.ssh.Idle? && (chunk.Some? ==> |chunk.value| <= MAX_ARRAY_LEN)
      modifies this`locked, this`peer, this`trace, ws
      ensures Valid() && !locked && peer.ssh == if ok then Idle else Stopped
      ensures peer.read == old(peer).read + if chunk.Some? then chunk.value else []
      ensures peer.got == old(peer).got && peer.delivered == old(peer).delivered && peer.ws == old(peer).ws
      ensures chunk.None? ==> !ok && ws.flushed == old(ws.flushed)
      ensures ok && !ws.broken ==> ws.flushed == old(ws.flushed) + [Encode(Data(chunk.value))]
      ensures ws.faults >= old(ws.faults) && (ok ==> chunk.Some? && chunk.value != [])
      ensures chunk.Some? && chunk.value != [] && ws.faults == old(ws.faults) ==> ok
      ensures ok && ws.faults == old(ws.faults) && Sound(old(peer)) ==> Sound(peer)
    {
      hide Unmarshal, WriteCalls, Dispatch, Run, Encode, Start, SendStep;
      match chunk
      case None =>
        Do(SshReadFail);
        ok := false;
      case Some(data) =>
        Do(SshRead(data));
        ok := Transmit(Data(data), Who.RunSSH);
    }

    /** The server announces its identifier. */
    method Greet() returns (ok: bool)
      requires Valid() && !locked && role == Server && peer.ssh == Wanting(ConnectSuccess(Format(sid)))
      modifies this`locked, this`peer, this`trace, ws
      ensures Valid() && !locked && peer.ssh == if ok then Idle else Stopped
      ensures peer == old(peer).(ssh := peer.ssh, mu := None, sent := peer.sent, broken := peer.broken)
      ensures ok && !ws.broken ==> ws.flushed == old(ws.flushed) + [Encode(ConnectSuccess(Format(sid)))]
      ensures ws.faults >= old(ws.faults) && (ws.faults == old(ws.faults) ==> ok)
      ensures ok && ws.faults == old(ws.faults) && Sound(old(peer)) ==> Sound(peer)
    {
      hide Step, Run, Encode, Start, Format;
      ok := Transmit(ConnectSuccess(Format(sid)), Who.RunSSH);
    }

    /** A round of `runSSH` as one of a loop over the reads that began after the first `k` bytes. */
    method SshTurn(chunks: seq<Option<seq<Byte>>>, m: nat, ghost k: nat, ghost faults: nat) returns (ok: bool)
      requires Valid() && !locked && peer.ssh.Idle? && m < |chunks| && k <= |peer.read| && faults <= ws.faults
      requires chunks[m].Some? ==> |chunks[m].value| <= MAX_ARRAY_LEN
      requires SshProgress(chunks, m, Since(peer.read, k), false, ws.faults > faults)
      modifies this`locked, this`peer, this`trace, ws
      ensures Valid() && !locked && peer.ssh == if ok then Idle else Stopped
      ensures peer.got == old(peer).got && peer.ws == old(peer).ws && peer.delivered == old(peer).delivered
      ensures old(peer).read <= peer.read && ws.faults >= old(ws.faults)
      ensures SshProgress(chunks, m + 1, Since(peer.read, k), !ok, ws.faults > faults)
      ensures ok && ws.faults == old(ws.faults) && Sound(old(peer)) ==> Sound(peer)
    {
      hide SshProgress, Valid;
      ghost var read := Since(peer.read, k);
      ok := Round(chunks[m]);
      assert Since(peer.read, k) == read + if chunks[m].Some? then chunks[m].value else [];
      SshAdvances(chunks, m, read, ok, ws.faults > faults);
    }

    /** The loop of `runSSH`: the server's greeting, then one DATA command for every successful read. */
    method RunSSH(chunks: seq<Option<seq<Byte>>>) returns (m: nat)
      requires Valid() && !locked
      requires peer.ssh == if role == Server then Wanting(ConnectSuccess(Format(sid))) else Idle
      requires forall i :: 0 <= i < |chunks| && chunks[i].Some? ==> |chunks[i].value| <= MAX_ARRAY_LEN
      modifies this`locked, this`peer, this`trace, ws
      ensures Valid() && !locked && old(peer).read <= peer.read
      ensures !peer.ssh.Stopped? ==> peer.ssh.Idle? && m == |chunks|
      ensures SshProgress(chunks, m, Since(peer.read, |old(peer).read|), peer.ssh.Stopped?, ws.faults > old(ws.faults))
      ensures peer.ssh.Idle? && Sound(peer) ==> Payload(Commands(ws.flushed)) == peer.read
      ensures Payload(Commands(ws.flushed)) <= peer.read
      ensures peer.ssh.Idle? && Sound(peer) && role == Server ==>
                NonAcks(Commands(ws.flushed)) != [] && NonAcks(Commands(ws.flushed))[0] == ConnectSuccess(Format(sid))
      ensures peer.got == old(peer).got && peer.delivered == old(peer).delivered
    {
      hide Step, Run, Encode, Start, Commands, Payload, Acks, AcksOwed, NonAcks, Format, SshProgress, Sound, Valid;
      m := 0;
      ghost var first, mine := |peer.read|, ws.faults;
      SshBegins(chunks);
      assert Since(peer.read, first) == [];
      var running := true;
      if role == Server {
        running := Greet();
        SshFails(chunks, m, [], false, !running, ws.faults > mine);
      }
      while m < |chunks| && running
        invariant Valid() && !locked && m <= |chunks| && peer.ssh == if running then Idle else Stopped
        invariant peer.got == old(peer).got && peer.delivered == old(peer).delivered
        invariant old(peer).read <= peer.read && ws.faults >= mine
        invariant SshProgress(chunks, m, Since(peer.read, first), !running, ws.faults > mine)
        decreases |chunks| - m
      {
        running := SshTurn(chunks, m, first, mine);
        m := m + 1;
      }
      Promises();
    }

    /**
     Between two rounds of the loops, `n` and `m` of them done; `v`, `mine` and `all` are the fields and the counts of
     failed calls at the start. As long as there was no error both are ready for the next.
     */
    ghost predicate Between(inbox: seq<Option<Message>>, n: nat, chunks: seq<Option<seq<Byte>>>, m: nat,
                            greet: bool, ok: bool, v: View, mine: nat, all: nat)
      reads this, ssh, ws
    {
      && Valid() && !locked && n <= |inbox| && m <= |chunks|
      && (greet ==> role == Server && peer.ssh == Wanting(ConnectSuccess(Format(sid))))
      && (ok ==> peer.ws.Idle? && (greet || peer.ssh.Idle?))
      && (!ok ==> (peer.ws.Stopped? && (greet || peer.ssh.Idle?)) || (peer.ssh.Stopped? && peer.ws.Idle?))
      && ws.faults >= mine && ssh.faults + ws.faults >= all && (ok && ws.faults == mine ==> Sound(peer))
      && WsProgress(role, v, inbox, n, Since(peer.got, 0), peer.ws, View(sid, wCount), ssh.faults + ws.faults > all)
      && SshProgress(chunks, m, Since(peer.read, 0), peer.ssh.Stopped?, ws.faults > mine)
    }

    lemma Opening(inbox: seq<Option<Message>>, chunks: seq<Option<seq<Byte>>>)
      requires Valid() && !locked && peer == Start(role, sid)
      ensures wCount == 0
      ensures Between(inbox, 0, chunks, 0, role == Server, true, View(sid, 0), ws.faults, ssh.faults + ws.faults)
    {
      hide Run, Format, WsProgress, SshProgress;
      WsBegins(role, View(sid, 0), inbox);
      SshBegins(chunks);
      SinceStart(peer.got);
      SinceStart(peer.read);
    }

    lemma Closing(inbox: seq<Option<Message>>, n: nat, chunks: seq<Option<seq<Byte>>>, m: nat,
                  greet: bool, ok: bool, v: View, mine: nat, all: nat)
      requires Between(inbox, n, chunks, m, greet, ok, v, mine, all)
      requires ok ==> !greet && n == |inbox| && m == |chunks|
      ensures WsProgress(role, v, inbox, n, peer.got, peer.ws, View(sid, wCount), ssh.faults + ws.faults > all)
      ensures SshProgress(chunks, m, peer.read, peer.ssh.Stopped?, ws.faults > mine)
      ensures !peer.ws.Stopped? && !peer.ssh.Stopped? ==>
                n == |inbox| && m == |chunks| && peer.ws.Idle? && peer.ssh.Idle?
      ensures AllFine(role, v, inbox) && AllGood(chunks) && ssh.faults + ws.faults == all && ws.faults == mine ==>
                n == |inbox| && m == |chunks| && peer.ws.Idle? && peer.ssh.Idle? && Sound(peer)
    {
      hide Valid, Format, WsProgress, SshProgress, AllFine, AllGood, Sound, Since;
      SinceStart(peer.got);
      SinceStart(peer.read);
      NoCause(role, v, inbox, n, peer.got, peer.ws, View(sid, wCount), chunks, m, peer.read, peer.ssh.Stopped?);
    }

    method WsMove(inbox: seq<Option<Message>>, n: nat, ghost chunks: seq<Option<seq<Byte>>>, ghost m: nat,
                  ghost greet: bool, ghost v: View, ghost mine: nat, ghost all: nat) returns (ok: bool)
      requires n < |inbox| && Between(inbox, n, chunks, m, greet, true, v, mine, all)
      modifies this`sid, this`rCount, this`wCount, this`locked, this`peer, this`trace, ssh, ws
      ensures Between(inbox, n + 1, chunks, m, greet, ok, v, mine, all)
    {
      hide Step, Run, Format, WsProgress, SshProgress, Valid, Start, Since, Sound;
      ghost var earlier := ws.faults > mine;
      ok := WsTurn(inbox, n, v, 0, all);
      SshLater(chunks, m, Since(peer.read, 0), peer.ssh.Stopped?, earlier, ws.faults > mine);
    }

    method SshMove(ghost inbox: seq<Option<Message>>, ghost n: nat, chunks: seq<Option<seq<Byte>>>, m: nat,
                   greet: bool, ghost v: View, ghost mine: nat, ghost all: nat) returns (ok: bool)
      requires (greet || m < |chunks|) && Between(inbox, n, chunks, m, greet, true, v, mine, all)
      requires forall i :: 0 <= i < |chunks| && chunks[i].Some? ==> |chunks[i].value| <= MAX_ARRAY_LEN
      modifies this`locked, this`peer, this`trace, ws
      ensures Between(inbox, n, chunks, if greet then m else m + 1, false, ok, v, mine, all)
    {
      hide Step, Run, Encode, Format, WsProgress, SshProgress, Valid, Start, Since, Sound;
      ghost var before, earlier := ssh.faults + ws.faults > all, ws.faults > mine;
      if greet {
        ok := Greet();
        SshFails(chunks, m, Since(peer.read, 0), earlier, !ok, ws.faults > mine);
      } else {
        ok := SshTurn(chunks, m, 0, mine);
      }
      WsLater(role, v, inbox, n, Since(peer.got, 0), peer.ws, View(sid, wCount), before, ssh.faults + ws.faults > all);
    }

    /**
     `Run`: both loops at once, until the first error. Their rounds alternate in any order; the greeting is the
     server's first round. Without a cause nothing is left undone.
     */
    method RunBoth(inbox: seq<Option<Message>>, chunks: seq<Option<seq<Byte>>>) returns (n: nat, m: nat)
      requires Valid() && !locked && peer == Start(role, sid)
      requires forall i :: 0 <= i < |chunks| && chunks[i].Some? ==> |chunks[i].value| <= MAX_ARRAY_LEN
      modifies this`sid, this`rCount, this`wCount, this`locked, this`peer, this`trace, ssh, ws
      ensures Valid() && !locked && n <= |inbox| && m <= |chunks|
      ensures WsProgress(role, View(old(sid), 0), inbox, n, peer.got, peer.ws, View(sid, wCount),
                         ssh.faults + ws.faults > old(ssh.faults + ws.faults))
      ensures SshProgress(chunks, m, peer.read, peer.ssh.Stopped?, ws.faults > old(ws.faults))
      ensures ssh.taken <= Payload(Commands(peer.got)) && Payload(Commands(ws.flushed)) <= peer.read
      ensures Acks(Commands(ws.flushed)) <= AcksOwed(Commands(peer.got))
      ensures peer.ws.Idle? ==> ssh.taken == Payload(Commands(peer.got))
      ensures peer.ws.Idle? && Sound(peer) ==> Acks(Commands(ws.flushed)) == AcksOwed(Commands(peer.got))
      ensures peer.ssh.Idle? && Sound(peer) ==> Payload(Commands(ws.flushed)) == peer.read
      ensures peer.ssh.Idle? && Sound(peer) && role == Server ==>
                NonAcks(Commands(ws.flushed)) != [] && NonAcks(Commands(ws.flushed))[0] == ConnectSuccess(Format(sid))
      ensures !peer.ws.Stopped? && !peer.ssh.Stopped? ==>
                n == |inbox| && m == |chunks| && peer.ws.Idle? && peer.ssh.Idle?
      ensures AllFine(role, View(old(sid), 0), inbox) && AllGood(chunks)
              && ssh.faults == old(ssh.faults) && ws.faults == old(ws.faults) ==>
                n == |inbox| && m == |chunks| && peer.ws.Idle? && peer.ssh.Idle? && Sound(peer)
    {
      hide Step, Run, Encode, Commands, Payload, Acks, AcksOwed, NonAcks, Format, Start;
      hide WsProgress, SshProgress, AllFine, AllGood, Sound, Valid;
      Opening(inbox, chunks);
      ghost var v, mine, all := View(sid, 0), ws.faults, ssh.faults + ws.faults;
      n, m := 0, 0;
      var greet, ok := role == Server, true;
      while ok && (greet || n < |inbox| || m < |chunks|)
        invariant Between(inbox, n, chunks, m, greet, ok, v, mine, all)
        decreases greet, |inbox| - n + |chunks| - m
      {
        var turn: bool := *;
        if n < |inbox| && (turn || (!greet && m == |chunks|)) {
          ok := WsMove(inbox, n, chunks, m, greet, v, mine, all);
          n := n + 1;
        } else {
          ok := SshMove(inbox, n, chunks, m, greet, v, mine, all);
          m := if greet then m else m + 1;
          greet := false;
        }
      }
      Closing(inbox, n, chunks, m, greet, ok, v, mine, all);
      Promises();
    }

    /** What every session has kept so far. */
    lemma Promises()
      requires Valid()
      ensures ssh.taken <= Payload(Commands(peer.got)) && Payload(Commands(ws.flushed)) <= peer.read
      ensures Acks(Commands(ws.flushed)) <= AcksOwed(Commands(peer.got))
      ensures peer.ws.Idle? ==> ssh.taken == Payload(Commands(peer.got))
      ensures peer.ws.Idle? && Sound(peer) ==> Acks(Commands(ws.flushed)) == AcksOwed(Commands(peer.got))
      ensures peer.ssh.Idle? && Sound(peer) ==> Payload(Commands(ws.flushed)) == peer.read
      ensures peer.ssh.Idle? && Sound(peer) && role == Server ==>
                NonAcks(Commands(ws.flushed)) != [] && NonAcks(Commands(ws.flushed))[0] == ConnectSuccess(Format(sid))
    {
      hide Step, Run, Start, Commands, Payload, Acks, AcksOwed, NonAcks, Format, Sound;
      Guarantees(trace, role, origin, peer);
      Greeted(trace, role, origin, peer);
    }
  }

  // ---- how far the loops are, and why they stopped

  /**
   `runWS` has taken the first `n` messages of its inbox, in order. While it goes on, none of them was an error, and
   its fields are what they say. Once it has stopped, all but the last were fine, and the last was not or a call failed.
   */
  ghost predicate WsProgress(role: Role, v: View, inbox: seq<Option<Message>>, n: nat,
                             got: seq<Message>, t: Task, now: View, faulty: bool) {
    && n <= |inbox| && |got| <= n && (forall i :: 0 <= i < |got| ==> inbox[i] == Some(got[i]))
    && if t.Idle? then |got| == n && AllFine(role, v, inbox[..n]) && now == After(v, inbox[..n])
       else t.Stopped? && n > 0 && AllFine(role, v, inbox[..n - 1]) && (faulty || !AllFine(role, v, inbox[..n]))
  }

  lemma WsBegins(role: Role, v: View, inbox: seq<Option<Message>>)
    ensures forall faulty :: WsProgress(role, v, inbox, 0, [], Idle, v, faulty)
  {
    hide Refused, Follow;
  }

  lemma WsLater(role: Role, v: View, inbox: seq<Option<Message>>, n: nat,
                got: seq<Message>, t: Task, now: View, faulty: bool, later: bool)
    ensures WsProgress(role, v, inbox, n, got, t, now, faulty) && (faulty ==> later) ==>
              WsProgress(role, v, inbox, n, got, t, now, later)
  {
    hide AllFine, After;
  }

  lemma WsAdvances(role: Role, v: View, inbox: seq<Option<Message>>, n: nat, got: seq<Message>, was: View, faulty: bool,
                   ok: bool, now: View, failed: bool)
    requires n < |inbox| && WsProgress(role, v, inbox, n, got, Idle, was, faulty)
    requires ok ==> inbox[n].Some? && !Refused(role, was, inbox[n].value) && now == Follow(was, inbox[n].value)
    requires !ok ==> inbox[n].None? || Refused(role, was, inbox[n].value) || failed
    ensures WsProgress(role, v, inbox, n + 1, got + if inbox[n].Some? then [inbox[n].value] else [],
                       if ok then Idle else Stopped, now, faulty || failed)
  {
    hide AllFine, After, Refused, Follow;
    FineNext(role, v, inbox, n);
  }

  /** `runSSH` has read the first `m` chunks; it stopped because the last was an error or empty, or a call failed. */
  ghost predicate SshProgress(chunks: seq<Option<seq<Byte>>>, m: nat, read: seq<Byte>, stopped: bool, faulty: bool) {
    && m <= |chunks| && read == BytesOf(chunks[..m])
    && (m > 0 ==> AllGood(chunks[..m - 1]))
    && if stopped then faulty || !AllGood(chunks[..m]) else AllGood(chunks[..m])
  }

  lemma SshBegins(chunks: seq<Option<seq<Byte>>>)
    ensures forall faulty :: SshProgress(chunks, 0, [], false, faulty)
  {
  }

  lemma SshLater(chunks: seq<Option<seq<Byte>>>, m: nat, read: seq<Byte>, stopped: bool, faulty: bool, later: bool)
    ensures SshProgress(chunks, m, read, stopped, faulty) && (faulty ==> later) ==>
              SshProgress(chunks, m, read, stopped, later)
  {
  }

  lemma SshFails(chunks: seq<Option<seq<Byte>>>, m: nat, read: seq<Byte>, before: bool, stopped: bool, faulty: bool)
    requires SshProgress(chunks, m, read, false, before) && (stopped ==> faulty)
    ensures SshProgress(chunks, m, read, stopped, faulty)
  {
    hide BytesOf, AllGood;
  }

  lemma SshAdvances(chunks: seq<Option<seq<Byte>>>, m: nat, read: seq<Byte>, ok: bool, faulty: bool)
    requires m < |chunks| && exists f :: SshProgress(chunks, m, read, false, f)
    requires ok ==> chunks[m].Some? && chunks[m].value != []
    requires !ok ==> faulty || chunks[m].None? || chunks[m].value == []
    ensures SshProgress(chunks, m + 1, read + if chunks[m].Some? then chunks[m].value else [], !ok, faulty)
  {
    BytesNext(chunks, m);
    assert chunks[..m + 1] == chunks[..m] + [chunks[m]];
  }

  predicate AllGood(chunks: seq<Option<seq<Byte>>>) {
    forall i :: 0 <= i < |chunks| ==> chunks[i].Some? && chunks[i].value != []
  }

  /** Nothing changed but the log of messages received and where `runWS` is. */
  ghost predicate Unmoved(p: Peer, q: Peer) {
    q == p.(got := q.got, ws := q.ws)
  }

  /** Where nothing is wrong and nothing failed, nobody has stopped. */
  lemma NoCause(role: Role, v: View, inbox: seq<Option<Message>>, n: nat, got: seq<Message>, t: Task, now: View,
                chunks: seq<Option<seq<Byte>>>, m: nat, read: seq<Byte>, stopped: bool)
    ensures AllFine(role, v, inbox) && WsProgress(role, v, inbox, n, got, t, now, false) ==> t.Idle?
    ensures AllGood(chunks) && SshProgress(chunks, m, read, stopped, false) ==> !stopped
  {
    hide Refused, Follow, After, BytesOf;
    if n <= |inbox| && AllFine(role, v, inbox) {
      FinePrefix(role, v, inbox, n);
    }
  }

  /** A command that is sent whole can be read. */
  lemma SoundGrows(sent: seq<Message>, cmd: Command)
    ensures WellFormed(sent) && cmd.Valid() ==> WellFormed(sent + [Encode(cmd)])
  {
    hide Encode, Unmarshal, Commands;
    CommandsSnoc(sent, Encode(cmd));
    UnmarshalEncode(cmd);
  }

  lemma Greeted(trace: seq<Event>, role: Role, origin: Uuid, p: Peer)
    requires Run(Start(role, origin), trace) == Some(p) && p.role == role
    ensures p.ssh.Idle? && Sound(p) && role == Server ==>
              NonAcks(Commands(p.sent)) != [] && NonAcks(Commands(p.sent))[0] == ConnectSuccess(Format(p.sid))
  {
    hide Start, Run, Inv, NonAcks, Commands, Format, Sound;
    if p.role == Server {
      assert Reachable(p);
      HelloFirst(p);
    }
  }

  lemma Guarantees(trace: seq<Event>, role: Role, origin: Uuid, p: Peer)
    requires Run(Start(role, origin), trace) == Some(p)
    ensures p.delivered <= Payload(Commands(p.got))
    ensures Acks(Commands(p.sent)) <= AcksOwed(Commands(p.got))
    ensures Payload(Commands(p.sent)) <= p.read
    ensures p.ws.Idle? ==> p.delivered == Payload(Commands(p.got))
    ensures p.ws.Idle? && Sound(p) ==> Acks(Commands(p.sent)) == AcksOwed(Commands(p.got))
    ensures p.ssh.Idle? && Sound(p) ==> Payload(Commands(p.sent)) == p.read
  {
    hide Start, Run, LockInv, JobInv, RoleInv, HelloInv, SidInv, Commands, Payload, Acks, AcksOwed;
    StartInv(role, origin);
    InvRun(Start(role, origin), trace);
    assert p.delivered + [] == p.delivered && Payload(Commands(p.sent)) + [] == Payload(Commands(p.sent));
  }

  /** `q` is `p` with `buf` printed so far on the writer of `who`. */
  ghost predicate Written(p: Peer, who: Who, cmd: Command, buf: seq<Byte>, q: Peer) {
    var t := q.TaskOf(who);
    t.Writing? && t.cmd == cmd && t.buf == buf && q == p.With(who, t)
  }

  /**
   `q` is `p` after `who` tried to send `cmd`: one message more at most, no more than the command, the whole of it
   if there was no error, and missing then only if the WebSocket is broken.
   */
  ghost predicate Sent(p: Peer, who: Who, cmd: Command, ok: bool, q: Peer) {
    && q == p.With(who, if ok then Idle else Stopped).(mu := None, sent := q.sent, broken := q.broken)
    && (q.sent == p.sent || (|q.sent| == |p.sent| + 1 && p.sent < q.sent && q.sent[|p.sent|] <= Encode(cmd)))
    && (ok && !q.broken ==> q.sent == p.sent + [Encode(cmd)])
  }

  lemma EncodeIsFlat(c: Command)
    ensures [] + Flatten(WriteCalls(c)) == Encode(c)
  {
  }

  lemma FlattenEnd(buf: seq<Byte>)
    ensures buf + Flatten([]) == buf
  {
  }

  lemma FlattenNext(buf: seq<Byte>, calls: seq<seq<Byte>>, i: nat)
    requires i < |calls|
    ensures calls[i..] != [] && calls[i..][0] == calls[i] && calls[i..][1..] == calls[i + 1..]
    ensures buf + Flatten(calls[i..]) == (buf + calls[i]) + Flatten(calls[i + 1..])
  {
    assert calls[i..][1..] == calls[i + 1..];
  }

  lemma PrefixHolds(trace: seq<Event>, role: Role, origin: Uuid, p: Peer, who: Who)
    requires Run(Start(role, origin), trace) == Some(p) && p.TaskOf(who).Writing?
    ensures p.TaskOf(who).buf <= Encode(p.TaskOf(who).cmd)
  {
    hide Encode, Flatten, Start, Run, LockInv, RoleInv, RecvInv, AckInv, SendInv, HelloInv, SidInv;
    StartInv(role, origin);
    InvRun(Start(role, origin), trace);
  }
}
