/**
 One end of a session of the older corp-relay protocol as a machine: every message from ssh goes out behind a
 4-byte count of the bytes received so far, kept in 24 bits; a high byte that is not zero marks a failed end.
 */
module CorpRelay {
  import opened Bytes
  import opened Bits

  const ACK_BYTE_SIZE := 4
  const ACK_ERR_MASK := 0xff00_0000
  const CHUNK_SIZE := 0xff_ffff

  type U32 = n: int | 0 <= n < TWO_32

  /** A WebSocket message. */
  datatype Frame = Binary(bytes: seq<Byte>) | Text(text: seq<Byte>) | Other

  datatype AckResult = AckOk(ack: U32) | ShortRead | InvalidAck(ack: U32)

  // ---- counter and ack field

  /** `(c + uint32(n)) & ChunkSize`. */
  function IncCounter(c: U32, n: nat): U32 {
    ((c + n % TWO_32) % TWO_32) % TWO_24
  }

  /** `c | AckErrMask`. */
  function Mark(c: U32): U32 {
    ACK_ERR_MASK + c % TWO_24
  }

  function WriteAck(c: U32): seq<Byte> {
    ToBE(c, ACK_BYTE_SIZE)
  }

  function ReadAck(b: seq<Byte>): AckResult {
    if |b| < ACK_BYTE_SIZE then ShortRead
    else
      ToFromBE(b[..ACK_BYTE_SIZE]);
      Widths();
      var ack := FromBE(b[..ACK_BYTE_SIZE]);
      if ack > CHUNK_SIZE then InvalidAck(ack) else AckOk(ack)
  }

  /** The bytes for ssh in a message, or None if `runWS` stops on it. Text is ignored. */
  function Take(f: Frame): Option<seq<Byte>> {
    match f
    case Binary(b) => if ReadAck(b).AckOk? then Some(b[ACK_BYTE_SIZE..]) else None
    case Text(_) => Some([])
    case Other => None
  }

  // ---- the machine

  datatype Who = RunSSH | RunWS

  datatype SshTask =
    | Reading
    | Holding(chunk: seq<Byte>)
    | Opened(chunk: seq<Byte>)                    // has a writer
    | Acked(chunk: seq<Byte>, buf: seq<Byte>)     // the count is written
    | Closing(buf: seq<Byte>, failed: bool)
    | SshStopped
  {
    predicate HasWriter() {
      Opened? || Acked? || Closing?
    }
  }

  datatype WsTask = Awaiting | Delivering(data: seq<Byte>) | WsStopped

  /** `Run` itself: it waits for the first error, then sends one last frame that marks the failure. */
  datatype Main =
    | Waiting
    | Reported(who: Who)
    | FinalOpen(who: Who)
    | Marked(who: Who, cleared: bool)              // cleared: `incCounter` ran after the mark was set
    | FinalClosing(who: Who, buf: seq<Byte>)
    | Ended

  /** As in V4Peer, the four logs and `broken` are not state of the code. */
  datatype Peer = Peer(
    c: U32, ssh: SshTask, ws: WsTask, main: Main, broken: bool,
    read: seq<Byte>, delivered: seq<Byte>, got: seq<Frame>, sent: seq<Frame>)

  datatype Event =
    | SshRead(chunk: seq<Byte>)
    | SshReadFail
    | Open
    | OpenFail
    | PutAck
    | PutAckFail(n: nat)
    | PutData
    | PutDataFail(n: nat)
    | Flush
    | FlushLost
    | Report(text: seq<Byte>)                     // a latency report of a peer that sends them
    | Receive(f: Frame)
    | ReceiveFail
    | Deliver
    | DeliverFail(n: nat)
    | TakeError(who: Who)
    | OpenFinal
    | OpenFinalFail
    | SetMark
    | PutFinal
    | PutFinalFail(n: nat)
    | FlushFinal
    | FlushFinalLost

  /** The events in which an I/O call misbehaves; all of `Run`'s last words follow from one. */
  predicate Fault(e: Event) {
    match e
    case SshReadFail => true
    case OpenFail => true
    case PutAckFail(_) => true
    case PutDataFail(_) => true
    case FlushLost => true
    case ReceiveFail => true
    case DeliverFail(_) => true
    case OpenFinalFail => true
    case PutFinalFail(_) => true
    case FlushFinalLost => true
    case _ => false
  }

  /** Two writers on one WebSocket are outside the model: each side opens its own only while the other has none. */
  predicate MainHasWriter(m: Main) {
    m.FinalOpen? || m.Marked? || m.FinalClosing?
  }

  function Handle(p: Peer, f: Frame): Peer {
    match Take(f)
    case None => p.(ws := WsStopped)
    case Some(data) =>
      if f.Text? then p
      else
        var main := if p.main.Marked? then Marked(p.main.who, true) else p.main;
        p.(c := IncCounter(p.c, |data|), ws := Delivering(data), main := main)
  }

  function SshStep(p: Peer, e: Event): Option<Peer> {
    var t := p.ssh;
    match e
    case SshRead(chunk) =>
      if t.Reading? && |chunk| <= CHUNK_SIZE then Some(p.(read := p.read + chunk, ssh := Holding(chunk))) else None
    case SshReadFail =>
      if t.Reading? then Some(p.(ssh := SshStopped)) else None
    case Open =>
      if t.Holding? && !p.broken && !MainHasWriter(p.main) then Some(p.(ssh := Opened(t.chunk))) else None
    case OpenFail =>
      if t.Holding? then Some(p.(ssh := SshStopped)) else None
    case PutAck =>
      if t.Opened? then Some(p.(ssh := Acked(t.chunk, WriteAck(p.c)))) else None
    case PutAckFail(n) =>
      if t.Opened? && n <= ACK_BYTE_SIZE then Some(p.(ssh := Closing(WriteAck(p.c)[..n], true))) else None
    case PutData =>
      if t.Acked? then Some(p.(ssh := Closing(t.buf + t.chunk, false))) else None
    case PutDataFail(n) =>
      if t.Acked? && n <= |t.chunk| then Some(p.(ssh := Closing(t.buf + t.chunk[..n], true))) else None
    case Flush =>
      if t.Closing?
      then Some(p.(ssh := if t.failed then SshStopped else Reading, sent := p.sent + [Binary(t.buf)])) else None
    case FlushLost =>
      if t.Closing? then Some(p.(ssh := if t.failed then SshStopped else Reading, broken := true)) else None
    case Report(text) =>
      if !t.HasWriter() && !MainHasWriter(p.main) && !p.broken then Some(p.(sent := p.sent + [Text(text)])) else None
    case _ => None
  }

  function WsStep(p: Peer, e: Event): Option<Peer> {
    match e
    case Receive(f) =>
      if p.ws.Awaiting? then Some(Handle(p.(got := p.got + [f]), f)) else None
    case ReceiveFail =>
      if p.ws.Awaiting? then Some(p.(ws := WsStopped)) else None
    case Deliver =>
      if p.ws.Delivering? then Some(p.(delivered := p.delivered + p.ws.data, ws := Awaiting)) else None
    case DeliverFail(n) =>
      if p.ws.Delivering? && n <= |p.ws.data|
      then Some(p.(delivered := p.delivered + p.ws.data[..n], ws := WsStopped)) else None
    case _ => None
  }

  function MainStep(p: Peer, e: Event): Option<Peer> {
    var m := p.main;
    match e
    case TakeError(who) =>
      if m.Waiting? && (if who == RunSSH then p.ssh.SshStopped? else p.ws.WsStopped?)
      then Some(p.(main := Reported(who))) else None
    case OpenFinal =>
      if m.Reported? && !p.broken && !p.ssh.HasWriter() then Some(p.(main := FinalOpen(m.who))) else None
    case OpenFinalFail =>
      if m.Reported? then Some(p.(main := Ended)) else None
    case SetMark =>
      if m.FinalOpen? then Some(p.(c := Mark(p.c), main := Marked(m.who, false))) else None
    case PutFinal =>
      if m.Marked? then Some(p.(main := FinalClosing(m.who, WriteAck(p.c)))) else None
    case PutFinalFail(n) =>
      if m.Marked? && n <= ACK_BYTE_SIZE then Some(p.(main := FinalClosing(m.who, WriteAck(p.c)[..n]))) else None
    case FlushFinalLost =>
      if m.FinalClosing? then Some(p.(main := Ended, broken := true)) else None
    case FlushFinal =>
      if m.FinalClosing? then Some(p.(main := Ended, sent := p.sent + [Binary(m.buf)])) else None
    case _ => None
  }

  function Step(p: Peer, e: Event): Option<Peer> {
    match e
    case Receive(_) => WsStep(p, e)
    case ReceiveFail => WsStep(p, e)
    case Deliver => WsStep(p, e)
    case DeliverFail(_) => WsStep(p, e)
    case TakeError(_) => MainStep(p, e)
    case OpenFinal => MainStep(p, e)
    case OpenFinalFail => MainStep(p, e)
    case SetMark => MainStep(p, e)
    case PutFinal => MainStep(p, e)
    case PutFinalFail(_) => MainStep(p, e)
    case FlushFinal => MainStep(p, e)
    case FlushFinalLost => MainStep(p, e)
    case _ => SshStep(p, e)
  }

  const START := Peer(0, Reading, Awaiting, Waiting, false, [], [], [], [])

  function Run(p: Peer, es: seq<Event>): Option<Peer>
    decreases es
  {
    if es == [] then Some(p)
    else
      match Step(p, es[0])
      case None => None
      case Some(next) => Run(next, es[1..])
  }

  // ---- what a log of messages means

  predicate Clean(log: seq<Frame>) {
    forall i :: 0 <= i < |log| ==> Take(log[i]).Some?
  }

  /** The bytes for ssh in a log, up to the first message that stops the receiver. */
  function Taken(log: seq<Frame>): seq<Byte> {
    if log == [] then []
    else
      var n := |log| - 1;
      Taken(log[..n]) + if Clean(log) then Take(log[n]).value else []
  }

  lemma TakenSnoc(log: seq<Frame>, f: Frame)
    ensures Clean(log + [f]) <==> Clean(log) && Take(f).Some?
    ensures Taken(log + [f]) == Taken(log) + if Clean(log) && Take(f).Some? then Take(f).value else []
  {
    hide Take;
    var all := log + [f];
    assert all[..|log|] == log && all[|log|] == f;
    assert forall i :: 0 <= i < |log| ==> all[i] == log[i];
  }

  lemma {:induction false} TakenPrefix(p: seq<Frame>, q: seq<Frame>)
    requires p <= q
    ensures Taken(p) <= Taken(q)
    ensures Clean(q) ==> Clean(p)
  {
    hide Take;
    if p != q {
      TakenPrefix(p, q[..|q| - 1]);
    } else {
      assert p == q;
    }
  }

  // ---- the ack field

  /** Reading what `writeAck` wrote gives the value back exactly up to 0xffffff, and an error above. */
  lemma AckRoundTrip(c: U32, rest: seq<Byte>)
    ensures ReadAck(WriteAck(c) + rest) == if c <= 0xff_ffff then AckOk(c) else InvalidAck(c)
    ensures Take(Binary(WriteAck(c) + rest)) == if c <= 0xff_ffff then Some(rest) else None
  {
    var b := WriteAck(c) + rest;
    assert b[..ACK_BYTE_SIZE] == WriteAck(c) && b[ACK_BYTE_SIZE..] == rest;
    Widths();
    FromToBE(c, ACK_BYTE_SIZE);
  }

  /** The two masks of the code, on the bits of 32-bit words, are the arithmetic of the model. */
  lemma MasksAreMod(c: U32, n: nat)
    ensures IncCounter(c, n) == And((c + n % 0x1_0000_0000) % 0x1_0000_0000, 0xff_ffff)
    ensures Mark(c) == Or(c, 0xff00_0000)
  {
    hide And, Or, Pow2, Shift, Drop, Ones, Low;
    var x := (c + n % 0x1_0000_0000) % 0x1_0000_0000;
    Powers();
    OnesIs(24);
    AndOnes(x, 24);
    LowIs(x, 24);
    OnesIs(8);
    OrHigh(c, 24, 0xff);
    DropIs(c, 24);
    OrOnes(Drop(c, 24), 8);
    ShiftIs(0xff, 24);
    LowIs(c, 24);
  }

  /** An ack field is good exactly when it is there and its first byte is zero. */
  lemma GoodAck(b: seq<Byte>)
    ensures ReadAck(b).AckOk? <==> |b| >= 4 && b[0] == 0
  {
    if |b| >= 4 {
      var t := b[..4];
      var ack := FromBE(t);
      ToFromBE(t);
      Widths();
      ToBEAt(ack, 4, 0);
      assert Pow256(3) == 0x100_0000;
    }
  }

  /** The first byte of a marked count is 0xff, and of one that is not marked 0; the others are the 24-bit count. */
  lemma MarkedFront(c: U32)
    ensures WriteAck(Mark(c))[0] == 0xff && WriteAck(c % 0x100_0000)[0] == 0
    ensures WriteAck(Mark(c))[1..] == WriteAck(c)[1..]
  {
    hide ToBE;
    assert Pow256(1) == 0x100 && Pow256(2) == 0x1_0000 && Pow256(3) == 0x100_0000;
    ToBEAt(Mark(c), 4, 0);
    ToBEAt(c % 0x100_0000, 4, 0);
    assert Pow256(0) == 1;
    hide Pow256, Mark;
    LowBytes(c);
    forall k | 1 <= k < 4 ensures WriteAck(Mark(c))[k] == WriteAck(c)[k] {
      ToBEAt(Mark(c), 4, k);
      ToBEAt(c, 4, k);
    }
  }

  lemma LowBytes(c: U32)
    ensures var m := Mark(c);
            m / 0x1_0000 % 256 == c / 0x1_0000 % 256 && m / 0x100 % 256 == c / 0x100 % 256 && m % 256 == c % 256
  {
    LowByte(c / 0x100_0000, c % 0x100_0000);
    LowByte(0xff, c % 0x100_0000);
    assert c == 0x100_0000 * (c / 0x100_0000) + c % 0x100_0000;
  }

  lemma LowByte(h: nat, r: nat)
    requires r < 0x100_0000
    ensures var x := 0x100_0000 * h + r;
            x / 0x1_0000 % 256 == r / 0x1_0000 && x / 0x100 % 256 == r / 0x100 % 256 && x % 256 == r % 256
  {
    var x := 0x100_0000 * h + r;
    var a, b := r / 0x1_0000, r / 0x100;
    DivIs(x, 0x1_0000, 0x100 * h + a, r % 0x1_0000);
    DivIs(0x100 * h + a, 256, h, a);
    DivIs(x, 0x100, 0x1_0000 * h + b, r % 0x100);
    DivIs(0x1_0000 * h + b, 256, 0x100 * h + b / 256, b % 256);
  }

  lemma Rem24(x: nat, q: nat, r: nat)
    requires x == TWO_24 * q + r && r < TWO_24
    ensures x % TWO_24 == r
  {
  }

  lemma Mod32Mod24(x: nat)
    ensures (x % TWO_32) % TWO_24 == x % TWO_24
  {
    var k, r := x / TWO_32, x % TWO_32;
    Rem24(x, 256 * k + r / TWO_24, r % TWO_24);
  }

  /** The counter counts modulo 2^24, whatever was cut off or overflowed on the way. */
  lemma IncCounterCounts(c: U32, n: nat)
    ensures IncCounter(c, n) == (c + n) % TWO_24
  {
    var k, r := n / TWO_32, n % TWO_32;
    Mod32Mod24(c + r);
    var x := c + r;
    assert c + n == TWO_24 * (256 * k + x / TWO_24) + x % TWO_24;
    Rem24(c + n, 256 * k + x / TWO_24, x % TWO_24);
  }
}
