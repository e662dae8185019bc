/**
 One end of a corp-relay-v4 session as a machine.

 Two goroutines, `runSSH` and `runWS`, share one WebSocket writer under a mutex. Every call that may block or
 fail is one event, down to the single `Write` calls on an open writer, so that a sequence of events is an
 interleaving of the two goroutines with any pattern of failures.
 */
module V4Peer {
  import opened Bytes
  import opened Command
  import opened Uuid

  datatype Role = Server | Client

  datatype Who = RunSSH | RunWS

  /** Where a goroutine is. Idle is the blocking read that starts each round of its loop. */
  datatype Task =
    | Idle
    | Delivering(data: seq<Byte>)   // runWS is about to write these bytes to ssh
    | Wanting(cmd: Command)         // waits for the mutex to send this command
    | Locked(cmd: Command)          // has the mutex, no writer yet
    | Writing(cmd: Command, buf: seq<Byte>, todo: seq<seq<Byte>>, failed: bool)
    | Stopped                       // reported an error and returned
  {
    predicate HasLock() {
      Locked? || Writing?
    }

    predicate Sends() {
      Wanting? || Locked? || Writing?
    }
  }

  /**
   `read` holds the bytes read from ssh without an error, `delivered` those that ssh took, `got` and `sent` the
   WebSocket messages received and flushed. The code does not keep these four; no step depends on them.
   `broken` is the WebSocket's own memory of a failed flush, after which it opens no writer.
   */
  datatype Peer = Peer(
    role: Role, sid: Uuid, rCount: U64, wCount: U64,
    mu: Option<Who>, ssh: Task, ws: Task, broken: bool,
    read: seq<Byte>, delivered: seq<Byte>, got: seq<Message>, sent: seq<Message>)
  {
    function TaskOf(who: Who): Task {
      if who == RunSSH then ssh else ws
    }

    function With(who: Who, t: Task): Peer {
      if who == RunSSH then this.(ssh := t) else this.(ws := t)
    }
  }

  // ---- what a received message does

  datatype Verdict =
    | Reject                        // an error; nothing changed
    | SetSid(sid: Uuid)
    | BadSid(partial: Uuid)         // an error, yet the field was assigned
    | NewAck(ack: U64)
    | Accept(data: seq<Byte>)

  /** `int(ack - wCount)` on a 64-bit platform. */
  function AckDiff(wCount: U64, ack: U64): int {
    var d := (ack - wCount) % TWO_64;
    if d < TWO_63 then d else d - TWO_64
  }

  function Dispatch(role: Role, sid: Uuid, wCount: U64, m: Message): Verdict {
    match Unmarshal(m)
    case Err(_) => Reject
    case Ok(ConnectSuccess(text)) =>
      if role != Client || sid != NIL then Reject
      else (match Parse(text) case Good(u) => SetSid(u) case Bad(u) => BadSid(u))
    case Ok(ReconnectSuccess(_)) => Reject
    case Ok(Data(data)) => Accept(data)
    case Ok(Ack(ack)) =>
      var diff := AckDiff(wCount, ack);
      if diff == 0 then NewAck(wCount) else if diff < 0 then Reject else NewAck(ack)
  }

  function Handle(p: Peer, m: Message): Peer {
    match Dispatch(p.role, p.sid, p.wCount, m)
    case Reject => p.(ws := Stopped)
    case SetSid(u) => p.(sid := u)
    case BadSid(u) => p.(sid := u, ws := Stopped)
    case NewAck(a) => p.(wCount := a)
    case Accept(data) => p.(rCount := (p.rCount + |data|) % TWO_64, ws := Delivering(data))
  }

  // ---- the machine

  /** The steps of sending one command; both goroutines go through them. */
  datatype Act =
    | Acquire
    | Open
    | OpenFail
    | Write
    | WriteFail(n: nat)             // the writer took n bytes of the call and failed
    | Flush                         // closing the writer put the message on the wire
    | FlushLost                     // closing the writer failed; the code ignores that error

  datatype Event =
    | SshRead(chunk: seq<Byte>)
    | SshReadFail
    | Send(who: Who, act: Act)
    | Receive(m: Message)
    | ReceiveFail                   // read error, or a message that is not binary
    | Deliver
    | DeliverFail(k: nat)           // ssh took k bytes and failed

  /** The events in which some I/O call misbehaves; a read that returns nothing without an error is one. */
  predicate Fault(e: Event) {
    match e
    case SshRead(chunk) => chunk == []
    case Send(_, act) => act.OpenFail? || act.WriteFail? || act.FlushLost?
    case Receive(_) => false
    case Deliver => false
    case _ => true
  }

  /** Where an act takes the goroutine that does it, given whether the mutex is free and the WebSocket broken. */
  function TaskAfter(t: Task, free: bool, broken: bool, act: Act): Option<Task> {
    match act
    case Acquire =>
      if t.Wanting? && free then Some(Locked(t.cmd)) else None
    case Open =>
      // The command is built once the writer is there; a command that fails its checks is never written.
      if t.Locked? && !broken then Some(Writing(t.cmd, [], WriteCalls(t.cmd), !t.cmd.Valid())) else None
    case OpenFail =>
      if t.Locked? then Some(Stopped) else None
    case Write =>
      if t.Writing? && !t.failed && t.todo != []
      then Some(Writing(t.cmd, t.buf + t.todo[0], t.todo[1..], false)) else None
    case WriteFail(n) =>
      if t.Writing? && !t.failed && t.todo != [] && n <= |t.todo[0]|
      then Some(Writing(t.cmd, t.buf + t.todo[0][..n], t.todo, true)) else None
    case _ =>
      if t.Writing? && (t.failed || t.todo == []) then Some(if t.failed then Stopped else Idle) else None
  }

  /** Taking the mutex comes first; each way out of sending, good or bad, releases it. */
  function MutexAfter(mu: Option<Who>, who: Who, act: Act): Option<Who> {
    match act
    case Acquire => Some(who)
    case Open => mu
    case Write => mu
    case WriteFail(_) => mu
    case _ => None
  }

  function SendStep(p: Peer, who: Who, act: Act): Option<Peer> {
    var t := p.TaskOf(who);
    match TaskAfter(t, p.mu.None?, p.broken, act)
    case None => None
    case Some(next) =>
      Some(p.With(who, next).(
        mu := MutexAfter(p.mu, who, act),
        broken := p.broken || act.FlushLost?,
        sent := if act.Flush? then p.sent + [t.buf] else p.sent))
  }

  function Step(p: Peer, e: Event): Option<Peer> {
    match e
    case SshRead(chunk) =>
      if p.ssh.Idle? && |chunk| <= MAX_ARRAY_LEN
      then Some(p.(read := p.read + chunk, ssh := Wanting(Data(chunk)))) else None
    case SshReadFail =>
      if p.ssh.Idle? then Some(p.(ssh := Stopped)) else None
    case Send(who, act) => SendStep(p, who, act)
    case Receive(m) =>
      if p.ws.Idle? then Some(Handle(p.(got := p.got + [m]), m)) else None
    case ReceiveFail =>
      if p.ws.Idle? then Some(p.(ws := Stopped)) else None
    case Deliver =>
      if p.ws.Delivering?
      then Some(p.(delivered := p.delivered + p.ws.data, ws := Wanting(Ack(p.rCount)))) else None
    case DeliverFail(k) =>
      if p.ws.Delivering? && k <= |p.ws.data|
      then Some(p.(delivered := p.delivered + p.ws.data[..k], ws := Stopped)) else None
  }

  /** A fresh session: the server starts by sending its identifier. */
  function Start(role: Role, sid: Uuid): Peer {
    Peer(role, if role == Server then sid else NIL, 0, 0, None,
         if role == Server then Wanting(ConnectSuccess(Format(sid))) else Idle,
         Idle, false, [], [], [], [])
  }

  /** The state after a sequence of events; None when one of them was not possible. */
  function Run(p: Peer, es: seq<Event>): Option<Peer>
    decreases es
  {
    if es == [] then Some(p)
    else
      match Step(p, es[0])
      case None => None
      case Some(next) => Run(next, es[1..])
  }
}
