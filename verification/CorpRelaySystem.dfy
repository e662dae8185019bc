/** Two corp-relay sessions joined by a WebSocket implement the same duplex byte pipe as the v4 protocol. */
module CorpRelaySystem {
  import opened Bytes
  import opened BytePipe
  import opened CorpRelay
  import opened CorpRelayProofs

  datatype Side = Helper | Relay

  datatype System = System(helper: Peer, relay: Peer) {
    function End(side: Side): Peer {
      if side == Helper then helper else relay
    }

    function Far(side: Side): Peer {
      if side == Helper then relay else helper
    }

    function With(side: Side, p: Peer): System {
      if side == Helper then this.(helper := p) else this.(relay := p)
    }
  }

  datatype Move = Move(side: Side, event: Event)

  function InFlight(from: Peer, to: Peer): seq<Frame>
    requires |to.got| <= |from.sent|
  {
    from.sent[|to.got|..]
  }

  predicate Arrives(s: System, side: Side, f: Frame) {
    var p, far := s.End(side), s.Far(side);
    |p.got| < |far.sent| && far.sent[|p.got|] == f
  }

  function Next(s: System, mv: Move): Option<System> {
    if mv.event.Receive? && !Arrives(s, mv.side, mv.event.f) then None
    else
      match Step(s.End(mv.side), mv.event)
      case None => None
      case Some(p) => Some(s.With(mv.side, p))
  }

  const INIT := System(START, START)

  function Exec(s: System, mvs: seq<Move>): Option<System>
    decreases mvs
  {
    if mvs == [] then Some(s)
    else
      match Next(s, mvs[0])
      case None => None
      case Some(next) => Exec(next, mvs[1..])
  }

  predicate SysInv(s: System) {
    && Inv(s.helper) && Inv(s.relay)
    && s.helper.got <= s.relay.sent && s.relay.got <= s.helper.sent
  }

  lemma LogsGrow(p: Peer, e: Event, q: Peer)
    requires Step(p, e) == Some(q)
    ensures q.got == if e.Receive? then p.got + [e.f] else p.got
    ensures p.sent <= q.sent && p.read <= q.read && p.delivered <= q.delivered
    ensures q.read == p.read || q.delivered == p.delivered
    ensures q.read == if e.SshRead? then p.read + e.chunk else p.read
  {
    hide Take, WriteAck, IncCounter, Mark;
  }

  lemma SysStep(s: System, mv: Move, t: System)
    requires SysInv(s) && Next(s, mv) == Some(t)
    ensures SysInv(t)
  {
    hide Inv, Step;
    InvStep(s.End(mv.side), mv.event, t.End(mv.side));
    LogsGrow(s.End(mv.side), mv.event, t.End(mv.side));
  }

  // ---- refinement

  function Abs(s: System): Duplex {
    Duplex(Pipe(s.helper.read, s.relay.delivered), Pipe(s.relay.read, s.helper.delivered))
  }

  lemma DeliveredPrefix(near: Peer, far: Peer)
    requires Inv(near) && Inv(far) && far.got <= near.sent
    ensures far.delivered <= near.read
  {
    hide Taken, Clean, WriterInv, ReporterInv, CountInv, CleanInv;
    TakenPrefix(far.got, near.sent);
    PrefixTrans(far.delivered, Taken(far.got), Taken(near.sent));
    PrefixTrans(far.delivered, Taken(near.sent), near.read);
  }

  lemma StepRefines(s: System, mv: Move, t: System)
    requires SysInv(s) && Next(s, mv) == Some(t)
    ensures Abs(s).Next(Abs(t))
  {
    SysStep(s, mv, t);
    hide Step, Inv;
    DeliveredPrefix(t.helper, t.relay);
    DeliveredPrefix(t.relay, t.helper);
    LogsGrow(s.End(mv.side), mv.event, t.End(mv.side));
  }

  function Trace(s: System, mvs: seq<Move>): seq<Duplex>
    requires Exec(s, mvs).Some?
    decreases mvs
  {
    [Abs(s)] + if mvs == [] then [] else Trace(Next(s, mvs[0]).value, mvs[1..])
  }

  lemma {:induction false} TraceSteps(s: System, mvs: seq<Move>)
    requires SysInv(s) && Exec(s, mvs).Some?
    ensures var tr := Trace(s, mvs); |tr| == |mvs| + 1 && tr[0] == Abs(s) && tr[|mvs|] == Abs(Exec(s, mvs).value)
    ensures var tr := Trace(s, mvs); forall i :: 0 <= i < |tr| - 1 ==> tr[i].Next(tr[i + 1])
    decreases mvs
  {
    hide Next, SysInv, Abs, Duplex.Next;
    if mvs != [] {
      var next := Next(s, mvs[0]).value;
      SysStep(s, mvs[0], next);
      StepRefines(s, mvs[0], next);
      TraceSteps(next, mvs[1..]);
      var tr := Trace(s, mvs);
      assert tr[1..] == Trace(next, mvs[1..]);
      assert forall i :: 0 < i < |tr| ==> tr[i] == tr[1..][i - 1];
    }
  }

  /** Every run of two corp-relay ends, failures and text messages included, is a behaviour of the duplex byte pipe. */
  lemma RefinesPipe(mvs: seq<Move>)
    requires Exec(INIT, mvs).Some?
    ensures IsBehaviour(Trace(INIT, mvs)) && |Trace(INIT, mvs)| == |mvs| + 1
    ensures var s, end := Exec(INIT, mvs).value, Trace(INIT, mvs)[|mvs|];
            && end.up == Pipe(s.helper.read, s.relay.delivered)
            && end.down == Pipe(s.relay.read, s.helper.delivered)
  {
    StartInv();
    hide Inv, Exec, Trace;
    TraceSteps(INIT, mvs);
  }

  /** Whatever failed, each ssh was given a prefix of what the other ssh sent. */
  lemma EveryStateIsValid(mvs: seq<Move>)
    requires Exec(INIT, mvs).Some?
    ensures var s := Exec(INIT, mvs).value;
            s.relay.delivered <= s.helper.read && s.helper.delivered <= s.relay.read
  {
    RefinesPipe(mvs);
    hide Exec, Trace;
    BehaviourIsValid(Trace(INIT, mvs), |mvs|);
  }

  // ---- without failures

  predicate Healthy(p: Peer) {
    !p.ssh.SshStopped? && !p.ws.WsStopped? && p.main.Waiting? && !p.broken && !Failing(p)
  }

  predicate Honest(s: System) {
    SysInv(s) && Healthy(s.helper) && Healthy(s.relay)
  }

  lemma HealthyStep(p: Peer, e: Event, q: Peer)
    requires Healthy(p) && !Fault(e) && Step(p, e) == Some(q) && (e.Receive? ==> Take(e.f).Some?)
    ensures Healthy(q)
  {
    hide Take, IncCounter, WriteAck, Mark;
  }

  lemma HonestStep(s: System, mv: Move, t: System)
    requires Honest(s) && !Fault(mv.event) && Next(s, mv) == Some(t)
    ensures Honest(t)
  {
    SysStep(s, mv, t);
    hide WriterInv, ReporterInv, CountInv, RecvInv, SendInv, Step, Take, Taken;
    HealthyStep(s.End(mv.side), mv.event, t.End(mv.side));
  }

  predicate FaultFree(mvs: seq<Move>) {
    forall i :: 0 <= i < |mvs| ==> !Fault(mvs[i].event)
  }

  /** Without I/O failures no frame is ever rejected by `readAck`, and neither end ever stops. */
  lemma {:induction false} NoFalseAlarms(s: System, mvs: seq<Move>)
    requires Honest(s) && FaultFree(mvs) && Exec(s, mvs).Some?
    ensures Honest(Exec(s, mvs).value)
    decreases mvs
  {
    hide Next, Honest;
    if mvs != [] {
      var next := Next(s, mvs[0]).value;
      HonestStep(s, mvs[0], next);
      NoFalseAlarms(next, mvs[1..]);
    }
  }

  lemma InitHonest()
    ensures Honest(INIT)
  {
    StartInv();
    hide Inv;
  }

  /** What is still to be taken from a clean log after its first `n` messages. */
  lemma {:induction false} TakenSplit(log: seq<Frame>, n: nat)
    requires Clean(log) && n <= |log|
    ensures Clean(log[..n]) && Clean(log[n..])
    ensures Taken(log) == Taken(log[..n]) + Taken(log[n..])
  {
    hide Take;
    if n == |log| {
      assert log[..n] == log && log[n..] == [];
    } else {
      var k := |log| - 1;
      var init, tail, f := log[..k], log[n..k], log[k];
      assert log == init + [f] && log[n..] == tail + [f] && init[n..] == tail && init[..n] == log[..n];
      assert Clean(init);
      TakenSplit(init, n);
      hide Taken, Clean;
      TakenSnoc(init, f);
      TakenSnoc(tail, f);
      SplitSum(Taken(log[..n]), Taken(tail), Take(f).value, Taken(init), Taken(log), Taken(log[n..]));
    }
  }

  lemma SplitSum<T>(a: seq<T>, b: seq<T>, c: seq<T>, ab: seq<T>, all: seq<T>, bc: seq<T>)
    requires ab == a + b && all == ab + c && bc == b + c
    ensures all == a + bc
  {
  }

  /** Delivered, being delivered, in flight and held, in this order, are the bytes read at the near end. */
  lemma BytesConserved(s: System, side: Side)
    requires Honest(s)
    ensures var near, far := s.End(side), s.Far(side);
            far.delivered + Pending(far) + Taken(InFlight(near, far)) + Held(near) == near.read
  {
    hide Taken, Clean, Held, WriterInv, ReporterInv, CountInv;
    var near, far := s.End(side), s.Far(side);
    TakenSplit(near.sent, |far.got|);
    assert near.sent[..|far.got|] == far.got;
  }

  /** A whole run without I/O failures: nobody stopped, and every byte is accounted for. */
  lemma FaultFreeRun(mvs: seq<Move>, side: Side)
    requires FaultFree(mvs) && Exec(INIT, mvs).Some?
    ensures var s := Exec(INIT, mvs).value;
            var near, far := s.End(side), s.Far(side);
            && !near.ssh.SshStopped? && !near.ws.WsStopped? && |far.got| <= |near.sent|
            && far.delivered + Pending(far) + Taken(InFlight(near, far)) + Held(near) == near.read
  {
    InitHonest();
    NoFalseAlarms(INIT, mvs);
    var s := Exec(INIT, mvs).value;
    hide Inv, Exec, Taken, Held, Clean;
    BytesConserved(s, side);
  }
}
