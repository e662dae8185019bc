/**
 Runs of the corp-relay-v4 client/server system in which no I/O call fails: nothing is ever taken for an error,
 bytes and acks are conserved exactly, and whatever was read gets through under every schedule.
 */
module V4FaultFree {
  import opened Bytes
  import opened Command
  import opened Uuid
  import opened V4Log
  import opened V4Peer
  import opened V4PeerProofs
  import opened V4System
  import opened V4Honest

  /** A state that some run without failures leads to, from the start of a session. */
  ghost predicate Reached(s: System) {
    exists sid, mvs :: Exec(Init(sid), mvs) == Some(s) && FaultFree(mvs)
  }

  lemma ReachedHonest(s: System)
    requires Reached(s)
    ensures Honest(s)
  {
    hide Honest, Init;
    var sid, mvs :| Exec(Init(sid), mvs) == Some(s) && FaultFree(mvs);
    InitHonest(sid);
    NoFalseAlarms(Init(sid), mvs);
  }

  /** However long the run, also after the counters wrapped: nobody has stopped, and what arrives next is accepted. */
  lemma NeverAlarmed(s: System, side: Role)
    requires Reached(s)
    ensures !s.End(side).ssh.Stopped? && !s.End(side).ws.Stopped?
    ensures forall m :: s.End(side).ws.Idle? && Arrives(s, side, m) ==> !Handle(s.End(side), m).ws.Stopped?
  {
    ReachedHonest(s);
    forall m | s.End(side).ws.Idle? && Arrives(s, side, m) ensures !Handle(s.End(side), m).ws.Stopped? {
      hide Handle, Inv, Healthy;
      NoAlarm(s, side, m);
    }
    hide Inv, Handle;
  }

  /** Delivered, being delivered, in flight and held by `runSSH`, in this order, are the bytes read at the near end. */
  lemma BytesAccounted(s: System, side: Role)
    requires Reached(s)
    ensures var near, far := s.End(side), s.Far(side);
            && |far.got| <= |near.sent|
            && far.delivered + Pending(far) + Payload(Commands(InFlight(near, far))) + Held(near) == near.read
  {
    ReachedHonest(s);
    hide Inv, Healthy, Commands, Payload;
    BytesConserved(s, side);
  }

  /**
   The acks that the near end took, those in flight to it and the one still to be sent are exactly the acks owed for
   the DATA that the far end received. They start just after the near end's `wCount` and end at the far end's
   `rCount`, each 1 to 16384 ahead of the one before.
   */
  lemma AcksAccounted(s: System, side: Role)
    requires Reached(s)
    ensures var near, far := s.End(side), s.Far(side);
            var owed, taken := AcksOwed(Commands(far.got)), Acks(Commands(near.got));
            && |near.got| <= |far.sent| && |taken| <= |owed|
            && taken + Acks(Commands(InFlight(far, near))) + (if AckPending(far) then [far.rCount] else []) == owed
            && near.wCount == Before(owed, |taken|)
            && far.rCount == Before(owed, |owed|)
            && forall i :: 0 <= i < |owed| ==> 1 <= Advance(Before(owed, i), owed[i]) <= MAX_ARRAY_LEN
  {
    ReachedHonest(s);
    hide Inv, Healthy, Commands, Acks, AcksOwed, Advance, Before;
    AcksConserved(s, side);
    var owed := AcksOwed(Commands(s.Far(side).got));
    forall i | 0 <= i < |owed| ensures 1 <= Advance(Before(owed, i), owed[i]) <= MAX_ARRAY_LEN {
      AcksAdvance(s.Far(side), i);
    }
  }

  /** At rest, the client knows the server's identifier, all bytes have arrived, and the counters agree modulo 2^64. */
  lemma RestAgrees(s: System, side: Role)
    requires Reached(s) && Quiet(s)
    ensures var near, far := s.End(side), s.Far(side);
            && far.delivered == near.read
            && near.wCount == far.rCount == |near.read| % TWO_64
    ensures s.client.sid == s.server.sid
  {
    hide Honest, Quiet, Reached;
    ReachedHonest(s);
    QuietAgrees(s, side);
  }

  /**
   However the goroutines are scheduled: without new input the system takes at most `Work(s)` steps; as long as it is
   not at rest some goroutine can go on; and when none can, it has taken exactly that many and delivered everything.
   */
  lemma EverySchedule(s: System, mvs: seq<Move>, t: System)
    requires Reached(s) && AllInternal(mvs) && Exec(s, mvs) == Some(t)
    ensures |mvs| <= Work(s)
    ensures Movable(t) <==> !Quiet(t)
    ensures Quiet(t) <==> |mvs| == Work(s)
    ensures Quiet(t) ==> t.server.delivered == t.client.read && t.client.delivered == t.server.read
  {
    hide Honest, Quiet, Work, Reached, Movable, Exec;
    ReachedHonest(s);
    EveryScheduleCounts(s, mvs);
    WorkIsNat(t);
    if Quiet(t) {
      QuietBytes(t, Client);
      QuietBytes(t, Server);
    } else {
      CanMove(t);
    }
    if Movable(t) {
      MovableWork(t);
    }
  }

  /** And there is always such a schedule. */
  lemma SomeSchedule(s: System)
    requires Reached(s)
    ensures exists mvs, t :: Exec(s, mvs) == Some(t) && AllInternal(mvs) && Quiet(t)
  {
    ReachedHonest(s);
    hide Honest, Reached;
    Drains(s);
  }

  // ---- whatever is put in comes out

  /** Bytes that the ssh connection of one end gives in one read. */
  datatype Input = Input(side: Role, chunk: seq<Byte>)

  /** All that the ssh connection of `side` gives. */
  function Given(inputs: seq<Input>, side: Role): seq<Byte> {
    if inputs == [] then []
    else
      var n := |inputs| - 1;
      Given(inputs[..n], side) + if inputs[n].side == side then inputs[n].chunk else []
  }

  lemma {:induction false} ExecAppend(s: System, a: seq<Move>, b: seq<Move>)
    requires Exec(s, a).Some?
    ensures Exec(s, a + b) == Exec(Exec(s, a).value, b)
    decreases a
  {
    hide Next;
    if a == [] {
      assert a + b == b;
    } else {
      assert (a + b)[1..] == a[1..] + b;
      ExecAppend(Next(s, a[0]).value, a[1..], b);
    }
  }

  lemma ReachedLater(s: System, mvs: seq<Move>)
    requires Reached(s) && FaultFree(mvs) && Exec(s, mvs).Some?
    ensures Reached(Exec(s, mvs).value)
  {
    hide Next, Init;
    var sid, before :| Exec(Init(sid), before) == Some(s) && FaultFree(before);
    ExecAppend(Init(sid), before, mvs);
    assert FaultFree(before + mvs);
  }

  lemma {:induction false} NothingRead(s: System, mvs: seq<Move>)
    requires AllInternal(mvs) && Exec(s, mvs).Some?
    ensures forall side :: Exec(s, mvs).value.End(side).read == s.End(side).read
    decreases mvs
  {
    if mvs != [] {
      var next := Next(s, mvs[0]).value;
      LogsGrow(s.End(mvs[0].side), mvs[0].event, next.End(mvs[0].side));
      assert forall side :: side != mvs[0].side ==> next.End(side) == s.End(side);
      hide Step;
      NothingRead(next, mvs[1..]);
    }
  }

  /** A state at rest that has the same bytes read. */
  lemma Settles(s: System)
    requires Reached(s)
    ensures exists t :: Reached(t) && Quiet(t) && forall side :: t.End(side).read == s.End(side).read
  {
    SomeSchedule(s);
    hide Reached, Quiet, Exec;
    var mvs, t :| Exec(s, mvs) == Some(t) && AllInternal(mvs) && Quiet(t);
    NothingRead(s, mvs);
    ReachedLater(s, mvs);
  }

  lemma CanRead(s: System, side: Role, chunk: seq<Byte>)
    requires Reached(s) && Quiet(s) && 1 <= |chunk| <= 16384
    ensures exists t :: Reached(t) && t.End(side).read == s.End(side).read + chunk
                        && forall other :: other != side ==> t.End(other).read == s.End(other).read
  {
    var mvs := [Move(side, SshRead(chunk))];
    assert mvs[1..] == [];
    var t := Next(s, mvs[0]).value;
    assert Exec(t, []) == Some(t) && Exec(s, mvs) == Exec(t, mvs[1..]);
    hide Reached;
    ReachedLater(s, mvs);
  }

  /** At rest, with these inputs taken in and no others. */
  ghost predicate Took(s: System, inputs: seq<Input>) {
    Reached(s) && Quiet(s) && forall side :: s.End(side).read == Given(inputs, side)
  }

  lemma TookNothing()
    ensures exists s :: Took(s, [])
  {
    var s := Init(NIL);
    assert Exec(Init(NIL), []) == Some(Init(NIL)) && FaultFree([]);
    assert forall side :: s.End(side).read == [];
    hide Reached, Quiet;
    Settles(s);
    var t :| Reached(t) && Quiet(t) && forall side :: t.End(side).read == s.End(side).read;
    assert Took(t, []);
  }

  lemma TakesOne(s: System, inputs: seq<Input>, x: Input)
    requires Took(s, inputs) && 1 <= |x.chunk| <= 16384
    ensures exists t :: Took(t, inputs + [x])
  {
    hide Reached, Quiet;
    CanRead(s, x.side, x.chunk);
    var t :| Reached(t) && t.End(x.side).read == s.End(x.side).read + x.chunk
             && forall other :: other != x.side ==> t.End(other).read == s.End(other).read;
    Settles(t);
    var u :| Reached(u) && Quiet(u) && forall side :: u.End(side).read == t.End(side).read;
    assert (inputs + [x])[..|inputs|] == inputs;
    assert Took(u, inputs + [x]);
  }

  lemma {:induction false} Takes(inputs: seq<Input>)
    requires forall i :: 0 <= i < |inputs| ==> 1 <= |inputs[i].chunk| <= 16384
    ensures exists s :: Took(s, inputs)
  {
    hide Took;
    if inputs == [] {
      TookNothing();
    } else {
      var n := |inputs| - 1;
      Takes(inputs[..n]);
      var s :| Took(s, inputs[..n]);
      TakesOne(s, inputs[..n], inputs[n]);
      assert inputs == inputs[..n] + [inputs[n]];
    }
  }

  /**
   Whatever the two ssh connections give, in whatever chunks and order, there is a run that takes it all in, and at
   whose end each has been given all that the other gave.
   */
  lemma GetsThrough(inputs: seq<Input>)
    requires forall i :: 0 <= i < |inputs| ==> 1 <= |inputs[i].chunk| <= 16384
    ensures exists s :: Reached(s) && Quiet(s)
                        && forall side :: s.End(side).read == s.Far(side).delivered == Given(inputs, side)
  {
    hide Reached, Quiet, Given;
    Takes(inputs);
    var s :| Took(s, inputs);
    forall side ensures s.Far(side).delivered == s.End(side).read {
      RestAgrees(s, side);
    }
  }
}
