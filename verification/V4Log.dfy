/** What a sequence of corp-relay-v4 messages means, independently of who sent or received it. */
module V4Log {
  import opened Bytes
  import opened Command

  /** The commands in a log of messages, up to the first message that does not parse. */
  function Commands(log: seq<Message>): (cs: seq<Command>)
    ensures |cs| <= |log|
  {
    if log == [] then []
    else
      var n := |log| - 1;
      var cs := Commands(log[..n]);
      if |cs| < n || Unmarshal(log[n]).Err? then cs else cs + [Unmarshal(log[n]).value]
  }

  predicate WellFormed(log: seq<Message>) {
    |Commands(log)| == |log|
  }

  function DataOf(c: Command): seq<Byte> {
    if c.Data? then c.data else []
  }

  function AckOf(c: Command): seq<U64> {
    if c.Ack? then [c.ack] else []
  }

  /** The data bytes carried, in order. */
  function Payload(cs: seq<Command>): seq<Byte> {
    if cs == [] then []
    else
      var n := |cs| - 1;
      Payload(cs[..n]) + DataOf(cs[n])
  }

  /** The ack values carried, in order. */
  function Acks(cs: seq<Command>): seq<U64> {
    if cs == [] then []
    else
      var n := |cs| - 1;
      Acks(cs[..n]) + AckOf(cs[n])
  }

  /** The acks a receiver owes for these commands: for every DATA, the running byte count modulo 2^64. */
  function AcksOwed(cs: seq<Command>): seq<U64> {
    if cs == [] then []
    else
      var n := |cs| - 1;
      AcksOwed(cs[..n]) + if cs[n].Data? then [|Payload(cs)| % TWO_64] else []
  }

  /** Everything but the acks. */
  function NonAcks(cs: seq<Command>): seq<Command> {
    if cs == [] then []
    else
      var n := |cs| - 1;
      NonAcks(cs[..n]) + if cs[n].Ack? then [] else [cs[n]]
  }

  // ---- one more message

  lemma CommandsSnoc(log: seq<Message>, m: Message)
    ensures WellFormed(log) && Unmarshal(m).Ok? ==>
              Commands(log + [m]) == Commands(log) + [Unmarshal(m).value] && WellFormed(log + [m])
    ensures !WellFormed(log) || Unmarshal(m).Err? ==> Commands(log + [m]) == Commands(log) && !WellFormed(log + [m])
  {
    assert (log + [m])[..|log|] == log;
  }

  lemma Snoc(cs: seq<Command>, c: Command)
    ensures Payload(cs + [c]) == Payload(cs) + DataOf(c)
    ensures Acks(cs + [c]) == Acks(cs) + AckOf(c)
    ensures NonAcks(cs + [c]) == NonAcks(cs) + if c.Ack? then [] else [c]
    ensures AcksOwed(cs + [c]) == AcksOwed(cs) + if c.Data? then [(|Payload(cs)| + |c.data|) % TWO_64] else []
  {
    PayloadSnoc(cs, c);
    AcksSnoc(cs, c);
    NonAcksSnoc(cs, c);
    OwedSnoc(cs, c);
  }

  lemma PayloadSnoc(cs: seq<Command>, c: Command)
    ensures Payload(cs + [c]) == Payload(cs) + DataOf(c)
  {
    assert (cs + [c])[..|cs|] == cs;
  }

  lemma AcksSnoc(cs: seq<Command>, c: Command)
    ensures Acks(cs + [c]) == Acks(cs) + AckOf(c)
  {
    assert (cs + [c])[..|cs|] == cs;
  }

  lemma NonAcksSnoc(cs: seq<Command>, c: Command)
    ensures NonAcks(cs + [c]) == NonAcks(cs) + if c.Ack? then [] else [c]
  {
    assert (cs + [c])[..|cs|] == cs;
  }

  lemma OwedSnoc(cs: seq<Command>, c: Command)
    ensures AcksOwed(cs + [c]) == AcksOwed(cs) + if c.Data? then [(|Payload(cs)| + |c.data|) % TWO_64] else []
  {
    hide Payload;
    PayloadSnoc(cs, c);
    var all := cs + [c];
    assert all[..|cs|] == cs;
    assert AcksOwed(all) == AcksOwed(all[..|cs|]) + if all[|cs|].Data? then [|Payload(all)| % TWO_64] else [];
  }

  // ---- prefixes

  lemma {:induction false} CommandsPrefix(p: seq<Message>, q: seq<Message>)
    requires p <= q
    ensures Commands(p) <= Commands(q)
    ensures WellFormed(q) ==> WellFormed(p)
  {
    if p != q {
      var n := |q| - 1;
      CommandsPrefix(p, q[..n]);
    }
  }

  lemma {:induction false} Prefix(p: seq<Command>, q: seq<Command>)
    requires p <= q
    ensures Payload(p) <= Payload(q) && Acks(p) <= Acks(q) && NonAcks(p) <= NonAcks(q) && AcksOwed(p) <= AcksOwed(q)
  {
    if p != q {
      Prefix(p, q[..|q| - 1]);
    }
  }

  lemma {:induction false} CommandsAt(log: seq<Message>, i: nat)
    requires i < |Commands(log)|
    ensures Unmarshal(log[i]) == Ok(Commands(log)[i])
    ensures Commands(log)[i].Valid()
  {
    hide Unmarshal, Encode;
    var n := |log| - 1;
    if i < |Commands(log[..n])| {
      CommandsAt(log[..n], i);
    } else {
      EncodeUnmarshal(log[n]);
    }
  }

  lemma Assoc<T>(a: seq<T>, b: seq<T>, c: seq<T>)
    ensures (a + b) + c == a + (b + c)
  {
  }

  // Cut anywhere, the two halves make the whole.

  lemma {:induction false} PayloadSplit(cs: seq<Command>, n: nat)
    requires n <= |cs|
    ensures Payload(cs) == Payload(cs[..n]) + Payload(cs[n..])
  {
    if n == |cs| {
      assert cs[..n] == cs && cs[n..] == [] && Payload([]) == [];
    } else {
      hide Payload, DataOf;
      var k := |cs| - 1;
      var init, tail, c := cs[..k], cs[n..k], cs[k];
      calc {
        Payload(cs);
        { assert cs == init + [c]; PayloadSnoc(init, c); }
        Payload(init) + DataOf(c);
        { PayloadSplit(init, n); assert init[..n] == cs[..n] && init[n..] == tail; }
        (Payload(cs[..n]) + Payload(tail)) + DataOf(c);
        { Assoc(Payload(cs[..n]), Payload(tail), DataOf(c)); }
        Payload(cs[..n]) + (Payload(tail) + DataOf(c));
        { PayloadSnoc(tail, c); assert cs[n..] == tail + [c]; }
        Payload(cs[..n]) + Payload(cs[n..]);
      }
    }
  }

  lemma {:induction false} AcksSplit(cs: seq<Command>, n: nat)
    requires n <= |cs|
    ensures Acks(cs) == Acks(cs[..n]) + Acks(cs[n..])
  {
    if n == |cs| {
      assert cs[..n] == cs && cs[n..] == [] && Acks([]) == [];
    } else {
      hide Acks, AckOf;
      var k := |cs| - 1;
      var init, tail, c := cs[..k], cs[n..k], cs[k];
      calc {
        Acks(cs);
        { assert cs == init + [c]; AcksSnoc(init, c); }
        Acks(init) + AckOf(c);
        { AcksSplit(init, n); assert init[..n] == cs[..n] && init[n..] == tail; }
        (Acks(cs[..n]) + Acks(tail)) + AckOf(c);
        { Assoc(Acks(cs[..n]), Acks(tail), AckOf(c)); }
        Acks(cs[..n]) + (Acks(tail) + AckOf(c));
        { AcksSnoc(tail, c); assert cs[n..] == tail + [c]; }
        Acks(cs[..n]) + Acks(cs[n..]);
      }
    }
  }

  // ---- the running sums

  /** The serial distance from one counter value to another. */
  function Advance(from: U64, to: U64): U64 {
    (to - from) % TWO_64
  }

  function Before(acks: seq<U64>, i: nat): U64
    requires i <= |acks|
  {
    if i == 0 then 0 else acks[i - 1]
  }

  lemma AdvanceBy(base: nat, k: nat)
    requires k < TWO_64
    ensures Advance(base % TWO_64, (base + k) % TWO_64) == k
  {
  }

  /** The last ack owed is the whole byte count. */
  lemma {:induction false} OwedEnd(cs: seq<Command>)
    ensures Before(AcksOwed(cs), |AcksOwed(cs)|) == |Payload(cs)| % TWO_64
  {
    if cs != [] {
      var n := |cs| - 1;
      if !cs[n].Data? {
        OwedEnd(cs[..n]);
      }
    }
  }

  /** Successive acks owed advance by the size of one chunk: 1 to 16384, even across a wrap of the counter. */
  lemma {:induction false} OwedAdvance(cs: seq<Command>, i: nat)
    requires forall k :: 0 <= k < |cs| ==> cs[k].Valid()
    requires i < |AcksOwed(cs)|
    ensures 1 <= Advance(Before(AcksOwed(cs), i), AcksOwed(cs)[i]) <= MAX_ARRAY_LEN
  {
    assert cs != [];
    hide Payload, AcksOwed, DataOf;
    var n := |cs| - 1;
    var init := cs[..n];
    assert cs == init + [cs[n]];
    Snoc(init, cs[n]);
    if i < |AcksOwed(init)| {
      OwedAdvance(init, i);
    } else {
      assert cs[n].Data? && cs[n].Valid();
      OwedEnd(init);
      AdvanceBy(|Payload(init)|, |cs[n].data|);
    }
  }
}
