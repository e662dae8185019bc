/** The abstract service: two independent byte pipes, one each way. */
module BytePipe {
  import opened Bytes

  /** `input` was read at the near end so far, `output` was written at the far end so far. */
  datatype Pipe = Pipe(input: seq<Byte>, output: seq<Byte>) {
    predicate Valid() {
      output <= input
    }

    /** One step of a pipe: nothing, more input, or more of the input comes out. */
    predicate Next(next: Pipe) {
      || next == this
      || (next.output == output && input <= next.input)
      || (next.input == input && output <= next.output <= input)
    }
  }

  datatype Duplex = Duplex(up: Pipe, down: Pipe) {
    predicate Valid() {
      up.Valid() && down.Valid()
    }

    predicate Next(next: Duplex) {
      || (up.Next(next.up) && next.down == down)
      || (down.Next(next.down) && next.up == up)
    }
  }

  const EMPTY := Duplex(Pipe([], []), Pipe([], []))

  /** A behaviour of the duplex pipe: it starts empty and every move is a step. */
  predicate IsBehaviour(trace: seq<Duplex>) {
    && trace != []
    && trace[0] == EMPTY
    && forall i :: 0 <= i < |trace| - 1 ==> trace[i].Next(trace[i + 1])
  }

  /** No behaviour of the pipe ever loses, repeats, reorders or invents a byte. */
  lemma {:induction false} BehaviourIsValid(trace: seq<Duplex>, k: nat)
    requires IsBehaviour(trace) && k < |trace|
    ensures trace[k].Valid()
  {
    if k > 0 {
      BehaviourIsValid(trace, k - 1);
      assert trace[k - 1].Next(trace[k - 1 + 1]);
    }
  }

  /** What went in or came out stays: each state holds all that an earlier one held. */
  lemma {:induction false} BehaviourGrows(trace: seq<Duplex>, j: nat, k: nat)
    requires IsBehaviour(trace) && j <= k < |trace|
    ensures trace[j].up.input <= trace[k].up.input && trace[j].up.output <= trace[k].up.output
    ensures trace[j].down.input <= trace[k].down.input && trace[j].down.output <= trace[k].down.output
  {
    if j < k {
      BehaviourGrows(trace, j, k - 1);
      assert trace[k - 1].Next(trace[k - 1 + 1]);
    }
  }
}
