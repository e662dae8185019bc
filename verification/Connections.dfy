/** The two connections of a session, as objects whose calls may fail at any time; `faults` counts those that did. */
module Connections {
  import opened Bytes

  /** The ssh connection's writing side. */
  class Ssh {
    var taken: seq<Byte>
    ghost var faults: nat

    constructor ()
      ensures taken == [] && faults == 0
    {
      taken, faults := [], 0;
    }

    method Write(b: seq<Byte>) returns (ok: bool, n: nat)
      modifies this
      ensures n <= |b| && (ok ==> n == |b|)
      ensures taken == old(taken) + b[..n]
      ensures faults == old(faults) + if ok then 0 else 1
    {
      if * {
        ok, n := true, |b|;
      } else {
        n :| 0 <= n <= |b|;
        ok, faults := false, faults + 1;
      }
      taken := taken + b[..n];
    }
  }

  /** The WebSocket's writing side: one message is built up at a time, and flushed when its writer is closed. */
  class Socket {
    var flushed: seq<seq<Byte>>
    var buf: seq<Byte>
    var broken: bool
    ghost var faults: nat

    constructor ()
      ensures flushed == [] && !broken && faults == 0
    {
      flushed, buf, broken, faults := [], [], false, 0;
    }

    method NextWriter() returns (ok: bool)
      modifies this`buf, this`faults
      ensures ok ==> !broken && buf == []
      ensures faults == old(faults) + if ok then 0 else 1
    {
      ok := false;
      if !broken {
        ok := *;
      }
      buf := [];
      if !ok {
        faults := faults + 1;
      }
    }

    method Write(b: seq<Byte>) returns (ok: bool, n: nat)
      modifies this`buf, this`faults
      ensures n <= |b| && (ok ==> n == |b|)
      ensures buf == old(buf) + b[..n]
      ensures faults == old(faults) + if ok then 0 else 1
    {
      if * {
        ok, n := true, |b|;
      } else {
        n :| 0 <= n <= |b|;
        ok, faults := false, faults + 1;
      }
      buf := buf + b[..n];
    }

    method Close()
      modifies this`flushed, this`broken, this`faults
      ensures if faults == old(faults) then flushed == old(flushed) + [buf] && !broken && !old(broken)
              else flushed == old(flushed) && broken
      ensures faults >= old(faults)
    {
      if broken {
        faults := faults + 1;
      } else if * {
        flushed := flushed + [buf];
      } else {
        broken, faults := true, faults + 1;
      }
    }
  }

  /** The bytes of the reads that succeeded. */
  ghost function BytesOf(chunks: seq<Option<seq<Byte>>>): seq<Byte> {
    if chunks == [] then []
    else
      var n := |chunks| - 1;
      BytesOf(chunks[..n]) + if chunks[n].Some? then chunks[n].value else []
  }

  lemma BytesNext(chunks: seq<Option<seq<Byte>>>, n: nat)
    requires n < |chunks|
    ensures BytesOf(chunks[..n + 1]) == BytesOf(chunks[..n]) + if chunks[n].Some? then chunks[n].value else []
  {
    assert chunks[..n + 1][..n] == chunks[..n];
  }

  /** What came after the first `k`. */
  ghost function Since<T>(s: seq<T>, k: nat): seq<T>
    requires k <= |s|
  {
    s[k..]
  }

  lemma SinceStart<T>(s: seq<T>)
    ensures Since(s, 0) == s && Since(s, |s|) == []
  {
  }
}
