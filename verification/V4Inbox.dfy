/** Which messages make `runWS` stop, and what it has learned from those that do not. */
module V4Inbox {
  import opened Bytes
  import opened Command
  import opened Uuid
  import opened V4Log
  import opened V4Peer
  import opened V4PeerProofs

  /** The two fields on which the handling of a message depends. */
  datatype View = View(sid: Uuid, wCount: U64)

  /** The messages that are errors, kind by kind. */
  predicate Refused(role: Role, v: View, m: Message) {
    match Unmarshal(m)
    case Err(_) => true
    case Ok(ConnectSuccess(text)) => role == Server || v.sid != NIL || Parse(text).Bad?
    case Ok(ReconnectSuccess(_)) => true
    case Ok(Data(_)) => false
    case Ok(Ack(ack)) => (ack - v.wCount) % 0x1_0000_0000_0000_0000 >= 0x8000_0000_0000_0000
  }

  /** What a message that is no error changes in them. */
  function Follow(v: View, m: Message): View {
    match Unmarshal(m)
    case Ok(ConnectSuccess(text)) => (match Parse(text) case Good(u) => v.(sid := u) case Bad(_) => v)
    case Ok(Ack(ack)) => v.(wCount := ack)
    case _ => v
  }

  /** None in an inbox is a read error or a message that is not binary. */
  function After(v: View, inbox: seq<Option<Message>>): View {
    if inbox == [] then v
    else
      var n := |inbox| - 1;
      var w := After(v, inbox[..n]);
      if inbox[n].Some? then Follow(w, inbox[n].value) else w
  }

  /** Every message is there and none is an error, each judged after those before it. */
  predicate AllFine(role: Role, v: View, inbox: seq<Option<Message>>) {
    inbox == [] ||
    var n := |inbox| - 1;
    AllFine(role, v, inbox[..n]) && inbox[n].Some? && !Refused(role, After(v, inbox[..n]), inbox[n].value)
  }

  lemma FineNext(role: Role, v: View, inbox: seq<Option<Message>>, n: nat)
    requires n < |inbox|
    ensures AllFine(role, v, inbox[..n + 1]) <==>
            AllFine(role, v, inbox[..n]) && inbox[n].Some? && !Refused(role, After(v, inbox[..n]), inbox[n].value)
    ensures inbox[n].Some? ==> After(v, inbox[..n + 1]) == Follow(After(v, inbox[..n]), inbox[n].value)
  {
    hide Refused, Follow;
    assert inbox[..n + 1][..n] == inbox[..n];
  }

  lemma {:induction false} FinePrefix(role: Role, v: View, inbox: seq<Option<Message>>, k: nat)
    requires AllFine(role, v, inbox) && k <= |inbox|
    ensures AllFine(role, v, inbox[..k])
  {
    hide Refused, After;
    if k < |inbox| {
      var n := |inbox| - 1;
      FinePrefix(role, v, inbox[..n], k);
      assert inbox[..n][..k] == inbox[..k];
    } else {
      assert inbox[..k] == inbox;
    }
  }

  function ViewOf(p: Peer): View {
    View(p.sid, p.wCount)
  }

  lemma DispatchIs(role: Role, v: View, m: Message)
    ensures var d := Dispatch(role, v.sid, v.wCount, m);
            && (d.Reject? || d.BadSid? <==> Refused(role, v, m))
            && (d.SetSid? ==> Follow(v, m) == v.(sid := d.sid))
            && (d.NewAck? ==> Follow(v, m) == v.(wCount := d.ack))
            && (d.Accept? ==> Follow(v, m) == v && Unmarshal(m) == Ok(Data(d.data)))
  {
    hide Unmarshal, Parse, AckDiff;
    match Unmarshal(m)
    case Ok(Ack(ack)) => AckAhead(v.wCount, ack);
    case _ =>
  }

  /** `runWS` stops on a message exactly when it is refused; otherwise it has learned what the message says. */
  lemma RefusedIff(p: Peer, m: Message)
    requires p.ws.Idle?
    ensures Handle(p, m).ws.Stopped? <==> Refused(p.role, ViewOf(p), m)
    ensures !Refused(p.role, ViewOf(p), m) ==> ViewOf(Handle(p, m)) == Follow(ViewOf(p), m)
  {
    hide Dispatch, Refused, Follow;
    DispatchIs(p.role, ViewOf(p), m);
  }

  /** What each kind of message does to a session. */
  lemma HandleByKind(p: Peer, m: Message)
    ensures match Unmarshal(m)
            case Err(_) => Handle(p, m) == p.(ws := Stopped)
            case Ok(ReconnectSuccess(_)) => Handle(p, m) == p.(ws := Stopped)
            case Ok(Data(data)) =>
              Handle(p, m) == p.(rCount := (p.rCount + |data|) % 0x1_0000_0000_0000_0000, ws := Delivering(data))
            case Ok(Ack(ack)) =>
              Handle(p, m) == if (ack - p.wCount) % 0x1_0000_0000_0000_0000 < 0x8000_0000_0000_0000
                              then p.(wCount := ack) else p.(ws := Stopped)
            case Ok(ConnectSuccess(text)) =>
              if p.role == Server || p.sid != NIL then Handle(p, m) == p.(ws := Stopped)
              else
                match Parse(text)
                case Good(u) => Handle(p, m) == p.(sid := u)
                case Bad(u) => Handle(p, m) == p.(sid := u, ws := Stopped)
  {
    hide Unmarshal, Parse, AckDiff;
    match Unmarshal(m)
    case Ok(Ack(ack)) => AckAhead(p.wCount, ack);
    case _ =>
  }
}
