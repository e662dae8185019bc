/** The in-band commands of corp-relay-v4 and their wire format. */
module Command {
  import opened Bytes

  const TAG_CONNECT_SUCCESS := 1
  const TAG_RECONNECT_SUCCESS := 2
  const TAG_DATA := 4
  const TAG_ACK := 7

  const MAX_ARRAY_LEN := 16 * 1024
  const TAG_LEN := 2
  const ACK_LEN := 8
  const SID_LEN := 4
  const MAX_SID_LEN := 36
  const DATA_LEN := 4

  type Message = seq<Byte>

  datatype Command =
    | ConnectSuccess(sid: seq<Byte>)
    | ReconnectSuccess(rack: U64)
    | Data(data: seq<Byte>)
    | Ack(ack: U64)
  {
    /** The structural checks that the constructors make. */
    predicate Valid() {
      match this
      case ConnectSuccess(sid) => SID_LEN <= |sid| <= MAX_SID_LEN
      case Data(data) => 0 < |data| <= MAX_ARRAY_LEN
      case _ => true
    }
  }

  datatype Error = BadCommand | BadLen
  datatype Result<+T> = Ok(value: T) | Err(error: Error)

  // ---- printing

  /** The `Write` calls that printing a command makes, in order. */
  function WriteCalls(c: Command): (calls: seq<seq<Byte>>) {
    match c
    case ConnectSuccess(sid) => [ToBE(TAG_CONNECT_SUCCESS, TAG_LEN), ToBE(|sid|, SID_LEN), sid]
    case ReconnectSuccess(a) => [ToBE(TAG_RECONNECT_SUCCESS, TAG_LEN), ToBE(a, ACK_LEN)]
    case Data(data) => [ToBE(TAG_DATA, TAG_LEN), ToBE(|data|, DATA_LEN), data]
    case Ack(a) => [ToBE(TAG_ACK, TAG_LEN), ToBE(a, ACK_LEN)]
  }

  function Encode(c: Command): Message {
    Flatten(WriteCalls(c))
  }

  // ---- parsing

  /** A 4-byte length followed by exactly that many bytes. */
  function Unmarshal32(b: seq<Byte>): Result<seq<Byte>> {
    if |b| < DATA_LEN then Err(BadLen)
    else if |b[DATA_LEN..]| != FromBE(b[..DATA_LEN]) then Err(BadLen)
    else Ok(b[DATA_LEN..])
  }

  function UnmarshalAck(b: seq<Byte>): Result<U64> {
    if |b| != ACK_LEN then Err(BadLen)
    else
      ToFromBE(b);
      Widths();
      Ok(FromBE(b))
  }

  function NewConnectSuccess(sid: seq<Byte>): Result<Command> {
    if ConnectSuccess(sid).Valid() then Ok(ConnectSuccess(sid)) else Err(BadLen)
  }

  function NewData(data: seq<Byte>): Result<Command> {
    if Data(data).Valid() then Ok(Data(data)) else Err(BadLen)
  }

  function Unmarshal(b: Message): Result<Command> {
    if |b| < TAG_LEN then Err(BadCommand)
    else
      var tag := FromBE(b[..TAG_LEN]);
      var rest := b[TAG_LEN..];
      if tag == TAG_CONNECT_SUCCESS then
        match Unmarshal32(rest)
        case Err(e) => Err(e)
        case Ok(sid) => NewConnectSuccess(sid)
      else if tag == TAG_RECONNECT_SUCCESS then
        match UnmarshalAck(rest)
        case Err(e) => Err(e)
        case Ok(a) => Ok(ReconnectSuccess(a))
      else if tag == TAG_DATA then
        match Unmarshal32(rest)
        case Err(e) => Err(e)
        case Ok(data) => NewData(data)
      else if tag == TAG_ACK then
        match UnmarshalAck(rest)
        case Err(e) => Err(e)
        case Ok(a) => Ok(Ack(a))
      else Err(BadCommand)
  }

  // ---- the two undo each other

  function TagOf(c: Command): nat {
    match c
    case ConnectSuccess(_) => TAG_CONNECT_SUCCESS
    case ReconnectSuccess(_) => TAG_RECONNECT_SUCCESS
    case Data(_) => TAG_DATA
    case Ack(_) => TAG_ACK
  }

  function Body(c: Command): seq<Byte> {
    match c
    case ConnectSuccess(sid) => ToBE(|sid|, SID_LEN) + sid
    case ReconnectSuccess(a) => ToBE(a, ACK_LEN)
    case Data(data) => ToBE(|data|, DATA_LEN) + data
    case Ack(a) => ToBE(a, ACK_LEN)
  }

  lemma FlattenTwo(a: seq<Byte>, b: seq<Byte>)
    ensures Flatten([a, b]) == a + b
  {
    assert [a, b][1..] == [b];
    assert Flatten([b]) == b + Flatten([]) == b;
  }

  lemma FlattenThree(a: seq<Byte>, b: seq<Byte>, c: seq<Byte>)
    ensures Flatten([a, b, c]) == a + (b + c)
  {
    assert [a, b, c][1..] == [b, c];
    FlattenTwo(b, c);
  }

  lemma EncodeShape(c: Command)
    ensures Encode(c) == ToBE(TagOf(c), TAG_LEN) + Body(c)
    ensures Encode(c)[..TAG_LEN] == ToBE(TagOf(c), TAG_LEN)
    ensures Encode(c)[TAG_LEN..] == Body(c)
    ensures FromBE(Encode(c)[..TAG_LEN]) == TagOf(c)
  {
    hide Flatten, ToBE, FromBE;
    var calls := WriteCalls(c);
    if |calls| == 2 {
      FlattenTwo(calls[0], calls[1]);
    } else {
      FlattenThree(calls[0], calls[1], calls[2]);
    }
    Widths();
    FromToBE(TagOf(c), TAG_LEN);
  }

  lemma AckField(a: U64)
    ensures UnmarshalAck(ToBE(a, ACK_LEN)) == Ok(a)
  {
    Widths();
    FromToBE(a, ACK_LEN);
  }

  lemma ArrayField(data: seq<Byte>)
    ensures |data| < TWO_32 ==> Unmarshal32(ToBE(|data|, 4) + data) == Ok(data)
    ensures var r := Unmarshal32(ToBE(|data|, 4) + data); r == Ok(data) || r == Err(BadLen)
  {
    var b := ToBE(|data|, 4) + data;
    assert b[..4] == ToBE(|data|, 4) && b[4..] == data;
    if |data| < TWO_32 {
      Widths();
      FromToBE(|data|, 4);
    }
  }

  lemma SmallField(tag: nat)
    requires tag < 256
    ensures ToBE(tag, 2) == [0, tag]
  {
    assert ToBE(tag, 2) == ToBE(0, 1) + [tag];
    assert ToBE(0, 1) == ToBE(0, 0) + [0];
  }

  /** The wire format, in numbers: a tag of two bytes, then a length of four bytes and the bytes, or an ack of eight. */
  lemma WireFormat(c: Command)
    ensures Encode(c) ==
            match c
            case ConnectSuccess(sid) => [0, 1] + ToBE(|sid|, 4) + sid
            case ReconnectSuccess(ack) => [0, 2] + ToBE(ack, 8)
            case Data(data) => [0, 4] + ToBE(|data|, 4) + data
            case Ack(ack) => [0, 7] + ToBE(ack, 8)
  {
    EncodeShape(c);
    SmallField(TagOf(c));
    hide ToBE, Encode;
  }

  /** Parsing a printed command gives the command back exactly when its length is allowed, and an error otherwise. */
  lemma UnmarshalEncode(c: Command)
    ensures c.Valid() ==> Unmarshal(Encode(c)) == Ok(c)
    ensures !c.Valid() ==> Unmarshal(Encode(c)) == Err(BadLen)
    ensures c.Valid() <==>
            match c
            case ConnectSuccess(sid) => 4 <= |sid| <= 36
            case Data(data) => 1 <= |data| <= 16384
            case _ => true
  {
    EncodeShape(c);
    match c
    case ConnectSuccess(sid) => ArrayField(sid);
    case ReconnectSuccess(a) => AckField(a);
    case Data(data) => ArrayField(data);
    case Ack(a) => AckField(a);
  }

  /** A message of no known kind is told from one with a wrong length. */
  lemma UnknownTag(b: Message)
    ensures Unmarshal(b) == Err(BadCommand) <==>
            |b| < 2 || b[0] != 0 || (b[1] != 1 && b[1] != 2 && b[1] != 4 && b[1] != 7)
  {
    if |b| >= 2 {
      var t := b[..2];
      assert FromBE(t) == FromBE(t[..1]) * 256 + b[1];
      assert FromBE(t[..1]) == FromBE(t[..1][..0]) * 256 + b[0];
    }
  }

  lemma ArrayBack(b: seq<Byte>)
    requires Unmarshal32(b).Ok?
    ensures ToBE(|Unmarshal32(b).value|, 4) + Unmarshal32(b).value == b
  {
    ToFromBE(b[..4]);
  }

  /** Printing an accepted message gives the message back, byte for byte; and only valid commands come out. */
  lemma EncodeUnmarshal(b: Message)
    requires Unmarshal(b).Ok?
    ensures Unmarshal(b).value.Valid()
    ensures Encode(Unmarshal(b).value) == b
  {
    hide Encode, ToBE, FromBE;
    var c := Unmarshal(b).value;
    var rest := b[TAG_LEN..];
    EncodeShape(c);
    ToFromBE(b[..TAG_LEN]);
    assert b == b[..TAG_LEN] + rest;
    match c {
      case ConnectSuccess(_) => ArrayBack(rest);
      case Data(_) => ArrayBack(rest);
      case ReconnectSuccess(_) => ToFromBE(rest);
      case Ack(_) => ToFromBE(rest);
    }
  }

  // ---- truncated and merged messages

  /** The encodings delimit themselves: nothing may be added behind an accepted message. */
  lemma NoExtension(b: Message, more: Message)
    requires Unmarshal(b).Ok? && more != []
    ensures Unmarshal(b + more).Err?
  {
    var longer := b + more;
    assert longer[..TAG_LEN] == b[..TAG_LEN];
    assert longer[TAG_LEN..] == b[TAG_LEN..] + more;
    var rest := b[TAG_LEN..];
    if FromBE(b[..TAG_LEN]) == TAG_CONNECT_SUCCESS || FromBE(b[..TAG_LEN]) == TAG_DATA {
      assert (rest + more)[..DATA_LEN] == rest[..DATA_LEN];
    }
  }

  /** Every proper prefix of an accepted message, the empty one included, is rejected. */
  lemma NoTruncation(b: Message, n: nat)
    requires Unmarshal(b).Ok? && n < |b|
    ensures Unmarshal(b[..n]).Err?
  {
    assert b[..n] + b[n..] == b;
    if Unmarshal(b[..n]).Ok? {
      NoExtension(b[..n], b[n..]);
    }
  }

  /** Several encodings glued into one message are rejected. */
  lemma NoMerge(cs: seq<Command>)
    requires |cs| >= 2 && forall i :: 0 <= i < |cs| ==> cs[i].Valid()
    ensures Unmarshal(Flatten(seq(|cs|, i requires 0 <= i < |cs| => Encode(cs[i])))).Err?
  {
    var parts := seq(|cs|, i requires 0 <= i < |cs| => Encode(cs[i]));
    UnmarshalEncode(cs[0]);
    EncodeShape(cs[1]);
    assert parts[1..][0] == Encode(cs[1]);
    assert Flatten(parts[1..]) == Encode(cs[1]) + Flatten(parts[1..][1..]);
    NoExtension(Encode(cs[0]), Flatten(parts[1..]));
  }

  /** A possibly truncated write of a valid `c` parses as `c` when all of it is there, and not at all otherwise. */
  lemma PrefixParses(c: Command, part: Message)
    requires c.Valid() && part <= Encode(c)
    ensures part == Encode(c) ==> Unmarshal(part) == Ok(c)
    ensures part != Encode(c) ==> Unmarshal(part).Err?
  {
    UnmarshalEncode(c);
    assert part == Encode(c)[..|part|];
    if part != Encode(c) {
      NoTruncation(Encode(c), |part|);
    }
  }
}
