/** Session identifiers: 16-byte UUIDs and their text form (section 3 of RFC 4122). */
module Uuid {
  import opened Bytes

  const LEN := 16
  const TEXT_LEN := 36
  const BARE_LEN := 32

  type Uuid = u: seq<Byte> | |u| == LEN witness Zeros(LEN)

  const NIL: Uuid := Zeros(LEN)

  function Zeros(n: nat): (s: seq<Byte>)
    ensures |s| == n
  {
    if n == 0 then [] else Zeros(n - 1) + [0]
  }

  const DASH: Byte := 0x2d

  /** Lower-case hexadecimal digit. */
  function HexDigit(n: Byte): Byte
    requires n < 16
  {
    if n < 10 then 0x30 + n else 0x61 + n - 10
  }

  /** Either case is read back. */
  function HexValue(c: Byte): Option<Byte> {
    if 0x30 <= c <= 0x39 then Some(c - 0x30)
    else if 0x61 <= c <= 0x66 then Some(c - 0x61 + 10)
    else if 0x41 <= c <= 0x46 then Some(c - 0x41 + 10)
    else None
  }

  function Hex(bytes: seq<Byte>): (s: seq<Byte>)
    ensures |s| == 2 * |bytes|
  {
    if bytes == [] then []
    else [HexDigit(bytes[0] / 16), HexDigit(bytes[0] % 16)] + Hex(bytes[1..])
  }

  /** The bytes of the longest run of good digit pairs at the front of `s`. */
  function Unhex(s: seq<Byte>): (bytes: seq<Byte>)
    ensures 2 * |bytes| <= |s|
  {
    if |s| < 2 then []
    else
      match (HexValue(s[0]), HexValue(s[1]))
      case (Some(hi), Some(lo)) => assert hi < 16 && lo < 16; [16 * hi + lo] + Unhex(s[2..])
      case _ => []
  }

  /** 8-4-4-4-12 hexadecimal digits. */
  function Format(u: Uuid): (s: seq<Byte>)
    ensures |s| == TEXT_LEN
  {
    var h := Hex(u);
    h[..8] + [DASH] + h[8..12] + [DASH] + h[12..16] + [DASH] + h[16..20] + [DASH] + h[20..]
  }

  /** `Bad` carries the value that the parser had filled in when it gave up. */
  datatype Parsed = Good(u: Uuid) | Bad(partial: Uuid)

  function FromDigits(digits: seq<Byte>): Parsed
    requires |digits| == BARE_LEN
  {
    var bytes := Unhex(digits);
    if |bytes| == LEN then Good(bytes) else Bad(bytes + Zeros(LEN - |bytes|))
  }

  /** The forms that fit a CONNECT_SUCCESS: 36 characters with dashes, or 32 without. */
  function Parse(s: seq<Byte>): Parsed {
    if |s| == BARE_LEN then FromDigits(s)
    else if |s| == TEXT_LEN && s[8] == DASH && s[13] == DASH && s[18] == DASH && s[23] == DASH then
      FromDigits(s[..8] + s[9..13] + s[14..18] + s[19..23] + s[24..])
    else Bad(NIL)
  }

  lemma {:induction false} UnhexHex(bytes: seq<Byte>)
    ensures Unhex(Hex(bytes)) == bytes
  {
    if bytes != [] {
      UnhexHex(bytes[1..]);
      assert Hex(bytes)[2..] == Hex(bytes[1..]);
    }
  }

  /** Reading the text form gives the identifier back. */
  lemma ParseFormat(u: Uuid)
    ensures Parse(Format(u)) == Good(u)
  {
    UnhexHex(u);
    var h, s := Hex(u), Format(u);
    assert s[..8] + s[9..13] + s[14..18] + s[19..23] + s[24..] == h;
  }

  // ---- the text, character by character

  const DIGITS := "0123456789abcdef"

  predicate IsHex(c: Byte) {
    0x30 <= c <= 0x39 || 0x41 <= c <= 0x46 || 0x61 <= c <= 0x66
  }

  /** Where digit `j` of the 32 stands in the text with dashes. */
  function Place(j: nat): nat {
    if j < 8 then j else if j < 12 then j + 1 else if j < 16 then j + 2 else if j < 20 then j + 3 else j + 4
  }

  /** The digit that stands at `i`, which is no dash. */
  function Digit(i: nat): nat {
    if i <= 8 then i else if i <= 13 then i - 1 else if i <= 18 then i - 2 else if i <= 23 then i - 3 else i - 4
  }

  lemma {:induction false} HexAt(bytes: seq<Byte>, k: nat)
    requires k < |bytes|
    ensures Hex(bytes)[2 * k] == DIGITS[bytes[k] / 16] as int
    ensures Hex(bytes)[2 * k + 1] == DIGITS[bytes[k] % 16] as int
  {
    if k > 0 {
      HexAt(bytes[1..], k - 1);
    } else {
      DigitIs(bytes[0] / 16);
      DigitIs(bytes[0] % 16);
    }
  }

  lemma DigitIs(n: Byte)
    requires n < 16
    ensures HexDigit(n) == DIGITS[n] as int
  {
  }

  /** Lower-case digits of each byte, high before low, in groups of 8, 4, 4, 4 and 12 with a dash between them. */
  lemma FormatText(u: Uuid, k: nat)
    requires k < 16
    ensures Format(u)[Place(2 * k)] == DIGITS[u[k] / 16] as int
    ensures Format(u)[Place(2 * k + 1)] == DIGITS[u[k] % 16] as int
    ensures Format(u)[8] == Format(u)[13] == Format(u)[18] == Format(u)[23] == '-' as int
  {
    HexAt(u, k);
  }

  lemma HexValueIs(c: Byte)
    ensures HexValue(c).Some? <==> IsHex(c)
  {
  }

  lemma {:induction false} UnhexAll(s: seq<Byte>)
    requires |s| % 2 == 0
    ensures 2 * |Unhex(s)| == |s| <==> forall i :: 0 <= i < |s| ==> IsHex(s[i])
  {
    if s != [] {
      UnhexAll(s[2..]);
      HexValueIs(s[0]);
      HexValueIs(s[1]);
      assert forall i :: 2 <= i < |s| ==> s[i] == s[2..][i - 2];
      assert forall i :: 0 <= i < |s| - 2 ==> s[2..][i] == s[i + 2];
    }
  }

  predicate AllHexButDashes(s: seq<Byte>) {
    forall i :: 0 <= i < |s| && i != 8 && i != 13 && i != 18 && i != 23 ==> IsHex(s[i])
  }

  /** Which texts are identifiers: 32 digits of either case, or 36 characters with the four dashes in their places. */
  lemma ParseGoodIff(s: seq<Byte>)
    ensures Parse(s).Good? <==>
            || (|s| == 32 && forall i :: 0 <= i < 32 ==> IsHex(s[i]))
            || (|s| == 36 && s[8] == 0x2d && s[13] == 0x2d && s[18] == 0x2d && s[23] == 0x2d && AllHexButDashes(s))
  {
    if |s| == 32 {
      UnhexAll(s);
    } else if |s| == 36 {
      var d := s[..8] + s[9..13] + s[14..18] + s[19..23] + s[24..];
      UnhexAll(d);
      assert forall j :: 0 <= j < 32 ==> d[j] == s[Place(j)];
      assert forall i :: 0 <= i < 36 && i != 8 && i != 13 && i != 18 && i != 23 ==> s[i] == d[Digit(i)];
    }
  }
}
