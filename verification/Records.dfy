/** The packed records of the handshake, byte by byte. */
module Records {
  import opened Options
  import opened Wire
  import opened Secure

  type U16 = n: nat | n < 0x1_0000
  type U32 = n: nat | n < 0x1_0000_0000
  type U64 = n: nat | n < TWO64

  const VERSION: U16 := 6
  const REQUEST_SIZE: nat := 533     // sizeof(Request): its type and the largest member, CommitMessageRequest
  const RESPONSE_SIZE: nat := 684    // sizeof(Responce): its type and the largest member, GetUpdateResponce
  const HELLO_TYPE: nat := 0         // RequestType::Handshake
  const ERROR_TYPE: nat := 0         // ResponceType::Error
  const WELCOME_TYPE: nat := 1       // ResponceType::HandshakeSuccessfull

  datatype Hello = Hello(flag: U16, version: U16, secureMode: Byte, tag: U64, pub: PubKey)
  datatype Welcome = Refused | Welcome(flag: U16, token: U32, secureMode: Byte, tag: U64, pub: PubKey)

  // ----- numbers of fixed width -----

  lemma {:induction false} FromLittleBound(s: seq<Byte>)
    ensures FromLittle(s) < Pow256(|s|)
  {
    if s != [] {
      FromLittleBound(s[1..]);
    }
  }

  lemma Widths()
    ensures Pow256(2) == 0x1_0000 && Pow256(4) == 0x1_0000_0000 && Pow256(8) == TWO64
  {
    assert Pow256(2) == 256 * Pow256(1) == 0x1_0000;
    assert Pow256(4) == 0x1_0000_0000;
  }

  function Get16(s: seq<Byte>): U16
    requires |s| == 2
  {
    FromLittleBound(s);
    Widths();
    FromLittle(s)
  }

  function Get32(s: seq<Byte>): U32
    requires |s| == 4
  {
    FromLittleBound(s);
    Widths();
    FromLittle(s)
  }

  function Get64(s: seq<Byte>): U64
    requires |s| == 8
  {
    FromLittleBound(s);
    Widths();
    FromLittle(s)
  }

  // ----- records -----

  function Zeros(n: nat): (r: seq<Byte>)
    ensures |r| == n
  {
    seq(n, _ => 0)
  }

  /** The request of 'CreateHandshake' and 'CreateHandshakeSecure', unused bytes being zero. */
  function HelloBytes(h: Hello): (r: seq<Byte>)
    ensures |r| == REQUEST_SIZE
  {
    Little(HELLO_TYPE, 4) + Little(h.flag, 2) + Little(h.version, 2) + [h.secureMode, 0] + Little(h.tag, 8) + h.pub
      + Zeros(REQUEST_SIZE - 50)
  }

  /** A request as the server reads it; other types of request are refused unread. */
  function HelloOf(data: seq<Byte>): Option<Hello>
    requires |data| == REQUEST_SIZE
  {
    if FromLittle(data[..4]) != HELLO_TYPE then None
    else Some(Hello(Get16(data[4..6]), Get16(data[6..8]), data[8], Get64(data[10..18]), data[18..50]))
  }

  function WelcomeBytes(w: Welcome): (r: seq<Byte>)
    ensures |r| == RESPONSE_SIZE
  {
    match w
    case Refused => Little(ERROR_TYPE, 4) + Zeros(RESPONSE_SIZE - 4)
    case Welcome(flag, token, mode, tag, pub) =>
      Little(WELCOME_TYPE, 4) + Little(flag, 2) + Little(token, 4) + [mode, 0, 0, 0] + Little(tag, 8) + pub
        + Zeros(RESPONSE_SIZE - 54)
  }

  /** A response as the client reads it: whatever is no error is taken for a welcome. */
  function WelcomeOf(data: seq<Byte>): Welcome
    requires |data| == RESPONSE_SIZE
  {
    if FromLittle(data[..4]) == ERROR_TYPE then Refused
    else Welcome(Get16(data[4..6]), Get32(data[6..10]), data[10], Get64(data[14..22]), data[22..54])
  }

  ghost predicate AllZero(d: seq<Byte>, from: nat, to: nat) {
    from <= to <= |d| && forall i :: from <= i < to ==> d[i] == 0
  }

  /** The packed handshake request: type 0, flag, version, mode, a reserved byte, tag and key. */
  ghost predicate IsHello(d: seq<Byte>, h: Hello) {
    && |d| == 533 && LittleAt(d, 0, 4, 0) && LittleAt(d, 4, 2, h.flag) && LittleAt(d, 6, 2, h.version)
    && d[8] == h.secureMode && LittleAt(d, 10, 8, h.tag) && d[18..50] == h.pub
  }

  /** The packed answer: type 1, flag, token, mode, reserved bytes, tag and key. */
  ghost predicate IsWelcome(d: seq<Byte>, w: Welcome) {
    && |d| == 684
    && match w
       case Refused => LittleAt(d, 0, 4, 0)
       case Welcome(flag, token, mode, tag, pub) =>
         && LittleAt(d, 0, 4, 1) && LittleAt(d, 4, 2, flag) && LittleAt(d, 6, 4, token)
         && d[10] == mode && LittleAt(d, 14, 8, tag) && d[22..54] == pub
  }

  lemma HelloLayout(h: Hello)
    ensures IsHello(HelloBytes(h), h) && HelloBytes(h)[9] == 0 && AllZero(HelloBytes(h), 50, 533)
  {
    var d := HelloBytes(h);
    assert d[0..4] == Little(0, 4) && d[4..6] == Little(h.flag, 2) && d[6..8] == Little(h.version, 2);
    assert d[8] == h.secureMode && d[10..18] == Little(h.tag, 8) && d[18..50] == h.pub;
    hide Little, HelloBytes;
    LittleIsAt(d, 0, 4, 0);
    LittleIsAt(d, 4, 2, h.flag);
    LittleIsAt(d, 6, 2, h.version);
    LittleIsAt(d, 10, 8, h.tag);
  }

  lemma WelcomeLayout(w: Welcome)
    ensures IsWelcome(WelcomeBytes(w), w)
    ensures if w.Refused? then AllZero(WelcomeBytes(w), 4, 684)
            else AllZero(WelcomeBytes(w), 11, 14) && AllZero(WelcomeBytes(w), 54, 684)
  {
    var d := WelcomeBytes(w);
    if w.Refused? {
      assert d[0..4] == Little(0, 4);
      LittleIsAt(d, 0, 4, 0);
    } else {
      assert d[0..4] == Little(1, 4) && d[4..6] == Little(w.flag, 2) && d[6..10] == Little(w.token, 4);
      assert d[10] == w.secureMode && d[14..22] == Little(w.tag, 8) && d[22..54] == w.pub;
      hide Little, WelcomeBytes;
      LittleIsAt(d, 0, 4, 1);
      LittleIsAt(d, 4, 2, w.flag);
      LittleIsAt(d, 6, 4, w.token);
      LittleIsAt(d, 14, 8, w.tag);
    }
  }

  /** What the server reads from any request, well-formed or not. */
  lemma HelloRead(d: seq<Byte>)
    requires |d| == REQUEST_SIZE
    ensures HelloOf(d).Some? <==> LittleAt(d, 0, 4, 0)
    ensures HelloOf(d).Some? ==> IsHello(d, HelloOf(d).value)
  {
    hide LittleAt, FromLittle;
    ReadAt(d, 0, 4);
    assert d[0..4] == d[..4];
    ReadAt(d, 4, 2);
    ReadAt(d, 6, 2);
    ReadAt(d, 10, 8);
    if LittleAt(d, 0, 4, 0) {
      SameNumber(d, 0);
    }
  }

  /** What the client reads from any response. */
  lemma WelcomeRead(d: seq<Byte>)
    requires |d| == RESPONSE_SIZE
    ensures WelcomeOf(d) == Refused <==> LittleAt(d, 0, 4, 0)
    ensures var w := WelcomeOf(d); w.Welcome? ==>
      LittleAt(d, 4, 2, w.flag) && LittleAt(d, 6, 4, w.token) && d[10] == w.secureMode && LittleAt(d, 14, 8, w.tag) && d[22..54] == w.pub
  {
    hide LittleAt, FromLittle;
    ReadAt(d, 0, 4);
    assert d[0..4] == d[..4];
    ReadAt(d, 4, 2);
    ReadAt(d, 6, 4);
    ReadAt(d, 14, 8);
    if LittleAt(d, 0, 4, 0) {
      SameNumber(d, 0);
    }
  }

  /** Four bytes are those of 'n' only if they are read as 'n'. */
  lemma SameNumber(d: seq<Byte>, n: U32)
    requires |d| >= 4 && LittleAt(d, 0, 4, n)
    ensures FromLittle(d[..4]) == n
  {
    forall i | 0 <= i < 4
      ensures d[i] == Little(n, 4)[i]
    {
      LittleByte(n, 4, i);
      assert d[0 + i] == n / Pow256(i) % 256;
    }
    assert d[..4] == Little(n, 4);
    Widths();
    LittleBack(n, 4);
  }

  /** Every hello is read as it was written. */
  lemma HelloBack(h: Hello)
    ensures HelloOf(HelloBytes(h)) == Some(h)
  {
    var d := HelloBytes(h);
    assert d[..4] == Little(HELLO_TYPE, 4) && d[4..6] == Little(h.flag, 2) && d[6..8] == Little(h.version, 2);
    assert d[8] == h.secureMode && d[10..18] == Little(h.tag, 8) && d[18..50] == h.pub;
    hide Little, FromLittle, HelloBytes;
    Widths();
    LittleBack(HELLO_TYPE, 4);
    LittleBack(h.flag, 2);
    LittleBack(h.version, 2);
    LittleBack(h.tag, 8);
  }

  /** Every answer is read as it was written. */
  lemma WelcomeBack(w: Welcome)
    ensures WelcomeOf(WelcomeBytes(w)) == w
  {
    var d := WelcomeBytes(w);
    Widths();
    if w.Refused? {
      assert d[..4] == Little(ERROR_TYPE, 4);
      LittleBack(ERROR_TYPE, 4);
    } else {
      assert d[..4] == Little(WELCOME_TYPE, 4) && d[4..6] == Little(w.flag, 2) && d[6..10] == Little(w.token, 4);
      assert d[10] == w.secureMode && d[14..22] == Little(w.tag, 8) && d[22..54] == w.pub;
      hide Little, FromLittle, WelcomeBytes;
      LittleBack(WELCOME_TYPE, 4);
      LittleBack(w.flag, 2);
      LittleBack(w.token, 4);
      LittleBack(w.tag, 8);
    }
  }
}
