/** The secure session: keys, nonces, frames and the two-party run. */
module Secure {
  import opened Options
  import opened Wire

  const TWO64: nat := 0x1_0000_0000_0000_0000
  const MAXFRAME: nat := 0x10_0000     // 1u << 20
  const HEADER: nat := 32              // sizeof(SecureFrameHeader), with its padding

  type Key = seq<Byte>

  type PubKey = s: seq<Byte> | |s| == 32 witness seq(32, _ => 0)

  // ----- numbers as bytes -----

  function Little(n: nat, k: nat): (r: seq<Byte>)
    ensures |r| == k
  {
    if k == 0 then [] else [n % 256] + Little(n / 256, k - 1)
  }

  function FromLittle(s: seq<Byte>): nat {
    if s == [] then 0 else s[0] + 256 * FromLittle(s[1..])
  }

  function Pow256(k: nat): nat {
    if k == 0 then 1 else 256 * Pow256(k - 1)
  }

  lemma {:induction false} LittleBack(n: nat, k: nat)
    requires n < Pow256(k)
    ensures FromLittle(Little(n, k)) == n
  {
    if k > 0 {
      LittleBack(n / 256, k - 1);
      assert Little(n, k)[1..] == Little(n / 256, k - 1);
    }
  }

  function Big(n: nat, k: nat): (r: seq<Byte>)
    ensures |r| == k
  {
    if k == 0 then [] else Big(n / 256, k - 1) + [n % 256]
  }

  /** 'buildNonce': four zero bytes and the counter, most significant byte first. */
  function BuildNonce(counter: nat): (r: seq<Byte>)
    ensures |r| == 12
  {
    [0, 0, 0, 0] + Big(counter, 8)
  }

  lemma {:induction false} BigInjective(n: nat, m: nat, k: nat)
    requires n < Pow256(k) && m < Pow256(k) && Big(n, k) == Big(m, k)
    ensures n == m
  {
    if k > 0 {
      assert Big(n, k)[k - 1] == n % 256 && Big(m, k)[k - 1] == m % 256;
      assert Big(n, k)[..k - 1] == Big(n / 256, k - 1) && Big(m, k)[..k - 1] == Big(m / 256, k - 1);
      BigInjective(n / 256, m / 256, k - 1);
    }
  }

  /** Counters below the wrap-around give different nonces. */
  lemma NonceInjective(n: nat, m: nat)
    requires n < TWO64 && m < TWO64 && BuildNonce(n) == BuildNonce(m)
    ensures n == m
  {
    assert BuildNonce(n)[4..] == Big(n, 8) && BuildNonce(m)[4..] == Big(m, 8);
    assert Pow256(4) == 0x1_0000_0000;
    assert Pow256(8) == TWO64;
    BigInjective(n, m, 8);
  }

  // ----- single bytes -----

  lemma DivideTwice(n: nat, a: nat)
    requires a > 0
    ensures n / 256 / a == n / (256 * a)
  {
    var q, r := n / 256 / a, n / 256 % a;
    assert n == 256 * (n / 256) + n % 256 && n / 256 == q * a + r;
    assert n == q * (256 * a) + (256 * r + n % 256);
    Quotient(n, 256 * a, q, 256 * r + n % 256);
  }

  lemma Quotient(n: nat, b: nat, q: nat, r: nat)
    requires n == q * b + r && r < b
    ensures n / b == q
  {
    var q2, r2 := n / b, n % b;
    Times(q, q2, b);
    Times(q2, q, b);
  }

  lemma Times(m: nat, n: nat, b: nat)
    ensures m < n ==> m * b + b <= n * b
  {
    if m < n {
      Ordered(m + 1, n, b);
      assert (m + 1) * b == m * b + b;
    }
  }

  lemma Ordered(m: nat, n: nat, b: nat)
    requires m <= n
    ensures m * b <= n * b
  {
  }

  lemma {:induction false} LittleByte(n: nat, k: nat, i: nat)
    requires i < k
    ensures Pow256(i) > 0 && Little(n, k)[i] == n / Pow256(i) % 256
  {
    PowPositive(i);
    if i > 0 {
      LittleByte(n / 256, k - 1, i - 1);
      DivideTwice(n, Pow256(i - 1));
    }
  }

  lemma {:induction false} PowPositive(i: nat)
    ensures Pow256(i) > 0
  {
    if i > 0 {
      PowPositive(i - 1);
    }
  }

  lemma {:induction false} BigByte(n: nat, k: nat, i: nat)
    requires i < k
    ensures Pow256(i) > 0 && Big(n, k)[k - 1 - i] == n / Pow256(i) % 256
  {
    PowPositive(i);
    if i > 0 {
      BigByte(n / 256, k - 1, i - 1);
      DivideTwice(n, Pow256(i - 1));
    }
  }

  /** The bytes at 'at' are those of 'n', least significant first. */
  ghost predicate LittleAt(d: seq<Byte>, at: nat, k: nat, n: nat) {
    at + k <= |d| && forall i :: 0 <= i < k ==> Pow256(i) > 0 && d[at + i] == n / Pow256(i) % 256
  }

  lemma LittleIsAt(d: seq<Byte>, at: nat, k: nat, n: nat)
    requires at + k <= |d| && d[at..at + k] == Little(n, k)
    ensures LittleAt(d, at, k, n)
  {
    forall i | 0 <= i < k
      ensures Pow256(i) > 0 && d[at + i] == n / Pow256(i) % 256
    {
      assert d[at + i] == d[at..at + k][i];
      LittleByte(n, k, i);
    }
  }

  lemma {:induction false} LittleAgain(s: seq<Byte>)
    ensures Little(FromLittle(s), |s|) == s
  {
    if s != [] {
      LittleAgain(s[1..]);
      assert FromLittle(s) % 256 == s[0] && FromLittle(s) / 256 == FromLittle(s[1..]);
    }
  }

  lemma ReadAt(d: seq<Byte>, at: nat, k: nat)
    requires at + k <= |d|
    ensures LittleAt(d, at, k, FromLittle(d[at..at + k]))
  {
    LittleAgain(d[at..at + k]);
    LittleIsAt(d, at, k, FromLittle(d[at..at + k]));
  }

  /** Four zero bytes, and then the counter, most significant byte first. */
  ghost predicate IsNonce(nonce: seq<Byte>, counter: nat) {
    && |nonce| == 12 && (forall i :: 0 <= i < 4 ==> nonce[i] == 0)
    && forall i :: 4 <= i < 12 ==> Pow256(11 - i) > 0 && nonce[i] == counter / Pow256(11 - i) % 256
  }

  lemma NonceBytes(counter: nat)
    ensures IsNonce(BuildNonce(counter), counter)
  {
    forall i | 4 <= i < 12
      ensures Pow256(11 - i) > 0 && BuildNonce(counter)[i] == counter / Pow256(11 - i) % 256
    {
      BigByte(counter, 8, 11 - i);
    }
  }

  // ----- cryptography as ideal functions -----

  datatype Crypto = Crypto(
    enc: (Key, seq<Byte>, seq<Byte>) -> (seq<Byte>, seq<Byte>),
    dec: (Key, seq<Byte>, seq<Byte>, seq<Byte>) -> Option<seq<Byte>>,
    pub: seq<Byte> -> PubKey,
    dh: (seq<Byte>, seq<Byte>) -> seq<Byte>,
    kdf: (seq<Byte>, nat) -> seq<Byte>
  )

  ghost predicate Ideal(c: Crypto) {
    && (forall k, n, p :: |c.enc(k, n, p).0| == |p| && |c.enc(k, n, p).1| == 16)
    && (forall k, n, p :: c.dec(k, n, c.enc(k, n, p).0, c.enc(k, n, p).1) == Some(p))
    && (forall a, b :: c.dh(a, c.pub(b)) == c.dh(b, c.pub(a)))
    && (forall s, t :: |c.kdf(s, t)| == 64 && c.kdf(s, t)[..32] != c.kdf(s, t)[32..])
  }

  /** The requirements can be met: a cipher that hides nothing meets them. */
  lemma IdealIsPossible() returns (c: Crypto)
    ensures Ideal(c)
  {
    c := Crypto((k: Key, n: seq<Byte>, p: seq<Byte>) => (p, seq(16, _ => 0)),
                (k: Key, n: seq<Byte>, ct: seq<Byte>, tag: seq<Byte>) => Some(ct),
                (a: seq<Byte>) => seq(32, _ => 0),
                (a: seq<Byte>, b: seq<Byte>) => [],
                (s: seq<Byte>, t: nat) => seq(32, _ => 0) + seq(32, _ => 1));
    forall s, t
      ensures |c.kdf(s, t)| == 64 && c.kdf(s, t)[..32] != c.kdf(s, t)[32..]
    {
      assert c.kdf(s, t)[..32][0] == 0 && c.kdf(s, t)[32..][0] == 1;
    }
  }

  /** 'DeriveDirectionalKeys': the two halves, exchanged on the server. */
  function DirectionalKeys(c: Crypto, secret: seq<Byte>, tag: nat, isServer: bool): (Key, Key) {
    var okm := c.kdf(secret, tag);
    if |okm| != 64 then ([], []) else if isServer then (okm[32..], okm[..32]) else (okm[..32], okm[32..])
  }

  /** Each side's receive key is the other's send key, and the two directions differ. */
  lemma KeysAgree(c: Crypto, clientPriv: seq<Byte>, serverPriv: seq<Byte>, tag: nat)
    requires Ideal(c)
    ensures var (ctx, crx) := DirectionalKeys(c, c.dh(clientPriv, c.pub(serverPriv)), tag, false);
      var (stx, srx) := DirectionalKeys(c, c.dh(serverPriv, c.pub(clientPriv)), tag, true);
      ctx == srx && stx == crx && ctx != stx
  {
    assert c.dh(clientPriv, c.pub(serverPriv)) == c.dh(serverPriv, c.pub(clientPriv));
    var okm := c.kdf(c.dh(clientPriv, c.pub(serverPriv)), tag);
    assert |okm| == 64;
  }

  // ----- frames -----

  function Frame(c: Crypto, key: Key, counter: nat, msg: seq<Byte>): seq<Byte> {
    var (ct, tag) := c.enc(key, BuildNonce(counter), msg);
    Header(|ct|, counter, tag) + ct
  }

  function Header(size: nat, counter: nat, tag: seq<Byte>): seq<Byte> {
    Little(size, 4) + [0, 0, 0, 0] + Little(counter, 8) + tag
  }

  lemma HeaderBack(size: nat, counter: nat, tag: seq<Byte>)
    requires size <= MAXFRAME && counter < TWO64 && |tag| == 16
    ensures var h := Header(size, counter, tag);
      |h| == HEADER && FromLittle(h[..4]) == size && FromLittle(h[8..16]) == counter && h[16..] == tag
  {
    var h := Header(size, counter, tag);
    assert h[..4] == Little(size, 4) && h[8..16] == Little(counter, 8) && h[16..] == tag;
    assert Pow256(4) == 0x1_0000_0000;
    assert Pow256(8) == TWO64;
    LittleBack(size, 4);
    LittleBack(counter, 8);
  }

  /** A frame as it goes over the wire: the size of the ciphertext, padding, the counter, both
      numbers least significant byte first, the tag, and the ciphertext. */
  ghost predicate IsFrame(fr: seq<Byte>, counter: nat, ct: seq<Byte>, tag: seq<Byte>) {
    && |fr| == 32 + |ct|
    && LittleAt(fr, 0, 4, |ct|) && LittleAt(fr, 4, 4, 0) && LittleAt(fr, 8, 8, counter) && fr[16..32] == tag && fr[32..] == ct
  }

  lemma FrameLayout(c: Crypto, key: Key, counter: nat, msg: seq<Byte>)
    requires Ideal(c)
    ensures var nonce := BuildNonce(counter);
      IsFrame(Frame(c, key, counter, msg), counter, c.enc(key, nonce, msg).0, c.enc(key, nonce, msg).1)
  {
    var nonce := BuildNonce(counter);
    var (ct, tag) := c.enc(key, nonce, msg);
    assert |c.enc(key, nonce, msg).1| == 16;
    hide Ideal;
    var fr := Frame(c, key, counter, msg);
    assert fr[0..4] == Little(|ct|, 4) && fr[8..16] == Little(counter, 8) && fr[16..32] == tag && fr[32..] == ct;
    assert fr[4..8] == [0, 0, 0, 0] == Little(0, 4);
    LittleIsAt(fr, 0, 4, |ct|);
    LittleIsAt(fr, 4, 4, 0);
    LittleIsAt(fr, 8, 8, counter);
  }

  /** The frames of a list of messages; counters are 64-bit and wrap around. */
  ghost function Frames(c: Crypto, key: Key, msgs: seq<seq<Byte>>): seq<Byte> {
    if msgs == [] then []
    else var n := |msgs| - 1; Frames(c, key, msgs[..n]) + Frame(c, key, n % TWO64, msgs[n])
  }

  /** The stream has a plain part and then frames; the reader has taken whole frames, and what it
      got is the beginning of what was sent. */
  ghost predicate Flow(c: Crypto, sent: seq<Byte>, taken: nat, plain: seq<Byte>, key: Key,
                       msgs: seq<seq<Byte>>, got: seq<seq<Byte>>) {
    && sent <= plain + Frames(c, key, msgs)
    && |got| <= |msgs| && got == msgs[..|got|]
    && taken == |plain| + |Frames(c, key, msgs[..|got|])| && taken <= |sent|
  }

  lemma FramesNext(c: Crypto, key: Key, msgs: seq<seq<Byte>>, m: seq<Byte>)
    ensures Frames(c, key, msgs + [m]) == Frames(c, key, msgs) + Frame(c, key, |msgs| % TWO64, m)
  {
    assert (msgs + [m])[..|msgs|] == msgs;
  }

  /** The frames of a prefix come first, and the next frame right after them. */
  lemma {:induction false} FramesPrefix(c: Crypto, key: Key, msgs: seq<seq<Byte>>, n: nat)
    requires n < |msgs|
    ensures Frames(c, key, msgs[..n]) + Frame(c, key, n % TWO64, msgs[n]) <= Frames(c, key, msgs)
    decreases |msgs|
  {
    var k := |msgs| - 1;
    if n < k {
      FramesPrefix(c, key, msgs[..k], n);
      assert msgs[..k][..n] == msgs[..n];
    }
  }

  /** What a reader finds at the place of the next frame. */
  lemma NextFrame(c: Crypto, sent: seq<Byte>, taken: nat, plain: seq<Byte>, key: Key, msgs: seq<seq<Byte>>, got: seq<seq<Byte>>, k: nat)
    requires Flow(c, sent, taken, plain, key, msgs, got) && taken + k <= |sent| && k > 0
    ensures |got| < |msgs|
    ensures k <= |Frame(c, key, |got| % TWO64, msgs[|got|])| ==>
      sent[taken..taken + k] == Frame(c, key, |got| % TWO64, msgs[|got|])[..k]
  {
    hide Frames, Frame;
    NotAllRead(c, sent, taken, plain, key, msgs, got);
    var n := |got|;
    FramesPrefix(c, key, msgs, n);
    var fr, early := Frame(c, key, n % TWO64, msgs[n]), Frames(c, key, msgs[..n]);
    if k <= |fr| {
      SliceOf(sent, plain, Frames(c, key, msgs), early, fr, taken, k);
    }
  }

  lemma NotAllRead(c: Crypto, sent: seq<Byte>, taken: nat, plain: seq<Byte>, key: Key, msgs: seq<seq<Byte>>, got: seq<seq<Byte>>)
    requires Flow(c, sent, taken, plain, key, msgs, got) && taken < |sent|
    ensures |got| < |msgs|
  {
    hide Frames;
    assert msgs[..|msgs|] == msgs;
  }

  lemma SliceOf(sent: seq<Byte>, plain: seq<Byte>, frames: seq<Byte>, early: seq<Byte>, fr: seq<Byte>, taken: nat, k: nat)
    requires sent <= plain + frames && early + fr <= frames && taken == |plain| + |early| && taken + k <= |sent| && k <= |fr|
    ensures sent[taken..taken + k] == fr[..k]
  {
    forall i | 0 <= i < k
      ensures sent[taken + i] == fr[i]
    {
      assert sent[taken + i] == (plain + frames)[taken + i];
      assert frames[|early| + i] == (early + fr)[|early| + i];
    }
  }

  // ----- endpoints -----

  /** A message that fits in a frame. */
  predicate Fits(m: seq<Byte>) {
    0 < |m| <= MAXFRAME
  }

  ghost predicate AllFit(msgs: seq<seq<Byte>>) {
    forall i :: 0 <= i < |msgs| ==> Fits(msgs[i])
  }

  class Transport {
    const c: Crypto
    const outp: Pipe
    const inp: Pipe
    var enabled: bool
    var txKey: Key
    var rxKey: Key
    var tx: nat
    var rx: nat

    ghost predicate Valid()
      reads this, outp, inp
    {
      Ideal(c) && outp != inp && outp.Valid() && inp.Valid() && tx < TWO64 && rx < TWO64
    }

    constructor (c: Crypto, outp: Pipe, inp: Pipe)
      requires Ideal(c) && outp != inp && outp.Valid() && inp.Valid()
      ensures Valid() && this.c == c && this.outp == outp && this.inp == inp && !enabled
    {
      this.c, this.outp, this.inp := c, outp, inp;
      enabled, txKey, rxKey, tx, rx := false, [], [], 0, 0;
    }

    /** 'sendSecureObject': the whole frame goes out, or a part of it and an error. */
    method SendSecure(msg: seq<Byte>) returns (ok: bool, ghost use: (Key, seq<Byte>))
      requires Valid()
      modifies this`tx, outp
      ensures use == (txKey, BuildNonce(old(tx))) && outp.over == (old(outp.over) || !ok)
      ensures IsNonce(use.1, old(tx))
      ensures var (ct, tag) := c.enc(txKey, use.1, msg); IsFrame(Frame(c, txKey, old(tx), msg), old(tx), ct, tag)
      ensures Valid() && tx == (old(tx) + 1) % TWO64 && outp.taken == old(outp.taken)
      ensures exists k: nat :: k <= |Frame(c, txKey, old(tx), msg)|
                && outp.sent == old(outp.sent) + Frame(c, txKey, old(tx), msg)[..k]
                && (ok ==> k == |Frame(c, txKey, old(tx), msg)|)
    {
      NonceBytes(tx);
      FrameLayout(c, txKey, tx, msg);
      hide LittleAt, IsNonce, IsFrame, Ideal, BuildNonce;
      var counter := tx;
      tx := (tx + 1) % TWO64;
      var nonce := BuildNonce(counter);
      use := (txKey, nonce);
      var (ct, tag) := c.enc(txKey, nonce, msg);
      ok := SendParts(Header(|ct|, counter, tag), ct);
    }

    /** A header, and, if it went out, what follows it. */
    method SendParts(h: seq<Byte>, ct: seq<Byte>) returns (ok: bool)
      requires Valid()
      modifies outp
      ensures Valid() && outp.over == (old(outp.over) || !ok) && outp.taken == old(outp.taken)
      ensures exists k: nat :: k <= |h + ct| && outp.sent == old(outp.sent) + (h + ct)[..k] && (ok ==> k == |h + ct|)
    {
      hide Ideal;
      ghost var was := outp.sent;
      ok := outp.SendBuffer(h);
      ghost var k: nat :| k <= |h| && outp.sent == was + h[..k] && (ok ==> k == |h|);
      assert (h + ct)[..k] == h[..k];
      if ok {
        assert outp.sent == was + h;
        ok := outp.SendBuffer(ct);
        ghost var j: nat :| j <= |ct| && outp.sent == was + h + ct[..j] && (ok ==> j == |ct|);
        assert was + h + ct[..j] == was + (h + ct)[..|h| + j];
      }
    }

    /** 'recvSecureObject': what is received is the next message that was sent. */
    method RecvSecure(size: nat, ghost plain: seq<Byte>, ghost msgs: seq<seq<Byte>>, ghost got: seq<seq<Byte>>)
      returns (ok: bool, msg: seq<Byte>)
      requires Valid() && AllFit(msgs) && rx == |got| % TWO64
      requires Flow(c, inp.sent, inp.taken, plain, rxKey, msgs, got)
      modifies this`rx, inp
      ensures Valid() && inp.sent == old(inp.sent) && outp.sent == old(outp.sent)
      ensures ok ==> |got| < |msgs| && msg == msgs[|got|] && rx == |got + [msg]| % TWO64
      ensures ok ==> Flow(c, inp.sent, inp.taken, plain, rxKey, msgs, got + [msg])
      ensures old(inp.over) ==> inp.over
      ensures !ok ==> inp.over || (|got| < |msgs| && |msgs[|got|]| != size)
    {
      hide Ideal, Flow, Frame, FromLittle, AllFit;
      FitsAt(msgs, got);
      var h, ct;
      ok, h, ct := ReadFrame(plain, msgs, got);
      if !ok {
        return false, [];
      }
      FrameParts(c, rxKey, |got| % TWO64, msgs[|got|]);
      FramePieces(h, ct, Frame(c, rxKey, |got| % TWO64, msgs[|got|]));
      hide BuildNonce;
      if FromLittle(h[8..16]) != rx {
        return false, [];
      }
      var p := c.dec(rxKey, BuildNonce(rx), ct, h[16..]);
      if p.None? {
        return false, [];
      }
      rx := (rx + 1) % TWO64;
      if |p.value| != size {
        return false, [];
      }
      msg := p.value;
    }

    /** The header, and then as much payload as it says. */
    method ReadFrame(ghost plain: seq<Byte>, ghost msgs: seq<seq<Byte>>, ghost got: seq<seq<Byte>>)
      returns (ok: bool, h: seq<Byte>, ct: seq<Byte>)
      requires Valid() && AllFit(msgs) && Flow(c, inp.sent, inp.taken, plain, rxKey, msgs, got)
      modifies inp
      ensures Valid() && inp.sent == old(inp.sent)
      ensures ok ==> |got| < |msgs| && Flow(c, inp.sent, inp.taken, plain, rxKey, msgs, got + [msgs[|got|]])
      ensures ok ==> |h| == HEADER && h + ct == Frame(c, rxKey, |got| % TWO64, msgs[|got|])
      ensures inp.over == (old(inp.over) || !ok)
    {
      hide Ideal, Flow, Frame, FromLittle;
      ghost var at := inp.taken;
      ct := [];
      ok, h := inp.ReceiveBuffer(HEADER);
      if !ok {
        return;
      }
      NextFrame(c, inp.sent, at, plain, rxKey, msgs, got, HEADER);
      ghost var fr := Frame(c, rxKey, |got| % TWO64, msgs[|got|]);
      FrameParts(c, rxKey, |got| % TWO64, msgs[|got|]);
      var size1 := FromLittle(h[..4]);
      if size1 == 0 || size1 > MAXFRAME {
        return false, [], [];
      }
      ok, ct := inp.ReceiveBuffer(size1);
      if !ok {
        return;
      }
      NextFrame(c, inp.sent, at, plain, rxKey, msgs, got, |fr|);
      Halves(inp.sent, at, fr, size1);
      assert fr == fr[..HEADER] + fr[HEADER..];
      Advanced(c, inp.sent, at, plain, rxKey, msgs, got);
    }
  }

  /** The header and the payload of a frame, as the receiver takes them apart. */
  lemma FrameParts(c: Crypto, key: Key, counter: nat, msg: seq<Byte>)
    requires Ideal(c) && counter < TWO64 && Fits(msg)
    ensures var fr := Frame(c, key, counter, msg);
      && |fr| == HEADER + |msg|
      && FromLittle(fr[..HEADER][..4]) == |msg| && FromLittle(fr[..HEADER][8..16]) == counter
      && c.dec(key, BuildNonce(counter), fr[HEADER..], fr[..HEADER][16..]) == Some(msg)
  {
    var (ct, tag) := c.enc(key, BuildNonce(counter), msg);
    var fr := Frame(c, key, counter, msg);
    assert |ct| == |c.enc(key, BuildNonce(counter), msg).0| && |tag| == |c.enc(key, BuildNonce(counter), msg).1|;
    HeaderBack(|ct|, counter, tag);
    assert fr[..HEADER] == Header(|ct|, counter, tag) && fr[HEADER..] == ct;
    assert c.dec(key, BuildNonce(counter), c.enc(key, BuildNonce(counter), msg).0, c.enc(key, BuildNonce(counter), msg).1) == Some(msg);
  }

  lemma FitsAt(msgs: seq<seq<Byte>>, got: seq<seq<Byte>>)
    requires AllFit(msgs)
    ensures |got| < |msgs| ==> Fits(msgs[|got|])
  {
  }

  lemma FramePieces(h: seq<Byte>, ct: seq<Byte>, fr: seq<Byte>)
    requires |h| == HEADER && h + ct == fr
    ensures fr[..HEADER] == h && fr[HEADER..] == ct
  {
  }

  lemma Halves(sent: seq<Byte>, at: nat, fr: seq<Byte>, n: nat)
    requires at + |fr| <= |sent| && |fr| == HEADER + n && sent[at..at + |fr|] == fr
    ensures sent[at + HEADER..at + HEADER + n] == fr[HEADER..]
  {
    assert sent[at + HEADER..at + HEADER + n] == sent[at..at + |fr|][HEADER..];
  }

  lemma Advanced(c: Crypto, sent: seq<Byte>, taken: nat, plain: seq<Byte>, key: Key, msgs: seq<seq<Byte>>, got: seq<seq<Byte>>)
    requires Flow(c, sent, taken, plain, key, msgs, got) && |got| < |msgs|
    requires taken + |Frame(c, key, |got| % TWO64, msgs[|got|])| <= |sent|
    ensures Flow(c, sent, taken + |Frame(c, key, |got| % TWO64, msgs[|got|])|, plain, key, msgs, got + [msgs[|got|]])
  {
    hide Frame, Frames;
    assert msgs[..|got| + 1] == msgs[..|got|] + [msgs[|got|]];
    FramesNext(c, key, msgs[..|got|], msgs[|got|]);
  }
}
