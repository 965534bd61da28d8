/** The handshake, and whole runs of the two parties after it. */
module SecureSession {
  import opened Options
  import opened Wire
  import opened Secure
  import opened Records

  const ZeroKey: PubKey := seq(32, _ => 0)

  /** 'CreateHandshakeSecure', or 'CreateHandshake' for a plain session. */
  function Reply(c: Crypto, h: Hello, token: U32, priv: seq<Byte>): Welcome {
    if h.secureMode == 1 then Welcome(h.flag, token, 1, h.tag, c.pub(priv)) else Welcome(h.flag, token, 0, 0, ZeroKey)
  }

  lemma KeyMaterial(c: Crypto)
    requires Ideal(c)
    ensures forall s, t :: |c.kdf(s, t)| == 64
  {
  }

  /** The server's half of the handshake, for one accepted connection; the session is secure
      exactly if the client asks for it. */
  method ServerHandshake(server: Transport, priv: seq<Byte>, token: U32) returns (ok: bool, ghost h: Option<Hello>)
    requires server.Valid()
    modifies server, server.outp, server.inp
    ensures server.Valid()
    ensures server.inp.sent == old(server.inp.sent) && server.outp.taken == old(server.outp.taken)
    ensures old(server.inp.taken) <= server.inp.taken
    ensures server.inp.taken == old(server.inp.taken) + REQUEST_SIZE || (!ok && server.inp.over)
    ensures server.inp.taken == old(server.inp.taken) + REQUEST_SIZE && !server.inp.over ==>
      h == HelloOf(server.inp.sent[old(server.inp.taken)..server.inp.taken])
    ensures ok ==>
      && server.inp.taken == old(server.inp.taken) + REQUEST_SIZE
      && h == HelloOf(server.inp.sent[old(server.inp.taken)..server.inp.taken]) && h.Some? && h.value.version == 6
      && server.outp.sent == old(server.outp.sent) + WelcomeBytes(
           if h.value.secureMode == 1 then Welcome(h.value.flag, token, 1, h.value.tag, server.c.pub(priv))
           else Welcome(h.value.flag, token, 0, 0, seq(32, _ => 0)))
    ensures ok && h.value.secureMode == 1 ==>
      && server.enabled && server.tx == 0 && server.rx == 0
      && var okm := server.c.kdf(server.c.dh(priv, h.value.pub), h.value.tag); server.txKey == okm[32..] && server.rxKey == okm[..32]
    ensures !ok || h.value.secureMode != 1 ==> server.enabled == old(server.enabled)
    ensures !ok ==> server.inp.over || server.outp.over || h.None? || h.value.version != VERSION
  {
    KeyMaterial(server.c);
    hide Ideal, HelloOf, WelcomeBytes;
    h := None;
    var data;
    ok, data := server.inp.ReceiveBuffer(REQUEST_SIZE);
    if !ok {
      return;
    }
    var hello := HelloOf(data);
    h := hello;
    if hello.None? || hello.value.version != VERSION {
      var sent := server.outp.SendBuffer(WelcomeBytes(Refused));
      return false, h;
    }
    var reply := WelcomeBytes(Reply(server.c, hello.value, token, priv));
    assert reply[..|reply|] == reply;
    if hello.value.secureMode != 1 {
      ok := server.outp.SendBuffer(reply);
      return;
    }
    var secret := server.c.dh(priv, hello.value.pub);
    var (txk, rxk) := DirectionalKeys(server.c, secret, hello.value.tag, true);
    server.txKey, server.rxKey, server.tx, server.rx := txk, rxk, 0, 0;
    ok := server.outp.SendBuffer(reply);    // still in plain text
    if ok {
      server.enabled := true;
    }
  }

  /** The client's half, after its request went out. */
  method ClientFinish(client: Transport, priv: seq<Byte>, flag: U16, tag: U64) returns (ok: bool, ghost w: Welcome)
    requires client.Valid()
    modifies client, client.inp
    ensures client.Valid()
    ensures client.inp.sent == old(client.inp.sent) && old(client.inp.taken) <= client.inp.taken
    ensures !client.inp.over ==>
      && client.inp.taken == old(client.inp.taken) + RESPONSE_SIZE
      && w == WelcomeOf(client.inp.sent[old(client.inp.taken)..client.inp.taken])
    ensures ok ==>
      && client.inp.taken == old(client.inp.taken) + RESPONSE_SIZE
      && w == WelcomeOf(client.inp.sent[old(client.inp.taken)..client.inp.taken])
      && client.enabled && client.tx == 0 && client.rx == 0
      && w.Welcome?
      && var okm := client.c.kdf(client.c.dh(priv, w.pub), tag); client.txKey == okm[..32] && client.rxKey == okm[32..]
    ensures !client.inp.over ==> (ok <==> w.Welcome? && w.flag == flag && w.secureMode == 1 && w.tag == tag)
    ensures ok ==> w.Welcome? && w.flag == flag && w.secureMode == 1 && w.tag == tag
  {
    KeyMaterial(client.c);
    hide Ideal, WelcomeOf;
    w := Refused;
    var data;
    ok, data := client.inp.ReceiveBuffer(RESPONSE_SIZE);
    if !ok {
      return;
    }
    var welcome := WelcomeOf(data);
    w := welcome;
    if welcome.Refused? || welcome.flag != flag {
      return false, w;
    }
    if welcome.secureMode != 1 || welcome.tag != tag {
      return false, w;
    }
    var (txk, rxk) := DirectionalKeys(client.c, client.c.dh(priv, welcome.pub), tag, false);
    client.txKey, client.rxKey := txk, rxk;
    client.enabled, client.tx, client.rx := true, 0, 0;
  }

  /** The two ends of one connection. */
  ghost predicate Joined(client: Transport, server: Transport)
    reads client, server, client.outp, client.inp, server.outp, server.inp
  {
    && client.Valid() && server.Valid() && client != server && client.c == server.c
    && client.outp == server.inp && client.inp == server.outp
  }

  method Connect(c: Crypto) returns (client: Transport, server: Transport)
    requires Ideal(c)
    ensures fresh(client) && fresh(server) && fresh(client.outp) && fresh(client.inp) && Joined(client, server) && client.c == c
    ensures client.outp.sent == [] && client.outp.taken == 0 && client.inp.sent == [] && client.inp.taken == 0
  {
    hide Ideal;
    var up := new Pipe();
    var down := new Pipe();
    client := new Transport(c, up, down);
    server := new Transport(c, down, up);
  }

  /** The handshake of the two parties fails only when the connection is over.  Otherwise each
      side's receive key is the other's send key, and both have read exactly the plain part of
      their stream. */
  method Handshake(client: Transport, server: Transport, clientPriv: seq<Byte>, serverPriv: seq<Byte>,
                   flag: U16, tag: U64, token: U32) returns (ok: bool, ghost plain1: seq<Byte>, ghost plain2: seq<Byte>)
    requires Joined(client, server)
    requires client.outp.sent == [] && client.outp.taken == 0 && client.inp.sent == [] && client.inp.taken == 0
    modifies client, server, client.outp, client.inp
    ensures Joined(client, server)
    ensures !ok ==> client.outp.over || client.inp.over
    ensures ok ==> client.enabled && server.enabled
    ensures ok ==> client.txKey == server.rxKey && client.rxKey == server.txKey && client.txKey != client.rxKey
    ensures ok ==> var okm := client.c.kdf(client.c.dh(clientPriv, client.c.pub(serverPriv)), tag);
      client.txKey == okm[..32] && client.rxKey == okm[32..]
    ensures ok ==> IsHello(plain1, Hello(flag, 6, 1, tag, client.c.pub(clientPriv)))
    ensures ok ==> IsWelcome(plain2, Welcome(flag, token, 1, tag, client.c.pub(serverPriv)))
    ensures ok ==> client.tx == 0 && client.rx == 0 && server.tx == 0 && server.rx == 0
    ensures ok ==> client.outp.sent == plain1 && client.outp.taken == |plain1| == REQUEST_SIZE
    ensures ok ==> client.inp.sent == plain2 && client.inp.taken == |plain2| == RESPONSE_SIZE
  {
    hide Ideal, HelloOf, HelloBytes, WelcomeOf, WelcomeBytes;
    ghost var c := client.c;
    var hello := Hello(flag, VERSION, 1, tag, client.c.pub(clientPriv));
    var request := HelloBytes(hello);
    ghost var reply := Welcome(flag, token, 1, tag, c.pub(serverPriv));
    HelloBack(hello);
    WelcomeBack(reply);
    HelloLayout(hello);
    WelcomeLayout(reply);
    hide LittleAt;
    plain1, plain2 := request, WelcomeBytes(reply);
    ok := client.outp.SendBuffer(request);
    if !ok {
      return;
    }
    assert client.outp.sent == request;
    assert request[0..|request|] == request;
    ghost var h, w;
    ok, h := ServerHandshake(server, serverPriv, token);
    if !ok {
      return;
    }
    assert h == Some(hello);
    assert server.outp.sent == plain2;
    assert plain2[0..|plain2|] == plain2;
    ok, w := ClientFinish(client, clientPriv, flag, tag);
    if !ok {
      return;
    }
    assert w == reply;
    KeysAgree(c, clientPriv, serverPriv, tag);
  }

  // ----- conversations -----

  datatype Event = ClientSends(m: seq<Byte>) | ServerReceives | ServerSends(m: seq<Byte>) | ClientReceives

  lemma FlowSend(c: Crypto, sent: seq<Byte>, taken: nat, plain: seq<Byte>, key: Key, msgs: seq<seq<Byte>>, got: seq<seq<Byte>>,
                 m: seq<Byte>, k: nat)
    requires Flow(c, sent, taken, plain, key, msgs, got) && sent == plain + Frames(c, key, msgs)
    requires k <= |Frame(c, key, |msgs| % TWO64, m)|
    ensures Flow(c, sent + Frame(c, key, |msgs| % TWO64, m)[..k], taken, plain, key, msgs + [m], got)
    ensures plain + Frames(c, key, msgs + [m]) == sent + Frame(c, key, |msgs| % TWO64, m)
  {
    hide Frame, Frames;
    FramesNext(c, key, msgs, m);
    assert (msgs + [m])[..|got|] == msgs[..|got|];
    var fr := Frame(c, key, |msgs| % TWO64, m);
    assert plain + (Frames(c, key, msgs) + fr) == sent + fr;
    assert sent + fr[..k] <= sent + fr;
  }

  /** One direction of a conversation: what the sender handed over and what the receiver got.
      Either end may have failed and stopped. */
  ghost predicate Direction(c: Crypto, sent: seq<Byte>, taken: nat, txKey: Key, rxKey: Key, tx: nat, rx: nat,
                            plain: seq<Byte>, msgs: seq<seq<Byte>>, got: seq<seq<Byte>>, sending: bool, receiving: bool)
  {
    && AllFit(msgs) && got <= msgs && txKey == rxKey
    && (sending ==> sent == plain + Frames(c, txKey, msgs) && tx == |msgs| % TWO64)
    && (receiving ==> Flow(c, sent, taken, plain, txKey, msgs, got) && rx == |got| % TWO64)
  }

  ghost predicate Between(sender: Transport, receiver: Transport, plain: seq<Byte>, msgs: seq<seq<Byte>>, got: seq<seq<Byte>>,
                          sending: bool, receiving: bool)
    reads sender, receiver, sender.outp
  {
    Direction(sender.c, sender.outp.sent, sender.outp.taken, sender.txKey, receiver.rxKey, sender.tx, receiver.rx,
              plain, msgs, got, sending, receiving)
  }

  /** One side sends a message; on failure it stops. */
  method SendOne(sender: Transport, receiver: Transport, m: seq<Byte>, ghost plain: seq<Byte>, ghost msgs: seq<seq<Byte>>,
                 ghost got: seq<seq<Byte>>, ghost receiving: bool) returns (ok: bool, ghost use: (Key, seq<Byte>))
    requires Joined(sender, receiver) && Fits(m) && Between(sender, receiver, plain, msgs, got, true, receiving)
    modifies sender`tx, sender.outp
    ensures Joined(sender, receiver) && Between(sender, receiver, plain, msgs + [m], got, ok, receiving)
    ensures use == (sender.txKey, BuildNonce(|msgs| % TWO64)) && sender.outp.over == (old(sender.outp.over) || !ok)
  {
    hide Ideal, Frames, Frame, Flow, BuildNonce;
    ghost var was := sender.outp.sent;
    ok, use := sender.SendSecure(m);
    ghost var fr := Frame(sender.c, sender.txKey, |msgs| % TWO64, m);
    ghost var k: nat :| k <= |fr| && sender.outp.sent == was + fr[..k] && (ok ==> k == |fr|);
    if receiving {
      FlowSend(sender.c, was, sender.outp.taken, plain, sender.txKey, msgs, got, m, k);
    }
    NextTotal(sender.c, plain, sender.txKey, msgs, m);
    assert fr[..|fr|] == fr;
  }

  lemma NextTotal(c: Crypto, plain: seq<Byte>, key: Key, msgs: seq<seq<Byte>>, m: seq<Byte>)
    ensures plain + Frames(c, key, msgs + [m]) == plain + Frames(c, key, msgs) + Frame(c, key, |msgs| % TWO64, m)
  {
    FramesNext(c, key, msgs, m);
  }

  /** One side receives a message; on failure it stops. */
  method ReceiveOne(sender: Transport, receiver: Transport, size: nat, ghost plain: seq<Byte>, ghost msgs: seq<seq<Byte>>,
                    got: seq<seq<Byte>>, ghost sending: bool) returns (ok: bool, got2: seq<seq<Byte>>)
    requires Joined(sender, receiver) && Between(sender, receiver, plain, msgs, got, sending, true)
    modifies receiver`rx, receiver.inp
    ensures Joined(sender, receiver) && Between(sender, receiver, plain, msgs, got2, sending, ok)
    ensures receiver.inp.sent == old(receiver.inp.sent)
    ensures if ok then |got2| == |got| + 1 else got2 == got
    ensures old(receiver.inp.over) ==> receiver.inp.over
    ensures !ok ==> receiver.inp.over || (|got| < |msgs| && |msgs[|got|]| != size)
  {
    hide Ideal, Frames, Flow;
    var m;
    ok, m := receiver.RecvSecure(size, plain, msgs, got);
    got2 := if ok then got + [m] else got;
  }

  // ----- what a list of events asks for -----

  predicate SendsBy(ev: Event, client: bool) {
    if client then ev.ClientSends? else ev.ServerSends?
  }

  predicate ReceivesBy(ev: Event, client: bool) {
    if client then ev.ClientReceives? else ev.ServerReceives?
  }

  /** 'oks' says which events succeeded; nothing that one side sends after a failure counts. */
  predicate StillSending(events: seq<Event>, oks: seq<bool>, client: bool)
    requires |oks| == |events|
  {
    forall i :: 0 <= i < |events| && SendsBy(events[i], client) ==> oks[i]
  }

  predicate StillReceiving(events: seq<Event>, oks: seq<bool>, client: bool)
    requires |oks| == |events|
  {
    forall i :: 0 <= i < |events| && ReceivesBy(events[i], client) ==> oks[i]
  }

  /** The messages one side hands over: all of its send events up to the first that fails. */
  function Sent(events: seq<Event>, oks: seq<bool>, client: bool): seq<seq<Byte>>
    requires |oks| == |events|
  {
    if events == [] then [] else
      var n := |events| - 1;
      Sent(events[..n], oks[..n], client) +
      if SendsBy(events[n], client) && StillSending(events[..n], oks[..n], client) then [events[n].m] else []
  }

  /** The number of messages one side gets: its receive events up to the first that fails. */
  function Received(events: seq<Event>, oks: seq<bool>, client: bool): nat
    requires |oks| == |events|
  {
    if events == [] then 0 else
      var n := |events| - 1;
      Received(events[..n], oks[..n], client) +
      if ReceivesBy(events[n], client) && StillReceiving(events[..n], oks[..n], client) && oks[n] then 1 else 0
  }

  lemma StillNext(events: seq<Event>, oks: seq<bool>, ev: Event, ok: bool, client: bool)
    requires |oks| == |events|
    ensures StillSending(events + [ev], oks + [ok], client) <==> StillSending(events, oks, client) && (SendsBy(ev, client) ==> ok)
    ensures StillReceiving(events + [ev], oks + [ok], client) <==> StillReceiving(events, oks, client) && (ReceivesBy(ev, client) ==> ok)
  {
    var events2, oks2 := events + [ev], oks + [ok];
    assert forall i :: 0 <= i < |events| ==> events2[i] == events[i] && oks2[i] == oks[i];
    assert events2[|events|] == ev && oks2[|events|] == ok;
  }

  lemma SentNext(events: seq<Event>, oks: seq<bool>, ev: Event, ok: bool, client: bool)
    requires |oks| == |events|
    ensures Sent(events + [ev], oks + [ok], client) ==
      Sent(events, oks, client) + (if SendsBy(ev, client) && StillSending(events, oks, client) then [ev.m] else [])
    ensures Received(events + [ev], oks + [ok], client) ==
      Received(events, oks, client) + (if ReceivesBy(ev, client) && StillReceiving(events, oks, client) && ok then 1 else 0)
  {
    hide StillSending, StillReceiving;
    assert (events + [ev])[..|events|] == events && (oks + [ok])[..|oks|] == oks;
  }

  // ----- keys and nonces used -----

  /** A message sent: by which side, and how many that side had sent before. */
  datatype Use = Use(client: bool, n: nat)

  function KeyNonce(ck: Key, sk: Key, u: Use): (Key, seq<Byte>) {
    (if u.client then ck else sk, BuildNonce(u.n % TWO64))
  }

  ghost predicate NoRepeats<T>(s: seq<T>) {
    forall i, j :: 0 <= i < j < |s| ==> s[i] != s[j]
  }

  /** 'uses' lists the first 'nc' messages of the client and the first 'ns' of the server. */
  ghost predicate UsesOk(uses: seq<Use>, nc: nat, ns: nat) {
    && NoRepeats(uses)
    && (forall u :: u in uses ==> u.n < if u.client then nc else ns)
    && (forall n: nat :: n < nc ==> Use(true, n) in uses)
    && (forall n: nat :: n < ns ==> Use(false, n) in uses)
  }

  lemma UsesNext(uses: seq<Use>, nc: nat, ns: nat, client: bool)
    requires UsesOk(uses, nc, ns)
    ensures UsesOk(uses + [Use(client, if client then nc else ns)], if client then nc + 1 else nc, if client then ns else ns + 1)
  {
    var u := Use(client, if client then nc else ns);
    assert u !in uses;
    var uses2 := uses + [u];
    assert forall v :: v in uses2 <==> v in uses || v == u;
  }

  lemma KeyNonceInjective(ck: Key, sk: Key, u: Use, v: Use)
    requires ck != sk && u.n < TWO64 && v.n < TWO64 && KeyNonce(ck, sk, u) == KeyNonce(ck, sk, v)
    ensures u == v
  {
    hide BuildNonce;
    NonceInjective(u.n, v.n);
  }

  /** The pairs of key and nonce that were used. */
  ghost predicate UsedBy(used: seq<(Key, seq<Byte>)>, uses: seq<Use>, ck: Key, sk: Key) {
    |used| == |uses| && forall i :: 0 <= i < |used| ==> used[i] == KeyNonce(ck, sk, uses[i])
  }

  /** No key is used twice with the same nonce exactly as long as no side has sent more than
      2^64 messages. */
  lemma NoncesExact(used: seq<(Key, seq<Byte>)>, uses: seq<Use>, nc: nat, ns: nat, ck: Key, sk: Key)
    requires UsesOk(uses, nc, ns) && UsedBy(used, uses, ck, sk) && ck != sk
    ensures NoRepeats(used) <==> nc <= TWO64 && ns <= TWO64
  {
    hide KeyNonce;
    if nc <= TWO64 && ns <= TWO64 {
      forall i, j | 0 <= i < j < |used|
        ensures used[i] != used[j]
      {
        assert uses[i] in uses && uses[j] in uses && uses[i] != uses[j];
        if used[i] == used[j] {
          KeyNonceInjective(ck, sk, uses[i], uses[j]);
        }
      }
    } else {
      Wrapped(used, uses, nc, ns, ck, sk, nc > TWO64);
    }
  }

  lemma Wrapped(used: seq<(Key, seq<Byte>)>, uses: seq<Use>, nc: nat, ns: nat, ck: Key, sk: Key, client: bool)
    requires UsesOk(uses, nc, ns) && UsedBy(used, uses, ck, sk) && (if client then nc else ns) > TWO64
    ensures !NoRepeats(used)
  {
    hide BuildNonce;
    var u, v := Use(client, 0), Use(client, TWO64);
    assert u in uses && v in uses;
    var i :| 0 <= i < |uses| && uses[i] == u;
    var j :| 0 <= j < |uses| && uses[j] == v;
    assert used[i] == KeyNonce(ck, sk, u) == KeyNonce(ck, sk, v) == used[j];
    assert i != j;
    if i < j {
      assert used[i] == used[j];
    } else {
      assert used[j] == used[i];
    }
  }

  // ----- whole conversations -----

  /** Every message fits in a frame. */
  ghost predicate EventsFit(events: seq<Event>) {
    forall i :: 0 <= i < |events| && (events[i].ClientSends? || events[i].ServerSends?) ==> 0 < |events[i].m| <= 0x10_0000
  }

  /** Requests and responses have their fixed sizes. */
  ghost predicate Sized(msgs: seq<seq<Byte>>, size: nat) {
    forall i :: 0 <= i < |msgs| ==> |msgs[i]| == size
  }

  /** A side that has failed to send sends nothing more, and one that has failed to receive
      receives nothing more. */
  ghost predicate StaysFailed(events: seq<Event>, oks: seq<bool>, client: bool)
    requires |oks| == |events|
  {
    forall i, j :: 0 <= i < j < |events| && !oks[i] && SameDirection(events[i], events[j], client) ==> !oks[j]
  }

  ghost predicate SameDirection(ev: Event, ev2: Event, client: bool) {
    (SendsBy(ev, client) && SendsBy(ev2, client)) || (ReceivesBy(ev, client) && ReceivesBy(ev2, client))
  }

  lemma FailedNext(events: seq<Event>, oks: seq<bool>, ev: Event, ok: bool, client: bool)
    requires |oks| == |events| && StaysFailed(events, oks, client)
    requires ok ==> (SendsBy(ev, client) ==> StillSending(events, oks, client)) && (ReceivesBy(ev, client) ==> StillReceiving(events, oks, client))
    ensures StaysFailed(events + [ev], oks + [ok], client)
  {
    hide SendsBy, ReceivesBy;
    var events2, oks2 := events + [ev], oks + [ok];
    forall i, j | 0 <= i < j < |events2| && !oks2[i] && SameDirection(events2[i], events2[j], client)
      ensures !oks2[j]
    {
      assert events2[i] == events[i] && oks2[i] == oks[i];
      if j < |events| {
        assert events2[j] == events[j] && oks2[j] == oks[j];
      }
    }
  }

  /** Where one side stands after some events. */
  ghost predicate Side(events: seq<Event>, oks: seq<bool>, client: bool, sending: bool, receiving: bool,
                       sent: seq<seq<Byte>>, got: seq<seq<Byte>>)
  {
    && |oks| == |events| && StaysFailed(events, oks, client)
    && sending == StillSending(events, oks, client) && receiving == StillReceiving(events, oks, client)
    && sent == Sent(events, oks, client) && |got| == Received(events, oks, client)
  }

  /** A direction has stopped because the connection is over or a message has the wrong size. */
  ghost predicate Excused(over: bool, sending: bool, receiving: bool, msgs: seq<seq<Byte>>, got: seq<seq<Byte>>, size: nat) {
    && (sending || over)
    && (receiving || over || (|got| < |msgs| && |msgs[|got|]| != size))
  }

  lemma NothingYet(sender: Transport, receiver: Transport, plain: seq<Byte>)
    requires Joined(sender, receiver) && sender.txKey == receiver.rxKey && sender.tx == 0 && receiver.rx == 0
    requires sender.outp.sent == plain && sender.outp.taken == |plain|
    ensures Between(sender, receiver, plain, [], [], true, true)
  {
    hide Ideal;
    assert plain + [] == plain;
  }

  lemma NoEvents()
    ensures Side([], [], true, true, true, [], []) && Side([], [], false, true, true, [], [])
  {
  }

  lemma NoUses(ck: Key, sk: Key)
    ensures UsesOk([], 0, 0) && UsedBy([], [], ck, sk)
  {
  }

  lemma UseNext(used: seq<(Key, seq<Byte>)>, uses: seq<Use>, ck: Key, sk: Key, nc: nat, ns: nat, client: bool)
    requires UsesOk(uses, nc, ns) && UsedBy(used, uses, ck, sk)
    ensures var n := if client then nc else ns;
      && UsesOk(uses + [Use(client, n)], if client then nc + 1 else nc, if client then ns else ns + 1)
      && UsedBy(used + [(if client then ck else sk, BuildNonce(n % TWO64))], uses + [Use(client, n)], ck, sk)
  {
    hide BuildNonce, UsesOk;
    UsesNext(uses, nc, ns, client);
  }

  /** One more event, seen from one side. */
  lemma SideNext(events: seq<Event>, oks: seq<bool>, ev: Event, ok: bool, client: bool, sending: bool, receiving: bool,
                 sent: seq<seq<Byte>>, got: seq<seq<Byte>>, got2: seq<seq<Byte>>)
    requires Side(events, oks, client, sending, receiving, sent, got)
    requires |got2| == |got| + if ReceivesBy(ev, client) && receiving && ok then 1 else 0
    requires ok ==> (SendsBy(ev, client) ==> sending) && (ReceivesBy(ev, client) ==> receiving)
    ensures Side(events + [ev], oks + [ok], client, sending && (SendsBy(ev, client) ==> ok), receiving && (ReceivesBy(ev, client) ==> ok),
                 if SendsBy(ev, client) && sending then sent + [ev.m] else sent, got2)
  {
    hide StillSending, StillReceiving, Sent, Received, StaysFailed;
    FailedNext(events, oks, ev, ok, client);
    StillNext(events, oks, ev, ok, client);
    SentNext(events, oks, ev, ok, client);
  }

  lemma SideEnd(events: seq<Event>, oks: seq<bool>, client: bool, sending: bool, receiving: bool, sent: seq<seq<Byte>>, got: seq<seq<Byte>>)
    requires Side(events, oks, client, sending, receiving, sent, got)
    ensures |oks| == |events| && sending == StillSending(events, oks, client) && receiving == StillReceiving(events, oks, client)
    ensures sent == Sent(events, oks, client) && |got| == Received(events, oks, client) && StaysFailed(events, oks, client)
  {
  }

  lemma ExcusedNot(over: bool, sending: bool, receiving: bool, msgs: seq<seq<Byte>>, got: seq<seq<Byte>>, size: nat)
    requires Excused(over, sending, receiving, msgs, got, size)
    ensures !over && Sized(msgs, size) ==> sending && receiving
  {
  }

  lemma ExcusedRead(over: bool, sending: bool, msgs: seq<seq<Byte>>, got: seq<seq<Byte>>, got2: seq<seq<Byte>>, size: nat, over2: bool, ok: bool)
    requires Excused(over, sending, true, msgs, got, size) && (over ==> over2)
    requires !ok ==> got2 == got && (over2 || (|got| < |msgs| && |msgs[|got|]| != size))
    ensures Excused(over2, sending, ok, msgs, got2, size)
  {
  }

  lemma NotStarted(size: nat, over: bool)
    ensures Excused(over, true, true, [], [], size)
  {
  }

  lemma ExcusedMore(over: bool, sending: bool, receiving: bool, msgs: seq<seq<Byte>>, got: seq<seq<Byte>>, size: nat, m: seq<Byte>, over2: bool, ok: bool)
    requires Excused(over, sending, receiving, msgs, got, size) && over2 == (over || !ok)
    ensures Excused(over2, ok, receiving, msgs + [m], got, size)
  {
  }

  lemma AllOk(events: seq<Event>, oks: seq<bool>, cs: bool, cr: bool, ss: bool, sr: bool)
    requires |oks| == |events|
    requires cs == StillSending(events, oks, true) && cr == StillReceiving(events, oks, true)
    requires ss == StillSending(events, oks, false) && sr == StillReceiving(events, oks, false)
    ensures cs && cr && ss && sr ==> forall i :: 0 <= i < |oks| ==> oks[i]
  {
    if cs && cr && ss && sr {
      forall i | 0 <= i < |oks|
        ensures oks[i]
      {
        assert SendsBy(events[i], true) || SendsBy(events[i], false) || ReceivesBy(events[i], true) || ReceivesBy(events[i], false);
      }
    }
  }

  /** A conversation under way: what happened, what each side sent and got, and who has failed. */
  class Conversation {
    const client: Transport
    const server: Transport
    ghost const plain1: seq<Byte>
    ghost const plain2: seq<Byte>
    var clientSent: seq<seq<Byte>>
    var serverGot: seq<seq<Byte>>
    var serverSent: seq<seq<Byte>>
    var clientGot: seq<seq<Byte>>
    var cs: bool    // the client has not failed to send,
    var cr: bool    // nor to receive;
    var ss: bool    // the same for the server
    var sr: bool
    var oks: seq<bool>
    ghost var events: seq<Event>
    ghost var uses: seq<Use>
    ghost var used: seq<(Key, seq<Byte>)>

    ghost predicate Valid()
      reads this, client, server, client.outp, client.inp, server.outp, server.inp
    {
      Running() && Recorded()
    }

    ghost predicate Running()
      reads this, client, server, client.outp, client.inp, server.outp, server.inp
    {
      Joined(client, server) && client.txKey != server.txKey && Up() && Down() && Nonces()
    }

    ghost predicate Up()
      reads this`clientSent, this`serverGot, this`cs, this`sr, client, server, client.outp
    {
      && Between(client, server, plain1, clientSent, serverGot, cs, sr)
      && Excused(client.outp.over, cs, sr, clientSent, serverGot, REQUEST_SIZE)
    }

    ghost predicate Down()
      reads this`serverSent, this`clientGot, this`ss, this`cr, client, server, server.outp
    {
      && Between(server, client, plain2, serverSent, clientGot, ss, cr)
      && Excused(server.outp.over, ss, cr, serverSent, clientGot, RESPONSE_SIZE)
    }

    ghost predicate Nonces()
      reads this`clientSent, this`serverSent, this`uses, this`used, client, server
    {
      && UsesOk(uses, |clientSent|, |serverSent|) && UsedBy(used, uses, client.txKey, server.txKey)
      && |used| == |clientSent| + |serverSent|
    }

    ghost predicate Recorded()
      reads this
    {
      Side(events, oks, true, cs, cr, clientSent, clientGot) && Side(events, oks, false, ss, sr, serverSent, serverGot)
    }

    constructor (client: Transport, server: Transport, ghost plain1: seq<Byte>, ghost plain2: seq<Byte>)
      requires Joined(client, server)
      requires client.txKey == server.rxKey && client.rxKey == server.txKey && client.txKey != server.txKey
      requires client.tx == 0 && client.rx == 0 && server.tx == 0 && server.rx == 0
      requires client.outp.sent == plain1 && client.outp.taken == |plain1| && client.inp.sent == plain2 && client.inp.taken == |plain2|
      ensures Valid() && events == [] && this.client == client && this.server == server
    {
      hide Ideal, Flow, Frames, Side, Excused, UsesOk, UsedBy, Direction;
      this.client, this.server, this.plain1, this.plain2 := client, server, plain1, plain2;
      clientSent, serverGot, serverSent, clientGot := [], [], [], [];
      cs, cr, ss, sr := true, true, true, true;
      oks, events, uses, used := [], [], [], [];
      NothingYet(client, server, plain1);
      NothingYet(server, client, plain2);
      NoUses(client.txKey, server.txKey);
      NoEvents();
      NotStarted(REQUEST_SIZE, client.outp.over);
      NotStarted(RESPONSE_SIZE, client.inp.over);
    }

    method SendUp(m: seq<Byte>)
      requires Running() && Fits(m) && cs
      modifies this`clientSent, this`cs, this`uses, this`used, client`tx, client.outp
      ensures Running() && clientSent == old(clientSent) + [m]
    {
      hide Ideal, Direction, Excused, UsesOk, UsedBy, BuildNonce;
      ghost var over1 := client.outp.over;
      ghost var use;
      cs, use := SendOne(client, server, m, plain1, clientSent, serverGot, sr);
      UseNext(used, uses, client.txKey, server.txKey, |clientSent|, |serverSent|, true);
      ExcusedMore(over1, true, sr, clientSent, serverGot, REQUEST_SIZE, m, client.outp.over, cs);
      used, uses := used + [use], uses + [Use(true, |clientSent|)];
      clientSent := clientSent + [m];
    }

    method SendDown(m: seq<Byte>)
      requires Running() && Fits(m) && ss
      modifies this`serverSent, this`ss, this`uses, this`used, server`tx, server.outp
      ensures Running() && serverSent == old(serverSent) + [m]
    {
      hide Ideal, Direction, Excused, UsesOk, UsedBy, BuildNonce;
      ghost var over1 := server.outp.over;
      ghost var use;
      ss, use := SendOne(server, client, m, plain2, serverSent, clientGot, cr);
      UseNext(used, uses, client.txKey, server.txKey, |clientSent|, |serverSent|, false);
      ExcusedMore(over1, true, cr, serverSent, clientGot, RESPONSE_SIZE, m, server.outp.over, ss);
      used, uses := used + [use], uses + [Use(false, |serverSent|)];
      serverSent := serverSent + [m];
    }

    method TakeUp()
      requires Running() && sr
      modifies this`serverGot, this`sr, server`rx, server.inp
      ensures Running() && |serverGot| == |old(serverGot)| + if sr then 1 else 0
    {
      hide Ideal, Direction, Excused, UsesOk, UsedBy;
      ghost var over1, got := client.outp.over, serverGot;
      sr, serverGot := ReceiveOne(client, server, REQUEST_SIZE, plain1, clientSent, serverGot, cs);
      ExcusedRead(over1, cs, clientSent, got, serverGot, REQUEST_SIZE, client.outp.over, sr);
    }

    method TakeDown()
      requires Running() && cr
      modifies this`clientGot, this`cr, client`rx, client.inp
      ensures Running() && |clientGot| == |old(clientGot)| + if cr then 1 else 0
    {
      hide Ideal, Direction, Excused, UsesOk, UsedBy;
      ghost var over1, got := server.outp.over, clientGot;
      cr, clientGot := ReceiveOne(server, client, RESPONSE_SIZE, plain2, serverSent, clientGot, ss);
      ExcusedRead(over1, ss, serverSent, got, clientGot, RESPONSE_SIZE, server.outp.over, cr);
    }

    lemma SamePipes()
      requires Running()
      ensures server.inp == client.outp && server.outp == client.inp
    {
    }

    // One event each: a side that has failed before does nothing.

    method OnClientSends(m: seq<Byte>)
      requires Valid() && Fits(m)
      modifies this, client`tx, client`rx, server`tx, server`rx, client.outp, client.inp
      ensures Valid() && events == old(events) + [ClientSends(m)]
    {
      hide Joined, Up, Down, Nonces, Side;
      ghost var was, sent := cs, clientSent;
      var ok := false;
      if cs {
        SamePipes();
        SendUp(m);
        ok := cs;
      }
      SideNext(events, oks, ClientSends(m), ok, true, was, cr, sent, clientGot, clientGot);
      SideNext(events, oks, ClientSends(m), ok, false, ss, sr, serverSent, serverGot, serverGot);
      events, oks := events + [ClientSends(m)], oks + [ok];
    }

    method OnServerSends(m: seq<Byte>)
      requires Valid() && Fits(m)
      modifies this, client`tx, client`rx, server`tx, server`rx, client.outp, client.inp
      ensures Valid() && events == old(events) + [ServerSends(m)]
    {
      hide Joined, Up, Down, Nonces, Side;
      ghost var was, sent := ss, serverSent;
      var ok := false;
      if ss {
        SamePipes();
        SendDown(m);
        ok := ss;
      }
      SideNext(events, oks, ServerSends(m), ok, true, cs, cr, clientSent, clientGot, clientGot);
      SideNext(events, oks, ServerSends(m), ok, false, was, sr, sent, serverGot, serverGot);
      events, oks := events + [ServerSends(m)], oks + [ok];
    }

    method OnServerReceives()
      requires Valid()
      modifies this, client`tx, client`rx, server`tx, server`rx, client.outp, client.inp
      ensures Valid() && events == old(events) + [ServerReceives]
    {
      hide Joined, Up, Down, Nonces, Side;
      ghost var was, got := sr, serverGot;
      var ok := false;
      if sr {
        SamePipes();
        TakeUp();
        ok := sr;
      }
      SideNext(events, oks, ServerReceives, ok, true, cs, cr, clientSent, clientGot, clientGot);
      SideNext(events, oks, ServerReceives, ok, false, ss, was, serverSent, got, serverGot);
      events, oks := events + [ServerReceives], oks + [ok];
    }

    method OnClientReceives()
      requires Valid()
      modifies this, client`tx, client`rx, server`tx, server`rx, client.outp, client.inp
      ensures Valid() && events == old(events) + [ClientReceives]
    {
      hide Joined, Up, Down, Nonces, Side;
      ghost var was, got := cr, clientGot;
      var ok := false;
      if cr {
        SamePipes();
        TakeDown();
        ok := cr;
      }
      SideNext(events, oks, ClientReceives, ok, true, cs, was, clientSent, got, clientGot);
      SideNext(events, oks, ClientReceives, ok, false, ss, sr, serverSent, serverGot, serverGot);
      events, oks := events + [ClientReceives], oks + [ok];
    }

    method Do(ev: Event)
      requires Valid() && (ev.ClientSends? || ev.ServerSends? ==> Fits(ev.m))
      modifies this, client`tx, client`rx, server`tx, server`rx, client.outp, client.inp
      ensures Valid() && events == old(events) + [ev]
    {
      hide Valid;
      match ev {
        case ClientSends(m) => OnClientSends(m);
        case ServerSends(m) => OnServerSends(m);
        case ServerReceives => OnServerReceives();
        case ClientReceives => OnClientReceives();
      }
    }
  }

  /** Over every run after a successful handshake and every chunking: each side hands over the
      messages of its send events up to its first failure, and gets one message for each of its
      receive events up to its first failure; what it gets is an in-order prefix of what the
      other side sent; an operation fails only when the connection is over or a message has the
      wrong size; and no key meets a nonce twice while no side sends more than 2^64 messages. */
  method Converse(client: Transport, server: Transport, events: seq<Event>, ghost plain1: seq<Byte>, ghost plain2: seq<Byte>)
    returns (clientSent: seq<seq<Byte>>, serverGot: seq<seq<Byte>>, serverSent: seq<seq<Byte>>, clientGot: seq<seq<Byte>>,
             oks: seq<bool>, ghost used: seq<(Key, seq<Byte>)>)
    requires Joined(client, server) && EventsFit(events)
    requires client.txKey == server.rxKey && client.rxKey == server.txKey && client.txKey != server.txKey
    requires client.tx == 0 && client.rx == 0 && server.tx == 0 && server.rx == 0
    requires client.outp.sent == plain1 && client.outp.taken == |plain1| && client.inp.sent == plain2 && client.inp.taken == |plain2|
    modifies client, server, client.outp, client.inp
    ensures |oks| == |events| && StaysFailed(events, oks, true) && StaysFailed(events, oks, false)
    ensures clientSent == Sent(events, oks, true) && serverSent == Sent(events, oks, false)
    ensures |serverGot| == Received(events, oks, false) && |clientGot| == Received(events, oks, true)
    ensures serverGot <= clientSent && clientGot <= serverSent
    ensures Sized(clientSent, REQUEST_SIZE) && Sized(serverSent, RESPONSE_SIZE) && !client.outp.over && !client.inp.over ==>
      forall i :: 0 <= i < |oks| ==> oks[i]
    ensures |used| == |clientSent| + |serverSent|
    ensures NoRepeats(used) <==> |clientSent| <= TWO64 && |serverSent| <= TWO64
  {
    hide Conversation.Valid, Joined, Transport.Valid, StaysFailed, Sent, Received, NoRepeats, Sized, Ideal;
    OnePair(client, server);
    var k := new Conversation(client, server, plain1, plain2);
    DoAll(k, events);
    clientSent, serverGot, serverSent, clientGot, oks, used := k.clientSent, k.serverGot, k.serverSent, k.clientGot, k.oks, k.used;
    Outcome(k);
  }

  lemma OnePair(client: Transport, server: Transport)
    requires Joined(client, server)
    ensures server.inp == client.outp && server.outp == client.inp
  {
  }

  /** The events of a conversation, one after the other. */
  method DoAll(k: Conversation, events: seq<Event>)
    requires k.Valid() && k.events == [] && EventsFit(events)
    requires k.server.inp == k.client.outp && k.server.outp == k.client.inp
    modifies k, k.client, k.server, k.client.outp, k.client.inp
    ensures k.Valid() && k.events == events
  {
    hide Conversation.Valid;
    var i := 0;
    while i < |events|
      invariant 0 <= i <= |events| && k.Valid() && k.events == events[..i]
    {
      k.Do(events[i]);
      assert events[..i + 1] == events[..i] + [events[i]];
      i := i + 1;
    }
    assert events[..i] == events;
  }

  /** What a conversation comes to. */
  lemma Outcome(k: Conversation)
    requires k.Valid()
    ensures |k.oks| == |k.events| && StaysFailed(k.events, k.oks, true) && StaysFailed(k.events, k.oks, false)
    ensures k.clientSent == Sent(k.events, k.oks, true) && k.serverSent == Sent(k.events, k.oks, false)
    ensures |k.serverGot| == Received(k.events, k.oks, false) && |k.clientGot| == Received(k.events, k.oks, true)
    ensures k.serverGot <= k.clientSent && k.clientGot <= k.serverSent
    ensures Sized(k.clientSent, REQUEST_SIZE) && Sized(k.serverSent, RESPONSE_SIZE) && !k.client.outp.over && !k.server.outp.over ==>
      forall i :: 0 <= i < |k.oks| ==> k.oks[i]
    ensures |k.used| == |k.clientSent| + |k.serverSent|
    ensures NoRepeats(k.used) <==> |k.clientSent| <= TWO64 && |k.serverSent| <= TWO64
  {
    hide Ideal, Joined, Flow, Frames, Side, StaysFailed, Excused, Sent, Received, StillSending, StillReceiving, UsesOk, UsedBy, NoRepeats, Sized;
    NoncesExact(k.used, k.uses, |k.clientSent|, |k.serverSent|, k.client.txKey, k.server.txKey);
    SideEnd(k.events, k.oks, true, k.cs, k.cr, k.clientSent, k.clientGot);
    SideEnd(k.events, k.oks, false, k.ss, k.sr, k.serverSent, k.serverGot);
    ExcusedNot(k.client.outp.over, k.cs, k.sr, k.clientSent, k.serverGot, REQUEST_SIZE);
    ExcusedNot(k.server.outp.over, k.ss, k.cr, k.serverSent, k.clientGot, RESPONSE_SIZE);
    AllOk(k.events, k.oks, k.cs, k.cr, k.ss, k.sr);
  }

  /** A whole session: connect, shake hands, converse.  Without an end of the connection, every
      event of messages of the right sizes succeeds. */
  method Session(c: Crypto, clientPriv: seq<Byte>, serverPriv: seq<Byte>, flag: U16, tag: U64, token: U32, events: seq<Event>)
    returns (ok: bool, over: bool, clientSent: seq<seq<Byte>>, serverGot: seq<seq<Byte>>, serverSent: seq<seq<Byte>>,
             clientGot: seq<seq<Byte>>, oks: seq<bool>, ghost used: seq<(Key, seq<Byte>)>)
    requires Ideal(c) && EventsFit(events)
    ensures !ok ==> over
    ensures ok ==> |oks| == |events| && StaysFailed(events, oks, true) && StaysFailed(events, oks, false)
    ensures ok ==> clientSent == Sent(events, oks, true) && serverSent == Sent(events, oks, false)
    ensures ok ==> |serverGot| == Received(events, oks, false) && |clientGot| == Received(events, oks, true)
    ensures ok ==> serverGot <= clientSent && clientGot <= serverSent
    ensures !over && Sized(clientSent, REQUEST_SIZE) && Sized(serverSent, RESPONSE_SIZE) ==> forall i :: 0 <= i < |oks| ==> oks[i]
    ensures ok ==> (NoRepeats(used) <==> |clientSent| <= TWO64 && |serverSent| <= TWO64)
  {
    hide Ideal, StaysFailed, Sent, Received, NoRepeats, Sized;
    clientSent, serverGot, serverSent, clientGot, oks, used := [], [], [], [], [], [];
    var client, server := Connect(c);
    ghost var plain1, plain2;
    ok, plain1, plain2 := Handshake(client, server, clientPriv, serverPriv, flag, tag, token);
    if ok {
      clientSent, serverGot, serverSent, clientGot, oks, used := Converse(client, server, events, plain1, plain2);
    }
    over := client.outp.over || client.inp.over;
  }
}
