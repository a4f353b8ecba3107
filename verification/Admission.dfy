/** The mutual pairing-token handshake (protocol/admission/admission.go).

    The keyed MAC is a parameter; where two of its inputs are compared, that pair is
    assumed not to collide. */
module Admission {
  import opened Bytes
  import opened Decimal
  import opened ByteStream

  const FRAME_SIZE := 62
  const NONCE_SIZE := 16
  const MAC_SIZE := 32
  const CLIENT_HELLO: byte := 1
  const SERVER_ACK: byte := 2
  const SECOND := 1_000_000_000
  const MAX_SKEW := 120_000_000_000

  /** `key` is the derived admission key; the peer's text form has no NUL. */
  datatype Token = Token(peer: Octets, service: nat, key: Octets)

  predicate TokenOk(t: Token) { 0 !in t.peer && 0 < t.service < 65536 }

  datatype Hello = Hello(timestamp: nat, clientNonce: Octets)

  predicate HelloOk(h: Hello) { h.timestamp < UINT64 && |h.clientNonce| == NONCE_SIZE }

  /** The MAC of a message under a key, as a function of the pair. */
  type Mac = ((Octets, Octets)) -> Octets

  ghost predicate IsMac(mac: Mac) { forall k, m :: |mac((k, m))| == MAC_SIZE }

  // ------------------------------------------------------------- MAC inputs

  /** "p2p-netcat/session-auth/v1" */
  const DOMAIN: Octets :=
    [112, 50, 112, 45, 110, 101, 116, 99, 97, 116, 47, 115, 101, 115, 115, 105, 111, 110, 45, 97, 117, 116, 104, 47,
     118, 49]

  datatype Role = Client | Server

  function RoleText(r: Role): Octets
  {
    if r.Client? then [99, 108, 105, 101, 110, 116] else [115, 101, 114, 118, 101, 114]
  }

  function MacInput(role: Role, t: Token, timestamp: nat, clientNonce: Octets, serverNonce: Octets): (r: Octets)
  {
    DOMAIN + [0] + (RoleText(role) + [0] + (t.peer + [0] + (Digits(t.service) + [0] +
    (Digits(timestamp) + [0] + (clientNonce + serverNonce)))))
  }

  /** The fields, each ended by a NUL, and the nonces. */
  lemma {:induction false} MacInputLayout(role: Role, t: Token, ts: nat, cn: Octets, sn: Octets)
    ensures MacInput(role, t, ts, cn, sn) ==
            Ascii("p2p-netcat/session-auth/v1") + [0] + (Ascii(if role.Client? then "client" else "server") + [0] +
            (t.peer + [0] + (Digits(t.service) + [0] + (Digits(ts) + [0] + (cn + sn)))))
  {
    assert Ascii("p2p-netcat/session-auth/v1") == DOMAIN;
    assert Ascii("client") == RoleText(Client) && Ascii("server") == RoleText(Server);
  }

  /** A NUL-free field and its terminator can be split off in one way only. */
  lemma {:induction false} SplitAtNul(a: Octets, x: Octets, b: Octets, y: Octets)
    requires 0 !in a && 0 !in b && a + [0] + x == b + [0] + y
    ensures a == b && x == y
  {
    var s, t := a + [0] + x, b + [0] + y;
    assert s[|a|] == 0 && t[|b|] == 0;
    assert |a| >= |b| by { assert forall i | 0 <= i < |b| :: t[i] == b[i] && b[i] in b; }
    assert |b| >= |a| by { assert forall i | 0 <= i < |a| :: s[i] == a[i] && a[i] in a; }
    assert s[..|a|] == a && t[..|b|] == b;
    assert s[|a| + 1..] == x && t[|b| + 1..] == y;
  }

  lemma DigitsHaveNoNul(n: nat)
    ensures 0 !in Digits(n)
  {
  }

  /** The MAC input determines role, peer, service, timestamp and both nonces. */
  lemma {:induction false} MacInputInjective(r: Role, t: Token, ts: nat, cn: Octets, sn: Octets, r': Role, t': Token,
      ts': nat, cn': Octets, sn': Octets)
    requires 0 !in t.peer && 0 !in t'.peer && |cn| == |cn'|
    requires MacInput(r, t, ts, cn, sn) == MacInput(r', t', ts', cn', sn')
    ensures r == r' && t.peer == t'.peer && t.service == t'.service && ts == ts' && cn == cn' && sn == sn'
  {
    assert 0 !in DOMAIN && 0 !in RoleText(r) && 0 !in RoleText(r');
    DigitsHaveNoNul(t.service);
    DigitsHaveNoNul(t'.service);
    DigitsHaveNoNul(ts);
    DigitsHaveNoNul(ts');
    var e, e' := cn + sn, cn' + sn';
    var d, d' := Digits(ts) + [0] + e, Digits(ts') + [0] + e';
    var c, c' := Digits(t.service) + [0] + d, Digits(t'.service) + [0] + d';
    var b, b' := t.peer + [0] + c, t'.peer + [0] + c';
    SplitAtNul(DOMAIN, RoleText(r) + [0] + b, DOMAIN, RoleText(r') + [0] + b');
    SplitAtNul(RoleText(r), b, RoleText(r'), b');
    SplitAtNul(t.peer, c, t'.peer, c');
    SplitAtNul(Digits(t.service), d, Digits(t'.service), d');
    SplitAtNul(Digits(ts), e, Digits(ts'), e');
    DigitsInjective(t.service, t'.service);
    DigitsInjective(ts, ts');
    assert e[..|cn|] == cn && e'[..|cn|] == cn' && e[|cn|..] == sn && e'[|cn|..] == sn';
    assert RoleText(r)[0] == RoleText(r')[0];
  }

  // ----------------------------------------------------------------- frames

  const MAGIC: Octets := [80, 78, 67, 65]

  datatype Frame = Frame(timestamp: nat, nonce: Octets, mac: Octets)

  predicate FrameOk(f: Frame) { f.timestamp < UINT64 && |f.nonce| == NONCE_SIZE && |f.mac| == MAC_SIZE }

  function Encode(kind: byte, f: Frame): (r: Octets)
  {
    MAGIC + [1, kind] + PutUint(f.timestamp, 8) + f.nonce + f.mac
  }

  function Decode(encoded: Octets, kind: byte): (r: Option<Frame>)
  {
    if |encoded| != FRAME_SIZE then None
    else if encoded[0..4] != MAGIC then None
    else if encoded[4] != 1 then None
    else if encoded[5] != kind then None
    else Some(Frame(GetUint(encoded[6..14]), encoded[14..30], encoded[30..62]))
  }

  /** Decoding accepts exactly the encodings of that kind. */
  lemma {:induction false} FrameExact(encoded: Octets, kind: byte, f: Frame)
    ensures Decode(encoded, kind) == Some(f) <==> FrameOk(f) && encoded == Encode(kind, f)
  {
    Capacities();
    if Decode(encoded, kind) == Some(f) {
      PutGet(encoded[6..14]);
      assert encoded == encoded[0..4] + [encoded[4], encoded[5]] + encoded[6..14] + encoded[14..30] + encoded[30..62];
    }
    if FrameOk(f) && encoded == Encode(kind, f) {
      GetPut(f.timestamp, 8);
      assert encoded[0..4] == MAGIC && encoded[6..14] == PutUint(f.timestamp, 8);
      assert encoded[14..30] == f.nonce && encoded[30..62] == f.mac;
    }
  }

  /** On the wire: 62 bytes, with the magic, the version, the kind, the timestamp with
      its most significant byte first, the nonce and the MAC. */
  lemma {:induction false} FrameLayout(kind: byte, f: Frame)
    requires FrameOk(f)
    ensures
      var e := Encode(kind, f);
      && |e| == 62 && e[..4] == Ascii("PNCA") && e[4] == 1 && e[5] == kind
      && f.timestamp == 0x1_0000_0000 * Uint32(e[6], e[7], e[8], e[9]) + Uint32(e[10], e[11], e[12], e[13])
      && e[14..30] == f.nonce && e[30..] == f.mac
  {
    assert Ascii("PNCA") == MAGIC;
    PutEight(f.timestamp);
    var e := Encode(kind, f);
    assert e[6..14] == PutUint(f.timestamp, 8);
    assert e[..4] == MAGIC && e[14..30] == f.nonce && e[30..] == f.mac;
  }

  // -------------------------------------------------------------- handshake

  function HelloInput(t: Token, h: Hello): Octets { MacInput(Client, t, h.timestamp, h.clientNonce, []) }

  function AckInput(t: Token, h: Hello, serverNonce: Octets): Octets
  {
    MacInput(Server, t, h.timestamp, h.clientNonce, serverNonce)
  }

  function HelloMac(mac: Mac, t: Token, h: Hello): Octets { mac((t.key, HelloInput(t, h))) }

  function AckMac(mac: Mac, t: Token, h: Hello, serverNonce: Octets): Octets
  {
    mac((t.key, AckInput(t, h, serverNonce)))
  }

  function CreateHello(mac: Mac, t: Token, h: Hello): (r: Octets)
  {
    Encode(CLIENT_HELLO, Frame(h.timestamp, h.clientNonce, HelloMac(mac, t, h)))
  }

  /** The instant of a wire timestamp in nanoseconds; Go reads it as a signed
      number. */
  function Instant(timestamp: nat): int
  {
    (if timestamp < UINT64 / 2 then timestamp else timestamp - UINT64) * SECOND
  }

  predicate InWindow(timestamp: nat, now: int, maxSkew: int)
  {
    0 <= maxSkew && now - maxSkew <= Instant(timestamp) <= now + maxSkew
  }

  /** `valid` is the token's own validity at `now`. */
  function VerifyHello(mac: Mac, t: Token, encoded: Octets, valid: bool, now: int, maxSkew: int): (r: Option<Hello>)
  {
    if !valid then None
    else
      var frame := Decode(encoded, CLIENT_HELLO);
      if frame.None? then None
      else if !InWindow(frame.value.timestamp, now, maxSkew) then None
      else
        var h := Hello(frame.value.timestamp, frame.value.nonce);
        if HelloMac(mac, t, h) == frame.value.mac then Some(h) else None
  }

  function CreateAck(mac: Mac, t: Token, h: Hello, serverNonce: Octets): (r: Octets)
  {
    Encode(SERVER_ACK, Frame(h.timestamp, serverNonce, AckMac(mac, t, h, serverNonce)))
  }

  predicate VerifyAck(mac: Mac, t: Token, h: Hello, encoded: Octets)
  {
    var frame := Decode(encoded, SERVER_ACK);
    && frame.Some?
    && frame.value.timestamp == h.timestamp
    && AckMac(mac, t, h, frame.value.nonce) == frame.value.mac
  }

  /** Nothing but the hello of its own token, made for a time within the skew, is
      accepted, and that always is. */
  lemma {:induction false} HelloExact(mac: Mac, t: Token, encoded: Octets, valid: bool, now: int, maxSkew: int,
      h: Hello)
    requires IsMac(mac)
    ensures VerifyHello(mac, t, encoded, valid, now, maxSkew) == Some(h) <==>
              valid && HelloOk(h) && Near(h.timestamp, now, maxSkew) && encoded == CreateHello(mac, t, h)
  {
    FrameExact(encoded, CLIENT_HELLO, Frame(h.timestamp, h.clientNonce, HelloMac(mac, t, h)));
  }

  /** The wire timestamp, seconds in two's complement, is at most `maxSkew` nanoseconds
      away from `now`. */
  predicate Near(timestamp: nat, now: int, maxSkew: int)
  {
    var seconds := if timestamp < 0x8000_0000_0000_0000 then timestamp else timestamp - 0x1_0000_0000_0000_0000;
    -maxSkew <= 1_000_000_000 * seconds - now <= maxSkew
  }

  /** Nothing but an acknowledgement of this hello under the same token is accepted. */
  lemma {:induction false} AckExact(mac: Mac, t: Token, h: Hello, encoded: Octets)
    requires IsMac(mac) && HelloOk(h)
    ensures VerifyAck(mac, t, h, encoded) <==>
              exists nonce: Octets :: |nonce| == 16 && encoded == CreateAck(mac, t, h, nonce)
  {
    var frame := Decode(encoded, SERVER_ACK);
    if frame.Some? { FrameExact(encoded, SERVER_ACK, frame.value); }
    forall nonce: Octets | |nonce| == 16 && encoded == CreateAck(mac, t, h, nonce)
      ensures VerifyAck(mac, t, h, encoded)
    {
      FrameExact(encoded, SERVER_ACK, Frame(h.timestamp, nonce, AckMac(mac, t, h, nonce)));
    }
  }

  /** A server accepts a client's hello exactly when both hold the same token and
      the timestamp is in the window, and then knows the client's nonce. */
  lemma {:induction false} HelloAgreement(mac: Mac, client: Token, h: Hello, server: Token, valid: bool, now: int,
      maxSkew: int)
    requires IsMac(mac) && TokenOk(client) && TokenOk(server) && HelloOk(h)
    requires NoCollision(mac, (server.key, HelloInput(server, h)), (client.key, HelloInput(client, h)))
    ensures
      VerifyHello(mac, server, CreateHello(mac, client, h), valid, now, maxSkew) ==
      if valid && client == server && Near(h.timestamp, now, maxSkew) then Some(h) else None
  {
    var f := Frame(h.timestamp, h.clientNonce, HelloMac(mac, client, h));
    FrameExact(CreateHello(mac, client, h), CLIENT_HELLO, f);
    if HelloMac(mac, server, h) == f.mac {
      MacInputInjective(Client, server, h.timestamp, h.clientNonce, [], Client, client, h.timestamp, h.clientNonce, []);
    }
  }

  /** A client accepts a server's acknowledgement exactly when both agree on the
      token, the timestamp and the client's nonce. */
  lemma {:induction false} AckAgreement(mac: Mac, client: Token, sent: Hello, server: Token, seen: Hello,
      serverNonce: Octets)
    requires IsMac(mac) && TokenOk(client) && TokenOk(server)
    requires HelloOk(sent) && HelloOk(seen) && |serverNonce| == NONCE_SIZE
    requires NoCollision(mac, (client.key, AckInput(client, sent, serverNonce)),
        (server.key, AckInput(server, seen, serverNonce)))
    ensures VerifyAck(mac, client, sent, CreateAck(mac, server, seen, serverNonce)) <==>
            client == server && sent == seen
  {
    var f := Frame(seen.timestamp, serverNonce, AckMac(mac, server, seen, serverNonce));
    FrameExact(CreateAck(mac, server, seen, serverNonce), SERVER_ACK, f);
    if seen.timestamp == sent.timestamp && AckMac(mac, client, sent, serverNonce) == f.mac {
      MacInputInjective(Server, client, sent.timestamp, sent.clientNonce, serverNonce,
                        Server, server, seen.timestamp, seen.clientNonce, serverNonce);
    }
  }

  /** No hello can serve as an acknowledgement, nor its MAC as that of one. */
  lemma {:induction false} RolesNeverMix(mac: Mac, t: Token, h: Hello, t': Token, h': Hello, serverNonce: Octets)
    requires TokenOk(t) && TokenOk(t') && HelloOk(h) && HelloOk(h')
    requires NoCollision(mac, (t.key, HelloInput(t, h)), (t'.key, AckInput(t', h', serverNonce)))
    ensures !VerifyAck(mac, t', h', CreateHello(mac, t, h))
    ensures HelloMac(mac, t, h) != AckMac(mac, t', h', serverNonce)
  {
    if HelloMac(mac, t, h) == AckMac(mac, t', h', serverNonce) {
      MacInputInjective(Client, t, h.timestamp, h.clientNonce, [], Server, t', h'.timestamp, h'.clientNonce,
          serverNonce);
      assert false;
    }
    assert CreateHello(mac, t, h)[5] == CLIENT_HELLO;
  }

  // ---------------------------------------------------------- over a stream

  /** AuthenticateServer: consumes exactly the admission frame of an accepted client
      and answers it; later bytes stay in the stream. */
  method AuthenticateServer(mac: Mac, t: Token, valid: bool, now: int, nonce: Octets, r: Reader, w: Writer)
    returns (ok: bool)
    requires |nonce| == NONCE_SIZE
    modifies r, w
    ensures ok ==>
              var s := old(r.Rest());
              && |s| >= FRAME_SIZE && r.Rest() == s[FRAME_SIZE..]
              && var h := VerifyHello(mac, t, s[..FRAME_SIZE], valid, now, MAX_SKEW);
                 h.Some? && w.out == old(w.out) + CreateAck(mac, t, h.value, nonce)
    ensures |old(r.Rest())| < 62 || VerifyHello(mac, t, old(r.Rest())[..62], valid, now, 120_000_000_000).None? ==>
              !ok && w.out == old(w.out)
    ensures |old(r.Rest())| >= 62 ==>
              var h := VerifyHello(mac, t, old(r.Rest())[..62], valid, now, 120_000_000_000);
              h.Some? && old(w.Willing(|CreateAck(mac, t, h.value, nonce)|)) ==> ok
  {
    var encoded := r.ReadFull(FRAME_SIZE);
    if !encoded.Full? {
      return false;
    }
    var hello := VerifyHello(mac, t, encoded.bytes, valid, now, MAX_SKEW);
    if hello.None? {
      return false;
    }
    ok := w.WriteAll(CreateAck(mac, t, hello.value, nonce));
  }

  /** AuthenticateClient: sends its hello and accepts exactly a confirming frame. */
  method AuthenticateClient(mac: Mac, t: Token, valid: bool, h: Hello, r: Reader, w: Writer) returns (ok: bool)
    requires HelloOk(h)
    modifies r, w
    ensures ok ==>
              var s := old(r.Rest());
              && valid && w.out == old(w.out) + CreateHello(mac, t, h)
              && |s| >= FRAME_SIZE && VerifyAck(mac, t, h, s[..FRAME_SIZE]) && r.Rest() == s[FRAME_SIZE..]
    ensures !valid ==> !ok && w.out == old(w.out) && r.Rest() == old(r.Rest())
    ensures |old(r.Rest())| < 62 || !VerifyAck(mac, t, h, old(r.Rest())[..62]) ==> !ok
    ensures valid && old(w.Willing(|CreateHello(mac, t, h)|)) ==>
              |old(r.Rest())| >= 62 && VerifyAck(mac, t, h, old(r.Rest())[..62]) ==> ok
  {
    if !valid {
      return false;
    }
    ok := w.WriteAll(CreateHello(mac, t, h));
    if !ok {
      return;
    }
    var ack := r.ReadFull(FRAME_SIZE);
    if !ack.Full? {
      return false;
    }
    ok := VerifyAck(mac, t, h, ack.bytes);
  }
}
