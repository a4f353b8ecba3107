/** The version 2 authentication proof of the native WebRTC channel
    (nativewebrtc/wire.go; the same bytes in packages/core/src/index.js).

    Peers are named by their text form.  SHA-256 and the signature scheme are
    parameters; what they are assumed to satisfy is said where it is used. */
module AuthPayload {
  import opened Bytes
  import opened Sequences

  const FIELD_LIMIT := 0x1_0000_0000
  const MAX_SDP := 262144

  // ------------------------------------------------ length-delimited fields

  function Delimited(f: Octets): (r: Octets) { PutUint(|f|, 4) + f }

  function AllDelimited(fields: seq<Octets>): (r: Octets)
  {
    if fields == [] then [] else Delimited(fields[0]) + AllDelimited(fields[1..])
  }

  predicate Short(fields: seq<Octets>) { forall f | f in fields :: |f| < FIELD_LIMIT }

  lemma {:induction false} DelimitedPrefix(f: Octets, g: Octets, a: Octets, b: Octets)
    requires |f| < FIELD_LIMIT && |g| < FIELD_LIMIT && Delimited(f) + a == Delimited(g) + b
    ensures f == g && a == b
  {
    Capacities();
    GetPut(|f|, 4);
    GetPut(|g|, 4);
    var s, t := Delimited(f) + a, Delimited(g) + b;
    assert s[..4] == PutUint(|f|, 4) && t[..4] == PutUint(|g|, 4);
    assert s[4..4 + |f|] == f && t[4..4 + |g|] == g;
    assert s[4 + |f|..] == a && t[4 + |g|..] == b;
  }

  /** The encoding of a field list determines the list. */
  lemma {:induction false} FieldsInjective(a: seq<Octets>, b: seq<Octets>)
    requires Short(a) && Short(b) && AllDelimited(a) == AllDelimited(b)
    ensures a == b
  {
    if a != [] && b != [] {
      DelimitedPrefix(a[0], b[0], AllDelimited(a[1..]), AllDelimited(b[1..]));
      FieldsInjective(a[1..], b[1..]);
      assert a == [a[0]] + a[1..] && b == [b[0]] + b[1..];
    }
  }

  lemma {:induction false} AllDelimitedSnoc(fields: seq<Octets>, f: Octets)
    ensures AllDelimited(fields + [f]) == AllDelimited(fields) + Delimited(f)
  {
    if fields == [] {
      assert fields + [f] == [f];
      assert AllDelimited([f]) == Delimited(f) + [];
    } else {
      assert (fields + [f])[0] == fields[0] && (fields + [f])[1..] == fields[1..] + [f];
      AllDelimitedSnoc(fields[1..], f);
      Assoc(Delimited(fields[0]), AllDelimited(fields[1..]), Delimited(f));
    }
  }

  /** The Go loop, appending to a growing slice. */
  method AppendFields(fields: seq<Octets>) returns (payload: Octets)
    ensures payload == AllDelimited(fields)
  {
    payload := [];
    for i := 0 to |fields|
      invariant payload == AllDelimited(fields[..i])
    {
      AllDelimitedSnoc(fields[..i], fields[i]);
      assert fields[..i] + [fields[i]] == fields[..i + 1];
      Assoc(payload, PutUint(|fields[i]|, 4), fields[i]);
      payload := payload + PutUint(|fields[i]|, 4);
      payload := payload + fields[i];
    }
    assert fields[..|fields|] == fields;
  }

  /** The JavaScript loop, filling an array of the computed length at a moving
      offset; it writes the same bytes as the Go one. */
  method FillFields(fields: seq<Octets>) returns (result: array<byte>)
    ensures fresh(result) && result[..] == AllDelimited(fields)
  {
    var length := 0;
    for i := 0 to |fields|
      invariant length == |AllDelimited(fields[..i])|
    {
      AllDelimitedSnoc(fields[..i], fields[i]);
      assert fields[..i] + [fields[i]] == fields[..i + 1];
      length := length + 4 + |fields[i]|;
    }
    assert fields[..|fields|] == fields;
    result := new byte[length](_ => 0);
    var offset: nat := 0;
    for i := 0 to |fields|
      invariant offset <= length && result[..offset] == AllDelimited(fields[..i])
    {
      AllDelimitedSnoc(fields[..i], fields[i]);
      assert fields[..i] + [fields[i]] == fields[..i + 1];
      PrefixFits(fields, i + 1);
      offset := Put(result, offset, PutUint(|fields[i]|, 4));
      offset := Put(result, offset, fields[i]);
      Assoc(AllDelimited(fields[..i]), PutUint(|fields[i]|, 4), fields[i]);
    }
    PrefixFits(fields, |fields|);
    assert result[..offset] == AllDelimited(fields) && offset == length;
  }

  lemma {:induction false} PrefixFits(fields: seq<Octets>, i: nat)
    requires i <= |fields|
    ensures |AllDelimited(fields[..i])| <= |AllDelimited(fields)|
    decreases |fields| - i
  {
    if i < |fields| {
      AllDelimitedSnoc(fields[..i], fields[i]);
      assert fields[..i] + [fields[i]] == fields[..i + 1];
      PrefixFits(fields, i + 1);
    } else {
      assert fields[..i] == fields;
    }
  }

  /** Copies `value` into the array at `offset`. */
  method Put(a: array<byte>, offset: nat, value: Octets) returns (end: nat)
    requires offset + |value| <= a.Length
    modifies a
    ensures end == offset + |value|
    ensures a[..end] == old(a[..offset]) + value
  {
    for k := 0 to |value|
      invariant a[..offset] == old(a[..offset])
      invariant a[offset..offset + k] == value[..k]
    {
      a[offset + k] := value[k];
    }
    end := offset + |value|;
    assert a[..end] == a[..offset] + a[offset..end];
  }

  // ------------------------------------------------------------ the payload

  datatype Transcript = Transcript(sessionId: Octets, offer: Octets, answer: Octets)

  type uint16 = x: int | 0 <= x < 65536

  datatype Claim = Claim(peer: Octets, service: uint16, challenge: Octets, transcript: Transcript)

  /** What AuthPayloadV2 accepts. */
  predicate Payable(c: Claim)
  {
    && |c.challenge| == 32
    && c.peer != []
    && c.service != 0
    && 8 <= |c.transcript.sessionId| <= 128
    && 0 < |c.transcript.offer| <= MAX_SDP
    && 0 < |c.transcript.answer| <= MAX_SDP
  }

  /** "p2p-netcat/native-webrtc-auth/v2" */
  const DOMAIN: Octets :=
    [112, 50, 112, 45, 110, 101, 116, 99, 97, 116, 47, 110, 97, 116, 105, 118, 101, 45, 119, 101, 98, 114, 116, 99,
     45, 97, 117, 116, 104, 47, 118, 50]

  const CLIENT_ROLE: Octets := [99, 108, 105, 101, 110, 116]
  const SERVER_ROLE: Octets := [115, 101, 114, 118, 101, 114]

  /** A hash whose digests have 32 bytes. */
  ghost predicate IsDigest(hash: Octets -> Octets) { forall m :: |hash(m)| == 32 }

  function Fields(c: Claim, hash: Octets -> Octets): (r: seq<Octets>)
  {
    [DOMAIN, [2], CLIENT_ROLE, SERVER_ROLE, c.peer, PutUint(c.service, 2), c.transcript.sessionId, c.challenge,
     hash(c.transcript.offer), hash(c.transcript.answer)]
  }

  function Payload(c: Claim, hash: Octets -> Octets): (r: Option<Octets>)
  {
    if Payable(c) then Some(AllDelimited(Fields(c, hash))) else None
  }

  /** Four bytes of length, the most significant one first, and the field. */
  lemma {:induction false} DelimitedLayout(f: Octets)
    requires |f| < 0x1_0000_0000
    ensures
      var d := Delimited(f);
      |d| == 4 + |f| && Uint32(d[0], d[1], d[2], d[3]) == |f| && d[4..] == f
  {
    PutFour(|f|);
    assert Delimited(f)[..4] == PutUint(|f|, 4) && Delimited(f)[4..] == f;
  }

  /** The claims that are accepted, and the ten fields of their payload in order. */
  lemma {:induction false} PayloadLayout(c: Claim, hash: Octets -> Octets)
    ensures Payload(c, hash).Some? <==>
              && |c.challenge| == 32 && c.peer != [] && c.service != 0 && 8 <= |c.transcript.sessionId| <= 128
              && 1 <= |c.transcript.offer| <= 262144 && 1 <= |c.transcript.answer| <= 262144
    ensures Payload(c, hash).Some? ==>
              exists hi: byte, lo: byte :: Uint16(hi, lo) == c.service &&
                Payload(c, hash).value ==
                Delimited(Ascii("p2p-netcat/native-webrtc-auth/v2")) + (Delimited([2]) +
                (Delimited(Ascii("client")) + (Delimited(Ascii("server")) + (Delimited(c.peer) +
                (Delimited([hi, lo]) + (Delimited(c.transcript.sessionId) + (Delimited(c.challenge) +
                (Delimited(hash(c.transcript.offer)) + (Delimited(hash(c.transcript.answer)) + [])))))))))
  {
    assert Ascii("p2p-netcat/native-webrtc-auth/v2") == DOMAIN;
    assert Ascii("client") == CLIENT_ROLE && Ascii("server") == SERVER_ROLE;
    PutTwo(c.service);
    var service := PutUint(c.service, 2);
    assert service == [service[0], service[1]];
    TenFields(Fields(c, hash));
  }

  lemma {:induction false} TenFields(f: seq<Octets>)
    requires |f| == 10
    ensures AllDelimited(f) ==
            Delimited(f[0]) + (Delimited(f[1]) + (Delimited(f[2]) + (Delimited(f[3]) + (Delimited(f[4]) +
            (Delimited(f[5]) + (Delimited(f[6]) + (Delimited(f[7]) + (Delimited(f[8]) + (Delimited(f[9]) + [])))))))))
  {
    FiveFields(f);
    FiveFields(f[5..]);
    assert f[5..][5..] == [];
  }

  lemma {:induction false} FiveFields(f: seq<Octets>)
    requires |f| >= 5
    ensures AllDelimited(f) ==
            Delimited(f[0]) + (Delimited(f[1]) + (Delimited(f[2]) + (Delimited(f[3]) + (Delimited(f[4]) +
            AllDelimited(f[5..])))))
  {
    assert f[1..][1..] == f[2..] && f[2..][1..] == f[3..] && f[3..][1..] == f[4..] && f[4..][1..] == f[5..];
    assert AllDelimited(f[3..]) == Delimited(f[3]) + (Delimited(f[4]) + AllDelimited(f[5..]));
    assert AllDelimited(f[1..]) == Delimited(f[1]) + (Delimited(f[2]) + AllDelimited(f[3..]));
  }

  /** The payload determines the peer, the service, the session, the challenge and
      both SDP digests. */
  lemma {:induction false} PayloadDetermines(a: Claim, b: Claim, hash: Octets -> Octets)
    requires IsDigest(hash) && Payload(a, hash).Some? && Payload(a, hash) == Payload(b, hash)
    requires |a.peer| < FIELD_LIMIT && |b.peer| < FIELD_LIMIT
    ensures a.peer == b.peer && a.service == b.service && a.challenge == b.challenge
    ensures a.transcript.sessionId == b.transcript.sessionId
    ensures hash(a.transcript.offer) == hash(b.transcript.offer)
    ensures hash(a.transcript.answer) == hash(b.transcript.answer)
  {
    var f, g := Fields(a, hash), Fields(b, hash);
    ShortFields(a, hash);
    ShortFields(b, hash);
    FieldsInjective(f, g);
    assert f[4] == g[4] && f[5] == g[5] && f[6] == g[6] && f[7] == g[7] && f[8] == g[8] && f[9] == g[9];
    Capacities();
    GetPut(a.service, 2);
    GetPut(b.service, 2);
  }

  lemma {:induction false} ShortFields(c: Claim, hash: Octets -> Octets)
    requires IsDigest(hash) && Payable(c) && |c.peer| < FIELD_LIMIT
    ensures Short(Fields(c, hash))
  {
    assert |DOMAIN| == 32;
  }

  method BuildPayload(c: Claim, hash: Octets -> Octets) returns (payload: Option<Octets>)
    ensures payload == Payload(c, hash)
  {
    if |c.challenge| != 32 {
      return None;
    }
    if c.peer == [] || c.service == 0 {
      return None;
    }
    if |c.transcript.sessionId| < 8 || |c.transcript.sessionId| > 128 {
      return None;
    }
    if c.transcript.offer == [] || |c.transcript.offer| > MAX_SDP {
      return None;
    }
    if c.transcript.answer == [] || |c.transcript.answer| > MAX_SDP {
      return None;
    }
    var bytes := AppendFields(Fields(c, hash));
    return Some(bytes);
  }

  // ----------------------------------------------------------- the response

  function EncodeResponse(version: byte, key: Octets, signature: Octets): (r: Option<Octets>)
  {
    if |key| > 0xffff || |signature| > 0xffff then None
    else Some([version] + PutUint(|key|, 2) + PutUint(|signature|, 2) + key + signature)
  }

  function DecodeResponse(version: byte, value: Octets): (r: Option<(Octets, Octets)>)
  {
    if |value| < 5 || value[0] != version then None
    else
      var (k, s) := (GetUint(value[1..3]), GetUint(value[3..5]));
      if 5 + k + s != |value| then None else Some((value[5..5 + k], value[5 + k..]))
  }

  /** On the wire: the version, two bytes of length each for key and signature, the more
      significant one first, and the two. */
  lemma {:induction false} ResponseLayout(version: byte, key: Octets, signature: Octets)
    ensures EncodeResponse(version, key, signature).Some? <==> |key| <= 65535 && |signature| <= 65535
    ensures |key| <= 65535 && |signature| <= 65535 ==>
              var e := EncodeResponse(version, key, signature).value;
              && |e| == 5 + |key| + |signature| && e[0] == version
              && Uint16(e[1], e[2]) == |key| && Uint16(e[3], e[4]) == |signature|
              && e[5..5 + |key|] == key && e[5 + |key|..] == signature
  {
    if |key| <= 65535 && |signature| <= 65535 {
      PutTwo(|key|);
      PutTwo(|signature|);
      var e := EncodeResponse(version, key, signature).value;
      assert e[1..3] == PutUint(|key|, 2) && e[3..5] == PutUint(|signature|, 2);
      assert e[5..5 + |key|] == key && e[5 + |key|..] == signature;
    }
  }

  /** Decoding accepts exactly the encodings, so a response of another version is
      never accepted. */
  lemma {:induction false} ResponseExact(version: byte, value: Octets, key: Octets, signature: Octets)
    ensures DecodeResponse(version, value) == Some((key, signature)) <==>
            EncodeResponse(version, key, signature) == Some(value)
  {
    if EncodeResponse(version, key, signature).Some? {
      ResponseDecodes(version, key, signature);
    }
    if DecodeResponse(version, value) == Some((key, signature)) {
      ResponseEncodes(version, value);
    }
  }

  lemma {:induction false} ResponseDecodes(version: byte, key: Octets, signature: Octets)
    requires |key| <= 0xffff && |signature| <= 0xffff
    ensures DecodeResponse(version, EncodeResponse(version, key, signature).value) == Some((key, signature))
  {
    var value := EncodeResponse(version, key, signature).value;
    Capacities();
    GetPut(|key|, 2);
    GetPut(|signature|, 2);
    assert value[1..3] == PutUint(|key|, 2) && value[3..5] == PutUint(|signature|, 2);
    assert value[5..5 + |key|] == key && value[5 + |key|..] == signature;
  }

  lemma {:induction false} ResponseEncodes(version: byte, value: Octets)
    requires DecodeResponse(version, value).Some?
    ensures
      var (key, signature) := DecodeResponse(version, value).value;
      EncodeResponse(version, key, signature) == Some(value)
  {
    var (key, signature) := DecodeResponse(version, value).value;
    Capacities();
    PutGet(value[1..3]);
    PutGet(value[3..5]);
    assert value == [version] + value[1..3] + value[3..5] + key + signature;
  }

  /** A signature scheme whose keys have peer names. */
  datatype Scheme = Scheme(
    peerOf: Octets -> Octets,
    sign: (Octets, Octets) -> Octets,
    verify: (Octets, Octets, Octets) -> bool)

  /** The key's signature of `m` verifies for `m'` only if they are the same. */
  predicate Binds(s: Scheme, key: Octets, m: Octets, m': Octets)
  {
    s.verify(key, m', s.sign(key, m)) <==> m == m'
  }

  function SignResponse(s: Scheme, key: Octets, c: Claim, hash: Octets -> Octets): (r: Option<Octets>)
  {
    var payload := Payload(c.(peer := s.peerOf(key)), hash);
    if payload.None? then None else EncodeResponse(2, key, s.sign(key, payload.value))
  }

  predicate VerifyResponse(s: Scheme, value: Octets, expected: Claim, hash: Octets -> Octets)
  {
    var r := DecodeResponse(2, value);
    && r.Some?
    && s.peerOf(r.value.0) == expected.peer
    && Payload(expected, hash).Some?
    && s.verify(r.value.0, Payload(expected, hash).value, r.value.1)
  }

  /** A response is accepted exactly if it is the encoding, in version 2, of a key that
      belongs to the expected peer and a signature of the expected payload. */
  lemma {:induction false} VerifyExact(s: Scheme, value: Octets, expected: Claim, hash: Octets -> Octets)
    ensures VerifyResponse(s, value, expected, hash) <==>
              Payload(expected, hash).Some? &&
              exists key: Octets, signature: Octets ::
                && EncodeResponse(2, key, signature) == Some(value)
                && s.peerOf(key) == expected.peer
                && s.verify(key, Payload(expected, hash).value, signature)
  {
    if DecodeResponse(2, value).Some? {
      var (key, signature) := DecodeResponse(2, value).value;
      ResponseExact(2, value, key, signature);
    }
    forall key: Octets, signature: Octets | EncodeResponse(2, key, signature) == Some(value)
      ensures DecodeResponse(2, value) == Some((key, signature))
    {
      ResponseExact(2, value, key, signature);
    }
  }

  /** A proof made for one exchange is accepted exactly for that exchange: same
      server identity, service, challenge, session and SDP texts. */
  lemma {:induction false} ProofBoundToTranscript(s: Scheme, key: Octets, made: Claim, expected: Claim,
      hash: Octets -> Octets)
    requires IsDigest(hash) && |expected.peer| < FIELD_LIMIT && |s.peerOf(key)| < FIELD_LIMIT
    requires NoCollision(hash, expected.transcript.offer, made.transcript.offer)
    requires NoCollision(hash, expected.transcript.answer, made.transcript.answer)
    requires Payable(made.(peer := s.peerOf(key))) && Payable(expected) ==>
               Binds(s, key, AllDelimited(Fields(made.(peer := s.peerOf(key)), hash)),
                   AllDelimited(Fields(expected, hash)))
    requires SignResponse(s, key, made, hash).Some?
    ensures VerifyResponse(s, SignResponse(s, key, made, hash).value, expected, hash) <==>
            expected == made.(peer := s.peerOf(key))
  {
    var named := made.(peer := s.peerOf(key));
    var p := Payload(named, hash).value;
    var value := SignResponse(s, key, made, hash).value;
    ResponseExact(2, value, key, s.sign(key, p));
    if VerifyResponse(s, value, expected, hash) {
      assert Payload(expected, hash).value == p;
      PayloadDetermines(expected, named, hash);
    }
  }
}
