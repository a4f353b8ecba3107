/** SOCKS request negotiation (session/forwarding.go), after the version byte.
    The SOCKS5 messages are those of sections 3 and 4 of RFC 1928. */
module Socks {
  import opened Bytes
  import opened Sequences
  import opened ByteStream

  const MAX_USER_ID := 255
  const MAX_DOMAIN := 255

  /** A target host; addresses are kept as the bytes that Go prints. */
  datatype Host = IPv4(address: Octets) | Domain(name: Octets) | IPv6(address: Octets)

  datatype Request = Request(host: Host, port: nat, success: Octets, failure: Octets)

  datatype Result = Accepted(request: Request) | ShortRead | Refused | ReplyFailed

  // ---------------------------------------------------------------- SOCKS5

  const SUCCESS5: Octets := [5, 0, 0, 1, 0, 0, 0, 0, 0, 0]
  const FAILURE5: Octets := [5, 5, 0, 1, 0, 0, 0, 0, 0, 0]

  function Asked5(h: Host, port: nat): (r: Request) { Request(h, port, SUCCESS5, FAILURE5) }

  predicate Wellformed5(h: Host)
  {
    match h
    case IPv4(a) => |a| == 4
    case Domain(n) => |n| <= 255
    case IPv6(a) => |a| == 16
  }

  function Greeting(methods: Octets): Octets
    requires |methods| <= 255
  {
    [|methods|] + methods
  }

  function Address(h: Host): Octets
    requires Wellformed5(h)
  {
    match h
    case IPv4(a) => [1] + a
    case Domain(n) => [3, |n|] + n
    case IPv6(a) => [4] + a
  }

  /** A CONNECT request; the port follows in two bytes. */
  function Connect5(h: Host, hi: byte, lo: byte): Octets
    requires Wellformed5(h)
  {
    [5, 1, 0] + Address(h) + [hi, lo]
  }

  datatype HostRead = GotHost(host: Host) | HostShort | HostRefused

  /** The host at the front of `s`, and what follows it. */
  function ReadHost(kind: byte, s: Octets): (r: (HostRead, Octets))
  {
    if kind == 1 then
      if |s| >= 4 then (GotHost(IPv4(s[..4])), s[4..]) else (HostShort, [])
    else if kind == 3 then
      if s == [] then (HostShort, [])
      else
        var end: nat := 1 + s[0] as nat;
        if |s| >= end then (GotHost(Domain(s[1..end])), s[end..]) else (HostShort, [])
    else if kind == 4 then
      if |s| >= 16 then (GotHost(IPv6(s[..16])), s[16..]) else (HostShort, [])
    else (HostRefused, s)
  }

  function ReadConnect(s: Octets): (r: (Result, Octets))
  {
    if |s| < 4 then (ShortRead, [])
    else if s[0] != 5 || s[1] != 1 || s[2] != 0 then (Refused, s[4..])
    else
      var (read, rest) := ReadHost(s[3], s[4..]);
      match read
      case HostShort => (ShortRead, [])
      case HostRefused => (Refused, rest)
      case GotHost(host) =>
        if |rest| < 2 then (ShortRead, [])
        else (Accepted(Asked5(host, GetUint(rest[..2]))), rest[2..])
  }

  /** What negotiateSOCKS5 makes of the stream `s`: the outcome, the method reply it
      writes and, on success, the bytes left unread. */
  function Negotiated5(s: Octets): (r: (Result, Octets, Octets))
  {
    if s == [] then (ShortRead, [], [])
    else
      var end: nat := 1 + s[0] as nat;
      if |s| < end then (ShortRead, [], [])
      else if 0 !in s[1..end] then (Refused, [5, 0xff], [])
      else
        var (result, rest) := ReadConnect(s[end..]);
        (result, [5, 0], rest)
  }

  lemma {:induction false} ReadHostInverts(h: Host, tail: Octets)
    requires Wellformed5(h)
    ensures
      var s := Address(h) + tail;
      ReadHost(s[0], s[1..]) == (GotHost(h), tail)
  {
    match h {
      case IPv4(a) =>
        assert (Address(h) + tail)[1..] == a + tail;
        SplitConcat(a, tail);
      case IPv6(a) =>
        assert (Address(h) + tail)[1..] == a + tail;
        SplitConcat(a, tail);
      case Domain(n) => DomainInverts(n, tail);
    }
  }

  lemma {:induction false} DomainInverts(n: Octets, tail: Octets)
    requires |n| <= 255
    ensures
      var s := Address(Domain(n)) + tail;
      ReadHost(s[0], s[1..]) == (GotHost(Domain(n)), tail)
  {
    var s := (Address(Domain(n)) + tail)[1..];
    assert s == [|n|] + (n + tail);
    assert s[1..] == n + tail;
    SplitConcat(n, tail);
    assert s[1..1 + |n|] == s[1..][..|n|] && s[1 + |n|..] == s[1..][|n|..];
  }

  lemma {:induction false} ReadHostSound(kind: byte, s: Octets)
    requires ReadHost(kind, s).0.GotHost?
    ensures
      var (read, rest) := ReadHost(kind, s);
      Wellformed5(read.host) && [kind] + s == Address(read.host) + rest
  {
    if kind == 3 {
      var end: nat := 1 + s[0] as nat;
      assert [kind] + s == [3, s[0]] + s[1..end] + s[end..];
    }
  }

  lemma {:induction false} ConnectInverts(h: Host, hi: byte, lo: byte, tail: Octets)
    requires Wellformed5(h)
    ensures ReadConnect(Connect5(h, hi, lo) + tail) == (Accepted(Asked5(h, Uint16(hi, lo))), tail)
  {
    var s := Connect5(h, hi, lo) + tail;
    var after := [hi, lo] + tail;
    assert s == [5, 1, 0] + (Address(h) + after);
    assert s[3..] == Address(h) + after;
    assert s[3] == s[3..][0] && s[4..] == s[3..][1..];
    ReadHostInverts(h, after);
    assert after[..2] == [hi, lo] && after[2..] == tail;
    TwoBytes(hi, lo);
  }

  lemma {:induction false} ConnectSound(s: Octets) returns (hi: byte, lo: byte)
    requires ReadConnect(s).0.Accepted?
    ensures
      var (r, rest) := (ReadConnect(s).0.request, ReadConnect(s).1);
      && Wellformed5(r.host) && r == Asked5(r.host, Uint16(hi, lo))
      && s == Connect5(r.host, hi, lo) + rest
  {
    var (read, after) := ReadHost(s[3], s[4..]);
    ReadHostSound(s[3], s[4..]);
    hi, lo := after[0], after[1];
    TwoBytes(hi, lo);
    assert after[..2] == [hi, lo] && after == [hi, lo] + after[2..];
    assert s == [5, 1, 0] + ([s[3]] + s[4..]);
    JoinConnect(read.host, hi, lo, after[2..]);
  }

  lemma JoinConnect(h: Host, hi: byte, lo: byte, rest: Octets)
    requires Wellformed5(h)
    ensures [5, 1, 0] + (Address(h) + ([hi, lo] + rest)) == Connect5(h, hi, lo) + rest
  {
  }

  /** `s` is a greeting with these methods, a CONNECT request and further bytes. */
  predicate Asks5(s: Octets, methods: Octets, h: Host, hi: byte, lo: byte, tail: Octets)
  {
    && |methods| <= 255 && 0 in methods && Wellformed5(h)
    && s == Greeting(methods) + (Connect5(h, hi, lo) + tail)
  }

  /** Negotiation accepts exactly the greetings that offer no authentication,
      followed by a CONNECT request; it returns the host, the port whose two bytes
      they hold with the more significant one first, the two replies of section 6 of
      RFC 1928, and leaves exactly the following bytes unread. */
  lemma {:induction false} Negotiate5Exact(s: Octets, h: Host, port: nat, tail: Octets)
    ensures
      (Negotiated5(s) ==
       (Accepted(Request(h, port, [5, 0, 0, 1, 0, 0, 0, 0, 0, 0], [5, 5, 0, 1, 0, 0, 0, 0, 0, 0])), [5, 0], tail)) <==>
      exists methods: Octets, hi: byte, lo: byte :: Asks5(s, methods, h, hi, lo, tail) && port == Uint16(hi, lo)
  {
    if Negotiated5(s) == (Accepted(Asked5(h, port)), [5, 0], tail) {
      var hi, lo := Negotiate5Sound(s, h, port, tail);
    }
    forall methods: Octets, hi: byte, lo: byte | Asks5(s, methods, h, hi, lo, tail) && port == Uint16(hi, lo)
      ensures Negotiated5(s) == (Accepted(Asked5(h, port)), [5, 0], tail)
    {
      Negotiate5Complete(s, methods, h, hi, lo, tail);
    }
  }

  /** The method reply: no answer to a greeting that is cut short, a refusal when it
      does not offer to go without authentication, and else the choice of that. */
  lemma {:induction false} Negotiate5Replies(s: Octets)
    ensures
      var reply := Negotiated5(s).1;
      if s == [] || |s| < 1 + s[0] as nat then reply == [] && Negotiated5(s).0 == ShortRead
      else if exists i :: 1 <= i <= s[0] as nat && s[i] == 0 then reply == [5, 0]
      else reply == [5, 255] && Negotiated5(s).0 == Refused
  {
    if s != [] && |s| >= 1 + s[0] as nat {
      var methods := s[1..1 + s[0] as nat];
      assert forall i | 1 <= i <= s[0] as nat :: s[i] == methods[i - 1];
    }
  }

  /** What is answered to the bytes after the greeting that are no CONNECT request. */
  lemma {:induction false} ConnectRefusals(s: Octets)
    ensures |s| < 4 ==> ReadConnect(s).0 == ShortRead
    ensures |s| >= 4 && (s[0] != 5 || s[1] != 1 || s[2] != 0) ==> ReadConnect(s).0 == Refused
    ensures |s| >= 4 && s[..3] == [5, 1, 0] && s[3] !in {1, 3, 4} ==> ReadConnect(s).0 == Refused
    ensures |s| >= 4 && s[..3] == [5, 1, 0] && s[3] in {1, 3, 4} ==>
              var size := if s[3] == 1 then 10 else if s[3] == 4 then 22 else if |s| < 5 then 5 else 7 + s[4] as nat;
              if |s| < size then ReadConnect(s).0 == ShortRead else ReadConnect(s).0.Accepted?
  {
    if |s| >= 4 && s[..3] == [5, 1, 0] {
      assert s[0] == s[..3][0] && s[1] == s[..3][1] && s[2] == s[..3][2];
    }
  }

  lemma {:induction false} Negotiate5Complete(s: Octets, methods: Octets, h: Host, hi: byte, lo: byte, tail: Octets)
    requires Asks5(s, methods, h, hi, lo, tail)
    ensures Negotiated5(s) == (Accepted(Asked5(h, Uint16(hi, lo))), [5, 0], tail)
  {
    assert s[1..1 + |methods|] == methods;
    assert s[1 + |methods|..] == Connect5(h, hi, lo) + tail;
    ConnectInverts(h, hi, lo, tail);
  }

  lemma {:induction false} GreetingAt(s: Octets, end: nat)
    requires s != [] && end == 1 + s[0] as nat <= |s|
    ensures s == Greeting(s[1..end]) + s[end..]
  {
    assert s[..end] == Greeting(s[1..end]);
  }

  lemma {:induction false} Negotiate5Sound(s: Octets, h: Host, port: nat, tail: Octets) returns (hi: byte, lo: byte)
    requires Negotiated5(s) == (Accepted(Asked5(h, port)), [5, 0], tail)
    ensures port == Uint16(hi, lo)
    ensures Asks5(s, s[1..1 + s[0] as nat], h, hi, lo, tail)
  {
    var end: nat := 1 + s[0] as nat;
    assert ReadConnect(s[end..]) == (Accepted(Asked5(h, port)), tail);
    hi, lo := ConnectSound(s[end..]);
    GreetingAt(s, end);
  }

  /** negotiateSOCKS5 against a buffered reader, for every fragmentation; `replyOk`
      tells whether the method reply could be written. */
  method Negotiate5(r: Reader, replyOk: bool) returns (result: Result, reply: Octets)
    modifies r
    ensures reply == Negotiated5(old(r.Rest())).1
    ensures result == if reply == [5, 0] && !replyOk then ReplyFailed else Negotiated5(old(r.Rest())).0
    ensures result.Accepted? ==> r.Rest() == Negotiated5(old(r.Rest())).2
  {
    var methods := ReadMethods5(r);
    if methods.None? {
      return ShortRead, [];
    }
    var supportsNone := false;
    for i := 0 to |methods.value|
      invariant supportsNone <==> 0 in methods.value[..i]
    {
      supportsNone := supportsNone || methods.value[i] == 0;
    }
    assert methods.value[..|methods.value|] == methods.value;
    if !supportsNone {
      return Refused, [5, 0xff];
    }
    reply := [5, 0];
    if !replyOk {
      return ReplyFailed, reply;
    }
    result := ReadRequest5(r);
  }

  /** The methods a greeting offers, if it is complete. */
  method ReadMethods5(r: Reader) returns (methods: Option<Octets>)
    modifies r
    ensures
      var s := old(r.Rest());
      if s == [] || |s| < 1 + s[0] as nat then methods.None?
      else methods == Some(s[1..1 + s[0] as nat]) && r.Rest() == s[1 + s[0] as nat..]
  {
    ghost var s := r.Rest();
    var count := r.ReadFull(1);
    if !count.Full? {
      return None;
    }
    assert count.bytes == [s[0]];
    var value := r.ReadFull(count.bytes[0]);
    if !value.Full? {
      return None;
    }
    assert value.bytes == s[1..1 + s[0] as nat] && r.Rest() == s[1 + s[0] as nat..];
    return Some(value.bytes);
  }

  method ReadRequest5(r: Reader) returns (result: Result)
    modifies r
    ensures result == ReadConnect(old(r.Rest())).0
    ensures result.Accepted? ==> r.Rest() == ReadConnect(old(r.Rest())).1
  {
    ghost var s := r.Rest();
    var header := r.ReadFull(4);
    if !header.Full? {
      return ShortRead;
    }
    if header.bytes[0] != 5 || header.bytes[1] != 1 || header.bytes[2] != 0 {
      return Refused;
    }
    var host := ReadAddress5(r, header.bytes[3]);
    if host.HostShort? {
      return ShortRead;
    }
    if host.HostRefused? {
      return Refused;
    }
    var port := r.ReadFull(2);
    if !port.Full? {
      return ShortRead;
    }
    return Accepted(Asked5(host.host, GetUint(port.bytes)));
  }

  method ReadAddress5(r: Reader, kind: byte) returns (host: HostRead)
    modifies r
    ensures host == ReadHost(kind, old(r.Rest())).0
    ensures host.GotHost? ==> r.Rest() == ReadHost(kind, old(r.Rest())).1
  {
    ghost var s := r.Rest();
    var length := if kind == 1 then 4 else 16;
    if kind == 3 {
      var prefix := r.ReadFull(1);
      if !prefix.Full? {
        return HostShort;
      }
      length := prefix.bytes[0];
    } else if kind != 1 && kind != 4 {
      return HostRefused;
    }
    ghost var t := r.Rest();
    var value := r.ReadFull(length);
    if !value.Full? {
      return HostShort;
    }
    assert kind == 3 ==> t[..length] == s[1..1 + length] && t[length..] == s[1 + length..];
    host := GotHost(if kind == 1 then IPv4(value.bytes)
                    else if kind == 3 then Domain(value.bytes) else IPv6(value.bytes));
  }

  // ------------------------------------------------------------ SOCKS4, 4a

  datatype Field = GotField(value: Octets) | FieldShort | FieldTooLong

  /** A NUL-terminated field of at most `maximum` bytes at the front of `s`. */
  function FieldOf(s: Octets, maximum: nat): (r: (Field, Octets))
  {
    if s == [] then (FieldShort, [])
    else if s[0] == 0 then (GotField([]), s[1..])
    else if maximum == 0 then (FieldTooLong, s[1..])
    else
      var (field, rest) := FieldOf(s[1..], maximum - 1);
      (Longer([s[0]], field), rest)
  }

  function Longer(front: Octets, field: Field): Field
  {
    if field.GotField? then GotField(front + field.value) else field
  }

  lemma {:induction false} LongerAssoc(a: Octets, b: Octets, field: Field)
    ensures Longer(a, Longer(b, field)) == Longer(a + b, field)
    ensures Longer([], field) == field
  {
    if field.GotField? {
      Assoc(a, b, field.value);
      assert [] + field.value == field.value;
    }
  }

  predicate FieldText(v: Octets, maximum: nat) { |v| <= maximum && 0 !in v }

  /** A field is read exactly when the stream starts with its bytes and a NUL. */
  lemma {:induction false} FieldExact(s: Octets, maximum: nat, v: Octets, rest: Octets)
    ensures FieldOf(s, maximum) == (GotField(v), rest) <==> FieldText(v, maximum) && s == v + [0] + rest
    decreases |s|
  {
    if s != [] && s[0] != 0 && maximum > 0 {
      if v == [] {
        assert v + [0] + rest == [0] + rest;
      } else {
        FieldExact(s[1..], maximum - 1, v[1..], rest);
        assert v == [v[0]] + v[1..];
        assert v + [0] + rest == [v[0]] + (v[1..] + [0] + rest);
        assert s == [s[0]] + s[1..];
      }
    } else if v == [] {
      assert v + [0] + rest == [0] + rest;
      assert s != [] ==> s == [s[0]] + s[1..];
    } else {
      assert (v + [0] + rest)[0] == v[0];
    }
  }

  /** A field is too long exactly if it has more than the maximum before any NUL, and
      short if the stream ends first. */
  lemma {:induction false} FieldFailures(s: Octets, maximum: nat)
    ensures FieldOf(s, maximum).0.FieldTooLong? <==> |s| > maximum && 0 !in s[..maximum + 1]
    ensures FieldOf(s, maximum).0.FieldShort? <==> |s| <= maximum && 0 !in s
    decreases |s|
  {
    if s != [] && s[0] != 0 && maximum > 0 {
      FieldFailures(s[1..], maximum - 1);
      assert s == [s[0]] + s[1..];
      assert |s| > maximum ==> s[..maximum + 1] == [s[0]] + s[1..][..maximum];
    } else if s != [] && s[0] != 0 {
      assert s[..1] == [s[0]];
    } else if s != [] {
      assert |s| > maximum ==> s[..maximum + 1][0] == 0;
    }
  }

  /** readSOCKS4Field: the loop ends before its unreachable tail. */
  method ReadField(r: Reader, maximum: nat) returns (field: Field)
    modifies r
    ensures (field, r.Rest()) == FieldOf(old(r.Rest()), maximum)
  {
    ghost var s := r.Rest();
    var value: Octets := [];
    LongerAssoc([], [], FieldOf(s, maximum).0);
    while |value| <= maximum
      invariant |value| <= maximum
      invariant var (f, rest) := FieldOf(r.Rest(), maximum - |value|);
                FieldOf(s, maximum) == (Longer(value, f), rest)
      decreases maximum - |value|
    {
      var current := r.ReadFull(1);
      if !current.Full? {
        return FieldShort;
      }
      if current.bytes[0] == 0 {
        assert value + [] == value;
        return GotField(value);
      }
      if |value| == maximum {
        return FieldTooLong;
      }
      LongerAssoc(value, [current.bytes[0]], FieldOf(r.Rest(), maximum - |value| - 1).0);
      value := value + [current.bytes[0]];
    }
    assert false;
  }

  predicate Is4a(ip: Octets)
    requires |ip| == 4
  {
    ip[0] == 0 && ip[1] == 0 && ip[2] == 0 && ip[3] != 0
  }

  function Success4(port: nat, ip: Octets): Octets { [0, 0x5a] + (PutUint(port, 2) + ip) }
  function Failure4(port: nat, ip: Octets): Octets { [0, 0x5b] + (PutUint(port, 2) + ip) }

  /** The replies repeat the two port bytes of the request. */
  lemma {:induction false} Replies4(hi: byte, lo: byte, ip: Octets)
    ensures Success4(Uint16(hi, lo), ip) == [0, 0x5a, hi, lo] + ip
    ensures Failure4(Uint16(hi, lo), ip) == [0, 0x5b, hi, lo] + ip
  {
    TwoBytes(hi, lo);
    PutGet([hi, lo]);
  }

  /** The request after the version byte; the domain is present for SOCKS4a only. */
  function Connect4(hi: byte, lo: byte, ip: Octets, user: Octets, domain: Octets): Octets
    requires |ip| == 4
  {
    [1, hi, lo] + ip + (user + [0] + if Is4a(ip) then domain + [0] else [])
  }

  function ReadTail4(ip: Octets, port: nat, s: Octets): (r: (Result, Octets))
    requires |ip| == 4
  {
    if Is4a(ip) then
      var (domain, rest) := FieldOf(s, MAX_DOMAIN);
      if domain.FieldShort? then (ShortRead, [])
      else if domain.FieldTooLong? then (Refused, [])
      else (Accepted(Request(Domain(domain.value), port, Success4(port, ip), Failure4(port, ip))), rest)
    else (Accepted(Request(IPv4(ip), port, Success4(port, ip), Failure4(port, ip))), s)
  }

  /** What negotiateSOCKS4 makes of the stream `s`. */
  function Negotiated4(s: Octets): (r: (Result, Octets))
  {
    if |s| < 7 then (ShortRead, [])
    else
      var (port, ip) := (GetUint(s[1..3]), s[3..7]);
      var (user, rest) := FieldOf(s[7..], MAX_USER_ID);
      if user.FieldShort? then (ShortRead, [])
      else if user.FieldTooLong? then (Refused, [])
      else if s[0] != 1 then (Refused, rest)
      else ReadTail4(ip, port, rest)
  }

  lemma Front4(hi: byte, lo: byte, ip: Octets, rest: Octets)
    requires |ip| == 4
    ensures
      var s := [1, hi, lo] + ip + rest;
      s[0] == 1 && s[1..3] == [hi, lo] && s[3..7] == ip && s[7..] == rest
  {
  }

  /** Every well-formed SOCKS4 or SOCKS4a CONNECT yields its host, the port of its two
      bytes and the replies 0x5a and 0x5b with them, and leaves exactly the following
      bytes. */
  lemma {:induction false} Negotiate4Complete(hi: byte, lo: byte, ip: Octets, user: Octets, domain: Octets,
      tail: Octets)
    requires |ip| == 4 && FieldText(user, 255) && FieldText(domain, 255)
    ensures Negotiated4(Connect4(hi, lo, ip, user, domain) + tail) ==
            (Accepted(Request(if Is4a(ip) then Domain(domain) else IPv4(ip), Uint16(hi, lo),
                              [0, 0x5a, hi, lo] + ip, [0, 0x5b, hi, lo] + ip)), tail)
  {
    var s := Connect4(hi, lo, ip, user, domain) + tail;
    var after := (if Is4a(ip) then domain + [0] else []) + tail;
    JoinConnect4(hi, lo, ip, user, domain, tail);
    Front4(hi, lo, ip, user + [0] + after);
    Assoc(user + [0], if Is4a(ip) then domain + [0] else [], tail);
    TwoBytes(hi, lo);
    Replies4(hi, lo, ip);
    FieldExact(s[7..], MAX_USER_ID, user, after);
    if Is4a(ip) {
      FieldExact(after, MAX_DOMAIN, domain, tail);
    } else {
      assert after == tail;
    }
  }

  /** What is answered to a request that is cut short, is no CONNECT, or has an overlong
      user or domain. */
  lemma {:induction false} Negotiate4Refusals(s: Octets)
    ensures |s| < 7 ==> Negotiated4(s).0 == ShortRead
    ensures |s| >= 7 ==>
              var (user, rest) := FieldOf(s[7..], 255);
              && (user.FieldShort? ==> Negotiated4(s).0 == ShortRead)
              && (user.FieldTooLong? ==> Negotiated4(s).0 == Refused)
              && (user.GotField? && s[0] != 1 ==> Negotiated4(s).0 == Refused)
              && (user.GotField? && s[0] == 1 && !Is4a(s[3..7]) ==> Negotiated4(s).0.Accepted?)
              && (user.GotField? && s[0] == 1 && Is4a(s[3..7]) ==>
                    var domain := FieldOf(rest, 255).0;
                    && (domain.FieldShort? ==> Negotiated4(s).0 == ShortRead)
                    && (domain.FieldTooLong? ==> Negotiated4(s).0 == Refused))
  {
  }

  /** And nothing else is accepted. */
  lemma {:induction false} Negotiate4Sound(s: Octets) returns (user: Octets, domain: Octets, ip: Octets)
    requires Negotiated4(s).0.Accepted?
    ensures |s| >= 3 && |ip| == 4 && FieldText(user, 255) && FieldText(domain, 255)
    ensures
      var (r, rest) := (Negotiated4(s).0.request, Negotiated4(s).1);
      && r.port == Uint16(s[1], s[2])
      && r.host == (if Is4a(ip) then Domain(domain) else IPv4(ip))
      && s == Connect4(s[1], s[2], ip, user, domain) + rest
  {
    var (r, rest) := (Negotiated4(s).0.request, Negotiated4(s).1);
    ip := s[3..7];
    var (first, second) := FieldOf(s[7..], MAX_USER_ID);
    user := first.value;
    FieldExact(s[7..], MAX_USER_ID, user, second);
    domain := [];
    if Is4a(ip) {
      domain := FieldOf(second, MAX_DOMAIN).0.value;
      FieldExact(second, MAX_DOMAIN, domain, rest);
    }
    TwoBytes(s[1], s[2]);
    assert s[1..3] == [s[1], s[2]];
    assert s == [1, s[1], s[2]] + ip + s[7..];
    JoinConnect4(s[1], s[2], ip, user, domain, rest);
    assert !Is4a(ip) ==> [] + rest == rest;
  }

  lemma JoinConnect4(hi: byte, lo: byte, ip: Octets, user: Octets, domain: Octets, rest: Octets)
    requires |ip| == 4
    ensures [1, hi, lo] + ip + (user + [0] + ((if Is4a(ip) then domain + [0] else []) + rest)) ==
            Connect4(hi, lo, ip, user, domain) + rest
  {
  }

  method Negotiate4(r: Reader) returns (result: Result)
    modifies r
    ensures result == Negotiated4(old(r.Rest())).0
    ensures result.Accepted? ==> r.Rest() == Negotiated4(old(r.Rest())).1
  {
    ghost var s := r.Rest();
    var command := r.ReadFull(1);
    if !command.Full? {
      return ShortRead;
    }
    var portBytes := r.ReadFull(2);
    if !portBytes.Full? {
      return ShortRead;
    }
    var ip := r.ReadFull(4);
    if !ip.Full? {
      return ShortRead;
    }
    assert portBytes.bytes == s[1..3] && ip.bytes == s[3..7] && r.Rest() == s[7..];
    var user := ReadField(r, MAX_USER_ID);
    if user.FieldShort? {
      return ShortRead;
    }
    if user.FieldTooLong? {
      return Refused;
    }
    if command.bytes[0] != 1 {
      return Refused;
    }
    var port := GetUint(portBytes.bytes);
    var host := IPv4(ip.bytes);
    if Is4a(ip.bytes) {
      var domain := ReadField(r, MAX_DOMAIN);
      if domain.FieldShort? {
        return ShortRead;
      }
      if domain.FieldTooLong? {
        return Refused;
      }
      host := Domain(domain.value);
    }
    return Accepted(Request(host, port, Success4(port, ip.bytes), Failure4(port, ip.bytes)));
  }
}
