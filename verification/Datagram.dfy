/** Length-prefixed datagrams on a byte stream (protocol/datagram/frames.go). */
module Datagram {
  import opened Bytes
  import opened Sequences
  import opened ByteStream

  const HEADER_LENGTH := 2
  const MAX_PAYLOAD := 65535

  type Packet = p: seq<byte> | |p| <= 65535

  datatype ReadResult = Got(payload: Packet) | HeaderFailed(reason: FullRead) | PayloadFailed

  function Encode(p: Packet): (r: seq<byte>) { PutUint(|p|, 2) + p }

  function EncodeAll(ps: seq<Packet>): (r: seq<byte>)
  {
    if ps == [] then [] else Encode(ps[0]) + EncodeAll(ps[1..])
  }

  /** One Read from a stream that holds `s`. */
  function ReadOne(s: seq<byte>): (r: (ReadResult, seq<byte>))
    ensures r.0.Got? ==> |r.1| < |s|
  {
    var (header, rest) := ReadFullOf(s, HEADER_LENGTH);
    if !header.Full? then (HeaderFailed(header), rest)
    else
      Capacities();
      var (payload, rest') := ReadFullOf(rest, GetUint(header.bytes));
      if payload.Full? then (Got(payload.bytes), rest') else (PayloadFailed, rest')
  }

  /** The packets that repeated Reads yield before the first failure. */
  function Packets(s: seq<byte>): (r: seq<Packet>)
    decreases |s|
  {
    var (result, rest) := ReadOne(s);
    if result.Got? then [result.payload] + Packets(rest) else []
  }

  lemma {:induction false} EncodeStarts(p: Packet, tail: seq<byte>)
    ensures (Encode(p) + tail)[..2] == PutUint(|p|, 2) && (Encode(p) + tail)[2..] == p + tail
    ensures GetUint(PutUint(|p|, 2)) == |p|
  {
    Capacities();
    GetPut(|p|, 2);
    Assoc(PutUint(|p|, 2), p, tail);
    SplitConcat(PutUint(|p|, 2), p + tail);
  }

  /** On the wire: two bytes of length, the more significant one first, and the
      payload. */
  lemma {:induction false} Layout(p: Packet)
    ensures |Encode(p)| == 2 + |p| && Encode(p)[2..] == p
    ensures Uint16(Encode(p)[0], Encode(p)[1]) == |p|
  {
    PutTwo(|p|);
    assert Encode(p)[2..] == p;
  }

  /** What one Read makes of a stream, by its bytes. */
  lemma {:induction false} ReadByBytes(s: seq<byte>)
    ensures |s| == 0 ==> ReadOne(s) == (HeaderFailed(Eof), [])
    ensures |s| == 1 ==> ReadOne(s) == (HeaderFailed(UnexpectedEof), [])
    ensures |s| >= 2 ==>
              var length := Uint16(s[0], s[1]);
              if |s| < 2 + length then ReadOne(s) == (PayloadFailed, [])
              else ReadOne(s).0.Got? && ReadOne(s).0.payload == s[2..2 + length] && ReadOne(s).1 == s[2 + length..]
  {
    if |s| >= 2 {
      TwoBytes(s[0], s[1]);
      assert s[..2] == [s[0], s[1]];
      var length := Uint16(s[0], s[1]);
      if |s| >= 2 + length { assert s[2..][..length] == s[2..2 + length] && s[2..][length..] == s[2 + length..]; }
    }
  }

  /** Reading inverts writing, whatever follows. */
  lemma {:induction false} ReadInvertsWrite(p: Packet, tail: seq<byte>)
    ensures ReadOne(Encode(p) + tail) == (Got(p), tail)
  {
    EncodeStarts(p, tail);
    assert (p + tail)[..|p|] == p && (p + tail)[|p|..] == tail;
  }

  /** A stream cut inside a datagram yields nothing of it. */
  lemma {:induction false} CutPacketIsNotRead(p: Packet, s: seq<byte>)
    requires s < Encode(p)
    ensures !ReadOne(s).0.Got?
  {
    EncodeStarts(p, []);
    assert Encode(p) + [] == Encode(p);
    if |s| >= 2 {
      assert s[..2] == Encode(p)[..2];
    }
  }

  /** Boundaries survive: from any cut of an encoded packet list exactly a prefix of
      the list is read, and all of it when nothing is cut. */
  lemma {:induction false} PrefixYieldsPrefix(ps: seq<Packet>, s: seq<byte>)
    requires s <= EncodeAll(ps)
    ensures Packets(s) <= ps
    ensures s == EncodeAll(ps) ==> Packets(s) == ps
    decreases |ps|
  {
    if ps != [] {
      var head := Encode(ps[0]);
      if |s| < |head| {
        assert s == head[..|s|];
        CutPacketIsNotRead(ps[0], s);
      } else {
        var tail := s[|head|..];
        assert s == head + tail;
        ReadInvertsWrite(ps[0], tail);
        PrefixYieldsPrefix(ps[1..], tail);
        assert Packets(s) == [ps[0]] + Packets(tail);
        assert ps == [ps[0]] + ps[1..];
      }
    }
  }

  lemma {:induction false} EncodeAllConcat(a: seq<Packet>, b: seq<Packet>)
    ensures EncodeAll(a + b) == EncodeAll(a) + EncodeAll(b)
  {
    if a == [] {
      assert a + b == b;
    } else {
      assert (a + b)[0] == a[0] && (a + b)[1..] == a[1..] + b;
      EncodeAllConcat(a[1..], b);
      Assoc(Encode(a[0]), EncodeAll(a[1..]), EncodeAll(b));
    }
  }

  method Write(w: Writer, payload: seq<byte>) returns (ok: bool)
    modifies w
    ensures |payload| > 65535 ==> !ok && w.out == old(w.out)
    ensures |payload| <= 65535 ==> old(w.out) <= w.out <= old(w.out) + Encode(payload)
    ensures ok ==> |payload| <= 65535 && w.out == old(w.out) + Encode(payload)
    ensures |payload| <= 65535 ==>
              forall n: nat | 2 + |payload| <= n && old(w.Willing(n)) :: ok && w.Willing(n - 2 - |payload|)
  {
    if |payload| > MAX_PAYLOAD {
      return false;
    }
    var header := PutUint(|payload|, 2);
    Assoc(old(w.out), header, payload);
    ok := w.WriteAll(header);
    if !ok {
      return false;
    }
    ok := w.WriteAll(payload);
  }

  method Read(r: Reader) returns (result: ReadResult)
    modifies r
    ensures (result, r.Rest()) == ReadOne(old(r.Rest()))
  {
    var header := r.ReadFull(HEADER_LENGTH);
    if !header.Full? {
      return HeaderFailed(header);
    }
    Capacities();
    var payload := r.ReadFull(GetUint(header.bytes));
    if !payload.Full? {
      return PayloadFailed;
    }
    return Got(payload.bytes);
  }
}
