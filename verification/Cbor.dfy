/** The part of CBOR that route records use, with the deterministic encoding of
    section 4.2.1 of RFC 8949: shortest heads and definite lengths.  The decoder
    takes heads of any width, as the library's does. */
module Cbor {
  import opened Bytes
  import opened Sequences

  const MAX_DEPTH := 16
  const MAX_ARRAY := 128
  const MAX_PAIRS := 32

  /** A map lists its keys and values in turn. */
  datatype Item = UInt(n: nat) | Text(bytes: seq<byte>) | Array(items: seq<Item>) | Map(entries: seq<Item>)

  // -------------------------------------------------------------- encoding

  function Head(major: nat, n: nat): (r: seq<byte>)
    requires major < 8
  {
    if n < 24 then [major * 32 + n]
    else if n < 0x100 then [major * 32 + 24] + PutUint(n, 1)
    else if n < 0x1_0000 then [major * 32 + 25] + PutUint(n, 2)
    else if n < 0x1_0000_0000 then [major * 32 + 26] + PutUint(n, 4)
    else [major * 32 + 27] + PutUint(n, 8)
  }

  function Encode(item: Item): (r: seq<byte>)
    decreases item, 0
  {
    match item
    case UInt(n) => Head(0, n)
    case Text(b) => Head(3, |b|) + b
    case Array(items) => Head(4, |items|) + EncodeAll(items)
    case Map(entries) => Head(5, |entries| / 2) + EncodeAll(entries)
  }

  function EncodeAll(items: seq<Item>): (r: seq<byte>)
    decreases items
  {
    if items == [] then [] else Encode(items[0]) + EncodeAll(items[1..])
  }

  /** The five head forms of section 3 of RFC 8949, the shortest that holds the number,
      with its most significant byte first. */
  lemma {:induction false} HeadLayout(major: nat, n: nat)
    requires major < 8 && n < UINT64
    ensures
      var h := Head(major, n);
      if n < 24 then h == [32 * major + n]
      else if n < 0x100 then h == [32 * major + 24, n]
      else if n < 0x1_0000 then |h| == 3 && h[0] == 32 * major + 25 && Uint16(h[1], h[2]) == n
      else if n < 0x1_0000_0000 then |h| == 5 && h[0] == 32 * major + 26 && Uint32(h[1], h[2], h[3], h[4]) == n
      else |h| == 9 && h[0] == 32 * major + 27 &&
           0x1_0000_0000 * Uint32(h[1], h[2], h[3], h[4]) + Uint32(h[5], h[6], h[7], h[8]) == n
  {
    if 24 <= n < 0x100 {
      Capacities();
      GetPut(n, 1);
      var r := PutUint(n, 1);
      OneByte(r[0]);
      assert r == [r[0]];
    } else if 0x100 <= n < 0x1_0000 {
      PutTwo(n);
    } else if 0x1_0000 <= n < 0x1_0000_0000 {
      PutFour(n);
    } else if 0x1_0000_0000 <= n {
      PutEight(n);
    }
  }

  /** The three upper bits of the first byte tell what follows: 0 a number, 3 a text, 4 an
      array, 5 a map. */
  lemma {:induction false} MajorTypes(item: Item)
    ensures
      var e := Encode(item);
      e != [] && e[0] as nat / 32 == if item.UInt? then 0 else if item.Text? then 3 else if item.Array? then 4 else 5
  {
    match item {
      case UInt(n) => HeadMajor(0, n);
      case Text(b) => HeadMajor(3, |b|);
      case Array(items) => HeadMajor(4, |items|);
      case Map(entries) => HeadMajor(5, |entries| / 2);
    }
  }

  lemma {:induction false} HeadMajor(major: nat, n: nat)
    requires major < 8
    ensures Head(major, n) != [] && Head(major, n)[0] as nat / 32 == major
  {
  }

  // -------------------------------------------------------------- decoding

  datatype HeadRead = HeadRead(major: nat, n: nat, rest: seq<byte>) | NoHead

  function WideHead(major: nat, width: nat, s: seq<byte>): (r: HeadRead)
  {
    if |s| < width then NoHead else HeadRead(major, GetUint(s[..width]), s[width..])
  }

  function ReadHead(s: seq<byte>): (r: HeadRead)
    ensures r.HeadRead? ==> |r.rest| < |s|
  {
    if s == [] then NoHead
    else
      var (major, info) := (s[0] as nat / 32, s[0] as nat % 32);
      if info < 24 then HeadRead(major, info, s[1..])
      else if info == 24 then WideHead(major, 1, s[1..])
      else if info == 25 then WideHead(major, 2, s[1..])
      else if info == 26 then WideHead(major, 4, s[1..])
      else if info == 27 then WideHead(major, 8, s[1..])
      else NoHead
  }

  /** One item at the front of `s`, at most `depth` containers deep. */
  function Parse(s: seq<byte>, depth: nat): (r: Option<(Item, seq<byte>)>)
    decreases depth, 0
  {
    var h := ReadHead(s);
    if h.NoHead? then None
    else if h.major == 0 then Some((UInt(h.n), h.rest))
    else if h.major == 3 then
      if |h.rest| < h.n then None else Some((Text(h.rest[..h.n]), h.rest[h.n..]))
    else if depth == 0 then None
    else if h.major == 4 && h.n <= MAX_ARRAY then
      var r := ParseAll(h.rest, h.n, depth - 1);
      if r.None? then None else Some((Array(r.value.0), r.value.1))
    else if h.major == 5 && h.n <= MAX_PAIRS then
      var r := ParseAll(h.rest, 2 * h.n, depth - 1);
      if r.None? then None else Some((Map(r.value.0), r.value.1))
    else None
  }

  function ParseAll(s: seq<byte>, count: nat, depth: nat): (r: Option<(seq<Item>, seq<byte>)>)
    decreases depth, count + 1
  {
    if count == 0 then Some(([], s))
    else
      var first := Parse(s, depth);
      if first.None? then None
      else
        var more := ParseAll(first.value.1, count - 1, depth);
        if more.None? then None else Some(([first.value.0] + more.value.0, more.value.1))
  }

  // ------------------------------------------------------------ round trip

  /** Within the decoder's limits. */
  predicate Sized(item: Item, depth: nat)
  {
    match item
    case UInt(n) => n < UINT64
    case Text(b) => |b| < UINT64
    case Array(items) => depth > 0 && |items| <= MAX_ARRAY && forall i | i in items :: Sized(i, depth - 1)
    case Map(entries) =>
      depth > 0 && |entries| % 2 == 0 && |entries| / 2 <= MAX_PAIRS && forall i | i in entries :: Sized(i, depth - 1)
  }

  lemma {:induction false} ReadHeadInverts(major: nat, n: nat, rest: seq<byte>)
    requires major < 8 && n < UINT64
    ensures ReadHead(Head(major, n) + rest) == HeadRead(major, n, rest)
  {
    Capacities();
    if n < 24 {
      assert (Head(major, n) + rest)[1..] == rest;
    } else if n < 0x100 {
      WideInverts(major, 24, n, 1, rest);
    } else if n < 0x1_0000 {
      WideInverts(major, 25, n, 2, rest);
    } else if n < 0x1_0000_0000 {
      WideInverts(major, 26, n, 4, rest);
    } else {
      WideInverts(major, 27, n, 8, rest);
    }
  }

  lemma {:induction false} WideInverts(major: nat, info: nat, n: nat, width: nat, rest: seq<byte>)
    requires major < 8 && 24 <= info < 28 && n < Capacity(width)
    ensures
      var s := [major * 32 + info as byte] + PutUint(n, width) + rest;
      && s[0] as nat / 32 == major && s[0] as nat % 32 == info
      && WideHead(major, width, s[1..]) == HeadRead(major, n, rest)
  {
    var s := [major * 32 + info as byte] + PutUint(n, width) + rest;
    GetPut(n, width);
    assert s[1..] == PutUint(n, width) + rest;
    SplitConcat(PutUint(n, width), rest);
  }

  /** Decoding inverts encoding, whatever follows. */
  lemma {:induction false} ParseInverts(item: Item, depth: nat, rest: seq<byte>)
    requires Sized(item, depth)
    ensures Parse(Encode(item) + rest, depth) == Some((item, rest))
    decreases depth, 0
  {
    match item {
      case UInt(n) => ReadHeadInverts(0, n, rest);
      case Text(b) =>
        ReadHeadInverts(3, |b|, b + rest);
        Assoc(Head(3, |b|), b, rest);
        assert (b + rest)[..|b|] == b && (b + rest)[|b|..] == rest;
      case Array(items) =>
        ReadHeadInverts(4, |items|, EncodeAll(items) + rest);
        Assoc(Head(4, |items|), EncodeAll(items), rest);
        ParseAllInverts(items, depth - 1, rest);
      case Map(entries) =>
        ReadHeadInverts(5, |entries| / 2, EncodeAll(entries) + rest);
        Assoc(Head(5, |entries| / 2), EncodeAll(entries), rest);
        ParseAllInverts(entries, depth - 1, rest);
    }
  }

  lemma {:induction false} ParseAllInverts(items: seq<Item>, depth: nat, rest: seq<byte>)
    requires forall i | i in items :: Sized(i, depth)
    ensures ParseAll(EncodeAll(items) + rest, |items|, depth) == Some((items, rest))
    decreases depth, |items| + 1
  {
    if items == [] {
      assert EncodeAll(items) + rest == rest;
    } else {
      var tail := EncodeAll(items[1..]) + rest;
      Assoc(Encode(items[0]), EncodeAll(items[1..]), rest);
      ParseInverts(items[0], depth, tail);
      ParseAllInverts(items[1..], depth, rest);
      assert items == [items[0]] + items[1..];
    }
  }
}
