/** The signed route-record payload (protocol/routerecord/routerecord.go).

    A peer and a multiaddr are represented by their canonical text; a nil multiaddr
    is None.  Parsing foreign text is a parameter (`Names`). */
module RouteRecord {
  import opened Bytes
  import opened Cbor
  import opened Ordering

  const VERSION := 1
  const MAX_SERVICES := 64
  const MAX_ADDRESSES := 64
  const CAPABILITY_LIMIT := 128

  type Name = seq<byte>
  type Addresses = seq<Option<Name>>

  datatype Record = Record(
    version: nat, peer: Name, sequence: nat, issuedAt: nat, expiresAt: nat,
    services: seq<nat>, addresses: Addresses, relays: Addresses, capabilities: nat)

  datatype Error =
    | BadVersion | PeerRequired | BadExpiry | BadServiceCount | TooManyAddresses | BadCapabilities
    | BadCbor | BadFields | BadPeer | BadService | BadAddress | NotDeterministic

  datatype Result<+T> = Ok(value: T) | Err(error: Error)

  /** The canonical form of a peer or multiaddr text, if it is one. */
  datatype Names = Names(peer: Name -> Option<Name>, address: Name -> Option<Name>)

  // --------------------------------------------------------- normalisation

  function NonZero(services: seq<nat>): (r: seq<nat>)
  {
    if services == [] then []
    else
      var (init, last) := (services[..|services| - 1], services[|services| - 1]);
      if last == 0 then NonZero(init) else NonZero(init) + [last]
  }

  lemma {:induction false} NonZeroElements(services: seq<nat>)
    ensures Elements(NonZero(services)) == Elements(services) - {0}
    decreases |services|
  {
    if services != [] {
      var init, last := services[..|services| - 1], services[|services| - 1];
      NonZeroElements(init);
      assert services == init + [last];
      assert Elements(services) == Elements(init) + {last};
      assert Elements(NonZero(init) + [last]) == Elements(NonZero(init)) + {last};
    }
  }

  function Present(addresses: Addresses): (r: seq<Name>)
  {
    if addresses == [] then []
    else
      var (init, last) := (addresses[..|addresses| - 1], addresses[|addresses| - 1]);
      if last.None? then Present(init) else Present(init) + [last.value]
  }

  function Wrap(names: seq<Name>): (r: Addresses) { seq(|names|, i requires 0 <= i < |names| => Some(names[i])) }

  function UniqueServices(services: seq<nat>): (r: seq<nat>) { Listing(NonZero(services), Below) }

  function UniqueAddresses(addresses: Addresses): (r: Addresses) { Wrap(Listing(Present(addresses), LexBelow)) }

  function Normalize(r: Record): (n: Result<Record>)
  {
    if r.version != VERSION then Err(BadVersion)
    else if r.peer == [] then Err(PeerRequired)
    else if r.expiresAt <= r.issuedAt then Err(BadExpiry)
    else if |r.services| == 0 || |r.services| > MAX_SERVICES then Err(BadServiceCount)
    else if |r.addresses| > MAX_ADDRESSES || |r.relays| > MAX_ADDRESSES then Err(TooManyAddresses)
    else if r.capabilities >= CAPABILITY_LIMIT then Err(BadCapabilities)
    else Ok(r.(services := UniqueServices(r.services), addresses := UniqueAddresses(r.addresses),
               relays := UniqueAddresses(r.relays)))
  }

  /** The records that are accepted. */
  lemma {:induction false} NormalizeAccepts(r: Record)
    ensures Normalize(r).Ok? <==>
              && r.version == 1 && r.peer != [] && r.issuedAt < r.expiresAt
              && 1 <= |r.services| <= 64 && |r.addresses| <= 64 && |r.relays| <= 64 && r.capabilities < 128
    ensures Normalize(r).Ok? ==>
              Normalize(r).value ==
              r.(services := UniqueServices(r.services), addresses := UniqueAddresses(r.addresses),
                 relays := UniqueAddresses(r.relays))
  {
  }

  lemma {:induction false} PresentOfWrap(names: seq<Name>)
    ensures Present(Wrap(names)) == names
    decreases |names|
  {
    if names != [] {
      var init := names[..|names| - 1];
      PresentOfWrap(init);
      assert Wrap(names)[..|names| - 1] == Wrap(init);
      assert names == init + [names[|names| - 1]];
    }
  }

  lemma {:induction false} FilterShorter(services: seq<nat>, addresses: Addresses)
    ensures |NonZero(services)| <= |services| && |Present(addresses)| <= |addresses|
    decreases |services| + |addresses|
  {
    if services != [] { FilterShorter(services[..|services| - 1], []); }
    if addresses != [] { FilterShorter([], addresses[..|addresses| - 1]); }
  }

  /** Unique services are ascending, free of duplicates and zero, and no service is
      lost; likewise the addresses. */
  lemma {:induction false} UniqueSorts(services: seq<nat>, addresses: Addresses)
    ensures Ascending(UniqueServices(services), Below)
    ensures forall i, j | 0 <= i < j < |UniqueServices(services)| ::
              UniqueServices(services)[i] < UniqueServices(services)[j]
    ensures Elements(UniqueServices(services)) == Elements(services) - {0}
    ensures |UniqueServices(services)| <= |services|
    ensures Ascending(Present(UniqueAddresses(addresses)), LexBelow)
    ensures Elements(Present(UniqueAddresses(addresses))) == Elements(Present(addresses))
    ensures |UniqueAddresses(addresses)| <= |addresses|
  {
    BelowIsTotal();
    LexIsTotal();
    NonZeroElements(services);
    ListingSorts(NonZero(services), Below);
    ListingSorts(Present(addresses), LexBelow);
    ListingShorter(NonZero(services), Below);
    ListingShorter(Present(addresses), LexBelow);
    PresentOfWrap(Listing(Present(addresses), LexBelow));
    FilterShorter(services, addresses);
  }

  lemma {:induction false} UniqueShorter(services: seq<nat>, addresses: Addresses)
    ensures |UniqueServices(services)| <= |services| && |UniqueAddresses(addresses)| <= |addresses|
  {
    UniqueSorts(services, addresses);
  }

  lemma {:induction false} UniqueServicesIdempotent(services: seq<nat>)
    ensures UniqueServices(UniqueServices(services)) == UniqueServices(services)
  {
    BelowIsTotal();
    var once := UniqueServices(services);
    UniqueSorts(services, []);
    NonZeroElements(once);
    NonZeroElements(services);
    ListingDetermined(NonZero(once), NonZero(services), Below);
  }

  lemma {:induction false} UniqueAddressesIdempotent(addresses: Addresses)
    ensures UniqueAddresses(UniqueAddresses(addresses)) == UniqueAddresses(addresses)
  {
    LexIsTotal();
    PresentOfWrap(Listing(Present(addresses), LexBelow));
    ListingIdempotent(Present(addresses), LexBelow);
  }

  predicate SomeService(r: Record) { exists s | s in r.services :: s != 0 }

  lemma {:induction false} ServicesSurvive(r: Record)
    ensures UniqueServices(r.services) == [] <==> !SomeService(r)
  {
    UniqueSorts(r.services, []);
    var once := UniqueServices(r.services);
    if SomeService(r) {
      var s :| s in r.services && s != 0;
      assert s in Elements(once);
    } else {
      assert Elements(r.services) - {0} == {};
      NoElements(once);
    }
  }

  /** Normalising twice is normalising once, exactly when some service is not zero:
      otherwise the first pass empties the list and the second refuses it. */
  lemma {:induction false} NormalizeIdempotent(r: Record)
    requires Normalize(r).Ok?
    ensures Normalize(Normalize(r).value) == Normalize(r) <==> SomeService(r)
    ensures !SomeService(r) ==> Normalize(Normalize(r).value) == Err(BadServiceCount)
  {
    ServicesSurvive(r);
    UniqueServicesIdempotent(r.services);
    UniqueAddressesIdempotent(r.addresses);
    UniqueAddressesIdempotent(r.relays);
    UniqueShorter(r.services, r.addresses);
    UniqueShorter(r.services, r.relays);
  }

  // --------------------------------------------------------------- payload

  function Numbers(xs: seq<nat>): (r: seq<Item>) { seq(|xs|, i requires 0 <= i < |xs| => UInt(xs[i])) }
  function Texts(xs: seq<Name>): (r: seq<Item>) { seq(|xs|, i requires 0 <= i < |xs| => Text(xs[i])) }

  /** The field values in key order. */
  function Values(r: Record): (v: seq<Item>)
  {
    [UInt(r.version), Text(r.peer), UInt(r.sequence), UInt(r.issuedAt), UInt(r.expiresAt), Array(Numbers(r.services)),
     Array(Texts(Present(r.addresses))), Array(Texts(Present(r.relays))), UInt(r.capabilities)]
  }

  /** A map with the keys 0, 1, 2 and so on. */
  function Keyed(values: seq<Item>): (e: seq<Item>)
    ensures |e| == 2 * |values|
  {
    if values == [] then []
    else Keyed(values[..|values| - 1]) + [UInt(|values| - 1), values[|values| - 1]]
  }

  function EncodePayload(r: Record): (p: Result<seq<byte>>)
  {
    var n := Normalize(r);
    if n.Err? then Err(n.error) else Ok(Encode(Map(Keyed(Values(n.value)))))
  }

  type Fields = map<nat, Item>

  /** The key-value pairs of a map; a repeated or non-numeric key is refused. */
  function FieldsOf(entries: seq<Item>): (r: Option<Fields>)
    decreases |entries|
  {
    if |entries| < 2 then Some(map[])
    else
      var rest := FieldsOf(entries[..|entries| - 2]);
      var (key, value) := (entries[|entries| - 2], entries[|entries| - 1]);
      if rest.None? || !key.UInt? || key.n in rest.value then None else Some(rest.value[key.n := value])
  }

  function NumbersOf(items: seq<Item>): (r: Option<seq<nat>>)
  {
    if items == [] then Some([])
    else
      var rest := NumbersOf(items[1..]);
      if items[0].UInt? && rest.Some? then Some([items[0].n] + rest.value) else None
  }

  function TextsOf(items: seq<Item>): (r: Option<seq<Name>>)
  {
    if items == [] then Some([])
    else
      var rest := TextsOf(items[1..]);
      if items[0].Text? && rest.Some? then Some([items[0].bytes] + rest.value) else None
  }

  function ParseAddresses(names: Names, texts: seq<Name>): (r: Option<Addresses>)
  {
    if texts == [] then Some([])
    else
      var rest := ParseAddresses(names, texts[1..]);
      if names.address(texts[0]).Some? && rest.Some? then Some([names.address(texts[0])] + rest.value) else None
  }

  predicate Typed(f: Fields)
  {
    && f.Keys == {0, 1, 2, 3, 4, 5, 6, 7, 8}
    && f[0].UInt? && f[1].Text? && f[2].UInt? && f[3].UInt? && f[4].UInt?
    && f[5].Array? && NumbersOf(f[5].items).Some?
    && f[6].Array? && TextsOf(f[6].items).Some?
    && f[7].Array? && TextsOf(f[7].items).Some?
    && f[8].UInt?
  }

  predicate PortsOk(services: seq<nat>) { forall s | s in services :: 0 < s <= 65535 }

  /** The record before normalisation, its texts and ports checked. */
  function Assemble(names: Names, r: Record, addresses: seq<Name>, relays: seq<Name>): (a: Result<Record>)
  {
    var peer := names.peer(r.peer);
    if peer.None? then Err(BadPeer)
    else if !PortsOk(r.services) then Err(BadService)
    else if ParseAddresses(names, addresses).None? || ParseAddresses(names, relays).None? then Err(BadAddress)
    else Ok(r.(peer := peer.value, addresses := ParseAddresses(names, addresses).value,
               relays := ParseAddresses(names, relays).value))
  }

  /** The record a field map describes. */
  function FromFields(names: Names, f: Fields): (r: Result<Record>)
    requires Typed(f)
  {
    Assemble(names,
             Record(f[0].n, f[1].bytes, f[2].n, f[3].n, f[4].n, NumbersOf(f[5].items).value, [], [], f[8].n),
             TextsOf(f[6].items).value, TextsOf(f[7].items).value)
  }

  function DecodePayload(names: Names, payload: seq<byte>): (r: Result<Record>)
  {
    var parsed := Parse(payload, MAX_DEPTH);
    if parsed.None? || parsed.value.1 != [] || !parsed.value.0.Map? then Err(BadCbor)
    else
      var fields := FieldsOf(parsed.value.0.entries);
      if fields.None? then Err(BadCbor)
      else if !Typed(fields.value) then Err(BadFields)
      else
        var record := FromFields(names, fields.value);
        if record.Err? then record
        else
          var n := Normalize(record.value);
          if n.Err? then n
          else if EncodePayload(n.value) != Ok(payload) then Err(NotDeterministic)
          else n
  }

  /** Any accepted payload is the encoding of the record it yields, and that record
      is normal. */
  lemma {:induction false} AcceptedReencodes(names: Names, payload: seq<byte>)
    requires DecodePayload(names, payload).Ok?
    ensures EncodePayload(DecodePayload(names, payload).value) == Ok(payload)
    ensures SomeService(DecodePayload(names, payload).value)
    ensures Normalize(DecodePayload(names, payload).value) == DecodePayload(names, payload)
  {
    var record := FromFields(names, FieldsOf(Parse(payload, MAX_DEPTH).value.0.entries).value).value;
    NormalizeIdempotent(record);
    assert record.services != [] && record.services[0] != 0 by { assert record.services[0] in record.services; }
    assert SomeService(record);
    var n := Normalize(record).value;
    assert n.services != [] by { ServicesSurvive(record); }
    assert 0 !in Elements(n.services) by { UniqueSorts(record.services, []); }
    assert n.services[0] in n.services && n.services[0] in Elements(n.services);
  }

  /** Acceptance is injective: no record has two accepted payloads. */
  lemma {:induction false} AcceptanceInjective(names: Names, p: seq<byte>, q: seq<byte>)
    requires DecodePayload(names, p).Ok? && DecodePayload(names, p) == DecodePayload(names, q)
    ensures p == q
  {
    AcceptedReencodes(names, p);
    AcceptedReencodes(names, q);
  }

  // ------------------------------------------------------------ round trip

  predicate Spelled(names: Names, texts: seq<Name>)
  {
    forall a | a in texts :: |a| < UINT64 && names.address(a) == Some(a)
  }

  /** Sizes that Go's types guarantee, and texts in canonical form. */
  predicate Genuine(names: Names, r: Record)
  {
    && r.sequence < UINT64 && r.issuedAt < UINT64 && r.expiresAt < UINT64
    && |r.peer| < UINT64 && names.peer(r.peer) == Some(r.peer)
    && (forall s | s in r.services :: s < 65536)
    && Spelled(names, Present(r.addresses)) && Spelled(names, Present(r.relays))
  }

  function Indexed(values: seq<Item>): (f: Fields) { map i: nat | i < |values| :: values[i] }

  lemma {:induction false} FieldsOfKeyed(values: seq<Item>)
    ensures FieldsOf(Keyed(values)) == Some(Indexed(values))
    decreases |values|
  {
    if values != [] {
      var init := values[..|values| - 1];
      FieldsOfKeyed(init);
      assert Keyed(values)[..2 * |values| - 2] == Keyed(init);
      assert Indexed(values) == Indexed(init)[|values| - 1 := values[|values| - 1]];
    }
  }

  lemma {:induction false} KeyedSized(values: seq<Item>, depth: nat)
    requires |values| <= MAX_PAIRS && forall v | v in values :: Sized(v, depth)
    ensures forall i | i in Keyed(values) :: Sized(i, depth)
    decreases |values|
  {
    if values != [] {
      var init, last := values[..|values| - 1], values[|values| - 1];
      KeyedSized(init, depth);
      assert last in values;
      forall i | i in Keyed(values) ensures Sized(i, depth) {
        assert i in Keyed(init) || i == UInt(|values| - 1) || i == last;
      }
    }
  }

  lemma {:induction false} NumbersSurvive(xs: seq<nat>)
    ensures NumbersOf(Numbers(xs)) == Some(xs)
  {
    if xs == [] {
      assert Numbers(xs) == [];
    } else {
      NumbersSurvive(xs[1..]);
      assert Numbers(xs)[1..] == Numbers(xs[1..]);
      assert xs == [xs[0]] + xs[1..];
    }
  }

  lemma {:induction false} TextsSurvive(xs: seq<Name>)
    ensures TextsOf(Texts(xs)) == Some(xs)
  {
    if xs == [] {
      assert Texts(xs) == [];
    } else {
      TextsSurvive(xs[1..]);
      assert Texts(xs)[1..] == Texts(xs[1..]);
      assert xs == [xs[0]] + xs[1..];
    }
  }

  lemma {:induction false} AddressesSurvive(names: Names, xs: seq<Name>)
    requires Spelled(names, xs)
    ensures ParseAddresses(names, xs) == Some(Wrap(xs))
  {
    if xs == [] {
      assert Wrap(xs) == [];
    } else {
      AddressesSurvive(names, xs[1..]);
      assert Wrap(xs) == [Some(xs[0])] + Wrap(xs[1..]);
    }
  }

  /** What normalising guarantees about the lists. */
  predicate Tidy(n: Record)
  {
    && 0 !in n.services && |n.services| <= MAX_SERVICES
    && n.addresses == Wrap(Present(n.addresses)) && |n.addresses| <= MAX_ADDRESSES
    && n.relays == Wrap(Present(n.relays)) && |n.relays| <= MAX_ADDRESSES
    && n.version == VERSION && n.capabilities < CAPABILITY_LIMIT
  }

  lemma {:induction false} NormalIsTidy(names: Names, r: Record)
    requires Genuine(names, r) && Normalize(r).Ok?
    ensures Tidy(Normalize(r).value) && Genuine(names, Normalize(r).value)
  {
    ServicesTidy(r.services);
    AddressesTidy(names, r.addresses);
    AddressesTidy(names, r.relays);
  }

  lemma {:induction false} ServicesTidy(services: seq<nat>)
    ensures
      var u := UniqueServices(services);
      0 !in u && |u| <= |services| && forall s | s in u :: s in services
  {
    UniqueSorts(services, []);
    var u := UniqueServices(services);
    assert forall s | s in u :: s in Elements(u);
  }

  lemma {:induction false} AddressesTidy(names: Names, addresses: Addresses)
    requires Spelled(names, Present(addresses))
    ensures
      var u := UniqueAddresses(addresses);
      u == Wrap(Present(u)) && |u| <= |addresses| && Spelled(names, Present(u))
  {
    UniqueSorts([], addresses);
    PresentOfWrap(Listing(Present(addresses), LexBelow));
    SameSpelling(names, Present(addresses), Present(UniqueAddresses(addresses)));
  }

  lemma {:induction false} SameSpelling(names: Names, xs: seq<Name>, ys: seq<Name>)
    requires Spelled(names, xs) && Elements(xs) == Elements(ys)
    ensures Spelled(names, ys)
  {
    forall y | y in ys ensures y in xs {
      assert y in Elements(ys);
    }
  }

  lemma {:induction false} FieldsTyped(names: Names, n: Record)
    requires Genuine(names, n) && Tidy(n)
    ensures
      var f := Indexed(Values(n));
      && Typed(f)
      && Record(f[0].n, f[1].bytes, f[2].n, f[3].n, f[4].n, n.services, [], [], f[8].n) ==
         n.(addresses := [], relays := [])
      && NumbersOf(f[5].items) == Some(n.services)
      && TextsOf(f[6].items) == Some(Present(n.addresses))
      && TextsOf(f[7].items) == Some(Present(n.relays))
  {
    NumbersSurvive(n.services);
    TextsSurvive(Present(n.addresses));
    TextsSurvive(Present(n.relays));
    NineFields(Values(n));
  }

  lemma NineFields(v: seq<Item>)
    requires |v| == 9
    ensures
      var f := Indexed(v);
      && f.Keys == {0, 1, 2, 3, 4, 5, 6, 7, 8}
      && f[0] == v[0] && f[1] == v[1] && f[2] == v[2] && f[3] == v[3] && f[4] == v[4]
      && f[5] == v[5] && f[6] == v[6] && f[7] == v[7] && f[8] == v[8]
  {
  }

  lemma {:induction false} AssembleGives(names: Names, n: Record)
    requires Genuine(names, n) && Tidy(n)
    ensures Assemble(names, n.(addresses := [], relays := []), Present(n.addresses), Present(n.relays)) == Ok(n)
  {
    var a, b := Present(n.addresses), Present(n.relays);
    assert ParseAddresses(names, a) == Some(Wrap(a)) by { AddressesSurvive(names, a); }
    assert ParseAddresses(names, b) == Some(Wrap(b)) by { AddressesSurvive(names, b); }
    assert PortsOk(n.services);
  }

  lemma {:induction false} FieldsGiveRecord(names: Names, n: Record)
    requires Genuine(names, n) && Tidy(n)
    ensures Typed(Indexed(Values(n)))
    ensures FromFields(names, Indexed(Values(n))) == Ok(n)
  {
    FieldsTyped(names, n);
    AssembleGives(names, n);
  }

  lemma {:induction false} NumbersSized(xs: seq<nat>)
    requires |xs| <= MAX_ARRAY && forall x | x in xs :: x < UINT64
    ensures Sized(Array(Numbers(xs)), 15)
  {
    forall i | i in Numbers(xs) ensures Sized(i, 14) {
      var k :| 0 <= k < |xs| && i == Numbers(xs)[k];
      assert xs[k] in xs;
    }
  }

  lemma {:induction false} TextsSized(xs: seq<Name>)
    requires |xs| <= MAX_ARRAY && forall x | x in xs :: |x| < UINT64
    ensures Sized(Array(Texts(xs)), 15)
  {
    forall i | i in Texts(xs) ensures Sized(i, 14) {
      var k :| 0 <= k < |xs| && i == Texts(xs)[k];
      assert xs[k] in xs;
    }
  }

  lemma {:induction false} RecordSized(names: Names, n: Record)
    requires Genuine(names, n) && Tidy(n)
    ensures Sized(Map(Keyed(Values(n))), MAX_DEPTH)
  {
    var v := Values(n);
    assert forall x | x in v :: Sized(x, 15) by {
      NumbersSized(n.services);
      AddressesSized(names, n.addresses);
      AddressesSized(names, n.relays);
      AllSized(v);
    }
    KeyedSized(v, 15);
  }

  lemma {:induction false} AddressesSized(names: Names, a: Addresses)
    requires |a| <= MAX_ADDRESSES && Spelled(names, Present(a))
    ensures Sized(Array(Texts(Present(a))), 15)
  {
    FilterShorter([], a);
    TextsSized(Present(a));
  }

  lemma {:induction false} AllSized(v: seq<Item>)
    requires |v| == 9 && Sized(v[5], 15) && Sized(v[6], 15) && Sized(v[7], 15)
    requires Sized(v[0], 15) && Sized(v[1], 15) && Sized(v[2], 15) && Sized(v[3], 15) && Sized(v[4], 15) &&
        Sized(v[8], 15)
    ensures forall x | x in v :: Sized(x, 15)
  {
    forall k | 0 <= k < 9 ensures Sized(v[k], 15) {
    }
  }

  /** Decoding an encoded record gives its normal form, exactly when some service is
      not zero; otherwise the encoding is refused. */
  lemma {:induction false} RoundTrip(names: Names, r: Record)
    requires Genuine(names, r) && EncodePayload(r).Ok?
    ensures DecodePayload(names, EncodePayload(r).value) ==
            if SomeService(r) then Normalize(r) else Err(BadServiceCount)
  {
    var n := Normalize(r).value;
    NormalIsTidy(names, r);
    NormalizeIdempotent(r);
    FieldsGiveRecord(names, n);
    PayloadParses(names, r);
    FieldsOfKeyed(Values(n));
  }

  lemma {:induction false} PayloadParses(names: Names, r: Record)
    requires Genuine(names, r) && EncodePayload(r).Ok?
    ensures Parse(EncodePayload(r).value, MAX_DEPTH) == Some((Map(Keyed(Values(Normalize(r).value))), []))
  {
    var n := Normalize(r).value;
    NormalIsTidy(names, r);
    RecordSized(names, n);
    var item := Map(Keyed(Values(n)));
    ParseInverts(item, MAX_DEPTH, []);
    assert Encode(item) + [] == Encode(item);
  }

  /** The entries of the map with the keys 0 to 8 in order: version, peer, sequence,
      times of issue and expiry, services, addresses, relays and capabilities. */
  predicate Describes(e: seq<Item>, n: Record)
  {
    && |e| == 18 && (forall k | 0 <= k < 9 :: e[2 * k] == UInt(k))
    && e[1] == UInt(n.version) && e[3] == Text(n.peer) && e[5] == UInt(n.sequence)
    && e[7] == UInt(n.issuedAt) && e[9] == UInt(n.expiresAt) && e[11] == Array(Numbers(n.services))
    && e[13] == Array(Texts(Present(n.addresses))) && e[15] == Array(Texts(Present(n.relays)))
    && e[17] == UInt(n.capabilities)
  }

  lemma {:induction false} KeyedDescribes(n: Record)
    ensures Describes(Keyed(Values(n)), n)
  {
    var e := Keyed(Values(n));
    forall k | 0 <= k < 9 ensures e[2 * k] == UInt(k) && e[2 * k + 1] == Values(n)[k] {
      KeyedAt(Values(n), k);
    }
    NineValues(e, Values(n));
  }

  /** Which key holds which field of the payload. */
  lemma {:induction false} PayloadFields(names: Names, r: Record)
    requires Genuine(names, r) && EncodePayload(r).Ok?
    ensures
      var parsed := Parse(EncodePayload(r).value, MAX_DEPTH);
      parsed.Some? && parsed.value.1 == [] && parsed.value.0.Map? &&
      Describes(parsed.value.0.entries, Normalize(r).value)
  {
    PayloadParses(names, r);
    KeyedDescribes(Normalize(r).value);
  }

  lemma {:induction false} KeyedAt(values: seq<Item>, k: nat)
    requires k < |values|
    ensures Keyed(values)[2 * k] == UInt(k) && Keyed(values)[2 * k + 1] == values[k]
    decreases |values|
  {
    if k < |values| - 1 { KeyedAt(values[..|values| - 1], k); }
  }

  lemma NineValues(entries: seq<Item>, values: seq<Item>)
    requires |values| == 9 && |entries| == 18 && forall k | 0 <= k < 9 :: entries[2 * k + 1] == values[k]
    ensures entries[1] == values[0] && entries[3] == values[1] && entries[5] == values[2] && entries[7] == values[3]
    ensures entries[9] == values[4] && entries[11] == values[5] && entries[13] == values[6]
    ensures entries[15] == values[7] && entries[17] == values[8]
  {
    assert entries[2 * 0 + 1] == values[0] && entries[2 * 1 + 1] == values[1] && entries[2 * 2 + 1] == values[2];
    assert entries[2 * 3 + 1] == values[3] && entries[2 * 4 + 1] == values[4] && entries[2 * 5 + 1] == values[5];
    assert entries[2 * 6 + 1] == values[6] && entries[2 * 7 + 1] == values[7] && entries[2 * 8 + 1] == values[8];
  }

  // ------------------------------------------------------------ the loops

  /** uniqueServices: the `seen` loop followed by the sort. */
  method CollectServices(values: seq<nat>) returns (result: seq<nat>)
    ensures result == UniqueServices(values)
  {
    var seen: set<nat> := {};
    var kept: seq<nat> := [];
    for i := 0 to |values|
      invariant seen == Elements(kept) == Elements(values[..i]) - {0}
    {
      var value := values[i];
      assert values[..i + 1] == values[..i] + [value];
      if value == 0 {
        continue;
      }
      if value !in seen {
        seen := seen + {value};
        kept := kept + [value];
      }
    }
    assert values[..|values|] == values;
    BelowIsTotal();
    NonZeroElements(values);
    ListingDetermined(kept, NonZero(values), Below);
    result := Listing(kept, Below);
  }

  /** uniqueAddresses: the keys of the `seen` map, taken in any order, then sorted. */
  method CollectAddresses(values: Addresses) returns (result: Addresses)
    ensures result == UniqueAddresses(values)
  {
    var seen: set<Name> := {};
    for i := 0 to |values|
      invariant seen == Elements(Present(values[..i]))
    {
      assert values[..i + 1][..i] == values[..i];
      if values[i].Some? {
        seen := seen + {values[i].value};
      }
    }
    assert values[..|values|] == values;
    var keys: seq<Name> := [];
    var left := seen;
    while left != {}
      invariant left + Elements(keys) == seen
    {
      var key :| key in left;
      keys := keys + [key];
      left := left - {key};
    }
    LexIsTotal();
    ListingDetermined(keys, Present(values), LexBelow);
    result := Wrap(Listing(keys, LexBelow));
  }
}
