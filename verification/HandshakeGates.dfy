/** Admission of concurrent handshakes (beginHandshake and endHandshake in
    nativewebrtc/endpoint.go). */
module HandshakeGates {

  const MAX_HANDSHAKES := 32
  const MAX_HANDSHAKES_PEER := 2

  predicate AlphaNumeric(c: char)
  {
    '0' <= c <= '9' || 'A' <= c <= 'Z' || 'a' <= c <= 'z'
  }

  predicate ClientId(remote: string)
  {
    |remote| == 20 && forall c | c in remote :: AlphaNumeric(c)
  }

  ghost function Total(m: map<string, int>): (r: int)
    decreases |m.Keys|
  {
    if m.Keys == {} then 0
    else
      var k :| k in m.Keys;
      assert (m - {k}).Keys == m.Keys - {k};
      m[k] + Total(m - {k})
  }

  /** `counts` is the tally of `running`. */
  predicate Tallies(counts: map<string, int>, running: multiset<string>)
  {
    && (forall r | r in running :: r in counts)
    && (forall r | r in counts :: counts[r] == running[r] && running[r] > 0)
  }

  lemma {:induction false} TallyTotal(counts: map<string, int>, running: multiset<string>)
    requires Tallies(counts, running)
    ensures Total(counts) == |running|
    decreases |counts.Keys|
  {
    if counts.Keys == {} {
      assert running == multiset{};
    } else {
      var k :| k in counts.Keys && Total(counts) == counts[k] + Total(counts - {k});
      assert (counts - {k}).Keys == counts.Keys - {k};
      var rest := running[k := 0];
      TallyTotal(counts - {k}, rest);
      assert |running| == |rest| + running[k];
    }
  }

  /** `running` is the handshakes between their begin and their end. */
  class HandshakeGate {
    var handshakes: int
    var peerHandshakes: map<string, int>
    ghost var running: multiset<string>

    /** The two counters agree with the running handshakes and with each other, and
        stay within both limits. */
    ghost predicate Valid()
      reads this
    {
      && Tallies(peerHandshakes, running)
      && handshakes == |running| == Total(peerHandshakes)
      && handshakes <= MAX_HANDSHAKES
      && (forall r | r in peerHandshakes :: 1 <= peerHandshakes[r] <= MAX_HANDSHAKES_PEER)
    }

    constructor ()
      ensures Valid() && running == multiset{}
    {
      handshakes, peerHandshakes, running := 0, map[], multiset{};
    }

    method Begin(remote: string) returns (admitted: bool)
      requires Valid()
      modifies this
      ensures Valid()
      ensures admitted <==> ClientId(remote) && |old(running)| < 32 && old(running)[remote] < 2
      ensures running == if admitted then old(running) + multiset{remote} else old(running)
    {
      if !ClientId(remote) {
        return false;
      }
      var current := if remote in peerHandshakes then peerHandshakes[remote] else 0;
      if handshakes >= MAX_HANDSHAKES || current >= MAX_HANDSHAKES_PEER {
        return false;
      }
      handshakes := handshakes + 1;
      peerHandshakes := peerHandshakes[remote := current + 1];
      running := running + multiset{remote};
      TallyTotal(peerHandshakes, running);
      return true;
    }

    /** Called once for every admitted handshake. */
    method End(remote: string)
      requires Valid() && remote in running
      modifies this
      ensures Valid()
      ensures running == old(running) - multiset{remote}
    {
      handshakes := handshakes - 1;
      peerHandshakes := peerHandshakes[remote := peerHandshakes[remote] - 1];
      if peerHandshakes[remote] == 0 {
        peerHandshakes := peerHandshakes - {remote};
      }
      running := running - multiset{remote};
      TallyTotal(peerHandshakes, running);
    }
  }
}
