/** The attachment point between one logical stream and its current transport
    (peerLink in nativewebrtc/endpoint.go).  Transports are named by number. */
module PeerLinks {
  import opened Bytes

  datatype Link = Link(peer: Option<nat>, closed: bool)

  function Attached(l: Link, p: nat): (r: (Link, bool))
  {
    if l.closed || l.peer.Some? then (l, false) else (l.(peer := Some(p)), true)
  }

  function Detached(l: Link, p: nat): (r: (Link, bool))
  {
    if l.peer != Some(p) then (l, false) else (l.(peer := None), true)
  }

  function ClosedLink(l: Link): (r: Link) { Link(None, true) }

  /** How one endpoint of a logical stream uses its transports: its forwarder reads
      from `source`, its link sends to `target`; `used` cannot be attached again. */
  datatype Port = Port(source: Option<nat>, target: Option<nat>, used: set<nat>)

  /** A transport not used before is attached, for reading and sending at once. */
  predicate Attaches(v: Port, w: Port)
  {
    && v.source.None? && v.target.None?
    && w.source.Some? && w.target == w.source
    && w.source.value !in v.used && w.source.value in w.used
  }

  /** The forwarder or the link may let go of its transport. */
  predicate Releases(v: Port, w: Port)
  {
    (w.source == v.source || w.source.None?) && (w.target == v.target || w.target.None?)
  }

  predicate Shifts(v: Port, w: Port)
  {
    v.used <= w.used && (Attaches(v, w) || Releases(v, w))
  }

  class PeerLink {
    var peer: Option<nat>
    var closed: bool

    function Now(): (l: Link)
      reads this
    {
      Link(peer, closed)
    }

    /** A closed link holds no transport. */
    predicate Valid()
      reads this
    {
      closed ==> peer.None?
    }

    constructor (p: nat)
      ensures Valid() && Now() == Link(Some(p), false)
    {
      peer, closed := Some(p), false;
    }

    /** The transport a frame is handed to; waits while detached. */
    method Send() returns (blocked: bool, target: Option<nat>)
      requires Valid()
      ensures blocked <==> peer.None? && !closed
      ensures !blocked ==> target == peer
    {
      if peer.None? && !closed {
        return true, None;
      }
      if closed {
        return false, None;
      }
      return false, peer;
    }

    method Attach(p: nat) returns (ok: bool)
      requires Valid()
      modifies this`peer
      ensures Valid() && (Now(), ok) == Attached(old(Now()), p)
      ensures ok <==> !closed && old(peer).None?
      ensures peer == if ok then Some(p) else old(peer)
    {
      if closed || peer.Some? {
        return false;
      }
      peer := Some(p);
      return true;
    }

    method Detach(p: nat) returns (ok: bool)
      requires Valid()
      modifies this`peer
      ensures Valid() && (Now(), ok) == Detached(old(Now()), p)
      ensures ok <==> old(peer) == Some(p)
      ensures peer == if ok then None else old(peer)
    {
      if peer != Some(p) {
        return false;
      }
      peer := None;
      return true;
    }

    /** Closing releases the transport once; a closed link never opens again. */
    method Close() returns (released: Option<nat>)
      requires Valid()
      modifies this
      ensures Valid() && Now() == ClosedLink(old(Now())) && closed && peer.None?
      ensures released == if old(closed) then None else old(peer)
    {
      if closed {
        return None;
      }
      closed := true;
      released := peer;
      peer := None;
    }
  }
}
