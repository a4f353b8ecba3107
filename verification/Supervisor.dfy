/** The resources of the multi-tunnel supervisor: running handles, logical-port
    locks, registered stream handlers and local listeners
    (internal/daemon/daemon.go, internal/daemon/server.go,
    internal/listenerlock/lock.go). */
module Supervisor {
  import opened Bytes
  import opened TunnelConfig

  /** Protocol identifiers; the two prefixes and the port number make them
      distinct. */
  datatype Proto = StreamProto(port: nat) | DatagramProto(port: nat)

  function ProtoFor(t: Tunnel): Proto
  {
    if t.kind.Forward? && t.protocol.Udp? then DatagramProto(t.logicalPort) else StreamProto(t.logicalPort)
  }

  /** `started` is the tunnel captured when the handle was made and `id` tells two
      handles apart; a client's listener carries the handle's id. */
  datatype Handle = Handle(id: nat, started: Tunnel, lock: Option<nat>, proto: Option<Proto>, closer: Option<nat>)

  type Handles = map<string, Handle>

  /** `paths` is the process-wide set of locked ports. */
  datatype Sys = Sys(handles: Handles, paths: set<nat>, handlers: map<Proto, nat>, listeners: set<nat>, next: nat)

  /** What the operating system, the file system and the network answer while a
      tunnel starts. */
  datatype Outcome = Fine | BadToken | NoLockDirectory | NoLockFile | HeldElsewhere | ListenFailed

  datatype StartError =
    | TokenError | PortZero | LockIoError | InUse(port: nat) | OtherProcess(port: nat) | NotForward | ListenError

  datatype Start = Started(sys: Sys, handle: Handle) | NotStarted(error: StartError)

  function ServerHandle(id: nat, t: Tunnel): Handle { Handle(id, t, Some(t.logicalPort), Some(ProtoFor(t)), None) }
  function ClientHandle(id: nat, t: Tunnel): Handle { Handle(id, t, None, None, Some(id)) }

  /** Why a tunnel does not start while the ports of `taken` are locked. */
  function Refusal(t: Tunnel, outcome: Outcome, taken: set<nat>): (r: Option<StartError>)
  {
    if outcome.BadToken? then Some(TokenError)
    else if t.mode.Server? then
      if t.logicalPort == 0 then Some(PortZero)
      else if outcome.NoLockDirectory? then Some(LockIoError)
      else if t.logicalPort in taken then Some(InUse(t.logicalPort))
      else if outcome.NoLockFile? then Some(LockIoError)
      else if outcome.HeldElsewhere? then Some(OtherProcess(t.logicalPort))
      else None
    else if !t.kind.Forward? then Some(NotForward)
    else if outcome.ListenFailed? then Some(ListenError)
    else None
  }

  function StartTunnel(s: Sys, t: Tunnel, outcome: Outcome): (r: Start)
  {
    var refusal := Refusal(t, outcome, s.paths);
    if refusal.Some? then NotStarted(refusal.value)
    else if t.mode.Server? then
      var handlers := s.handlers[ProtoFor(t) := s.next];
      Started(s.(paths := s.paths + {t.logicalPort}, handlers := handlers, next := s.next + 1), ServerHandle(s.next, t))
    else Started(s.(listeners := s.listeners + {s.next}, next := s.next + 1), ClientHandle(s.next, t))
  }

  /** What the surroundings must grant before a tunnel can start. */
  predicate Startable(t: Tunnel, outcome: Outcome)
  {
    && !outcome.BadToken?
    && (if t.mode.Server? then t.logicalPort != 0 && (outcome.Fine? || outcome.ListenFailed?)
        else t.kind.Forward? && !outcome.ListenFailed?)
  }

  /** It is granted, and a server's port is free. */
  predicate Granted(t: Tunnel, outcome: Outcome, taken: set<nat>)
  {
    Startable(t, outcome) && (t.mode.Server? ==> t.logicalPort !in taken)
  }

  /** A tunnel is refused exactly if it is not granted, and every error has its own
      cause: the first obstacle in the order token, port, lock, listener. */
  lemma {:induction false} RefusalExact(t: Tunnel, outcome: Outcome, taken: set<nat>)
    ensures Refusal(t, outcome, taken).None? <==> Granted(t, outcome, taken)
    ensures Refusal(t, outcome, taken) == Some(TokenError) <==> outcome.BadToken?
    ensures t.mode.Server? && !outcome.BadToken? ==>
              && (Refusal(t, outcome, taken) == Some(PortZero) <==> t.logicalPort == 0)
              && (Refusal(t, outcome, taken) == Some(InUse(t.logicalPort)) <==>
                    t.logicalPort != 0 && !outcome.NoLockDirectory? && t.logicalPort in taken)
              && (Refusal(t, outcome, taken) == Some(OtherProcess(t.logicalPort)) <==>
                    t.logicalPort != 0 && t.logicalPort !in taken && outcome.HeldElsewhere?)
              && (Refusal(t, outcome, taken) == Some(LockIoError) <==>
                    t.logicalPort != 0 &&
                    (outcome.NoLockDirectory? || (outcome.NoLockFile? && t.logicalPort !in taken)))
    ensures !t.mode.Server? && !outcome.BadToken? ==>
              && (Refusal(t, outcome, taken) == Some(NotForward) <==> !t.kind.Forward?)
              && (Refusal(t, outcome, taken) == Some(ListenError) <==> t.kind.Forward? && outcome.ListenFailed?)
  {
  }

  /** A UDP forward is served under the datagram protocol of its port, every other
      tunnel under the stream protocol. */
  lemma {:induction false} ProtocolOf(t: Tunnel)
    ensures ProtoFor(t) == DatagramProto(t.logicalPort) <==> t.kind == Forward && t.protocol == Udp
    ensures ProtoFor(t) == StreamProto(t.logicalPort) <==> t.kind != Forward || t.protocol != Udp
  {
  }

  /** A started tunnel entered under its name, replacing what was there. */
  function Install(st: Start, name: string): (r: Sys)
    requires st.Started?
  {
    st.sys.(handles := st.sys.handles[name := st.handle])
  }

  function Stop(s: Sys, name: string): (r: Sys)
  {
    if name !in s.handles then s
    else
      var h := s.handles[name];
      s.(handles := s.handles - {name},
         handlers := if h.proto.Some? then s.handlers - {h.proto.value} else s.handlers,
         listeners := if h.closer.Some? then s.listeners - {h.closer.value} else s.listeners,
         paths := if h.lock.Some? then s.paths - {h.lock.value} else s.paths)
  }

  // ------------------------------------------------------------- agreement

  function LockOf(h: Handle): Option<nat> { h.lock }
  function ProtoOf(h: Handle): Option<Proto> { h.proto }
  function CloserOf(h: Handle): Option<nat> { h.closer }

  /** The resources of one sort that some handle owns. */
  function Owned<T>(hs: Handles, of: Handle -> Option<T>): (r: set<T>)
  {
    set n | n in hs && of(hs[n]).Some? :: of(hs[n]).value
  }

  function Just<T>(x: Option<T>): (r: set<T>) { if x.Some? then {x.value} else {} }

  lemma {:induction false} OwnedAdd<T>(hs: Handles, name: string, h: Handle, of: Handle -> Option<T>)
    requires name !in hs
    ensures Owned(hs[name := h], of) == Owned(hs, of) + Just(of(h))
  {
    var hs' := hs[name := h];
    forall x | x in Owned(hs, of) + Just(of(h)) ensures x in Owned(hs', of) {
      if x in Owned(hs, of) {
        var n :| n in hs && of(hs[n]) == Some(x);
        assert hs'[n] == hs[n];
      } else {
        assert hs'[name] == h;
      }
    }
  }

  lemma {:induction false} OwnedRemove<T>(hs: Handles, name: string, of: Handle -> Option<T>)
    requires name in hs
    requires forall n | n in hs && n != name :: of(hs[name]).Some? ==> of(hs[n]) != of(hs[name])
    ensures Owned(hs - {name}, of) == Owned(hs, of) - Just(of(hs[name]))
  {
    var hs' := hs - {name};
    forall x | x in Owned(hs, of) - Just(of(hs[name])) ensures x in Owned(hs', of) {
      var n :| n in hs && of(hs[n]) == Some(x);
      assert hs'[n] == hs[n];
    }
  }

  predicate Shaped(h: Handle)
  {
    h == if h.started.mode.Server? then ServerHandle(h.id, h.started) else ClientHandle(h.id, h.started)
  }

  predicate Apart(h: Handle, g: Handle)
  {
    (h.lock.Some? ==> g.lock != h.lock) && h.id != g.id
  }

  /** A handle holds what it claims; `foreign` are ports locked by others. */
  predicate Holds(s: Sys, h: Handle, foreign: set<nat>)
  {
    && Shaped(h) && h.id < s.next
    && (h.lock.Some? ==> h.lock.value in s.paths && h.lock.value !in foreign)
    && (h.proto.Some? ==> h.proto.value in s.handlers && s.handlers[h.proto.value] == h.id)
    && (h.closer.Some? ==> h.closer.value in s.listeners)
  }

  predicate AllApart(hs: Handles)
  {
    forall n, m | n in hs && m in hs && n != m :: Apart(hs[n], hs[m])
  }

  predicate Held(s: Sys, foreign: set<nat>)
  {
    && (forall n | n in s.handles :: Holds(s, s.handles[n], foreign))
    && AllApart(s.handles)
    && (forall l | l in s.listeners :: l < s.next)
    && foreign <= s.paths
  }

  /** Nothing is held that no handle owns. */
  predicate NoLeak(s: Sys, foreign: set<nat>)
  {
    && s.paths == foreign + Owned(s.handles, LockOf)
    && s.handlers.Keys == Owned(s.handles, ProtoOf)
    && s.listeners == Owned(s.handles, CloserOf)
  }

  predicate Sound(s: Sys, foreign: set<nat>) { Held(s, foreign) && NoLeak(s, foreign) }

  type Named = map<string, Tunnel>

  predicate Runs(hs: Handles, tunnels: Named)
  {
    hs.Keys == tunnels.Keys && forall n | n in hs :: hs[n].started == tunnels[n]
  }

  /** Handles, locks, handlers and listeners are exactly those of `tunnels`. */
  predicate Matches(s: Sys, tunnels: Named, foreign: set<nat>)
  {
    Sound(s, foreign) && Runs(s.handles, tunnels)
  }

  lemma {:induction false} StopHeld(s: Sys, name: string, foreign: set<nat>)
    requires Held(s, foreign)
    ensures Held(Stop(s, name), foreign)
  {
  }

  lemma {:induction false} ApartResources(s: Sys, name: string, n: string, foreign: set<nat>)
    requires Held(s, foreign) && name in s.handles && n in s.handles && n != name
    ensures s.handles[name].lock.Some? ==> s.handles[n].lock != s.handles[name].lock
    ensures s.handles[name].proto.Some? ==> s.handles[n].proto != s.handles[name].proto
    ensures s.handles[name].closer.Some? ==> s.handles[n].closer != s.handles[name].closer
  {
    assert Apart(s.handles[name], s.handles[n]);
    assert Holds(s, s.handles[name], foreign) && Holds(s, s.handles[n], foreign);
  }

  lemma {:induction false} StopNoLeak(s: Sys, name: string, foreign: set<nat>)
    requires Sound(s, foreign)
    ensures NoLeak(Stop(s, name), foreign)
  {
    if name in s.handles {
      forall n | n in s.handles && n != name
        ensures LockOf(s.handles[name]).Some? ==> LockOf(s.handles[n]) != LockOf(s.handles[name])
        ensures ProtoOf(s.handles[name]).Some? ==> ProtoOf(s.handles[n]) != ProtoOf(s.handles[name])
        ensures CloserOf(s.handles[name]).Some? ==> CloserOf(s.handles[n]) != CloserOf(s.handles[name])
      {
        ApartResources(s, name, n, foreign);
      }
      OwnedRemove(s.handles, name, LockOf);
      OwnedRemove(s.handles, name, ProtoOf);
      OwnedRemove(s.handles, name, CloserOf);
      assert Holds(s, s.handles[name], foreign);
    }
  }

  lemma {:induction false} StopKeeps(s: Sys, name: string, foreign: set<nat>)
    requires Held(s, foreign)
    ensures Held(Stop(s, name), foreign)
    ensures Sound(s, foreign) ==> Sound(Stop(s, name), foreign)
  {
    StopHeld(s, name, foreign);
    if Sound(s, foreign) { StopNoLeak(s, name, foreign); }
  }

  lemma {:induction false} InstallHeld(s: Sys, t: Tunnel, outcome: Outcome, name: string, foreign: set<nat>)
    requires Held(s, foreign) && StartTunnel(s, t, outcome).Started?
    ensures Held(Install(StartTunnel(s, t, outcome), name), foreign)
  {
    var r := Install(StartTunnel(s, t, outcome), name);
    var h := r.handles[name];
    assert Holds(r, h, foreign);
    forall n | n in s.handles && n != name
      ensures Holds(r, s.handles[n], foreign) && Apart(s.handles[n], h) && Apart(h, s.handles[n])
    {
      assert Holds(s, s.handles[n], foreign);
    }
  }

  lemma {:induction false} InstallNoLeak(s: Sys, t: Tunnel, outcome: Outcome, name: string, foreign: set<nat>)
    requires Sound(s, foreign) && name !in s.handles && StartTunnel(s, t, outcome).Started?
    ensures NoLeak(Install(StartTunnel(s, t, outcome), name), foreign)
  {
    var h := StartTunnel(s, t, outcome).handle;
    OwnedAdd(s.handles, name, h, LockOf);
    OwnedAdd(s.handles, name, h, ProtoOf);
    OwnedAdd(s.handles, name, h, CloserOf);
  }
}
