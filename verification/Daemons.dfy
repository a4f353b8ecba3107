/** The multi-tunnel supervisor (internal/daemon/daemon.go).

    `world` answers for everything outside the process while a tunnel starts; the
    loops that Go runs over maps pick their elements in any order. */
module Daemons {
  import opened Bytes
  import opened TunnelConfig
  import opened Supervisor
  import opened Reloading
  import opened ListenerLock

  datatype DaemonError = Invalid(reason: ConfigError) | StartFailed(name: string, error: StartError)

  /** The stream handlers of the p2p node and the local listeners opened beside it. */
  class NodeHost {
    var handlers: map<Proto, nat>
    var listeners: set<nat>
    var next: nat

    constructor ()
      ensures handlers == map[] && listeners == {}
    {
      handlers, listeners, next := map[], {}, 0;
    }
  }

  class Daemon {
    const locks: PortLocks
    const node: NodeHost
    var cfg: Config
    var handles: Handles

    function Now(): (s: Sys)
      reads this, locks, node
    {
      Sys(handles, locks.paths, node.handlers, node.listeners, node.next)
    }

    /** Every resource is exactly what the recorded configuration asks for. */
    predicate InSync(foreign: set<nat>)
      reads this, locks, node
    {
      Matches(Now(), ByName(cfg.tunnels), foreign)
    }

    constructor (locks: PortLocks, node: NodeHost, cfg: Config)
      ensures this.locks == locks && this.node == node && this.cfg == cfg && handles == map[]
    {
      this.locks, this.node, this.cfg, handles := locks, node, cfg, map[];
    }

    method StartOne(name: string, t: Tunnel, outcome: Outcome) returns (err: Option<StartError>)
      modifies this, locks, node
      ensures cfg == old(cfg)
      ensures var st := StartTunnel(old(Now()), t, outcome);
              if st.Started? then err.None? && Now() == Install(st, name)
              else err == Some(st.error) && Now() == old(Now())
    {
      if outcome.BadToken? {
        return Some(TokenError);
      }
      if t.mode.Server? {
        err := locks.Acquire(t.logicalPort, outcome);
        if err.Some? {
          return;
        }
        node.handlers := node.handlers[ProtoFor(t) := node.next];
        handles := handles[name := ServerHandle(node.next, t)];
      } else {
        if !t.kind.Forward? {
          return Some(NotForward);
        }
        if outcome.ListenFailed? {
          return Some(ListenError);
        }
        node.listeners := node.listeners + {node.next};
        handles := handles[name := ClientHandle(node.next, t)];
      }
      node.next := node.next + 1;
      return None;
    }

    /** One round of the loop in Run. */
    method StartListed(ghost text: Text, ts: seq<Tunnel>, i: nat, outcome: Outcome, ghost foreign: set<nat>)
      returns (err: Option<StartError>)
      requires i < |ts| && TunnelsOk(text, ts) && Matches(Now(), ByName(ts[..i]), foreign)
      modifies this, locks, node
      ensures cfg == old(cfg)
      ensures err == Refusal(ts[i], outcome, foreign)
      ensures err.None? ==> Matches(Now(), ByName(ts[..i + 1]), foreign)
      ensures err.Some? ==> Now() == old(Now())
    {
      RunNext(text, Now(), ts, i, foreign, outcome);
      err := StartOne(ts[i].name, ts[i], outcome);
    }

    method StopOne(name: string)
      modifies this, locks, node
      ensures cfg == old(cfg) && Now() == Stop(old(Now()), name)
    {
      if name !in handles {
        return;
      }
      var handle := handles[name];
      handles := handles - {name};
      if handle.proto.Some? {
        node.handlers := node.handlers - {handle.proto.value};
      }
      if handle.closer.Some? {
        node.listeners := node.listeners - {handle.closer.value};
      }
      if handle.lock.Some? {
        locks.Release(handle.lock.value);
      }
    }

    /** The first loop of Reload. */
    method StopChanged(o: Named, n: Named, ghost foreign: set<nat>)
      requires Held(Now(), foreign)
      modifies this, locks, node
      ensures cfg == old(cfg) && Held(Now(), foreign)
      ensures old(Sound(Now(), foreign)) ==> Sound(Now(), foreign)
      ensures handles == Spared(old(handles), o, n)
      ensures o == n ==> Now() == old(Now())
    {
      ghost var was := Now();
      var left := o.Keys;
      assert Gone(o, n, left) == {};
      while left != {}
        invariant cfg == old(cfg) && left <= o.Keys && Held(Now(), foreign)
        invariant Sound(was, foreign) ==> Sound(Now(), foreign)
        invariant handles == was.handles - Gone(o, n, left)
        invariant o == n ==> Now() == was
      {
        var name :| name in left;
        GoneStep(was.handles, o, n, left, name);
        if name !in n || n[name] != o[name] {
          StopKeeps(Now(), name, foreign);
          StopOne(name);
        }
        left := left - {name};
      }
    }

    /** One round of the second loop for a tunnel that has to start. */
    method StartNext(name: string, ghost was: Sys, ghost left: set<string>, ghost o: Named, n: Named, outcome: Outcome,
                     ghost foreign: set<nat>)
      returns (err: Option<StartError>)
      requires UniquePorts(n) && name in left && name in n && !Unchanged(o, n, name)
      requires Tracks(was, Now(), left, o, n, foreign)
      modifies this, locks, node
      ensures cfg == old(cfg)
      ensures err.Some? ==> Now() == old(Now())
      ensures old(OnCourse(Now(), left, o, n, foreign)) ==> err == Refusal(n[name], outcome, foreign)
      ensures err.Some? && OnCourse(Now(), left, o, n, foreign) ==> name !in handles
      ensures err.None? ==> Tracks(was, Now(), left - {name}, o, n, foreign) && Startable(n[name], outcome)
      ensures err.None? <==> Granted(n[name], outcome, old(locks.paths))
      ensures old(OnCourse(Now(), left, o, n, foreign)) ==> (err.None? <==> Granted(n[name], outcome, foreign))
    {
      TracksStart(was, Now(), left, o, n, foreign, name, outcome);
      RefusalExact(n[name], outcome, locks.paths);
      RefusalExact(n[name], outcome, foreign);
      err := StartOne(name, n[name], outcome);
    }

    /** The second loop of Reload. */
    method StartChanged(o: Named, n: Named, world: Tunnel -> Outcome, ghost foreign: set<nat>)
      returns (err: Option<DaemonError>)
      requires Held(Now(), foreign) && UniquePorts(n)
      modifies this, locks, node
      ensures cfg == old(cfg) && Held(Now(), foreign)
      ensures forall name | name in old(handles) && Unchanged(o, n, name) ::
                name in handles && handles[name] == old(handles[name])
      ensures old(OnCourse(Now(), n.Keys, o, n, foreign)) ==>
                && Sound(Now(), foreign)
                && (forall name | name in handles :: name in n && handles[name].started == n[name])
                && (err.None? ==> Runs(handles, n))
                && (err.None? <==> AllGranted(o, n, world, foreign))
                && (err.Some? ==> Fails(err.value, o, n, world, foreign) && err.value.name !in handles)
      ensures err.None? && old(Broken(Now(), n.Keys, o, n, foreign)) ==> !Matches(Now(), n, foreign)
      ensures err.None? ==> forall name | name in n && !Unchanged(o, n, name) :: Startable(n[name], world(n[name]))
      ensures err.Some? ==> err.value.StartFailed? && err.value.name in n
      ensures o == n ==> err.None? && Now() == old(Now())
    {
      ghost var was := Now();
      TracksAll(was, o, n, foreign);
      var left := n.Keys;
      while left != {}
        invariant cfg == old(cfg) && left <= n.Keys
        invariant Tracks(was, Now(), left, o, n, foreign)
        invariant Progress(was, left, o, n, world, foreign)
        invariant o == n ==> Now() == was
      {
        var name :| name in left;
        if name in o && o[name] == n[name] {
          TracksSkip(was, Now(), left, o, n, foreign, name);
        } else {
          var failure := StartNext(name, was, left, o, n, world(n[name]), foreign);
          if failure.Some? {
            return Some(StartFailed(name, failure.value));
          }
        }
        ProgressStep(was, left, o, n, world, foreign, name);
        left := left - {name};
      }
      TracksEnds(was, Now(), o, n, foreign);
      return None;
    }

    /** Both loops, from the tunnels `o` to the tunnels `n`. */
    method Transition(o: Named, n: Named, world: Tunnel -> Outcome, ghost foreign: set<nat>)
      returns (err: Option<DaemonError>)
      requires Held(Now(), foreign) && UniquePorts(n)
      modifies this, locks, node
      ensures cfg == old(cfg) && Held(Now(), foreign)
      ensures err.Some? ==> err.value.StartFailed?
      ensures forall name | name in old(handles) && Unchanged(o, n, name) ::
                name in handles && handles[name] == old(handles[name])
      ensures err.None? && !old(Ready(handles, o, n)) ==> !Matches(Now(), n, foreign)
      ensures old(Sound(Now(), foreign) && Ready(handles, o, n)) ==>
                && Sound(Now(), foreign)
                && (forall name | name in handles :: name in n && handles[name].started == n[name])
                && (err.None? ==> Runs(handles, n))
                && (err.None? <==> AllGranted(o, n, world, foreign))
                && (err.Some? ==> Fails(err.value, o, n, world, foreign) && err.value.name !in handles)
      ensures err.None? ==> forall name | name in n && !Unchanged(o, n, name) :: Startable(n[name], world(n[name]))
      ensures o == n ==> err.None? && Now() == old(Now())
    {
      ghost var hs := handles;
      StopChanged(o, n, foreign);
      if Ready(hs, o, n) {
        ReadyIsPartial(hs, o, n);
      } else {
        UnreadyIsBroken(Now(), hs, o, n, foreign);
      }
      err := StartChanged(o, n, world, foreign);
    }

    /** Reload.  From any sound state, success means agreement with the new
        configuration exactly when the state was ready for it; from agreement it
        always is, it succeeds exactly if every new or changed tunnel is granted its
        start, a failure leaves a sound part of the new configuration running
        without the tunnel that failed, and no start fails on a port this daemon
        itself holds.  Reloading the recorded tunnels succeeds and changes nothing. */
    method Reload(text: Text, newCfg: Config, world: Tunnel -> Outcome, ghost foreign: set<nat>)
      returns (err: Option<DaemonError>)
      requires Held(Now(), foreign)
      modifies this, locks, node
      ensures Held(Now(), foreign)
      ensures !ConfigOk(text, newCfg) <==> err.Some? && err.value.Invalid?
      ensures err.Some? ==> cfg == old(cfg)
      ensures err.Some? && err.value.Invalid? ==> Now() == old(Now())
      ensures err.None? ==> cfg == newCfg
      ensures err.None? && old(Sound(Now(), foreign)) ==>
                (InSync(foreign) <==> old(Ready(handles, ByName(cfg.tunnels), ByName(newCfg.tunnels))))
      ensures old(InSync(foreign)) ==>
                && (err.None? ==> InSync(foreign))
                && Sound(Now(), foreign)
                && (ConfigOk(text, newCfg) ==>
                      (err.None? <==>
                         AllGranted(old(ByName(cfg.tunnels)), ByName(newCfg.tunnels), world, foreign)))
                && (err.Some? && err.value.StartFailed? ==>
                      && Fails(err.value, old(ByName(cfg.tunnels)), ByName(newCfg.tunnels), world, foreign)
                      && err.value.name !in handles
                      && forall name | name in handles ::
                           name in ByName(newCfg.tunnels) && handles[name].started == ByName(newCfg.tunnels)[name])
      ensures forall name | name in old(handles) && Unchanged(old(ByName(cfg.tunnels)), ByName(newCfg.tunnels), name) ::
                name in handles && handles[name] == old(handles[name])
      ensures err.None? ==>
                forall name | name in ByName(newCfg.tunnels) &&
                              !Unchanged(old(ByName(cfg.tunnels)), ByName(newCfg.tunnels), name) ::
                  Startable(ByName(newCfg.tunnels)[name], world(ByName(newCfg.tunnels)[name]))
      ensures ConfigOk(text, newCfg) && old(ByName(cfg.tunnels)) == ByName(newCfg.tunnels) ==>
                err.None? && Now() == old(Now())
    {
      var invalid := Validate(text, newCfg);
      if invalid.Some? {
        return Some(Invalid(invalid.value));
      }
      var o, n := ByName(cfg.tunnels), ByName(newCfg.tunnels);
      ByNameUnique(text, newCfg.tunnels);
      if Runs(handles, o) { AgreementIsReady(handles, o, n); }
      err := Transition(o, n, world, foreign);
      if err.Some? {
        return;
      }
      cfg := newCfg;
    }

    /** Close stops every tunnel; from a sound state nothing of the daemon is left. */
    method Close(ghost foreign: set<nat>)
      requires Sound(Now(), foreign)
      modifies this, locks, node
      ensures handles == map[] && node.handlers == map[] && node.listeners == {} && locks.paths == foreign
    {
      var names := handles.Keys;
      while names != {}
        invariant names == handles.Keys && Sound(Now(), foreign)
      {
        var name :| name in names;
        StopKeeps(Now(), name, foreign);
        StopOne(name);
        names := names - {name};
      }
      assert handles.Keys == {};
      assert node.handlers.Keys == {};
    }
  }

  /** Run starts the whole configuration on a new node or leaves nothing of it: no
      port lock, no stream handler and no local listener. */
  method Run(text: Text, cfg: Config, world: Tunnel -> Outcome, locks: PortLocks, node: NodeHost)
    returns (d: Daemon?, err: Option<DaemonError>)
    requires node.handlers == map[] && node.listeners == {}
    modifies locks, node
    ensures err.None? <==> d != null
    ensures d != null ==> fresh(d) && d.locks == locks && d.node == node && d.cfg == cfg && ConfigOk(text, cfg)
    ensures d != null ==> d.InSync(old(locks.paths))
    ensures d == null ==> locks.paths == old(locks.paths) && node.handlers == map[] && node.listeners == {}
    ensures err.None? <==>
              ConfigOk(text, cfg) && forall t | t in cfg.tunnels :: Granted(t, world(t), old(locks.paths))
    ensures ConfigOk(text, cfg) && err.Some? ==>
              exists i :: FirstRefused(cfg.tunnels, i, world, old(locks.paths), err.value)
    ensures ConfigOk(text, cfg) ==>
              (forall t | t in cfg.tunnels ::
                 world(t).Fine? && (t.mode.Server? ==> t.logicalPort !in old(locks.paths))) ==> err.None?
  {
    var invalid := Validate(text, cfg);
    if invalid.Some? {
      return null, Some(Invalid(invalid.value));
    }
    ghost var foreign := locks.paths;
    var daemon := new Daemon(locks, node, cfg);
    for i := 0 to |cfg.tunnels|
      invariant fresh(daemon) && daemon.locks == locks && daemon.node == node && daemon.cfg == cfg
      invariant Matches(daemon.Now(), ByName(cfg.tunnels[..i]), foreign)
      invariant forall j | 0 <= j < i :: Granted(cfg.tunnels[j], world(cfg.tunnels[j]), foreign)
    {
      var t := cfg.tunnels[i];
      RefusalExact(t, world(t), foreign);
      var failure := daemon.StartListed(text, cfg.tunnels, i, world(t), foreign);
      if failure.Some? {
        assert FirstRefused(cfg.tunnels, i, world, foreign, StartFailed(t.name, failure.value));
        daemon.Close(foreign);
        return null, Some(StartFailed(t.name, failure.value));
      }
    }
    assert cfg.tunnels[..|cfg.tunnels|] == cfg.tunnels;
    return daemon, None;
  }

  const OLD_TUNNEL := Tunnel("a", Forward, Client, 1, Tcp, "", ":1", "p", "", "", false)
  const NEW_TUNNEL := OLD_TUNNEL.(listen := ":2")
  const OLD_CONFIG := Config([], "", [OLD_TUNNEL])
  const NEW_CONFIG := Config([], "", [NEW_TUNNEL])

  /** A concrete loss.  One client tunnel runs; a Reload that changes it stops it and
      cannot start the replacement; reloading the recorded configuration then
      returns success, and the tunnel does not run. */
  method RetryLosesTunnel(text: Text, d: Daemon, ghost foreign: set<nat>)
    returns (first: Option<DaemonError>, second: Option<DaemonError>)
    requires ConfigOk(text, OLD_CONFIG) && ConfigOk(text, NEW_CONFIG)
    requires d.cfg == OLD_CONFIG && d.InSync(foreign)
    modifies d, d.locks, d.node
    ensures first.Some? && first.value.StartFailed? && first.value.name == "a"
    ensures second.None? && d.cfg == OLD_CONFIG
    ensures "a" in ByName(d.cfg.tunnels) && "a" !in d.handles
  {
    OneByName(OLD_TUNNEL);
    OneByName(NEW_TUNNEL);
    first := FailedReload(text, d, foreign);
    second := d.Reload(text, OLD_CONFIG, _ => Fine, foreign);
  }

  method FailedReload(text: Text, d: Daemon, ghost foreign: set<nat>) returns (err: Option<DaemonError>)
    requires ConfigOk(text, NEW_CONFIG) && d.cfg == OLD_CONFIG && d.InSync(foreign)
    modifies d, d.locks, d.node
    ensures err.Some? && err.value.StartFailed? && err.value.name == "a"
    ensures d.cfg == OLD_CONFIG && Held(d.Now(), foreign) && "a" !in d.handles
  {
    OneByName(OLD_TUNNEL);
    OneByName(NEW_TUNNEL);
    assert !Unchanged(ByName(OLD_CONFIG.tunnels), ByName(NEW_CONFIG.tunnels), "a");
    err := d.Reload(text, NEW_CONFIG, _ => ListenFailed, foreign);
  }

  lemma {:induction false} OneByName(t: Tunnel)
    ensures ByName([t]) == map[t.name := t]
  {
    assert [t][..0] == [];
  }

  // --------------------------------------------------------------- helpers

  /** Every new or changed tunnel is granted its start. */
  predicate AllGranted(o: Named, n: Named, world: Tunnel -> Outcome, foreign: set<nat>)
  {
    forall name | name in n && !Unchanged(o, n, name) :: Granted(n[name], world(n[name]), foreign)
  }

  /** The error is that of a new or changed tunnel that is not granted its start. */
  predicate Fails(err: DaemonError, o: Named, n: Named, world: Tunnel -> Outcome, foreign: set<nat>)
  {
    && err.StartFailed? && err.name in n && !Unchanged(o, n, err.name)
    && !Granted(n[err.name], world(n[err.name]), foreign)
    && Refusal(n[err.name], world(n[err.name]), foreign) == Some(err.error)
  }

  /** What the start loop has learnt of the tunnels it has visited. */
  ghost predicate Progress(was: Sys, left: set<string>, o: Named, n: Named, world: Tunnel -> Outcome, foreign: set<nat>)
  {
    forall name | name in n && name !in left && !Unchanged(o, n, name) ::
      && Startable(n[name], world(n[name]))
      && (OnCourse(was, n.Keys, o, n, foreign) ==> Granted(n[name], world(n[name]), foreign))
  }

  lemma ProgressStep(was: Sys, left: set<string>, o: Named, n: Named, world: Tunnel -> Outcome, foreign: set<nat>,
      name: string)
    requires Progress(was, left, o, n, world, foreign) && name in n
    requires !Unchanged(o, n, name) ==>
               && Startable(n[name], world(n[name]))
               && (OnCourse(was, n.Keys, o, n, foreign) ==> Granted(n[name], world(n[name]), foreign))
    ensures Progress(was, left - {name}, o, n, world, foreign)
  {
  }

  /** The i-th tunnel is the first that is not granted its start, and `err` says why. */
  predicate FirstRefused(ts: seq<Tunnel>, i: int, world: Tunnel -> Outcome, taken: set<nat>, err: DaemonError)
  {
    && 0 <= i < |ts| && !Granted(ts[i], world(ts[i]), taken)
    && (forall j | 0 <= j < i :: Granted(ts[j], world(ts[j]), taken))
    && err.StartFailed? && err.name == ts[i].name && Refusal(ts[i], world(ts[i]), taken) == Some(err.error)
  }

  lemma {:induction false} GoneStep(hs: Handles, o: Named, n: Named, left: set<string>, name: string)
    requires name in left && left <= o.Keys
    ensures hs - Gone(o, n, left - {name}) ==
            if Unchanged(o, n, name) then hs - Gone(o, n, left) else hs - Gone(o, n, left) - {name}
  {
    assert Gone(o, n, left - {name}) == Gone(o, n, left) + if Unchanged(o, n, name) then {} else {name};
  }

  /** How far the start loop has come from `was`, with `left` still to be visited. */
  ghost predicate Tracks(was: Sys, now: Sys, left: set<string>, o: Named, n: Named, foreign: set<nat>)
  {
    && Held(now, foreign)
    && KeptHandles(was.handles, now.handles, o, n)
    && (OnCourse(was, n.Keys, o, n, foreign) ==> OnCourse(now, left, o, n, foreign))
    && (Broken(was, n.Keys, o, n, foreign) ==> Broken(now, left, o, n, foreign))
  }

  /** Unchanged tunnels keep their handle. */
  predicate KeptHandles(was: Handles, now: Handles, o: Named, n: Named)
  {
    forall name | name in was && Unchanged(o, n, name) :: name in now && now[name] == was[name]
  }

  lemma TracksAll(was: Sys, o: Named, n: Named, foreign: set<nat>)
    requires Held(was, foreign)
    ensures Tracks(was, was, n.Keys, o, n, foreign)
  {
  }

  lemma {:induction false} TracksSkip(was: Sys, now: Sys, left: set<string>, o: Named, n: Named, foreign: set<nat>,
      name: string)
    requires Tracks(was, now, left, o, n, foreign) && Unchanged(o, n, name)
    ensures Tracks(was, now, left - {name}, o, n, foreign)
  {
    SkipOne(now, left, o, n, foreign, name);
  }

  lemma {:induction false} TracksStart(was: Sys, now: Sys, left: set<string>, o: Named, n: Named, foreign: set<nat>,
      name: string, outcome: Outcome)
    requires Tracks(was, now, left, o, n, foreign) && UniquePorts(n) && name in left && name in n &&
        !Unchanged(o, n, name)
    ensures
      var st := StartTunnel(now, n[name], outcome);
      && (st.Started? ==> Tracks(was, Install(st, name), left - {name}, o, n, foreign))
      && (OnCourse(now, left, o, n, foreign) ==>
            && Refusal(n[name], outcome, now.paths) == Refusal(n[name], outcome, foreign)
            && (st.NotStarted? ==> name !in now.handles))
  {
    var st := StartTunnel(now, n[name], outcome);
    StartStep(now, left, o, n, foreign, name, outcome);
    if st.Started? {
      InstallKeeps(was.handles, now.handles, o, n, name, st.handle);
      assert Install(st, name).handles == now.handles[name := st.handle];
    }
    if OnCourse(now, left, o, n, foreign) {
      InUseIsForeign(now, left, o, n, foreign, name, outcome);
      PartialStep(now.handles, left, o, n, name, ServerHandle(0, n[name]));
    }
  }

  lemma InstallKeeps(was: Handles, now: Handles, o: Named, n: Named, name: string, h: Handle)
    requires KeptHandles(was, now, o, n) && !Unchanged(o, n, name)
    ensures KeptHandles(was, now[name := h], o, n)
  {
  }

  lemma {:induction false} TracksEnds(was: Sys, now: Sys, o: Named, n: Named, foreign: set<nat>)
    requires Tracks(was, now, {}, o, n, foreign)
    ensures OnCourse(was, n.Keys, o, n, foreign) ==> Sound(now, foreign) && Runs(now.handles, n)
    ensures Broken(was, n.Keys, o, n, foreign) ==> !Matches(now, n, foreign)
  {
    if OnCourse(was, n.Keys, o, n, foreign) { OnCourseEnds(now, o, n, foreign); }
    if Broken(was, n.Keys, o, n, foreign) { BrokenEnds(now, o, n, foreign); }
  }

  lemma {:induction false} SkipOne(s: Sys, left: set<string>, o: Named, n: Named, foreign: set<nat>, name: string)
    requires Unchanged(o, n, name)
    ensures Partial(s.handles, left, o, n) ==> Partial(s.handles, left - {name}, o, n)
    ensures Broken(s, left, o, n, foreign) ==> Broken(s, left - {name}, o, n, foreign)
  {
    if Doomed(s.handles, left, o, n) {
      var d :| d in left && d in s.handles && d in n && !Unchanged(o, n, d);
      assert d in left - {name};
    }
  }

  /** What one start does to a Reload on course, and to one that is broken. */
  lemma {:induction false} StartStep(s: Sys, left: set<string>, o: Named, n: Named, foreign: set<nat>, name: string,
      outcome: Outcome)
    requires Held(s, foreign) && UniquePorts(n) && name in left && name in n && !Unchanged(o, n, name)
    ensures
      var st := StartTunnel(s, n[name], outcome);
      st.Started? ==>
        var r := Install(st, name);
        && Held(r, foreign)
        && (OnCourse(s, left, o, n, foreign) ==> OnCourse(r, left - {name}, o, n, foreign))
        && (Broken(s, left, o, n, foreign) ==> Broken(r, left - {name}, o, n, foreign))
  {
    var st := StartTunnel(s, n[name], outcome);
    if st.Started? {
      InstallHeld(s, n[name], outcome, name, foreign);
      assert OnCourse(s, left, o, n, foreign) ==> OnCourse(Install(st, name), left - {name}, o, n, foreign) by {
        if OnCourse(s, left, o, n, foreign) { OnCourseStep(s, left, o, n, foreign, name, outcome); }
      }
      assert Broken(s, left, o, n, foreign) ==> Broken(Install(st, name), left - {name}, o, n, foreign) by {
        if Broken(s, left, o, n, foreign) { BrokenPersists(s, left, o, n, foreign, name, outcome); }
      }
    }
  }

  lemma {:induction false} FirstClash(text: Text, ts: seq<Tunnel>, i: nat)
    requires i < |ts| && TunnelsOk(text, ts)
    ensures ts[i].name !in ByName(ts[..i])
    ensures ByName(ts[..i + 1]) == ByName(ts[..i])[ts[i].name := ts[i]]
    ensures UniquePorts(ByName(ts[..i + 1]))
  {
    assert ts[..i + 1][..i] == ts[..i];
    forall n | n in ByName(ts[..i]) ensures n != ts[i].name {
      var k := ByNameComes(ts[..i], n);
      assert !Clash(ts[k], ts[i]);
    }
    ByNameUnique(text, ts[..i + 1]);
  }

  /** One start of Run, given that the tunnels before it match. */
  lemma {:induction false} RunNext(text: Text, s: Sys, ts: seq<Tunnel>, i: nat, foreign: set<nat>, outcome: Outcome)
    requires i < |ts| && TunnelsOk(text, ts) && Matches(s, ByName(ts[..i]), foreign)
    ensures
      var st := StartTunnel(s, ts[i], outcome);
      && Refusal(ts[i], outcome, s.paths) == Refusal(ts[i], outcome, foreign)
      && (st.Started? ==> Matches(Install(st, ts[i].name), ByName(ts[..i + 1]), foreign))
  {
    FirstClash(text, ts, i);
    StartExtends(s, ByName(ts[..i]), ts[i], foreign, outcome);
  }

  lemma {:induction false} StartExtends(s: Sys, o: Named, t: Tunnel, foreign: set<nat>, outcome: Outcome)
    requires Matches(s, o, foreign) && t.name !in o && UniquePorts(o[t.name := t])
    ensures
      var st := StartTunnel(s, t, outcome);
      && Refusal(t, outcome, s.paths) == Refusal(t, outcome, foreign)
      && (st.Started? ==> Matches(Install(st, t.name), o[t.name := t], foreign))
  {
    var n := o[t.name := t];
    assert Partial(s.handles, {t.name}, o, n);
    if StartTunnel(s, t, outcome).Started? {
      OnCourseStep(s, {t.name}, o, n, foreign, t.name, outcome);
      assert {t.name} - {t.name} == {};
      OnCourseEnds(Install(StartTunnel(s, t, outcome), t.name), o, n, foreign);
    }
    InUseIsForeign(s, {t.name}, o, n, foreign, t.name, outcome);
  }
}
