/** Facts about one Reload, independent of the order in which Go ranges over its
    maps. */
module Reloading {
  import opened Bytes
  import opened TunnelConfig
  import opened Supervisor

  /** tunnelsByName. */
  function ByName(ts: seq<Tunnel>): (r: Named)
  {
    if ts == [] then map[]
    else ByName(ts[..|ts| - 1])[ts[|ts| - 1].name := ts[|ts| - 1]]
  }

  predicate UniquePorts(tunnels: Named)
  {
    forall n, m | n in tunnels && m in tunnels && n != m ::
      tunnels[n].mode.Server? && tunnels[m].mode.Server? ==> tunnels[n].logicalPort != tunnels[m].logicalPort
  }

  lemma {:induction false} ByNameComes(ts: seq<Tunnel>, n: string) returns (i: nat)
    requires n in ByName(ts)
    ensures i < |ts| && ts[i] == ByName(ts)[n] && ts[i].name == n
    decreases |ts|
  {
    if n == ts[|ts| - 1].name {
      i := |ts| - 1;
    } else {
      i := ByNameComes(ts[..|ts| - 1], n);
    }
  }

  /** A validated tunnel list indexes into a map with one owner per port. */
  lemma {:induction false} ByNameUnique(text: Text, ts: seq<Tunnel>)
    requires TunnelsOk(text, ts)
    ensures UniquePorts(ByName(ts))
    ensures forall n | n in ByName(ts) :: TunnelOk(text, ByName(ts)[n]) && ByName(ts)[n].name == n
  {
    var m := ByName(ts);
    forall a, b | a in m && b in m && a != b && m[a].mode.Server? && m[b].mode.Server?
      ensures m[a].logicalPort != m[b].logicalPort
    {
      var i := ByNameComes(ts, a);
      var j := ByNameComes(ts, b);
      assert if i < j then !Clash(ts[i], ts[j]) else !Clash(ts[j], ts[i]);
    }
    forall n | n in m ensures TunnelOk(text, m[n]) && m[n].name == n {
      var i := ByNameComes(ts, n);
    }
  }

  /** With distinct names no tunnel is shadowed: every tunnel of the list is found
      under its own name. */
  lemma {:induction false} ByNameFinds(ts: seq<Tunnel>, i: nat)
    requires i < |ts| && forall a, b | 0 <= a < b < |ts| :: ts[a].name != ts[b].name
    ensures ts[i].name in ByName(ts) && ByName(ts)[ts[i].name] == ts[i]
    decreases |ts|
  {
    if i < |ts| - 1 {
      ByNameFinds(ts[..|ts| - 1], i);
    }
  }

  predicate Unchanged(o: Named, n: Named, name: string)
  {
    name in o && name in n && o[name] == n[name]
  }

  /** A condition on the state before a Reload: every handle is one the recorded
      configuration knows, and every tunnel that Reload will leave alone is
      indeed running as recorded. */
  predicate Ready(hs: Handles, o: Named, n: Named)
  {
    && hs.Keys <= o.Keys
    && forall name | name in n :: Unchanged(o, n, name) ==> name in hs && hs[name].started == n[name]
  }

  /** In agreement a Reload is always ready. */
  lemma AgreementIsReady(hs: Handles, o: Named, n: Named)
    requires Runs(hs, o)
    ensures Ready(hs, o, n)
  {
  }

  /** Retrying the recorded configuration is ready only if it runs completely, so
      after a failed Reload that changed anything the retry cannot restore
      agreement. */
  lemma {:induction false} RetryReadyOnlyInAgreement(hs: Handles, o: Named)
    ensures Ready(hs, o, o) <==> Runs(hs, o)
  {
    if Ready(hs, o, o) {
      assert forall name | name in o :: Unchanged(o, o, name);
    }
  }

  /** Part of the way through the start loop, `left` still to be visited. */
  predicate Partial(hs: Handles, left: set<string>, o: Named, n: Named)
  {
    && (forall name | name in hs :: name in n && hs[name].started == n[name])
    && (forall name | name in n :: name in hs <==> (name !in left || Unchanged(o, n, name)))
  }

  /** The start loop is on its way to agreement. */
  predicate OnCourse(s: Sys, left: set<string>, o: Named, n: Named, foreign: set<nat>)
  {
    Sound(s, foreign) && Partial(s.handles, left, o, n)
  }

  lemma PartialStep(hs: Handles, left: set<string>, o: Named, n: Named, name: string, h: Handle)
    requires Partial(hs, left, o, n) && name in left && name in n && h.started == n[name]
    requires !Unchanged(o, n, name)
    ensures name !in hs && Partial(hs[name := h], left - {name}, o, n)
  {
  }

  lemma {:induction false} OnCourseStep(s: Sys, left: set<string>, o: Named, n: Named, foreign: set<nat>,
      name: string, outcome: Outcome)
    requires OnCourse(s, left, o, n, foreign) && name in left && name in n && !Unchanged(o, n, name)
    requires StartTunnel(s, n[name], outcome).Started?
    ensures OnCourse(Install(StartTunnel(s, n[name], outcome), name), left - {name}, o, n, foreign)
  {
    var r := Install(StartTunnel(s, n[name], outcome), name);
    PartialStep(s.handles, left, o, n, name, r.handles[name]);
    assert r.handles == s.handles[name := r.handles[name]];
    assert Held(r, foreign) by { InstallHeld(s, n[name], outcome, name, foreign); }
    assert NoLeak(r, foreign) by { InstallNoLeak(s, n[name], outcome, name, foreign); }
  }

  lemma OnCourseEnds(s: Sys, o: Named, n: Named, foreign: set<nat>)
    requires OnCourse(s, {}, o, n, foreign)
    ensures Runs(s.handles, n)
  {
  }

  /** A port in use during the start loop is in use by someone else, and a tunnel starts
      exactly if that is granted it with those ports taken. */
  lemma {:induction false} InUseIsForeign(s: Sys, left: set<string>, o: Named, n: Named, foreign: set<nat>,
      name: string, outcome: Outcome)
    requires OnCourse(s, left, o, n, foreign) && UniquePorts(n)
    requires name in left && name in n && !Unchanged(o, n, name)
    ensures n[name].mode.Server? ==> (n[name].logicalPort in s.paths <==> n[name].logicalPort in foreign)
    ensures Refusal(n[name], outcome, s.paths) == Refusal(n[name], outcome, foreign)
  {
    var p := n[name].logicalPort;
    if n[name].mode.Server? {
      forall m | m in s.handles ensures LockOf(s.handles[m]) != Some(p) {
        assert Holds(s, s.handles[m], foreign);
        assert m in n && m != name;
      }
      assert p !in Owned(s.handles, LockOf);
    }
  }

  // ----------------------------------------- what a Reload cannot repair

  /** Something is held that no handle owns. */
  ghost predicate Leaky(s: Sys, foreign: set<nat>)
  {
    || (exists p :: p in s.paths && p !in foreign && p !in Owned(s.handles, LockOf))
    || (exists l :: l in s.listeners && l !in Owned(s.handles, CloserOf))
  }

  /** A handle that will not be visited and does not belong. */
  ghost predicate Stray(hs: Handles, o: Named, n: Named)
  {
    || (exists name :: name in hs && name !in n)
    || (exists name :: name in n && Unchanged(o, n, name) && (name !in hs || hs[name].started != n[name]))
  }

  /** A handle that a start will overwrite. */
  ghost predicate Doomed(hs: Handles, left: set<string>, o: Named, n: Named)
  {
    exists name :: name in left && name in hs && name in n && !Unchanged(o, n, name)
  }

  ghost predicate Broken(s: Sys, left: set<string>, o: Named, n: Named, foreign: set<nat>)
  {
    Leaky(s, foreign) || Stray(s.handles, o, n) || Doomed(s.handles, left, o, n)
  }

  /** The names the stop loop has stopped while `left` is still to be visited. */
  function Gone(o: Named, n: Named, left: set<string>): (r: set<string>)
  {
    set name | name in o && name !in left && !Unchanged(o, n, name)
  }

  /** What the stop loop leaves of the handles. */
  function Spared(hs: Handles, o: Named, n: Named): (r: Handles) { hs - Gone(o, n, {}) }

  lemma {:induction false} UnreadyIsBroken(s: Sys, hs: Handles, o: Named, n: Named, foreign: set<nat>)
    requires !Ready(hs, o, n) && s.handles == Spared(hs, o, n)
    ensures Broken(s, n.Keys, o, n, foreign)
  {
    if !(hs.Keys <= o.Keys) {
      var name :| name in hs && name !in o;
      assert name in s.handles;
      if name in n {
        assert !Unchanged(o, n, name);
      }
    } else {
      var name :| name in n && Unchanged(o, n, name) && !(name in hs && hs[name].started == n[name]);
      assert name !in s.handles || s.handles[name].started != n[name];
    }
  }

  lemma {:induction false} ReadyIsPartial(hs: Handles, o: Named, n: Named)
    requires Ready(hs, o, n)
    ensures Partial(Spared(hs, o, n), n.Keys, o, n)
  {
    forall name | name in n
      ensures name in Spared(hs, o, n) <==> (name !in n.Keys || Unchanged(o, n, name)) {
    }
  }

  lemma {:induction false} NotOwned<T>(hs: Handles, name: string, h: Handle, of: Handle -> Option<T>, x: T)
    requires (forall n | n in hs && n != name :: of(hs[n]) != Some(x)) && of(h) != Some(x)
    ensures x !in Owned(hs[name := h], of)
  {
  }

  /** A locked port that no handle owns is locked and not owned after a start. */
  lemma {:induction false} PortLeakPersists(s: Sys, t: Tunnel, outcome: Outcome, name: string, p: nat)
    requires StartTunnel(s, t, outcome).Started? && p in s.paths
    requires forall n | n in s.handles && n != name :: LockOf(s.handles[n]) != Some(p)
    ensures
      var r := Install(StartTunnel(s, t, outcome), name);
      p in r.paths && p !in Owned(r.handles, LockOf)
  {
    NotOwned(s.handles, name, StartTunnel(s, t, outcome).handle, LockOf, p);
  }

  lemma {:induction false} ListenerLeakPersists(s: Sys, t: Tunnel, outcome: Outcome, name: string, l: nat)
    requires StartTunnel(s, t, outcome).Started? && l in s.listeners && l < s.next
    requires forall n | n in s.handles && n != name :: CloserOf(s.handles[n]) != Some(l)
    ensures
      var r := Install(StartTunnel(s, t, outcome), name);
      l in r.listeners && l !in Owned(r.handles, CloserOf)
  {
    NotOwned(s.handles, name, StartTunnel(s, t, outcome).handle, CloserOf, l);
  }

  lemma {:induction false} LeakPersists(s: Sys, t: Tunnel, outcome: Outcome, name: string, foreign: set<nat>)
    requires Held(s, foreign) && Leaky(s, foreign) && StartTunnel(s, t, outcome).Started?
    ensures Leaky(Install(StartTunnel(s, t, outcome), name), foreign)
  {
    if exists p :: p in s.paths && p !in foreign && p !in Owned(s.handles, LockOf) {
      var p :| p in s.paths && p !in foreign && p !in Owned(s.handles, LockOf);
      PortLeakPersists(s, t, outcome, name, p);
    } else {
      var l :| l in s.listeners && l !in Owned(s.handles, CloserOf);
      ListenerLeakPersists(s, t, outcome, name, l);
    }
  }

  /** Overwriting a handle leaks its port or its listener. */
  lemma {:induction false} OverwriteLeaks(s: Sys, t: Tunnel, outcome: Outcome, name: string, foreign: set<nat>)
    requires Held(s, foreign) && name in s.handles && StartTunnel(s, t, outcome).Started?
    ensures Leaky(Install(StartTunnel(s, t, outcome), name), foreign)
  {
    var h := s.handles[name];
    assert Holds(s, h, foreign);
    forall n | n in s.handles && n != name
      ensures h.lock.Some? ==> LockOf(s.handles[n]) != h.lock
      ensures h.closer.Some? ==> CloserOf(s.handles[n]) != h.closer
    {
      ApartResources(s, name, n, foreign);
    }
    if h.lock.Some? {
      PortLeakPersists(s, t, outcome, name, h.lock.value);
    } else {
      ListenerLeakPersists(s, t, outcome, name, h.closer.value);
    }
  }

  lemma {:induction false} BrokenPersists(s: Sys, left: set<string>, o: Named, n: Named, foreign: set<nat>,
      name: string, outcome: Outcome)
    requires Held(s, foreign) && Broken(s, left, o, n, foreign)
    requires name in left && name in n && !Unchanged(o, n, name)
    requires StartTunnel(s, n[name], outcome).Started?
    ensures Broken(Install(StartTunnel(s, n[name], outcome), name), left - {name}, o, n, foreign)
  {
    var r := Install(StartTunnel(s, n[name], outcome), name);
    assert r.handles == s.handles[name := r.handles[name]];
    if Leaky(s, foreign) {
      LeakPersists(s, n[name], outcome, name, foreign);
    } else if name in s.handles {
      OverwriteLeaks(s, n[name], outcome, name, foreign);
    } else if Doomed(s.handles, left, o, n) {
      var d :| d in left && d in s.handles && d in n && !Unchanged(o, n, d);
      assert d in left - {name} && d in r.handles;
    } else {
      StrayPersists(s.handles, o, n, name, r.handles[name]);
    }
  }

  lemma {:induction false} StrayPersists(hs: Handles, o: Named, n: Named, name: string, h: Handle)
    requires Stray(hs, o, n) && name in n && !Unchanged(o, n, name)
    ensures Stray(hs[name := h], o, n)
  {
  }

  lemma {:induction false} BrokenEnds(s: Sys, o: Named, n: Named, foreign: set<nat>)
    requires Broken(s, {}, o, n, foreign)
    ensures !Matches(s, n, foreign)
  {
  }
}
