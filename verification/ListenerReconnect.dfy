/** One logical stream across its transports: what losing a transport, waiting and
    reconnecting do to it. */
module ListenerReconnect {
  import opened Bytes
  import opened PeerLinks
  import opened Listener
  import opened ListenerRuns

  /** When the attached transport ends, its stream stays stored and becomes detached
      with an open link; otherwise the end of `watch` touches no entry. */
  lemma {:induction false} WatchEndDetaches(s: State, p: nat)
    requires Inv(s) && Enabled(s, WatchEnd(p))
    ensures
      var (t, e) := (DoWatchEnd(s, p), s.workers[p].entry);
      && p !in t.workers && t.streams == s.streams
      && (if Stored(s, e) then
            t.entries == s.entries[e := s.entries[e].(link := Link(None, false), peer := None)]
          else t.entries == s.entries)
  {
  }

  /** The stream is out of the table, its link closed, and no goroutine serves it. */
  predicate Over(s: State, e: nat)
  {
    && e in s.entries && !Stored(s, e) && s.entries[e].link == Link(None, true)
    && forall p | p in s.workers :: s.workers[p].entry != e
  }

  /** The entry keeps its closed link and gets no goroutine. */
  predicate Untouched(s: State, t: State, e: nat)
    requires e in s.entries
  {
    && e in t.entries && (t.entries[e].link == s.entries[e].link || t.entries[e].link == Link(None, true))
    && forall p | p in t.workers && t.workers[p].entry == e :: p in s.workers && s.workers[p].entry == e
  }

  lemma {:induction false} StepUntouched(s: State, act: Action, e: nat)
    requires Enabled(s, act) && e in s.entries && !Stored(s, e) && !act.Activate?
    ensures Untouched(s, Apply(s, act), e)
  {
  }

  lemma {:induction false} StepStaysOver(s: State, act: Action, e: nat)
    requires Inv(s) && Enabled(s, act) && Over(s, e)
    ensures Over(Apply(s, act), e)
  {
    if act.Activate? {
      ActivateStaysOver(s, act.remote, act.peer, e);
    } else {
      StepNeverRevives(s, act, e);
      StepUntouched(s, act, e);
    }
  }

  lemma {:induction false} ActivateStaysOver(s: State, remote: Remote, p: nat, e: nat)
    requires Inv(s) && Enabled(s, Activate(remote, p)) && Over(s, e)
    ensures Over(DoActivate(s, remote, p), e)
  {
    ActivateNeverRevives(s, remote, p, e);
    assert e < s.next;
  }

  lemma {:induction false} NextStaysOver(s: State, t: State, e: nat)
    requires Inv(s) && Next(s, t) && Over(s, e)
    ensures Over(t, e)
  {
    var act :| Enabled(s, act) && t == Apply(s, act);
    StepStaysOver(s, act, e);
  }

  lemma {:induction false} TimerEnds(s: State, e: nat)
    requires Inv(s) && Stored(s, e) && s.entries[e].peer.None?
    ensures Over(DoTimer(s, e), e)
  {
    assert forall p | p in s.workers :: s.workers[p].entry != e;
  }

  lemma {:induction false} RunStaysOver(run: seq<State>, j: nat, e: nat)
    requires IsRun(run) && 0 < j < |run| && Over(run[j - 1], e)
    ensures Over(run[j], e)
  {
    RunStep(run, j);
    NextStaysOver(run[j - 1], run[j], e);
  }

  lemma {:induction false} OverStaysOver(run: seq<State>, i: nat, j: nat, e: nat)
    requires IsRun(run) && i <= j < |run| && Over(run[i], e)
    ensures Over(run[j], e)
    decreases j
  {
    if i < j {
      OverStaysOver(run, i, j - 1, e);
      RunStaysOver(run, j, e);
    }
  }

  /** A grace timer that finds its stream without a transport ends it for good: in
      every later state of every run the stream is out of the table with a closed
      link, and no transport is ever bound to it or forwarded into it again. */
  lemma {:induction false} TimerEndsForGood(run: seq<State>, i: nat, j: nat, e: nat)
    requires IsRun(run) && i < j < |run| && Stored(run[i], e) && run[i].entries[e].peer.None?
    requires run[i + 1] == DoTimer(run[i], e)
    ensures Over(run[j], e)
  {
    RunKeepsInv(run, i);
    TimerEnds(run[i], e);
    OverStaysOver(run, i + 1, j, e);
  }

  /** Closing a stream takes it out of the table and then closes its link; a stream
      that has already been replaced removes nothing. */
  lemma {:induction false} CloseStreamThenLink(s: State, e: nat)
    requires Inv(s) && e in s.entries
    ensures
      var t := DoCloseLink(DoCloseStream(s, e), e);
      && !Stored(t, e) && t.entries[e].link == Link(None, true)
      && (forall r | r in s.streams && s.streams[r] != e :: r in t.streams && t.streams[r] == s.streams[r])
  {
  }

  /** Stream `e` is stored and served by transport `p`. */
  predicate Serving(s: State, e: nat, p: nat)
  {
    && Inv(s) && !s.closed && Stored(s, e)
    && p in s.workers && s.workers[p] == Worker(e, Forwarding)
    && s.entries[e].peer == Some(p)
  }

  /** Transport `p` is lost: its goroutine stops forwarding and ends. */
  function Lost(s: State, p: nat): (r: State)
    requires p in s.workers && s.workers[p].phase.Forwarding? && s.workers[p].entry in s.entries
  {
    DoWatchEnd(s.(workers := s.workers[p := s.workers[p].(phase := Ended)]), p)
  }

  lemma {:induction false} LostDetaches(s: State, e: nat, p: nat)
    requires Serving(s, e, p)
    ensures
      var t := Lost(s, p);
      && Inv(t) && !t.closed && Stored(t, e) && t.streams == s.streams && t.seen == s.seen
      && t.announced == s.announced && t.announcing == s.announcing && p !in t.workers
      && t.entries[e] == s.entries[e].(link := Link(None, false), peer := None)
  {
    assert Enabled(s, ForwardEnd(p));
    StepKeepsInv(s, ForwardEnd(p));
    var ended := Apply(s, ForwardEnd(p));
    assert Enabled(ended, WatchEnd(p));
    WatchEndKeeps(ended, p);
    WatchEndDetaches(ended, p);
  }

  lemma {:induction false} RebindServes(s: State, e: nat, q: nat)
    requires Inv(s) && !s.closed && Stored(s, e) && s.entries[e].peer.None? && q !in s.seen
    ensures
      var t := DoActivate(s, s.entries[e].remote, q);
      && Inv(t) && Enabled(t, StartWatch(q))
      && Serving(DoStartWatch(t, q), e, q)
      && DoStartWatch(t, q).streams == s.streams && DoStartWatch(t, q).seen == s.seen + {q}
      && DoStartWatch(t, q).announced == s.announced && DoStartWatch(t, q).announcing == s.announcing
  {
    var remote := s.entries[e].remote;
    ActivateKeeps(s, remote, q);
    RebindAlwaysAttaches(s, remote, q);
    var t := DoActivate(s, remote, q);
    assert t == Rebind(s, e, q, Link(Some(q), false));
    StepKeepsInv(t, StartWatch(q));
  }

  /** Transport `p` is lost and `q` takes its place. */
  function Reconnected(s: State, e: nat, p: nat, q: nat): (r: State)
    requires Serving(s, e, p) && q !in s.seen
    ensures Serving(r, e, q)
    ensures r.streams == s.streams && r.seen == s.seen + {q}
    ensures r.announced == s.announced && r.announcing == s.announcing
  {
    LostDetaches(s, e, p);
    var t := Lost(s, p);
    RebindServes(t, e, q);
    DoStartWatch(DoActivate(t, t.entries[e].remote, q), q)
  }

  /** Transports not seen before, all different. */
  predicate Fresh(qs: seq<nat>, seen: set<nat>)
  {
    (forall i | 0 <= i < |qs| :: qs[i] !in seen) && (forall i, j | 0 <= i < j < |qs| :: qs[i] != qs[j])
  }

  lemma FreshTail(qs: seq<nat>, seen: set<nat>)
    requires qs != [] && Fresh(qs, seen)
    ensures qs[0] !in seen && Fresh(qs[1..], seen + {qs[0]})
  {
  }

  function Last(p: nat, qs: seq<nat>): nat { if qs == [] then p else qs[|qs| - 1] }

  /** From `s` to `t` stream `e` went on, now on transport `q`. */
  ghost predicate Continued(s: State, t: State, e: nat, q: nat)
  {
    Serving(t, e, q) && t.streams == s.streams && t.announced == s.announced && t.announcing == s.announcing
  }

  function ReconnectedAll(s: State, e: nat, p: nat, qs: seq<nat>): (r: State)
    requires Serving(s, e, p) && Fresh(qs, s.seen)
    ensures Continued(s, r, e, Last(p, qs))
    decreases |qs|
  {
    if qs == [] then s
    else
      FreshTail(qs, s.seen);
      assert Last(p, qs) == Last(qs[0], qs[1..]);
      ReconnectedAll(Reconnected(s, e, p, qs[0]), e, qs[0], qs[1..])
  }

  /** A logical stream outlives any number of transports: however often its
      transport is lost and replaced, the same stream stays stored and ends up on
      the last transport, and no reconnect announces it: the one call has been made
      before or is still to come. */
  lemma {:induction false} StreamOutlivesTransports(s: State, e: nat, p: nat, qs: seq<nat>)
    requires Serving(s, e, p) && Fresh(qs, s.seen)
    ensures
      var t := ReconnectedAll(s, e, p, qs);
      && t.streams == s.streams && Stored(t, e)
      && t.announced == s.announced && t.announcing == s.announcing
      && e in t.announced && t.announced[e] == (if e in s.announcing then 0 else 1)
      && t.entries[e].link == Link(Some(Last(p, qs)), false)
  {
    ServingOnce(ReconnectedAll(s, e, p, qs), e, Last(p, qs));
  }

  lemma {:induction false} ServingOnce(t: State, e: nat, q: nat)
    requires Serving(t, e, q)
    ensures e in t.announced && t.announced[e] == if e in t.announcing then 0 else 1
    ensures t.entries[e].link == Link(Some(q), false)
  {
    assert t.streams[t.entries[e].remote] == e;
    assert forall w | w in t.workers :: t.workers[w].entry == e ==> w == q;
  }

  // ------------------------------------------------ the transports of a stream

  predicate Serves(workers: Workers, e: nat, p: nat) { p in workers && workers[p].entry == e }

  /** The transport whose goroutine serves stream `e`. */
  ghost function Feeder(workers: Workers, e: nat): (r: Option<nat>)
    ensures r.Some? ==> Serves(workers, e, r.value)
    ensures r.None? ==> forall p :: !Serves(workers, e, p)
  {
    if p :| Serves(workers, e, p) then Some(p) else None
  }

  /** How stream `e` uses transports; one not yet created uses none. */
  ghost function PortOf(s: State, e: nat): (r: Port)
  {
    Port(Feeder(s.workers, e), if e in s.entries then s.entries[e].link.peer else None, s.seen)
  }

  lemma {:induction false} OneFeeder(s: State, e: nat, p: nat)
    requires Served(s) && Serves(s.workers, e, p)
    ensures Feeder(s.workers, e) == Some(p)
  {
    assert Serves(s.workers, e, Feeder(s.workers, e).value);
  }

  /** The stream's transports after a step that attaches none to it. */
  lemma {:induction false} PortReleases(s: State, t: State, e: nat)
    requires Served(s) && s.seen <= t.seen && (e in s.entries <==> e in t.entries)
    requires forall p | Serves(t.workers, e, p) :: Serves(s.workers, e, p)
    requires e in t.entries ==> t.entries[e].link.peer == s.entries[e].link.peer || t.entries[e].link.peer.None?
    ensures Shifts(PortOf(s, e), PortOf(t, e))
  {
    if Feeder(t.workers, e).Some? { OneFeeder(s, e, Feeder(t.workers, e).value); }
  }

  /** The stream's transports after a step that attaches transport p to it. */
  lemma {:induction false} PortAttaches(s: State, t: State, e: nat, p: nat)
    requires Served(t) && s.seen <= t.seen && p !in s.seen && p in t.seen
    requires (forall q :: !Serves(s.workers, e, q)) && (e in s.entries ==> s.entries[e].link.peer.None?)
    requires Serves(t.workers, e, p) && e in t.entries && t.entries[e].link.peer == Some(p)
    ensures Shifts(PortOf(s, e), PortOf(t, e))
  {
    OneFeeder(t, e, p);
  }

  lemma {:induction false} CreateShifts(s: State, remote: Remote, p: nat, e: nat)
    requires Served(s) && Counted(s) && p !in s.seen && Served(CreateStream(s, remote, p))
    ensures Shifts(PortOf(s, e), PortOf(CreateStream(s, remote, p), e))
  {
    assert s.next !in s.entries;
    if e == s.next {
      PortAttaches(s, CreateStream(s, remote, p), e, p);
    } else {
      PortReleases(s, CreateStream(s, remote, p), e);
    }
  }

  lemma {:induction false} RebindShifts(s: State, d: nat, p: nat, e: nat)
    requires Served(s) && p !in s.seen && Stored(s, d) && s.entries[d].peer.None? && s.entries[d].link.peer.None?
    requires Served(Rebind(s, d, p, Link(Some(p), false)))
    ensures Shifts(PortOf(s, e), PortOf(Rebind(s, d, p, Link(Some(p), false)), e))
  {
    assert forall q | q in s.workers :: s.workers[q].entry != d;
    if e == d {
      PortAttaches(s, Rebind(s, d, p, Link(Some(p), false)), e, p);
    } else {
      PortReleases(s, Rebind(s, d, p, Link(Some(p), false)), e);
    }
  }

  lemma {:induction false} ActivateShifts(s: State, remote: Remote, p: nat, e: nat)
    requires Inv(s) && Enabled(s, Activate(remote, p))
    ensures Shifts(PortOf(s, e), PortOf(DoActivate(s, remote, p), e))
  {
    if s.closed || (remote in s.streams && s.entries[s.streams[remote]].peer.Some?) {
      PortReleases(s, s.(seen := s.seen + {p}), e);
    } else if remote !in s.streams {
      CreateKeepsWorkers(s, remote, p);
      CreateShifts(s, remote, p, e);
    } else {
      RebindKeepsWorkers(s, s.streams[remote], p);
      RebindShifts(s, s.streams[remote], p, e);
    }
  }

  lemma {:induction false} WorkerShifts(s: State, act: Action, e: nat)
    requires Served(s) && Enabled(s, act)
    requires act.StartWatch? || act.Announce? || act.ReconnectFailed? || act.ForwardEnd? || act.WatchEnd?
    ensures Shifts(PortOf(s, e), PortOf(Apply(s, act), e))
  {
    PortReleases(s, Apply(s, act), e);
  }

  lemma {:induction false} TableShifts(s: State, act: Action, e: nat)
    requires Served(s) && Enabled(s, act)
    requires act.TimerFires? || act.CloseStream? || act.CloseLink? || act.CloseListener?
    ensures Shifts(PortOf(s, e), PortOf(Apply(s, act), e))
  {
    PortReleases(s, Apply(s, act), e);
  }

  lemma {:induction false} StepShifts(s: State, act: Action, e: nat)
    requires Inv(s) && Enabled(s, act)
    ensures Shifts(PortOf(s, e), PortOf(Apply(s, act), e))
  {
    match act {
      case Activate(remote, p) => ActivateShifts(s, remote, p, e);
      case StartWatch(_) => WorkerShifts(s, act, e);
      case Announce(_) => WorkerShifts(s, act, e);
      case ReconnectFailed(_) => WorkerShifts(s, act, e);
      case ForwardEnd(_) => WorkerShifts(s, act, e);
      case WatchEnd(_) => WorkerShifts(s, act, e);
      case _ => TableShifts(s, act, e);
    }
  }

  lemma {:induction false} NextShifts(s: State, t: State, e: nat)
    requires Inv(s) && Next(s, t)
    ensures Shifts(PortOf(s, e), PortOf(t, e))
  {
    var act :| Enabled(s, act) && t == Apply(s, act);
    StepShifts(s, act, e);
  }

  /** In every run of the listener every stream uses transports as an endpoint of
      FlowTransports does: at most one goroutine forwards into it, a transport is
      attached only while none is, for forwarding and sending at once, and never a
      second time. */
  lemma {:induction false} StreamShifts(run: seq<State>, i: nat, e: nat)
    requires IsRun(run) && 0 < i < |run|
    ensures Shifts(PortOf(run[i - 1], e), PortOf(run[i], e))
  {
    RunStep(run, i);
    NextShifts(run[i - 1], run[i], e);
  }
}
