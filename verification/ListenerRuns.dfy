/** What holds of the listener in every interleaving of its critical sections. */
module ListenerRuns {
  import opened Bytes
  import opened PeerLinks
  import opened Listener

  ghost predicate Next(s: State, t: State)
  {
    exists act :: Enabled(s, act) && t == Apply(s, act)
  }

  ghost predicate IsRun(run: seq<State>)
  {
    && run != [] && run[0] == EMPTY
    && forall i | 0 < i < |run| :: Next(run[i - 1], run[i])
  }

  lemma {:induction false} RunKeepsInv(run: seq<State>, i: nat)
    requires IsRun(run) && i < |run|
    ensures Inv(run[i])
  {
    if i > 0 {
      RunKeepsInv(run, i - 1);
      NextKeepsInv(run[i - 1], run[i]);
    }
  }

  /** Every step of a run starts from the invariant. */
  lemma {:induction false} RunStep(run: seq<State>, j: nat)
    requires IsRun(run) && 0 < j < |run|
    ensures Inv(run[j - 1]) && Next(run[j - 1], run[j])
  {
    RunKeepsInv(run, j - 1);
  }

  lemma {:induction false} NextKeepsInv(s: State, t: State)
    requires Inv(s) && Next(s, t)
    ensures Inv(t)
  {
    var act :| Enabled(s, act) && t == Apply(s, act);
    StepKeepsInv(s, act);
  }

  /** In every interleaving: a stored stream's link is open and agrees with its
      entry, no transport is on two links, at most one goroutine feeds a stream,
      and a closed listener stores nothing. */
  lemma {:induction false} ListenerSafety(run: seq<State>, i: nat)
    requires IsRun(run) && i < |run|
    ensures
      var s := run[i];
      && (s.closed ==> s.streams == map[])
      && (forall r | r in s.streams :: Stored(s, s.streams[r]) &&
            s.entries[s.streams[r]].link == Link(s.entries[s.streams[r]].peer, false))
      && (forall e, d | e in s.entries && d in s.entries && e != d && s.entries[e].link.peer.Some? ::
            s.entries[d].link.peer != s.entries[e].link.peer)
      && (forall p, q | p in s.workers && q in s.workers && s.workers[p].entry == s.workers[q].entry :: p == q)
  {
    RunKeepsInv(run, i);
  }

  /** In every state of every run the onStream calls made for a stream, plus one
      while its activation or its call is still to come, make exactly one. */
  lemma {:induction false} AnnouncedExactlyOnce(run: seq<State>, i: nat, e: nat)
    requires IsRun(run) && i < |run| && e in run[i].entries
    ensures
      var s := run[i];
      && e in s.announced
      && s.announced[e] + (if Unannounced(s.entries[e], e, s.workers) || e in s.announcing then 1 else 0) == 1
  {
    RunKeepsInv(run, i);
  }

  /** A stream may be announced after it has left the table: its goroutine is
      started first, and the listener can close in between. */
  lemma {:induction false} AnnouncedAfterDrop(remote: Remote, p: nat) returns (run: seq<State>)
    ensures IsRun(run) && |run| == 5
    ensures 0 in run[3].entries && !Stored(run[3], 0) && run[3].announced == map[0 := 0]
    ensures run[4].announced == map[0 := 1]
  {
    var created := Apply(EMPTY, Activate(remote, p));
    var started := Apply(created, StartWatch(p));
    var closed := Apply(started, CloseListener);
    run := [EMPTY, created, started, closed, Apply(closed, Announce(0))];
    assert Next(run[0], run[1]) by { assert Enabled(EMPTY, Activate(remote, p)); }
    assert Next(run[1], run[2]) by { assert Enabled(created, StartWatch(p)); }
    assert Next(run[2], run[3]) by { assert Enabled(started, CloseListener); }
    assert Next(run[3], run[4]) by { assert Enabled(closed, Announce(0)); }
  }

  /** `t` follows `s` with entry `e` kept and not put into the table again. */
  predicate NotRevived(s: State, t: State, e: nat)
    requires e in s.entries
  {
    e in t.entries && t.entries[e].remote == s.entries[e].remote && (Stored(t, e) ==> Stored(s, e))
  }

  /** A step that adds nothing to the table revives nothing. */
  lemma TableShrinks(s: State, t: State, e: nat)
    requires e in s.entries && e in t.entries && t.entries[e].remote == s.entries[e].remote
    requires forall r | r in t.streams :: r in s.streams && t.streams[r] == s.streams[r]
    ensures NotRevived(s, t, e)
  {
  }

  lemma EntryActionsShrink(s: State, act: Action, e: nat)
    requires Enabled(s, act) && e in s.entries &&
        (act.WatchEnd? || act.TimerFires? || act.CloseStream? || act.CloseLink?)
    ensures NotRevived(s, Apply(s, act), e)
  {
    TableShrinks(s, Apply(s, act), e);
  }

  /** One action neither revives a dropped stream nor re-pairs an entry. */
  lemma {:induction false} StepNeverRevives(s: State, act: Action, e: nat)
    requires Inv(s) && Enabled(s, act) && e in s.entries
    ensures NotRevived(s, Apply(s, act), e)
  {
    match act {
      case Activate(remote, p) => ActivateNeverRevives(s, remote, p, e);
      case StartWatch(p) => TableShrinks(s, DoStartWatch(s, p), e);
      case Announce(d) => TableShrinks(s, DoAnnounce(s, d), e);
      case ReconnectFailed(p) =>
      case ForwardEnd(p) =>
      case CloseListener => TableShrinks(s, DoCloseListener(s), e);
      case _ => EntryActionsShrink(s, act, e);
    }
  }

  lemma {:induction false} ActivateNeverRevives(s: State, remote: Remote, p: nat, e: nat)
    requires Tabled(s) && Counted(s) && e in s.entries
    ensures NotRevived(s, DoActivate(s, remote, p), e)
  {
    assert e < s.next;
  }

  lemma {:induction false} NextNeverRevives(s: State, t: State, e: nat)
    requires Inv(s) && Next(s, t) && e in s.entries
    ensures NotRevived(s, t, e)
  {
    var act :| Enabled(s, act) && t == Apply(s, act);
    StepNeverRevives(s, act, e);
  }

  lemma NotRevivedTrans(s: State, t: State, u: State, e: nat)
    requires e in s.entries && NotRevived(s, t, e) && NotRevived(t, u, e)
    ensures NotRevived(s, u, e)
  {
  }

  lemma {:induction false} RunNeverRevives(run: seq<State>, j: nat, e: nat)
    requires IsRun(run) && 0 < j < |run| && e in run[j - 1].entries
    ensures NotRevived(run[j - 1], run[j], e)
  {
    RunStep(run, j);
    NextNeverRevives(run[j - 1], run[j], e);
  }

  /** A stream once dropped never re-enters the table, so while a remote keeps its
      entry the stream object behind it is the same. */
  lemma {:induction false} DroppedForGood(run: seq<State>, i: nat, j: nat, e: nat)
    requires IsRun(run) && i <= j < |run| && e in run[i].entries
    ensures NotRevived(run[i], run[j], e)
    decreases j - i
  {
    if i < j {
      RunNeverRevives(run, i + 1, e);
      DroppedForGood(run, i + 1, j, e);
      NotRevivedTrans(run[i], run[i + 1], run[j], e);
    }
  }

  /** A stream leaves the table only when its transport is gone, when it is closed
      by its user, or with the listener; a grace timer, stale or not, never drops
      a stream that has a transport. */
  lemma {:induction false} OnlyDetachedExpire(s: State, act: Action, e: nat)
    requires Inv(s) && Enabled(s, act) && Stored(s, e) && !Stored(Apply(s, act), e)
    ensures act == CloseStream(e) || act == CloseListener || (act == TimerFires(e) && s.entries[e].peer.None?)
  {
    StaysStored(s, act, e);
  }

  /** Every other action leaves the stream where it is. */
  lemma {:induction false} StaysStored(s: State, act: Action, e: nat)
    requires Inv(s) && Enabled(s, act) && Stored(s, e)
    ensures act == CloseStream(e) || act == CloseListener || (act == TimerFires(e) && s.entries[e].peer.None?) ||
            Stored(Apply(s, act), e)
  {
    match act {
      case Activate(remote, p) => ActivateKeepsStored(s, remote, p, e);
      case TimerFires(d) => if d != e { OtherDropped(s, d, e); }
      case CloseStream(d) => if d != e { OtherDropped(s, d, e); }
      case _ =>
    }
  }

  lemma {:induction false} ActivateKeepsStored(s: State, remote: Remote, p: nat, e: nat)
    requires Tabled(s) && Counted(s) && Enabled(s, Activate(remote, p)) && Stored(s, e)
    ensures Stored(DoActivate(s, remote, p), e)
  {
    assert e < s.next;
  }

  lemma OtherDropped(s: State, d: nat, e: nat)
    requires d in s.entries && Stored(s, e) && d != e
    ensures Stored(s, d) ==> Stored(Drop(s, d), e)
  {
  }

  /** Every remote that is not stored gets a stream of its own, however many others the
      listener serves: a fresh entry on the new transport, with one goroutine that will
      announce it, and nothing of the others changes. */
  lemma {:induction false} NewRemoteIsServed(s: State, remote: Remote, p: nat)
    requires Inv(s) && p !in s.seen && !s.closed && remote !in s.streams
    ensures
      var t := DoActivate(s, remote, p);
      && remote in t.streams
      && (var e := t.streams[remote];
          && e !in s.entries
          && t.streams == s.streams[remote := e]
          && t.entries == s.entries[e := Entry(remote, Link(Some(p), false), Some(p), p)]
          && t.workers == s.workers[p := Worker(e, Starting(true))]
          && t.announced == s.announced[e := 0] && t.announcing == s.announcing)
  {
    assert s.next !in s.entries;
  }

  /** A reconnecting transport is accepted exactly when the stream is detached:
      attaching to the link never fails then. */
  lemma {:induction false} RebindAlwaysAttaches(s: State, remote: Remote, p: nat)
    requires Inv(s) && p !in s.seen && !s.closed && remote in s.streams
    ensures
      var e := s.streams[remote];
      var t := DoActivate(s, remote, p);
      && t.streams == s.streams
      && (s.entries[e].peer.None? <==> t.entries[e].peer == Some(p) && t.entries[e].link == Link(Some(p), false))
      && (s.entries[e].peer.Some? ==> t.entries == s.entries)
  {
  }
}
