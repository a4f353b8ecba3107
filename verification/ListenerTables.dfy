/** The listener object itself: its methods are the critical sections that read and
    write the stream table, proved against the actions of Listener. */
module ListenerTables {
  import opened Bytes
  import opened PeerLinks
  import opened Listener

  /** Listener.Close with the streams of `left` still to do. */
  function Closing(s: State, left: set<Remote>): (r: State)
  {
    s.(closed := true,
       streams := map r | r in left && r in s.streams :: s.streams[r],
       entries := Emptied(s, left))
  }

  lemma {:induction false} ClosingStep(s: State, left: set<Remote>, r: Remote)
    requires Tabled(s) && r in left && r in s.streams
    ensures
      var (t, e) := (Closing(s, left), s.streams[r]);
      && r in t.streams && t.streams[r] == e && e in t.entries
      && Closing(s, left - {r}) ==
         t.(streams := t.streams - {r},
            entries := t.entries[e := t.entries[e].(link := ClosedLink(t.entries[e].link))])
  {
    var (t, e) := (Closing(s, left), s.streams[r]);
    assert Closing(s, left - {r}).streams == t.streams - {r};
    assert t.entries[e] == s.entries[e];
    assert Emptied(s, left - {r}) == t.entries[e := t.entries[e].(link := ClosedLink(t.entries[e].link))];
  }

  lemma {:induction false} ClosingEnds(s: State)
    requires Tabled(s)
    ensures Closing(s, s.streams.Keys) == s.(closed := true)
    ensures Closing(s, {}) == DoCloseListener(s)
  {
    assert Emptied(s, s.streams.Keys) == s.entries;
  }

  /** Every method leaves the state that the action of the same critical section
      yields, so Listener.StepKeepsInv applies to it. */
  class ListenerTable {
    var closed: bool
    var streams: Table
    var entries: Entries
    var workers: Workers
    var closers: set<nat>
    var announced: map<nat, nat>
    var announcing: set<nat>
    var seen: set<nat>
    var next: nat

    function Now(): (s: State)
      reads this
    {
      State(closed, streams, entries, workers, closers, announced, announcing, seen, next)
    }

    constructor ()
      ensures Now() == EMPTY && Inv(Now())
    {
      closed, streams, entries, workers := false, map[], map[], map[];
      closers, announced, announcing, seen, next := {}, map[], {}, {}, 0;
    }

    /** `kept` is false when the listener closes the transport instead: when it is
        closed itself, or the remote's stream has a transport. */
    method BindTransport(remote: Remote, p: nat) returns (kept: bool)
      requires Tabled(Now()) && p !in seen && p !in workers
      modifies this
      ensures Now() == DoActivate(old(Now()), remote, p)
      ensures kept <==> !closed && (remote !in old(streams) || old(entries[streams[remote]].peer).None?)
      ensures !kept ==> Now() == old(Now()).(seen := old(seen) + {p})
      ensures kept && remote !in old(streams) ==>
                && next == old(next) + 1 && streams == old(streams)[remote := old(next)]
                && entries == old(entries)[old(next) := Entry(remote, Link(Some(p), false), Some(p), p)]
                && workers == old(workers)[p := Worker(old(next), Starting(true))]
                && announced == old(announced)[old(next) := 0]
      ensures kept && remote in old(streams) ==>
                var e := old(streams)[remote];
                && streams == old(streams) && announced == old(announced) && next == old(next)
                && entries == old(entries)[e := old(entries)[e].(link := Link(Some(p), false), peer := Some(p))]
                && workers == old(workers)[p := Worker(e, Starting(false))]
      ensures closed == old(closed) && closers == old(closers) && announcing == old(announcing)
    {
      seen := seen + {p};
      if closed {
        return false;
      }
      if remote !in streams {
        entries := entries[next := Entry(remote, Link(Some(p), false), Some(p), p)];
        streams := streams[remote := next];
        workers := workers[p := Worker(next, Starting(true))];
        announced := announced[next := 0];
        next := next + 1;
        return true;
      }
      var e := streams[remote];
      var entry := entries[e];
      var (link, ok) := Attached(entry.link, p);
      if entry.peer.Some? || !ok {
        return false;
      }
      entries := entries[e := entry.(link := link, peer := Some(p))];
      workers := workers[p := Worker(e, Starting(false))];
      return true;
    }

    method EndWatch(p: nat)
      requires Tabled(Now()) && Enabled(Now(), WatchEnd(p))
      modifies this
      ensures Now() == DoWatchEnd(old(Now()), p)
      ensures workers == old(workers) - {p} && streams == old(streams)
      ensures
        var e := old(workers)[p].entry;
        if old(Stored(Now(), e)) && old(entries)[e].peer == Some(p)
        then entries == old(entries)[e := old(entries)[e].(link := Link(None, false), peer := None)]
        else entries == old(entries)
    {
      var e := workers[p].entry;
      var entry := entries[e];
      workers := workers - {p};
      if entry.remote !in streams || streams[entry.remote] != e || entry.peer != Some(p) {
        return;
      }
      entries := entries[e := entry.(link := Detached(entry.link, p).0, peer := None)];
    }

    /** The grace timer of stream `e` runs, possibly late. */
    method FireTimer(e: nat)
      requires Tabled(Now()) && e in entries
      modifies this
      ensures Now() == DoTimer(old(Now()), e)
      ensures if old(Stored(Now(), e) && entries[e].peer.None?)
              then streams == old(streams) - {old(entries)[e].remote} && entries[e].link == Link(None, true)
              else Now() == old(Now())
    {
      var entry := entries[e];
      if entry.remote in streams && streams[entry.remote] == e && entry.peer.None? {
        streams := streams - {entry.remote};
        entries := entries[e := entry.(link := ClosedLink(entry.link))];
      }
    }

    /** The first half of a stream's close function: under the lock, the stream is
        removed unless another one has taken its place. */
    method RemoveStream(e: nat)
      requires Tabled(Now()) && e in entries
      modifies this
      ensures Now() == DoCloseStream(old(Now()), e)
      ensures !Stored(Now(), e) && (old(!Stored(Now(), e)) ==> streams == old(streams))
    {
      var remote := entries[e].remote;
      if remote in streams && streams[remote] == e {
        streams := streams - {remote};
      }
      closers := closers + {e};
    }

    /** The second half, outside the lock. */
    method CloseStreamLink(e: nat)
      requires e in closers && e in entries
      modifies this
      ensures Now() == DoCloseLink(old(Now()), e)
      ensures streams == old(streams) && entries[e].link == Link(None, true)
    {
      entries := entries[e := entries[e].(link := ClosedLink(entries[e].link))];
      closers := closers - {e};
    }

    /** One round of the loop in Close. */
    method ShutOne(r: Remote)
      requires r in streams && streams[r] in entries
      modifies this
      ensures
        var (t, e) := (old(Now()), old(streams[r]));
        Now() == t.(streams := t.streams - {r},
                    entries := t.entries[e := t.entries[e].(link := ClosedLink(t.entries[e].link))])
    {
      var e := streams[r];
      entries := entries[e := entries[e].(link := ClosedLink(entries[e].link))];
      streams := streams - {r};
    }

    /** Closes every stored stream, in whatever order the table yields them. */
    method Close()
      requires Tabled(Now())
      modifies this
      ensures Now() == DoCloseListener(old(Now()))
      ensures closed && streams == map[] && entries.Keys == old(entries).Keys
      ensures forall e | e in old(entries) ::
                entries[e] == if old(Stored(Now(), e)) then old(entries)[e].(link := Link(None, true))
                              else old(entries)[e]
    {
      ghost var was := Now();
      ClosingEnds(was);
      closed := true;
      var left := streams.Keys;
      while left != {}
        invariant left <= was.streams.Keys && Now() == Closing(was, left)
      {
        var r :| r in left;
        ClosingStep(was, left, r);
        ShutOne(r);
        left := left - {r};
      }
    }
  }
}
