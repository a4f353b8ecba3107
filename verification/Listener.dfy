/** The reconnecting listener (Listener in nativewebrtc/endpoint.go): one logical
    stream per remote outlives any number of transports.

    Each critical section under the listener's lock is one action.  Transports,
    logical streams and their table entries are named by number; an entry and its
    stream share a name, as they are created together and never re-paired.  Every
    accepted transport has one goroutine, which first finishes activation, then
    forwards frames, then runs the end of `watch`. */
module Listener {
  import opened Bytes
  import opened PeerLinks

  type Remote = string

  /** `first` is the transport that created the stream. */
  datatype Entry = Entry(remote: Remote, link: Link, peer: Option<nat>, first: nat)

  datatype Phase = Starting(isNew: bool) | Forwarding | Ended

  datatype Worker = Worker(entry: nat, phase: Phase)

  /** `announced` counts the onStream calls per stream; `announcing` are the streams
      whose goroutine runs and whose onStream call is still to come; `closers` are
      the streams whose close function has left the lock and not yet closed its
      link. */
  datatype State = State(
    closed: bool, streams: Table, entries: Entries, workers: Workers,
    closers: set<nat>, announced: map<nat, nat>, announcing: set<nat>, seen: set<nat>, next: nat)

  const EMPTY := State(false, map[], map[], map[], {}, map[], {}, {}, 0)

  datatype Action =
    | Activate(remote: Remote, peer: nat)
    | StartWatch(peer: nat)
    | Announce(entry: nat)
    | ReconnectFailed(peer: nat)
    | ForwardEnd(peer: nat)
    | WatchEnd(peer: nat)
    | TimerFires(entry: nat)
    | CloseStream(entry: nat)
    | CloseLink(entry: nat)
    | CloseListener

  type Table = map<Remote, nat>
  type Entries = map<nat, Entry>
  type Workers = map<nat, Worker>

  predicate InTable(streams: Table, entries: Entries, e: nat)
  {
    e in entries && entries[e].remote in streams && streams[entries[e].remote] == e
  }

  predicate Stored(s: State, e: nat) { InTable(s.streams, s.entries, e) }

  /** Transports are fresh; timers, even stopped ones, may fire at any time. */
  predicate Enabled(s: State, act: Action)
  {
    match act
    case Activate(remote, p) => p !in s.seen && (remote in s.streams ==> s.streams[remote] in s.entries)
    case StartWatch(p) => p in s.workers && s.workers[p].phase.Starting?
    case Announce(e) => e in s.announcing && e in s.announced
    case ReconnectFailed(p) => p in s.workers && s.workers[p].phase == Starting(false)
    case ForwardEnd(p) => p in s.workers && s.workers[p].phase.Forwarding?
    case WatchEnd(p) => p in s.workers && s.workers[p].phase.Ended? && s.workers[p].entry in s.entries
    case TimerFires(e) => e in s.entries
    case CloseStream(e) => e in s.entries
    case CloseLink(e) => e in s.closers && e in s.entries
    case CloseListener => true
  }

  function SetEntry(s: State, e: nat, entry: Entry): (r: State)
  {
    s.(entries := s.entries[e := entry])
  }

  function CreateStream(s: State, remote: Remote, p: nat): (r: State)
  {
    s.(entries := s.entries[s.next := Entry(remote, Link(Some(p), false), Some(p), p)],
       streams := s.streams[remote := s.next],
       workers := s.workers[p := Worker(s.next, Starting(true))],
       announced := s.announced[s.next := 0],
       seen := s.seen + {p},
       next := s.next + 1)
  }

  /** A replacement transport is bound to an existing, detached stream. */
  function Rebind(s: State, e: nat, p: nat, link: Link): (r: State)
    requires e in s.entries
  {
    SetEntry(s, e, s.entries[e].(link := link, peer := Some(p)))
    .(workers := s.workers[p := Worker(e, Starting(false))], seen := s.seen + {p})
  }

  function DoActivate(s: State, remote: Remote, p: nat): (r: State)
    requires remote in s.streams ==> s.streams[remote] in s.entries
  {
    if s.closed then s.(seen := s.seen + {p})
    else if remote !in s.streams then CreateStream(s, remote, p)
    else
      var e := s.streams[remote];
      var entry := s.entries[e];
      var (link, ok) := Attached(entry.link, p);
      if entry.peer.Some? || !ok then s.(seen := s.seen + {p})
      else Rebind(s, e, p, link)
  }

  /** The goroutine starts; a new stream is announced after that, concurrently. */
  function DoStartWatch(s: State, p: nat): (r: State)
    requires Enabled(s, StartWatch(p))
  {
    var w := s.workers[p];
    s.(workers := s.workers[p := w.(phase := Forwarding)],
       announcing := if w.phase.isNew then s.announcing + {w.entry} else s.announcing)
  }

  function DoAnnounce(s: State, e: nat): (r: State)
    requires e in s.announced
  {
    s.(announced := s.announced[e := s.announced[e] + 1], announcing := s.announcing - {e})
  }

  function DoWatchEnd(s: State, p: nat): (r: State)
    requires p in s.workers && s.workers[p].entry in s.entries
  {
    var e := s.workers[p].entry;
    var entry := s.entries[e];
    var done := s.(workers := s.workers - {p});
    if !Stored(s, e) || entry.peer != Some(p) then done
    else SetEntry(done, e, entry.(link := Detached(entry.link, p).0, peer := None))
  }

  function Drop(s: State, e: nat): (r: State)
    requires e in s.entries
  {
    s.(streams := s.streams - {s.entries[e].remote})
  }

  function DoTimer(s: State, e: nat): (r: State)
    requires e in s.entries
  {
    if Stored(s, e) && s.entries[e].peer.None?
    then SetEntry(Drop(s, e), e, s.entries[e].(link := ClosedLink(s.entries[e].link)))
    else s
  }

  function DoCloseStream(s: State, e: nat): (r: State)
    requires e in s.entries
  {
    (if Stored(s, e) then Drop(s, e) else s).(closers := s.closers + {e})
  }

  function DoCloseLink(s: State, e: nat): (r: State)
    requires e in s.entries
  {
    SetEntry(s, e, s.entries[e].(link := ClosedLink(s.entries[e].link))).(closers := s.closers - {e})
  }

  /** The entries once every stored stream is shut, except those of `left`. */
  function Emptied(s: State, left: set<Remote>): (r: Entries)
    ensures r.Keys == s.entries.Keys
  {
    map e | e in s.entries ::
      if Stored(s, e) && s.entries[e].remote !in left
      then s.entries[e].(link := ClosedLink(s.entries[e].link)) else s.entries[e]
  }

  function DoCloseListener(s: State): (r: State)
  {
    s.(closed := true, streams := map[], entries := Emptied(s, {}))
  }

  function Apply(s: State, act: Action): (r: State)
    requires Enabled(s, act)
  {
    match act
    case Activate(remote, p) => DoActivate(s, remote, p)
    case StartWatch(p) => DoStartWatch(s, p)
    case Announce(e) => DoAnnounce(s, e)
    case ReconnectFailed(p) => s.(workers := s.workers - {p})
    case ForwardEnd(p) => s.(workers := s.workers[p := s.workers[p].(phase := Ended)])
    case WatchEnd(p) => DoWatchEnd(s, p)
    case TimerFires(e) => DoTimer(s, e)
    case CloseStream(e) => DoCloseStream(s, e)
    case CloseLink(e) => DoCloseLink(s, e)
    case CloseListener => DoCloseListener(s)
  }

  // ------------------------------------------------------------- invariant

  /** Every stored entry belongs to its remote and has an open link that agrees
      with the entry about the attached transport. */
  predicate TableOk(closed: bool, streams: Table, entries: Entries, closers: set<nat>)
  {
    && (closed ==> streams == map[])
    && (forall r | r in streams ::
          && streams[r] in entries
          && entries[streams[r]].remote == r
          && !entries[streams[r]].link.closed
          && entries[streams[r]].link.peer == entries[streams[r]].peer)
    && (forall e | e in closers :: e in entries && !InTable(streams, entries, e))
  }

  /** No transport is attached to two links. */
  predicate LinksOk(entries: Entries, seen: set<nat>)
  {
    && (forall e | e in entries :: entries[e].link.peer.Some? ==> entries[e].link.peer.value in seen)
    && (forall e, d | e in entries && d in entries && e != d ::
          entries[e].link.peer.Some? ==> entries[d].link.peer != entries[e].link.peer)
  }

  /** At most one goroutine per stream, and it serves the attached transport while
      the stream is stored. */
  predicate WorkersOk(streams: Table, entries: Entries, workers: Workers, seen: set<nat>)
  {
    && (forall p | p in workers :: p in seen && workers[p].entry in entries)
    && (forall p | p in workers :: InTable(streams, entries, workers[p].entry) ==>
        entries[workers[p].entry].peer == Some(p))
    && (forall p, q | p in workers && q in workers :: workers[p].entry == workers[q].entry ==> p == q)
  }

  predicate Unannounced(entry: Entry, e: nat, workers: Workers)
  {
    entry.first in workers && workers[entry.first] == Worker(e, Starting(true))
  }

  /** The onStream call of every stream has been made or is still to come, once. */
  predicate AnnouncedOk(entries: Entries, workers: Workers, announced: map<nat, nat>, announcing: set<nat>,
                        seen: set<nat>, next: nat)
  {
    && announced.Keys == entries.Keys && announcing <= entries.Keys
    && (forall e | e in entries :: e < next && entries[e].first in seen)
    && (forall e | e in entries ::
          announced[e] + (if Unannounced(entries[e], e, workers) || e in announcing then 1 else 0) == 1)
    && (forall e | e in announcing :: !Unannounced(entries[e], e, workers))
    && (forall p | p in workers && workers[p].phase == Starting(true) && workers[p].entry in entries ::
          entries[workers[p].entry].first == p)
  }

  predicate Tabled(s: State) { TableOk(s.closed, s.streams, s.entries, s.closers) }
  predicate Linked(s: State) { LinksOk(s.entries, s.seen) }
  predicate Served(s: State) { WorkersOk(s.streams, s.entries, s.workers, s.seen) }
  predicate Counted(s: State) { AnnouncedOk(s.entries, s.workers, s.announced, s.announcing, s.seen, s.next) }

  predicate Inv(s: State)
  {
    Tabled(s) && Linked(s) && Served(s) && Counted(s)
  }

  lemma SameEntries(s: State, t: State)
    requires Inv(s) && t == s.(seen := t.seen) && s.seen <= t.seen
    ensures Inv(t)
  {
  }

  lemma {:induction false} CreateKeepsTable(s: State, remote: Remote, p: nat)
    requires Inv(s) && p !in s.seen && remote !in s.streams && !s.closed
    ensures Tabled(CreateStream(s, remote, p))
  {
    assert s.next !in s.entries;
  }

  lemma {:induction false} CreateKeepsLinks(s: State, remote: Remote, p: nat)
    requires Inv(s) && p !in s.seen
    ensures Linked(CreateStream(s, remote, p))
  {
    assert s.next !in s.entries;
  }

  lemma {:induction false} CreateKeepsWorkers(s: State, remote: Remote, p: nat)
    requires Inv(s) && p !in s.seen && remote !in s.streams
    ensures Served(CreateStream(s, remote, p))
  {
    assert s.next !in s.entries && p !in s.workers;
  }

  lemma {:induction false} CreateKeepsAnnounced(s: State, remote: Remote, p: nat)
    requires Inv(s) && p !in s.seen && remote !in s.streams
    ensures Counted(CreateStream(s, remote, p))
  {
    assert s.next !in s.entries && p !in s.workers;
  }

  /** The same streams, whose links may have lost their transport. */
  predicate Loosened(a: Entries, b: Entries)
  {
    && a.Keys == b.Keys
    && (forall e | e in a :: b[e].remote == a[e].remote && b[e].first == a[e].first)
    && (forall e | e in a :: b[e].link.peer.None? || b[e].link == a[e].link)
  }

  lemma LoosenedCounted(a: Entries, b: Entries, s: State)
    requires a.Keys == b.Keys && (forall e | e in a :: b[e].first == a[e].first)
    requires AnnouncedOk(a, s.workers, s.announced, s.announcing, s.seen, s.next)
    ensures AnnouncedOk(b, s.workers, s.announced, s.announcing, s.seen, s.next)
  {
  }

  lemma {:induction false} LoosenedServed(a: Entries, b: Entries, s: State)
    requires a.Keys == b.Keys && (forall e | e in a :: b[e].remote == a[e].remote && b[e].peer == a[e].peer)
    requires WorkersOk(s.streams, a, s.workers, s.seen)
    ensures WorkersOk(s.streams, b, s.workers, s.seen)
  {
    assert forall e | e in a :: InTable(s.streams, b, e) == InTable(s.streams, a, e);
  }

  lemma LoosenedLinked(a: Entries, b: Entries, seen: set<nat>)
    requires Loosened(a, b) && LinksOk(a, seen)
    ensures LinksOk(b, seen)
  {
  }

  lemma RebindKeepsTable(s: State, e: nat, p: nat)
    requires Inv(s) && p !in s.seen && Stored(s, e)
    ensures Tabled(Rebind(s, e, p, Link(Some(p), false))) && Linked(Rebind(s, e, p, Link(Some(p), false)))
  {
  }

  lemma {:induction false} RebindKeepsWorkers(s: State, e: nat, p: nat)
    requires Inv(s) && p !in s.seen && Stored(s, e) && s.entries[e].peer.None?
    ensures Served(Rebind(s, e, p, Link(Some(p), false)))
  {
    assert forall q | q in s.workers :: s.workers[q].entry != e;
  }

  lemma {:induction false} RebindKeepsCounted(s: State, e: nat, p: nat)
    requires Inv(s) && p !in s.seen && e in s.entries
    ensures Counted(Rebind(s, e, p, Link(Some(p), false)))
  {
    WorkerAddedCounted(s, e, p);
    var t := s.(workers := s.workers[p := Worker(e, Starting(false))], seen := s.seen + {p});
    LoosenedCounted(t.entries, Rebind(s, e, p, Link(Some(p), false)).entries, t);
  }

  lemma WorkerAddedCounted(s: State, e: nat, p: nat)
    requires Counted(s) && p !in s.seen
    ensures Counted(s.(workers := s.workers[p := Worker(e, Starting(false))], seen := s.seen + {p}))
  {
  }

  lemma WorkerGone(s: State, p: nat)
    requires Inv(s) && p in s.workers && s.workers[p].phase != Starting(true)
    ensures Inv(s.(workers := s.workers - {p}))
  {
  }

  lemma StartWatchCounted(s: State, p: nat)
    requires Inv(s) && Enabled(s, StartWatch(p))
    ensures Counted(DoStartWatch(s, p))
  {
  }

  lemma AnnounceCounted(s: State, e: nat)
    requires Inv(s) && Enabled(s, Announce(e))
    ensures Counted(DoAnnounce(s, e))
  {
  }

  lemma PhaseKeepsServed(s: State, p: nat, phase: Phase)
    requires Inv(s) && p in s.workers
    ensures WorkersOk(s.streams, s.entries, s.workers[p := s.workers[p].(phase := phase)], s.seen)
  {
  }

  lemma ForwardEndCounted(s: State, p: nat)
    requires Inv(s) && Enabled(s, ForwardEnd(p))
    ensures Counted(s.(workers := s.workers[p := s.workers[p].(phase := Ended)]))
  {
  }

  function Unbound(s: State, e: nat): (r: State)
    requires e in s.entries
  {
    SetEntry(s, e, s.entries[e].(link := Link(None, false), peer := None))
  }

  /** A stored stream whose goroutine has gone loses its transport. */
  lemma {:induction false} UnbindKeeps(s: State, e: nat, p: nat)
    requires Inv(s) && Stored(s, e) && s.entries[e].peer == Some(p) && p !in s.workers
    ensures Inv(Unbound(s, e))
  {
    LoosenedCounted(s.entries, Unbound(s, e).entries, s);
    LoosenedLinked(s.entries, Unbound(s, e).entries, s.seen);
    UnbindServed(s, e, p);
    UnbindTabled(s, e);
  }

  lemma {:induction false} UnbindServed(s: State, e: nat, p: nat)
    requires Served(s) && Stored(s, e) && s.entries[e].peer == Some(p) && p !in s.workers
    ensures Served(Unbound(s, e))
  {
    assert forall q | q in s.workers :: s.workers[q].entry != e;
  }

  lemma UnbindTabled(s: State, e: nat)
    requires Tabled(s) && Stored(s, e)
    ensures Tabled(Unbound(s, e))
  {
  }

  lemma DropKeeps(s: State, e: nat)
    requires Inv(s) && Stored(s, e)
    ensures Inv(Drop(s, e)) && !Stored(Drop(s, e), e)
  {
  }

  lemma {:induction false} CloseStreamKeeps(s: State, e: nat)
    requires Inv(s) && e in s.entries
    ensures Inv(DoCloseStream(s, e))
  {
    if Stored(s, e) { DropKeeps(s, e); }
  }

  function Shut(s: State, e: nat): (r: State)
    requires e in s.entries
  {
    SetEntry(s, e, s.entries[e].(link := ClosedLink(s.entries[e].link)))
  }

  /** Closing the link of a stream that is no longer stored. */
  lemma {:induction false} ShutKeeps(s: State, e: nat)
    requires Inv(s) && e in s.entries && !Stored(s, e)
    ensures Inv(Shut(s, e))
  {
    LoosenedCounted(s.entries, Shut(s, e).entries, s);
    LoosenedLinked(s.entries, Shut(s, e).entries, s.seen);
    LoosenedServed(s.entries, Shut(s, e).entries, s);
    ShutTabled(s, e);
  }

  lemma {:induction false} ShutTabled(s: State, e: nat)
    requires Tabled(s) && e in s.entries && !Stored(s, e)
    ensures Tabled(Shut(s, e))
  {
    assert forall r | r in s.streams :: s.streams[r] != e;
  }

  lemma EmptyServed(b: Entries, s: State)
    requires Served(s) && b.Keys == s.entries.Keys
    ensures WorkersOk(map[], b, s.workers, s.seen)
  {
  }

  lemma EmptiedLoosens(s: State)
    ensures Loosened(s.entries, Emptied(s, {}))
  {
  }

  lemma {:induction false} CloseListenerKeeps(s: State)
    requires Inv(s)
    ensures Inv(DoCloseListener(s))
  {
    var t := DoCloseListener(s);
    EmptiedLoosens(s);
    LoosenedCounted(s.entries, t.entries, s);
    LoosenedLinked(s.entries, t.entries, s.seen);
    EmptyServed(t.entries, s);
    assert Tabled(t);
  }

  lemma {:induction false} ActivateKeeps(s: State, remote: Remote, p: nat)
    requires Inv(s) && Enabled(s, Activate(remote, p))
    ensures Inv(DoActivate(s, remote, p))
  {
    if s.closed {
      SameEntries(s, s.(seen := s.seen + {p}));
    } else if remote !in s.streams {
      CreateKeepsTable(s, remote, p);
      CreateKeepsLinks(s, remote, p);
      CreateKeepsWorkers(s, remote, p);
      CreateKeepsAnnounced(s, remote, p);
    } else if s.entries[s.streams[remote]].peer.Some? {
      SameEntries(s, s.(seen := s.seen + {p}));
    } else {
      var e := s.streams[remote];
      RebindKeepsTable(s, e, p);
      RebindKeepsWorkers(s, e, p);
      RebindKeepsCounted(s, e, p);
    }
  }

  lemma {:induction false} WatchEndKeeps(s: State, p: nat)
    requires Inv(s) && Enabled(s, WatchEnd(p))
    ensures Inv(DoWatchEnd(s, p))
  {
    var e := s.workers[p].entry;
    var done := s.(workers := s.workers - {p});
    WorkerGone(s, p);
    if Stored(s, e) && s.entries[e].peer == Some(p) {
      UnbindKeeps(done, e, p);
      assert DoWatchEnd(s, p) == Unbound(done, e);
    }
  }

  /** Every action keeps the invariant. */
  lemma {:induction false} StepKeepsInv(s: State, act: Action)
    requires Inv(s) && Enabled(s, act)
    ensures Inv(Apply(s, act))
  {
    match act {
      case Activate(remote, p) => ActivateKeeps(s, remote, p);
      case StartWatch(p) =>
        PhaseKeepsServed(s, p, Forwarding);
        StartWatchCounted(s, p);
      case Announce(e) => AnnounceCounted(s, e);
      case ReconnectFailed(p) => WorkerGone(s, p);
      case ForwardEnd(p) =>
        PhaseKeepsServed(s, p, Ended);
        ForwardEndCounted(s, p);
      case WatchEnd(p) => WatchEndKeeps(s, p);
      case TimerFires(e) =>
        if Stored(s, e) && s.entries[e].peer.None? {
          DropKeeps(s, e);
          ShutKeeps(Drop(s, e), e);
        }
      case CloseStream(e) => CloseStreamKeeps(s, e);
      case CloseLink(e) => ShutKeeps(s, e);
      case CloseListener => CloseListenerKeeps(s);
    }
  }
}
