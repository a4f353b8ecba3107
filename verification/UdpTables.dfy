/** The association table of StartLocalUDPForward (session/udp.go). */
module UdpTables {

  const MAX_ASSOCIATIONS := 256

  /** The goroutine of an association opens a stream, serves it, closes it and only
      then removes the association. */
  datatype Phase = Opening | Open | Closed

  datatype Worker = Worker(key: string, phase: Phase)

  datatype State = State(table: map<string, nat>, workers: map<nat, Worker>, next: nat)

  const EMPTY := State(map[], map[], 0)

  datatype Action =
    | Packet(key: string)
    | StreamOpened(id: nat) | OpenFailed(id: nat) | StreamClosed(id: nat)
    | Remove(id: nat)

  predicate Enabled(s: State, act: Action)
  {
    match act
    case Packet(_) => true
    case StreamOpened(id) => id in s.workers && s.workers[id].phase.Opening?
    case OpenFailed(id) => id in s.workers && s.workers[id].phase.Opening?
    case StreamClosed(id) => id in s.workers && s.workers[id].phase.Open?
    case Remove(id) => id in s.workers && s.workers[id].phase.Closed?
  }

  function Advance(s: State, id: nat, phase: Phase): (r: State)
    requires id in s.workers
  {
    s.(workers := s.workers[id := s.workers[id].(phase := phase)])
  }

  function DoPacket(s: State, key: string): (r: State)
  {
    if key in s.table || |s.table.Keys| >= MAX_ASSOCIATIONS then s
    else State(s.table[key := s.next], s.workers[s.next := Worker(key, Opening)], s.next + 1)
  }

  function DoRemove(s: State, id: nat): (r: State)
    requires id in s.workers
  {
    var key := s.workers[id].key;
    s.(table := if key in s.table && s.table[key] == id then s.table - {key} else s.table,
       workers := s.workers - {id})
  }

  function Apply(s: State, act: Action): (r: State)
    requires Enabled(s, act)
  {
    match act
    case Packet(key) => DoPacket(s, key)
    case StreamOpened(id) => Advance(s, id, Open)
    case OpenFailed(id) => Advance(s, id, Closed)
    case StreamClosed(id) => Advance(s, id, Closed)
    case Remove(id) => DoRemove(s, id)
  }

  /** Goroutines and table slots own each other, and the table is bounded. */
  predicate Inv(s: State)
  {
    && |s.table.Keys| <= MAX_ASSOCIATIONS
    && (forall id | id in s.workers ::
          id < s.next && s.workers[id].key in s.table && s.table[s.workers[id].key] == id)
    && (forall k | k in s.table :: s.table[k] in s.workers && s.workers[s.table[k]].key == k)
  }

  lemma {:induction false} StepKeepsInv(s: State, act: Action)
    requires Inv(s) && Enabled(s, act)
    ensures Inv(Apply(s, act))
  {
  }

  function OpenStreams(s: State): (r: set<nat>) { set id | id in s.workers && s.workers[id].phase.Open? }

  ghost predicate Next(s: State, t: State)
  {
    exists act :: Enabled(s, act) && t == Apply(s, act)
  }

  ghost predicate IsRun(run: seq<State>)
  {
    && run != [] && run[0] == EMPTY
    && forall i | 0 < i < |run| :: Next(run[i - 1], run[i])
  }

  lemma {:induction false} RunKeepsInv(run: seq<State>, i: nat)
    requires IsRun(run) && i < |run|
    ensures Inv(run[i])
  {
    if i > 0 {
      RunKeepsInv(run, i - 1);
      assert Next(run[i - 1], run[i]);
      var act :| Enabled(run[i - 1], act) && run[i] == Apply(run[i - 1], act);
      StepKeepsInv(run[i - 1], act);
    }
  }

  /** Goroutines are no more than the sources they own slots for. */
  lemma {:induction false} OwnersBound(ids: set<nat>, s: State, keys: set<string>)
    requires forall id | id in ids :: id in s.workers && s.workers[id].key in keys
    requires forall a, b | a in ids && b in ids && s.workers[a].key == s.workers[b].key :: a == b
    ensures |ids| <= |keys|
    decreases |ids|
  {
    if ids != {} {
      var id :| id in ids;
      OwnersBound(ids - {id}, s, keys - {s.workers[id].key});
    }
  }

  /** In every interleaving a source has at most one open stream, and at most 256
      are open in total. */
  lemma {:induction false} OpenStreamsBounded(run: seq<State>, i: nat)
    requires IsRun(run) && i < |run|
    ensures |OpenStreams(run[i])| <= 256
    ensures forall a, b | a in OpenStreams(run[i]) && b in OpenStreams(run[i]) ::
              run[i].workers[a].key == run[i].workers[b].key ==> a == b
  {
    RunKeepsInv(run, i);
    OwnersBound(OpenStreams(run[i]), run[i], run[i].table.Keys);
  }

  /** The table and its goroutines as the forwarder updates them. */
  class UdpTable {
    var table: map<string, nat>
    var workers: map<nat, Worker>
    var next: nat

    function Now(): (s: State)
      reads this
    {
      State(table, workers, next)
    }

    constructor ()
      ensures Now() == EMPTY && Inv(Now())
    {
      table, workers, next := map[], map[], 0;
    }

    /** The association for a datagram's source; None when the table is full. */
    method Lookup(key: string) returns (known: bool, id: nat)
      requires Inv(Now())
      modifies this
      ensures Now() == DoPacket(old(Now()), key) && Inv(Now())
      ensures known <==> key in table
      ensures known ==> id == table[key]
      ensures known <==> key in old(table) || |old(table).Keys| < 256
      ensures key in old(table) || !known ==> unchanged(this)
      ensures known && key !in old(table) ==>
                && id !in old(workers) && table == old(table)[key := id]
                && workers == old(workers)[id := Worker(key, Opening)]
    {
      StepKeepsInv(Now(), Packet(key));
      if key in table {
        return true, table[key];
      }
      if |table.Keys| >= MAX_ASSOCIATIONS {
        return false, 0;
      }
      table := table[key := next];
      workers := workers[next := Worker(key, Opening)];
      next := next + 1;
      return true, next - 1;
    }

    method RemoveSelf(id: nat)
      requires Inv(Now()) && Enabled(Now(), Remove(id))
      modifies this
      ensures Now() == DoRemove(old(Now()), id) && Inv(Now())
      ensures id !in table.Values && workers == old(workers) - {id}
      ensures forall k | k in old(table) && old(table)[k] != id :: k in table && table[k] == old(table)[k]
    {
      StepKeepsInv(Now(), Remove(id));
      var key := workers[id].key;
      if key in table && table[key] == id {
        table := table - {key};
      }
      workers := workers - {id};
    }
  }
}
