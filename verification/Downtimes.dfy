/** The replicated downtime list (cmd/arbiter/ha.go): a finite state machine driven by an agreed log,
    whose snapshots share the backing array of the live slice. */
module Downtimes {
  import opened Models
  import opened Seqs
  import opened GoSlices

  datatype LogEntry = LogEntry(action: string, data: Downtime)

  /** An entry adds a downtime or, with any other action, does nothing. */
  function Added(ds: seq<Downtime>, e: LogEntry): seq<Downtime> {
    if e.action == "ADD_DT" then ds + [e.data] else ds
  }

  /** The list after the entries of a log, starting from `ds`. */
  function Replay(ds: seq<Downtime>, log: seq<LogEntry>): seq<Downtime> {
    if log == [] then ds else Added(Replay(ds, log[..|log| - 1]), log[|log| - 1])
  }

  /** Replaying a log in two parts is replaying it whole. */
  lemma {:induction false} ReplayParts(ds: seq<Downtime>, a: seq<LogEntry>, b: seq<LogEntry>)
    ensures Replay(ds, a + b) == Replay(Replay(ds, a), b)
  {
    if b == [] {
      assert a + b == a;
    } else {
      assert (a + b)[..|a + b| - 1] == a + b[..|b| - 1];
      ReplayParts(ds, a, b[..|b| - 1]);
    }
  }

  /** The list only ever grows: an earlier state is a prefix of every later one. */
  lemma {:induction false} ReplayGrows(ds: seq<Downtime>, log: seq<LogEntry>)
    ensures ds <= Replay(ds, log)
    ensures |Replay(ds, log)| <= |ds| + |log|
  {
    if log != [] {
      ReplayGrows(ds, log[..|log| - 1]);
    }
  }

  function ActionOf(e: LogEntry): string { e.action }

  function DataOf(log: seq<LogEntry>): seq<Downtime> {
    seq(|log|, i requires 0 <= i < |log| => log[i].data)
  }

  lemma DataSnoc(front: seq<LogEntry>, last: LogEntry)
    ensures DataOf(front + [last]) == DataOf(front) + [last.data]
  {
  }

  /** One more entry. */
  lemma ReplayIsSnoc(ds: seq<Downtime>, front: seq<LogEntry>, last: LogEntry)
    requires Replay(ds, front) == ds + DataOf(Only(front, ActionOf, "ADD_DT"))
    ensures Replay(ds, front + [last]) == ds + DataOf(Only(front + [last], ActionOf, "ADD_DT"))
  {
    var adds := Only(front, ActionOf, "ADD_DT");
    OnlySnoc(front, last, ActionOf, "ADD_DT");
    assert (front + [last])[..|front|] == front;
    if last.action == "ADD_DT" {
      DataSnoc(adds, last);
      Associative(ds, DataOf(adds), [last.data]);
    }
  }

  /** The list after a log is the starting list followed by the data of the log's ADD_DT entries, one each
      and in log order; an entry with any other action adds nothing. */
  lemma {:induction false} ReplayIs(ds: seq<Downtime>, log: seq<LogEntry>)
    ensures Replay(ds, log) == ds + DataOf(Only(log, ActionOf, "ADD_DT"))
  {
    if log == [] {
      assert ds + DataOf([]) == ds;
    } else {
      var front, last := log[..|log| - 1], log[|log| - 1];
      ReplayIs(ds, front);
      ReplayIsSnoc(ds, front, last);
      assert log == front + [last];
    }
  }

  class Fsm {
    var downtimes: Slice<Downtime>
    /** The snapshots handed out so far; each is a copy of the slice, not of its elements. */
    var snapshots: seq<Slice<Downtime>>
    /** What each of them held when it was taken. */
    ghost var taken: seq<seq<Downtime>>

    ghost predicate Valid()
      reads this, downtimes.arr, set s | s in snapshots :: s.arr
    {
      && downtimes.Valid()
      && |taken| == |snapshots|
      && forall i :: 0 <= i < |snapshots| ==>
           && snapshots[i].Valid()
           && snapshots[i].Contents() == taken[i]
           && (snapshots[i].arr == downtimes.arr ==> snapshots[i].len <= downtimes.len)
    }

    ghost function Contents(): seq<Downtime>
      requires downtimes.Valid()
      reads this, downtimes.arr
    {
      downtimes.Contents()
    }

    constructor ()
      ensures Valid() && Contents() == [] && snapshots == [] && fresh(downtimes.arr)
    {
      var nil := new Downtime[0];
      downtimes := Slice(nil, 0);
      snapshots, taken := [], [];
    }

    /** Apply: outstanding snapshots keep what they held, although they may share the array. */
    method Apply(e: LogEntry)
      requires Valid()
      modifies this`downtimes, downtimes.arr
      ensures Valid()
      ensures Contents() == Added(old(Contents()), e)
      ensures downtimes.arr == old(downtimes.arr) || fresh(downtimes.arr)
    {
      if e.action == "ADD_DT" {
        downtimes := Append(downtimes, e.data);
        forall i | 0 <= i < |snapshots| ensures snapshots[i].Contents() == taken[i] {
          if snapshots[i].arr == old(downtimes.arr) {
            assert snapshots[i].arr[..snapshots[i].len] == old(downtimes.arr[..downtimes.len])[..snapshots[i].len];
          }
        }
      }
    }

    method ApplyAll(log: seq<LogEntry>)
      requires Valid()
      modifies this`downtimes, downtimes.arr
      ensures Valid()
      ensures Contents() == Replay(old(Contents()), log)
      ensures downtimes.arr == old(downtimes.arr) || fresh(downtimes.arr)
    {
      for i := 0 to |log|
        invariant Valid()
        invariant Contents() == Replay(old(Contents()), log[..i])
        invariant downtimes.arr == old(downtimes.arr) || fresh(downtimes.arr)
      {
        Apply(log[i]);
        assert log[..i + 1][..i] == log[..i];
      }
      assert log[..|log|] == log;
    }

    /** Snapshot: shares the backing array with the live slice. */
    method Snapshot() returns (i: nat)
      requires Valid()
      modifies this`snapshots, this`taken
      ensures Valid() && Contents() == old(Contents())
      ensures i == |old(snapshots)| && snapshots == old(snapshots) + [downtimes]
      ensures taken == old(taken) + [Contents()]
    {
      i := |snapshots|;
      snapshots, taken := snapshots + [downtimes], taken + [downtimes.Contents()];
    }

    /** Persist, at any time after Snapshot: what is written is what the list was then. */
    method Persist(i: nat) returns (written: seq<Downtime>)
      requires Valid() && i < |snapshots|
      ensures written == taken[i]
    {
      written := snapshots[i].arr[..snapshots[i].len];
    }

    /** Restore: the decoded list replaces the live slice. */
    method Restore(decoded: seq<Downtime>)
      requires Valid()
      modifies this`downtimes
      ensures Valid() && Contents() == decoded && fresh(downtimes.arr)
      ensures snapshots == old(snapshots) && taken == old(taken)
    {
      var arr := new Downtime[|decoded|](i requires 0 <= i < |decoded| => decoded[i]);
      downtimes := Slice(arr, |decoded|);
      assert arr[..|decoded|] == decoded;
    }
  }

  /** A node takes a snapshot after `early`, applies `late`, and only then persists the snapshot. */
  method PersistLate(node: Fsm, early: seq<LogEntry>, late: seq<LogEntry>) returns (written: seq<Downtime>)
    requires node.Valid() && node.Contents() == []
    modifies node, node.downtimes.arr
    ensures written == Replay([], early)
    ensures node.Valid() && node.Contents() == Replay([], early + late)
    ensures node.downtimes.arr == old(node.downtimes.arr) || fresh(node.downtimes.arr)
    ensures forall s :: s in node.snapshots ==>
              s in old(node.snapshots) || s.arr == old(node.downtimes.arr) || fresh(s.arr)
  {
    node.ApplyAll(early);
    var i := node.Snapshot();
    node.ApplyAll(late);
    written := node.Persist(i);
    ReplayParts([], early, late);
  }

  /** A node restores a written snapshot and replays the rest of the log. */
  method RestoreAndReplay(node: Fsm, written: seq<Downtime>, late: seq<LogEntry>)
    requires node.Valid()
    modifies node, node.downtimes.arr
    ensures node.Valid() && node.Contents() == Replay(written, late)
  {
    node.Restore(written);
    node.ApplyAll(late);
  }

  /** Snapshot isolation and replay.  The node takes a snapshot after `early`, applies `late` while the
      snapshot is still unwritten, and only then persists it; another node restores what was written and
      replays `late`.  Both end with the list that the whole log gives. */
  method CatchUp(node: Fsm, other: Fsm, early: seq<LogEntry>, late: seq<LogEntry>)
    returns (written: seq<Downtime>)
    requires node.Valid() && other.Valid() && node != other && node.Contents() == []
    requires node.downtimes.arr != other.downtimes.arr
    requires forall s :: s in other.snapshots ==> s.arr != node.downtimes.arr
    requires forall s :: s in node.snapshots ==> s.arr != other.downtimes.arr
    modifies node, other, node.downtimes.arr, other.downtimes.arr
    ensures written == Replay([], early)
    ensures node.Valid() && node.Contents() == Replay([], early + late)
    ensures other.Valid() && other.Contents() == Replay([], early + late)
  {
    written := PersistLate(node, early, late);
    RestoreAndReplay(other, written, late);
    ReplayParts([], early, late);
  }
}
