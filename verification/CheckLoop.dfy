/** The loop from a pop through a poller back to the history log: what comes back for an entity is
    bounded by what was handed out. */
module CheckLoop {
  import opened Models
  import opened Seqs
  import opened SchedulerState
  import opened Confluence
  import opened Timing
  import opened Pool
  import opened History
  import opened Poller

  function JobKey(j: Job): (nat, string) { (j.origin, j.task.id) }

  /** The jobs of scheduler `s` with task ID `id` that the poller has in hand. */
  function JobsFor(p: Loop, s: nat, id: string): nat {
    |Only(p.running, JobKey, (s, id))| + if p.waiting.Some? && JobKey(p.waiting.value) == (s, id) then 1 else 0
  }

  /** How many results with ID `id` were accepted. */
  function PushesFor(evs: seq<Event>, id: string): nat {
    |Only(AcceptedInOrder(evs), ResultId, id)|
  }

  /** How many tasks with ID `id` were handed out. */
  function PopsFor(evs: seq<Event>, id: string): nat {
    if evs == [] then 0
    else (if evs[0].Pop? && evs[0].served.Some? && TaskId(evs[0].served.value) == id then 1 else 0) + PopsFor(evs[1..], id)
  }

  /** All results that scheduler `s` gets come from this poller. */
  ghost predicate OwnPushes(acts: seq<Action>, s: nat) {
    forall i :: 0 <= i < |acts| && acts[i].Local? && acts[i].sched == s ==> !acts[i].ev.Push?
  }

  lemma {:induction false} CountsAppend(a: seq<Event>, b: seq<Event>, id: string)
    ensures PopsFor(a + b, id) == PopsFor(a, id) + PopsFor(b, id)
    ensures AcceptedInOrder(a + b) == AcceptedInOrder(a) + AcceptedInOrder(b)
  {
    if a == [] {
      assert a + b == b && AcceptedInOrder(a) == [];
    } else {
      var now := if a[0].Push? && a[0].accepted then [a[0].result] else [];
      assert (a + b)[0] == a[0] && (a + b)[1..] == a[1..] + b;
      CountsAppend(a[1..], b, id);
      Associative(now, AcceptedInOrder(a[1..]), AcceptedInOrder(b));
    }
  }

  lemma PushesAppend(a: seq<Event>, b: seq<Event>, id: string)
    ensures PushesFor(a + b, id) == PushesFor(a, id) + PushesFor(b, id)
  {
    CountsAppend(a, b, id);
    OnlyAppend(AcceptedInOrder(a), AcceptedInOrder(b), ResultId, id);
  }

  lemma OneEvent(ev: Event, id: string)
    ensures PushesFor([ev], id) == if ev.Push? && ev.accepted && ev.result.id == id then 1 else 0
    ensures PopsFor([ev], id) == if ev.Pop? && ev.served.Some? && TaskId(ev.served.value) == id then 1 else 0
  {
    var none: seq<CheckResult> := [];
    assert [ev][1..] == [] && AcceptedInOrder([]) == none;
    if ev.Push? && ev.accepted {
      assert AcceptedInOrder([ev]) == none + [ev.result];
      OnlySnoc(none, ev.result, ResultId, id);
    } else {
      assert AcceptedInOrder([ev]) == none;
    }
  }

  lemma StartedJobs(p: Loop, s: nat, id: string)
    requires p.waiting.Some?
    ensures JobsFor(Started(p), s, id) == JobsFor(p, s, id)
  {
    OnlySnoc(p.running, p.waiting.value, JobKey, (s, id));
  }

  lemma FinishedJobs(p: Loop, j: nat, s: nat, id: string)
    requires j < |p.running| && p.slots > 0
    ensures JobsFor(p, s, id) == JobsFor(Finished(p, j), s, id) + if JobKey(p.running[j]) == (s, id) then 1 else 0
  {
    var a, b := p.running[..j], p.running[j + 1..];
    assert p.running == (a + [p.running[j]]) + b;
    OnlyAppend(a + [p.running[j]], b, JobKey, (s, id));
    OnlySnoc(a, p.running[j], JobKey, (s, id));
    OnlyAppend(a, b, JobKey, (s, id));
  }

  /** One action: a job that is taken in was popped, and a result that is pushed uses up a job. */
  lemma ActJobs(y: System, a: Action, s: nat, id: string)
    requires SystemInv(y) && CanAct(y, a) && s < |y.scheds|
    requires a.Local? && a.sched == s ==> !a.ev.Push?
    ensures JobsFor(Act(y, a).poller, s, id) + PushesFor(SeenIn(y, a, s), id)
            <= JobsFor(y.poller, s, id) + PopsFor(SeenIn(y, a, s), id)
  {
    var none: seq<Event> := [];
    assert PushesFor(none, id) == 0;
    if SeenIn(y, a, s) != none {
      OneEvent(SeenIn(y, a, s)[0], id);
    }
    match a
    case Pull(i, now, served, _) =>
      assert WellFormed(y.scheds[i]);
    case Acquire =>
      StartedJobs(y.poller, s, id);
    case Finish(j, _, _, _, _) =>
      FinishedJobs(y.poller, j, s, id);
    case Local(_, _) =>
  }

  lemma {:induction false} PushesComeFromPops(y: System, acts: seq<Action>, s: nat, id: string)
    requires SystemInv(y) && ValidActs(y, acts) && s < |y.scheds| && OwnPushes(acts, s)
    ensures JobsFor(ActAll(y, acts).poller, s, id) + PushesFor(Seen(y, acts, s), id)
            <= JobsFor(y.poller, s, id) + PopsFor(Seen(y, acts, s), id)
    decreases |acts|
  {
    if acts == [] {
      assert PushesFor([], id) == 0;
    } else {
      var y' := Act(y, acts[0]);
      ActJobs(y, acts[0], s, id);
      ActKeepsInv(y, acts[0]);
      PushesComeFromPops(y', acts[1..], s, id);
      PushesAppend(SeenIn(y, acts[0], s), Seen(y', acts[1..], s), id);
      CountsAppend(SeenIn(y, acts[0], s), Seen(y', acts[1..], s), id);
    }
  }

  // ---------------------------------------------------------------- processed results

  lemma OnlyOfPart<K>(a: seq<CheckResult>, b: seq<CheckResult>, key: CheckResult -> K, k: K)
    requires multiset(a) <= multiset(b)
    ensures |Only(a, key, k)| <= |Only(b, key, k)|
  {
    var x, y := multiset(Only(a, key, k)), multiset(Only(b, key, k));
    forall r: CheckResult ensures x[r] <= y[r] {
      OnlyCounts(a, key, k, r);
      OnlyCounts(b, key, k, r);
    }
    assert y == x + (y - x);
    assert |y| == |x| + |y - x|;
    assert |x| == |Only(a, key, k)| && |y| == |Only(b, key, k)|;
  }

  /** From an idle scheduler on, no more results of an ID are processed than were accepted. */
  lemma ProcessedAtMostPushed(s: State, evs: seq<Event>, id: string)
    requires ValidRun(s, evs) && Idle(s)
    ensures |Only(Processed(s, evs), ResultId, id)| <= PushesFor(evs, id)
  {
    Conservation(s, evs);
    AcceptedIsInOrder(evs);
    assert InPool(s) + Accepted(evs) == Accepted(evs);
    OnlyOfPart(Processed(s, evs), AcceptedInOrder(evs), ResultId, id);
  }

  /** The tasks with the ID of `e`: its own and, for host x, those of a service HOST:x. */
  lemma {:induction false} PopsOf(evs: seq<Event>, e: Entity)
    requires Target(TaskId(e)) == e
    ensures PopsFor(evs, TaskId(e)) ==
            |PopTimes(evs, e)| + if e.HostEntity? then |PopTimes(evs, ServiceEntity(TaskId(e)))| else 0
  {
    if evs != [] {
      PopsOf(evs[1..], e);
      if evs[0].Pop? && evs[0].served.Some? {
        SameTask(evs[0].served.value, e);
      }
    }
  }

  lemma SameTask(x: Entity, e: Entity)
    requires Target(TaskId(e)) == e
    ensures TaskId(x) == TaskId(e) <==> x == e || (e.HostEntity? && x == ServiceEntity(TaskId(e)))
  {
    if x.HostEntity? {
      assert TaskId(x)[5..] == x.id;
    }
    if e.HostEntity? {
      assert TaskId(e)[5..] == e.id;
    }
  }

  /** A scheduler whose results all come from one poller, both starting idle, processes no more results
      for an entity than it handed out tasks of it.  (For host x the tasks of a service HOST:x count too,
      since their results are taken for the host's.) */
  lemma ProcessedAtMostPopped(y: System, acts: seq<Action>, s: nat, e: Entity)
    requires SystemInv(y) && ValidActs(y, acts) && s < |y.scheds| && OwnPushes(acts, s)
    requires y.poller.running == [] && y.poller.waiting.None? && Idle(y.scheds[s])
    ensures ValidRun(y.scheds[s], Seen(y, acts, s))
    ensures var evs := Seen(y, acts, s);
            |ProcessedFor(y.scheds[s], evs, e)| <=
            |PopTimes(evs, e)| + if e.HostEntity? then |PopTimes(evs, ServiceEntity(TaskId(e)))| else 0
  {
    var evs := Seen(y, acts, s);
    SchedulersRun(y, acts, s);
    RoutedById(Processed(y.scheds[s], evs), e);
    if Target(TaskId(e)) == e {
      ProcessedAtMostPushed(y.scheds[s], evs, TaskId(e));
      PushesComeFromPops(y, acts, s, TaskId(e));
      PopsOf(evs, e);
    }
  }

  // ---------------------------------------------------------------- the history log

  lemma {:induction false} FlipsAtMost(e: Entity, level: int, rs: seq<CheckResult>)
    ensures |Flips(e, level, rs)| <= |rs|
    decreases |rs|
  {
    if rs != [] {
      FlipsAtMost(e, Reported(e, rs[0]), rs[1..]);
    }
  }

  /** So in a window of the given length an entity that stays configured adds at most
      max(1, ceil(length / period)) lines to the history log, whatever its checks report. */
  lemma LinesInWindow(y: System, acts: seq<Action>, s: nat, e: Entity, from: int, length: nat)
    requires SystemInv(y) && ValidActs(y, acts) && s < |y.scheds| && OwnPushes(acts, s)
    requires y.poller.running == [] && y.poller.waiting.None? && Idle(y.scheds[s])
    requires Configured(y.scheds[s].core, e) && Keeps(Seen(y, acts, s), e) && Within(Seen(y, acts, s), from, length)
    requires y.scheds[s].core.opts.historyLog
    requires e.HostEntity? ==> PopTimes(Seen(y, acts, s), ServiceEntity(TaskId(e))) == []
    ensures |ActAll(y, acts).scheds| == |y.scheds|
    ensures |NewLines(y.scheds[s].core, ActAll(y, acts).scheds[s].core, e)| <= MostPops(length, Period(e))
  {
    var st, evs := y.scheds[s], Seen(y, acts, s);
    SchedulersRun(y, acts, s);
    ProcessedAtMostPopped(y, acts, s, e);
    EntityHistory(st, evs, e);
    NewLinesAre(st.core, Run(st, evs).core, e, ProcessedFor(st, evs, e));
    FlipsAtMost(e, LevelOf(st.core, e), ProcessedFor(st, evs, e));
    EntityBound(st, evs, e, from, length);
  }
}
