/** Whole sync-free runs of the scheduler with its ten workers: conservation of results, confluence
    of runs, and the exact place where confluence stops. */
module Pool {
  import opened Models
  import opened Seqs
  import opened SchedulerState
  import opened Confluence
  import opened Timing

  // ---------------------------------------------------------------- conservation

  function HeldBy(w: Option<CheckResult>): multiset<CheckResult> {
    if w.Some? then multiset{w.value} else multiset{}
  }

  /** The results that workers hold outside the mutex. */
  function Held(workers: seq<Option<CheckResult>>): multiset<CheckResult> {
    if workers == [] then multiset{} else HeldBy(workers[0]) + Held(workers[1..])
  }

  function Accepted(evs: seq<Event>): multiset<CheckResult> {
    if evs == [] then multiset{}
    else (if evs[0].Push? && evs[0].accepted then multiset{evs[0].result} else multiset{}) + Accepted(evs[1..])
  }

  lemma {:induction false} HeldAfter(workers: seq<Option<CheckResult>>, i: nat, w: Option<CheckResult>)
    requires i < |workers|
    ensures Held(workers[i := w]) + HeldBy(workers[i]) == Held(workers) + HeldBy(w)
  {
    if i == 0 {
      assert workers[0 := w][1..] == workers[1..];
    } else {
      var rest := workers[1..];
      assert workers[i := w] == [workers[0]] + rest[i - 1 := w];
      HeldAfter(rest, i - 1, w);
      Replaced(HeldBy(workers[0]), Held(rest), Held(rest[i - 1 := w]), HeldBy(workers[i]), HeldBy(w));
    }
  }

  lemma {:induction false} HeldAtMost(workers: seq<Option<CheckResult>>)
    ensures |Held(workers)| <= |workers|
  {
    if workers != [] {
      HeldAtMost(workers[1..]);
    }
  }

  /** The results that were accepted and not yet processed. */
  function InPool(s: State): multiset<CheckResult> {
    multiset(s.queue) + Held(s.workers)
  }

  lemma WorkerTakes(workers: seq<Option<CheckResult>>, w: nat, r: CheckResult)
    requires w < |workers| && workers[w].None?
    ensures Held(workers[w := Some(r)]) == Held(workers) + multiset{r}
  {
    HeldAfter(workers, w, Some(r));
    assert Held(workers[w := Some(r)]) + multiset{} == Held(workers[w := Some(r)]);
  }

  lemma WorkerReturns(workers: seq<Option<CheckResult>>, w: nat)
    requires w < |workers| && workers[w].Some?
    ensures Held(workers) == Held(workers[w := None]) + multiset{workers[w].value}
  {
    HeldAfter(workers, w, None);
    assert Held(workers) + multiset{} == Held(workers);
  }

  lemma StepConserves(s: State, ev: Event)
    requires Enabled(s, ev)
    ensures InPool(s) + (if ev.Push? && ev.accepted then multiset{ev.result} else multiset{})
            == InPool(Apply(s, ev)) + (if ev.Process? then multiset{s.workers[ev.worker].value} else multiset{})
  {
    match ev
    case Dequeue(w) =>
      FrontOut(s.queue);
      WorkerTakes(s.workers, w, s.queue[0]);
      Moved(multiset{s.queue[0]}, multiset(s.queue[1..]), Held(s.workers));
    case Process(w) =>
      WorkerReturns(s.workers, w);
    case _ =>
  }

  /** In every reachable state the accepted results are exactly those still queued, those held by a
      worker and those processed. */
  lemma {:induction false} Conservation(s: State, evs: seq<Event>)
    requires ValidRun(s, evs)
    ensures InPool(s) + Accepted(evs) == InPool(Run(s, evs)) + multiset(Processed(s, evs))
    decreases |evs|
  {
    if evs != [] {
      var s', rest := Apply(s, evs[0]), evs[1..];
      StepConserves(s, evs[0]);
      Conservation(s', rest);
      var x := if evs[0].Push? && evs[0].accepted then multiset{evs[0].result} else multiset{};
      var p := if evs[0].Process? then [s.workers[evs[0].worker].value] else [];
      assert Processed(s, evs) == p + Processed(s', rest);
      InSequence(InPool(s), InPool(s'), InPool(Run(s, evs)), x, Accepted(rest), multiset(p), multiset(Processed(s', rest)));
    }
  }

  /** The accepted results in the order of acceptance, and the dequeued ones in the order of dequeueing. */
  function AcceptedInOrder(evs: seq<Event>): seq<CheckResult> {
    if evs == [] then []
    else (if evs[0].Push? && evs[0].accepted then [evs[0].result] else []) + AcceptedInOrder(evs[1..])
  }

  ghost function Dequeued(s: State, evs: seq<Event>): seq<CheckResult>
    requires ValidRun(s, evs)
    decreases |evs|
  {
    if evs == [] then []
    else (if evs[0].Dequeue? then [s.queue[0]] else []) + Dequeued(Apply(s, evs[0]), evs[1..])
  }

  lemma {:induction false} AcceptedIsInOrder(evs: seq<Event>)
    ensures multiset(AcceptedInOrder(evs)) == Accepted(evs)
  {
    if evs != [] {
      AcceptedIsInOrder(evs[1..]);
    }
  }

  /** First in, first out: what was queued and accepted is what was dequeued followed by the queue. */
  lemma {:induction false} FirstInFirstOut(s: State, evs: seq<Event>)
    requires ValidRun(s, evs)
    ensures s.queue + AcceptedInOrder(evs) == Dequeued(s, evs) + Run(s, evs).queue
    decreases |evs|
  {
    if evs == [] {
      assert s.queue + [] == [] + s.queue;
    } else {
      var s', rest := Apply(s, evs[0]), evs[1..];
      FirstInFirstOut(s', rest);
      StepInOrder(s, evs[0], AcceptedInOrder(rest));
      Associative(if evs[0].Dequeue? then [s.queue[0]] else [], Dequeued(s', rest), Run(s, evs).queue);
    }
  }

  lemma StepInOrder(s: State, ev: Event, later: seq<CheckResult>)
    requires Enabled(s, ev)
    ensures s.queue + ((if ev.Push? && ev.accepted then [ev.result] else []) + later) ==
            (if ev.Dequeue? then [s.queue[0]] else []) + (Apply(s, ev).queue + later)
  {
  }

  lemma StepTakes(s: State, ev: Event)
    requires Enabled(s, ev)
    ensures Held(s.workers) + (if ev.Dequeue? then multiset{s.queue[0]} else multiset{})
            == Held(Apply(s, ev).workers) + (if ev.Process? then multiset{s.workers[ev.worker].value} else multiset{})
  {
    match ev
    case Dequeue(w) =>
      WorkerTakes(s.workers, w, s.queue[0]);
    case Process(w) =>
      WorkerReturns(s.workers, w);
    case _ =>
  }

  /** The dequeued results are those held and those processed. */
  lemma {:induction false} TakenOrProcessed(s: State, evs: seq<Event>)
    requires ValidRun(s, evs)
    ensures Held(s.workers) + multiset(Dequeued(s, evs)) == Held(Run(s, evs).workers) + multiset(Processed(s, evs))
    decreases |evs|
  {
    if evs != [] {
      var s', rest := Apply(s, evs[0]), evs[1..];
      StepTakes(s, evs[0]);
      TakenOrProcessed(s', rest);
      var x := if evs[0].Dequeue? then [s.queue[0]] else [];
      var p := if evs[0].Process? then [s.workers[evs[0].worker].value] else [];
      assert Dequeued(s, evs) == x + Dequeued(s', rest) && Processed(s, evs) == p + Processed(s', rest);
      InSequence(Held(s.workers), Held(s'.workers), Held(Run(s, evs).workers),
            multiset(x), multiset(Dequeued(s', rest)), multiset(p), multiset(Processed(s', rest)));
    }
  }

  /** Nothing is overtaken by more than the workers can hold.  When a result is processed, the results
      accepted before it are among the dequeued ones, and of these at most nine are still unprocessed. */
  lemma OvertakenAtMost(s: State, evs: seq<Event>, w: nat)
    requires WellFormed(s) && Held(s.workers) == multiset{} && ValidRun(s, evs) && Enabled(Run(s, evs), Process(w))
    ensures var r, held := Run(s, evs).workers[w].value, Held(Run(s, evs).workers[w := None]);
            && s.queue + AcceptedInOrder(evs) == Dequeued(s, evs) + Run(s, evs).queue
            && multiset(Dequeued(s, evs)) == (held + multiset{r}) + multiset(Processed(s, evs))
            && |held| <= 9
  {
    var workers := Run(s, evs).workers;
    FirstInFirstOut(s, evs);
    TakenOrProcessed(s, evs);
    RunKeepsWellFormed(s, evs);
    WorkerReturns(workers, w);
    HeldAtMost(workers);
    assert Held(s.workers) + multiset(Dequeued(s, evs)) == multiset(Dequeued(s, evs));
  }

  /** At most 5000 results are queued and at most ten are held, always. */
  lemma PoolBounds(s: State, evs: seq<Event>)
    requires WellFormed(s) && ValidRun(s, evs)
    ensures |Run(s, evs).queue| <= 5000 && |Held(Run(s, evs).workers)| <= 10
  {
    RunKeepsWellFormed(s, evs);
    HeldAtMost(Run(s, evs).workers);
  }

  /** A result that was only ever refused is never processed. */
  lemma RefusedIsNeverProcessed(s: State, evs: seq<Event>, r: CheckResult)
    requires ValidRun(s, evs)
    requires r !in InPool(s) && r !in Accepted(evs)
    ensures r !in Processed(s, evs)
  {
    Conservation(s, evs);
    assert (InPool(s) + Accepted(evs))[r] == 0;
    assert multiset(Processed(s, evs))[r] == 0;
  }

  // ---------------------------------------------------------------- confluence of runs

  /** The core without the times of the next checks, which results never look at. */
  function Unarmed(c: Core): Core {
    c.(hosts := map k | k in c.hosts :: c.hosts[k].(nextCheck := 0),
       services := map k | k in c.services :: c.services[k].(nextCheck := 0))
  }

  lemma HandleHostUnarmed(c: Core, key: string, r: CheckResult)
    ensures Unarmed(HandleHost(c, key, r)) == HandleHost(Unarmed(c), key, r)
  {
    var a, b := Unarmed(HandleHost(c, key, r)), HandleHost(Unarmed(c), key, r);
    assert a.hosts == b.hosts;
  }

  lemma HandleServiceUnarmed(c: Core, key: string, r: CheckResult)
    ensures Unarmed(HandleService(c, key, r)) == HandleService(Unarmed(c), key, r)
  {
    var a, b := Unarmed(HandleService(c, key, r)), HandleService(Unarmed(c), key, r);
    assert a.services == b.services;
  }

  lemma HandleUnarmed(c: Core, r: CheckResult)
    ensures Unarmed(Handle(c, r)) == Handle(Unarmed(c), r)
  {
    match Target(r.id)
    case HostEntity(k) => HandleHostUnarmed(c, k, r);
    case ServiceEntity(k) => HandleServiceUnarmed(c, k, r);
  }

  lemma RearmUnarmed(c: Core, e: Entity, now: int)
    requires Configured(c, e)
    ensures Unarmed(Rearmed(c, e, now)) == Unarmed(c)
  {
    var a, b := Unarmed(Rearmed(c, e, now)), Unarmed(c);
    assert a.hosts == b.hosts;
    assert a.services == b.services;
  }

  /** Pops, pushes and the scheduling of the workers leave no trace but the processing order. */
  lemma {:induction false} RunIsProcessing(s: State, evs: seq<Event>)
    requires WellFormed(s) && ValidRun(s, evs) && SyncFree(evs)
    ensures Unarmed(Run(s, evs).core) == HandleAll(Unarmed(s.core), Processed(s, evs))
    decreases |evs|
  {
    if evs != [] {
      var ev, s' := evs[0], Apply(s, evs[0]);
      StepKeepsWellFormed(s, ev);
      RunIsProcessing(s', evs[1..]);
      if ev.Process? {
        HandleUnarmed(s.core, s.workers[ev.worker].value);
        assert Processed(s, evs)[1..] == Processed(s', evs[1..]);
      } else {
        assert Processed(s, evs) == Processed(s', evs[1..]);
        if ev.Pop? && ev.served.Some? {
          RearmUnarmed(s.core, ev.served.value, ev.now);
        }
      }
    }
  }

  lemma {:induction false} SyncFreeKeeps(evs: seq<Event>, e: Entity)
    requires SyncFree(evs)
    ensures Keeps(evs, e)
  {
    if evs != [] {
      SyncFreeKeeps(evs[1..], e);
    }
  }

  /** Confluence of the pool: two sync-free runs from one state whose workers get to the results in
      orders that agree per ID, and that served every entity at the same times, end the same. */
  lemma RunsAgree(s: State, a: seq<Event>, b: seq<Event>)
    requires WellFormed(s) && ValidRun(s, a) && ValidRun(s, b) && SyncFree(a) && SyncFree(b)
    requires SameOrderPerId(Processed(s, a), Processed(s, b))
    ensures SameOutcome(Unarmed(Run(s, a).core), Unarmed(Run(s, b).core))
    ensures (forall e: Entity :: PopTimes(a, e) == PopTimes(b, e)) ==> SameOutcome(Run(s, a).core, Run(s, b).core)
  {
    var x, y := Run(s, a).core, Run(s, b).core;
    RunIsProcessing(s, a);
    RunIsProcessing(s, b);
    OrdersAgree(Unarmed(s.core), Processed(s, a), Processed(s, b));
    AsBeforeUnarming(x);
    AsBeforeUnarming(y);
    if forall e: Entity :: PopTimes(a, e) == PopTimes(b, e) {
      SameNextChecks(s, a, b);
      SameMaps(x, y);
    }
  }

  lemma SameNextChecks(s: State, a: seq<Event>, b: seq<Event>)
    requires WellFormed(s) && ValidRun(s, a) && ValidRun(s, b) && SyncFree(a) && SyncFree(b)
    requires forall e: Entity :: PopTimes(a, e) == PopTimes(b, e)
    ensures forall e :: Configured(s.core, e) ==>
              && Configured(Run(s, a).core, e) && Configured(Run(s, b).core, e)
              && NextCheckOf(Run(s, a).core, e) == NextCheckOf(Run(s, b).core, e)
    ensures Run(s, a).core.hosts.Keys == s.core.hosts.Keys && Run(s, a).core.services.Keys == s.core.services.Keys
  {
    forall e | Configured(s.core, e)
      ensures Configured(Run(s, a).core, e) && Configured(Run(s, b).core, e)
      ensures NextCheckOf(Run(s, a).core, e) == NextCheckOf(Run(s, b).core, e)
    {
      SyncFreeKeeps(a, e);
      SyncFreeKeeps(b, e);
      Pacing(s, a, e);
      Pacing(s, b, e);
    }
    RunIsProcessing(s, a);
    HandleAllKeepsShape(Unarmed(s.core), Processed(s, a));
    assert Run(s, a).core.hosts.Keys == Unarmed(Run(s, a).core).hosts.Keys == Unarmed(s.core).hosts.Keys;
    assert Run(s, a).core.services.Keys == Unarmed(Run(s, a).core).services.Keys == Unarmed(s.core).services.Keys;
  }

  /** Only the maps differ. */
  lemma AsBeforeUnarming(c: Core)
    ensures forall e :: LinesOf(Unarmed(c), e) == LinesOf(c, e) && AlertsOf(Unarmed(c), e) == AlertsOf(c, e)
    ensures Unarmed(c).forwarded == c.forwarded
  {
  }

  lemma SameMaps(x: Core, y: Core)
    requires Unarmed(x).hosts == Unarmed(y).hosts && Unarmed(x).services == Unarmed(y).services
    requires forall e :: Configured(x, e) ==> Configured(y, e) && NextCheckOf(x, e) == NextCheckOf(y, e)
    ensures x.hosts == y.hosts && x.services == y.services
  {
    assert x.hosts.Keys == Unarmed(x).hosts.Keys == Unarmed(y).hosts.Keys == y.hosts.Keys;
    assert x.services.Keys == Unarmed(x).services.Keys == Unarmed(y).services.Keys == y.services.Keys;
    forall k | k in x.hosts ensures x.hosts[k] == y.hosts[k] {
      assert Unarmed(x).hosts[k] == Unarmed(y).hosts[k];
      assert NextCheckOf(x, HostEntity(k)) == NextCheckOf(y, HostEntity(k));
    }
    forall k | k in x.services ensures x.services[k] == y.services[k] {
      assert Unarmed(x).services[k] == Unarmed(y).services[k];
      assert NextCheckOf(x, ServiceEntity(k)) == NextCheckOf(y, ServiceEntity(k));
    }
  }

  // ---------------------------------------------------------------- two runs that overtake

  /** Worker `w` takes and processes `n` results, one after the other. */
  function Steady(w: nat, n: nat): seq<Event> {
    if n == 0 then [] else [Dequeue(w), Process(w)] + Steady(w, n - 1)
  }

  /** Worker `v` takes the result behind the first `i`; while it holds it, worker `w` processes `n` more
      and then takes the next one. */
  function TakeTwo(v: nat, w: nat, i: nat, n: nat): seq<Event> {
    (Steady(v, i) + [Dequeue(v)]) + (Steady(w, n) + [Dequeue(w)])
  }

  lemma OneStep(s: State, ev: Event)
    requires Enabled(s, ev)
    ensures ValidRun(s, [ev]) && Run(s, [ev]) == Apply(s, ev)
  {
    assert [ev][1..] == [];
    assert Run(Apply(s, ev), []) == Apply(s, ev);
  }

  /** One result taken and processed by an idle worker. */
  lemma SteadyStep(s: State, w: nat)
    requires w < |s.workers| && s.workers[w].None? && s.queue != []
    ensures ValidRun(s, [Dequeue(w), Process(w)])
    ensures Run(s, [Dequeue(w), Process(w)]) == s.(core := Handle(s.core, s.queue[0]), queue := s.queue[1..])
  {
    var s' := Apply(s, Dequeue(w));
    OneStep(s, Dequeue(w));
    OneStep(s', Process(w));
    RunBoth(s, [Dequeue(w)], [Process(w)]);
    assert [Dequeue(w)] + [Process(w)] == [Dequeue(w), Process(w)];
    assert Apply(s', Process(w)).workers == s.workers;
  }

  lemma {:induction false} SteadyRun(s: State, w: nat, n: nat)
    requires w < |s.workers| && s.workers[w].None? && n <= |s.queue|
    ensures ValidRun(s, Steady(w, n))
    ensures Run(s, Steady(w, n)) == s.(core := HandleAll(s.core, s.queue[..n]), queue := s.queue[n..])
    decreases n
  {
    if n > 0 {
      SteadyStep(s, w);
      var s' := Run(s, [Dequeue(w), Process(w)]);
      SteadyRun(s', w, n - 1);
      RunBoth(s, [Dequeue(w), Process(w)], Steady(w, n - 1));
      assert s.queue[..n][0] == s.queue[0] && s.queue[..n][1..] == s.queue[1..][..n - 1];
      assert s.queue[1..][n - 1..] == s.queue[n..];
    }
  }

  /** Worker `w` processes `n` results and takes the next one. */
  lemma SteadyAndTake(s: State, w: nat, n: nat)
    requires w < |s.workers| && s.workers[w].None? && n < |s.queue|
    ensures ValidRun(s, Steady(w, n) + [Dequeue(w)])
    ensures Run(s, Steady(w, n) + [Dequeue(w)]) ==
            s.(core := HandleAll(s.core, s.queue[..n]), queue := s.queue[n + 1..],
               workers := s.workers[w := Some(s.queue[n])])
  {
    SteadyRun(s, w, n);
    var s' := Run(s, Steady(w, n));
    OneStep(s', Dequeue(w));
    RunBoth(s, Steady(w, n), [Dequeue(w)]);
    assert s.queue[n..][0] == s.queue[n] && s.queue[n..][1..] == s.queue[n + 1..];
  }

  lemma TwoSteps(s: State, i: nat, j: nat)
    requires i != j && i < |s.workers| && j < |s.workers| && s.workers[i].Some? && s.workers[j].Some?
    ensures ValidRun(s, [Process(i), Process(j)])
    ensures Run(s, [Process(i), Process(j)]).core == HandleAll(s.core, [s.workers[i].value, s.workers[j].value])
  {
    var s' := Apply(s, Process(i));
    OneStep(s, Process(i));
    OneStep(s', Process(j));
    RunBoth(s, [Process(i)], [Process(j)]);
    assert [Process(i)] + [Process(j)] == [Process(i), Process(j)];
    HandleTwo(s.core, s.workers[i].value, s.workers[j].value);
  }

  lemma HandleTwo(c: Core, r: CheckResult, t: CheckResult)
    ensures HandleAll(c, [r, t]) == Handle(Handle(c, r), t)
  {
    assert [r, t][1..] == [t] && [t][1..] == [];
    assert HandleAll(Handle(c, r), [t]) == Handle(Handle(c, r), t);
  }

  /** Two idle workers hold the results at places `i` and `i + 1 + n` of the queue, all others before the
      second one are processed, and then either worker gets the mutex first. */
  lemma TakeTwoRun(s: State, v: nat, w: nat, i: nat, n: nat)
    requires v < |s.workers| && w < |s.workers| && v != w && s.workers[v].None? && s.workers[w].None?
    requires i + 1 + n < |s.queue|
    ensures var front, c := TakeTwo(v, w, i, n), HandleAll(HandleAll(s.core, s.queue[..i]), s.queue[i + 1..][..n]);
            var r, t := s.queue[i], s.queue[i + 1 + n];
            && ValidRun(s, front + [Process(v), Process(w)])
            && ValidRun(s, front + [Process(w), Process(v)])
            && Run(s, front + [Process(v), Process(w)]).core == HandleAll(c, [r, t])
            && Run(s, front + [Process(w), Process(v)]).core == HandleAll(c, [t, r])
  {
    var a, b := Steady(v, i) + [Dequeue(v)], Steady(w, n) + [Dequeue(w)];
    SteadyAndTake(s, v, i);
    var s1 := Run(s, a);
    SteadyAndTake(s1, w, n);
    RunBoth(s, a, b);
    var s2 := Run(s1, b);
    TwoSteps(s2, v, w);
    TwoSteps(s2, w, v);
    RunBoth(s, a + b, [Process(v), Process(w)]);
    RunBoth(s, a + b, [Process(w), Process(v)]);
  }

  /** From every state in which two different results of one configured entity are queued, wherever in
      the queue, and any two workers are idle, there are two runs that differ in nothing but which of two
      workers gets the mutex first, and that end in different maps. */
  lemma OvertakingRuns(s: State, v: nat, w: nat, i: nat, n: nat)
    requires WellFormed(s) && v < |s.workers| && w < |s.workers| && v != w && s.workers[v].None? && s.workers[w].None?
    requires i + 1 + n < |s.queue| && s.queue[i].id == s.queue[i + 1 + n].id && s.queue[i] != s.queue[i + 1 + n]
    requires Known(s.core, s.queue[i])
    ensures var a, b := TakeTwo(v, w, i, n) + [Process(v), Process(w)], TakeTwo(v, w, i, n) + [Process(w), Process(v)];
            && ValidRun(s, a) && ValidRun(s, b)
            && !(Run(s, a).core.hosts == Run(s, b).core.hosts && Run(s, a).core.services == Run(s, b).core.services)
  {
    var c := HandleAll(s.core, s.queue[..i]);
    TakeTwoRun(s, v, w, i, n);
    HandleAllKeepsShape(s.core, s.queue[..i]);
    HandleAllKeepsShape(c, s.queue[i + 1..][..n]);
    OvertakingIff(HandleAll(c, s.queue[i + 1..][..n]), s.queue[i], s.queue[i + 1 + n]);
  }

  /** One such state: the host is reported up and then down, and ends down in one run and up in the other. */
  lemma OvertakingExample() returns (s: State)
    ensures var a, b := [Dequeue(0), Dequeue(1), Process(0), Process(1)], [Dequeue(0), Dequeue(1), Process(1), Process(0)];
            && WellFormed(s) && ValidRun(s, a) && ValidRun(s, b)
            && "db" in Run(s, a).core.hosts && !Run(s, a).core.hosts["db"].isUp
            && "db" in Run(s, b).core.hosts && Run(s, b).core.hosts["db"].isUp
  {
    var db := Host("db", "", "", "ping", "", [], [], None, false, [], true, 0, 0, "");
    var r, t := CheckResult("HOST:db", 0, "ok"), CheckResult("HOST:db", 2, "timeout");
    var c := Core(Options(true, true), map["db" := db], map[], [], [], []);
    s := State(c, [r, t], seq(WORKER_COUNT, _ => None), 0);
    TakeTwoRun(s, 0, 1, 0, 0);
    assert TakeTwo(0, 1, 0, 0) + [Process(0), Process(1)] == [Dequeue(0), Dequeue(1), Process(0), Process(1)];
    assert TakeTwo(0, 1, 0, 0) + [Process(1), Process(0)] == [Dequeue(0), Dequeue(1), Process(1), Process(0)];
    assert HandleAll(HandleAll(c, s.queue[..0]), s.queue[1..][..0]) == c;
    assert "HOST:db"[5..] == "db";
    HandleTwo(c, r, t);
    HandleTwo(c, t, r);
  }

  // ---------------------------------------------------------------- when the order cannot matter

  /** No result is queued or held. */
  predicate Idle(s: State) {
    s.queue == [] && Held(s.workers) == multiset{}
  }

  /** No two of these results carry the same ID. */
  ghost predicate OnePerId(m: multiset<CheckResult>) {
    && (forall r :: r in m ==> m[r] == 1)
    && (forall r, t :: r in m && t in m && r.id == t.id ==> r == t)
  }

  lemma TwoPerId(rs: seq<CheckResult>, id: string)
    requires |Only(rs, ResultId, id)| >= 2
    ensures !OnePerId(multiset(rs))
  {
    var own := Only(rs, ResultId, id);
    var r, t := own[0], own[1];
    OnlyKeys(rs, ResultId, id);
    OnlyCounts(rs, ResultId, id, r);
    OnlyCounts(rs, ResultId, id, t);
    FirstTwo(own);
  }

  lemma FirstTwo(own: seq<CheckResult>)
    requires |own| >= 2
    ensures own[0] in multiset(own) && own[1] in multiset(own)
    ensures own[0] == own[1] ==> multiset(own)[own[0]] >= 2
  {
    assert own == [own[0], own[1]] + own[2..];
    assert multiset(own) == multiset{own[0], own[1]} + multiset(own[2..]);
  }

  /** With one result per ID there is only one order per ID. */
  lemma OnePerIdOrders(a: seq<CheckResult>, b: seq<CheckResult>)
    requires multiset(a) == multiset(b) && OnePerId(multiset(a))
    ensures SameOrderPerId(a, b)
  {
    forall id: string ensures Only(a, ResultId, id) == Only(b, ResultId, id) {
      OnePerIdSame(a, b, id);
    }
  }

  lemma OnePerIdSame(a: seq<CheckResult>, b: seq<CheckResult>, id: string)
    requires multiset(a) == multiset(b) && OnePerId(multiset(a))
    ensures Only(a, ResultId, id) == Only(b, ResultId, id)
  {
    var x, y := Only(a, ResultId, id), Only(b, ResultId, id);
    if |x| >= 2 { TwoPerId(a, id); }
    if |y| >= 2 { TwoPerId(b, id); }
    OnlyOfEqualMultisets(a, b, ResultId, id);
    ShortAndEqual(x, y);
  }

  lemma ShortAndEqual(x: seq<CheckResult>, y: seq<CheckResult>)
    requires |x| <= 1 && |y| <= 1 && multiset(x) == multiset(y)
    ensures x == y
  {
    assert |x| == |multiset(x)| == |multiset(y)| == |y|;
    if |x| == 1 {
      assert x[0] in multiset(y);
    }
  }

  lemma DrainedProcessesAll(s: State, evs: seq<Event>)
    requires Idle(s) && ValidRun(s, evs) && Idle(Run(s, evs))
    ensures multiset(Processed(s, evs)) == Accepted(evs)
  {
    Conservation(s, evs);
    assert InPool(s) + Accepted(evs) == Accepted(evs);
    assert InPool(Run(s, evs)) + multiset(Processed(s, evs)) == multiset(Processed(s, evs));
  }

  /** With one result per ID, any two schedules of the pool that drain the same accepted results end
      in the same state, whatever the workers do. */
  lemma DrainedRunsAgree(s: State, a: seq<Event>, b: seq<Event>)
    requires WellFormed(s) && Idle(s) && ValidRun(s, a) && ValidRun(s, b) && SyncFree(a) && SyncFree(b)
    requires Accepted(a) == Accepted(b) && OnePerId(Accepted(a))
    requires Idle(Run(s, a)) && Idle(Run(s, b))
    ensures SameOutcome(Unarmed(Run(s, a).core), Unarmed(Run(s, b).core))
  {
    DrainedProcessesAll(s, a);
    DrainedProcessesAll(s, b);
    OnePerIdOrders(Processed(s, a), Processed(s, b));
    RunsAgree(s, a, b);
  }
}
