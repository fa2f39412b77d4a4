/** One poller (cmd/poller/main.go) together with the schedulers it polls.  The polling loop holds at
    most one pulled task while it waits for a semaphore slot; running tasks finish in any order, and any
    request may be lost on the network. */
module Poller {
  import opened Models
  import opened Seqs
  import Linter
  import opened SchedulerState
  import opened Confluence

  /** A pulled task: where it came from, the task, and (for the statements below) which entity's pop
      issued it. */
  datatype Job = Job(origin: nat, task: CheckTask, issuer: Entity)

  /** `slots` is the number of elements in the semaphore channel. */
  datatype Loop = Loop(maxConcurrent: nat, waiting: Option<Job>, running: seq<Job>, slots: nat)

  datatype System = System(scheds: seq<State>, poller: Loop)

  datatype Action =
    | Pull(sched: nat, now: int, served: Option<Entity>, delivered: bool)
    | Acquire
    | Finish(job: nat, status: int, output: string, delivered: bool, accepted: bool)
    | Local(sched: nat, ev: Event)

  /** The scheduler step of a pull, and of the push at the end of a task. */
  function PullEvent(a: Action): Event
    requires a.Pull?
  {
    Pop(a.now, a.served)
  }

  function ResultOf(j: Job, a: Action): CheckResult
    requires a.Finish?
  {
    CheckResult(j.task.id, a.status, a.output)
  }

  ghost predicate CanAct(y: System, a: Action) {
    match a
    case Pull(s, now, served, _) =>
      y.poller.waiting.None? && s < |y.scheds| && Enabled(y.scheds[s], Pop(now, served))
    case Acquire =>
      y.poller.waiting.Some? && y.poller.slots < y.poller.maxConcurrent
    case Finish(j, _, _, delivered, accepted) =>
      && j < |y.poller.running| && y.poller.slots > 0
      && var job := y.poller.running[j];
         delivered ==> job.origin < |y.scheds| && Enabled(y.scheds[job.origin], Push(ResultOf(job, a), accepted))
    case Local(s, ev) =>
      s < |y.scheds| && Enabled(y.scheds[s], ev)
  }

  /** What an action does to the poller ... */
  function LoopAfter(y: System, a: Action): Loop
    requires a.Pull? && a.served.Some? && a.delivered ==> a.sched < |y.scheds| && Configured(y.scheds[a.sched].core, a.served.value)
    requires a.Acquire? ==> y.poller.waiting.Some?
    requires a.Finish? ==> a.job < |y.poller.running| && y.poller.slots > 0
  {
    match a
    case Pull(s, _, served, delivered) =>
      if served.Some? && delivered
      then Pulled(y.poller, Job(s, TaskOf(y.scheds[s].core, served.value), served.value))
      else y.poller
    case Acquire => Started(y.poller)
    case Finish(j, _, _, _, _) => Finished(y.poller, j)
    case Local(_, _) => y.poller
  }

  /** ... and to the schedulers. */
  ghost function SchedsAfter(y: System, a: Action): seq<State>
    requires CanAct(y, a)
  {
    match a
    case Pull(s, now, served, _) => y.scheds[s := Apply(y.scheds[s], Pop(now, served))]
    case Acquire => y.scheds
    case Finish(j, _, _, delivered, accepted) =>
      var job := y.poller.running[j];
      if delivered then y.scheds[job.origin := Apply(y.scheds[job.origin], Push(ResultOf(job, a), accepted))]
      else y.scheds
    case Local(s, ev) => y.scheds[s := Apply(y.scheds[s], ev)]
  }

  ghost function Act(y: System, a: Action): System
    requires CanAct(y, a)
  {
    System(SchedsAfter(y, a), LoopAfter(y, a))
  }

  // ---------------------------------------------------------------- the loop on its own

  function Pulled(p: Loop, j: Job): Loop {
    p.(waiting := Some(j))
  }

  function Started(p: Loop): Loop
    requires p.waiting.Some?
  {
    p.(waiting := None, running := p.running + [p.waiting.value], slots := p.slots + 1)
  }

  function Finished(p: Loop, j: nat): Loop
    requires j < |p.running| && p.slots > 0
  {
    p.(running := p.running[..j] + p.running[j + 1..], slots := p.slots - 1)
  }

  /** The polling goroutine and the task goroutines it starts. */
  class Process {
    const maxConcurrent: nat
    var waiting: Option<Job>
    var running: seq<Job>
    var slots: nat

    constructor (maxConcurrent: nat)
      ensures View() == Loop(maxConcurrent, None, [], 0)
    {
      this.maxConcurrent := maxConcurrent;
      waiting, running, slots := None, [], 0;
    }

    function View(): Loop
      reads this
    {
      Loop(maxConcurrent, waiting, running, slots)
    }

    /** pullTaskFromURL returned; an error is skipped silently. */
    method TaskPulled(answer: Option<Job>)
      requires waiting.None?
      modifies this`waiting
      ensures View() == if answer.Some? then Pulled(old(View()), answer.value) else old(View())
    {
      if answer.Some? {
        waiting := answer;
      }
    }

    /** The blocking send on the semaphore channel, once it can proceed, and the go statement. */
    method AcquireSlot()
      requires waiting.Some? && slots < maxConcurrent
      modifies this
      ensures View() == Started(old(View()))
    {
      slots := slots + 1;
      running := running + [waiting.value];
      waiting := None;
    }

    /** The end of a task goroutine: the result of executeTask goes to the origin of the task, and the
        deferred receive frees the slot. */
    method TaskDone(j: nat, status: int, output: string) returns (result: CheckResult, origin: nat)
      requires j < |running| && slots > 0
      modifies this`running, this`slots
      ensures View() == Finished(old(View()), j)
      ensures result == CheckResult(old(running)[j].task.id, status, output) && origin == old(running)[j].origin
    {
      result, origin := CheckResult(running[j].task.id, status, output), running[j].origin;
      running := running[..j] + running[j + 1..];
      slots := slots - 1;
    }
  }

  // ---------------------------------------------------------------- invariants

  /** The semaphore counts the running tasks, and never more than its capacity. */
  ghost predicate LoopInv(p: Loop) {
    p.slots == |p.running| <= p.maxConcurrent
  }

  /** A job names the task of the entity that issued it, on a scheduler that exists. */
  predicate JobOk(j: Job, n: nat) {
    j.origin < n && j.task.id == TaskId(j.issuer)
  }

  ghost predicate SystemInv(y: System) {
    && LoopInv(y.poller)
    && (forall s :: 0 <= s < |y.scheds| ==> WellFormed(y.scheds[s]))
    && (forall j :: j in y.poller.running ==> JobOk(j, |y.scheds|))
    && (y.poller.waiting.Some? ==> JobOk(y.poller.waiting.value, |y.scheds|))
  }

  lemma ActKeepsInv(y: System, a: Action)
    requires SystemInv(y) && CanAct(y, a)
    ensures SystemInv(Act(y, a)) && |Act(y, a).scheds| == |y.scheds|
    ensures Act(y, a).poller.maxConcurrent == y.poller.maxConcurrent
  {
    match a
    case Pull(s, now, served, _) =>
      StepKeepsWellFormed(y.scheds[s], Pop(now, served));
    case Acquire =>
    case Finish(j, _, _, delivered, accepted) =>
      var job := y.poller.running[j];
      if delivered {
        StepKeepsWellFormed(y.scheds[job.origin], Push(ResultOf(job, a), accepted));
      }
    case Local(s, ev) =>
      StepKeepsWellFormed(y.scheds[s], ev);
  }

  ghost predicate ValidActs(y: System, acts: seq<Action>)
    decreases |acts|
  {
    acts == [] || (CanAct(y, acts[0]) && ValidActs(Act(y, acts[0]), acts[1..]))
  }

  ghost function ActAll(y: System, acts: seq<Action>): System
    requires ValidActs(y, acts)
    decreases |acts|
  {
    if acts == [] then y else ActAll(Act(y, acts[0]), acts[1..])
  }

  /** In every reachable state at most maxConcurrent tasks run, besides at most one that was pulled and
      waits for a slot. */
  lemma {:induction false} ConcurrencyBound(y: System, acts: seq<Action>)
    requires SystemInv(y) && ValidActs(y, acts)
    ensures SystemInv(ActAll(y, acts))
    ensures |ActAll(y, acts).poller.running| <= y.poller.maxConcurrent
    ensures |ActAll(y, acts).scheds| == |y.scheds|
    decreases |acts|
  {
    if acts != [] {
      ActKeepsInv(y, acts[0]);
      ConcurrencyBound(Act(y, acts[0]), acts[1..]);
    }
  }

  // ---------------------------------------------------------------- one result per pop

  function InHand(p: Loop): multiset<Job> {
    multiset(p.running) + if p.waiting.Some? then multiset{p.waiting.value} else multiset{}
  }

  /** The jobs that one action takes in, and those whose result it sends. */
  ghost function TakenIn(y: System, a: Action): multiset<Job>
    requires CanAct(y, a)
  {
    if a.Pull? && a.served.Some? && a.delivered
    then multiset{Job(a.sched, TaskOf(y.scheds[a.sched].core, a.served.value), a.served.value)} else multiset{}
  }

  ghost function SentOff(y: System, a: Action): multiset<Job>
    requires CanAct(y, a)
  {
    if a.Finish? then multiset{y.poller.running[a.job]} else multiset{}
  }

  ghost function AllTakenIn(y: System, acts: seq<Action>): multiset<Job>
    requires ValidActs(y, acts)
    decreases |acts|
  {
    if acts == [] then multiset{} else TakenIn(y, acts[0]) + AllTakenIn(Act(y, acts[0]), acts[1..])
  }

  ghost function AllSentOff(y: System, acts: seq<Action>): multiset<Job>
    requires ValidActs(y, acts)
    decreases |acts|
  {
    if acts == [] then multiset{} else SentOff(y, acts[0]) + AllSentOff(Act(y, acts[0]), acts[1..])
  }

  lemma PulledInHand(p: Loop, j: Job)
    requires p.waiting.None?
    ensures InHand(Pulled(p, j)) == InHand(p) + multiset{j}
  {
  }

  lemma StartedInHand(p: Loop)
    requires p.waiting.Some?
    ensures InHand(Started(p)) == InHand(p)
  {
  }

  lemma FinishedInHand(p: Loop, j: nat)
    requires j < |p.running| && p.slots > 0
    ensures InHand(p) == InHand(Finished(p, j)) + multiset{p.running[j]}
  {
    assert p.running == p.running[..j] + [p.running[j]] + p.running[j + 1..];
    assert multiset(p.running) == multiset(p.running[..j] + p.running[j + 1..]) + multiset{p.running[j]};
  }

  lemma PullConserves(y: System, a: Action)
    requires CanAct(y, a) && a.Pull?
    ensures InHand(y.poller) + TakenIn(y, a) == InHand(LoopAfter(y, a)) + SentOff(y, a)
  {
    if a.served.Some? && a.delivered {
      PulledInHand(y.poller, Job(a.sched, TaskOf(y.scheds[a.sched].core, a.served.value), a.served.value));
    }
  }

  lemma FinishConserves(y: System, a: Action)
    requires CanAct(y, a) && a.Finish?
    ensures InHand(y.poller) + TakenIn(y, a) == InHand(LoopAfter(y, a)) + SentOff(y, a)
  {
    FinishedInHand(y.poller, a.job);
    assert TakenIn(y, a) == multiset{};
  }

  lemma ActConserves(y: System, a: Action)
    requires CanAct(y, a)
    ensures InHand(y.poller) + TakenIn(y, a) == InHand(LoopAfter(y, a)) + SentOff(y, a)
  {
    match a
    case Pull(_, _, _, _) =>
      PullConserves(y, a);
    case Acquire =>
      StartedInHand(y.poller);
    case Finish(_, _, _, _, _) =>
      FinishConserves(y, a);
    case Local(_, _) =>
  }

  /** No pop yields more than one result: over any run, the jobs taken in from the pops (and those in
      hand at the start) are exactly the jobs still in hand and those whose single result was sent. */
  lemma {:induction false} OneResultPerPop(y: System, acts: seq<Action>)
    requires ValidActs(y, acts)
    ensures InHand(y.poller) + AllTakenIn(y, acts) == InHand(ActAll(y, acts).poller) + AllSentOff(y, acts)
    decreases |acts|
  {
    if acts != [] {
      var y' := Act(y, acts[0]);
      ActConserves(y, acts[0]);
      OneResultPerPop(y', acts[1..]);
      InSequence(InHand(y.poller), InHand(y'.poller), InHand(ActAll(y, acts).poller),
            TakenIn(y, acts[0]), AllTakenIn(y', acts[1..]), SentOff(y, acts[0]), AllSentOff(y', acts[1..]));
    }
  }

  /** How often a run made scheduler `s` serve entity `e` with task `t`. */
  ghost function TimesIssued(y: System, acts: seq<Action>, j: Job): nat
    requires ValidActs(y, acts)
    decreases |acts|
  {
    if acts == [] then 0
    else
      var a := acts[0];
      (if a.Pull? && a.sched == j.origin && a.served == Some(j.issuer)
          && TaskOf(y.scheds[a.sched].core, j.issuer) == j.task then 1 else 0)
      + TimesIssued(Act(y, a), acts[1..], j)
  }

  /** Each result goes to the scheduler that issued the task, and no more results come back for an
      entity's task than that scheduler issued. */
  lemma {:induction false} IssuedByOrigin(y: System, acts: seq<Action>, j: Job)
    requires ValidActs(y, acts)
    ensures AllTakenIn(y, acts)[j] <= TimesIssued(y, acts, j)
    decreases |acts|
  {
    if acts != [] {
      IssuedByOrigin(Act(y, acts[0]), acts[1..], j);
    }
  }

  lemma ResultsComeFromPops(y: System, acts: seq<Action>, j: Job)
    requires ValidActs(y, acts) && InHand(y.poller) == multiset{}
    ensures AllSentOff(y, acts)[j] <= TimesIssued(y, acts, j)
  {
    OneResultPerPop(y, acts);
    IssuedByOrigin(y, acts, j);
    assert (InHand(y.poller) + AllTakenIn(y, acts))[j] == AllTakenIn(y, acts)[j];
  }

  // ---------------------------------------------------------------- what a scheduler sees

  /** The steps that scheduler `s` takes in an action: a pull is a pop there, and a result that arrives
      is a push at the origin of its task. */
  ghost function SeenIn(y: System, a: Action, s: nat): seq<Event>
    requires CanAct(y, a)
  {
    match a
    case Pull(i, _, _, _) => if i == s then [PullEvent(a)] else []
    case Acquire => []
    case Finish(j, _, _, delivered, accepted) =>
      var job := y.poller.running[j];
      if delivered && job.origin == s then [Push(ResultOf(job, a), accepted)] else []
    case Local(i, ev) => if i == s then [ev] else []
  }

  ghost function Seen(y: System, acts: seq<Action>, s: nat): seq<Event>
    requires ValidActs(y, acts)
    decreases |acts|
  {
    if acts == [] then [] else SeenIn(y, acts[0], s) + Seen(Act(y, acts[0]), acts[1..], s)
  }

  lemma ActIsStep(y: System, a: Action, s: nat)
    requires CanAct(y, a) && s < |y.scheds|
    ensures |Act(y, a).scheds| == |y.scheds| && |SeenIn(y, a, s)| <= 1
    ensures SeenIn(y, a, s) == [] ==> Act(y, a).scheds[s] == y.scheds[s]
    ensures SeenIn(y, a, s) != [] ==>
              Enabled(y.scheds[s], SeenIn(y, a, s)[0]) && Act(y, a).scheds[s] == Apply(y.scheds[s], SeenIn(y, a, s)[0])
  {
  }

  /** Every scheduler of the system makes a run of its own machine, with exactly the pops, pushes and
      other steps meant for it: what holds of scheduler runs holds here. */
  lemma {:induction false} SchedulersRun(y: System, acts: seq<Action>, s: nat)
    requires ValidActs(y, acts) && s < |y.scheds|
    ensures |ActAll(y, acts).scheds| == |y.scheds|
    ensures ValidRun(y.scheds[s], Seen(y, acts, s))
    ensures Run(y.scheds[s], Seen(y, acts, s)) == ActAll(y, acts).scheds[s]
    decreases |acts|
  {
    if acts != [] {
      var y' := Act(y, acts[0]);
      ActIsStep(y, acts[0], s);
      SchedulersRun(y', acts[1..], s);
      var now, rest := SeenIn(y, acts[0], s), Seen(y', acts[1..], s);
      if now == [] {
        assert Seen(y, acts, s) == rest;
      } else {
        assert Seen(y, acts, s) == [now[0]] + rest;
        assert Seen(y, acts, s)[1..] == rest;
      }
    }
  }

  // ---------------------------------------------------------------- the way back

  /** Routing a task's result finds the entity that issued the task exactly when that is a host or a
      service whose ID does not start with HOST:. */
  lemma RoutedBackIff(e: Entity)
    ensures Target(TaskId(e)) == e <==> e.HostEntity? || !("HOST:" <= e.id)
  {
    if e.HostEntity? {
      assert TaskId(e)[5..] == e.id;
    }
  }

  /** A configuration in which it goes wrong: service HOST:x on host x. */
  function PrefixedConfig(): GlobalConfig {
    GlobalConfig([], [], [],
                 [Host("x", "", "", "ping", "", [], [], None, false, [], false, 0, 0, "")],
                 [Service("HOST:x", "", "x", "http", "", [], [], None, false, 0, 0, 0, 0, "")],
                 [], [], [])
  }

  /** The linter accepts it ... */
  lemma PrefixedAccepted()
    ensures Linter.LintErrors(PrefixedConfig()) == []
  {
    var cfg := PrefixedConfig();
    Linter.OneHostAccepted(cfg, cfg.hosts[0]);
  }

  /** ... and once it is synced, the result of the service's task is taken for one of the host, and the
      service does not change. */
  lemma PrefixedService(s: State, now: int, status: int, output: string)
    requires s.clock <= now
    ensures var cfg := PrefixedConfig();
            var c := Apply(s, Sync(now, cfg.hosts, cfg.services)).core;
            var c' := Handle(c, CheckResult(TaskId(ServiceEntity("HOST:x")), status, output));
            && "HOST:x" in c.services && c'.services == c.services
            && "x" in c'.hosts && c'.hosts["x"].status == status && c'.hosts["x"].output == output
  {
    var cfg := PrefixedConfig();
    SyncedHostsKeys(s.core.hosts, cfg.hosts, now);
    SyncedServicesKeys(s.core.services, cfg.services, now);
    assert "x" in HostIds(cfg.hosts) && "HOST:x" in ServiceIds(cfg.services) by {
      assert cfg.hosts[0] in cfg.hosts && cfg.services[0] in cfg.services;
    }
    assert "HOST:x"[5..] == "x";
  }

  function StatusOf(c: Core, e: Entity): int
    requires Configured(c, e)
  {
    match e
    case HostEntity(k) => c.hosts[k].status
    case ServiceEntity(k) => c.services[k].currentState
  }

  /** While its issuer stays configured, the result of a job changes the issuer and nothing else; a
      service whose ID starts with HOST: never sees the results of its own tasks. */
  lemma ResultReachesIssuer(c: Core, j: Job, status: int, output: string, e: Entity)
    requires WellKeyed(c) && j.task.id == TaskId(j.issuer) && Configured(c, j.issuer) && Configured(c, e)
    ensures var r, routable := CheckResult(j.task.id, status, output), j.issuer.HostEntity? || !("HOST:" <= j.issuer.id);
            && (e == j.issuer && routable ==> Configured(Handle(c, r), e) && StatusOf(Handle(c, r), e) == status)
            && (e != j.issuer && routable ==> SliceOf(Handle(c, r), e) == SliceOf(c, e))
            && (e == j.issuer && !routable ==> SliceOf(Handle(c, r), e) == SliceOf(c, e))
  {
    RoutedBackIff(j.issuer);
    StepSlice(c, CheckResult(j.task.id, status, output), e);
  }
}
