/** From the rounds of the arbiter to the schedulers: a refresh starts each round on its own goroutine
    (cmd/arbiter/watcher.go:96), so the syncs of two rounds can reach the schedulers in any order. */
module Rounds {
  import opened Models
  import opened Loader
  import opened Linter
  import opened Sharding
  import opened SyncController
  import opened SchedulerState
  import opened Placement

  /** Scheduler `sched` took the sync of round `round`. */
  datatype Delivery = Delivery(round: nat, sched: nat)

  ghost predicate Numbered(log: seq<Delivery>, plans: seq<Plan>) {
    forall j :: 0 <= j < |log| ==> log[j].round < |plans|
  }

  /** The plans that scheduler `i` got, one after the other; round r deals out `plans[r]`. */
  function PlansTo(log: seq<Delivery>, plans: seq<Plan>, i: nat): seq<Plan>
    requires Numbered(log, plans)
  {
    if log == [] then []
    else
      var front, last := log[..|log| - 1], log[|log| - 1];
      PlansTo(front, plans, i) + if last.sched == i then [plans[last.round]] else []
  }

  /** Rounds do not overlap: the syncs of a round come after those of all earlier rounds. */
  ghost predicate InOrder(log: seq<Delivery>) {
    forall j, k :: 0 <= j < k < |log| ==> log[j].round <= log[k].round
  }

  /** A scheduler answers 200 only after it took the sync. */
  ghost predicate Answered(log: seq<Delivery>, net: Network, r: nat, n: nat) {
    forall i :: 0 <= i < n && SyncController.Reached(net, i) ==> Delivery(r, i) in log
  }

  lemma {:induction false} LastPlan(log: seq<Delivery>, plans: seq<Plan>, r: nat, i: nat)
    requires Numbered(log, plans) && InOrder(log) && Delivery(r, i) in log
    requires forall j :: 0 <= j < |log| ==> log[j].round <= r
    ensures r < |plans| && PlansTo(log, plans, i) != []
    ensures PlansTo(log, plans, i)[|PlansTo(log, plans, i)| - 1] == plans[r]
  {
    var front, last := log[..|log| - 1], log[|log| - 1];
    var j :| 0 <= j < |log| && log[j] == Delivery(r, i);
    if last.sched == i {
      assert j == |log| - 1 || log[j].round <= last.round;
    } else {
      assert front[j] == Delivery(r, i);
      assert forall k :: 0 <= k < |front| ==> front[k] == log[k];
      LastPlan(front, plans, r, i);
    }
  }

  /** Scheduler `i` made a run with the syncs of these plans. */
  ghost predicate Took(st: State, evs: seq<Event>, plans: seq<Plan>, i: nat) {
    WellFormed(st) && ValidRun(st, evs) && Delivers(evs, plans, i)
  }

  /** Every scheduler made a run with the syncs that the log delivers to it. */
  ghost predicate Delivered(before: seq<State>, runs: seq<seq<Event>>, log: seq<Delivery>, plans: seq<Plan>)
    requires Numbered(log, plans)
  {
    && |before| == |runs|
    && forall i :: 0 <= i < |before| ==> Took(before[i], runs[i], PlansTo(log, plans, i), i)
  }

  /** When rounds do not overlap and the latest one reports success, that is, when it reached all of its n
      schedulers, each of them has the hosts and services that are its own in the plan of that round. */
  lemma SuccessPlaces(before: seq<State>, runs: seq<seq<Event>>, log: seq<Delivery>, plans: seq<Plan>, net: Network, r: nat, s: nat)
    requires Numbered(log, plans) && InOrder(log) && Delivered(before, runs, log, plans)
    requires r < |plans| && |before| == plans[r].n && s < |before|
    requires forall j :: 0 <= j < |log| ==> log[j].round <= r
    requires Answered(log, net, r, |before|) && forall i :: 0 <= i < |before| ==> SyncController.Reached(net, i)
    ensures WellPlaced(Run(before[s], runs[s]).core, plans[r], s)
  {
    assert SyncController.Reached(net, s);
    LastPlan(log, plans, r, s);
    GotIsPlaced(before[s], runs[s], PlansTo(log, plans, s), plans[r], s);
  }

  // ---------------------------------------------------------------- two rounds that overlap

  function PlainHost(id: string): Host {
    Host(id, "", "", "ping", "", [], [], None, false, [], false, 0, 0, "")
  }

  /** Two hosts in the given order, for two schedulers. */
  function TwoHosts(x: string, y: string): Plan {
    var cfg := GlobalConfig([], [], [], [PlainHost(x), PlainHost(y)], [], [], [], []);
    Plan(cfg, cfg, 2)
  }

  lemma TwoHostsLoad(x: string, y: string)
    ensures Loads(TwoHosts(x, y).cfg, TwoHosts(x, y).cfg)
  {
    var cfg := TwoHosts(x, y).cfg;
    var t := HostTemplates(cfg.hosts);
    assert cfg.hosts[..1] == [PlainHost(x)] && [PlainHost(x)][..0] == [];
    assert LoadedHosts([PlainHost(x)], t, 5) == [PlainHost(x)];
    assert LoadedHosts(cfg.hosts, t, 5) == cfg.hosts;
    var js := HostJoinings(cfg.hosts);
    assert js[..1][..0] == [];
    assert Joined(map[], js[..1]) == map[];
    assert Joined(map[], js) == map[];
    assert Joined(map[], ServiceJoinings([])) == map[];
  }

  lemma TwoHostsAccepted(x: string, y: string)
    requires x != "" && y != "" && x != y
    ensures LintErrors(TwoHosts(x, y).cfg) == []
  {
    var cfg := TwoHosts(x, y).cfg;
    CleanIff(cfg);
    assert cfg.hosts[..1] == [PlainHost(x)] && [PlainHost(x)][..0] == [];
    assert RegisteredIds([PlainHost(x)]) == [x];
    assert RegisteredIds(cfg.hosts) == [x, y];
  }

  lemma TwoShards(a: Host, b: Host)
    ensures ShardHosts([a, b], 2, 0) == [a] && ShardHosts([a, b], 2, 1) == [b]
  {
    var none: seq<Host> := [];
    assert [a, b][..1] == [a] && [a][..0] == none;
    assert ShardHosts(none, 2, 0) == none && ShardHosts(none, 2, 1) == none;
    assert ShardHosts([a], 2, 0) == none + [a] == [a];
    assert ShardHosts([a], 2, 1) == none;
    assert ShardHosts([a, b], 2, 0) == [a];
    assert ShardHosts([a, b], 2, 1) == none + [b] == [b];
  }

  lemma TwoHostsArePlan(x: string, y: string)
    requires x != "" && y != "" && x != y
    ensures IsPlan(TwoHosts(x, y))
    ensures HostIds(Partition(TwoHosts(x, y).cfg, 2)[0].hosts) == {x}
    ensures HostIds(Partition(TwoHosts(x, y).cfg, 2)[1].hosts) == {y}
  {
    TwoHostsLoad(x, y);
    TwoHostsAccepted(x, y);
    TwoShards(PlainHost(x), PlainHost(y));
  }

  /** Both rounds reach both schedulers, scheduler 0 in their order and scheduler 1 in the other. */
  function OverlapLog(): seq<Delivery> {
    [Delivery(0, 0), Delivery(1, 0), Delivery(1, 1), Delivery(0, 1)]
  }

  lemma OverlapIs(plans: seq<Plan>)
    requires |plans| == 2
    ensures Numbered(OverlapLog(), plans) && !InOrder(OverlapLog())
    ensures forall r, i :: 0 <= r < 2 && 0 <= i < 2 ==> Delivery(r, i) in OverlapLog()
  {
    var log := OverlapLog();
    assert log[1].round > log[3].round;
    assert log[0] == Delivery(0, 0) && log[3] == Delivery(0, 1);
  }

  function SyncOf(p: Plan, i: nat, now: int): Event
    requires i < p.n
  {
    Sync(now, Partition(p.cfg, p.n)[i].hosts, Partition(p.cfg, p.n)[i].services)
  }

  lemma TwoSyncs(st: State, p: Plan, q: Plan, i: nat, now: int)
    requires WellFormed(st) && st.clock <= now && IsPlan(p) && IsPlan(q) && i < p.n && i < q.n
    ensures Took(st, [SyncOf(p, i, now), SyncOf(q, i, now)], [p, q], i)
  {
    SyncsRun(st, SyncOf(p, i, now), SyncOf(q, i, now));
    SyncsDeliver(SyncOf(p, i, now), SyncOf(q, i, now), p, q, i);
  }

  lemma SyncsRun(st: State, a: Event, b: Event)
    requires a.Sync? && b.Sync? && st.clock <= a.now <= b.now
    ensures ValidRun(st, [a, b])
  {
    assert [a, b][1..] == [b] && [b][1..] == [];
    assert ValidRun(Apply(st, a), [b]);
  }

  lemma SyncsDeliver(a: Event, b: Event, p: Plan, q: Plan, i: nat)
    requires Carries(a, p, i) && Carries(b, q, i)
    ensures Delivers([a, b], [p, q], i)
  {
    assert [a, b][1..] == [b] && [b][1..] == [];
    assert [p, q][1..] == [q] && [q][1..] == [];
    assert Delivers([b], [q], i);
  }

  /** Each scheduler is left with the plan that it got last. */
  lemma TwoSyncsHold(st: State, p: Plan, q: Plan, i: nat, now: int)
    requires WellFormed(st) && st.clock <= now && IsPlan(p) && IsPlan(q) && i < p.n && i < q.n
    ensures Took(st, [SyncOf(p, i, now), SyncOf(q, i, now)], [p, q], i)
    ensures Holds(Run(st, [SyncOf(p, i, now), SyncOf(q, i, now)]).core, q, i)
  {
    TwoSyncs(st, p, q, i, now);
    EndsWith(st, [SyncOf(p, i, now), SyncOf(q, i, now)], [p, q], q, i);
  }

  lemma OverlapDelivers(x: State, y: State, a: seq<Event>, b: seq<Event>, p: Plan, q: Plan)
    requires Took(x, a, [p, q], 0) && Took(y, b, [q, p], 1)
    ensures Numbered(OverlapLog(), [p, q]) && Delivered([x, y], [a, b], OverlapLog(), [p, q])
  {
    Unfold(OverlapLog(), [p, q], 0);
    Unfold(OverlapLog(), [p, q], 1);
  }

  /** Two rounds that overlap and both reach both schedulers `x` and `y`: the order of the two hosts was
      swapped in between.  Scheduler x gets the later round last and y the earlier one, so host b is on
      both and host a on none. */
  lemma OverlappingRounds(x: State, y: State, now: int)
    requires WellFormed(x) && WellFormed(y) && x.clock <= now && y.clock <= now
    ensures var p, q := TwoHosts("a", "b"), TwoHosts("b", "a");
            var a, b := [SyncOf(p, 0, now), SyncOf(q, 0, now)], [SyncOf(q, 1, now), SyncOf(p, 1, now)];
            && Numbered(OverlapLog(), [p, q]) && Delivered([x, y], [a, b], OverlapLog(), [p, q])
            && ValidRun(x, a) && Run(x, a).core.hosts.Keys == {"b"}
            && ValidRun(y, b) && Run(y, b).core.hosts.Keys == {"b"}
  {
    var p, q := TwoHosts("a", "b"), TwoHosts("b", "a");
    TwoHostsArePlan("a", "b");
    TwoHostsArePlan("b", "a");
    TwoSyncsHold(x, p, q, 0, now);
    TwoSyncsHold(y, q, p, 1, now);
    OverlapDelivers(x, y, [SyncOf(p, 0, now), SyncOf(q, 0, now)], [SyncOf(q, 1, now), SyncOf(p, 1, now)], p, q);
  }

  /** What a scheduler holds after its last plan. */
  lemma EndsWith(st: State, evs: seq<Event>, plans: seq<Plan>, p: Plan, i: nat)
    requires Took(st, evs, plans, i)
    requires plans != [] && plans[|plans| - 1] == p
    ensures Holds(Run(st, evs).core, p, i)
  {
    RunHolds(st, evs, p, plans, i);
  }

  lemma Unfold(log: seq<Delivery>, plans: seq<Plan>, i: nat)
    requires |plans| == 2 && log == [Delivery(0, 0), Delivery(1, 0), Delivery(1, 1), Delivery(0, 1)]
    ensures i == 0 ==> PlansTo(log, plans, i) == [plans[0], plans[1]]
    ensures i == 1 ==> PlansTo(log, plans, i) == [plans[1], plans[0]]
  {
    assert log[..3] == [Delivery(0, 0), Delivery(1, 0), Delivery(1, 1)];
    assert log[..3][..2] == [Delivery(0, 0), Delivery(1, 0)];
    assert log[..3][..2][..1] == [Delivery(0, 0)] && [Delivery(0, 0)][..0] == [];
    assert PlansTo([Delivery(0, 0)], plans, i) == if i == 0 then [plans[0]] else [];
    assert PlansTo(log[..3][..2], plans, i) == if i == 0 then [plans[0], plans[1]] else [];
    assert PlansTo(log[..3], plans, i) == if i == 0 then [plans[0], plans[1]] else if i == 1 then [plans[1]] else [];
  }
}
