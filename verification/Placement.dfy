/** From the definition files to the schedulers: what the linter accepts is placed without loss, every
    host on exactly one scheduler and every service with its host, and the schedulers keep it so. */
module Placement {
  import opened Models
  import opened Loader
  import opened Linter
  import opened Sharding
  import opened Arithmetic
  import opened SchedulerState
  import opened Timing

  // ---------------------------------------------------------------- one scheduler

  /** The host of every service is known, so the lookup of the notification filter never misses. */
  ghost predicate LookupTotal(c: Core) {
    forall k :: k in c.services ==> c.services[k].hostName in c.hosts
  }

  /** Every service of a sync payload names a host of the payload. */
  ghost predicate SelfContained(hosts: seq<Host>, services: seq<Service>) {
    forall v :: v in services ==> v.hostName in HostIds(hosts)
  }

  ghost predicate SelfContainedSyncs(evs: seq<Event>) {
    evs == [] || ((evs[0].Sync? ==> SelfContained(evs[0].hosts, evs[0].services)) && SelfContainedSyncs(evs[1..]))
  }

  lemma SyncLookup(c: Core, hosts: seq<Host>, services: seq<Service>, now: int)
    requires SelfContained(hosts, services)
    ensures forall k :: k in SyncedServices(c.services, services, now) ==>
              SyncedServices(c.services, services, now)[k].hostName in SyncedHosts(c.hosts, hosts, now)
  {
    SyncedHostsKeys(c.hosts, hosts, now);
    SyncedServicesKeys(c.services, services, now);
  }

  lemma StepKeepsLookup(s: State, ev: Event)
    requires WellFormed(s) && Enabled(s, ev)
    requires ev.Sync? ==> SelfContained(ev.hosts, ev.services)
    requires !ev.Sync? ==> LookupTotal(s.core)
    ensures LookupTotal(Apply(s, ev).core)
  {
    if ev.Sync? {
      SyncLookup(s.core, ev.hosts, ev.services, ev.now);
    }
  }

  /** Once total, the lookup is total in every reachable state: the case of an unknown host never
      arises when a service result is processed. */
  lemma {:induction false} RunKeepsLookup(s: State, evs: seq<Event>)
    requires WellFormed(s) && ValidRun(s, evs) && SelfContainedSyncs(evs) && LookupTotal(s.core)
    ensures LookupTotal(Run(s, evs).core)
    decreases |evs|
  {
    if evs != [] {
      StepKeepsWellFormed(s, evs[0]);
      StepKeepsLookup(s, evs[0]);
      RunKeepsLookup(Apply(s, evs[0]), evs[1..]);
    }
  }

  // ---------------------------------------------------------------- the shards

  /** What refreshConfig hands to partitionConfig: a loaded configuration that passed the linter. */
  ghost predicate Accepted(raw: GlobalConfig, cfg: GlobalConfig) {
    Loads(raw, cfg) && LintErrors(cfg) == []
  }

  lemma AcceptedIs(raw: GlobalConfig, cfg: GlobalConfig)
    requires Accepted(raw, cfg)
    ensures SelfContained(cfg.hosts, cfg.services)
    ensures forall i, j :: 0 <= i < j < |cfg.hosts| ==> cfg.hosts[i].id != cfg.hosts[j].id
  {
    LoadedIsRegistered(raw, cfg);
    CleanIff(cfg);
    RegisteredIdsMeaning(cfg.hosts);
    forall i, j | 0 <= i < j < |cfg.hosts| ensures cfg.hosts[i].id != cfg.hosts[j].id {
      assert RegisteredIds(cfg.hosts)[i] != RegisteredIds(cfg.hosts)[j];
    }
  }

  /** In an accepted configuration host i lives on shard i % n and on no other. */
  lemma ShardOfHost(cfg: GlobalConfig, n: nat, s: nat, i: nat)
    requires s < n && i < |cfg.hosts|
    requires forall i, j :: 0 <= i < j < |cfg.hosts| ==> cfg.hosts[i].id != cfg.hosts[j].id
    ensures cfg.hosts[i].id in HostIds(ShardHosts(cfg.hosts, n, s)) <==> s == i % n
  {
    if s == i % n {
      OwnHost(cfg.hosts, n, i);
    } else {
      forall h | h in ShardHosts(cfg.hosts, n, s) ensures h.id != cfg.hosts[i].id {
        OtherHost(cfg.hosts, n, s, i, h);
      }
    }
  }

  lemma OwnHost(hosts: seq<Host>, n: nat, i: nat)
    requires n > 0 && i < |hosts|
    ensures hosts[i] in ShardHosts(hosts, n, i % n)
  {
    HostPosition(hosts, n, i);
    assert ShardHosts(hosts, n, i % n)[i / n] in ShardHosts(hosts, n, i % n);
  }

  lemma OtherHost(hosts: seq<Host>, n: nat, s: nat, i: nat, h: Host)
    requires s < n && i < |hosts| && s != i % n && h in ShardHosts(hosts, n, s)
    requires forall i, j :: 0 <= i < j < |hosts| ==> hosts[i].id != hosts[j].id
    ensures h.id != hosts[i].id
  {
    var j := IndexInShard(hosts, n, s, h);
    assert j != i;
  }

  lemma IndexInShard(hosts: seq<Host>, n: nat, s: nat, h: Host) returns (i: nat)
    requires s < n && h in ShardHosts(hosts, n, s)
    ensures i < |hosts| && hosts[i] == h && i % n == s
  {
    var k :| 0 <= k < |ShardHosts(hosts, n, s)| && ShardHosts(hosts, n, s)[k] == h;
    ShardLayout(hosts, n, s);
    DivIs(k * n + s, n, k, s);
    i := k * n + s;
  }

  /** The number of the shard of host i when there are n schedulers. */
  function HomeOf(i: nat, n: nat): nat
    requires n > 0
  {
    if n == 1 then 0 else i % n
  }

  /** Every host ID is on exactly one shard. */
  lemma OneHome(raw: GlobalConfig, cfg: GlobalConfig, n: nat, i: nat, s: nat)
    requires Accepted(raw, cfg) && n > 0 && i < |cfg.hosts| && s < n
    ensures |Partition(cfg, n)| == n
    ensures cfg.hosts[i].id in HostIds(Partition(cfg, n)[s].hosts) <==> s == HomeOf(i, n)
  {
    AcceptedIs(raw, cfg);
    if n > 1 {
      ShardOfHost(cfg, n, s, i);
    }
  }

  lemma PlaceOfHost(cfg: GlobalConfig, n: nat, i: nat)
    requires n > 0 && i < |cfg.hosts|
    requires forall i, j :: 0 <= i < j < |cfg.hosts| ==> cfg.hosts[i].id != cfg.hosts[j].id
    ensures cfg.hosts[i].id in HostShard(cfg.hosts, n) && HostShard(cfg.hosts, n)[cfg.hosts[i].id] == i % n
  {
    HostShardMeaning(cfg.hosts, n);
    assert cfg.hosts[i] in cfg.hosts;
  }

  /** A shard contains the hosts of its services, and all services of its hosts. */
  lemma ServicesWithTheirHosts(raw: GlobalConfig, cfg: GlobalConfig, n: nat, s: nat)
    requires Accepted(raw, cfg) && n > 0 && s < n
    ensures SelfContained(Partition(cfg, n)[s].hosts, Partition(cfg, n)[s].services)
    ensures forall v :: v in Partition(cfg, n)[s].services <==>
              v in cfg.services && v.hostName in HostIds(Partition(cfg, n)[s].hosts)
  {
    AcceptedIs(raw, cfg);
    if n > 1 {
      var place := HostShard(cfg.hosts, n);
      ShardServicesMeaning(cfg.services, place, s);
      forall v | v in cfg.services
        ensures v.hostName in place && (place[v.hostName] == s <==> v.hostName in HostIds(ShardHosts(cfg.hosts, n, s)))
      {
        var h :| h in cfg.hosts && h.id == v.hostName;
        var i :| 0 <= i < |cfg.hosts| && cfg.hosts[i] == h;
        PlaceOfHost(cfg, n, i);
        ShardOfHost(cfg, n, s, i);
      }
    }
  }

  /** The linter's verdict makes sharding lossless: all services are placed, each exactly once. */
  lemma NothingDropped(raw: GlobalConfig, cfg: GlobalConfig, n: nat)
    requires Accepted(raw, cfg) && n > 0
    ensures AllServices(Partition(cfg, n)) == multiset(cfg.services)
  {
    AcceptedIs(raw, cfg);
    if n == 1 {
      assert [cfg][..0] == [];
      assert AllServices([cfg]) == AllServices([]) + multiset(cfg.services);
    } else {
      AllShardsHold(cfg, n);
      NothingDroppedIff(cfg.services, HostShard(cfg.hosts, n));
      HostShardMeaning(cfg.hosts, n);
    }
  }

  lemma AllShardsHold(cfg: GlobalConfig, n: nat)
    requires n > 1
    ensures AllServices(Partition(cfg, n)) == multiset(Sharding.Placed(cfg.services, HostShard(cfg.hosts, n)))
  {
    HostShardMeaning(cfg.hosts, n);
    ServicesConserved(cfg.services, HostShard(cfg.hosts, n), n);
    AllServicesUpTo(cfg, n, n);
    assert Partition(cfg, n)[..n] == Partition(cfg, n);
  }

  // ---------------------------------------------------------------- services with the same ID

  ghost predicate DistinctIds(services: seq<Service>) {
    forall i, j :: 0 <= i < j < |services| ==> services[i].id != services[j].id
  }

  lemma {:induction false} IdsCount(services: seq<Service>)
    ensures |ServiceIds(services)| <= |services|
    ensures |ServiceIds(services)| == |services| <==> DistinctIds(services)
  {
    if services != [] {
      var front, last := services[..|services| - 1], services[|services| - 1];
      IdsCount(front);
      assert services == front + [last];
      IdsSnoc(front, last);
    }
  }

  lemma IdsSnoc(front: seq<Service>, last: Service)
    ensures |ServiceIds(front + [last])| == |ServiceIds(front)| + if last.id in ServiceIds(front) then 0 else 1
    ensures DistinctIds(front + [last]) <==> DistinctIds(front) && last.id !in ServiceIds(front)
  {
    var services := front + [last];
    if last.id in ServiceIds(front) {
      assert ServiceIds(services) == ServiceIds(front);
      var v :| v in front && v.id == last.id;
      var i :| 0 <= i < |front| && front[i] == v;
      assert services[i].id == services[|front|].id;
    } else {
      assert ServiceIds(services) == ServiceIds(front) + {last.id};
      assert forall i :: 0 <= i < |front| ==> front[i].id in ServiceIds(front);
    }
    if DistinctIds(services) {
      forall i, j | 0 <= i < j < |front| ensures front[i].id != front[j].id {
        assert services[i].id != services[j].id;
      }
    }
  }

  /** A scheduler keeps every service of a sync if and only if their IDs are pairwise distinct. */
  lemma AllServicesKeptIff(known: map<string, Service>, services: seq<Service>, now: int)
    ensures |SyncedServices(known, services, now)| == |services| <==> DistinctIds(services)
    ensures DistinctIds(services) ==>
              forall i :: 0 <= i < |services| ==>
                services[i].id in SyncedServices(known, services, now)
                && SyncedServices(known, services, now)[services[i].id] == MergedService(known, services[i], now)
  {
    var synced := SyncedServices(known, services, now);
    SyncedServicesKeys(known, services, now);
    IdsCount(services);
    assert |synced| == |synced.Keys|;
    if DistinctIds(services) {
      forall i | 0 <= i < |services|
        ensures services[i].id in synced && synced[services[i].id] == MergedService(known, services[i], now)
      {
        SyncKeepsServiceState(known, services, now, i);
      }
    }
  }

  /** The linter accepts two services with one ID, and a scheduler is left with one of them. */
  lemma DuplicateService(known: map<string, Service>, now: int)
    ensures LintErrors(DuplicateConfig()) == []
    ensures |SyncedServices(known, DuplicateConfig().services, now)| < |DuplicateConfig().services|
  {
    var cfg := DuplicateConfig();
    OneHostAccepted(cfg, cfg.hosts[0]);
    FewerServices(known, cfg.services, now, 0, 1);
  }

  function DuplicateConfig(): GlobalConfig {
    var v := Service("web", "", "x", "http", "", [], [], None, false, 0, 0, 0, 0, "");
    GlobalConfig([], [], [], [Host("x", "", "", "ping", "", [], [], None, false, [], false, 0, 0, "")],
                 [v, v.(checkCommand := "https")], [], [], [])
  }

  lemma FewerServices(known: map<string, Service>, services: seq<Service>, now: int, i: nat, j: nat)
    requires i < j < |services| && services[i].id == services[j].id
    ensures |SyncedServices(known, services, now)| < |services|
  {
    var synced := SyncedServices(known, services, now);
    SyncedServicesKeys(known, services, now);
    IdsCount(services);
    assert |synced| == |synced.Keys|;
  }

  // ---------------------------------------------------------------- the cluster

  /** A configuration that the arbiter dealt out to `n` schedulers. */
  datatype Plan = Plan(raw: GlobalConfig, cfg: GlobalConfig, n: nat)

  ghost predicate IsPlan(p: Plan) {
    p.n > 0 && Accepted(p.raw, p.cfg)
  }

  /** Event `ev` of scheduler `s` carries its shard of plan `p`. */
  ghost predicate Carries(ev: Event, p: Plan, s: nat) {
    && ev.Sync? && IsPlan(p) && s < p.n
    && ev.hosts == Partition(p.cfg, p.n)[s].hosts
    && ev.services == Partition(p.cfg, p.n)[s].services
  }

  /** The syncs of the run carry the shards of scheduler `s` of the given plans, one after the other. */
  ghost predicate Delivers(evs: seq<Event>, plans: seq<Plan>, s: nat)
    decreases |evs|
  {
    if evs == [] then plans == []
    else if evs[0].Sync? then plans != [] && Carries(evs[0], plans[0], s) && Delivers(evs[1..], plans[1..], s)
    else Delivers(evs[1..], plans, s)
  }

  /** A scheduler has exactly the hosts and services of its shard, and all its lookups succeed. */
  ghost predicate Holds(c: Core, p: Plan, s: nat) {
    && IsPlan(p) && s < p.n
    && c.hosts.Keys == HostIds(Partition(p.cfg, p.n)[s].hosts)
    && c.services.Keys == ServiceIds(Partition(p.cfg, p.n)[s].services)
    && LookupTotal(c)
  }

  lemma SyncHolds(st: State, ev: Event, p: Plan, s: nat)
    requires WellFormed(st) && Enabled(st, ev) && Carries(ev, p, s)
    ensures Holds(Apply(st, ev).core, p, s)
  {
    ServicesWithTheirHosts(p.raw, p.cfg, p.n, s);
    SyncedHostsKeys(st.core.hosts, ev.hosts, ev.now);
    SyncedServicesKeys(st.core.services, ev.services, ev.now);
    StepKeepsLookup(st, ev);
  }

  lemma StepHolds(st: State, ev: Event, p: Plan, s: nat)
    requires WellFormed(st) && Enabled(st, ev) && !ev.Sync? && Holds(st.core, p, s)
    ensures Holds(Apply(st, ev).core, p, s)
  {
    StepKeepsEntities(st, ev);
    StepKeepsLookup(st, ev);
  }

  /** In every state that a scheduler reaches, through any number of syncs, it holds its shard of the
      latest plan; `p` is the plan before the run. */
  lemma {:induction false} RunHolds(st: State, evs: seq<Event>, p: Plan, plans: seq<Plan>, s: nat)
    requires WellFormed(st) && ValidRun(st, evs) && Delivers(evs, plans, s)
    requires plans == [] ==> Holds(st.core, p, s)
    ensures Holds(Run(st, evs).core, if plans == [] then p else plans[|plans| - 1], s)
    decreases |evs|
  {
    if evs != [] {
      var st' := Apply(st, evs[0]);
      StepKeepsWellFormed(st, evs[0]);
      if evs[0].Sync? {
        SyncHolds(st, evs[0], plans[0], s);
        RunHolds(st', evs[1..], plans[0], plans[1..], s);
      } else {
        if plans == [] {
          StepHolds(st, evs[0], p, s);
        }
        RunHolds(st', evs[1..], p, plans, s);
      }
    }
  }

  /** Scheduler `s` has made a run in which the last plan it got is `p`. */
  ghost predicate Got(st: State, evs: seq<Event>, plans: seq<Plan>, p: Plan, s: nat) {
    && WellFormed(st) && ValidRun(st, evs)
    && Delivers(evs, plans, s)
    && plans != [] && plans[|plans| - 1] == p
  }

  /** Every scheduler has. */
  ghost predicate ClusterRun(before: seq<State>, runs: seq<seq<Event>>, plans: seq<seq<Plan>>, p: Plan) {
    && |before| == |runs| == |plans| == p.n
    && forall s :: 0 <= s < p.n ==> Got(before[s], runs[s], plans[s], p, s)
  }

  /** Scheduler `s` has the hosts whose home it is and no other, the IDs of the services of these hosts
      and no other, and no service without its host. */
  ghost predicate WellPlaced(now: Core, p: Plan, s: nat)
    requires p.n > 0
  {
    && LookupTotal(now)
    && (forall i :: 0 <= i < |p.cfg.hosts| ==> (p.cfg.hosts[i].id in now.hosts <==> s == HomeOf(i, p.n)))
    && now.hosts.Keys <= HostIds(p.cfg.hosts)
    && now.services.Keys == (set v | v in p.cfg.services && v.hostName in now.hosts :: v.id)
  }

  /** End-to-end placement: when all n schedulers have got their shards of a configuration that passed
      the linter, whatever they got before and whatever they did before and since, each host ID is on
      exactly one scheduler, a service ID is where a service with that ID and that scheduler's host is,
      and no service is without its host. */
  lemma EndToEnd(before: seq<State>, runs: seq<seq<Event>>, plans: seq<seq<Plan>>, p: Plan, s: nat)
    requires ClusterRun(before, runs, plans, p) && s < p.n
    ensures WellPlaced(Run(before[s], runs[s]).core, p, s)
  {
    GotIsPlaced(before[s], runs[s], plans[s], p, s);
  }

  lemma GotIsPlaced(st: State, evs: seq<Event>, plans: seq<Plan>, p: Plan, s: nat)
    requires Got(st, evs, plans, p, s) && s < p.n
    ensures WellPlaced(Run(st, evs).core, p, s)
  {
    RunHolds(st, evs, p, plans, s);
    HoldsPlaced(Run(st, evs).core, p, s);
  }

  lemma HoldsPlaced(now: Core, p: Plan, s: nat)
    requires Holds(now, p, s)
    ensures WellPlaced(now, p, s)
  {
    HostsPlaced(now, p, s);
    ServicesPlaced(now, p, s);
  }

  lemma HostsPlaced(now: Core, p: Plan, s: nat)
    requires Holds(now, p, s)
    ensures forall i :: 0 <= i < |p.cfg.hosts| ==> (p.cfg.hosts[i].id in now.hosts <==> s == HomeOf(i, p.n))
    ensures now.hosts.Keys <= HostIds(p.cfg.hosts)
  {
    forall i | 0 <= i < |p.cfg.hosts|
      ensures p.cfg.hosts[i].id in now.hosts <==> s == HomeOf(i, p.n)
    {
      OneHome(p.raw, p.cfg, p.n, i, s);
    }
    ShardHostsFrom(p.cfg, p.n, s);
  }

  lemma ServicesPlaced(now: Core, p: Plan, s: nat)
    requires Holds(now, p, s)
    ensures now.services.Keys == (set v | v in p.cfg.services && v.hostName in now.hosts :: v.id)
  {
    ServicesWithTheirHosts(p.raw, p.cfg, p.n, s);
    var there := Partition(p.cfg, p.n)[s].services;
    assert forall v :: v in there <==> v in p.cfg.services && v.hostName in now.hosts.Keys;
    assert now.services.Keys == (set v | v in there :: v.id);
  }

  /** A shard invents no host. */
  lemma ShardHostsFrom(cfg: GlobalConfig, n: nat, s: nat)
    requires n > 0 && s < n
    ensures HostIds(Partition(cfg, n)[s].hosts) <= HostIds(cfg.hosts)
  {
    if n > 1 {
      forall h | h in ShardHosts(cfg.hosts, n, s) ensures h in cfg.hosts {
        var i := IndexInShard(cfg.hosts, n, s, h);
      }
    }
  }
}
