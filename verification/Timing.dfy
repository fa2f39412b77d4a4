/** When tasks are handed out: pacing, bounded starvation and draining, over whole runs of the
    scheduler and for every map iteration order. */
module Timing {
  import opened Models
  import opened Seqs
  import opened Arithmetic
  import opened SchedulerState

  /** The times at which entity `e` was served. */
  function PopTimes(evs: seq<Event>, e: Entity): seq<int> {
    if evs == [] then []
    else (if evs[0].Pop? && evs[0].served == Some(e) then [evs[0].now] else []) + PopTimes(evs[1..], e)
  }

  /** The answers of the pops of a run, in order; None is 204 No Content. */
  function Answers(evs: seq<Event>): seq<Option<Entity>> {
    if evs == [] then []
    else (if evs[0].Pop? then [evs[0].served] else []) + Answers(evs[1..])
  }

  /** The next check that the pops at `times` leave behind. */
  function ArmedBy(times: seq<int>, e: Entity, initially: int): int {
    if times == [] then initially else times[|times| - 1] + Period(e)
  }

  /** Only a pop of the entity itself moves its next check, syncs included. */
  lemma StepNextCheck(s: State, ev: Event, e: Entity)
    requires WellFormed(s) && Enabled(s, ev) && Configured(s.core, e) && Mentions(ev, e)
    ensures Configured(Apply(s, ev).core, e)
    ensures NextCheckOf(Apply(s, ev).core, e) ==
            if ev.Pop? && ev.served == Some(e) then ev.now + Period(e) else NextCheckOf(s.core, e)
  {
    if ev.Sync? {
      SyncedHostsKeys(s.core.hosts, ev.hosts, ev.now);
      SyncedServicesKeys(s.core.services, ev.services, ev.now);
    }
  }

  // ---------------------------------------------------------------- pacing

  /** Consecutive times are more than one period apart. */
  ghost predicate Spaced(times: seq<int>, period: int) {
    |times| < 2 || (times[1] > times[0] + period && Spaced(times[1..], period))
  }

  /** While an entity stays configured, two pops of it are always more than its period apart, however
      many syncs happen in between; the first comes only after its next check. */
  lemma {:induction false} Pacing(s: State, evs: seq<Event>, e: Entity)
    requires WellFormed(s) && ValidRun(s, evs) && Configured(s.core, e) && Keeps(evs, e)
    ensures Spaced(PopTimes(evs, e), Period(e))
    ensures PopTimes(evs, e) != [] ==> PopTimes(evs, e)[0] > NextCheckOf(s.core, e)
    ensures Configured(Run(s, evs).core, e)
    ensures NextCheckOf(Run(s, evs).core, e) == ArmedBy(PopTimes(evs, e), e, NextCheckOf(s.core, e))
    decreases |evs|
  {
    if evs != [] {
      StepNextCheck(s, evs[0], e);
      StepKeepsWellFormed(s, evs[0]);
      Pacing(Apply(s, evs[0]), evs[1..], e);
      var times, rest := PopTimes(evs, e), PopTimes(evs[1..], e);
      if evs[0].Pop? && evs[0].served == Some(e) {
        assert times[1..] == rest;
      } else {
        assert times == rest;
      }
    }
  }

  /** k >= 2 spaced times span more than k - 1 periods. */
  lemma {:induction false} SpacedSpan(times: seq<int>, period: int)
    requires Spaced(times, period) && |times| >= 2 && period > 0
    ensures (|times| - 1) * period < times[|times| - 1] - times[0]
    decreases |times|
  {
    if |times| > 2 {
      SpacedSpan(times[1..], period);
      assert (|times| - 1) * period == (|times[1..]| - 1) * period + period;
    }
  }

  /** Every pop of the run happens in the window [from, from + length]. */
  ghost predicate Within(evs: seq<Event>, from: int, length: int) {
    evs == [] || ((evs[0].Pop? ==> from <= evs[0].now <= from + length) && Within(evs[1..], from, length))
  }

  lemma {:induction false} PopTimesWithin(evs: seq<Event>, e: Entity, from: int, length: int)
    requires Within(evs, from, length)
    ensures forall i :: 0 <= i < |PopTimes(evs, e)| ==> from <= PopTimes(evs, e)[i] <= from + length
  {
    if evs != [] {
      PopTimesWithin(evs[1..], e, from, length);
    }
  }

  /** The most often an entity with this period can be served in a window: max(1, ceil(length / period)). */
  function MostPops(length: nat, period: int): nat
    requires period > 0
  {
    if length == 0 then 1 else (length - 1) / period + 1
  }

  /** In a window of the given length an entity that stays configured is served at most
      max(1, ceil(length / period)) times. */
  lemma EntityBound(s: State, evs: seq<Event>, e: Entity, from: int, length: nat)
    requires WellFormed(s) && ValidRun(s, evs) && Configured(s.core, e) && Keeps(evs, e)
    requires Within(evs, from, length)
    ensures |PopTimes(evs, e)| <= MostPops(length, Period(e))
  {
    Pacing(s, evs, e);
    PopTimesWithin(evs, e, from, length);
    SpacedBound(PopTimes(evs, e), Period(e), from, length);
  }

  lemma SpacedBound(times: seq<int>, period: nat, from: int, length: nat)
    requires period > 0 && Spaced(times, period)
    requires forall i :: 0 <= i < |times| ==> from <= times[i] <= from + length
    ensures |times| <= MostPops(length, period)
  {
    if |times| >= 2 {
      SpacedSpan(times, period);
      assert from <= times[0] && times[|times| - 1] <= from + length;
      SpanBound(|times|, period, length);
    } else if length > 0 {
      assert (length - 1) / period >= 0;
    }
  }

  lemma SpanBound(k: nat, period: nat, length: nat)
    requires period > 0 && k >= 2 && (k - 1) * period < length
    ensures k <= MostPops(length, period)
  {
    var q := (length - 1) / period;
    assert length - 1 < (q + 1) * period;
    if k - 1 >= q + 1 {
      ProductGrows(q + 1, k - 1, period);
      assert false;
    }
  }

  function HostEntities(c: Core): set<Entity> {
    set k | k in c.hosts :: HostEntity(k)
  }

  function ServiceEntities(c: Core): set<Entity> {
    set k | k in c.services :: ServiceEntity(k)
  }

  /** How many pops of a run served a member of `group`. */
  function ServedFrom(evs: seq<Event>, group: set<Entity>): nat {
    if evs == [] then 0
    else (if evs[0].Pop? && evs[0].served.Some? && evs[0].served.value in group then 1 else 0)
         + ServedFrom(evs[1..], group)
  }

  /** How many tasks a run issued. */
  function TasksIssued(evs: seq<Event>): nat {
    if evs == [] then 0
    else (if evs[0].Pop? && evs[0].served.Some? then 1 else 0) + TasksIssued(evs[1..])
  }

  lemma {:induction false} ServedFromOne(evs: seq<Event>, group: set<Entity>, e: Entity)
    requires e in group
    ensures ServedFrom(evs, group) == ServedFrom(evs, group - {e}) + |PopTimes(evs, e)|
  {
    if evs != [] {
      ServedFromOne(evs[1..], group, e);
    }
  }

  lemma {:induction false} GroupBound(evs: seq<Event>, group: set<Entity>, most: nat)
    requires forall e :: e in group ==> |PopTimes(evs, e)| <= most
    ensures ServedFrom(evs, group) <= |group| * most
    decreases |group|
  {
    if group == {} {
      NoneServed(evs);
    } else {
      var e :| e in group;
      ServedFromOne(evs, group, e);
      GroupBound(evs, group - {e}, most);
      assert |group| == |group - {e}| + 1;
      NextMultiple(|group - {e}|, most);
    }
  }

  lemma {:induction false} NoneServed(evs: seq<Event>)
    ensures ServedFrom(evs, {}) == 0
  {
    if evs != [] {
      NoneServed(evs[1..]);
    }
  }

  /** Every sync of the run carries exactly the hosts and services configured in `c`. */
  ghost predicate FixedConfiguration(c: Core, evs: seq<Event>) {
    evs == [] || (SameIds(c, evs[0]) && FixedConfiguration(c, evs[1..]))
  }

  ghost predicate SameIds(c: Core, ev: Event) {
    ev.Sync? ==> HostIds(ev.hosts) == c.hosts.Keys && ServiceIds(ev.services) == c.services.Keys
  }

  lemma {:induction false} ServedFromConfigured(s: State, evs: seq<Event>)
    requires WellFormed(s) && ValidRun(s, evs) && FixedConfiguration(s.core, evs)
    ensures TasksIssued(evs) == ServedFrom(evs, HostEntities(s.core)) + ServedFrom(evs, ServiceEntities(s.core))
    decreases |evs|
  {
    if evs != [] {
      var s' := Apply(s, evs[0]);
      StepKeepsWellFormed(s, evs[0]);
      if evs[0].Sync? {
        SyncedHostsKeys(s.core.hosts, evs[0].hosts, evs[0].now);
        SyncedServicesKeys(s.core.services, evs[0].services, evs[0].now);
      }
      assert s'.core.hosts.Keys == s.core.hosts.Keys && s'.core.services.Keys == s.core.services.Keys;
      assert HostEntities(s'.core) == HostEntities(s.core) && ServiceEntities(s'.core) == ServiceEntities(s.core);
      FixedFor(s.core, s'.core, evs[1..]);
      ServedFromConfigured(s', evs[1..]);
    }
  }

  lemma {:induction false} FixedKeeps(c: Core, evs: seq<Event>, e: Entity)
    requires FixedConfiguration(c, evs) && Configured(c, e)
    ensures Keeps(evs, e)
  {
    if evs != [] {
      FixedKeeps(c, evs[1..], e);
    }
  }

  lemma {:induction false} FixedFor(c: Core, d: Core, evs: seq<Event>)
    requires FixedConfiguration(c, evs) && c.hosts.Keys == d.hosts.Keys && c.services.Keys == d.services.Keys
    ensures FixedConfiguration(d, evs)
  {
    if evs != [] {
      FixedFor(c, d, evs[1..]);
    }
  }

  /** All tasks issued in a window by a scheduler whose configuration stays the same. */
  lemma TaskBound(s: State, evs: seq<Event>, from: int, length: nat)
    requires WellFormed(s) && ValidRun(s, evs) && FixedConfiguration(s.core, evs)
    requires Within(evs, from, length)
    ensures TasksIssued(evs) <= |s.core.hosts| * MostPops(length, 120_000_000_000)
                                + |s.core.services| * MostPops(length, 60_000_000_000)
  {
    ServedFromConfigured(s, evs);
    var hs, ss := HostEntities(s.core), ServiceEntities(s.core);
    forall e | e in hs + ss ensures |PopTimes(evs, e)| <= MostPops(length, Period(e)) {
      FixedKeeps(s.core, evs, e);
      EntityBound(s, evs, e, from, length);
    }
    GroupBound(evs, hs, MostPops(length, 2 * MINUTE));
    GroupBound(evs, ss, MostPops(length, MINUTE));
    EntityCounts(s.core);
  }

  /** Entities are counted by the two maps. */
  lemma EntityCounts(c: Core)
    ensures |HostEntities(c)| == |c.hosts| && |ServiceEntities(c)| == |c.services|
    ensures |HostEntities(c) + ServiceEntities(c)| == |c.hosts| + |c.services|
  {
    CountHosts(c.hosts.Keys);
    CountServices(c.services.Keys);
    assert HostEntities(c) == (set k | k in c.hosts.Keys :: HostEntity(k));
    assert ServiceEntities(c) == (set k | k in c.services.Keys :: ServiceEntity(k));
    assert HostEntities(c) !! ServiceEntities(c);
  }

  lemma {:induction false} CountHosts(keys: set<string>)
    ensures |set k | k in keys :: HostEntity(k)| == |keys|
    decreases |keys|
  {
    if keys != {} {
      var x :| x in keys;
      CountHosts(keys - {x});
      assert (set k | k in keys :: HostEntity(k)) == (set k | k in keys - {x} :: HostEntity(k)) + {HostEntity(x)};
    }
  }

  lemma {:induction false} CountServices(keys: set<string>)
    ensures |set k | k in keys :: ServiceEntity(k)| == |keys|
    decreases |keys|
  {
    if keys != {} {
      var x :| x in keys;
      CountServices(keys - {x});
      assert (set k | k in keys :: ServiceEntity(k)) == (set k | k in keys - {x} :: ServiceEntity(k)) + {ServiceEntity(x)};
    }
  }

  // ---------------------------------------------------------------- starvation

  /** The entities that may be served before `e` while `e` is due: hosts go first. */
  function Rivals(c: Core, e: Entity): set<Entity> {
    if e.HostEntity? then HostEntities(c) else HostEntities(c) + ServiceEntities(c)
  }

  /** `e` is due, and of its rivals only those in `waiting` can become due before `end`. */
  ghost predicate Waiting(s: State, e: Entity, waiting: set<Entity>, end: int) {
    && Due(s.core, e, s.clock)
    && e in waiting
    && end <= s.clock + Period(e)
    && forall x :: x in Rivals(s.core, e) - waiting ==> NextCheckOf(s.core, x) >= end
  }

  /** Every pop of the run happens at `end` or before. */
  ghost predicate Until(evs: seq<Event>, end: int) {
    evs == [] || ((evs[0].Pop? ==> evs[0].now <= end) && Until(evs[1..], end))
  }

  /** Without a sync the configured entities and their commands stay the same. */
  lemma StepKeepsEntities(s: State, ev: Event)
    requires Enabled(s, ev) && !ev.Sync?
    ensures Apply(s, ev).core.hosts.Keys == s.core.hosts.Keys
    ensures Apply(s, ev).core.services.Keys == s.core.services.Keys
  {
  }

  lemma StepKeepsCommands(s: State, ev: Event)
    requires Enabled(s, ev) && !ev.Sync?
    ensures forall k :: k in s.core.hosts && k in Apply(s, ev).core.hosts ==>
              Apply(s, ev).core.hosts[k].checkCommand == s.core.hosts[k].checkCommand
    ensures forall k :: k in s.core.services && k in Apply(s, ev).core.services ==>
              Apply(s, ev).core.services[k].checkCommand == s.core.services[k].checkCommand
  {
  }

  /** While `e` waits, a pop in the window serves a member of `waiting`. */
  lemma ServedIsWaiting(s: State, now: int, served: Option<Entity>, e: Entity, waiting: set<Entity>, end: int)
    requires s.clock <= now <= end && MayServe(s.core, served, now) && Waiting(s, e, waiting, end)
    ensures served.Some? && served.value in waiting
  {
    assert Due(s.core, e, now);
    var x := served.value;
    assert Configured(s.core, x) && NextCheckOf(s.core, x) < now;
    assert x in HostEntities(s.core) + ServiceEntities(s.core);
    assert e.HostEntity? ==> HostDue(s.core.hosts[e.id], now);
    assert x in waiting || x in Rivals(s.core, e) - waiting;
  }

  lemma StepNextChecks(s: State, ev: Event)
    requires WellFormed(s) && Enabled(s, ev) && !ev.Sync?
    ensures forall x :: Configured(s.core, x) ==>
              && Configured(Apply(s, ev).core, x)
              && NextCheckOf(Apply(s, ev).core, x) ==
                 if ev.Pop? && ev.served == Some(x) then ev.now + Period(x) else NextCheckOf(s.core, x)
  {
    forall x | Configured(s.core, x)
      ensures Configured(Apply(s, ev).core, x)
      ensures NextCheckOf(Apply(s, ev).core, x) ==
              if ev.Pop? && ev.served == Some(x) then ev.now + Period(x) else NextCheckOf(s.core, x)
    {
      StepNextCheck(s, ev, x);
    }
  }

  /** If the event is a sync, it brings no new entity and `e` keeps a check command. */
  ghost predicate QuietEvent(c: Core, ev: Event, e: Entity) {
    ev.Sync? ==>
      && HostIds(ev.hosts) <= c.hosts.Keys && ServiceIds(ev.services) <= c.services.Keys
      && Mentions(ev, e)
      && match e
         case HostEntity(k) => forall h :: h in ev.hosts && h.id == k ==> h.checkCommand != ""
         case ServiceEntity(k) => forall v :: v in ev.services && v.id == k ==> v.checkCommand != ""
  }

  ghost predicate Quiet(s: State, evs: seq<Event>, e: Entity)
    requires ValidRun(s, evs)
    decreases |evs|
  {
    evs == [] || (QuietEvent(s.core, evs[0], e) && Quiet(Apply(s, evs[0]), evs[1..], e))
  }

  /** A quiet sync re-arms nothing. */
  lemma QuietSync(s: State, ev: Event, e: Entity)
    requires WellFormed(s) && Enabled(s, ev) && ev.Sync? && QuietEvent(s.core, ev, e)
    ensures forall x :: Configured(Apply(s, ev).core, x) ==>
              Configured(s.core, x) && NextCheckOf(Apply(s, ev).core, x) == NextCheckOf(s.core, x)
    ensures Rivals(Apply(s, ev).core, e) <= Rivals(s.core, e)
    ensures Due(s.core, e, s.clock) ==> Due(Apply(s, ev).core, e, Apply(s, ev).clock)
  {
    var c' := Apply(s, ev).core;
    SyncedHostsKeys(s.core.hosts, ev.hosts, ev.now);
    SyncedServicesKeys(s.core.services, ev.services, ev.now);
    forall x | Configured(c', x) ensures Configured(s.core, x) && NextCheckOf(c', x) == NextCheckOf(s.core, x) {
      StepNextCheck(s, ev, x);
    }
  }

  /** An entity that is due stays due until it is served. */
  lemma StepKeepsDue(s: State, ev: Event, e: Entity)
    requires WellFormed(s) && Enabled(s, ev) && !ev.Sync? && Due(s.core, e, s.clock)
    requires ev.Pop? ==> ev.served != Some(e)
    ensures Due(Apply(s, ev).core, e, Apply(s, ev).clock)
  {
    StepKeepsCommands(s, ev);
    StepNextCheck(s, ev, e);
  }

  /** Until `e` is served, a pop in the window takes a new rival out of `waiting`. */
  lemma StepWaiting(s: State, ev: Event, e: Entity, waiting: set<Entity>, end: int)
    requires WellFormed(s) && Enabled(s, ev) && QuietEvent(s.core, ev, e) && Waiting(s, e, waiting, end)
    requires ev.Pop? ==> ev.now <= end && ev.served != Some(e)
    ensures ev.Pop? ==> ev.served.Some? && ev.served.value in waiting
    ensures Waiting(Apply(s, ev), e, if ev.Pop? then waiting - {ev.served.value} else waiting, end)
  {
    if ev.Sync? {
      QuietSync(s, ev, e);
    } else {
      OtherWaiting(s, ev, e, waiting, end);
    }
  }

  lemma OtherWaiting(s: State, ev: Event, e: Entity, waiting: set<Entity>, end: int)
    requires WellFormed(s) && Enabled(s, ev) && !ev.Sync? && Waiting(s, e, waiting, end)
    requires ev.Pop? ==> ev.now <= end && ev.served != Some(e)
    ensures ev.Pop? ==> ev.served.Some? && ev.served.value in waiting
    ensures Waiting(Apply(s, ev), e, if ev.Pop? then waiting - {ev.served.value} else waiting, end)
  {
    var s' := Apply(s, ev);
    if ev.Pop? {
      ServedIsWaiting(s, ev.now, ev.served, e, waiting, end);
    }
    StepKeepsEntities(s, ev);
    StepKeepsDue(s, ev, e);
    StepNextChecks(s, ev);
    assert Rivals(s'.core, e) == Rivals(s.core, e);
    assert s.clock <= s'.clock;
  }

  lemma {:induction false} ServedInTurn(s: State, evs: seq<Event>, e: Entity, waiting: set<Entity>, end: int)
    requires WellFormed(s) && ValidRun(s, evs) && Quiet(s, evs, e) && Waiting(s, e, waiting, end)
    requires Until(evs, end)
    requires |Answers(evs)| >= |waiting|
    ensures Some(e) in Answers(evs)[..|waiting|]
    decreases |evs|
  {
    assert |waiting| > 0;
    var ev := evs[0];
    if ev.Pop? && ev.served == Some(e) {
      assert Answers(evs)[0] == Some(e);
    } else {
      StepKeepsWellFormed(s, ev);
      StepWaiting(s, ev, e, waiting, end);
      var waiting' := if ev.Pop? then waiting - {ev.served.value} else waiting;
      var own, rest := if ev.Pop? then [ev.served] else [], Answers(evs[1..]);
      assert Answers(evs) == own + rest && |waiting| == |own| + |waiting'|;
      ServedInTurn(Apply(s, ev), evs[1..], e, waiting', end);
      LaterTurn(own, rest, |waiting'|, Some(e));
    }
  }

  lemma LaterTurn<T>(own: seq<T>, rest: seq<T>, n: nat, x: T)
    requires n <= |rest| && x in rest[..n]
    ensures x in (own + rest)[..|own| + n]
  {
    assert (own + rest)[..|own| + n] == own + rest[..n];
  }

  /** Bounded starvation: in a window of at most its own period (two minutes for a host, one for a
      service), an entity that is due at the start is served within the first |hosts| + |services| pops,
      and a host within the first |hosts|.  Syncs may come in between as long as they bring no new entity
      and leave `e` a check command. */
  lemma BoundedStarvation(s: State, evs: seq<Event>, e: Entity)
    requires WellFormed(s) && ValidRun(s, evs) && Quiet(s, evs, e)
    requires Due(s.core, e, s.clock)
    requires Until(evs, s.clock + Period(e))
    ensures var turns := |s.core.hosts| + if e.HostEntity? then 0 else |s.core.services|;
            |Answers(evs)| >= turns ==> Some(e) in Answers(evs)[..turns]
  {
    DueWaits(s, e);
    if |Answers(evs)| >= |Rivals(s.core, e)| {
      ServedInTurn(s, evs, e, Rivals(s.core, e), s.clock + Period(e));
    }
  }

  /** Without syncs every run is quiet. */
  lemma {:induction false} SyncFreeIsQuiet(s: State, evs: seq<Event>, e: Entity)
    requires ValidRun(s, evs) && SyncFree(evs)
    ensures Quiet(s, evs, e)
    decreases |evs|
  {
    if evs != [] {
      SyncFreeIsQuiet(Apply(s, evs[0]), evs[1..], e);
    }
  }

  /** At the start every rival may come first. */
  lemma DueWaits(s: State, e: Entity)
    requires Due(s.core, e, s.clock)
    ensures Waiting(s, e, Rivals(s.core, e), s.clock + Period(e))
    ensures |Rivals(s.core, e)| == |s.core.hosts| + if e.HostEntity? then 0 else |s.core.services|
  {
    EntityCounts(s.core);
  }

  // ---------------------------------------------------------------- draining

  function DueHosts(c: Core, now: int): set<Entity> {
    set k | k in c.hosts && HostDue(c.hosts[k], now) :: HostEntity(k)
  }

  function DueServices(c: Core, now: int): set<Entity> {
    set k | k in c.services && ServiceDue(c.services[k], now) :: ServiceEntity(k)
  }

  function DueEntities(c: Core, now: int): set<Entity> {
    DueHosts(c, now) + DueServices(c, now)
  }

  /** All pops of the run read the same time. */
  ghost predicate At(evs: seq<Event>, now: int) {
    evs == [] || ((evs[0].Pop? ==> evs[0].now == now) && At(evs[1..], now))
  }

  /** A pop at `now` takes the served entity, and nothing else, out of the due set. */
  lemma StepDue(s: State, ev: Event, now: int)
    requires WellFormed(s) && Enabled(s, ev) && !ev.Sync? && (ev.Pop? ==> ev.now == now)
    ensures var served := if ev.Pop? && ev.served.Some? then {ev.served.value} else {};
            && DueHosts(Apply(s, ev).core, now) == DueHosts(s.core, now) - served
            && DueServices(Apply(s, ev).core, now) == DueServices(s.core, now) - served
            && served <= DueEntities(s.core, now)
  {
    StepKeepsEntities(s, ev);
    StepKeepsCommands(s, ev);
    StepNextChecks(s, ev);
    var s', served := Apply(s, ev), if ev.Pop? && ev.served.Some? then {ev.served.value} else {};
    forall k | k in s.core.hosts
      ensures HostDue(s'.core.hosts[k], now) <==> HostDue(s.core.hosts[k], now) && HostEntity(k) !in served
    {
      assert NextCheckOf(s'.core, HostEntity(k)) == s'.core.hosts[k].nextCheck;
    }
    forall k | k in s.core.services
      ensures ServiceDue(s'.core.services[k], now) <==> ServiceDue(s.core.services[k], now) && ServiceEntity(k) !in served
    {
      assert NextCheckOf(s'.core, ServiceEntity(k)) == s'.core.services[k].nextCheck;
    }
  }

  /** What d pops at a fixed time return when `hosts` and `services` are due: each once, hosts first,
      and then nothing. */
  ghost predicate Drains(answers: seq<Option<Entity>>, hosts: set<Entity>, services: set<Entity>) {
    var d := |hosts| + |services|;
    && (forall i :: 0 <= i < |answers| ==> (answers[i].Some? <==> i < d))
    && (forall i :: 0 <= i < |answers| && i < |hosts| ==> answers[i].value in hosts)
    && (forall i :: |hosts| <= i < |answers| && i < d ==> answers[i].value in services)
    && (forall i, j :: 0 <= i < j < |answers| && answers[i].Some? ==> answers[i] != answers[j])
  }

  /** Draining: at a fixed time with d due entities, exactly the first d pops succeed, every due host
      comes before every service, nothing is returned twice, and pop d + 1 answers no content.  Since
      d distinct entities are returned from a set of d, each due entity is returned. */
  lemma {:induction false} Draining(s: State, evs: seq<Event>, now: int)
    requires WellFormed(s) && ValidRun(s, evs) && SyncFree(evs) && At(evs, now)
    ensures Drains(Answers(evs), DueHosts(s.core, now), DueServices(s.core, now))
    decreases |evs|
  {
    if evs != [] {
      var s', rest := Apply(s, evs[0]), Answers(evs[1..]);
      StepKeepsWellFormed(s, evs[0]);
      Draining(s', evs[1..], now);
      StepDue(s, evs[0], now);
      if evs[0].Pop? {
        FirstAnswer(s, evs[0], now);
      }
      DrainStep(evs[0], rest, DueHosts(s.core, now), DueServices(s.core, now));
      assert Answers(evs) == if evs[0].Pop? then [evs[0].served] + rest else rest;
    }
  }

  lemma DrainStep(ev: Event, rest: seq<Option<Entity>>, hs: set<Entity>, ss: set<Entity>)
    requires hs !! ss
    requires ev.Pop? ==> (ev.served.Some? <==> hs + ss != {})
    requires ev.Pop? && ev.served.Some? ==> ev.served.value in (if hs != {} then hs else ss)
    requires var served := if ev.Pop? && ev.served.Some? then {ev.served.value} else {};
             Drains(rest, hs - served, ss - served)
    ensures Drains(if ev.Pop? then [ev.served] + rest else rest, hs, ss)
  {
    if ev.Pop? {
      PrependAnswer(ev.served, rest, hs, ss);
    } else {
      assert hs - {} == hs && ss - {} == ss;
    }
  }

  /** A pop serves a due host if there is one, else a due service, else nothing. */
  lemma FirstAnswer(s: State, ev: Event, now: int)
    requires WellFormed(s) && Enabled(s, ev) && ev.Pop? && ev.now == now
    ensures var hs, ss := DueHosts(s.core, now), DueServices(s.core, now);
            && (ev.served.Some? <==> hs + ss != {})
            && (ev.served.Some? ==> ev.served.value in (if hs != {} then hs else ss))
  {
    var hs, ss := DueHosts(s.core, now), DueServices(s.core, now);
    if ev.served.None? {
      if x :| x in hs + ss {
        assert Due(s.core, x, now);
      }
    } else {
      assert ev.served.value in hs + ss;
      if hs != {} {
        var x :| x in hs;
        assert HostDue(s.core.hosts[x.id], now);
      }
    }
  }

  lemma PrependAnswer(first: Option<Entity>, rest: seq<Option<Entity>>, hs: set<Entity>, ss: set<Entity>)
    requires hs !! ss
    requires first.Some? <==> hs + ss != {}
    requires first.Some? ==> first.value in (if hs != {} then hs else ss)
    requires var served := if first.Some? then {first.value} else {};
             Drains(rest, hs - served, ss - served)
    ensures Drains([first] + rest, hs, ss)
  {
    if first.Some? {
      PrependServed(first.value, rest, hs, ss, hs - {first.value}, ss - {first.value});
    } else {
      assert hs == {} && ss == {};
      assert forall i :: 0 < i < |[first] + rest| ==> ([first] + rest)[i] == rest[i - 1];
    }
  }

  lemma PrependServed(x: Entity, rest: seq<Option<Entity>>, hs: set<Entity>, ss: set<Entity>,
                      hs': set<Entity>, ss': set<Entity>)
    requires hs !! ss && hs' == hs - {x} && ss' == ss - {x}
    requires x in (if hs != {} then hs else ss)
    requires Drains(rest, hs', ss')
    ensures Drains([Some(x)] + rest, hs, ss)
  {
    var answers := [Some(x)] + rest;
    assert forall i :: 0 < i < |answers| ==> answers[i] == rest[i - 1];
    assert |hs'| + |ss'| + 1 == |hs| + |ss| && |hs'| == if hs != {} then |hs| - 1 else 0;
    forall j | 0 < j < |answers| ensures answers[j] != Some(x) {
      assert answers[j].Some? ==> answers[j].value in hs' + ss';
    }
  }

  /** After d pops at a fixed time every entity that was due has been served. */
  lemma DrainedAll(s: State, evs: seq<Event>, now: int, x: Entity)
    requires WellFormed(s) && ValidRun(s, evs) && SyncFree(evs) && At(evs, now)
    requires x in DueEntities(s.core, now) && |Answers(evs)| >= |DueEntities(s.core, now)|
    ensures Some(x) in Answers(evs)[..|DueEntities(s.core, now)|]
  {
    var hs, ss := DueHosts(s.core, now), DueServices(s.core, now);
    Draining(s, evs, now);
    assert |DueEntities(s.core, now)| == |hs| + |ss|;
    AllDrained(Answers(evs), hs, ss, x);
  }

  lemma AllDrained(answers: seq<Option<Entity>>, hs: set<Entity>, ss: set<Entity>, x: Entity)
    requires hs !! ss && x in hs + ss && Drains(answers, hs, ss) && |answers| >= |hs| + |ss|
    ensures Some(x) in answers[..|hs| + |ss|]
  {
    var d := |hs| + |ss|;
    var served := seq(d, i requires 0 <= i < d => answers[i].value);
    if x !in served {
      Pigeonhole(served, hs + ss - {x});
      assert false;
    }
    var i :| 0 <= i < d && served[i] == x;
    assert answers[..d][i] == Some(x);
  }

  /** At a fixed time, within as many pops as there are hosts and services, exactly those are served that
      have a check command and whose next check has passed. */
  lemma ServedAtIff(s: State, evs: seq<Event>, now: int, x: Entity)
    requires WellFormed(s) && ValidRun(s, evs) && SyncFree(evs) && At(evs, now)
    requires |Answers(evs)| >= |s.core.hosts| + |s.core.services|
    ensures Some(x) in Answers(evs) <==>
            match x
            case HostEntity(k) => k in s.core.hosts && s.core.hosts[k].checkCommand != "" && s.core.hosts[k].nextCheck < now
            case ServiceEntity(k) =>
              k in s.core.services && s.core.services[k].checkCommand != "" && s.core.services[k].nextCheck < now
  {
    var hs, ss := DueHosts(s.core, now), DueServices(s.core, now);
    Draining(s, evs, now);
    DueCounts(s.core, now);
    assert |DueEntities(s.core, now)| == |hs| + |ss|;
    if x in DueEntities(s.core, now) {
      DrainedAll(s, evs, now, x);
    } else if Some(x) in Answers(evs) {
      DrainedOnly(Answers(evs), hs, ss, x);
    }
  }

  lemma DueCounts(c: Core, now: int)
    ensures |DueHosts(c, now)| <= |c.hosts| && |DueServices(c, now)| <= |c.services|
  {
    EntityCounts(c);
    SubsetCount(DueHosts(c, now), HostEntities(c));
    SubsetCount(DueServices(c, now), ServiceEntities(c));
  }

  lemma SubsetCount<T>(a: set<T>, b: set<T>)
    requires a <= b
    ensures |a| <= |b|
  {
    assert b == a + (b - a);
  }

  lemma DrainedOnly(answers: seq<Option<Entity>>, hs: set<Entity>, ss: set<Entity>, x: Entity)
    requires Drains(answers, hs, ss) && Some(x) in answers
    ensures x in hs + ss
  {
    var i :| 0 <= i < |answers| && answers[i] == Some(x);
    assert answers[i].Some?;
    assert i < |hs| || |hs| <= i;
  }

  /** A pop answers no content if and only if no entity with a check command has its next check behind it. */
  lemma NoContentIff(s: State, now: int, served: Option<Entity>)
    requires Enabled(s, Pop(now, served))
    ensures served.None? <==>
            && (forall k :: k in s.core.hosts ==> s.core.hosts[k].checkCommand == "" || now <= s.core.hosts[k].nextCheck)
            && (forall k :: k in s.core.services ==>
                  s.core.services[k].checkCommand == "" || now <= s.core.services[k].nextCheck)
  {
    if served.None? {
      forall k | k in s.core.hosts ensures s.core.hosts[k].checkCommand == "" || now <= s.core.hosts[k].nextCheck {
        assert !Due(s.core, HostEntity(k), now);
      }
      forall k | k in s.core.services
        ensures s.core.services[k].checkCommand == "" || now <= s.core.services[k].nextCheck
      {
        assert !Due(s.core, ServiceEntity(k), now);
      }
    }
  }

  // ---------------------------------------------------------------- what is handed out

  lemma {:induction false} RunKeepsCommands(s: State, evs: seq<Event>)
    requires ValidRun(s, evs) && SyncFree(evs)
    ensures Run(s, evs).core.hosts.Keys == s.core.hosts.Keys
    ensures Run(s, evs).core.services.Keys == s.core.services.Keys
    ensures forall k :: k in s.core.hosts ==> Run(s, evs).core.hosts[k].checkCommand == s.core.hosts[k].checkCommand
    ensures forall k :: k in s.core.services ==>
              Run(s, evs).core.services[k].checkCommand == s.core.services[k].checkCommand
    decreases |evs|
  {
    if evs != [] {
      StepKeepsEntities(s, evs[0]);
      StepKeepsCommands(s, evs[0]);
      RunKeepsCommands(Apply(s, evs[0]), evs[1..]);
    }
  }

  /** From a sync up to the next one, the task of every host that is served has the ID of the host behind
      "HOST:" and the check command, not empty, of the last definition of that ID in the payload. */
  lemma HostTasks(s: State, sync: Event, evs: seq<Event>, now: int, k: string) returns (i: nat)
    requires WellFormed(s) && sync.Sync? && ValidRun(s, [sync] + evs) && SyncFree(evs)
    requires Enabled(Run(s, [sync] + evs), Pop(now, Some(HostEntity(k))))
    ensures i < |sync.hosts| && sync.hosts[i].id == k && forall j :: i < j < |sync.hosts| ==> sync.hosts[j].id != k
    ensures sync.hosts[i].checkCommand != ""
    ensures TaskOf(Run(s, [sync] + evs).core, HostEntity(k)) == CheckTask("HOST:" + k, sync.hosts[i].checkCommand)
  {
    assert ([sync] + evs)[1..] == evs;
    var s' := Apply(s, sync);
    StepKeepsWellFormed(s, sync);
    RunKeepsWellFormed(s', evs);
    RunKeepsCommands(s', evs);
    SyncedHostsKeys(s.core.hosts, sync.hosts, sync.now);
    i := LastHost(sync.hosts, k);
    SyncKeepsHostState(s.core.hosts, sync.hosts, sync.now, i);
  }

  lemma {:induction false} LastHost(hosts: seq<Host>, k: string) returns (i: nat)
    requires k in HostIds(hosts)
    ensures i < |hosts| && hosts[i].id == k && forall j :: i < j < |hosts| ==> hosts[j].id != k
  {
    var last := |hosts| - 1;
    if hosts[last].id == k {
      i := last;
    } else {
      i := LastHost(hosts[..last], k);
    }
  }

  /** The same for services, whose tasks have their own ID. */
  lemma ServiceTasks(s: State, sync: Event, evs: seq<Event>, now: int, k: string) returns (i: nat)
    requires WellFormed(s) && sync.Sync? && ValidRun(s, [sync] + evs) && SyncFree(evs)
    requires Enabled(Run(s, [sync] + evs), Pop(now, Some(ServiceEntity(k))))
    ensures i < |sync.services| && sync.services[i].id == k
    ensures forall j :: i < j < |sync.services| ==> sync.services[j].id != k
    ensures sync.services[i].checkCommand != ""
    ensures TaskOf(Run(s, [sync] + evs).core, ServiceEntity(k)) == CheckTask(k, sync.services[i].checkCommand)
  {
    assert ([sync] + evs)[1..] == evs;
    var s' := Apply(s, sync);
    StepKeepsWellFormed(s, sync);
    RunKeepsWellFormed(s', evs);
    RunKeepsCommands(s', evs);
    SyncedServicesKeys(s.core.services, sync.services, sync.now);
    i := LastService(sync.services, k);
    SyncKeepsServiceState(s.core.services, sync.services, sync.now, i);
  }

  lemma {:induction false} LastService(services: seq<Service>, k: string) returns (i: nat)
    requires k in ServiceIds(services)
    ensures i < |services| && services[i].id == k && forall j :: i < j < |services| ==> services[j].id != k
  {
    var last := |services| - 1;
    if services[last].id == k {
      i := last;
    } else {
      i := LastService(services[..last], k);
    }
  }

  // ---------------------------------------------------------------- in nanoseconds

  /** Two pops of one host are more than 120 seconds apart, two of one service more than 60, and a pop
      arms the next check exactly that much later. */
  lemma PacingInSeconds(s: State, evs: seq<Event>, e: Entity, i: nat)
    requires WellFormed(s) && ValidRun(s, evs) && Configured(s.core, e) && Keeps(evs, e)
    requires i + 1 < |PopTimes(evs, e)|
    ensures PopTimes(evs, e)[i + 1] - PopTimes(evs, e)[i] >
            if e.HostEntity? then 120_000_000_000 else 60_000_000_000
    ensures Configured(Run(s, evs).core, e)
    ensures NextCheckOf(Run(s, evs).core, e) == PopTimes(evs, e)[|PopTimes(evs, e)| - 1]
                                                + if e.HostEntity? then 120_000_000_000 else 60_000_000_000
  {
    Pacing(s, evs, e);
    SpacedAt(PopTimes(evs, e), Period(e), i);
  }

  lemma {:induction false} SpacedAt(times: seq<int>, period: int, i: nat)
    requires Spaced(times, period) && i + 1 < |times|
    ensures times[i + 1] > times[i] + period
    decreases |times|
  {
    if i > 0 {
      SpacedAt(times[1..], period, i - 1);
    }
  }
}
