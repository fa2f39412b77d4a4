/** The scheduler as a step machine over values.

    `Core` is what the mutex protects; `State` adds the bounded result queue, the ten workers
    (each idle or holding one dequeued result) and the last time read under the mutex.  Every
    nondeterministic choice (map iteration order, worker scheduling, the clock) is part of the
    event, so a run is a sequence of events. */
module SchedulerState {
  import opened Models

  const QUEUE_CAPACITY: nat := 5000
  const WORKER_COUNT: nat := 10

  datatype Entity = HostEntity(id: string) | ServiceEntity(id: string)

  datatype LogLine = LogLine(entity: Entity, state: string, output: string)

  datatype Notification = Notification(entityId: string, kind: string, state: int, output: string)

  /** Whether a history log is configured, and whether results go to a broker. */
  datatype Options = Options(historyLog: bool, broker: bool)

  datatype Core = Core(
    opts: Options, hosts: map<string, Host>, services: map<string, Service>,
    history: seq<LogLine>, notified: seq<Notification>, forwarded: seq<CheckResult>)

  datatype State = State(
    core: Core, queue: seq<CheckResult>, workers: seq<Option<CheckResult>>, clock: int)

  datatype Event =
    | Sync(now: int, hosts: seq<Host>, services: seq<Service>)
    | Pop(now: int, served: Option<Entity>)
    | Push(result: CheckResult, accepted: bool)
    | Dequeue(worker: nat)
    | Process(worker: nat)

  /** Both maps are keyed by the ID of the object they hold. */
  ghost predicate WellKeyed(c: Core) {
    && (forall k :: k in c.hosts ==> c.hosts[k].id == k)
    && (forall k :: k in c.services ==> c.services[k].id == k)
  }

  ghost predicate WellFormed(s: State) {
    && WellKeyed(s.core)
    && |s.workers| == 10
    && |s.queue| <= 5000
  }

  // ---------------------------------------------------------------- sync-all

  function MergedHost(known: map<string, Host>, h: Host, now: int): Host {
    if h.id in known then
      h.(isUp := known[h.id].isUp, status := known[h.id].status, nextCheck := known[h.id].nextCheck)
    else
      h.(isUp := true, nextCheck := now)
  }

  function MergedService(known: map<string, Service>, s: Service, now: int): Service {
    if s.id in known then
      s.(nextCheck := known[s.id].nextCheck, currentState := known[s.id].currentState)
    else
      s.(nextCheck := now)
  }

  /** The map rebuilt from the payload; a later definition of an ID replaces an earlier one. */
  function SyncedHosts(known: map<string, Host>, hosts: seq<Host>, now: int): map<string, Host> {
    if hosts == [] then map[]
    else
      var h := hosts[|hosts| - 1];
      SyncedHosts(known, hosts[..|hosts| - 1], now)[h.id := MergedHost(known, h, now)]
  }

  function SyncedServices(known: map<string, Service>, services: seq<Service>, now: int): map<string, Service> {
    if services == [] then map[]
    else
      var s := services[|services| - 1];
      SyncedServices(known, services[..|services| - 1], now)[s.id := MergedService(known, s, now)]
  }

  // ---------------------------------------------------------------- pop-task

  predicate HostDue(h: Host, now: int) {
    h.checkCommand != "" && now > h.nextCheck
  }

  predicate ServiceDue(s: Service, now: int) {
    s.checkCommand != "" && now > s.nextCheck
  }

  predicate Configured(c: Core, e: Entity) {
    match e
    case HostEntity(k) => k in c.hosts
    case ServiceEntity(k) => k in c.services
  }

  predicate Due(c: Core, e: Entity, now: int) {
    && Configured(c, e)
    && match e
       case HostEntity(k) => HostDue(c.hosts[k], now)
       case ServiceEntity(k) => ServiceDue(c.services[k], now)
  }

  function NextCheckOf(c: Core, e: Entity): int
    requires Configured(c, e)
  {
    match e
    case HostEntity(k) => c.hosts[k].nextCheck
    case ServiceEntity(k) => c.services[k].nextCheck
  }

  function Period(e: Entity): int {
    if e.HostEntity? then 2 * MINUTE else MINUTE
  }

  function TaskId(e: Entity): string {
    if e.HostEntity? then "HOST:" + e.id else e.id
  }

  function TaskOf(c: Core, e: Entity): CheckTask
    requires Configured(c, e)
  {
    match e
    case HostEntity(k) => CheckTask("HOST:" + c.hosts[k].id, c.hosts[k].checkCommand)
    case ServiceEntity(k) => CheckTask(c.services[k].id, c.services[k].checkCommand)
  }

  /** A host is served before any service, and nothing is refused while something is due. */
  ghost predicate MayServe(c: Core, served: Option<Entity>, now: int) {
    match served
    case Some(e) => Due(c, e, now) && (e.ServiceEntity? ==> NoHostDue(c, now))
    case None => forall e: Entity :: !Due(c, e, now)
  }

  ghost predicate NoHostDue(c: Core, now: int) {
    forall k :: k in c.hosts ==> !HostDue(c.hosts[k], now)
  }

  ghost predicate NoServiceDue(c: Core, now: int) {
    forall k :: k in c.services ==> !ServiceDue(c.services[k], now)
  }

  function Rearmed(c: Core, e: Entity, now: int): Core
    requires Configured(c, e)
  {
    match e
    case HostEntity(k) => c.(hosts := c.hosts[k := c.hosts[k].(nextCheck := now + 2 * MINUTE)])
    case ServiceEntity(k) => c.(services := c.services[k := c.services[k].(nextCheck := now + MINUTE)])
  }

  // ---------------------------------------------------------------- results

  /** The entity to which a worker routes a result. */
  function Target(id: string): Entity {
    if "HOST:" <= id then HostEntity(id[5..]) else ServiceEntity(id)
  }

  function StateName(up: bool): string {
    if up then "UP" else "DOWN"
  }

  function HandleHost(c: Core, key: string, r: CheckResult): Core {
    if key !in c.hosts then c
    else
      var h := c.hosts[key];
      var up := r.status == 0;
      var flipped := h.isUp != up;
      c.(hosts := c.hosts[key := h.(isUp := up, status := r.status, output := r.output)],
         history := if flipped && c.opts.historyLog
                    then c.history + [LogLine(HostEntity(h.id), StateName(up), r.output)] else c.history,
         notified := if flipped && !h.inDowntime
                     then c.notified + [Notification(h.id, StateName(up), r.status, r.output)] else c.notified,
         forwarded := if c.opts.broker then c.forwarded + [r] else c.forwarded)
  }

  /** The host of a service silences it when it is known and in downtime. */
  predicate HostSilences(c: Core, hostName: string) {
    hostName in c.hosts && c.hosts[hostName].inDowntime
  }

  function HandleService(c: Core, key: string, r: CheckResult): Core {
    if key !in c.services then c
    else
      var s := c.services[key];
      var changed := s.currentState != r.status;
      c.(services := c.services[key := s.(currentState := r.status, output := r.output)],
         history := if changed && c.opts.historyLog
                    then c.history + [LogLine(ServiceEntity(s.id), "CHANGE", r.output)] else c.history,
         notified := if changed && !s.inDowntime && !HostSilences(c, s.hostName)
                     then c.notified + [Notification(s.id, "ALERT", r.status, r.output)] else c.notified,
         forwarded := if c.opts.broker then c.forwarded + [r] else c.forwarded)
  }

  function Handle(c: Core, r: CheckResult): Core {
    match Target(r.id)
    case HostEntity(k) => HandleHost(c, k, r)
    case ServiceEntity(k) => HandleService(c, k, r)
  }

  /** Everything that a result of a configured host changes, read off the maps: its fields, one line
      and one notification when the up flag changes (no notification in downtime), one copy for the
      broker. */
  lemma HostResult(c: Core, k: string, r: CheckResult)
    requires WellKeyed(c) && k in c.hosts && r.id == "HOST:" + k
    ensures var h, c' := c.hosts[k], Handle(c, r);
            var flips, name := h.isUp != (r.status == 0), if r.status == 0 then "UP" else "DOWN";
            && c'.opts == c.opts && c'.services == c.services
            && c'.hosts == c.hosts[k := h.(isUp := r.status == 0, status := r.status, output := r.output)]
            && c'.history == c.history
                 + (if flips && c.opts.historyLog then [LogLine(HostEntity(k), name, r.output)] else [])
            && c'.notified == c.notified
                 + (if flips && !h.inDowntime then [Notification(k, name, r.status, r.output)] else [])
            && c'.forwarded == c.forwarded + (if c.opts.broker then [r] else [])
  {
    assert r.id[5..] == k;
    Unchanged(c);
  }

  /** The same for a configured service: an alert is sent when the state changes, the service is not in
      downtime, and its host is unknown or not in downtime. */
  lemma ServiceResult(c: Core, k: string, r: CheckResult)
    requires WellKeyed(c) && k in c.services && r.id == k && !("HOST:" <= k)
    ensures var v, c' := c.services[k], Handle(c, r);
            var changed := v.currentState != r.status;
            var hostQuiet := v.hostName in c.hosts && c.hosts[v.hostName].inDowntime;
            && c'.opts == c.opts && c'.hosts == c.hosts
            && c'.services == c.services[k := v.(currentState := r.status, output := r.output)]
            && c'.history == c.history
                 + (if changed && c.opts.historyLog then [LogLine(ServiceEntity(k), "CHANGE", r.output)] else [])
            && c'.notified == c.notified
                 + (if changed && !v.inDowntime && !hostQuiet
                    then [Notification(k, "ALERT", r.status, r.output)] else [])
            && c'.forwarded == c.forwarded + (if c.opts.broker then [r] else [])
  {
    Unchanged(c);
  }

  lemma Unchanged(c: Core)
    ensures c.history + [] == c.history && c.notified + [] == c.notified && c.forwarded + [] == c.forwarded
  {
  }

  /** A result of anything else changes nothing. */
  lemma UnknownResult(c: Core, r: CheckResult)
    requires if "HOST:" <= r.id then r.id[5..] !in c.hosts else r.id !in c.services
    ensures Handle(c, r) == c
  {
  }

  /** The results `rs` processed one after the other. */
  function HandleAll(c: Core, rs: seq<CheckResult>): Core
    decreases |rs|
  {
    if rs == [] then c else HandleAll(Handle(c, rs[0]), rs[1..])
  }

  // ---------------------------------------------------------------- the machine

  ghost predicate Enabled(s: State, ev: Event) {
    match ev
    case Sync(now, _, _) => s.clock <= now
    case Pop(now, served) => s.clock <= now && MayServe(s.core, served, now)
    case Push(_, accepted) => accepted <==> |s.queue| < QUEUE_CAPACITY
    case Dequeue(w) => w < |s.workers| && s.workers[w].None? && s.queue != []
    case Process(w) => w < |s.workers| && s.workers[w].Some?
  }

  ghost function Apply(s: State, ev: Event): State
    requires Enabled(s, ev)
  {
    match ev
    case Sync(now, hs, ss) =>
      s.(core := s.core.(hosts := SyncedHosts(s.core.hosts, hs, now),
                         services := SyncedServices(s.core.services, ss, now)),
         clock := now)
    case Pop(now, served) =>
      s.(core := if served.Some? then Rearmed(s.core, served.value, now) else s.core, clock := now)
    case Push(r, accepted) =>
      s.(queue := if accepted then s.queue + [r] else s.queue)
    case Dequeue(w) =>
      s.(queue := s.queue[1..], workers := s.workers[w := Some(s.queue[0])])
    case Process(w) =>
      s.(core := Handle(s.core, s.workers[w].value), workers := s.workers[w := None])
  }

  ghost predicate ValidRun(s: State, evs: seq<Event>)
    decreases |evs|
  {
    evs == [] || (Enabled(s, evs[0]) && ValidRun(Apply(s, evs[0]), evs[1..]))
  }

  ghost function Run(s: State, evs: seq<Event>): State
    requires ValidRun(s, evs)
    decreases |evs|
  {
    if evs == [] then s else Run(Apply(s, evs[0]), evs[1..])
  }

  /** The results that workers processed during a run, in the order of the lock. */
  ghost function Processed(s: State, evs: seq<Event>): seq<CheckResult>
    requires ValidRun(s, evs)
    decreases |evs|
  {
    if evs == [] then []
    else
      (if evs[0].Process? then [s.workers[evs[0].worker].value] else [])
      + Processed(Apply(s, evs[0]), evs[1..])
  }

  /** A run followed by another one. */
  lemma {:induction false} RunBoth(s: State, a: seq<Event>, b: seq<Event>)
    requires ValidRun(s, a) && ValidRun(Run(s, a), b)
    ensures ValidRun(s, a + b) && Run(s, a + b) == Run(Run(s, a), b)
    decreases |a|
  {
    if a == [] {
      assert a + b == b;
    } else {
      RunBoth(Apply(s, a[0]), a[1..], b);
      assert (a + b)[0] == a[0] && (a + b)[1..] == a[1..] + b;
    }
  }

  ghost predicate SyncFree(evs: seq<Event>) {
    evs == [] || (!evs[0].Sync? && SyncFree(evs[1..]))
  }

  /** Entity `e` is in the payload of every sync of the run. */
  ghost predicate Keeps(evs: seq<Event>, e: Entity) {
    evs == [] || (Mentions(evs[0], e) && Keeps(evs[1..], e))
  }

  ghost predicate Mentions(ev: Event, e: Entity) {
    ev.Sync? ==>
      match e
      case HostEntity(k) => k in HostIds(ev.hosts)
      case ServiceEntity(k) => k in ServiceIds(ev.services)
  }

  // ---------------------------------------------------------------- lemmas about sync-all

  /** A sync keeps exactly the hosts of the payload; a known host keeps its up flag, status and next
      check and a new one starts up and due; everything else, the output included, is taken from the
      last definition of its ID. */
  lemma {:induction false} SyncKeepsHostState(known: map<string, Host>, hosts: seq<Host>, now: int, i: nat)
    requires i < |hosts|
    requires forall j :: i < j < |hosts| ==> hosts[j].id != hosts[i].id
    ensures hosts[i].id in SyncedHosts(known, hosts, now)
    ensures var h, k := SyncedHosts(known, hosts, now)[hosts[i].id], hosts[i].id;
            if k in known
            then h == hosts[i].(isUp := known[k].isUp, status := known[k].status, nextCheck := known[k].nextCheck)
            else h == hosts[i].(isUp := true, nextCheck := now)
  {
    if i < |hosts| - 1 {
      SyncKeepsHostState(known, hosts[..|hosts| - 1], now, i);
    }
  }

  lemma {:induction false} SyncKeepsServiceState(known: map<string, Service>, services: seq<Service>, now: int, i: nat)
    requires i < |services|
    requires forall j :: i < j < |services| ==> services[j].id != services[i].id
    ensures services[i].id in SyncedServices(known, services, now)
    ensures var s, k := SyncedServices(known, services, now)[services[i].id], services[i].id;
            if k in known
            then s == services[i].(nextCheck := known[k].nextCheck, currentState := known[k].currentState)
            else s == services[i].(nextCheck := now)
  {
    if i < |services| - 1 {
      SyncKeepsServiceState(known, services[..|services| - 1], now, i);
    }
  }

  lemma {:induction false} SyncedHostFrom(known: map<string, Host>, hosts: seq<Host>, now: int, k: string) returns (h: Host)
    requires k in SyncedHosts(known, hosts, now)
    ensures h in hosts && h.id == k && SyncedHosts(known, hosts, now)[k] == MergedHost(known, h, now)
  {
    var front, last := hosts[..|hosts| - 1], hosts[|hosts| - 1];
    if k == last.id {
      h := last;
    } else {
      h := SyncedHostFrom(known, front, now, k);
    }
  }

  lemma {:induction false} SyncedHostIds(known: map<string, Host>, hosts: seq<Host>, now: int)
    ensures SyncedHosts(known, hosts, now).Keys == HostIds(hosts)
  {
    if hosts != [] {
      var front, last := hosts[..|hosts| - 1], hosts[|hosts| - 1];
      SyncedHostIds(known, front, now);
      assert hosts == front + [last];
      assert HostIds(front + [last]) == HostIds(front) + {last.id};
    }
  }

  lemma SyncedHostsKeys(known: map<string, Host>, hosts: seq<Host>, now: int)
    ensures SyncedHosts(known, hosts, now).Keys == HostIds(hosts)
    ensures forall k :: k in SyncedHosts(known, hosts, now) ==>
              && SyncedHosts(known, hosts, now)[k].id == k
              && exists h :: h in hosts && h.id == k && SyncedHosts(known, hosts, now)[k] == MergedHost(known, h, now)
  {
    SyncedHostIds(known, hosts, now);
    forall k | k in SyncedHosts(known, hosts, now)
      ensures SyncedHosts(known, hosts, now)[k].id == k
      ensures exists h :: h in hosts && h.id == k && SyncedHosts(known, hosts, now)[k] == MergedHost(known, h, now)
    {
      var h := SyncedHostFrom(known, hosts, now, k);
    }
  }

  lemma {:induction false} SyncedServiceFrom(known: map<string, Service>, services: seq<Service>, now: int, k: string) returns (s: Service)
    requires k in SyncedServices(known, services, now)
    ensures s in services && s.id == k && SyncedServices(known, services, now)[k] == MergedService(known, s, now)
  {
    var front, last := services[..|services| - 1], services[|services| - 1];
    if k == last.id {
      s := last;
    } else {
      s := SyncedServiceFrom(known, front, now, k);
    }
  }

  lemma {:induction false} SyncedServiceIds(known: map<string, Service>, services: seq<Service>, now: int)
    ensures SyncedServices(known, services, now).Keys == ServiceIds(services)
  {
    if services != [] {
      var front, last := services[..|services| - 1], services[|services| - 1];
      SyncedServiceIds(known, front, now);
      assert services == front + [last];
      assert ServiceIds(front + [last]) == ServiceIds(front) + {last.id};
    }
  }

  lemma SyncedServicesKeys(known: map<string, Service>, services: seq<Service>, now: int)
    ensures SyncedServices(known, services, now).Keys == ServiceIds(services)
    ensures forall k :: k in SyncedServices(known, services, now) ==>
              && SyncedServices(known, services, now)[k].id == k
              && exists s :: s in services && s.id == k && SyncedServices(known, services, now)[k] == MergedService(known, s, now)
  {
    SyncedServiceIds(known, services, now);
    forall k | k in SyncedServices(known, services, now)
      ensures SyncedServices(known, services, now)[k].id == k
      ensures exists s :: s in services && s.id == k && SyncedServices(known, services, now)[k] == MergedService(known, s, now)
    {
      var s := SyncedServiceFrom(known, services, now, k);
    }
  }

  // ---------------------------------------------------------------- invariants

  lemma StepKeepsWellFormed(s: State, ev: Event)
    requires WellFormed(s) && Enabled(s, ev)
    ensures WellFormed(Apply(s, ev))
  {
    if ev.Sync? {
      SyncedHostsKeys(s.core.hosts, ev.hosts, ev.now);
      SyncedServicesKeys(s.core.services, ev.services, ev.now);
    }
  }

  /** In every reachable state the maps are keyed by ID, at most 5000 results are queued, and there
      are ten workers. */
  lemma {:induction false} RunKeepsWellFormed(s: State, evs: seq<Event>)
    requires WellFormed(s) && ValidRun(s, evs)
    ensures WellFormed(Run(s, evs))
    decreases |evs|
  {
    if evs != [] {
      StepKeepsWellFormed(s, evs[0]);
      RunKeepsWellFormed(Apply(s, evs[0]), evs[1..]);
    }
  }
}
