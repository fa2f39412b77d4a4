/** RunLinter (cmd/arbiter/linter.go).  Error texts are constructors; whether a string is an IP address
    is decided by the Go standard library and is a parameter here. */
module Linter {
  import opened Models
  import opened Seqs
  import opened Loader

  datatype LintError =
    | EmptyHostId
    | DuplicateHost(id: string)
    | MissingServiceId(hostName: string)
    | Orphan(id: string)
    | UnknownHost(id: string, hostName: string)

  datatype Warning = OddAddress(id: string, address: string)

  datatype Counts = Counts(
    hosts: nat, services: nat, commands: nat, timePeriods: nat, contacts: nat, hostGroups: nat, serviceGroups: nat)

  datatype Audit = Audit(errors: seq<LintError>, warnings: seq<Warning>, counts: Counts)

  // ---------------------------------------------------------------- specification

  /** The IDs of the registered hosts, in order, repeated and empty ones included. */
  function RegisteredIds(hosts: seq<Host>): seq<string> {
    if hosts == [] then []
    else
      var front, last := RegisteredIds(hosts[..|hosts| - 1]), hosts[|hosts| - 1];
      if IsTemplate(last.register) then front else front + [last.id]
  }

  function RegisteredServices(services: seq<Service>): seq<Service> {
    if services == [] then []
    else
      var front, last := RegisteredServices(services[..|services| - 1]), services[|services| - 1];
      if IsTemplate(last.register) then front else front + [last]
  }

  /** The host names that a service may refer to. */
  function KnownHosts(ids: seq<string>): set<string> {
    set id | id in ids && id != ""
  }

  /** The error that the ID `id` of a host causes, after the IDs `front`. */
  function IdError(front: seq<string>, id: string): seq<LintError> {
    if id == "" then [EmptyHostId] else if id in front then [DuplicateHost(id)] else []
  }

  /** The errors about host IDs; `ids` are the registered ones. */
  function IdErrors(ids: seq<string>): seq<LintError> {
    if ids == [] then []
    else
      var front, id := ids[..|ids| - 1], ids[|ids| - 1];
      IdErrors(front) + IdError(front, id)
  }

  function ServiceErrors(services: seq<Service>, known: set<string>): seq<LintError> {
    if services == [] then []
    else
      var s := services[|services| - 1];
      ServiceErrors(services[..|services| - 1], known) + ErrorsOf(s, known)
  }

  function ErrorsOf(s: Service, known: set<string>): seq<LintError> {
    (if s.id == "" then [MissingServiceId(s.hostName)] else [])
    + (if s.hostName == "" then [Orphan(s.id)] else if s.hostName !in known then [UnknownHost(s.id, s.hostName)] else [])
  }

  function LintErrors(cfg: GlobalConfig): seq<LintError> {
    var ids := RegisteredIds(cfg.hosts);
    IdErrors(ids) + ServiceErrors(RegisteredServices(cfg.services), KnownHosts(ids))
  }

  function AddressWarnings(hosts: seq<Host>, isIp: string -> bool): seq<Warning> {
    if hosts == [] then []
    else
      var h := hosts[|hosts| - 1];
      AddressWarnings(hosts[..|hosts| - 1], isIp)
      + if IsTemplate(h.register) || h.id == "" || h.address == "" || h.address == "localhost" || isIp(h.address)
        then [] else [OddAddress(h.id, h.address)]
  }

  // ---------------------------------------------------------------- exactness

  ghost predicate PairwiseDistinct(ids: seq<string>) {
    forall i, j :: 0 <= i < j < |ids| ==> ids[i] != ids[j]
  }

  function WithoutId(services: seq<Service>): nat {
    if services == [] then 0
    else WithoutId(services[..|services| - 1]) + if services[|services| - 1].id == "" then 1 else 0
  }

  /** Services whose host is missing or unknown. */
  function Dangling(services: seq<Service>, known: set<string>): nat {
    if services == [] then 0
    else Dangling(services[..|services| - 1], known) + if services[|services| - 1].hostName !in known then 1 else 0
  }

  lemma IdErrorsSnoc(front: seq<string>, id: string)
    ensures IdErrors(front + [id]) == IdErrors(front) + IdError(front, id)
  {
    assert (front + [id])[..|front|] == front;
  }

  /** How many errors of kind `e` one more ID adds. */
  lemma IdErrorsCount(front: seq<string>, id: string, e: LintError)
    ensures multiset(IdErrors(front + [id]))[e] == multiset(IdErrors(front))[e] + multiset(IdError(front, id))[e]
  {
    IdErrorsSnoc(front, id);
    CountBoth(IdErrors(front), IdError(front, id), e);
  }

  /** How many of the errors about IDs are which: one for every empty ID ... */
  lemma {:induction false} EmptyIdErrors(ids: seq<string>)
    ensures multiset(IdErrors(ids))[EmptyHostId] == multiset(ids)[""]
  {
    if ids != [] {
      var front, id := ids[..|ids| - 1], ids[|ids| - 1];
      assert ids == front + [id];
      EmptyIdErrors(front);
      CountSnoc(front, id, "");
      IdErrorsCount(front, id, EmptyHostId);
    }
  }

  /** ... and for every other ID one for each host that has it beyond the first. */
  lemma {:induction false} DuplicateErrors(ids: seq<string>, k: string)
    requires k != ""
    ensures multiset(IdErrors(ids))[DuplicateHost(k)] == if k in ids then multiset(ids)[k] - 1 else 0
  {
    if ids != [] {
      var front, id := ids[..|ids| - 1], ids[|ids| - 1];
      assert ids == front + [id];
      DuplicateErrors(front, k);
      CountSnoc(front, id, k);
      IdErrorsCount(front, id, DuplicateHost(k));
    }
  }

  lemma CountBoth<T>(a: seq<T>, b: seq<T>, x: T)
    ensures multiset(a + b)[x] == multiset(a)[x] + multiset(b)[x]
  {
  }

  lemma CountSnoc<T>(front: seq<T>, last: T, x: T)
    ensures multiset(front + [last])[x] == multiset(front)[x] + if last == x then 1 else 0
  {
  }

  /** All registered hosts but one per distinct non-empty ID. */
  lemma {:induction false} IdErrorCount(ids: seq<string>)
    ensures |IdErrors(ids)| == |ids| - |KnownHosts(ids)|
  {
    if ids != [] {
      var front, id := ids[..|ids| - 1], ids[|ids| - 1];
      IdErrorCount(front);
      assert ids == front + [id];
      IdErrorsSnoc(front, id);
      KnownSnoc(front, id);
    }
  }

  lemma KnownSnoc(front: seq<string>, id: string)
    ensures |KnownHosts(front + [id])| == |KnownHosts(front)| + if id == "" || id in front then 0 else 1
  {
    if id == "" || id in front {
      assert KnownHosts(front + [id]) == KnownHosts(front);
    } else {
      assert KnownHosts(front + [id]) == KnownHosts(front) + {id};
    }
  }

  lemma {:induction false} ServiceErrorCount(services: seq<Service>, known: set<string>)
    requires "" !in known
    ensures |ServiceErrors(services, known)| == WithoutId(services) + Dangling(services, known)
  {
    if services != [] {
      ServiceErrorCount(services[..|services| - 1], known);
    }
  }

  /** The number of errors: empty host IDs, plus registered hosts beyond the first of their ID, plus
      services without ID, plus services whose host is missing or unknown. */
  lemma ErrorCount(cfg: GlobalConfig)
    ensures var ids, ss := RegisteredIds(cfg.hosts), RegisteredServices(cfg.services);
            && |LintErrors(cfg)| == |IdErrors(ids)| + WithoutId(ss) + Dangling(ss, KnownHosts(ids))
            && multiset(IdErrors(ids))[EmptyHostId] == multiset(ids)[""]
            && |IdErrors(ids)| - multiset(IdErrors(ids))[EmptyHostId] == |ids| - multiset(ids)[""] - |KnownHosts(ids)|
  {
    IdErrorCount(RegisteredIds(cfg.hosts));
    EmptyIdErrors(RegisteredIds(cfg.hosts));
    ServiceErrorCount(RegisteredServices(cfg.services), KnownHosts(RegisteredIds(cfg.hosts)));
  }

  /** The services that cause error `e`, which names its arguments. */
  function Causes(s: Service, known: set<string>, e: LintError): bool {
    match e
    case MissingServiceId(hostName) => s.id == "" && s.hostName == hostName
    case Orphan(id) => s.hostName == "" && s.id == id
    case UnknownHost(id, hostName) => s.id == id && s.hostName == hostName && hostName != "" && hostName !in known
    case _ => false
  }

  /** How many services cause error `e`. */
  function Causing(services: seq<Service>, known: set<string>, e: LintError): nat {
    if services == [] then 0
    else (if Causes(services[0], known, e) then 1 else 0) + Causing(services[1..], known, e)
  }

  lemma {:induction false} CausingSnoc(front: seq<Service>, last: Service, known: set<string>, e: LintError)
    ensures Causing(front + [last], known, e) == Causing(front, known, e) + if Causes(last, known, e) then 1 else 0
  {
    if front == [] {
      assert front + [last] == [last];
    } else {
      CausingSnoc(front[1..], last, known, e);
      assert (front + [last])[1..] == front[1..] + [last];
    }
  }

  /** Each error about services occurs as often as services cause it. */
  lemma {:induction false} ServiceErrorKinds(services: seq<Service>, known: set<string>, e: LintError)
    ensures multiset(ServiceErrors(services, known))[e] == Causing(services, known, e)
  {
    if services != [] {
      var front, last := services[..|services| - 1], services[|services| - 1];
      assert services == front + [last];
      ServiceErrorKinds(front, known, e);
      ErrorsSnocKinds(front, last, known, e);
      CausingSnoc(front, last, known, e);
    }
  }

  lemma ErrorsSnocKinds(front: seq<Service>, last: Service, known: set<string>, e: LintError)
    ensures multiset(ServiceErrors(front + [last], known))[e] ==
            multiset(ServiceErrors(front, known))[e] + if Causes(last, known, e) then 1 else 0
  {
    ServiceErrorsSnoc(front, last, known);
    CountBoth(ServiceErrors(front, known), ErrorsOf(last, known), e);
    ErrorsOfKinds(last, known, e);
  }

  lemma ErrorsOfKinds(s: Service, known: set<string>, e: LintError)
    ensures multiset(ErrorsOf(s, known))[e] == if Causes(s, known, e) then 1 else 0
  {
    var missing := if s.id == "" then [MissingServiceId(s.hostName)] else [];
    var host := if s.hostName == "" then [Orphan(s.id)] else if s.hostName !in known then [UnknownHost(s.id, s.hostName)] else [];
    CountBoth(missing, host, e);
  }

  /** The hosts whose address is neither empty, nor localhost, nor an IP address. */
  function OddlyAddressed(h: Host, isIp: string -> bool): bool {
    h.register != Some(false) && h.id != "" && h.address !in {"", "localhost"} && !isIp(h.address)
  }

  function OddHosts(hosts: seq<Host>, isIp: string -> bool): seq<Host> {
    if hosts == [] then []
    else (if OddlyAddressed(hosts[0], isIp) then [hosts[0]] else []) + OddHosts(hosts[1..], isIp)
  }

  lemma {:induction false} OddHostsSnoc(front: seq<Host>, last: Host, isIp: string -> bool)
    ensures OddHosts(front + [last], isIp) ==
            if OddlyAddressed(last, isIp) then OddHosts(front, isIp) + [last] else OddHosts(front, isIp)
  {
    if front == [] {
      assert front + [last] == [last];
    } else {
      OddHostsSnoc(front[1..], last, isIp);
      assert (front + [last])[1..] == front[1..] + [last] && (front + [last])[0] == front[0];
      var first := if OddlyAddressed(front[0], isIp) then [front[0]] else [];
      Associative(first, OddHosts(front[1..], isIp), [last]);
    }
  }

  /** There is one warning for each of these, in order, with the host's ID and address. */
  lemma {:induction false} WarningsAre(hosts: seq<Host>, isIp: string -> bool)
    ensures var odd := OddHosts(hosts, isIp);
            AddressWarnings(hosts, isIp) ==
            seq(|odd|, i requires 0 <= i < |odd| => OddAddress(odd[i].id, odd[i].address))
  {
    if hosts != [] {
      var front, last := hosts[..|hosts| - 1], hosts[|hosts| - 1];
      WarningsAre(front, isIp);
      OddHostsSnoc(front, last, isIp);
      assert hosts == front + [last];
    }
  }

  predicate AboutIds(e: LintError) {
    e.EmptyHostId? || e.DuplicateHost?
  }

  lemma {:induction false} IdErrorsFirst(ids: seq<string>)
    ensures forall e :: e in IdErrors(ids) ==> AboutIds(e)
  {
    if ids != [] {
      IdErrorsFirst(ids[..|ids| - 1]);
    }
  }

  lemma {:induction false} ServiceErrorsLast(services: seq<Service>, known: set<string>)
    ensures forall e :: e in ServiceErrors(services, known) ==> !AboutIds(e)
  {
    if services != [] {
      ServiceErrorsLast(services[..|services| - 1], known);
    }
  }

  /** The errors about host IDs come before those about services. */
  lemma ErrorOrder(cfg: GlobalConfig, i: nat)
    requires i < |LintErrors(cfg)|
    ensures AboutIds(LintErrors(cfg)[i]) <==>
            i < |RegisteredIds(cfg.hosts)| - |KnownHosts(RegisteredIds(cfg.hosts))|
  {
    var ids := RegisteredIds(cfg.hosts);
    var first, second := IdErrors(ids), ServiceErrors(RegisteredServices(cfg.services), KnownHosts(ids));
    IdErrorsFirst(ids);
    ServiceErrorsLast(RegisteredServices(cfg.services), KnownHosts(ids));
    IdErrorCount(ids);
    if i < |first| {
      assert LintErrors(cfg)[i] == first[i];
    } else {
      assert LintErrors(cfg)[i] == second[i - |first|];
    }
  }

  lemma {:induction false} NoIdErrorsIff(ids: seq<string>)
    ensures IdErrors(ids) == [] <==> "" !in ids && PairwiseDistinct(ids)
  {
    if ids != [] {
      var front, id := ids[..|ids| - 1], ids[|ids| - 1];
      NoIdErrorsIff(front);
      assert ids == front + [id];
      IdErrorsSnoc(front, id);
      DistinctSnoc(front, id);
    }
  }

  lemma DistinctSnoc(front: seq<string>, id: string)
    ensures PairwiseDistinct(front + [id]) <==> PairwiseDistinct(front) && id !in front
  {
    var ids := front + [id];
    if PairwiseDistinct(ids) {
      forall i, j | 0 <= i < j < |front| ensures front[i] != front[j] {
        assert ids[i] != ids[j];
      }
      forall i | 0 <= i < |front| ensures front[i] != id {
        assert ids[i] != ids[|front|];
      }
    }
  }

  lemma {:induction false} NoServiceErrorsIff(services: seq<Service>, known: set<string>)
    requires "" !in known
    ensures ServiceErrors(services, known) == [] <==> forall s :: s in services ==> s.id != "" && s.hostName in known
  {
    if services != [] {
      var front, s := services[..|services| - 1], services[|services| - 1];
      NoServiceErrorsIff(front, known);
      assert services == front + [s];
      ServiceErrorsSnoc(front, s, known);
      assert ErrorsOf(s, known) == [] <==> s.id != "" && s.hostName in known;
    }
  }

  lemma ServiceErrorsSnoc(front: seq<Service>, s: Service, known: set<string>)
    ensures ServiceErrors(front + [s], known) == ServiceErrors(front, known) + ErrorsOf(s, known)
  {
    assert (front + [s])[..|front|] == front;
  }

  lemma {:induction false} RegisteredIdsMeaning(hosts: seq<Host>)
    ensures forall id :: id in RegisteredIds(hosts) <==> exists h :: h in hosts && h.register != Some(false) && h.id == id
    ensures (forall h :: h in hosts ==> h.register != Some(false)) ==>
              |RegisteredIds(hosts)| == |hosts| && forall i :: 0 <= i < |hosts| ==> RegisteredIds(hosts)[i] == hosts[i].id
  {
    if hosts != [] {
      var front, last := hosts[..|hosts| - 1], hosts[|hosts| - 1];
      RegisteredIdsMeaning(front);
      assert hosts == front + [last];
    }
  }

  lemma {:induction false} RegisteredServicesMeaning(services: seq<Service>)
    ensures forall s :: s in RegisteredServices(services) <==> s in services && s.register != Some(false)
    ensures (forall s :: s in services ==> s.register != Some(false)) ==> RegisteredServices(services) == services
  {
    if services != [] {
      var front, last := services[..|services| - 1], services[|services| - 1];
      RegisteredServicesMeaning(front);
      assert services == front + [last];
    }
  }

  /** The linter is exact: no error if and only if the registered hosts have non-empty, pairwise
      distinct IDs and every registered service has an ID and names a registered host. */
  lemma CleanIff(cfg: GlobalConfig)
    ensures LintErrors(cfg) == [] <==>
            && "" !in RegisteredIds(cfg.hosts)
            && PairwiseDistinct(RegisteredIds(cfg.hosts))
            && forall s :: s in cfg.services && s.register != Some(false) ==>
                 && s.id != "" && s.hostName != ""
                 && exists h :: h in cfg.hosts && h.register != Some(false) && h.id == s.hostName
  {
    var ids := RegisteredIds(cfg.hosts);
    NoIdErrorsIff(ids);
    NoServiceErrorsIff(RegisteredServices(cfg.services), KnownHosts(ids));
    RegisteredIdsMeaning(cfg.hosts);
    RegisteredServicesMeaning(cfg.services);
  }

  /** A configuration with one host is accepted when the host and the services have IDs and the services
      name the host. */
  lemma OneHostAccepted(cfg: GlobalConfig, h: Host)
    requires cfg.hosts == [h] && !IsTemplate(h.register) && h.id != ""
    requires forall s :: s in cfg.services ==> s.id != "" && s.hostName == h.id
    ensures LintErrors(cfg) == []
  {
    CleanIff(cfg);
    assert [h][..0] == [];
    assert RegisteredIds([h]) == [h.id];
    assert h in cfg.hosts;
  }

  /** On a loaded configuration the host and service counts are the lengths of the lists. */
  lemma LoadedCounts(raw: GlobalConfig, cfg: GlobalConfig)
    requires Loads(raw, cfg)
    ensures |RegisteredIds(cfg.hosts)| == |cfg.hosts| && |RegisteredServices(cfg.services)| == |cfg.services|
  {
    LoadedIsRegistered(raw, cfg);
    RegisteredIdsMeaning(cfg.hosts);
    RegisteredServicesMeaning(cfg.services);
  }

  // ---------------------------------------------------------------- the code

  /** One round of the host loop of RunLinter; `hostMap` is the map of the IDs seen so far. */
  method LintHost(h: Host, hostMap: map<string, bool>, isIp: string -> bool, ghost ids: seq<string>)
    returns (seen: map<string, bool>, errors: seq<LintError>, warnings: seq<Warning>)
    requires hostMap.Keys == KnownHosts(ids) && !IsTemplate(h.register)
    requires forall k :: k in hostMap ==> hostMap[k]
    ensures IdErrors(ids + [h.id]) == IdErrors(ids) + errors
    ensures warnings == AddressWarnings([h], isIp)
    ensures seen.Keys == KnownHosts(ids + [h.id]) && forall k :: k in seen ==> seen[k]
  {
    assert (ids + [h.id])[..|ids|] == ids;
    assert AddressWarnings([h][..0], isIp) == [];
    seen, errors, warnings := hostMap, [], [];
    if h.id == "" {
      errors := [EmptyHostId];
      return;
    }
    if h.id in hostMap && hostMap[h.id] {
      errors := [DuplicateHost(h.id)];
    }
    seen := hostMap[h.id := true];
    if h.address != "" && h.address != "localhost" && !isIp(h.address) {
      warnings := [OddAddress(h.id, h.address)];
    }
  }

  method LintHosts(hosts: seq<Host>, isIp: string -> bool)
    returns (hostMap: map<string, bool>, errors: seq<LintError>, warnings: seq<Warning>, count: nat)
    ensures errors == IdErrors(RegisteredIds(hosts))
    ensures warnings == AddressWarnings(hosts, isIp)
    ensures count == |RegisteredIds(hosts)|
    ensures hostMap.Keys == KnownHosts(RegisteredIds(hosts)) && forall k :: k in hostMap ==> hostMap[k]
  {
    hostMap, errors, warnings, count := map[], [], [], 0;
    for i := 0 to |hosts|
      invariant errors == IdErrors(RegisteredIds(hosts[..i]))
      invariant warnings == AddressWarnings(hosts[..i], isIp)
      invariant count == |RegisteredIds(hosts[..i])|
      invariant hostMap.Keys == KnownHosts(RegisteredIds(hosts[..i])) && forall k :: k in hostMap ==> hostMap[k]
    {
      var h := hosts[i];
      ghost var ids := RegisteredIds(hosts[..i]);
      assert hosts[..i + 1] == hosts[..i] + [h];
      HostSnoc(hosts[..i], h, isIp);
      if h.register.Some? && !h.register.value {
        continue;
      }
      assert RegisteredIds(hosts[..i + 1]) == ids + [h.id];
      count := count + 1;
      var newErrors, newWarnings;
      hostMap, newErrors, newWarnings := LintHost(h, hostMap, isIp, ids);
      errors := errors + newErrors;
      warnings := warnings + newWarnings;
    }
    assert hosts[..|hosts|] == hosts;
  }

  lemma HostSnoc(front: seq<Host>, h: Host, isIp: string -> bool)
    ensures AddressWarnings(front + [h], isIp) ==
            if IsTemplate(h.register) then AddressWarnings(front, isIp)
            else AddressWarnings(front, isIp) + AddressWarnings([h], isIp)
    ensures RegisteredIds(front + [h]) ==
            if IsTemplate(h.register) then RegisteredIds(front) else RegisteredIds(front) + [h.id]
  {
    assert (front + [h])[..|front|] == front;
    assert AddressWarnings([h][..0], isIp) == [];
  }

  /** One round of the service loop of RunLinter. */
  method LintService(s: Service, hostMap: map<string, bool>) returns (errors: seq<LintError>)
    requires forall k :: k in hostMap ==> hostMap[k]
    ensures errors == ErrorsOf(s, hostMap.Keys)
  {
    errors := [];
    if s.id == "" {
      errors := errors + [MissingServiceId(s.hostName)];
    }
    if s.hostName == "" {
      errors := errors + [Orphan(s.id)];
    } else if !(s.hostName in hostMap && hostMap[s.hostName]) {
      errors := errors + [UnknownHost(s.id, s.hostName)];
    }
  }

  method LintServices(services: seq<Service>, hostMap: map<string, bool>) returns (errors: seq<LintError>, count: nat)
    requires forall k :: k in hostMap ==> hostMap[k]
    ensures errors == ServiceErrors(RegisteredServices(services), hostMap.Keys)
    ensures count == |RegisteredServices(services)|
  {
    errors, count := [], 0;
    for i := 0 to |services|
      invariant errors == ServiceErrors(RegisteredServices(services[..i]), hostMap.Keys)
      invariant count == |RegisteredServices(services[..i])|
    {
      var s := services[i];
      assert services[..i + 1] == services[..i] + [s];
      ServiceSnoc(services[..i], s, hostMap.Keys);
      if s.register.Some? && !s.register.value {
        continue;
      }
      count := count + 1;
      var newErrors := LintService(s, hostMap);
      errors := errors + newErrors;
    }
    assert services[..|services|] == services;
  }

  lemma ServiceSnoc(front: seq<Service>, s: Service, known: set<string>)
    ensures var ss, all := RegisteredServices(front), RegisteredServices(front + [s]);
            if IsTemplate(s.register) then all == ss
            else |all| == |ss| + 1 && ServiceErrors(all, known) == ServiceErrors(ss, known) + ErrorsOf(s, known)
  {
    assert (front + [s])[..|front|] == front;
    ServiceErrorsSnoc(RegisteredServices(front), s, known);
  }

  method RunLinter(cfg: GlobalConfig, isIp: string -> bool) returns (res: Audit)
    ensures res.errors == LintErrors(cfg)
    ensures res.warnings == AddressWarnings(cfg.hosts, isIp)
    ensures res.counts == Counts(
      |RegisteredIds(cfg.hosts)|, |RegisteredServices(cfg.services)|, |cfg.commands|, |cfg.timePeriods|,
      |cfg.contacts|, |cfg.hostGroups|, |cfg.serviceGroups|)
  {
    var hostMap, hostErrors, warnings, hosts := LintHosts(cfg.hosts, isIp);
    var serviceErrors, services := LintServices(cfg.services, hostMap);
    res := Audit(
      hostErrors + serviceErrors, warnings,
      Counts(hosts, services, |cfg.commands|, |cfg.timePeriods|, |cfg.contacts|, |cfg.hostGroups|, |cfg.serviceGroups|));
  }
}
