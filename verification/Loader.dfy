/** loadAndProcess (cmd/arbiter/watcher.go) from the point where all YAML files have been read into one
    raw configuration: templates, inheritance, and the group index that is built through pointers. */
module Loader {
  import opened Models
  import opened Seqs
  import opened Inheritance

  // ---------------------------------------------------------------- specification: objects

  /** The templates by ID; the last definition of an ID wins. */
  function HostTemplates(hosts: seq<Host>): map<string, Host> {
    if hosts == [] then map[]
    else
      var h, m := hosts[|hosts| - 1], HostTemplates(hosts[..|hosts| - 1]);
      if IsTemplate(h.register) then m[h.id := h] else m
  }

  function ServiceTemplates(services: seq<Service>): map<string, Service> {
    if services == [] then map[]
    else
      var s, m := services[|services| - 1], ServiceTemplates(services[..|services| - 1]);
      if IsTemplate(s.register) then m[s.id := s] else m
  }

  /** The registered hosts, resolved, in file order. */
  function LoadedHosts(hosts: seq<Host>, templates: map<string, Host>, cap: nat): seq<Host> {
    if hosts == [] then []
    else
      var h, front := hosts[|hosts| - 1], LoadedHosts(hosts[..|hosts| - 1], templates, cap);
      if IsTemplate(h.register) then front else front + [ResolveHost(h, templates, 0, cap)]
  }

  function LoadedServices(services: seq<Service>, templates: map<string, Service>, cap: nat): seq<Service> {
    if services == [] then []
    else
      var s, front := services[|services| - 1], LoadedServices(services[..|services| - 1], templates, cap);
      if IsTemplate(s.register) then front else front + [ResolveService(s, templates, 0, cap)]
  }

  /** A template is found under its ID exactly when one is defined, and the last definition counts. */
  lemma {:induction false} LastHostTemplate(hosts: seq<Host>, i: nat)
    requires i < |hosts| && hosts[i].register == Some(false)
    requires forall j :: i < j < |hosts| && hosts[j].register == Some(false) ==> hosts[j].id != hosts[i].id
    ensures hosts[i].id in HostTemplates(hosts) && HostTemplates(hosts)[hosts[i].id] == hosts[i]
  {
    if i < |hosts| - 1 {
      LastHostTemplate(hosts[..|hosts| - 1], i);
    }
  }

  lemma {:induction false} LastServiceTemplate(services: seq<Service>, i: nat)
    requires i < |services| && services[i].register == Some(false)
    requires forall j :: i < j < |services| && services[j].register == Some(false) ==> services[j].id != services[i].id
    ensures services[i].id in ServiceTemplates(services) && ServiceTemplates(services)[services[i].id] == services[i]
  {
    if i < |services| - 1 {
      LastServiceTemplate(services[..|services| - 1], i);
    }
  }

  lemma {:induction false} HostTemplateDefined(hosts: seq<Host>, name: string)
    ensures name in HostTemplates(hosts) <==> exists h :: h in hosts && h.register == Some(false) && h.id == name
  {
    if hosts != [] {
      HostTemplateDefined(hosts[..|hosts| - 1], name);
      assert hosts == hosts[..|hosts| - 1] + [hosts[|hosts| - 1]];
    }
  }

  lemma {:induction false} ServiceTemplateDefined(services: seq<Service>, name: string)
    ensures name in ServiceTemplates(services) <==> exists s :: s in services && s.register == Some(false) && s.id == name
  {
    if services != [] {
      ServiceTemplateDefined(services[..|services| - 1], name);
      assert services == services[..|services| - 1] + [services[|services| - 1]];
    }
  }

  /** The loaded hosts are the registered ones, each once and in file order: the i-th host, if it is
      registered, comes after the registered hosts before it. */
  lemma {:induction false} LoadedHostPlace(hosts: seq<Host>, templates: map<string, Host>, cap: nat, i: nat)
    requires i < |hosts|
    ensures var before, loaded := LoadedHosts(hosts[..i], templates, cap), LoadedHosts(hosts, templates, cap);
            if hosts[i].register == Some(false) then LoadedHosts(hosts[..i + 1], templates, cap) == before
            else before + [ResolveHost(hosts[i], templates, 0, cap)] <= loaded
    decreases |hosts|
  {
    var front := hosts[..|hosts| - 1];
    if i < |front| {
      LoadedHostPlace(front, templates, cap, i);
      assert front[..i] == hosts[..i] && front[..i + 1] == hosts[..i + 1];
    } else {
      assert hosts[..i] == front && hosts[..i + 1] == hosts;
    }
  }

  lemma {:induction false} LoadedServicePlace(services: seq<Service>, templates: map<string, Service>, cap: nat, i: nat)
    requires i < |services|
    ensures var before, loaded := LoadedServices(services[..i], templates, cap), LoadedServices(services, templates, cap);
            if services[i].register == Some(false) then LoadedServices(services[..i + 1], templates, cap) == before
            else before + [ResolveService(services[i], templates, 0, cap)] <= loaded
    decreases |services|
  {
    var front := services[..|services| - 1];
    if i < |front| {
      LoadedServicePlace(front, templates, cap, i);
      assert front[..i] == services[..i] && front[..i + 1] == services[..i + 1];
    } else {
      assert services[..i] == front && services[..i + 1] == services;
    }
  }

  // ---------------------------------------------------------------- specification: groups

  /** One object that joins groups under the name `member`. */
  datatype Joining = Joining(groups: seq<string>, member: string)

  function HostJoinings(hosts: seq<Host>): seq<Joining> {
    seq(|hosts|, i requires 0 <= i < |hosts| => Joining(hosts[i].hostGroups, hosts[i].id))
  }

  /** A service is listed as "host,service". */
  function ServiceJoinings(services: seq<Service>): seq<Joining> {
    seq(|services|, i requires 0 <= i < |services| =>
      Joining(services[i].serviceGroups, services[i].hostName + "," + services[i].id))
  }

  /** The declared groups by ID; the last declaration of an ID wins. */
  function Declared(groups: seq<Group>): map<string, Group> {
    if groups == [] then map[]
    else var g := groups[|groups| - 1]; Declared(groups[..|groups| - 1])[g.id := g]
  }

  /** A group that is joined without having been declared is created. */
  function WithMember(m: map<string, Group>, name: string, member: string): map<string, Group> {
    if name in m then m[name := m[name].(members := m[name].members + [member])]
    else m[name := Group(name, "", [member])]
  }

  function WithMembers(m: map<string, Group>, names: seq<string>, member: string): map<string, Group> {
    if names == [] then m
    else WithMember(WithMembers(m, names[..|names| - 1], member), names[|names| - 1], member)
  }

  function Joined(m: map<string, Group>, js: seq<Joining>): map<string, Group> {
    if js == [] then m
    else WithMembers(Joined(m, js[..|js| - 1]), js[|js| - 1].groups, js[|js| - 1].member)
  }

  /** `gs` lists the groups of `m`, each once, in any order. */
  ghost predicate Lists(gs: seq<Group>, m: map<string, Group>) {
    && |gs| == |m|
    && (forall i :: 0 <= i < |gs| ==> gs[i].id in m && m[gs[i].id] == gs[i])
    && (forall i, j :: 0 <= i < j < |gs| ==> gs[i].id != gs[j].id)
  }

  // ---------------------------------------------------------------- the index is right

  /** One entry per occurrence of the name, in order. */
  function Occurrences(names: seq<string>, name: string, member: string): seq<string> {
    if names == [] then []
    else Occurrences(names[..|names| - 1], name, member) + if names[|names| - 1] == name then [member] else []
  }

  /** The members that the joinings give to group `name`. */
  function Entries(js: seq<Joining>, name: string): seq<string> {
    if js == [] then []
    else Entries(js[..|js| - 1], name) + Occurrences(js[|js| - 1].groups, name, js[|js| - 1].member)
  }

  /** What `m` says about group `name`: nothing is an undeclared group without members. */
  function GroupAt(m: map<string, Group>, name: string): Group {
    if name in m then m[name] else Group(name, "", [])
  }

  lemma {:induction false} WithMembersAt(m: map<string, Group>, names: seq<string>, member: string, name: string)
    ensures name in WithMembers(m, names, member) <==> name in m || name in names
    ensures var g := GroupAt(m, name);
            GroupAt(WithMembers(m, names, member), name) == g.(members := g.members + Occurrences(names, name, member))
  {
    if names != [] {
      var front, last := names[..|names| - 1], names[|names| - 1];
      WithMembersAt(m, front, member, name);
      assert names == front + [last];
      var g := GroupAt(m, name);
      assert (g.members + Occurrences(front, name, member)) + [member] == g.members + (Occurrences(front, name, member) + [member]);
      assert Occurrences(front, name, member) + [] == Occurrences(front, name, member);
    }
  }

  /** Some object joins group `name`. */
  ghost predicate IsJoined(js: seq<Joining>, name: string) {
    exists j :: j in js && name in j.groups
  }

  lemma IsJoinedSnoc(front: seq<Joining>, last: Joining, name: string)
    ensures IsJoined(front + [last], name) <==> IsJoined(front, name) || name in last.groups
  {
    assert last in front + [last];
    assert forall j :: j in front ==> j in front + [last];
  }

  lemma {:induction false} JoinedAt(m: map<string, Group>, js: seq<Joining>, name: string)
    ensures name in Joined(m, js) <==> name in m || IsJoined(js, name)
    ensures var g := GroupAt(m, name);
            GroupAt(Joined(m, js), name) == g.(members := g.members + Entries(js, name))
  {
    if js == [] {
      assert GroupAt(m, name).members + [] == GroupAt(m, name).members;
    } else {
      var front, last := js[..|js| - 1], js[|js| - 1];
      assert js == front + [last];
      JoinedAt(m, front, name);
      IsJoinedSnoc(front, last, name);
      JoinOneMore(Joined(m, front), last, name, GroupAt(m, name), Entries(front, name));
    }
  }

  lemma JoinOneMore(m: map<string, Group>, last: Joining, name: string, g: Group, entries: seq<string>)
    requires GroupAt(m, name) == g.(members := g.members + entries)
    ensures name in WithMembers(m, last.groups, last.member) <==> name in m || name in last.groups
    ensures GroupAt(WithMembers(m, last.groups, last.member), name) ==
            g.(members := g.members + (entries + Occurrences(last.groups, name, last.member)))
  {
    WithMembersAt(m, last.groups, last.member, name);
    assert (g.members + entries) + Occurrences(last.groups, name, last.member) ==
           g.members + (entries + Occurrences(last.groups, name, last.member));
  }

  lemma {:induction false} DeclaredKeys(groups: seq<Group>, name: string)
    ensures name in Declared(groups) <==> exists g :: g in groups && g.id == name
    ensures name in Declared(groups) ==> Declared(groups)[name].id == name
  {
    if groups != [] {
      var front := groups[..|groups| - 1];
      DeclaredKeys(front, name);
      assert groups == front + [groups[|groups| - 1]];
    }
  }

  /** The last declaration of an ID is the one that counts. */
  lemma {:induction false} DeclaredLast(groups: seq<Group>, i: nat)
    requires i < |groups| && forall j :: i < j < |groups| ==> groups[j].id != groups[i].id
    ensures groups[i].id in Declared(groups) && Declared(groups)[groups[i].id] == groups[i]
  {
    if i < |groups| - 1 {
      DeclaredLast(groups[..|groups| - 1], i);
    }
  }

  /** The group index agrees with the objects: a listing has exactly the declared and the joined groups,
      and the members of a group are those of its last declaration followed by one entry per occurrence
      in the objects' resolved group lists, in object order. */
  lemma GroupIndex(declared: seq<Group>, js: seq<Joining>, gs: seq<Group>, name: string)
    requires Lists(gs, Joined(Declared(declared), js))
    ensures (exists i :: 0 <= i < |gs| && gs[i].id == name)
            <==> (exists g :: g in declared && g.id == name) || IsJoined(js, name)
    ensures forall i :: 0 <= i < |gs| && gs[i].id == name ==>
              var base := GroupAt(Declared(declared), name);
              gs[i].alias == base.alias && gs[i].members == base.members + Entries(js, name)
  {
    JoinedAt(Declared(declared), js, name);
    DeclaredKeys(declared, name);
    if name in Joined(Declared(declared), js) {
      ListsAll(gs, Joined(Declared(declared), js), name);
    }
  }

  lemma ListsAll(gs: seq<Group>, m: map<string, Group>, name: string)
    requires Lists(gs, m) && name in m
    ensures exists i :: 0 <= i < |gs| && gs[i].id == name
  {
    var ids := seq(|gs|, i requires 0 <= i < |gs| => gs[i].id);
    if name !in ids {
      Pigeonhole(ids, m.Keys - {name});
      assert false;
    }
    var i :| 0 <= i < |ids| && ids[i] == name;
    assert gs[i].id == name;
  }

  // ---------------------------------------------------------------- the code

  /** What a Go `*models.HostGroup` or `*models.ServiceGroup` points to. */
  class GroupCell {
    var g: Group
    constructor (g: Group) ensures this.g == g { this.g := g; }
  }

  ghost function Pointed(m: map<string, GroupCell>): map<string, Group>
    reads m.Values
  {
    map k | k in m :: m[k].g
  }

  ghost predicate Unshared(m: map<string, GroupCell>) {
    forall j, k :: j in m && k in m && j != k ==> m[j] != m[k]
  }

  /** Pointers to the declared groups. */
  method Declare(groups: seq<Group>) returns (m: map<string, GroupCell>)
    ensures Unshared(m) && (forall k :: k in m ==> fresh(m[k]))
    ensures Pointed(m) == Declared(groups)
  {
    m := map[];
    for i := 0 to |groups|
      invariant Unshared(m) && (forall k :: k in m ==> fresh(m[k]))
      invariant Pointed(m) == Declared(groups[..i])
    {
      var cell := new GroupCell(groups[i]);
      m := m[groups[i].id := cell];
      assert groups[..i + 1][..i] == groups[..i];
    }
    assert groups[..|groups|] == groups;
  }

  /** The loop over the group names of one resolved object. */
  method Join(m: map<string, GroupCell>, names: seq<string>, member: string) returns (m': map<string, GroupCell>)
    requires Unshared(m)
    modifies m.Values
    ensures Unshared(m') && (forall k :: k in m' ==> (k in m && m'[k] == m[k]) || fresh(m'[k]))
    ensures Pointed(m') == WithMembers(old(Pointed(m)), names, member)
  {
    m' := m;
    for i := 0 to |names|
      invariant Unshared(m') && (forall k :: k in m' ==> (k in m && m'[k] == m[k]) || fresh(m'[k]))
      invariant Pointed(m') == WithMembers(old(Pointed(m)), names[..i], member)
    {
      m' := JoinOne(m', names[i], member);
      assert names[..i + 1][..i] == names[..i];
    }
    assert names[..|names|] == names;
  }

  method JoinOne(m: map<string, GroupCell>, name: string, member: string) returns (m': map<string, GroupCell>)
    requires Unshared(m)
    modifies m.Values
    ensures Unshared(m') && (forall k :: k in m' ==> (k in m && m'[k] == m[k]) || fresh(m'[k]))
    ensures Pointed(m') == WithMember(old(Pointed(m)), name, member)
  {
    m' := m;
    if name in m {
      var group := m[name];
      group.g := group.g.(members := group.g.members + [member]);
    } else {
      var cell := new GroupCell(Group(name, "", [member]));
      m' := m[name := cell];
    }
  }

  lemma IndexKeys(declared: seq<Group>, js: seq<Joining>)
    ensures forall k :: k in Joined(Declared(declared), js) ==> Joined(Declared(declared), js)[k].id == k
  {
    forall k | k in Joined(Declared(declared), js) ensures Joined(Declared(declared), js)[k].id == k {
      JoinedAt(Declared(declared), js, k);
      DeclaredKeys(declared, k);
    }
  }

  /** Ranging over the finished index: any order. */
  method Listing(m: map<string, GroupCell>, ghost declared: seq<Group>, ghost js: seq<Joining>) returns (gs: seq<Group>)
    requires Pointed(m) == Joined(Declared(declared), js)
    ensures Lists(gs, Pointed(m))
  {
    IndexKeys(declared, js);
    assert forall k :: k in m ==> m[k].g == Pointed(m)[k];
    gs := [];
    var left := m.Keys;
    while left != {}
      invariant left <= m.Keys && |gs| + |left| == |m|
      invariant forall i :: 0 <= i < |gs| ==> gs[i].id in m && gs[i].id !in left && m[gs[i].id].g == gs[i]
      invariant forall i, j :: 0 <= i < j < |gs| ==> gs[i].id != gs[j].id
    {
      var k :| k in left;
      left := left - {k};
      gs := gs + [m[k].g];
    }
    assert |Pointed(m)| == |m| by { assert Pointed(m).Keys == m.Keys; }
  }

  method CollectHostTemplates(hosts: seq<Host>) returns (templates: map<string, Host>)
    ensures templates == HostTemplates(hosts)
  {
    templates := map[];
    for i := 0 to |hosts|
      invariant templates == HostTemplates(hosts[..i])
    {
      if hosts[i].register.Some? && !hosts[i].register.value {
        templates := templates[hosts[i].id := hosts[i]];
      }
      assert hosts[..i + 1][..i] == hosts[..i];
    }
    assert hosts[..|hosts|] == hosts;
  }

  lemma LoadedHostsSnoc(front: seq<Host>, h: Host, templates: map<string, Host>, cap: nat)
    ensures LoadedHosts(front + [h], templates, cap) ==
            if IsTemplate(h.register) then LoadedHosts(front, templates, cap)
            else LoadedHosts(front, templates, cap) + [ResolveHost(h, templates, 0, cap)]
  {
    assert (front + [h])[..|front|] == front;
  }

  /** One round of the host loop: a registered host is resolved, added, and joins its groups. */
  method LoadHost(h: Host, templates: map<string, Host>, cap: nat, loaded: seq<Host>, m: map<string, GroupCell>,
                ghost front: seq<Host>, ghost declared: seq<Group>)
    returns (loaded': seq<Host>, m': map<string, GroupCell>)
    requires Unshared(m) && Pointed(m) == Joined(Declared(declared), HostJoinings(loaded))
    requires loaded == LoadedHosts(front, templates, cap)
    modifies m.Values
    ensures Unshared(m') && (forall k :: k in m' ==> (k in m && m'[k] == m[k]) || fresh(m'[k]))
    ensures Pointed(m') == Joined(Declared(declared), HostJoinings(loaded'))
    ensures loaded' == LoadedHosts(front + [h], templates, cap)
  {
    LoadedHostsSnoc(front, h, templates, cap);
    loaded', m' := loaded, m;
    if h.register.None? || h.register.value {
      var resolved := ResolveHost(h, templates, 0, cap);
      HostJoinsLast(Declared(declared), loaded, resolved);
      loaded' := loaded + [resolved];
      m' := Join(m, resolved.hostGroups, resolved.id);
    }
  }

  /** The host half of loadAndProcess. */
  method LoadHosts(hosts: seq<Host>, groups: seq<Group>, cap: nat) returns (loaded: seq<Host>, gs: seq<Group>)
    ensures loaded == LoadedHosts(hosts, HostTemplates(hosts), cap)
    ensures Lists(gs, Joined(Declared(groups), HostJoinings(loaded)))
  {
    var templates := CollectHostTemplates(hosts);
    var index := Declare(groups);
    loaded := [];
    assert HostJoinings(loaded) == [];
    for i := 0 to |hosts|
      invariant loaded == LoadedHosts(hosts[..i], templates, cap)
      invariant Unshared(index) && (forall k :: k in index ==> fresh(index[k]))
      invariant Pointed(index) == Joined(Declared(groups), HostJoinings(loaded))
    {
      assert hosts[..i + 1] == hosts[..i] + [hosts[i]];
      loaded, index := LoadHost(hosts[i], templates, cap, loaded, index, hosts[..i], groups);
    }
    assert hosts[..|hosts|] == hosts;
    gs := Listing(index, groups, HostJoinings(loaded));
  }

  lemma HostJoinsLast(m: map<string, Group>, loaded: seq<Host>, resolved: Host)
    ensures Joined(m, HostJoinings(loaded + [resolved])) ==
            WithMembers(Joined(m, HostJoinings(loaded)), resolved.hostGroups, resolved.id)
  {
    var js := HostJoinings(loaded + [resolved]);
    assert js[..|js| - 1] == HostJoinings(loaded);
    assert js[|js| - 1] == Joining(resolved.hostGroups, resolved.id);
  }

  method CollectServiceTemplates(services: seq<Service>) returns (templates: map<string, Service>)
    ensures templates == ServiceTemplates(services)
  {
    templates := map[];
    for i := 0 to |services|
      invariant templates == ServiceTemplates(services[..i])
    {
      if services[i].register.Some? && !services[i].register.value {
        templates := templates[services[i].id := services[i]];
      }
      assert services[..i + 1][..i] == services[..i];
    }
    assert services[..|services|] == services;
  }

  lemma LoadedServicesSnoc(front: seq<Service>, s: Service, templates: map<string, Service>, cap: nat)
    ensures LoadedServices(front + [s], templates, cap) ==
            if IsTemplate(s.register) then LoadedServices(front, templates, cap)
            else LoadedServices(front, templates, cap) + [ResolveService(s, templates, 0, cap)]
  {
    assert (front + [s])[..|front|] == front;
  }

  /** One round of the service loop: a registered service is resolved, added, and joins its groups. */
  method LoadService(s: Service, templates: map<string, Service>, cap: nat, loaded: seq<Service>, m: map<string, GroupCell>,
                ghost front: seq<Service>, ghost declared: seq<Group>)
    returns (loaded': seq<Service>, m': map<string, GroupCell>)
    requires Unshared(m) && Pointed(m) == Joined(Declared(declared), ServiceJoinings(loaded))
    requires loaded == LoadedServices(front, templates, cap)
    modifies m.Values
    ensures Unshared(m') && (forall k :: k in m' ==> (k in m && m'[k] == m[k]) || fresh(m'[k]))
    ensures Pointed(m') == Joined(Declared(declared), ServiceJoinings(loaded'))
    ensures loaded' == LoadedServices(front + [s], templates, cap)
  {
    LoadedServicesSnoc(front, s, templates, cap);
    loaded', m' := loaded, m;
    if s.register.None? || s.register.value {
      var resolved := ResolveService(s, templates, 0, cap);
      ServiceJoinsLast(Declared(declared), loaded, resolved);
      loaded' := loaded + [resolved];
      m' := Join(m, resolved.serviceGroups, resolved.hostName + "," + resolved.id);
    }
  }

  /** The service half of loadAndProcess. */
  method LoadServices(services: seq<Service>, groups: seq<Group>, cap: nat) returns (loaded: seq<Service>, gs: seq<Group>)
    ensures loaded == LoadedServices(services, ServiceTemplates(services), cap)
    ensures Lists(gs, Joined(Declared(groups), ServiceJoinings(loaded)))
  {
    var templates := CollectServiceTemplates(services);
    var index := Declare(groups);
    loaded := [];
    assert ServiceJoinings(loaded) == [];
    for i := 0 to |services|
      invariant loaded == LoadedServices(services[..i], templates, cap)
      invariant Unshared(index) && (forall k :: k in index ==> fresh(index[k]))
      invariant Pointed(index) == Joined(Declared(groups), ServiceJoinings(loaded))
    {
      assert services[..i + 1] == services[..i] + [services[i]];
      loaded, index := LoadService(services[i], templates, cap, loaded, index, services[..i], groups);
    }
    assert services[..|services|] == services;
    gs := Listing(index, groups, ServiceJoinings(loaded));
  }

  lemma ServiceJoinsLast(m: map<string, Group>, loaded: seq<Service>, resolved: Service)
    ensures Joined(m, ServiceJoinings(loaded + [resolved])) ==
            WithMembers(Joined(m, ServiceJoinings(loaded)), resolved.serviceGroups, resolved.hostName + "," + resolved.id)
  {
    var js := ServiceJoinings(loaded + [resolved]);
    assert js[..|js| - 1] == ServiceJoinings(loaded);
    assert js[|js| - 1] == Joining(resolved.serviceGroups, resolved.hostName + "," + resolved.id);
  }

  /** What loadAndProcess makes of a raw configuration; the order of the groups is left open. */
  ghost predicate Loads(raw: GlobalConfig, cfg: GlobalConfig) {
    && cfg.commands == raw.commands && cfg.timePeriods == raw.timePeriods && cfg.contacts == raw.contacts
    && cfg.hosts == LoadedHosts(raw.hosts, HostTemplates(raw.hosts), DEPTH_CAP)
    && cfg.services == LoadedServices(raw.services, ServiceTemplates(raw.services), DEPTH_CAP)
    && Lists(cfg.hostGroups, Joined(Declared(raw.hostGroups), HostJoinings(cfg.hosts)))
    && Lists(cfg.serviceGroups, Joined(Declared(raw.serviceGroups), ServiceJoinings(cfg.services)))
    && cfg.downtimes == []
  }

  method LoadAndProcess(raw: GlobalConfig) returns (final: GlobalConfig)
    ensures Loads(raw, final)
  {
    var hosts, hostGroups := LoadHosts(raw.hosts, raw.hostGroups, DEPTH_CAP);
    var services, serviceGroups := LoadServices(raw.services, raw.serviceGroups, DEPTH_CAP);
    final := GlobalConfig(raw.commands, raw.contacts, raw.timePeriods, hosts, services, hostGroups, serviceGroups, []);
  }

  // ---------------------------------------------------------------- registered objects only

  ghost predicate AllRegistered(cfg: GlobalConfig) {
    && (forall h :: h in cfg.hosts ==> !IsTemplate(h.register))
    && (forall s :: s in cfg.services ==> !IsTemplate(s.register))
  }

  lemma {:induction false} LoadedHostsRegistered(hosts: seq<Host>, templates: map<string, Host>, cap: nat)
    ensures forall h :: h in LoadedHosts(hosts, templates, cap) ==> !IsTemplate(h.register)
  {
    if hosts != [] {
      LoadedHostsRegistered(hosts[..|hosts| - 1], templates, cap);
    }
  }

  lemma {:induction false} LoadedServicesRegistered(services: seq<Service>, templates: map<string, Service>, cap: nat)
    ensures forall s :: s in LoadedServices(services, templates, cap) ==> !IsTemplate(s.register)
  {
    if services != [] {
      LoadedServicesRegistered(services[..|services| - 1], templates, cap);
    }
  }

  /** No template survives loading. */
  lemma LoadedIsRegistered(raw: GlobalConfig, cfg: GlobalConfig)
    requires Loads(raw, cfg)
    ensures AllRegistered(cfg)
  {
    LoadedHostsRegistered(raw.hosts, HostTemplates(raw.hosts), DEPTH_CAP);
    LoadedServicesRegistered(raw.services, ServiceTemplates(raw.services), DEPTH_CAP);
  }

  // ---------------------------------------------------------------- the loaded configuration, in full

  function HostRegistered(h: Host): bool { h.register != Some(false) }

  function ServiceRegistered(v: Service): bool { v.register != Some(false) }

  /** Each host with its five inheritable fields taken from itself and six ancestors. */
  function HostsFromSix(hosts: seq<Host>, templates: map<string, Host>): seq<Host> {
    seq(|hosts|, i requires 0 <= i < |hosts| => HostFrom(hosts[i], Chain(hosts[i], HostUse, templates, 6)))
  }

  function ServicesFromSix(services: seq<Service>, templates: map<string, Service>): seq<Service> {
    seq(|services|, i requires 0 <= i < |services| =>
      ServiceFrom(services[i], Chain(services[i], ServiceUse, templates, 6)))
  }

  lemma HostsFromSixSnoc(front: seq<Host>, last: Host, templates: map<string, Host>)
    ensures HostsFromSix(front + [last], templates)
            == HostsFromSix(front, templates) + [HostFrom(last, Chain(last, HostUse, templates, 6))]
  {
  }

  /** One more definition: it is selected and loaded, or neither. */
  lemma LoadedHostStep(front: seq<Host>, last: Host, templates: map<string, Host>)
    requires LoadedHosts(front, templates, DEPTH_CAP) == HostsFromSix(Only(front, HostRegistered, true), templates)
    ensures LoadedHosts(front + [last], templates, DEPTH_CAP)
            == HostsFromSix(Only(front + [last], HostRegistered, true), templates)
  {
    LoadedHostsSnoc(front, last, templates, DEPTH_CAP);
    OnlySnoc(front, last, HostRegistered, true);
    if HostRegistered(last) {
      ResolvedHostIsFirstSet(last, templates, 0, DEPTH_CAP);
      HostsFromSixSnoc(Only(front, HostRegistered, true), last, templates);
    }
  }

  lemma {:induction false} LoadedHostsAre(hosts: seq<Host>, templates: map<string, Host>)
    ensures LoadedHosts(hosts, templates, DEPTH_CAP) == HostsFromSix(Only(hosts, HostRegistered, true), templates)
  {
    if hosts != [] {
      var front, last := hosts[..|hosts| - 1], hosts[|hosts| - 1];
      LoadedHostsAre(front, templates);
      LoadedHostStep(front, last, templates);
      assert hosts == front + [last];
    }
  }

  lemma ServicesFromSixSnoc(front: seq<Service>, last: Service, templates: map<string, Service>)
    ensures ServicesFromSix(front + [last], templates)
            == ServicesFromSix(front, templates) + [ServiceFrom(last, Chain(last, ServiceUse, templates, 6))]
  {
  }

  /** One more definition: it is selected and loaded, or neither. */
  lemma LoadedServiceStep(front: seq<Service>, last: Service, templates: map<string, Service>)
    requires LoadedServices(front, templates, DEPTH_CAP) == ServicesFromSix(Only(front, ServiceRegistered, true), templates)
    ensures LoadedServices(front + [last], templates, DEPTH_CAP)
            == ServicesFromSix(Only(front + [last], ServiceRegistered, true), templates)
  {
    LoadedServicesSnoc(front, last, templates, DEPTH_CAP);
    OnlySnoc(front, last, ServiceRegistered, true);
    if ServiceRegistered(last) {
      ResolvedServiceIsFirstSet(last, templates, 0, DEPTH_CAP);
      ServicesFromSixSnoc(Only(front, ServiceRegistered, true), last, templates);
    }
  }

  lemma {:induction false} LoadedServicesAre(services: seq<Service>, templates: map<string, Service>)
    ensures LoadedServices(services, templates, DEPTH_CAP) == ServicesFromSix(Only(services, ServiceRegistered, true), templates)
  {
    if services != [] {
      var front, last := services[..|services| - 1], services[|services| - 1];
      LoadedServicesAre(front, templates);
      LoadedServiceStep(front, last, templates);
      assert services == front + [last];
    }
  }

  /** What loadAndProcess returns: the registered hosts and services of the files, in order, each with its
      inheritable fields taken from itself and six ancestors, no more and no fewer. */
  lemma SixAncestors(raw: GlobalConfig, cfg: GlobalConfig)
    requires Loads(raw, cfg)
    ensures cfg.hosts == HostsFromSix(Only(raw.hosts, HostRegistered, true), HostTemplates(raw.hosts))
    ensures cfg.services == ServicesFromSix(Only(raw.services, ServiceRegistered, true), ServiceTemplates(raw.services))
  {
    LoadedHostsAre(raw.hosts, HostTemplates(raw.hosts));
    LoadedServicesAre(raw.services, ServiceTemplates(raw.services));
  }

  /** Templates 1 to 7, each using the next one; only number `n` has an address. */
  function Rungs(n: nat): seq<Host> {
    [Rung("1", "2", n == 1), Rung("2", "3", n == 2), Rung("3", "4", n == 3), Rung("4", "5", n == 4),
     Rung("5", "6", n == 5), Rung("6", "7", n == 6), Rung("7", "", n == 7)]
  }

  function Rung(id: string, use: string, here: bool): Host {
    Template(id, use, if here then "10.0.0.1" else "")
  }

  function Climber(): Host {
    Host("db", "1", "", "", "", [], [], None, false, [], false, 0, 0, "")
  }

  /** The sixth ancestor's address arrives, the seventh's does not. */
  lemma SixthArrives(raw: GlobalConfig, cfg: GlobalConfig, n: nat)
    requires Loads(raw, cfg) && 1 <= n <= 7 && raw.hosts == Rungs(n) + [Climber()]
    ensures |cfg.hosts| == 1 && cfg.hosts[0].id == "db"
    ensures cfg.hosts[0].address == if n <= 6 then "10.0.0.1" else ""
  {
    var t := HostTemplates(raw.hosts);
    RungsFound(raw.hosts, n);
    ClimbRungs(t, n);
    RungsAreTemplates(n);
    OneLoaded(Rungs(n), Climber(), t);
    ResolveKeepsId(Climber(), t);
  }

  lemma RungsAreTemplates(n: nat)
    ensures forall x :: x in Rungs(n) ==> x.register == Some(false)
  {
  }

  lemma ResolveKeepsId(h: Host, t: map<string, Host>)
    ensures ResolveHost(h, t, 0, DEPTH_CAP).id == h.id
  {
  }

  lemma OneLoaded(templates: seq<Host>, h: Host, t: map<string, Host>)
    requires (forall x :: x in templates ==> x.register == Some(false)) && h.register == None
    ensures LoadedHosts(templates + [h], t, DEPTH_CAP) == [ResolveHost(h, t, 0, DEPTH_CAP)]
  {
    LoadedHostsSnoc(templates, h, t, DEPTH_CAP);
    NoneLoaded(templates, t);
  }

  lemma {:induction false} NoneLoaded(templates: seq<Host>, t: map<string, Host>)
    requires forall x :: x in templates ==> x.register == Some(false)
    ensures LoadedHosts(templates, t, DEPTH_CAP) == []
  {
    if templates != [] {
      NoneLoaded(templates[..|templates| - 1], t);
    }
  }

  lemma RungsFound(hosts: seq<Host>, n: nat)
    requires 1 <= n <= 7 && hosts == Rungs(n) + [Climber()]
    ensures forall i :: 0 <= i < 7 ==>
              Rungs(n)[i].id in HostTemplates(hosts) && HostTemplates(hosts)[Rungs(n)[i].id] == Rungs(n)[i]
  {
    forall i | 0 <= i < 7
      ensures Rungs(n)[i].id in HostTemplates(hosts) && HostTemplates(hosts)[Rungs(n)[i].id] == Rungs(n)[i]
    {
      assert hosts[i] == Rungs(n)[i];
      LastHostTemplate(hosts, i);
    }
  }

  lemma ClimbRungs(t: map<string, Host>, n: nat)
    requires 1 <= n <= 7
    requires forall i :: 0 <= i < 7 ==> Rungs(n)[i].id in t && t[Rungs(n)[i].id] == Rungs(n)[i]
    ensures ResolveHost(Climber(), t, 0, DEPTH_CAP).address == if n <= 6 then "10.0.0.1" else ""
  {
    var r := Rungs(n);
    assert r[5].id == "6" && r[4].id == "5" && r[3].id == "4" && r[2].id == "3" && r[1].id == "2" && r[0].id == "1";
    assert ResolveHost(t["6"], t, 6, DEPTH_CAP).address == if n == 6 then "10.0.0.1" else "";
    assert ResolveHost(t["5"], t, 5, DEPTH_CAP).address == if 5 <= n <= 6 then "10.0.0.1" else "";
    assert ResolveHost(t["4"], t, 4, DEPTH_CAP).address == if 4 <= n <= 6 then "10.0.0.1" else "";
    assert ResolveHost(t["3"], t, 3, DEPTH_CAP).address == if 3 <= n <= 6 then "10.0.0.1" else "";
    assert ResolveHost(t["2"], t, 2, DEPTH_CAP).address == if 2 <= n <= 6 then "10.0.0.1" else "";
    assert ResolveHost(t["1"], t, 1, DEPTH_CAP).address == if n <= 6 then "10.0.0.1" else "";
  }

  // ---------------------------------------------------------------- the groups of a loaded configuration

  function Repeat(member: string, n: nat): seq<string> {
    seq(n, i requires 0 <= i < n => member)
  }

  /** One host ID for each time a host names the group, in host order. */
  function HostsIn(hosts: seq<Host>, name: string): seq<string> {
    if hosts == [] then []
    else Repeat(hosts[0].id, multiset(hosts[0].hostGroups)[name]) + HostsIn(hosts[1..], name)
  }

  /** "host,service" for each time a service names the group, in service order. */
  function ServicesIn(services: seq<Service>, name: string): seq<string> {
    if services == [] then []
    else
      var v := services[0];
      Repeat(v.hostName + "," + v.id, multiset(v.serviceGroups)[name]) + ServicesIn(services[1..], name)
  }

  lemma {:induction false} OccurrencesAre(names: seq<string>, name: string, member: string)
    ensures Occurrences(names, name, member) == Repeat(member, multiset(names)[name])
  {
    if names != [] {
      var front, last := names[..|names| - 1], names[|names| - 1];
      OccurrencesAre(front, name, member);
      CountSnoc(front, last, name);
      assert names == front + [last];
      RepeatMore(member, multiset(front)[name]);
    }
  }

  lemma CountSnoc(front: seq<string>, last: string, name: string)
    ensures multiset(front + [last])[name] == multiset(front)[name] + if last == name then 1 else 0
  {
  }

  lemma RepeatMore(member: string, n: nat)
    ensures Repeat(member, n) + [member] == Repeat(member, n + 1) && Repeat(member, n) + [] == Repeat(member, n)
  {
  }

  lemma {:induction false} EntriesCons(j: Joining, rest: seq<Joining>, name: string)
    ensures Entries([j] + rest, name) == Occurrences(j.groups, name, j.member) + Entries(rest, name)
  {
    if rest == [] {
      assert [j] + rest == [j] && [j][..0] == [];
      assert Entries([j], name) == [] + Occurrences(j.groups, name, j.member);
    } else {
      var front, last := rest[..|rest| - 1], rest[|rest| - 1];
      EntriesCons(j, front, name);
      assert ([j] + rest)[..|rest|] == [j] + front;
      Associative(Occurrences(j.groups, name, j.member), Entries(front, name), Occurrences(last.groups, name, last.member));
    }
  }

  lemma {:induction false} HostEntries(hosts: seq<Host>, name: string)
    ensures Entries(HostJoinings(hosts), name) == HostsIn(hosts, name)
  {
    if hosts != [] {
      HostEntries(hosts[1..], name);
      OccurrencesAre(hosts[0].hostGroups, name, hosts[0].id);
      assert HostJoinings(hosts) == [Joining(hosts[0].hostGroups, hosts[0].id)] + HostJoinings(hosts[1..]);
      EntriesCons(Joining(hosts[0].hostGroups, hosts[0].id), HostJoinings(hosts[1..]), name);
    }
  }

  lemma {:induction false} ServiceEntries(services: seq<Service>, name: string)
    ensures Entries(ServiceJoinings(services), name) == ServicesIn(services, name)
  {
    if services != [] {
      var j := Joining(services[0].serviceGroups, services[0].hostName + "," + services[0].id);
      ServiceEntries(services[1..], name);
      OccurrencesAre(j.groups, name, j.member);
      assert ServiceJoinings(services) == [j] + ServiceJoinings(services[1..]);
      EntriesCons(j, ServiceJoinings(services[1..]), name);
    }
  }

  /** An undeclared group starts without alias and members, a declared one with its last declaration. */
  lemma BaseGroup(groups: seq<Group>, name: string)
    ensures (forall g :: g in groups ==> g.id != name) ==> GroupAt(Declared(groups), name) == Group(name, "", [])
    ensures forall i :: 0 <= i < |groups| && groups[i].id == name && (forall j :: i < j < |groups| ==> groups[j].id != name)
              ==> GroupAt(Declared(groups), name) == groups[i]
  {
    DeclaredKeys(groups, name);
    forall i | 0 <= i < |groups| && groups[i].id == name && (forall j :: i < j < |groups| ==> groups[j].id != name)
      ensures GroupAt(Declared(groups), name) == groups[i]
    {
      DeclaredLast(groups, i);
    }
  }

  /** The host groups of a loaded configuration are those declared and those that some loaded host names;
      each has the alias and the members of its last declaration (none if it is not declared), followed by
      the IDs of the hosts that name it. */
  lemma HostGroupsAre(raw: GlobalConfig, cfg: GlobalConfig, name: string)
    requires Loads(raw, cfg)
    ensures (exists g :: g in cfg.hostGroups && g.id == name) <==>
            (exists d :: d in raw.hostGroups && d.id == name) || (exists h :: h in cfg.hosts && name in h.hostGroups)
    ensures forall g :: g in cfg.hostGroups && g.id == name ==>
              var base := GroupAt(Declared(raw.hostGroups), name);
              g.alias == base.alias && g.members == base.members + HostsIn(cfg.hosts, name)
  {
    GroupIndex(raw.hostGroups, HostJoinings(cfg.hosts), cfg.hostGroups, name);
    HostEntries(cfg.hosts, name);
    HostsJoined(cfg.hosts, name);
  }

  lemma HostsJoined(hosts: seq<Host>, name: string)
    ensures IsJoined(HostJoinings(hosts), name) <==> exists h :: h in hosts && name in h.hostGroups
  {
    var js := HostJoinings(hosts);
    if h :| h in hosts && name in h.hostGroups {
      var i :| 0 <= i < |hosts| && hosts[i] == h;
      assert js[i] in js && name in js[i].groups;
    }
    if j :| j in js && name in j.groups {
      var i :| 0 <= i < |js| && js[i] == j;
      assert hosts[i] in hosts && name in hosts[i].hostGroups;
    }
  }

  /** The same for service groups, whose members are listed as "host,service". */
  lemma ServiceGroupsAre(raw: GlobalConfig, cfg: GlobalConfig, name: string)
    requires Loads(raw, cfg)
    ensures (exists g :: g in cfg.serviceGroups && g.id == name) <==>
            (exists d :: d in raw.serviceGroups && d.id == name)
            || (exists v :: v in cfg.services && name in v.serviceGroups)
    ensures forall g :: g in cfg.serviceGroups && g.id == name ==>
              var base := GroupAt(Declared(raw.serviceGroups), name);
              g.alias == base.alias && g.members == base.members + ServicesIn(cfg.services, name)
  {
    GroupIndex(raw.serviceGroups, ServiceJoinings(cfg.services), cfg.serviceGroups, name);
    ServiceEntries(cfg.services, name);
    ServicesJoined(cfg.services, name);
  }

  lemma ServicesJoined(services: seq<Service>, name: string)
    ensures IsJoined(ServiceJoinings(services), name) <==> exists v :: v in services && name in v.serviceGroups
  {
    var js := ServiceJoinings(services);
    if v :| v in services && name in v.serviceGroups {
      var i :| 0 <= i < |services| && services[i] == v;
      assert js[i] in js && name in js[i].groups;
    }
    if j :| j in js && name in j.groups {
      var i :| 0 <= i < |js| && js[i] == j;
      assert services[i] in services && name in services[i].serviceGroups;
    }
  }
}
