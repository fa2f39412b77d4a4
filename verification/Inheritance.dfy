/** Template inheritance (cmd/arbiter/watcher.go): a bounded walk along the `use` references, which
    may form a cycle. */
module Inheritance {
  import opened Models

  /** The depth up to which parents are looked up: a call at depth 6 still contributes its own
      fields, so six ancestors take part. */
  const DEPTH_CAP: nat := 5

  /** resolveHostInheritance; the code calls it with cap 5 and depth 0. */
  function ResolveHost(h: Host, templates: map<string, Host>, depth: nat, cap: nat): Host
    decreases cap + 1 - depth
  {
    if depth > cap || h.use == "" then h
    else if h.use in templates then
      var p := ResolveHost(templates[h.use], templates, depth + 1, cap);
      h.(address := if h.address == "" then p.address else h.address,
         checkCommand := if h.checkCommand == "" then p.checkCommand else h.checkCommand,
         checkPeriod := if h.checkPeriod == "" then p.checkPeriod else h.checkPeriod,
         contacts := if |h.contacts| == 0 then p.contacts else h.contacts,
         hostGroups := if |h.hostGroups| == 0 then p.hostGroups else h.hostGroups)
    else h
  }

  /** resolveServiceInheritance. */
  function ResolveService(s: Service, templates: map<string, Service>, depth: nat, cap: nat): Service
    decreases cap + 1 - depth
  {
    if depth > cap || s.use == "" then s
    else if s.use in templates then
      var p := ResolveService(templates[s.use], templates, depth + 1, cap);
      s.(checkCommand := if s.checkCommand == "" then p.checkCommand else s.checkCommand,
         checkPeriod := if s.checkPeriod == "" then p.checkPeriod else s.checkPeriod,
         contacts := if |s.contacts| == 0 then p.contacts else s.contacts,
         serviceGroups := if |s.serviceGroups| == 0 then p.serviceGroups else s.serviceGroups)
    else s
  }

  // ---------------------------------------------------------------- the chain of ancestors

  /** `x` names an existing template as its parent. */
  predicate Refers<N>(x: N, use: N -> string, templates: map<string, N>) {
    use(x) != "" && use(x) in templates
  }

  /** `x` followed by at most `n` ancestors along its `use` references. */
  function Chain<N>(x: N, use: N -> string, templates: map<string, N>, n: nat): seq<N> {
    if n == 0 || !Refers(x, use, templates) then [x]
    else [x] + Chain(templates[use(x)], use, templates, n - 1)
  }

  /** The first non-empty value of a field along a chain, or the empty value. */
  function FirstSet<N, T>(chain: seq<N>, field: N -> seq<T>): seq<T> {
    if chain == [] then []
    else if |field(chain[0])| > 0 then field(chain[0])
    else FirstSet(chain[1..], field)
  }

  /** FirstSet is what its name says: the field at the first place that sets it ... */
  lemma {:induction false} FirstSetAt<N, T>(chain: seq<N>, field: N -> seq<T>, i: nat)
    requires i < |chain| && field(chain[i]) != []
    requires forall j :: 0 <= j < i ==> field(chain[j]) == []
    ensures FirstSet(chain, field) == field(chain[i])
    decreases i
  {
    if i > 0 {
      FirstSetAt(chain[1..], field, i - 1);
    }
  }

  /** ... or nothing when no place does. */
  lemma {:induction false} FirstSetNowhere<N, T>(chain: seq<N>, field: N -> seq<T>)
    requires forall i :: 0 <= i < |chain| ==> field(chain[i]) == []
    ensures FirstSet(chain, field) == []
  {
    if chain != [] {
      FirstSetNowhere(chain[1..], field);
    }
  }

  lemma FirstSetCons<N, T>(x: N, rest: seq<N>, field: N -> seq<T>)
    ensures FirstSet([x] + rest, field) == if |field(x)| > 0 then field(x) else FirstSet(rest, field)
  {
    assert ([x] + rest)[1..] == rest;
  }

  function HostUse(h: Host): string { h.use }
  function HostAddress(h: Host): string { h.address }
  function HostCommand(h: Host): string { h.checkCommand }
  function HostPeriod(h: Host): string { h.checkPeriod }
  function HostContacts(h: Host): seq<string> { h.contacts }
  function HostGroupNames(h: Host): seq<string> { h.hostGroups }

  function ServiceUse(s: Service): string { s.use }
  function ServiceCommand(s: Service): string { s.checkCommand }
  function ServicePeriod(s: Service): string { s.checkPeriod }
  function ServiceContacts(s: Service): seq<string> { s.contacts }
  function ServiceGroupNames(s: Service): seq<string> { s.serviceGroups }

  /** `h` with every inheritable field taken from the first element of `chain` that sets it. */
  function HostFrom(h: Host, chain: seq<Host>): Host {
    h.(address := FirstSet(chain, HostAddress),
       checkCommand := FirstSet(chain, HostCommand),
       checkPeriod := FirstSet(chain, HostPeriod),
       contacts := FirstSet(chain, HostContacts),
       hostGroups := FirstSet(chain, HostGroupNames))
  }

  function ServiceFrom(s: Service, chain: seq<Service>): Service {
    s.(checkCommand := FirstSet(chain, ServiceCommand),
       checkPeriod := FirstSet(chain, ServicePeriod),
       contacts := FirstSet(chain, ServiceContacts),
       serviceGroups := FirstSet(chain, ServiceGroupNames))
  }

  /** Each inheritable field of a resolved host is the first non-empty value along its `use` chain, cut
      after cap + 1 ancestors (six in the code); all other fields are its own. */
  lemma {:induction false} ResolvedHostIsFirstSet(h: Host, templates: map<string, Host>, depth: nat, cap: nat)
    requires depth <= cap + 1
    ensures ResolveHost(h, templates, depth, cap) == HostFrom(h, Chain(h, HostUse, templates, cap + 1 - depth))
    decreases cap + 1 - depth
  {
    var none: seq<Host> := [];
    var stop := depth > cap || !Refers(h, HostUse, templates);
    var rest := if stop then none else Chain(templates[h.use], HostUse, templates, cap - depth);
    if !stop {
      ResolvedHostIsFirstSet(templates[h.use], templates, depth + 1, cap);
    }
    assert Chain(h, HostUse, templates, cap + 1 - depth) == [h] + rest;
    FirstSetCons(h, rest, HostAddress);
    FirstSetCons(h, rest, HostCommand);
    FirstSetCons(h, rest, HostPeriod);
    FirstSetCons(h, rest, HostContacts);
    FirstSetCons(h, rest, HostGroupNames);
  }

  lemma {:induction false} ResolvedServiceIsFirstSet(s: Service, templates: map<string, Service>, depth: nat, cap: nat)
    requires depth <= cap + 1
    ensures ResolveService(s, templates, depth, cap) == ServiceFrom(s, Chain(s, ServiceUse, templates, cap + 1 - depth))
    decreases cap + 1 - depth
  {
    var none: seq<Service> := [];
    var stop := depth > cap || !Refers(s, ServiceUse, templates);
    var rest := if stop then none else Chain(templates[s.use], ServiceUse, templates, cap - depth);
    if !stop {
      ResolvedServiceIsFirstSet(templates[s.use], templates, depth + 1, cap);
    }
    assert Chain(s, ServiceUse, templates, cap + 1 - depth) == [s] + rest;
    FirstSetCons(s, rest, ServiceCommand);
    FirstSetCons(s, rest, ServicePeriod);
    FirstSetCons(s, rest, ServiceContacts);
    FirstSetCons(s, rest, ServiceGroupNames);
  }

  /** A host that uses no template, or one that does not exist, stays as it is, whatever templates there are
      (one with an empty ID among them). */
  lemma NothingToInherit(h: Host, templates: map<string, Host>, cap: nat)
    requires h.use == "" || h.use !in templates
    ensures ResolveHost(h, templates, 0, cap) == h
  {
  }

  lemma NothingToInheritForService(s: Service, templates: map<string, Service>, cap: nat)
    requires s.use == "" || s.use !in templates
    ensures ResolveService(s, templates, 0, cap) == s
  {
  }

  /** Resolving twice changes nothing more. */
  lemma ResolveHostIdempotent(h: Host, templates: map<string, Host>, cap: nat)
    ensures ResolveHost(ResolveHost(h, templates, 0, cap), templates, 0, cap) == ResolveHost(h, templates, 0, cap)
  {
    var r := ResolveHost(h, templates, 0, cap);
    assert r.use == h.use;
    if h.use != "" && h.use in templates {
      var p := ResolveHost(templates[h.use], templates, 1, cap);
      assert r == h.(address := r.address, checkCommand := r.checkCommand, checkPeriod := r.checkPeriod,
                     contacts := r.contacts, hostGroups := r.hostGroups);
      assert r.contacts == [] ==> p.contacts == [];
      assert r.hostGroups == [] ==> p.hostGroups == [];
    }
  }

  lemma ResolveServiceIdempotent(s: Service, templates: map<string, Service>, cap: nat)
    ensures ResolveService(ResolveService(s, templates, 0, cap), templates, 0, cap) == ResolveService(s, templates, 0, cap)
  {
    var r := ResolveService(s, templates, 0, cap);
    assert r.use == s.use;
    if s.use != "" && s.use in templates {
      var p := ResolveService(templates[s.use], templates, 1, cap);
      assert r.contacts == [] ==> p.contacts == [];
      assert r.serviceGroups == [] ==> p.serviceGroups == [];
    }
  }

  // ---------------------------------------------------------------- the cap loses nothing

  /** `names` contains every template that can be reached from `x`. */
  ghost predicate Reaches<N>(x: N, use: N -> string, templates: map<string, N>, names: set<string>) {
    && (Refers(x, use, templates) ==> use(x) in names)
    && forall n :: n in names && n in templates && Refers(templates[n], use, templates) ==> use(templates[n]) in names
  }

  /** The names of the first `n` ancestors. */
  function Names<N>(x: N, use: N -> string, templates: map<string, N>, n: nat): seq<string> {
    if n == 0 || !Refers(x, use, templates) then []
    else [use(x)] + Names(templates[use(x)], use, templates, n - 1)
  }

  /** Names and chain describe the same walk. */
  lemma {:induction false} NamesOfChain<N>(x: N, use: N -> string, templates: map<string, N>, n: nat)
    ensures var ns, c := Names(x, use, templates, n), Chain(x, use, templates, n);
            && |c| == |ns| + 1 && |ns| <= n
            && c[0] == x
            && (forall i :: 0 <= i < |ns| ==> ns[i] in templates && c[i + 1] == templates[ns[i]])
            && (forall i :: 0 <= i < |ns| ==> ns[i] == use(c[i]))
            && (|ns| < n ==> !Refers(c[|ns|], use, templates))
  {
    if n > 0 && Refers(x, use, templates) {
      NamesOfChain(templates[use(x)], use, templates, n - 1);
    }
  }

  /** A longer walk extends a shorter one. */
  lemma {:induction false} ChainPrefix<N>(x: N, use: N -> string, templates: map<string, N>, n: nat, m: nat)
    requires n <= m
    ensures Chain(x, use, templates, n) <= Chain(x, use, templates, m)
    ensures |Chain(x, use, templates, n)| <= n ==> Chain(x, use, templates, n) == Chain(x, use, templates, m)
  {
    if n > 0 && Refers(x, use, templates) {
      ChainPrefix(templates[use(x)], use, templates, n - 1, m - 1);
    }
  }

  lemma {:induction false} NamesReached<N>(x: N, use: N -> string, templates: map<string, N>, n: nat, names: set<string>)
    requires Reaches(x, use, templates, names)
    ensures forall i :: 0 <= i < |Names(x, use, templates, n)| ==> Names(x, use, templates, n)[i] in names
  {
    if n > 0 && Refers(x, use, templates) {
      NamesReached(templates[use(x)], use, templates, n - 1, names);
    }
  }

  /** If the first `n` + 1 steps of a walk visit a name twice, every later name was seen among the
      first `n` names: the walk has entered a cycle. */
  lemma {:induction false} CycleAdds<N>(c: seq<N>, ns: seq<string>, use: N -> string, templates: map<string, N>, a: nat, b: nat, j: nat)
    requires |c| == |ns| + 1 && a < b <= j < |ns| && ns[a] == ns[b]
    requires forall i :: 0 <= i < |ns| ==> ns[i] in templates && c[i + 1] == templates[ns[i]]
    requires forall i :: 0 <= i < |ns| ==> ns[i] == use(c[i])
    ensures exists i :: 0 <= i < b && ns[i] == ns[j]
    decreases j
  {
    if j == b {
      assert ns[a] == ns[j];
    } else {
      var k := j - (b - a);
      SamePath(c, ns, use, templates, a, b, j);
      assert ns[k] == ns[j];
      if k >= b {
        CycleAdds(c, ns, use, templates, a, b, k);
      }
    }
  }

  /** From two places with the same name the walk goes on the same way. */
  lemma {:induction false} SamePath<N>(c: seq<N>, ns: seq<string>, use: N -> string, templates: map<string, N>, a: nat, b: nat, j: nat)
    requires |c| == |ns| + 1 && a < b <= j < |ns| && ns[a] == ns[b]
    requires forall i :: 0 <= i < |ns| ==> ns[i] in templates && c[i + 1] == templates[ns[i]]
    requires forall i :: 0 <= i < |ns| ==> ns[i] == use(c[i])
    ensures ns[j - (b - a)] == ns[j]
    decreases j
  {
    if j > b {
      SamePath(c, ns, use, templates, a, b, j - 1);
      assert c[j] == templates[ns[j - 1]] == templates[ns[j - 1 - (b - a)]] == c[j - (b - a)];
    }
  }

  /** More names than the set can hold: one occurs twice. */
  lemma {:induction false} Repeats(ns: seq<string>, names: set<string>) returns (a: nat, b: nat)
    requires |ns| > |names| && forall i :: 0 <= i < |ns| ==> ns[i] in names
    ensures a < b < |ns| && ns[a] == ns[b]
    decreases |ns|
  {
    var last := |ns| - 1;
    if i :| 0 <= i < last && ns[i] == ns[last] {
      a, b := i, last;
    } else {
      a, b := Repeats(ns[..last], names - {ns[last]});
    }
  }

  /** Elements that were seen before do not change the first set field. */
  lemma {:induction false} FirstSetSeen<N, T>(front: seq<N>, more: seq<N>, field: N -> seq<T>)
    requires forall x :: x in more ==> x in front
    ensures FirstSet(front + more, field) == FirstSet(front, field)
  {
    FirstSetSplit(front, more, field);
    if FirstSet(front, field) == [] {
      FirstSetEmpty(front, field);
      forall i | 0 <= i < |more| ensures field(more[i]) == [] {
        assert more[i] in front;
      }
      FirstSetNowhere(more, field);
    }
  }

  lemma {:induction false} FirstSetSplit<N, T>(front: seq<N>, more: seq<N>, field: N -> seq<T>)
    ensures FirstSet(front + more, field) ==
            if FirstSet(front, field) != [] then FirstSet(front, field) else FirstSet(more, field)
  {
    if front == [] {
      assert front + more == more;
    } else {
      assert (front + more)[1..] == front[1..] + more;
      FirstSetSplit(front[1..], more, field);
    }
  }

  lemma {:induction false} FirstSetEmpty<N, T>(chain: seq<N>, field: N -> seq<T>)
    requires FirstSet(chain, field) == []
    ensures forall i :: 0 <= i < |chain| ==> field(chain[i]) == []
  {
    if chain != [] {
      FirstSetEmpty(chain[1..], field);
    }
  }

  /** When at most `n` distinct templates can be reached, the first `n` ancestors already contain all
      that a longer walk visits, on cyclic references too. */
  lemma LongerWalkAddsNothing<N, T>(x: N, use: N -> string, templates: map<string, N>, n: nat, m: nat,
                                    names: set<string>, field: N -> seq<T>)
    requires n <= m && |names| <= n && Reaches(x, use, templates, names)
    ensures FirstSet(Chain(x, use, templates, m), field) == FirstSet(Chain(x, use, templates, n), field)
  {
    var short, long, ns := Chain(x, use, templates, n), Chain(x, use, templates, m), Names(x, use, templates, m);
    ChainPrefix(x, use, templates, n, m);
    NamesOfChain(x, use, templates, n);
    NamesOfChain(x, use, templates, m);
    NamesReached(x, use, templates, m, names);
    if |ns| > n {
      var a, b := Repeats(ns[..n + 1], names);
      assert long[..n + 1] == short;
      AllSeenBefore(long, ns, use, templates, a, b, n + 1);
      var more := long[|short|..];
      assert long == short + more;
      FirstSetSeen(short, more, field);
    } else {
      assert |long| <= |short|;
      assert long == short;
    }
  }

  lemma AllSeenBefore<N>(c: seq<N>, ns: seq<string>, use: N -> string, templates: map<string, N>, a: nat, b: nat, n: nat)
    requires |c| == |ns| + 1 && a < b < n <= |c| && b < |ns| && ns[a] == ns[b]
    requires forall i :: 0 <= i < |ns| ==> ns[i] in templates && c[i + 1] == templates[ns[i]]
    requires forall i :: 0 <= i < |ns| ==> ns[i] == use(c[i])
    ensures forall x :: x in c[n..] ==> x in c[..n]
  {
    forall x | x in c[n..] ensures x in c[..n] {
      var j :| 0 <= j < |c[n..]| && c[n..][j] == x;
      SeenBefore(c, ns, use, templates, a, b, n + j);
      var i :| 0 <= i < b + 1 && c[..b + 1][i] == c[n + j];
      assert c[..n][i] == x;
    }
  }

  /** What a walk visits after a repeated name, it has visited before. */
  lemma SeenBefore<N>(c: seq<N>, ns: seq<string>, use: N -> string, templates: map<string, N>, a: nat, b: nat, at: nat)
    requires |c| == |ns| + 1 && a < b < at < |c| && ns[a] == ns[b]
    requires forall i :: 0 <= i < |ns| ==> ns[i] in templates && c[i + 1] == templates[ns[i]]
    requires forall i :: 0 <= i < |ns| ==> ns[i] == use(c[i])
    ensures c[at] in c[..b + 1]
  {
    CycleAdds(c, ns, use, templates, a, b, at - 1);
    var i :| 0 <= i < b && ns[i] == ns[at - 1];
    assert c[..b + 1][i + 1] == c[i + 1] == templates[ns[i]] == c[at];
  }

  /** The cap is lossless: if at most six distinct templates can be reached from a host, resolution with
      the code's cap equals resolution with any larger one, even on cyclic `use` references. */
  lemma HostCapIsLossless(h: Host, templates: map<string, Host>, names: set<string>, cap: nat)
    requires cap >= DEPTH_CAP && |names| <= DEPTH_CAP + 1 && Reaches(h, HostUse, templates, names)
    ensures ResolveHost(h, templates, 0, DEPTH_CAP) == ResolveHost(h, templates, 0, cap)
  {
    HostCapsAgree(h, templates, names, DEPTH_CAP, cap);
  }

  lemma HostCapsAgree(h: Host, templates: map<string, Host>, names: set<string>, low: nat, high: nat)
    requires low <= high && |names| <= low + 1 && Reaches(h, HostUse, templates, names)
    ensures ResolveHost(h, templates, 0, low) == ResolveHost(h, templates, 0, high)
  {
    ResolvedHostIsFirstSet(h, templates, 0, low);
    ResolvedHostIsFirstSet(h, templates, 0, high);
    LongerWalkAddsNothing(h, HostUse, templates, low + 1, high + 1, names, HostAddress);
    LongerWalkAddsNothing(h, HostUse, templates, low + 1, high + 1, names, HostCommand);
    LongerWalkAddsNothing(h, HostUse, templates, low + 1, high + 1, names, HostPeriod);
    LongerWalkAddsNothing(h, HostUse, templates, low + 1, high + 1, names, HostContacts);
    LongerWalkAddsNothing(h, HostUse, templates, low + 1, high + 1, names, HostGroupNames);
  }

  lemma ServiceCapIsLossless(s: Service, templates: map<string, Service>, names: set<string>, cap: nat)
    requires cap >= DEPTH_CAP && |names| <= DEPTH_CAP + 1 && Reaches(s, ServiceUse, templates, names)
    ensures ResolveService(s, templates, 0, DEPTH_CAP) == ResolveService(s, templates, 0, cap)
  {
    ServiceCapsAgree(s, templates, names, DEPTH_CAP, cap);
  }

  lemma ServiceCapsAgree(s: Service, templates: map<string, Service>, names: set<string>, low: nat, high: nat)
    requires low <= high && |names| <= low + 1 && Reaches(s, ServiceUse, templates, names)
    ensures ResolveService(s, templates, 0, low) == ResolveService(s, templates, 0, high)
  {
    ResolvedServiceIsFirstSet(s, templates, 0, low);
    ResolvedServiceIsFirstSet(s, templates, 0, high);
    LongerWalkAddsNothing(s, ServiceUse, templates, low + 1, high + 1, names, ServiceCommand);
    LongerWalkAddsNothing(s, ServiceUse, templates, low + 1, high + 1, names, ServicePeriod);
    LongerWalkAddsNothing(s, ServiceUse, templates, low + 1, high + 1, names, ServiceContacts);
    LongerWalkAddsNothing(s, ServiceUse, templates, low + 1, high + 1, names, ServiceGroupNames);
  }

  // ---------------------------------------------------------------- what the cap loses

  /** The short chain misses the field that the long one finds: nothing on it sets the field, and
      something behind it does. */
  ghost predicate Missed<N, T>(short: seq<N>, long: seq<N>, field: N -> seq<T>) {
    && (forall i :: 0 <= i < |short| ==> field(short[i]) == [])
    && (exists i :: |short| <= i < |long| && field(long[i]) != [])
  }

  lemma FieldMissedIff<N, T>(short: seq<N>, long: seq<N>, field: N -> seq<T>)
    requires short <= long
    ensures FirstSet(short, field) != FirstSet(long, field) <==> Missed(short, long, field)
  {
    var more := long[|short|..];
    assert long == short + more;
    FirstSetSplit(short, more, field);
    EmptyIff(short, field);
    EmptyIff(more, field);
    assert forall i :: 0 <= i < |more| ==> more[i] == long[|short| + i];
    assert forall i :: |short| <= i < |long| ==> long[i] == more[i - |short|];
  }

  lemma EmptyIff<N, T>(chain: seq<N>, field: N -> seq<T>)
    ensures FirstSet(chain, field) == [] <==> forall i :: 0 <= i < |chain| ==> field(chain[i]) == []
  {
    if FirstSet(chain, field) == [] {
      FirstSetEmpty(chain, field);
    } else if forall i :: 0 <= i < |chain| ==> field(chain[i]) == [] {
      FirstSetNowhere(chain, field);
    }
  }

  lemma HostFromDiffersIff(h: Host, x: seq<Host>, y: seq<Host>)
    requires x <= y
    ensures HostFrom(h, x) != HostFrom(h, y) <==>
            || Missed(x, y, HostAddress) || Missed(x, y, HostCommand) || Missed(x, y, HostPeriod)
            || Missed(x, y, HostContacts) || Missed(x, y, HostGroupNames)
  {
    FieldMissedIff(x, y, HostAddress);
    FieldMissedIff(x, y, HostCommand);
    FieldMissedIff(x, y, HostPeriod);
    FieldMissedIff(x, y, HostContacts);
    FieldMissedIff(x, y, HostGroupNames);
  }

  lemma ServiceFromDiffersIff(s: Service, x: seq<Service>, y: seq<Service>)
    requires x <= y
    ensures ServiceFrom(s, x) != ServiceFrom(s, y) <==>
            || Missed(x, y, ServiceCommand) || Missed(x, y, ServicePeriod)
            || Missed(x, y, ServiceContacts) || Missed(x, y, ServiceGroupNames)
  {
    FieldMissedIff(x, y, ServiceCommand);
    FieldMissedIff(x, y, ServicePeriod);
    FieldMissedIff(x, y, ServiceContacts);
    FieldMissedIff(x, y, ServiceGroupNames);
  }

  /** The cap is exact: against any larger cap, resolution differs if and only if one of the five
      inheritable fields is unset on the host and the first cap + 1 ancestors (six in the code) and set
      on a later one that the larger cap reaches. */
  lemma HostCapLosesIff(h: Host, templates: map<string, Host>, low: nat, high: nat)
    requires low <= high
    ensures var x, y := Chain(h, HostUse, templates, low + 1), Chain(h, HostUse, templates, high + 1);
            ResolveHost(h, templates, 0, low) != ResolveHost(h, templates, 0, high) <==>
            || Missed(x, y, HostAddress) || Missed(x, y, HostCommand) || Missed(x, y, HostPeriod)
            || Missed(x, y, HostContacts) || Missed(x, y, HostGroupNames)
  {
    ResolvedHostIsFirstSet(h, templates, 0, low);
    ResolvedHostIsFirstSet(h, templates, 0, high);
    ChainPrefix(h, HostUse, templates, low + 1, high + 1);
    HostFromDiffersIff(h, Chain(h, HostUse, templates, low + 1), Chain(h, HostUse, templates, high + 1));
  }

  lemma ServiceCapLosesIff(s: Service, templates: map<string, Service>, low: nat, high: nat)
    requires low <= high
    ensures var x, y := Chain(s, ServiceUse, templates, low + 1), Chain(s, ServiceUse, templates, high + 1);
            ResolveService(s, templates, 0, low) != ResolveService(s, templates, 0, high) <==>
            || Missed(x, y, ServiceCommand) || Missed(x, y, ServicePeriod)
            || Missed(x, y, ServiceContacts) || Missed(x, y, ServiceGroupNames)
  {
    ResolvedServiceIsFirstSet(s, templates, 0, low);
    ResolvedServiceIsFirstSet(s, templates, 0, high);
    ChainPrefix(s, ServiceUse, templates, low + 1, high + 1);
    ServiceFromDiffersIff(s, Chain(s, ServiceUse, templates, low + 1), Chain(s, ServiceUse, templates, high + 1));
  }

  // ---------------------------------------------------------------- a host that loses its address

  function Template(id: string, use: string, address: string): Host {
    Host(id, use, address, "", "", [], [], Some(false), false, [], false, 0, 0, "")
  }

  /** Eight templates, each using the next one; only the eighth has an address. */
  function Ladder(): map<string, Host> {
    map["1" := Template("1", "2", ""), "2" := Template("2", "3", ""), "3" := Template("3", "4", ""),
        "4" := Template("4", "5", ""), "5" := Template("5", "6", ""), "6" := Template("6", "7", ""),
        "7" := Template("7", "8", ""), "8" := Template("8", "", "10.0.0.1")]
  }

  /** The code's cap gives the empty address, two more steps the one of the eighth template. */
  lemma EighthAncestorIsLost(h: Host)
    requires h.use == "1" && h.address == ""
    ensures ResolveHost(h, Ladder(), 0, DEPTH_CAP).address == ""
    ensures ResolveHost(h, Ladder(), 0, DEPTH_CAP + 2).address == "10.0.0.1"
  {
    Climb(5);
    Climb(7);
  }

  lemma Climb(cap: nat)
    requires 5 <= cap <= 7
    ensures ResolveHost(Ladder()["1"], Ladder(), 1, cap).address == if cap == 7 then "10.0.0.1" else ""
  {
    var t := Ladder();
    assert cap == 7 ==> ResolveHost(t["7"], t, 7, cap).address == "10.0.0.1";
    assert cap < 7 ==> ResolveHost(t["7"], t, 7, cap).address == "";
    assert ResolveHost(t["6"], t, 6, cap).address == if cap == 7 then "10.0.0.1" else "";
    assert ResolveHost(t["5"], t, 5, cap).address == if cap == 7 then "10.0.0.1" else "";
    assert ResolveHost(t["4"], t, 4, cap).address == if cap == 7 then "10.0.0.1" else "";
    assert ResolveHost(t["3"], t, 3, cap).address == if cap == 7 then "10.0.0.1" else "";
    assert ResolveHost(t["2"], t, 2, cap).address == if cap == 7 then "10.0.0.1" else "";
  }
}
