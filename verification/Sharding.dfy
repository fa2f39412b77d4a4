/** partitionConfig (cmd/arbiter/watcher.go): hosts round-robin, services with their host. */
module Sharding {
  import opened Models
  import opened Seqs
  import opened Arithmetic

  // ---------------------------------------------------------------- hosts

  /** Every n-th host, starting with host `s`. */
  function ShardHosts(hosts: seq<Host>, n: nat, s: nat): seq<Host>
    requires n > 0
  {
    if hosts == [] then []
    else
      var front := ShardHosts(hosts[..|hosts| - 1], n, s);
      if (|hosts| - 1) % n == s then front + [hosts[|hosts| - 1]] else front
  }

  /** `size` is ceil((count - s) / n): the least number of rows of n that reach beyond `count` at column s. */
  ghost predicate IsShardSize(size: nat, count: nat, n: nat, s: nat) {
    count <= size * n + s && (size > 0 ==> (size - 1) * n + s < count)
  }

  /** Shard `s` holds ceil((H - s) / n) hosts, and its k-th host is host k * n + s. */
  lemma {:induction false} ShardLayout(hosts: seq<Host>, n: nat, s: nat)
    requires s < n
    ensures IsShardSize(|ShardHosts(hosts, n, s)|, |hosts|, n, s)
    ensures forall k :: 0 <= k < |ShardHosts(hosts, n, s)| ==>
              0 <= k * n + s < |hosts| && ShardHosts(hosts, n, s)[k] == hosts[k * n + s]
  {
    if hosts != [] {
      var front, last := hosts[..|hosts| - 1], |hosts| - 1;
      var shard, size := ShardHosts(hosts, n, s), |ShardHosts(front, n, s)|;
      ShardLayout(front, n, s);
      NextRow(size, last, n, s);
      forall k | 0 <= k < |shard|
        ensures 0 <= k * n + s < |hosts| && shard[k] == hosts[k * n + s]
      {
        if k < size {
          assert shard[k] == ShardHosts(front, n, s)[k] == front[k * n + s];
        }
      }
    }
  }

  /** Host `count` is in row `size` of shard `s`, or the shard already reaches beyond it. */
  lemma NextRow(size: nat, count: nat, n: nat, s: nat)
    requires s < n && IsShardSize(size, count, n, s)
    ensures count % n == s ==> count == size * n + s && IsShardSize(size + 1, count + 1, n, s)
    ensures count % n != s ==> IsShardSize(size, count + 1, n, s)
  {
    var q := count / n;
    DivMod(count, n);
    ProductOrder(size, q, n);
    ProductOrder(q, size, n);
    ProductOrder(q, size - 1, n);
    ProductOrder(size - 1, q, n);
    NextMultiple(size, n);
    NextMultiple(size - 1, n);
    if count == size * n + s {
      DivIs(count, n, size, s);
    }
  }

  /** Host i is at position i / n of shard i % n. */
  lemma HostPosition(hosts: seq<Host>, n: nat, i: nat)
    requires n > 0 && i < |hosts|
    ensures i / n < |ShardHosts(hosts, n, i % n)| && ShardHosts(hosts, n, i % n)[i / n] == hosts[i]
  {
    DivMod(i, n);
    RowAndColumn(hosts, n, i / n, i % n);
  }

  /** The host in row `q` of column `s`. */
  lemma RowAndColumn(hosts: seq<Host>, n: nat, q: nat, s: nat)
    requires s < n && q * n + s < |hosts|
    ensures q < |ShardHosts(hosts, n, s)| && ShardHosts(hosts, n, s)[q] == hosts[q * n + s]
  {
    ShardLayout(hosts, n, s);
    RowOf(q, s, n, |ShardHosts(hosts, n, s)|, |hosts|);
  }

  lemma RowOf(q: nat, s: nat, n: nat, size: nat, count: nat)
    requires n > 0 && q * n + s < count <= size * n + s
    ensures q < size
  {
    ProductOrder(q, size, n);
  }

  /** Any two shards differ by at most one host. */
  lemma Balance(hosts: seq<Host>, n: nat, s: nat, t: nat)
    requires s < t < n
    ensures 0 <= |ShardHosts(hosts, n, s)| - |ShardHosts(hosts, n, t)| <= 1
  {
    ShardLayout(hosts, n, s);
    ShardLayout(hosts, n, t);
    var a, b := |ShardHosts(hosts, n, s)|, |ShardHosts(hosts, n, t)|;
    ProductOrder(a, b, n);
    ProductOrder(b - 1, a, n);
    ProductOrder(a - 1, b + 1, n);
    NextMultiple(b - 1, n);
    NextMultiple(a - 1, n);
    NextMultiple(b, n);
  }

  /** Dealing one host from each of the `n` shards in turn. */
  function Interleave(shards: seq<seq<Host>>, n: nat, count: nat): seq<Host>
    requires n > 0 && |shards| == n
    requires forall i :: 0 <= i < count ==> i / n < |shards[i % n]|
  {
    seq(count, i requires 0 <= i < count => shards[i % n][i / n])
  }

  function AllShards(hosts: seq<Host>, n: nat): seq<seq<Host>>
    requires n > 0
  {
    seq(n, s requires 0 <= s < n => ShardHosts(hosts, n, s))
  }

  /** The round trip: interleaving the shards rebuilds the original host list exactly. */
  lemma ShardRoundTrip(hosts: seq<Host>, n: nat)
    requires n > 0
    ensures forall i :: 0 <= i < |hosts| ==> i / n < |AllShards(hosts, n)[i % n]|
    ensures Interleave(AllShards(hosts, n), n, |hosts|) == hosts
  {
    forall i | 0 <= i < |hosts|
      ensures i / n < |AllShards(hosts, n)[i % n]| && AllShards(hosts, n)[i % n][i / n] == hosts[i]
    {
      HostInShards(hosts, n, i);
    }
  }

  lemma HostInShards(hosts: seq<Host>, n: nat, i: nat)
    requires n > 0 && i < |hosts|
    ensures i / n < |AllShards(hosts, n)[i % n]| && AllShards(hosts, n)[i % n][i / n] == hosts[i]
  {
    HostPosition(hosts, n, i);
    assert AllShards(hosts, n)[i % n] == ShardHosts(hosts, n, i % n);
  }

  /** Extending the host list at the end extends every shard at its end: no host moves. */
  lemma {:induction false} GrowthMovesNothing(hosts: seq<Host>, more: seq<Host>, n: nat, s: nat)
    requires n > 0
    ensures ShardHosts(hosts, n, s) <= ShardHosts(hosts + more, n, s)
  {
    if more == [] {
      assert hosts + more == hosts;
    } else {
      var front := more[..|more| - 1];
      assert (hosts + more)[..|hosts + more| - 1] == hosts + front;
      GrowthMovesNothing(hosts, front, n, s);
    }
  }

  // ---------------------------------------------------------------- services

  /** The shard of each host ID; the last host with an ID decides. */
  function HostShard(hosts: seq<Host>, n: nat): map<string, nat>
    requires n > 0
  {
    if hosts == [] then map[]
    else HostShard(hosts[..|hosts| - 1], n)[hosts[|hosts| - 1].id := (|hosts| - 1) % n]
  }

  /** The services that go to shard `s`, in order. */
  function ShardServices(services: seq<Service>, place: map<string, nat>, s: nat): seq<Service> {
    if services == [] then []
    else
      var last, front := services[|services| - 1], ShardServices(services[..|services| - 1], place, s);
      if last.hostName in place && place[last.hostName] == s then front + [last] else front
  }

  /** The services whose host is known, in order. */
  function Placed(services: seq<Service>, place: map<string, nat>): seq<Service> {
    if services == [] then []
    else
      var last, front := services[|services| - 1], Placed(services[..|services| - 1], place);
      if last.hostName in place then front + [last] else front
  }

  lemma {:induction false} HostShardMeaning(hosts: seq<Host>, n: nat)
    requires n > 0
    ensures HostShard(hosts, n).Keys == HostIds(hosts)
    ensures forall k :: k in HostShard(hosts, n) ==> HostShard(hosts, n)[k] < n
    ensures forall i :: 0 <= i < |hosts| && (forall j :: i < j < |hosts| ==> hosts[j].id != hosts[i].id) ==>
              HostShard(hosts, n)[hosts[i].id] == i % n
  {
    if hosts != [] {
      var front, last := hosts[..|hosts| - 1], hosts[|hosts| - 1];
      HostShardMeaning(front, n);
      assert hosts == front + [last];
      forall i | 0 <= i < |hosts| && (forall j :: i < j < |hosts| ==> hosts[j].id != hosts[i].id)
        ensures HostShard(hosts, n)[hosts[i].id] == i % n
      {
        if i < |front| {
          assert hosts[|hosts| - 1].id != hosts[i].id;
          assert front[i] == hosts[i] && forall j :: i < j < |front| ==> front[j].id != front[i].id;
        }
      }
    }
  }

  /** A host ID that is not added again stays on its shard when the list grows. */
  lemma {:induction false} GrowthKeepsShard(hosts: seq<Host>, more: seq<Host>, n: nat, id: string)
    requires n > 0 && id in HostShard(hosts, n) && forall h :: h in more ==> h.id != id
    ensures id in HostShard(hosts + more, n) && HostShard(hosts + more, n)[id] == HostShard(hosts, n)[id]
  {
    if more == [] {
      assert hosts + more == hosts;
    } else {
      var front := more[..|more| - 1];
      assert (hosts + more)[..|hosts + more| - 1] == hosts + front;
      assert more[|more| - 1] in more;
      GrowthKeepsShard(hosts, front, n, id);
    }
  }

  /** A shard's service list is the in-order selection of the services whose host is mapped to it. */
  lemma {:induction false} ShardServicesMeaning(services: seq<Service>, place: map<string, nat>, s: nat)
    ensures forall v :: v in ShardServices(services, place, s) <==>
              v in services && v.hostName in place && place[v.hostName] == s
  {
    if services != [] {
      var front, last := services[..|services| - 1], services[|services| - 1];
      ShardServicesMeaning(front, place, s);
      assert services == front + [last];
    }
  }

  /** The places in the service list from which shard `s` got its services. */
  lemma {:induction false} ShardServicePlaces(services: seq<Service>, place: map<string, nat>, s: nat) returns (at: seq<nat>)
    ensures |at| == |ShardServices(services, place, s)|
    ensures forall i :: 0 <= i < |at| ==> at[i] < |services| && ShardServices(services, place, s)[i] == services[at[i]]
    ensures forall i, j :: 0 <= i < j < |at| ==> at[i] < at[j]
    ensures forall k :: 0 <= k < |services| ==>
              (k in at <==> services[k].hostName in place && place[services[k].hostName] == s)
  {
    at := [];
    if services != [] {
      var front, last := services[..|services| - 1], services[|services| - 1];
      at := ShardServicePlaces(front, place, s);
      if last.hostName in place && place[last.hostName] == s {
        at := at + [|front|];
      }
    }
  }

  /** The services of the first `k` shards. */
  function ServicesUpTo(services: seq<Service>, place: map<string, nat>, k: nat): multiset<Service> {
    if k == 0 then multiset{}
    else ServicesUpTo(services, place, k - 1) + multiset(ShardServices(services, place, k - 1))
  }

  /** The service `v` if its host is on one of the shards from `low` up to `high`. */
  function Between(v: Service, place: map<string, nat>, low: nat, high: nat): multiset<Service> {
    if v.hostName in place && low <= place[v.hostName] < high then multiset{v} else multiset{}
  }

  lemma {:induction false} UpToSnoc(services: seq<Service>, last: Service, place: map<string, nat>, k: nat)
    ensures ServicesUpTo(services + [last], place, k) == ServicesUpTo(services, place, k) + Between(last, place, 0, k)
  {
    if k > 0 {
      UpToSnoc(services, last, place, k - 1);
      ShardSnoc(services, last, place, k - 1);
      Regroup(ServicesUpTo(services, place, k - 1), Between(last, place, 0, k - 1),
              multiset(ShardServices(services, place, k - 1)), Between(last, place, k - 1, k));
      assert Between(last, place, 0, k - 1) + Between(last, place, k - 1, k) == Between(last, place, 0, k);
    }
  }

  lemma ShardSnoc(services: seq<Service>, last: Service, place: map<string, nat>, s: nat)
    ensures multiset(ShardServices(services + [last], place, s)) ==
            multiset(ShardServices(services, place, s)) + Between(last, place, s, s + 1)
  {
    assert (services + [last])[..|services|] == services;
  }

  lemma {:induction false} UpToNothing(place: map<string, nat>, k: nat)
    ensures ServicesUpTo([], place, k) == multiset{}
  {
    if k > 0 {
      UpToNothing(place, k - 1);
    }
  }

  /** All shards together hold exactly the services with a known host, no more and no fewer times. */
  lemma {:induction false} ServicesConserved(services: seq<Service>, place: map<string, nat>, n: nat)
    requires forall k :: k in place ==> place[k] < n
    ensures ServicesUpTo(services, place, n) == multiset(Placed(services, place))
  {
    if services == [] {
      UpToNothing(place, n);
    } else {
      var front, last := services[..|services| - 1], services[|services| - 1];
      ServicesConserved(front, place, n);
      UpToSnoc(front, last, place, n);
      assert services == front + [last];
    }
  }

  /** Nothing is dropped exactly when every service names a known host. */
  lemma {:induction false} NothingDroppedIff(services: seq<Service>, place: map<string, nat>)
    ensures |Placed(services, place)| <= |services|
    ensures Placed(services, place) == services <==> forall v :: v in services ==> v.hostName in place
  {
    if services != [] {
      var front, last := services[..|services| - 1], services[|services| - 1];
      NothingDroppedIff(front, place);
      assert services == front + [last];
      if Placed(services, place) == services {
        assert Placed(services, place) == Placed(front, place) + [last];
        assert Placed(front, place) == front;
      }
    }
  }

  // ---------------------------------------------------------------- the code

  function ShardAt(cfg: GlobalConfig, n: nat, s: nat): GlobalConfig
    requires n > 0
  {
    GlobalConfig(cfg.commands, cfg.contacts, cfg.timePeriods, ShardHosts(cfg.hosts, n, s),
                 ShardServices(cfg.services, HostShard(cfg.hosts, n), s), [], [], [])
  }

  /** The shards for `n` schedulers: with one or none the configuration stays whole. */
  function Partition(cfg: GlobalConfig, n: int): seq<GlobalConfig> {
    if n <= 1 then [cfg] else seq(n, s requires 0 <= s < n => ShardAt(cfg, n, s))
  }

  /** With two schedulers or more each shard mirrors commands, contacts and time periods and has no groups;
      with one or none the configuration stays whole. */
  lemma ShardsMirror(cfg: GlobalConfig, n: int, s: nat)
    requires s < |Partition(cfg, n)|
    ensures |Partition(cfg, n)| == if n <= 1 then 1 else n
    ensures var shard := Partition(cfg, n)[s];
            && shard.commands == cfg.commands && shard.contacts == cfg.contacts && shard.timePeriods == cfg.timePeriods
            && (n <= 1 ==> shard == cfg)
            && (n > 1 ==> shard.hostGroups == [] && shard.serviceGroups == [] && shard.downtimes == [])
  {
  }

  /** The services of all shards together. */
  function AllServices(shards: seq<GlobalConfig>): multiset<Service> {
    if shards == [] then multiset{}
    else AllServices(shards[..|shards| - 1]) + multiset(shards[|shards| - 1].services)
  }

  lemma {:induction false} AllServicesUpTo(cfg: GlobalConfig, n: nat, k: nat)
    requires k <= n && n > 1
    ensures AllServices(Partition(cfg, n)[..k]) == ServicesUpTo(cfg.services, HostShard(cfg.hosts, n), k)
  {
    if k > 0 {
      var some := Partition(cfg, n)[..k];
      AllServicesUpTo(cfg, n, k - 1);
      assert some[..k - 1] == Partition(cfg, n)[..k - 1];
    }
  }

  method PartitionConfig(cfg: GlobalConfig, n: int) returns (result: seq<GlobalConfig>)
    ensures result == Partition(cfg, n)
  {
    if n <= 1 {
      return [cfg];
    }
    var empty := GlobalConfig(cfg.commands, cfg.contacts, cfg.timePeriods, [], [], [], [], []);
    var shards := new GlobalConfig[n](i => empty);
    var hostToShard := DealHosts(shards, cfg.hosts);
    HostShardMeaning(cfg.hosts, n);
    DealServices(shards, cfg.services, hostToShard);
    result := shards[..];
  }

  /** The host loop: each host is appended to the shard of its index, and its shard is noted. */
  method DealHosts(shards: array<GlobalConfig>, hosts: seq<Host>) returns (hostToShard: map<string, nat>)
    requires shards.Length > 0 && forall s :: 0 <= s < shards.Length ==> shards[s].hosts == []
    modifies shards
    ensures hostToShard == HostShard(hosts, shards.Length)
    ensures forall s :: 0 <= s < shards.Length ==>
              shards[s] == old(shards[s]).(hosts := ShardHosts(hosts, shards.Length, s))
  {
    var n := shards.Length;
    hostToShard := map[];
    for i := 0 to |hosts|
      invariant hostToShard == HostShard(hosts[..i], n)
      invariant forall s :: 0 <= s < n ==> shards[s] == old(shards[s]).(hosts := ShardHosts(hosts[..i], n, s))
    {
      assert hosts[..i + 1][..i] == hosts[..i];
      var shardIdx := i % n;
      shards[shardIdx] := shards[shardIdx].(hosts := shards[shardIdx].hosts + [hosts[i]]);
      hostToShard := hostToShard[hosts[i].id := shardIdx];
    }
    assert hosts[..|hosts|] == hosts;
  }

  /** The service loop: a service whose host is unknown is left out. */
  method DealServices(shards: array<GlobalConfig>, services: seq<Service>, hostToShard: map<string, nat>)
    requires forall k :: k in hostToShard ==> hostToShard[k] < shards.Length
    requires forall s :: 0 <= s < shards.Length ==> shards[s].services == []
    modifies shards
    ensures forall s :: 0 <= s < shards.Length ==>
              shards[s] == old(shards[s]).(services := ShardServices(services, hostToShard, s))
  {
    for i := 0 to |services|
      invariant forall s :: 0 <= s < shards.Length ==>
        shards[s] == old(shards[s]).(services := ShardServices(services[..i], hostToShard, s))
    {
      assert services[..i + 1][..i] == services[..i];
      var service := services[i];
      if service.hostName in hostToShard {
        var idx := hostToShard[service.hostName];
        shards[idx] := shards[idx].(services := shards[idx].services + [service]);
      }
    }
    assert services[..|services|] == services;
  }
}
