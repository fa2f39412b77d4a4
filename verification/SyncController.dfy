/** refreshConfig and syncShardsToSchedulers (cmd/arbiter/watcher.go): the guard of the cool-off period,
    the retries, and the outcome of a round. */
module SyncController {
  import opened Models
  import opened Loader
  import opened Linter
  import opened Sharding

  const ATTEMPTS: nat := 3

  /** Whether attempt `a` (1, 2 or 3) to push the shard of scheduler `i` would be answered 200. */
  type Network = (nat, nat) -> bool

  // ---------------------------------------------------------------- one round

  predicate Reached(net: Network, i: nat) {
    net(i, 1) || net(i, 2) || net(i, 3)
  }

  function ReachedAmong(net: Network, n: nat): nat {
    if n == 0 then 0 else ReachedAmong(net, n - 1) + if Reached(net, n - 1) then 1 else 0
  }

  lemma {:induction false} ReachedCounts(net: Network, n: nat)
    ensures ReachedAmong(net, n) <= n
    ensures ReachedAmong(net, n) == n <==> forall i :: 0 <= i < n ==> Reached(net, i)
    ensures ReachedAmong(net, n) == 0 <==> forall i :: 0 <= i < n ==> !Reached(net, i)
  {
    if n > 0 {
      ReachedCounts(net, n - 1);
    }
  }

  /** The attempt loop for one scheduler: it stops at the first 200 and after three attempts. */
  method PushShard(net: Network, i: nat) returns (ok: bool, attempts: nat)
    ensures 1 <= attempts <= 3
    ensures ok <==> Reached(net, i)
    ensures ok ==> net(i, attempts)
    ensures forall a :: 1 <= a < attempts ==> !net(i, a)
    ensures !ok ==> attempts == 3
  {
    attempts := 0;
    ok := false;
    while attempts < ATTEMPTS && !ok
      invariant attempts <= ATTEMPTS
      invariant ok ==> attempts >= 1 && net(i, attempts)
      invariant forall a :: 1 <= a < attempts ==> !net(i, a)
      invariant !ok && attempts > 0 ==> !net(i, attempts)
      decreases ATTEMPTS - attempts, !ok
    {
      attempts := attempts + 1;
      ok := net(i, attempts);
    }
  }

  datatype Outcome =
    | InCoolOff
    | LoadFailed
    | Follower
    | Rejected
    | Pushing(shards: seq<GlobalConfig>)

  class Arbiter {
    const schedulers: nat
    const coolOffMinutes: int
    const isIp: string -> bool
    var isInCoolOff: bool
    var coolOffStart: int
    var syncSuccess: bool
    var currentConfig: GlobalConfig
    var lastSync: int

    constructor (schedulers: nat, coolOffMinutes: int, isIp: string -> bool)
      ensures this.schedulers == schedulers && !isInCoolOff && !syncSuccess
      ensures this.coolOffMinutes == if coolOffMinutes <= 0 then 5 else coolOffMinutes
    {
      this.schedulers := schedulers;
      this.coolOffMinutes := if coolOffMinutes <= 0 then 5 else coolOffMinutes;
      this.isIp := isIp;
      isInCoolOff, coolOffStart, syncSuccess := false, 0, false;
      currentConfig := GlobalConfig([], [], [], [], [], [], [], []);
      lastSync := 0;
    }

    function View(): Control
      reads this
    {
      Control(isInCoolOff, coolOffStart)
    }

    /** refreshConfig up to the point where it starts a round; `raw` is None when reading fails. */
    method Refresh(raw: Option<GlobalConfig>, leader: bool, now: int) returns (outcome: Outcome)
      modifies this
      ensures View() == Next(old(View()), Refreshed(now), coolOffMinutes * 60_000_000_000)
      ensures outcome == InCoolOff <==>
              old(isInCoolOff) && now - old(coolOffStart) < coolOffMinutes * 60_000_000_000
      ensures if outcome == InCoolOff then View() == old(View()) else !isInCoolOff && coolOffStart == old(coolOffStart)
      ensures outcome in {InCoolOff, LoadFailed} ==> currentConfig == old(currentConfig) && lastSync == old(lastSync)
      ensures outcome != InCoolOff ==> (outcome == LoadFailed <==> raw.None?)
      ensures outcome !in {InCoolOff, LoadFailed} ==>
                && Loads(raw.value, currentConfig) && lastSync == now
                && outcome == (if !leader then Follower
                               else if LintErrors(currentConfig) != [] then Rejected
                               else Pushing(Partition(currentConfig, schedulers)))
      ensures syncSuccess == (old(syncSuccess) && outcome != Rejected)
    {
      if isInCoolOff {
        if now - coolOffStart < coolOffMinutes * MINUTE {
          return InCoolOff;
        }
        isInCoolOff := false;
      }
      if raw.None? {
        return LoadFailed;
      }
      var cfg := LoadAndProcess(raw.value);
      currentConfig := cfg;
      lastSync := now;
      if !leader {
        return Follower;
      }
      var audit := RunLinter(cfg, isIp);
      if |audit.errors| > 0 {
        syncSuccess := false;
        return Rejected;
      }
      var shards := PartitionConfig(cfg, schedulers);
      return Pushing(shards);
    }

    /** How many schedulers a round with these shards tries. */
    function Tried(shards: seq<GlobalConfig>): nat {
      if |shards| < schedulers then |shards| else schedulers
    }

    /** The loop of syncShardsToSchedulers: a scheduler without a shard is skipped, and each of the others
        is tried until the first 200 but at most three times. */
    method PushAll(shards: seq<GlobalConfig>, net: Network) returns (attempts: seq<nat>, successCount: nat)
      ensures |attempts| == Tried(shards)
      ensures forall i :: 0 <= i < Tried(shards) ==>
                && 1 <= attempts[i] <= 3
                && (forall a :: 1 <= a < attempts[i] ==> !net(i, a))
                && (Reached(net, i) ==> net(i, attempts[i]))
      ensures successCount == ReachedAmong(net, Tried(shards))
    {
      attempts, successCount := [], 0;
      for i := 0 to schedulers
        invariant i <= Tried(shards) && |attempts| == i && successCount == ReachedAmong(net, i)
        invariant forall j :: 0 <= j < i ==>
          && 1 <= attempts[j] <= 3
          && (forall a :: 1 <= a < attempts[j] ==> !net(j, a))
          && (Reached(net, j) ==> net(j, attempts[j]))
      {
        if i >= |shards| {
          break;
        }
        var ok, tries := PushShard(net, i);
        attempts := attempts + [tries];
        if ok {
          successCount := successCount + 1;
        }
      }
    }

    /** syncShardsToSchedulers; `now` is the time at which it looks at the success counter.  It reports
        success if and only if every scheduler was reached, and enters the cool-off if and only if none
        was; without schedulers it does nothing. */
    method SyncRound(shards: seq<GlobalConfig>, net: Network, now: int) returns (attempts: seq<nat>)
      modifies this`isInCoolOff, this`coolOffStart, this`syncSuccess
      ensures schedulers == 0 ==> attempts == [] && View() == old(View()) && syncSuccess == old(syncSuccess)
      ensures |attempts| == Tried(shards)
      ensures forall i :: 0 <= i < |attempts| ==> 1 <= attempts[i] <= 3
      ensures schedulers > 0 ==>
                (syncSuccess <==> |shards| >= schedulers && forall i :: 0 <= i < schedulers ==> Reached(net, i))
      ensures schedulers > 0 ==>
                View() == if forall i :: 0 <= i < Tried(shards) ==> !Reached(net, i)
                          then Control(true, now) else old(View())
    {
      if schedulers == 0 {
        return [];
      }
      var successCount;
      attempts, successCount := PushAll(shards, net);
      ReachedCounts(net, Tried(shards));
      if successCount == 0 {
        isInCoolOff := true;
        coolOffStart := now;
        syncSuccess := false;
      } else {
        syncSuccess := successCount == schedulers;
      }
    }
  }

  /** One refresh of the leader gives every scheduler its shard: no scheduler is skipped. */
  lemma OneShardEach(cfg: GlobalConfig, n: nat)
    requires n > 0
    ensures |Partition(cfg, n)| == n
  {
  }

  // ---------------------------------------------------------------- any number of rounds

  /** The two cool-off variables. */
  datatype Control = Control(inCoolOff: bool, start: int)

  /** Rounds run on their own goroutines, so any number of them can end between refreshes.  Here the
      guard of a refresh and the two writes of a failed round are one step each; CoolOffRaces says what
      happens when they are not. */
  datatype ControlEvent = Refreshed(now: int) | RoundFailed(now: int) | RoundReachedSome(now: int)

  predicate Passes(c: Control, now: int, coolOff: int) {
    !c.inCoolOff || now - c.start >= coolOff
  }

  function Next(c: Control, ev: ControlEvent, coolOff: int): Control {
    match ev
    case Refreshed(now) => if Passes(c, now, coolOff) then c.(inCoolOff := false) else c
    case RoundFailed(now) => Control(true, now)
    case RoundReachedSome(_) => c
  }

  function After(c: Control, evs: seq<ControlEvent>, coolOff: int): Control {
    if evs == [] then c else Next(After(c, evs[..|evs| - 1], coolOff), evs[|evs| - 1], coolOff)
  }

  ghost predicate Chronological(evs: seq<ControlEvent>) {
    forall i, j :: 0 <= i < j < |evs| ==> evs[i].now <= evs[j].now
  }

  /** No recorded total failure is less than the cool-off duration old at time `now`. */
  ghost predicate Calm(evs: seq<ControlEvent>, now: int, coolOff: int) {
    forall i :: 0 <= i < |evs| && evs[i].RoundFailed? ==> now - evs[i].now >= coolOff
  }

  function LastFailure(evs: seq<ControlEvent>): Option<int> {
    if evs == [] then None
    else if evs[|evs| - 1].RoundFailed? then Some(evs[|evs| - 1].now)
    else LastFailure(evs[..|evs| - 1])
  }

  lemma {:induction false} LastFailureMeaning(evs: seq<ControlEvent>, now: int, coolOff: int)
    requires Chronological(evs)
    ensures Calm(evs, now, coolOff) <==> LastFailure(evs) == None || now - LastFailure(evs).value >= coolOff
  {
    if evs != [] {
      var front, last := evs[..|evs| - 1], evs[|evs| - 1];
      LastFailureMeaning(front, now, coolOff);
      assert evs == front + [last];
    }
  }

  /** Either the latest failure is remembered, or it was old at the last event. */
  lemma {:induction false} CoolOffState(c: Control, evs: seq<ControlEvent>, coolOff: int)
    requires Chronological(evs) && !c.inCoolOff
    ensures var d, f := After(c, evs, coolOff), LastFailure(evs);
            if d.inCoolOff then f == Some(d.start)
            else f == None || evs[|evs| - 1].now - f.value >= coolOff
  {
    if evs != [] {
      var front := evs[..|evs| - 1];
      CoolOffState(c, front, coolOff);
      assert front != [] ==> front[|front| - 1].now <= evs[|evs| - 1].now;
    }
  }

  /** While these steps are not split, the guard is exact in every run with any number of rounds: a
      refresh passes if and only if no total failure was recorded less than the cool-off duration
      before it. */
  lemma GuardIsExact(c: Control, evs: seq<ControlEvent>, now: int, coolOff: int)
    requires !c.inCoolOff && Chronological(evs + [Refreshed(now)])
    ensures Passes(After(c, evs, coolOff), now, coolOff) <==> Calm(evs, now, coolOff)
  {
    var all := evs + [Refreshed(now)];
    assert forall i :: 0 <= i < |evs| ==> evs[i] == all[i] && evs[i].now <= all[|evs|].now;
    CoolOffState(c, evs, coolOff);
    LastFailureMeaning(evs, now, coolOff);
  }
}
