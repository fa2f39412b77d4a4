/** The worker pool is confluent: the order in which the ten workers get the mutex matters only
    between results of the same ID.

    The proof follows each entity on its own.  `Slice` is what a core says about one entity, and
    `SliceAll` runs the results of that entity alone; `Projection` shows that processing any mixture
    of results acts on every slice exactly like that. */
module Confluence {
  import opened Models
  import opened Seqs
  import opened SchedulerState

  function LineEntity(l: LogLine): Entity { l.entity }

  /** Host notifications are of kind UP or DOWN, service notifications of kind ALERT. */
  function NotifiedEntity(n: Notification): Entity {
    if n.kind == "ALERT" then ServiceEntity(n.entityId) else HostEntity(n.entityId)
  }

  function ResultTarget(r: CheckResult): Entity { Target(r.id) }

  function ResultId(r: CheckResult): string { r.id }

  /** The results of a sequence that are routed to `e`. */
  function ResultsFor(rs: seq<CheckResult>, e: Entity): seq<CheckResult> {
    Only(rs, ResultTarget, e)
  }

  function LinesOf(c: Core, e: Entity): seq<LogLine> {
    Only(c.history, LineEntity, e)
  }

  function AlertsOf(c: Core, e: Entity): seq<Notification> {
    Only(c.notified, NotifiedEntity, e)
  }

  // ---------------------------------------------------------------- one entity

  /** What a core says about one entity; `silenced` is about the host of a service. */
  datatype Slice = Slice(
    host: Option<Host>, service: Option<Service>, silenced: bool,
    lines: seq<LogLine>, alerts: seq<Notification>)

  function SliceOf(c: Core, e: Entity): Slice {
    match e
    case HostEntity(k) =>
      Slice(if k in c.hosts then Some(c.hosts[k]) else None, None, false, LinesOf(c, e), AlertsOf(c, e))
    case ServiceEntity(k) =>
      Slice(None, if k in c.services then Some(c.services[k]) else None,
            k in c.services && HostSilences(c, c.services[k].hostName), LinesOf(c, e), AlertsOf(c, e))
  }

  /** One result of the entity itself. */
  function SliceStep(opts: Options, e: Entity, v: Slice, r: CheckResult): Slice {
    if v.host.Some? then
      var h, up := v.host.value, r.status == 0;
      v.(host := Some(h.(isUp := up, status := r.status, output := r.output)),
         lines := if h.isUp != up && opts.historyLog
                  then v.lines + [LogLine(e, StateName(up), r.output)] else v.lines,
         alerts := if h.isUp != up && !h.inDowntime
                   then v.alerts + [Notification(e.id, StateName(up), r.status, r.output)] else v.alerts)
    else if v.service.Some? then
      var s := v.service.value;
      var changed := s.currentState != r.status;
      v.(service := Some(s.(currentState := r.status, output := r.output)),
         lines := if changed && opts.historyLog
                  then v.lines + [LogLine(e, "CHANGE", r.output)] else v.lines,
         alerts := if changed && !s.inDowntime && !v.silenced
                   then v.alerts + [Notification(e.id, "ALERT", r.status, r.output)] else v.alerts)
    else v
  }

  function SliceAll(opts: Options, e: Entity, v: Slice, rs: seq<CheckResult>): Slice
    decreases |rs|
  {
    if rs == [] then v else SliceAll(opts, e, SliceStep(opts, e, v, rs[0]), rs[1..])
  }

  lemma HandleKeepsShape(c: Core, r: CheckResult)
    requires WellKeyed(c)
    ensures WellKeyed(Handle(c, r))
    ensures Handle(c, r).opts == c.opts
    ensures Handle(c, r).hosts.Keys == c.hosts.Keys && Handle(c, r).services.Keys == c.services.Keys
  {
  }

  lemma {:induction false} HandleAllKeepsShape(c: Core, rs: seq<CheckResult>)
    requires WellKeyed(c)
    ensures WellKeyed(HandleAll(c, rs))
    ensures HandleAll(c, rs).opts == c.opts
    ensures HandleAll(c, rs).hosts.Keys == c.hosts.Keys && HandleAll(c, rs).services.Keys == c.services.Keys
    decreases |rs|
  {
    if rs != [] {
      HandleKeepsShape(c, rs[0]);
      HandleAllKeepsShape(Handle(c, rs[0]), rs[1..]);
    }
  }

  /** The history lines and the notifications that one result adds. */
  lemma StepLines(c: Core, r: CheckResult, e: Entity)
    requires WellKeyed(c)
    ensures LinesOf(Handle(c, r), e) ==
            if Target(r.id) == e then SliceStep(c.opts, e, SliceOf(c, e), r).lines else LinesOf(c, e)
  {
    var c' := Handle(c, r);
    if c'.history != c.history {
      var l := c'.history[|c'.history| - 1];
      assert c'.history == c.history + [l] && LineEntity(l) == Target(r.id);
      OnlySnoc(c.history, l, LineEntity, e);
    }
  }

  lemma StepAlerts(c: Core, r: CheckResult, e: Entity)
    requires WellKeyed(c)
    ensures AlertsOf(Handle(c, r), e) ==
            if Target(r.id) == e then SliceStep(c.opts, e, SliceOf(c, e), r).alerts else AlertsOf(c, e)
  {
    var c' := Handle(c, r);
    if c'.notified != c.notified {
      var n := c'.notified[|c'.notified| - 1];
      assert c'.notified == c.notified + [n] && NotifiedEntity(n) == Target(r.id);
      OnlySnoc(c.notified, n, NotifiedEntity, e);
    }
  }

  /** A result changes the slice of its own entity, and no other. */
  lemma StepSlice(c: Core, r: CheckResult, e: Entity)
    requires WellKeyed(c)
    ensures SliceOf(Handle(c, r), e) ==
            if Target(r.id) == e then SliceStep(c.opts, e, SliceOf(c, e), r) else SliceOf(c, e)
  {
    StepLines(c, r, e);
    StepAlerts(c, r, e);
  }

  /** Whatever else is processed in between, entity `e` sees exactly its own results, in order. */
  lemma {:induction false} Projection(c: Core, rs: seq<CheckResult>, e: Entity)
    requires WellKeyed(c)
    ensures SliceOf(HandleAll(c, rs), e) == SliceAll(c.opts, e, SliceOf(c, e), ResultsFor(rs, e))
    decreases |rs|
  {
    if rs != [] {
      StepSlice(c, rs[0], e);
      HandleKeepsShape(c, rs[0]);
      Projection(Handle(c, rs[0]), rs[1..], e);
      var own := ResultsFor(rs, e);
      if Target(rs[0].id) == e {
        assert own[1..] == ResultsFor(rs[1..], e);
      } else {
        assert own == ResultsFor(rs[1..], e);
      }
    }
  }

  // ---------------------------------------------------------------- what the log and the alerts record

  function UpLevel(up: bool): int { if up then 1 else 0 }

  /** The level that a result reports: whether a host is up, or the state of a service. */
  function Reported(e: Entity, r: CheckResult): int {
    if e.HostEntity? then UpLevel(r.status == 0) else r.status
  }

  /** The level that a core remembers of a configured entity. */
  function LevelOf(c: Core, e: Entity): int
    requires Configured(c, e)
  {
    match e
    case HostEntity(k) => UpLevel(c.hosts[k].isUp)
    case ServiceEntity(k) => c.services[k].currentState
  }

  function LevelAfter(e: Entity, level: int, rs: seq<CheckResult>): int {
    if rs == [] then level else Reported(e, rs[|rs| - 1])
  }

  /** The results that change the level. */
  function Flips(e: Entity, level: int, rs: seq<CheckResult>): seq<CheckResult>
    decreases |rs|
  {
    if rs == [] then []
    else (if Reported(e, rs[0]) != level then [rs[0]] else []) + Flips(e, Reported(e, rs[0]), rs[1..])
  }

  function LineFor(e: Entity, r: CheckResult): LogLine {
    LogLine(e, if e.HostEntity? then StateName(r.status == 0) else "CHANGE", r.output)
  }

  function AlertFor(e: Entity, r: CheckResult): Notification {
    Notification(e.id, if e.HostEntity? then StateName(r.status == 0) else "ALERT", r.status, r.output)
  }

  function LinesFor(e: Entity, rs: seq<CheckResult>): seq<LogLine> {
    seq(|rs|, i requires 0 <= i < |rs| => LineFor(e, rs[i]))
  }

  function AlertsFor(e: Entity, rs: seq<CheckResult>): seq<Notification> {
    seq(|rs|, i requires 0 <= i < |rs| => AlertFor(e, rs[i]))
  }

  /** Whether nothing is sent about the entity of a slice. */
  predicate Muted(v: Slice) {
    if v.host.Some? then v.host.value.inDowntime
    else v.service.Some? && (v.service.value.inDowntime || v.silenced)
  }

  function SliceLevel(v: Slice): int
    requires v.host.Some? || v.service.Some?
  {
    if v.host.Some? then UpLevel(v.host.value.isUp) else v.service.value.currentState
  }

  /** A slice of a configured entity. */
  predicate IsSlice(v: Slice, e: Entity) {
    if e.HostEntity? then v.host.Some? && v.service.None? else v.host.None? && v.service.Some?
  }

  /** From slice `v` to slice `w`, the results `flips` were logged and, unless muted, announced. */
  ghost predicate Recorded(opts: Options, e: Entity, v: Slice, w: Slice, flips: seq<CheckResult>) {
    && IsSlice(w, e) && Muted(w) == Muted(v)
    && w.lines == (if opts.historyLog then v.lines + LinesFor(e, flips) else v.lines)
    && w.alerts == (if Muted(v) then v.alerts else v.alerts + AlertsFor(e, flips))
  }

  lemma StepRecords(opts: Options, e: Entity, v: Slice, r: CheckResult)
    requires IsSlice(v, e)
    ensures var w := SliceStep(opts, e, v, r);
            Recorded(opts, e, v, w, Flips(e, SliceLevel(v), [r])) && SliceLevel(w) == Reported(e, r)
  {
    assert Flips(e, SliceLevel(v), [r]) == if Reported(e, r) != SliceLevel(v) then [r] else [];
    assert LinesFor(e, [r]) == [LineFor(e, r)] && AlertsFor(e, [r]) == [AlertFor(e, r)];
    assert LinesFor(e, []) == [] && AlertsFor(e, []) == [];
  }

  lemma ForBoth(e: Entity, a: seq<CheckResult>, b: seq<CheckResult>)
    ensures LinesFor(e, a + b) == LinesFor(e, a) + LinesFor(e, b)
    ensures AlertsFor(e, a + b) == AlertsFor(e, a) + AlertsFor(e, b)
  {
  }

  lemma RecordedBoth(opts: Options, e: Entity, v: Slice, u: Slice, w: Slice, a: seq<CheckResult>, b: seq<CheckResult>)
    requires Recorded(opts, e, v, u, a) && Recorded(opts, e, u, w, b)
    ensures Recorded(opts, e, v, w, a + b)
  {
    ForBoth(e, a, b);
    Associative(v.lines, LinesFor(e, a), LinesFor(e, b));
    Associative(v.alerts, AlertsFor(e, a), AlertsFor(e, b));
  }

  lemma NothingRecorded(opts: Options, e: Entity, v: Slice)
    requires IsSlice(v, e)
    ensures Recorded(opts, e, v, v, [])
  {
    assert v.lines + LinesFor(e, []) == v.lines && v.alerts + AlertsFor(e, []) == v.alerts;
  }

  lemma {:induction false} FlipsAppend(e: Entity, level: int, a: seq<CheckResult>, b: seq<CheckResult>)
    ensures Flips(e, level, a + b) == Flips(e, level, a) + Flips(e, LevelAfter(e, level, a), b)
    decreases |a|
  {
    if a == [] {
      assert a + b == b && Flips(e, level, a) == [];
    } else {
      var first := if Reported(e, a[0]) != level then [a[0]] else [];
      assert (a + b)[0] == a[0] && (a + b)[1..] == a[1..] + b;
      FlipsAppend(e, Reported(e, a[0]), a[1..], b);
      Associative(first, Flips(e, Reported(e, a[0]), a[1..]), Flips(e, LevelAfter(e, level, a), b));
    }
  }

  /** The results of a configured entity log and announce exactly the changes of its level. */
  lemma {:induction false} AllRecord(opts: Options, e: Entity, v: Slice, rs: seq<CheckResult>)
    requires IsSlice(v, e)
    ensures Recorded(opts, e, v, SliceAll(opts, e, v, rs), Flips(e, SliceLevel(v), rs))
    decreases |rs|
  {
    if rs == [] {
      NothingRecorded(opts, e, v);
    } else {
      var u, rest := SliceStep(opts, e, v, rs[0]), rs[1..];
      StepRecords(opts, e, v, rs[0]);
      AllRecord(opts, e, u, rest);
      RecordedBoth(opts, e, v, u, SliceAll(opts, e, u, rest),
                   Flips(e, SliceLevel(v), [rs[0]]), Flips(e, SliceLevel(u), rest));
      assert rs == [rs[0]] + rest;
      FlipsAppend(e, SliceLevel(v), [rs[0]], rest);
    }
  }

  // ---------------------------------------------------------------- the theorem

  /** The two processing orders agree on the order of the results of every single ID. */
  ghost predicate SameOrderPerId(a: seq<CheckResult>, b: seq<CheckResult>) {
    forall id: string :: Only(a, ResultId, id) == Only(b, ResultId, id)
  }

  /** What two processing orders are required to agree on. */
  ghost predicate SameOutcome(a: Core, b: Core) {
    && a.hosts == b.hosts
    && a.services == b.services
    && (forall e: Entity :: LinesOf(a, e) == LinesOf(b, e))
    && (forall e: Entity :: AlertsOf(a, e) == AlertsOf(b, e))
    && multiset(a.forwarded) == multiset(b.forwarded)
  }

  /** Routing loses nothing: the results of an entity are those of one ID, or there are none. */
  lemma {:induction false} RoutedById(rs: seq<CheckResult>, e: Entity)
    ensures ResultsFor(rs, e) == if Target(TaskId(e)) == e then Only(rs, ResultId, TaskId(e)) else []
  {
    if rs != [] {
      RoutedById(rs[1..], e);
      if Target(rs[0].id) == e {
        assert e.HostEntity? ==> rs[0].id == "HOST:" + rs[0].id[5..];
        assert rs[0].id == TaskId(e);
      } else {
        assert Target(TaskId(e)) == e ==> rs[0].id != TaskId(e);
      }
    }
  }

  /** What is sent on to the broker: the results of configured entities. */
  predicate Known(c: Core, r: CheckResult) {
    Configured(c, Target(r.id))
  }

  lemma StepForwards(c: Core, r: CheckResult)
    ensures Handle(c, r).forwarded == if c.opts.broker && Known(c, r) then c.forwarded + [r] else c.forwarded
  {
  }

  lemma KnownStays(c: Core, r: CheckResult, t: CheckResult)
    requires WellKeyed(c)
    ensures Known(Handle(c, r), t) <==> Known(c, t)
  {
    HandleKeepsShape(c, r);
  }

  lemma {:induction false} Forwarding(c: Core, rs: seq<CheckResult>, key: CheckResult -> bool)
    requires WellKeyed(c)
    requires forall r: CheckResult :: key(r) <==> Known(c, r)
    ensures HandleAll(c, rs).forwarded == if c.opts.broker then c.forwarded + Only(rs, key, true) else c.forwarded
    decreases |rs|
  {
    if rs == [] {
      assert c.forwarded + [] == c.forwarded;
    } else {
      var c', rest := Handle(c, rs[0]), rs[1..];
      forall t: CheckResult ensures key(t) <==> Known(c', t) {
        KnownStays(c, rs[0], t);
      }
      HandleKeepsShape(c, rs[0]);
      StepForwards(c, rs[0]);
      Forwarding(c', rest, key);
      assert rs == [rs[0]] + rest;
      SentInTurn(c.forwarded, rs[0], rest, key);
    }
  }

  lemma SentInTurn(sent: seq<CheckResult>, r: CheckResult, rest: seq<CheckResult>, key: CheckResult -> bool)
    ensures sent + Only([r] + rest, key, true) == (if key(r) then sent + [r] else sent) + Only(rest, key, true)
  {
    assert ([r] + rest)[1..] == rest;
  }

  lemma SameOrderSameMultiset(a: seq<CheckResult>, b: seq<CheckResult>)
    requires SameOrderPerId(a, b)
    ensures multiset(a) == multiset(b)
  {
    forall r: CheckResult ensures multiset(a)[r] == multiset(b)[r] {
      OnlyCounts(a, ResultId, r.id, r);
      OnlyCounts(b, ResultId, r.id, r);
      assert Only(a, ResultId, r.id) == Only(b, ResultId, r.id);
    }
  }

  lemma OnlyOfEqualMultisets<K>(a: seq<CheckResult>, b: seq<CheckResult>, key: CheckResult -> K, k: K)
    requires multiset(a) == multiset(b)
    ensures multiset(Only(a, key, k)) == multiset(Only(b, key, k))
  {
    forall x: CheckResult ensures multiset(Only(a, key, k))[x] == multiset(Only(b, key, k))[x] {
      OnlyCounts(a, key, k, x);
      OnlyCounts(b, key, k, x);
    }
  }

  /** What the maps say about `e`. */
  function Entry(c: Core, e: Entity): (Option<Host>, Option<Service>) {
    (SliceOf(c, e).host, SliceOf(c, e).service)
  }

  /** What two cores say about one entity agrees. */
  ghost predicate SameOf(a: Core, b: Core, e: Entity) {
    Entry(a, e) == Entry(b, e) && LinesOf(a, e) == LinesOf(b, e) && AlertsOf(a, e) == AlertsOf(b, e)
  }

  lemma HostsByEntry(x: Core, y: Core)
    requires forall k :: Entry(x, HostEntity(k)) == Entry(y, HostEntity(k))
    ensures x.hosts == y.hosts
  {
    forall k ensures k in x.hosts <==> k in y.hosts
             ensures k in x.hosts && k in y.hosts ==> x.hosts[k] == y.hosts[k]
    {
      assert Entry(x, HostEntity(k)) == Entry(y, HostEntity(k));
    }
  }

  lemma ServicesByEntry(x: Core, y: Core)
    requires forall k :: Entry(x, ServiceEntity(k)) == Entry(y, ServiceEntity(k))
    ensures x.services == y.services
  {
    forall k ensures k in x.services <==> k in y.services
             ensures k in x.services && k in y.services ==> x.services[k] == y.services[k]
    {
      assert Entry(x, ServiceEntity(k)) == Entry(y, ServiceEntity(k));
    }
  }

  /** The maps agree if and only if they do for every entity. */
  lemma MapsByEntry(x: Core, y: Core)
    ensures x.hosts == y.hosts && x.services == y.services <==> forall e: Entity :: Entry(x, e) == Entry(y, e)
  {
    if forall e: Entity :: Entry(x, e) == Entry(y, e) {
      HostsByEntry(x, y);
      ServicesByEntry(x, y);
    }
  }

  /** Maps, log and notifications agree if and only if they do for every entity. */
  lemma SameOfAll(x: Core, y: Core)
    ensures (forall e: Entity :: SameOf(x, y, e)) <==>
            && x.hosts == y.hosts && x.services == y.services
            && (forall e: Entity :: LinesOf(x, e) == LinesOf(y, e))
            && (forall e: Entity :: AlertsOf(x, e) == AlertsOf(y, e))
  {
    MapsByEntry(x, y);
    if forall e: Entity :: SameOf(x, y, e) {
      forall e: Entity
        ensures Entry(x, e) == Entry(y, e) && LinesOf(x, e) == LinesOf(y, e) && AlertsOf(x, e) == AlertsOf(y, e)
      {
        assert SameOf(x, y, e);
      }
    }
  }

  lemma SameOrderSameOf(c: Core, a: seq<CheckResult>, b: seq<CheckResult>, e: Entity)
    requires WellKeyed(c) && SameOrderPerId(a, b)
    ensures SameOf(HandleAll(c, a), HandleAll(c, b), e)
  {
    RoutedById(a, e);
    RoutedById(b, e);
    Projection(c, a, e);
    Projection(c, b, e);
    SliceIsAll(HandleAll(c, a), HandleAll(c, b), e);
  }

  lemma SliceIsAll(x: Core, y: Core, e: Entity)
    requires SliceOf(x, e) == SliceOf(y, e)
    ensures SameOf(x, y, e)
  {
  }

  /** The same results, in whatever order, are sent on to the broker. */
  lemma SameForwarded(c: Core, a: seq<CheckResult>, b: seq<CheckResult>)
    requires WellKeyed(c) && multiset(a) == multiset(b)
    ensures multiset(HandleAll(c, a).forwarded) == multiset(HandleAll(c, b).forwarded)
  {
    var key := (r: CheckResult) => Known(c, r);
    Forwarding(c, a, key);
    Forwarding(c, b, key);
    OnlyOfEqualMultisets(a, b, key, true);
  }

  /** Any two processing orders that keep the order per result ID end in the same maps, give every
      entity the same history and the same notifications, and forward the same results. */
  lemma OrdersAgree(c: Core, a: seq<CheckResult>, b: seq<CheckResult>)
    requires WellKeyed(c) && SameOrderPerId(a, b)
    ensures SameOutcome(HandleAll(c, a), HandleAll(c, b))
  {
    var x, y := HandleAll(c, a), HandleAll(c, b);
    forall e: Entity ensures SameOf(x, y, e) {
      SameOrderSameOf(c, a, b, e);
    }
    SameOfAll(x, y);
    SameOrderSameMultiset(a, b);
    SameForwarded(c, a, b);
  }

  // ---------------------------------------------------------------- where the order does matter

  /** The maps remember only the last result of an entity. */
  lemma {:induction false} LastResultWins(opts: Options, e: Entity, v: Slice, rs: seq<CheckResult>)
    requires rs != []
    ensures var w, last := SliceAll(opts, e, v, rs), rs[|rs| - 1];
            && w.host == (if v.host.None? then None
                          else Some(v.host.value.(isUp := last.status == 0, status := last.status, output := last.output)))
            && w.service == (if v.host.Some? || v.service.None? then v.service
                             else Some(v.service.value.(currentState := last.status, output := last.output)))
    decreases |rs|
  {
    if |rs| > 1 {
      LastResultWins(opts, e, SliceStep(opts, e, v, rs[0]), rs[1..]);
    } else {
      assert SliceAll(opts, e, v, rs) == SliceStep(opts, e, v, rs[0]);
    }
  }

  /** The last of the results of `e`, if there is one. */
  function LastFor(rs: seq<CheckResult>, e: Entity): Option<CheckResult> {
    var own := ResultsFor(rs, e);
    if own == [] then None else Some(own[|own| - 1])
  }

  lemma {:induction false} NothingToSay(opts: Options, e: Entity, v: Slice, rs: seq<CheckResult>)
    requires v.host.None? && v.service.None?
    ensures SliceAll(opts, e, v, rs) == v
    decreases |rs|
  {
    if rs != [] {
      NothingToSay(opts, e, v, rs[1..]);
    }
  }

  lemma EntryIff(c: Core, a: seq<CheckResult>, b: seq<CheckResult>, e: Entity)
    requires WellKeyed(c) && multiset(a) == multiset(b)
    ensures Entry(HandleAll(c, a), e) == Entry(HandleAll(c, b), e)
            <==> (Configured(c, e) ==> LastFor(a, e) == LastFor(b, e))
  {
    if !Configured(c, e) {
      Projection(c, a, e);
      Projection(c, b, e);
      NothingToSay(c.opts, e, SliceOf(c, e), ResultsFor(a, e));
      NothingToSay(c.opts, e, SliceOf(c, e), ResultsFor(b, e));
    } else {
      ConfiguredEntryIff(c, a, b, e);
    }
  }

  lemma ConfiguredEntryIff(c: Core, a: seq<CheckResult>, b: seq<CheckResult>, e: Entity)
    requires WellKeyed(c) && multiset(a) == multiset(b) && Configured(c, e)
    ensures Entry(HandleAll(c, a), e) == Entry(HandleAll(c, b), e) <==> LastFor(a, e) == LastFor(b, e)
  {
    Projection(c, a, e);
    Projection(c, b, e);
    OnlyOfEqualMultisets(a, b, ResultTarget, e);
    var x, y := ResultsFor(a, e), ResultsFor(b, e);
    assert |x| == |multiset(x)| == |multiset(y)| == |y|;
    if x != [] {
      OnlyKeys(a, ResultTarget, e);
      OnlyKeys(b, ResultTarget, e);
      SameTargetSameId(x[|x| - 1].id, y[|y| - 1].id);
      LastShows(c.opts, e, SliceOf(c, e), x, y);
    }
  }

  lemma LastShows(opts: Options, e: Entity, v: Slice, x: seq<CheckResult>, y: seq<CheckResult>)
    requires x != [] && y != [] && x[|x| - 1].id == y[|y| - 1].id
    requires v.host.Some? || v.service.Some?
    ensures var u, w := SliceAll(opts, e, v, x), SliceAll(opts, e, v, y);
            (u.host == w.host && u.service == w.service) <==> x[|x| - 1] == y[|y| - 1]
  {
    LastResultWins(opts, e, v, x);
    LastResultWins(opts, e, v, y);
  }

  lemma SameTargetSameId(a: string, b: string)
    requires Target(a) == Target(b)
    ensures a == b
  {
    if "HOST:" <= a {
      assert a == "HOST:" + a[5..] && b == "HOST:" + b[5..];
    }
  }

  /** Two orders of the same results leave the same maps exactly when every configured entity gets
      the same result last. */
  lemma MapsAgreeIff(c: Core, a: seq<CheckResult>, b: seq<CheckResult>)
    requires WellKeyed(c) && multiset(a) == multiset(b)
    ensures HandleAll(c, a).hosts == HandleAll(c, b).hosts && HandleAll(c, a).services == HandleAll(c, b).services
            <==> forall e :: Configured(c, e) ==> LastFor(a, e) == LastFor(b, e)
  {
    var x, y := HandleAll(c, a), HandleAll(c, b);
    forall e: Entity ensures Entry(x, e) == Entry(y, e) <==> (Configured(c, e) ==> LastFor(a, e) == LastFor(b, e)) {
      EntryIff(c, a, b, e);
    }
    MapsByEntry(x, y);
  }

  lemma PairFor(r: CheckResult, t: CheckResult, e: Entity)
    ensures LastFor([r, t], e) ==
            if Target(t.id) == e then Some(t) else if Target(r.id) == e then Some(r) else None
  {
    var none: seq<CheckResult> := [];
    assert Only(none, ResultTarget, e) == [];
    OnlySnoc(none, r, ResultTarget, e);
    OnlySnoc([r], t, ResultTarget, e);
    assert none + [r] == [r] && [r] + [t] == [r, t];
  }

  lemma PairPerId(r: CheckResult, t: CheckResult)
    requires r.id != t.id
    ensures SameOrderPerId([r, t], [t, r])
  {
    forall id: string ensures Only([r, t], ResultId, id) == Only([t, r], ResultId, id) {
      var none: seq<CheckResult> := [];
      assert none + [r] == [r] && none + [t] == [t] && [r] + [t] == [r, t] && [t] + [r] == [t, r];
      OnlySnoc(none, r, ResultId, id);
      OnlySnoc(none, t, ResultId, id);
      OnlySnoc([r], t, ResultId, id);
      OnlySnoc([t], r, ResultId, id);
    }
  }

  /** The queue is first in, first out, but two results held by two workers can still overtake each
      other.  Which of them gets the mutex first is visible exactly when they are different results of
      one configured entity, and then the maps already show it. */
  lemma OvertakingIff(c: Core, r: CheckResult, t: CheckResult)
    requires WellKeyed(c)
    ensures var x, y, unseen := HandleAll(c, [r, t]), HandleAll(c, [t, r]), r.id != t.id || !Known(c, r) || r == t;
            && (x.hosts == y.hosts && x.services == y.services <==> unseen)
            && (SameOutcome(x, y) <==> unseen)
  {
    var a, b := [r, t], [t, r];
    assert multiset(a) == multiset{r, t} == multiset(b);
    MapsAgreeIff(c, a, b);
    forall e: Entity
      ensures LastFor(a, e) == LastFor(b, e) <==> (Target(r.id) == Target(t.id) == e ==> r == t)
    {
      PairFor(r, t, e);
      PairFor(t, r, e);
    }
    if Target(r.id) == Target(t.id) {
      SameTargetSameId(r.id, t.id);
    }
    if r.id != t.id {
      PairPerId(r, t);
      OrdersAgree(c, a, b);
    } else if !Known(c, r) {
      assert Handle(c, r) == c && Handle(c, t) == c;
      assert HandleAll(c, a) == HandleAll(c, [t]) && HandleAll(c, b) == HandleAll(c, [r]);
    }
  }

  // ---------------------------------------------------------------- when any two orders agree

  /** The two orders show the same of entity `e`: the same last result, the same changes in the log
      and, unless it is muted, the same changes in the notifications. */
  ghost predicate SameShown(c: Core, e: Entity, a: seq<CheckResult>, b: seq<CheckResult>)
    requires Configured(c, e)
  {
    var x, y := Flips(e, LevelOf(c, e), ResultsFor(a, e)), Flips(e, LevelOf(c, e), ResultsFor(b, e));
    && LastFor(a, e) == LastFor(b, e)
    && (c.opts.historyLog ==> LinesFor(e, x) == LinesFor(e, y))
    && (!Muted(SliceOf(c, e)) ==> AlertsFor(e, x) == AlertsFor(e, y))
  }

  lemma SameOfIff(c: Core, a: seq<CheckResult>, b: seq<CheckResult>, e: Entity)
    requires WellKeyed(c) && multiset(a) == multiset(b)
    ensures SameOf(HandleAll(c, a), HandleAll(c, b), e) <==> (Configured(c, e) ==> SameShown(c, e, a, b))
  {
    var v := SliceOf(c, e);
    Projection(c, a, e);
    Projection(c, b, e);
    if Configured(c, e) {
      EntryIff(c, a, b, e);
      AllRecord(c.opts, e, v, ResultsFor(a, e));
      AllRecord(c.opts, e, v, ResultsFor(b, e));
      assert SliceLevel(v) == LevelOf(c, e);
      var x, y := Flips(e, LevelOf(c, e), ResultsFor(a, e)), Flips(e, LevelOf(c, e), ResultsFor(b, e));
      SameTail(v.lines, LinesFor(e, x), LinesFor(e, y));
      SameTail(v.alerts, AlertsFor(e, x), AlertsFor(e, y));
    } else {
      NothingToSay(c.opts, e, v, ResultsFor(a, e));
      NothingToSay(c.opts, e, v, ResultsFor(b, e));
    }
  }

  lemma SameTail<T>(front: seq<T>, x: seq<T>, y: seq<T>)
    ensures front + x == front + y <==> x == y
  {
    assert (front + x)[|front|..] == x && (front + y)[|front|..] == y;
  }

  /** Exactly when any two processing orders of the same results end the same: every configured entity
      gets the same result last, and the results that change its level read the same in the log and,
      unless it is muted, in the notifications. */
  lemma OutcomeIff(c: Core, a: seq<CheckResult>, b: seq<CheckResult>)
    requires WellKeyed(c) && multiset(a) == multiset(b)
    ensures SameOutcome(HandleAll(c, a), HandleAll(c, b)) <==> forall e :: Configured(c, e) ==> SameShown(c, e, a, b)
  {
    var x, y := HandleAll(c, a), HandleAll(c, b);
    forall e: Entity ensures SameOf(x, y, e) <==> (Configured(c, e) ==> SameShown(c, e, a, b)) {
      SameOfIff(c, a, b, e);
    }
    SameOfAll(x, y);
    SameForwarded(c, a, b);
  }
}
