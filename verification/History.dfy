/** What the history log and the notification stream record over whole runs, syncs included. */
module History {
  import opened Models
  import opened Seqs
  import opened SchedulerState
  import opened Confluence

  // ---------------------------------------------------------------- compression

  /** The values of a trace that differ from the value before them. */
  function Changes<T(==)>(trace: seq<T>): seq<T> {
    if |trace| < 2 then []
    else (if trace[1] != trace[0] then [trace[1]] else []) + Changes(trace[1..])
  }

  /** `c` has the values of the trace and its first and last one, and never repeats a value. */
  ghost predicate Compresses<T>(c: seq<T>, trace: seq<T>) {
    && 0 < |c| <= |trace|
    && c[0] == trace[0] && c[|c| - 1] == trace[|trace| - 1]
    && (forall i :: 0 < i < |c| ==> c[i] != c[i - 1])
    && (forall x :: x in c ==> x in trace) && (forall x :: x in trace ==> x in c)
  }

  lemma CompressSame<T>(x: T, c: seq<T>, rest: seq<T>)
    requires Compresses(c, rest) && x == rest[0]
    ensures Compresses(c, [x] + rest)
  {
  }

  lemma CompressChange<T>(x: T, c: seq<T>, rest: seq<T>)
    requires Compresses(c, rest) && x != rest[0]
    ensures Compresses([x] + c, [x] + rest)
  {
    assert forall i :: 0 < i < |[x] + c| ==> ([x] + c)[i] == c[i - 1];
  }

  /** Compression: a trace is reduced to its first value and its changes, which never repeat a value
      and end where the trace ends. */
  lemma {:induction false} ChangesCompress<T>(trace: seq<T>)
    requires trace != []
    ensures Compresses([trace[0]] + Changes(trace), trace)
  {
    if |trace| >= 2 {
      var x, rest := trace[0], trace[1..];
      var d := [rest[0]] + Changes(rest);
      ChangesCompress(rest);
      assert trace == [x] + rest;
      if x == rest[0] {
        CompressSame(x, d, rest);
        assert Changes(trace) == Changes(rest);
      } else {
        CompressChange(x, d, rest);
        assert Changes(trace) == d;
      }
    } else {
      assert trace == [trace[0]];
    }
  }

  /** The levels that results report. */
  function Levels(e: Entity, rs: seq<CheckResult>): seq<int> {
    seq(|rs|, i requires 0 <= i < |rs| => Reported(e, rs[i]))
  }

  /** The results that are recorded spell out the changes of the level. */
  lemma {:induction false} FlipsSpellChanges(e: Entity, level: int, rs: seq<CheckResult>)
    ensures Levels(e, Flips(e, level, rs)) == Changes([level] + Levels(e, rs))
    decreases |rs|
  {
    if rs != [] {
      var now := Reported(e, rs[0]);
      FlipsSpellChanges(e, now, rs[1..]);
      assert ([level] + Levels(e, rs))[1..] == [now] + Levels(e, rs[1..]);
    }
  }

  // ---------------------------------------------------------------- the history of an entity

  /** From `c` to `c'`, entity `e` stayed configured and went through its results `rs`. */
  ghost predicate WentThrough(c: Core, c': Core, e: Entity, rs: seq<CheckResult>) {
    && Configured(c, e) && Configured(c', e)
    && c'.opts == c.opts
    && LevelOf(c', e) == LevelAfter(e, LevelOf(c, e), rs)
    && LinesOf(c', e) == LinesOf(c, e) + LinesFor(e, Flips(e, LevelOf(c, e), rs))
  }

  lemma WentThroughNothing(c: Core, c': Core, e: Entity)
    requires Configured(c, e) && Configured(c', e) && c'.opts == c.opts
    requires LevelOf(c', e) == LevelOf(c, e) && LinesOf(c', e) == LinesOf(c, e)
    ensures WentThrough(c, c', e, [])
  {
    assert LinesOf(c, e) + LinesFor(e, []) == LinesOf(c, e);
  }

  lemma WentThroughBoth(c: Core, c': Core, c'': Core, e: Entity, a: seq<CheckResult>, b: seq<CheckResult>)
    requires WentThrough(c, c', e, a) && WentThrough(c', c'', e, b)
    ensures WentThrough(c, c'', e, a + b)
  {
    var x, y := Flips(e, LevelOf(c, e), a), Flips(e, LevelOf(c', e), b);
    FlipsAppend(e, LevelOf(c, e), a, b);
    ForBoth(e, x, y);
    Associative(LinesOf(c, e), LinesFor(e, x), LinesFor(e, y));
  }

  /** The results of entity `e` that one event processes, and those of a run. */
  ghost function OwnResults(s: State, ev: Event, e: Entity): seq<CheckResult>
    requires Enabled(s, ev)
  {
    if ev.Process? && Target(s.workers[ev.worker].value.id) == e then [s.workers[ev.worker].value] else []
  }

  ghost function ProcessedFor(s: State, evs: seq<Event>, e: Entity): seq<CheckResult>
    requires ValidRun(s, evs)
  {
    ResultsFor(Processed(s, evs), e)
  }

  lemma ProcessedForStep(s: State, evs: seq<Event>, e: Entity)
    requires ValidRun(s, evs) && evs != []
    ensures ProcessedFor(s, evs, e) == OwnResults(s, evs[0], e) + ProcessedFor(Apply(s, evs[0]), evs[1..], e)
  {
    var now := if evs[0].Process? then [s.workers[evs[0].worker].value] else [];
    OnlyAppend(now, Processed(Apply(s, evs[0]), evs[1..]), ResultTarget, e);
    assert Only(now, ResultTarget, e) == OwnResults(s, evs[0], e);
  }

  /** A sync writes no line and keeps the level of an entity that stays configured. */
  lemma SyncWentThrough(s: State, ev: Event, e: Entity)
    requires WellFormed(s) && Enabled(s, ev) && ev.Sync? && Configured(s.core, e) && Mentions(ev, e)
    ensures WentThrough(s.core, Apply(s, ev).core, e, [])
  {
    SyncedHostsKeys(s.core.hosts, ev.hosts, ev.now);
    SyncedServicesKeys(s.core.services, ev.services, ev.now);
    WentThroughNothing(s.core, Apply(s, ev).core, e);
  }

  lemma ResultWentThrough(c: Core, r: CheckResult, e: Entity)
    requires WellKeyed(c) && Configured(c, e) && c.opts.historyLog
    ensures WentThrough(c, Handle(c, r), e, if Target(r.id) == e then [r] else [])
  {
    var v, w := SliceOf(c, e), SliceOf(Handle(c, r), e);
    HandleKeepsShape(c, r);
    StepSlice(c, r, e);
    assert SliceLevel(v) == LevelOf(c, e) && SliceLevel(w) == LevelOf(Handle(c, r), e);
    if Target(r.id) == e {
      StepRecords(c.opts, e, v, r);
    } else {
      WentThroughNothing(c, Handle(c, r), e);
    }
  }

  lemma StepWentThrough(s: State, ev: Event, e: Entity)
    requires WellFormed(s) && Enabled(s, ev) && Configured(s.core, e) && Mentions(ev, e)
    requires s.core.opts.historyLog
    ensures WentThrough(s.core, Apply(s, ev).core, e, OwnResults(s, ev, e))
  {
    match ev
    case Sync(_, _, _) =>
      SyncWentThrough(s, ev, e);
    case Process(w) =>
      ResultWentThrough(s.core, s.workers[w].value, e);
    case _ =>
      WentThroughNothing(s.core, Apply(s, ev).core, e);
  }

  /** Over any interleaving of syncs, pops, pushes and workers in which an entity stays configured, its
      new history lines are those of the processed results that change its level, and its level is that
      of the last one. */
  lemma {:induction false} EntityHistory(s: State, evs: seq<Event>, e: Entity)
    requires WellFormed(s) && ValidRun(s, evs) && Configured(s.core, e) && Keeps(evs, e)
    requires s.core.opts.historyLog
    ensures WentThrough(s.core, Run(s, evs).core, e, ProcessedFor(s, evs, e))
    decreases |evs|
  {
    if evs == [] {
      WentThroughNothing(s.core, s.core, e);
    } else {
      var s' := Apply(s, evs[0]);
      StepWentThrough(s, evs[0], e);
      StepKeepsWellFormed(s, evs[0]);
      EntityHistory(s', evs[1..], e);
      ProcessedForStep(s, evs, e);
      WentThroughBoth(s.core, s'.core, Run(s, evs).core, e, OwnResults(s, evs[0], e), ProcessedFor(s', evs[1..], e));
    }
  }

  /** The lines that were added to the log about `e` from `c` to `c'`. */
  function NewLines(c: Core, c': Core, e: Entity): seq<LogLine> {
    if LinesOf(c, e) <= LinesOf(c', e) then LinesOf(c', e)[|LinesOf(c, e)|..] else []
  }

  lemma NewLinesAre(c: Core, c': Core, e: Entity, rs: seq<CheckResult>)
    requires WentThrough(c, c', e, rs)
    ensures LinesOf(c, e) <= LinesOf(c', e)
    ensures NewLines(c, c', e) == LinesFor(e, Flips(e, LevelOf(c, e), rs))
    ensures |NewLines(c, c', e)| == |Changes([LevelOf(c, e)] + Levels(e, rs))|
  {
    FlipsSpellChanges(e, LevelOf(c, e), rs);
  }

  // ---------------------------------------------------------------- hosts and services

  /** The results are down and up in turn, the first contradicting `up`. */
  ghost predicate InTurn(rs: seq<CheckResult>, up: bool) {
    forall i :: 0 <= i < |rs| ==> (rs[i].status == 0) == (if i % 2 == 0 then !up else up)
  }

  lemma InTurnCons(r: CheckResult, rest: seq<CheckResult>, up: bool)
    requires (r.status == 0) == !up && InTurn(rest, !up)
    ensures InTurn([r] + rest, up)
  {
    assert forall i :: 0 < i < |[r] + rest| ==> ([r] + rest)[i] == rest[i - 1];
  }

  /** The results that flip a host are down and up in turn. */
  lemma {:induction false} FlipsAlternate(e: Entity, up: bool, rs: seq<CheckResult>)
    requires e.HostEntity?
    ensures InTurn(Flips(e, UpLevel(up), rs), up)
    ensures LevelAfter(e, UpLevel(up), rs) == UpLevel(if |Flips(e, UpLevel(up), rs)| % 2 == 0 then up else !up)
    decreases |rs|
  {
    if rs != [] {
      var now := rs[0].status == 0;
      FlipsAlternate(e, now, rs[1..]);
      assert LevelAfter(e, UpLevel(up), rs) == LevelAfter(e, UpLevel(now), rs[1..]);
      if now != up {
        InTurnCons(rs[0], Flips(e, UpLevel(now), rs[1..]), up);
      }
    }
  }

  /** The history log is the compressed trace of the host: its new lines strictly alternate, the first
      contradicts the initial flag, the last (or the initial flag) is the current one, and there are as
      many as the flag changed. */
  lemma HistoryAlternates(s: State, evs: seq<Event>, k: string)
    requires WellFormed(s) && ValidRun(s, evs) && k in s.core.hosts && Keeps(evs, HostEntity(k))
    requires s.core.opts.historyLog
    ensures var c, c', e := s.core, Run(s, evs).core, HostEntity(k);
            var up, lines := c.hosts[k].isUp, NewLines(c, c', e);
            && k in c'.hosts
            && LinesOf(c', e) == LinesOf(c, e) + lines
            && (forall i :: 0 <= i < |lines| ==> lines[i].state == StateName(if i % 2 == 0 then !up else up))
            && c'.hosts[k].isUp == (if |lines| % 2 == 0 then up else !up)
            && |lines| == |Changes([UpLevel(up)] + Levels(e, ProcessedFor(s, evs, e)))|
  {
    var e := HostEntity(k);
    EntityHistory(s, evs, e);
    NewLinesAre(s.core, Run(s, evs).core, e, ProcessedFor(s, evs, e));
    FlipsAlternate(e, s.core.hosts[k].isUp, ProcessedFor(s, evs, e));
  }

  /** A service's new lines are one CHANGE for each change in its current state followed by the statuses
      of its processed results, and its state is that of the last result. */
  lemma ServiceHistory(s: State, evs: seq<Event>, k: string)
    requires WellFormed(s) && ValidRun(s, evs) && k in s.core.services && Keeps(evs, ServiceEntity(k))
    requires s.core.opts.historyLog
    ensures var c, c', e := s.core, Run(s, evs).core, ServiceEntity(k);
            var state, rs, lines := c.services[k].currentState, ProcessedFor(s, evs, e), NewLines(c, c', e);
            && k in c'.services
            && LinesOf(c', e) == LinesOf(c, e) + lines
            && (forall i :: 0 <= i < |lines| ==> lines[i].entity == e && lines[i].state == "CHANGE")
            && |lines| == |Changes([state] + Levels(e, rs))|
            && c'.services[k].currentState == (if rs == [] then state else rs[|rs| - 1].status)
  {
    var e := ServiceEntity(k);
    EntityHistory(s, evs, e);
    NewLinesAre(s.core, Run(s, evs).core, e, ProcessedFor(s, evs, e));
  }

  /** A host that a sync introduces, or brings back after an earlier sync dropped it, starts up: from
      then on its lines in the log read DOWN, UP, DOWN, ..., whatever the log said about it before. */
  lemma NewHostHistory(s: State, sync: Event, evs: seq<Event>, k: string)
    requires WellFormed(s) && sync.Sync? && ValidRun(s, [sync] + evs) && s.core.opts.historyLog
    requires k !in s.core.hosts
    requires Mentions(sync, HostEntity(k)) && Keeps(evs, HostEntity(k))
    ensures var c, c', e := s.core, Run(s, [sync] + evs).core, HostEntity(k);
            var lines := NewLines(c, c', e);
            && LinesOf(c', e) == LinesOf(c, e) + lines
            && forall i :: 0 <= i < |lines| ==> lines[i].state == if i % 2 == 0 then "DOWN" else "UP"
  {
    assert ([sync] + evs)[1..] == evs;
    var s' := Apply(s, sync);
    StepKeepsWellFormed(s, sync);
    SyncedHostsKeys(s.core.hosts, sync.hosts, sync.now);
    assert s'.core.hosts[k].isUp;
    HistoryAlternates(s', evs, k);
  }

  // ---------------------------------------------------------------- notifications

  /** `sent` announces `lines` one by one. */
  ghost predicate Announces(sent: seq<Notification>, lines: seq<LogLine>, e: Entity) {
    && |sent| == |lines|
    && forall i :: 0 <= i < |sent| ==>
         && sent[i].entityId == e.id
         && sent[i].output == lines[i].output
         && sent[i].kind == (if e.HostEntity? then lines[i].state else "ALERT")
         && (e.HostEntity? ==> lines[i].state == StateName(sent[i].state == 0))
  }

  /** `e` is in downtime, or it is a service whose host is known and in downtime. */
  predicate Silent(c: Core, e: Entity) {
    match e
    case HostEntity(k) => k in c.hosts && c.hosts[k].inDowntime
    case ServiceEntity(k) =>
      k in c.services &&
      (c.services[k].inDowntime
       || (c.services[k].hostName in c.hosts && c.hosts[c.services[k].hostName].inDowntime))
  }

  lemma SilentIsMuted(c: Core, e: Entity)
    ensures Silent(c, e) <==> Muted(SliceOf(c, e))
  {
  }

  /** The new lines about `e` from `c` to `c'`, unless `e` is silent in `c`. */
  function Loud(c: Core, c': Core, e: Entity): seq<LogLine> {
    if Silent(c, e) then [] else NewLines(c, c', e)
  }

  /** The lines that a run writes about `e` while `e` is not silent. */
  ghost function LoudLines(s: State, evs: seq<Event>, e: Entity): seq<LogLine>
    requires ValidRun(s, evs)
    decreases |evs|
  {
    if evs == [] then []
    else Loud(s.core, Apply(s, evs[0]).core, e) + LoudLines(Apply(s, evs[0]), evs[1..], e)
  }

  /** From `c` to `c'` the new notifications about `e` announce `lines`. */
  ghost predicate Announced(c: Core, c': Core, e: Entity, lines: seq<LogLine>) {
    AlertsOf(c, e) <= AlertsOf(c', e) && Announces(AlertsOf(c', e)[|AlertsOf(c, e)|..], lines, e)
  }

  lemma AnnouncedBoth(c: Core, c': Core, c'': Core, e: Entity, a: seq<LogLine>, b: seq<LogLine>)
    requires Announced(c, c', e, a) && Announced(c', c'', e, b)
    ensures Announced(c, c'', e, a + b)
  {
    TailOfTail(AlertsOf(c, e), AlertsOf(c', e), AlertsOf(c'', e));
    AnnouncesBoth(AlertsOf(c', e)[|AlertsOf(c, e)|..], AlertsOf(c'', e)[|AlertsOf(c', e)|..], a, b, e);
  }

  lemma AnnouncesBoth(x: seq<Notification>, y: seq<Notification>, a: seq<LogLine>, b: seq<LogLine>, e: Entity)
    requires Announces(x, a, e) && Announces(y, b, e)
    ensures Announces(x + y, a + b, e)
  {
  }

  lemma ResultAnnounced(c: Core, r: CheckResult, e: Entity)
    requires WellKeyed(c) && c.opts.historyLog
    ensures LinesOf(c, e) <= LinesOf(Handle(c, r), e)
    ensures Announced(c, Handle(c, r), e, Loud(c, Handle(c, r), e))
  {
    StepSlice(c, r, e);
    SilentIsMuted(c, e);
    if Target(r.id) == e && Configured(c, e) {
      StepRecords(c.opts, e, SliceOf(c, e), r);
    }
  }

  lemma StepAnnounced(s: State, ev: Event, e: Entity)
    requires WellFormed(s) && Enabled(s, ev) && s.core.opts.historyLog
    ensures LinesOf(s.core, e) <= LinesOf(Apply(s, ev).core, e)
    ensures Announced(s.core, Apply(s, ev).core, e, Loud(s.core, Apply(s, ev).core, e))
  {
    if ev.Process? {
      ResultAnnounced(s.core, s.workers[ev.worker].value, e);
    } else {
      assert LinesOf(Apply(s, ev).core, e) == LinesOf(s.core, e) && AlertsOf(Apply(s, ev).core, e) == AlertsOf(s.core, e);
    }
  }

  /** Over any run, syncs included, the notifications about an entity are its new history lines, one for
      one and in order, except those written while it is in downtime (for a service, also while its host
      is): these are not announced. */
  lemma {:induction false} NotificationsFollowHistory(s: State, evs: seq<Event>, e: Entity)
    requires WellFormed(s) && ValidRun(s, evs) && s.core.opts.historyLog
    ensures Announced(s.core, Run(s, evs).core, e, LoudLines(s, evs, e))
    decreases |evs|
  {
    if evs != [] {
      var s' := Apply(s, evs[0]);
      StepKeepsWellFormed(s, evs[0]);
      StepAnnounced(s, evs[0], e);
      NotificationsFollowHistory(s', evs[1..], e);
      AnnouncedBoth(s.core, s'.core, Run(s, evs).core, e, Loud(s.core, s'.core, e), LoudLines(s', evs[1..], e));
    }
  }

  /** Between syncs nothing becomes silent or loud. */
  lemma StepKeepsSilent(s: State, ev: Event, e: Entity)
    requires WellFormed(s) && Enabled(s, ev) && !ev.Sync?
    ensures Silent(Apply(s, ev).core, e) == Silent(s.core, e)
  {
    SilentIsMuted(s.core, e);
    SilentIsMuted(Apply(s, ev).core, e);
    if ev.Process? {
      StepSlice(s.core, s.workers[ev.worker].value, e);
    }
  }

  lemma LoudInTurn(c: Core, c': Core, c'': Core, e: Entity)
    requires Silent(c', e) == Silent(c, e)
    requires LinesOf(c, e) <= LinesOf(c', e) <= LinesOf(c'', e)
    ensures LinesOf(c, e) <= LinesOf(c'', e)
    ensures Loud(c, c', e) + Loud(c', c'', e) == Loud(c, c'', e)
  {
  }

  /** So in a sync-free run either all new lines are announced or none is. */
  lemma {:induction false} SyncFreeLoudLines(s: State, evs: seq<Event>, e: Entity)
    requires WellFormed(s) && ValidRun(s, evs) && SyncFree(evs) && s.core.opts.historyLog
    ensures LinesOf(s.core, e) <= LinesOf(Run(s, evs).core, e)
    ensures LoudLines(s, evs, e) == Loud(s.core, Run(s, evs).core, e)
    decreases |evs|
  {
    if evs != [] {
      var s' := Apply(s, evs[0]);
      StepKeepsWellFormed(s, evs[0]);
      StepAnnounced(s, evs[0], e);
      StepKeepsSilent(s, evs[0], e);
      SyncFreeLoudLines(s', evs[1..], e);
      LoudInTurn(s.core, s'.core, Run(s', evs[1..]).core, e);
    }
  }

  // ---------------------------------------------------------------- what is sent, exactly

  /** The notification about `e` that result `r` causes, read off the maps. */
  function ResultAlert(c: Core, r: CheckResult, e: Entity): seq<Notification> {
    match e
    case HostEntity(k) =>
      if r.id == "HOST:" + k && k in c.hosts && c.hosts[k].isUp != (r.status == 0) && !c.hosts[k].inDowntime
      then [Notification(k, if r.status == 0 then "UP" else "DOWN", r.status, r.output)] else []
    case ServiceEntity(k) =>
      if r.id == k && !("HOST:" <= k) && k in c.services && c.services[k].currentState != r.status
         && !c.services[k].inDowntime
         && (c.services[k].hostName !in c.hosts || !c.hosts[c.services[k].hostName].inDowntime)
      then [Notification(k, "ALERT", r.status, r.output)] else []
  }

  /** The notifications about `e` that the processed results of a run cause. */
  ghost function AlertsOver(s: State, evs: seq<Event>, e: Entity): seq<Notification>
    requires ValidRun(s, evs)
    decreases |evs|
  {
    if evs == [] then []
    else
      (if evs[0].Process? then ResultAlert(s.core, s.workers[evs[0].worker].value, e) else [])
      + AlertsOver(Apply(s, evs[0]), evs[1..], e)
  }

  lemma NoAlert(c: Core, r: CheckResult, e: Entity)
    requires WellKeyed(c) && (Target(r.id) != e || !Configured(c, e))
    ensures ResultAlert(c, r, e) == [] && AlertsOf(Handle(c, r), e) == AlertsOf(c, e)
  {
    StepSlice(c, r, e);
    if e.HostEntity? && r.id == "HOST:" + e.id {
      assert r.id[5..] == e.id;
    }
  }

  lemma ResultAlerts(c: Core, r: CheckResult, e: Entity)
    requires WellKeyed(c)
    ensures AlertsOf(Handle(c, r), e) == AlertsOf(c, e) + ResultAlert(c, r, e)
  {
    if Target(r.id) != e || !Configured(c, e) {
      NoAlert(c, r, e);
    } else {
      var sent := ResultAlert(c, r, e);
      if e.HostEntity? {
        assert r.id == "HOST:" + e.id;
        HostResult(c, e.id, r);
      } else {
        ServiceResult(c, e.id, r);
      }
      assert Handle(c, r).notified == c.notified + sent;
      if sent == [] {
        assert c.notified + sent == c.notified;
      } else {
        OnlySnoc(c.notified, sent[0], NotifiedEntity, e);
      }
    }
  }

  /** Over any run, with or without a history log, the notifications about an entity are exactly those of
      its processed results that change its level while neither it nor, for a service, its host is in
      downtime, with the status and output of the result. */
  lemma {:induction false} NotificationsAreChanges(s: State, evs: seq<Event>, e: Entity)
    requires WellFormed(s) && ValidRun(s, evs)
    ensures AlertsOf(Run(s, evs).core, e) == AlertsOf(s.core, e) + AlertsOver(s, evs, e)
    decreases |evs|
  {
    if evs == [] {
      assert AlertsOf(s.core, e) + [] == AlertsOf(s.core, e);
    } else {
      var s' := Apply(s, evs[0]);
      var now := if evs[0].Process? then ResultAlert(s.core, s.workers[evs[0].worker].value, e) else [];
      StepKeepsWellFormed(s, evs[0]);
      StepAlerted(s, evs[0], e);
      NotificationsAreChanges(s', evs[1..], e);
      Associative(AlertsOf(s.core, e), now, AlertsOver(s', evs[1..], e));
    }
  }

  lemma StepAlerted(s: State, ev: Event, e: Entity)
    requires WellFormed(s) && Enabled(s, ev)
    ensures AlertsOf(Apply(s, ev).core, e) == AlertsOf(s.core, e)
            + if ev.Process? then ResultAlert(s.core, s.workers[ev.worker].value, e) else []
  {
    if ev.Process? {
      ResultAlerts(s.core, s.workers[ev.worker].value, e);
    } else {
      assert AlertsOf(s.core, e) + [] == AlertsOf(s.core, e);
    }
  }
}
