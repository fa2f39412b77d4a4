/** The cool-off variables (cmd/arbiter/watcher.go) are read and written without a lock, by refreshes that
    run on the ticker, on the hot-reload loop and on API calls, and by rounds that run on their own
    goroutines.  Here every read and write is a step of its own. */
module CoolOffRaces {
  import opened SyncController

  /** Where a refresh is: not in the guard, behind a look that saw the flag set, or behind a comparison
      that found the start time old enough, about to clear the flag. */
  datatype Guard = Outside | Looked | Clearing

  /** `stamping[q]` says that round `q` has set the flag and not yet the start time. */
  datatype Race = Race(c: Control, guards: seq<Guard>, stamping: seq<bool>)

  datatype Action =
    | Look(p: nat)
    | Compare(p: nat, now: int)
    | Clear(p: nat)
    | Flag(q: nat)
    | Stamp(q: nat, now: int)

  predicate CanTake(r: Race, a: Action) {
    match a
    case Look(p) => p < |r.guards| && r.guards[p] == Outside
    case Compare(p, _) => p < |r.guards| && r.guards[p] == Looked
    case Clear(p) => p < |r.guards| && r.guards[p] == Clearing
    case Flag(q) => q < |r.stamping| && !r.stamping[q]
    case Stamp(q, _) => q < |r.stamping| && r.stamping[q]
  }

  function Take(r: Race, a: Action, coolOff: int): Race
    requires CanTake(r, a)
  {
    match a
    case Look(p) => r.(guards := r.guards[p := if r.c.inCoolOff then Looked else Outside])
    case Compare(p, now) => r.(guards := r.guards[p := if now - r.c.start < coolOff then Outside else Clearing])
    case Clear(p) => r.(c := r.c.(inCoolOff := false), guards := r.guards[p := Outside])
    case Flag(q) => r.(c := r.c.(inCoolOff := true), stamping := r.stamping[q := true])
    case Stamp(q, now) => r.(c := r.c.(start := now), stamping := r.stamping[q := false])
  }

  /** The step in which a refresh learns that it may go on. */
  predicate GoesOn(r: Race, a: Action, coolOff: int) {
    match a
    case Look(_) => !r.c.inCoolOff
    case Compare(_, now) => now - r.c.start >= coolOff
    case _ => false
  }

  predicate ValidActs(r: Race, acts: seq<Action>, coolOff: int)
    decreases |acts|
  {
    acts == [] || (CanTake(r, acts[0]) && ValidActs(Take(r, acts[0], coolOff), acts[1..], coolOff))
  }

  function TakeAll(r: Race, acts: seq<Action>, coolOff: int): Race
    requires ValidActs(r, acts, coolOff)
    decreases |acts|
  {
    if acts == [] then r else TakeAll(Take(r, acts[0], coolOff), acts[1..], coolOff)
  }

  predicate NobodyGoesOn(r: Race, acts: seq<Action>, coolOff: int)
    requires ValidActs(r, acts, coolOff)
    decreases |acts|
  {
    acts == [] || (!GoesOn(r, acts[0], coolOff) && NobodyGoesOn(Take(r, acts[0], coolOff), acts[1..], coolOff))
  }

  // ---------------------------------------------------------------- one refresh

  /** The flag and the start time that the writes of `acts` leave behind. */
  function FlagAfter(flag: bool, acts: seq<Action>): bool {
    if acts == [] then flag
    else
      var last := acts[|acts| - 1];
      if last.Flag? then true else if last.Clear? then false else FlagAfter(flag, acts[..|acts| - 1])
  }

  function StartAfter(start: int, acts: seq<Action>): int {
    if acts == [] then start
    else
      var last := acts[|acts| - 1];
      if last.Stamp? then last.now else StartAfter(start, acts[..|acts| - 1])
  }

  lemma {:induction false} WritesCons(a: Action, rest: seq<Action>, flag: bool, start: int)
    ensures FlagAfter(flag, [a] + rest) == FlagAfter(FlagAfter(flag, [a]), rest)
    ensures StartAfter(start, [a] + rest) == StartAfter(StartAfter(start, [a]), rest)
    decreases |rest|
  {
    if rest == [] {
      assert [a] + rest == [a];
    } else {
      assert ([a] + rest)[..|[a] + rest| - 1] == [a] + rest[..|rest| - 1];
      WritesCons(a, rest[..|rest| - 1], flag, start);
    }
  }

  /** The last flag write and the last stamp of a run decide what the two variables hold. */
  lemma {:induction false} LastWrites(r: Race, acts: seq<Action>, coolOff: int)
    requires ValidActs(r, acts, coolOff)
    ensures TakeAll(r, acts, coolOff).c == Control(FlagAfter(r.c.inCoolOff, acts), StartAfter(r.c.start, acts))
    decreases |acts|
  {
    if acts != [] {
      var r' := Take(r, acts[0], coolOff);
      LastWrites(r', acts[1..], coolOff);
      assert acts == [acts[0]] + acts[1..];
      assert [acts[0]][..0] == [];
      WritesCons(acts[0], acts[1..], r.c.inCoolOff, r.c.start);
    }
  }

  /** In a run of any refreshes and rounds, refresh `p` looks at the flag after `before` and, if it saw
      it set, compares at time `now` after `between`.  It goes on if and only if the last flag write
      before the look is a clear (or there is none and the flag was unset), or the last stamp before the
      comparison is old enough.  So within the cool-off of the recorded failure it goes on exactly when
      the last flag write was a clear. */
  lemma CheckIff(r: Race, before: seq<Action>, between: seq<Action>, p: nat, now: int, coolOff: int)
    requires ValidActs(r, before, coolOff) && CanTake(TakeAll(r, before, coolOff), Look(p))
    requires ValidActs(Take(TakeAll(r, before, coolOff), Look(p), coolOff), between, coolOff)
    ensures var looking := TakeAll(r, before, coolOff);
            var comparing := TakeAll(Take(looking, Look(p), coolOff), between, coolOff);
            var flag, start := FlagAfter(r.c.inCoolOff, before), StartAfter(StartAfter(r.c.start, before), between);
            && (GoesOn(looking, Look(p), coolOff) || GoesOn(comparing, Compare(p, now), coolOff)
                <==> !flag || now - start >= coolOff)
            && (now < start + coolOff ==>
                (GoesOn(looking, Look(p), coolOff) || GoesOn(comparing, Compare(p, now), coolOff) <==> !flag))
  {
    LastWrites(r, before, coolOff);
    LastWrites(Take(TakeAll(r, before, coolOff), Look(p), coolOff), between, coolOff);
  }

  // ---------------------------------------------------------------- one recorded failure

  /** The flag is set and no refresh is about to clear it. */
  predicate Sealed(r: Race) {
    r.c.inCoolOff && forall p :: 0 <= p < |r.guards| ==> r.guards[p] != Clearing
  }

  /** All comparisons happen less than the cool-off after `failed`, and all stamps after it. */
  predicate During(acts: seq<Action>, failed: int, coolOff: int) {
    forall i :: 0 <= i < |acts| ==>
      && (acts[i].Compare? ==> acts[i].now < failed + coolOff)
      && (acts[i].Stamp? ==> failed <= acts[i].now)
  }

  lemma {:induction false} SealedHolds(r: Race, acts: seq<Action>, failed: int, coolOff: int)
    requires ValidActs(r, acts, coolOff) && Sealed(r) && failed <= r.c.start && During(acts, failed, coolOff)
    ensures NobodyGoesOn(r, acts, coolOff) && Sealed(TakeAll(r, acts, coolOff))
    decreases |acts|
  {
    if acts != [] {
      assert acts[0].Compare? ==> acts[0].now < failed + coolOff;
      SealedHolds(Take(r, acts[0], coolOff), acts[1..], failed, coolOff);
    }
  }

  /** A way past the guard when the state is not sealed. */
  function Leak(r: Race): seq<Action>
    requires |r.guards| > 0
  {
    if exists p :: 0 <= p < |r.guards| && r.guards[p] == Clearing then
      var p := First(r.guards, Clearing); [Clear(p), Look(p)]
    else if r.guards[0] == Looked then [Compare(0, r.c.start), Look(0)]
    else [Look(0)]
  }

  function First(guards: seq<Guard>, g: Guard): (p: nat)
    requires exists p :: 0 <= p < |guards| && guards[p] == g
    ensures p < |guards| && guards[p] == g
  {
    if guards[0] == g then 0 else 1 + First(guards[1..], g)
  }

  lemma LeakPasses(r: Race, coolOff: int)
    requires |r.guards| > 0 && coolOff > 0 && !Sealed(r)
    ensures ValidActs(r, Leak(r), coolOff) && During(Leak(r), r.c.start, coolOff)
    ensures !NobodyGoesOn(r, Leak(r), coolOff)
  {
    var acts := Leak(r);
    var r' := Take(r, acts[0], coolOff);
    if |acts| == 2 {
      assert acts[1..] == [acts[1]] && [acts[1]][1..] == [];
      assert GoesOn(r', acts[1], coolOff);
    } else {
      assert GoesOn(r, acts[0], coolOff);
    }
  }

  /** When a failed round has written its start time, it blocks every refresh for the cool-off, whatever
      refreshes and rounds do, if and only if at that moment the flag is set and no refresh stands between
      its comparison and its clear. */
  lemma CoolOffHoldsIff(r: Race, coolOff: int)
    requires |r.guards| > 0 && coolOff > 0
    ensures Sealed(r) <==>
            forall acts :: ValidActs(r, acts, coolOff) && During(acts, r.c.start, coolOff) ==> NobodyGoesOn(r, acts, coolOff)
  {
    if Sealed(r) {
      forall acts | ValidActs(r, acts, coolOff) && During(acts, r.c.start, coolOff)
        ensures NobodyGoesOn(r, acts, coolOff)
      {
        SealedHolds(r, acts, r.c.start, coolOff);
      }
    } else {
      LeakPasses(r, coolOff);
    }
  }

  // ---------------------------------------------------------------- whole runs

  /** Every stamp of the run leaves a sealed state. */
  predicate SealedStamps(r: Race, acts: seq<Action>, coolOff: int)
    requires ValidActs(r, acts, coolOff)
    decreases |acts|
  {
    acts == [] ||
    var r' := Take(r, acts[0], coolOff);
    (acts[0].Stamp? ==> Sealed(r')) && SealedStamps(r', acts[1..], coolOff)
  }

  predicate Timed(a: Action) {
    a.Compare? || a.Stamp?
  }

  /** The clock does not go back, and `now` is not before the last action. */
  ghost predicate InTime(acts: seq<Action>, now: int) {
    && (forall i :: 0 <= i < |acts| && Timed(acts[i]) ==> acts[i].now <= now)
    && (forall i, j :: 0 <= i < j < |acts| && Timed(acts[i]) && Timed(acts[j]) ==> acts[i].now <= acts[j].now)
  }

  /** No recorded failure is less than the cool-off old. */
  ghost predicate CalmActs(acts: seq<Action>, now: int, coolOff: int) {
    forall i :: 0 <= i < |acts| && acts[i].Stamp? ==> now - acts[i].now >= coolOff
  }

  predicate HasStamp(acts: seq<Action>) {
    exists i :: 0 <= i < |acts| && acts[i].Stamp?
  }

  lemma TailInTime(acts: seq<Action>, now: int)
    requires InTime(acts, now) && acts != []
    ensures InTime(acts[1..], now)
    ensures Timed(acts[0]) ==> forall i :: 0 <= i < |acts[1..]| && Timed(acts[1..][i]) ==> acts[0].now <= acts[1..][i].now
  {
  }

  lemma TailStamps(acts: seq<Action>, now: int, coolOff: int)
    requires acts != []
    ensures HasStamp(acts) <==> acts[0].Stamp? || HasStamp(acts[1..])
    ensures CalmActs(acts, now, coolOff) <==>
            (acts[0].Stamp? ==> now - acts[0].now >= coolOff) && CalmActs(acts[1..], now, coolOff)
  {
    assert acts == [acts[0]] + acts[1..];
    assert forall i :: 0 < i < |acts| ==> acts[i] == acts[1..][i - 1];
  }

  lemma {:induction false} NoStampKeepsStart(r: Race, acts: seq<Action>, coolOff: int)
    requires ValidActs(r, acts, coolOff) && !HasStamp(acts)
    ensures TakeAll(r, acts, coolOff).c.start == r.c.start
    decreases |acts|
  {
    if acts != [] {
      TailStamps(acts, 0, coolOff);
      NoStampKeepsStart(Take(r, acts[0], coolOff), acts[1..], coolOff);
    }
  }

  /** In any run of any number of refreshes and rounds, however their reads and writes interleave, the
      guard is exact as long as every stamp leaves a sealed state: after the run a refresh at `now` passes
      if and only if no failure was recorded less than the cool-off before. */
  lemma {:induction false} SealedGuardIsExact(r: Race, acts: seq<Action>, now: int, coolOff: int)
    requires ValidActs(r, acts, coolOff) && SealedStamps(r, acts, coolOff) && InTime(acts, now)
    requires HasStamp(acts) || now - r.c.start >= coolOff
    ensures Passes(TakeAll(r, acts, coolOff).c, now, coolOff) <==> CalmActs(acts, now, coolOff)
    decreases |acts|
  {
    if acts != [] {
      var r', rest := Take(r, acts[0], coolOff), acts[1..];
      TailInTime(acts, now);
      TailStamps(acts, now, coolOff);
      if acts[0].Stamp? && !HasStamp(rest) {
        AfterLastStamp(r', rest, now, coolOff);
      } else {
        SealedGuardIsExact(r', rest, now, coolOff);
        if acts[0].Stamp? {
          var i :| 0 <= i < |rest| && rest[i].Stamp?;
          assert Timed(rest[i]) && acts[0].now <= rest[i].now;
        }
      }
    }
  }

  lemma AfterLastStamp(r: Race, rest: seq<Action>, now: int, coolOff: int)
    requires ValidActs(r, rest, coolOff) && Sealed(r) && !HasStamp(rest) && InTime(rest, now)
    ensures Passes(TakeAll(r, rest, coolOff).c, now, coolOff) <==> now - r.c.start >= coolOff
    ensures CalmActs(rest, now, coolOff)
  {
    NoStampKeepsStart(r, rest, coolOff);
    if now < r.c.start + coolOff {
      forall i | 0 <= i < |rest| ensures !rest[i].Stamp? && (rest[i].Compare? ==> rest[i].now < r.c.start + coolOff) {
        assert rest[i].Compare? ==> Timed(rest[i]);
      }
      SealedHolds(r, rest, r.c.start, coolOff);
    }
  }

  // ---------------------------------------------------------------- building runs

  /** A run with one more action in front. */
  lemma Before(r: Race, a: Action, rest: seq<Action>, coolOff: int)
    requires CanTake(r, a) && ValidActs(Take(r, a, coolOff), rest, coolOff)
    ensures var r', acts := Take(r, a, coolOff), [a] + rest;
            && ValidActs(r, acts, coolOff)
            && TakeAll(r, acts, coolOff) == TakeAll(r', rest, coolOff)
            && (NobodyGoesOn(r, acts, coolOff) <==> !GoesOn(r, a, coolOff) && NobodyGoesOn(r', rest, coolOff))
            && (SealedStamps(r, acts, coolOff) <==> (a.Stamp? ==> Sealed(r')) && SealedStamps(r', rest, coolOff))
  {
    assert ([a] + rest)[1..] == rest;
  }

  lemma RunOfOne(r: Race, a: Action, coolOff: int)
    requires CanTake(r, a)
    ensures ValidActs(r, [a], coolOff) && TakeAll(r, [a], coolOff) == Take(r, a, coolOff)
    ensures NobodyGoesOn(r, [a], coolOff) <==> !GoesOn(r, a, coolOff)
    ensures SealedStamps(r, [a], coolOff) <==> (a.Stamp? ==> Sealed(Take(r, a, coolOff)))
  {
    Before(r, a, [], coolOff);
    assert [a] + [] == [a];
  }

  lemma RunOfTwo(r: Race, a: Action, b: Action, coolOff: int)
    requires CanTake(r, a) && CanTake(Take(r, a, coolOff), b)
    ensures var r' := Take(r, a, coolOff);
            && ValidActs(r, [a, b], coolOff) && TakeAll(r, [a, b], coolOff) == Take(r', b, coolOff)
            && (NobodyGoesOn(r, [a, b], coolOff) <==> !GoesOn(r, a, coolOff) && !GoesOn(r', b, coolOff))
            && (SealedStamps(r, [a, b], coolOff) <==>
                (a.Stamp? ==> Sealed(r')) && (b.Stamp? ==> Sealed(Take(r', b, coolOff))))
  {
    RunOfOne(Take(r, a, coolOff), b, coolOff);
    Before(r, a, [b], coolOff);
    assert [a] + [b] == [a, b];
  }

  lemma RunOfThree(r: Race, a: Action, b: Action, c: Action, coolOff: int)
    requires CanTake(r, a) && CanTake(Take(r, a, coolOff), b) && CanTake(Take(Take(r, a, coolOff), b, coolOff), c)
    ensures var r' := Take(r, a, coolOff);
            && ValidActs(r, [a, b, c], coolOff)
            && TakeAll(r, [a, b, c], coolOff) == Take(Take(r', b, coolOff), c, coolOff)
            && (NobodyGoesOn(r, [a, b, c], coolOff) ==> !GoesOn(r', b, coolOff))
            && (!a.Stamp? && !b.Stamp? && !c.Stamp? ==> SealedStamps(r, [a, b, c], coolOff))
  {
    RunOfTwo(Take(r, a, coolOff), b, c, coolOff);
    Before(r, a, [b, c], coolOff);
    assert [a] + [b, c] == [a, b, c];
  }

  lemma {:induction false} RunBoth(r: Race, a: seq<Action>, b: seq<Action>, coolOff: int)
    requires ValidActs(r, a, coolOff) && ValidActs(TakeAll(r, a, coolOff), b, coolOff)
    ensures ValidActs(r, a + b, coolOff)
    ensures TakeAll(r, a + b, coolOff) == TakeAll(TakeAll(r, a, coolOff), b, coolOff)
    ensures SealedStamps(r, a + b, coolOff) <==>
            SealedStamps(r, a, coolOff) && SealedStamps(TakeAll(r, a, coolOff), b, coolOff)
    decreases |a|
  {
    if a == [] {
      assert a + b == b;
    } else {
      var r' := Take(r, a[0], coolOff);
      RunBoth(r', a[1..], b, coolOff);
      Before(r, a[0], a[1..] + b, coolOff);
      assert a + b == [a[0]] + (a[1..] + b);
    }
  }

  // ---------------------------------------------------------------- steps that are not split

  /** The steps of refresh `p` or round `q` when nothing comes between them. */
  function Unsplit(c: Control, ev: ControlEvent, p: nat, q: nat, coolOff: int): seq<Action> {
    match ev
    case Refreshed(now) =>
      if !c.inCoolOff then [Look(p)]
      else if Passes(c, now, coolOff) then [Look(p), Compare(p, now), Clear(p)]
      else [Look(p), Compare(p, now)]
    case RoundFailed(now) => [Flag(q), Stamp(q, now)]
    case RoundReachedSome(_) => []
  }

  /** Taken together these are the one step of the controller, a refresh goes on exactly if it passes,
      and a stamp leaves a sealed state. */
  lemma UnsplitStep(r: Race, ev: ControlEvent, p: nat, q: nat, coolOff: int)
    requires p < |r.guards| && q < |r.stamping| && !r.stamping[q]
    requires forall i :: 0 <= i < |r.guards| ==> r.guards[i] == Outside
    ensures var acts := Unsplit(r.c, ev, p, q, coolOff);
            && ValidActs(r, acts, coolOff)
            && TakeAll(r, acts, coolOff) == r.(c := Next(r.c, ev, coolOff))
            && SealedStamps(r, acts, coolOff)
            && (ev.Refreshed? ==> (NobodyGoesOn(r, acts, coolOff) <==> !Passes(r.c, ev.now, coolOff)))
  {
    match ev
    case Refreshed(now) =>
      if !r.c.inCoolOff {
        RunOfOne(r, Look(p), coolOff);
      } else if Passes(r.c, now, coolOff) {
        RunOfThree(r, Look(p), Compare(p, now), Clear(p), coolOff);
      } else {
        RunOfTwo(r, Look(p), Compare(p, now), coolOff);
      }
    case RoundFailed(now) =>
      RunOfTwo(r, Flag(q), Stamp(q, now), coolOff);
    case _ =>
  }

  /** All events of a run of the controller, each in unsplit steps. */
  function UnsplitAll(c: Control, evs: seq<ControlEvent>, p: nat, q: nat, coolOff: int): seq<Action> {
    if evs == [] then []
    else
      var front := evs[..|evs| - 1];
      UnsplitAll(c, front, p, q, coolOff) + Unsplit(After(c, front, coolOff), evs[|evs| - 1], p, q, coolOff)
  }

  /** So the controller's runs are the runs in which no refresh and no round is split, and all their
      stamps leave sealed states. */
  lemma {:induction false} UnsplitRun(r: Race, evs: seq<ControlEvent>, p: nat, q: nat, coolOff: int)
    requires p < |r.guards| && q < |r.stamping| && !r.stamping[q]
    requires forall i :: 0 <= i < |r.guards| ==> r.guards[i] == Outside
    ensures var acts := UnsplitAll(r.c, evs, p, q, coolOff);
            && ValidActs(r, acts, coolOff)
            && TakeAll(r, acts, coolOff) == r.(c := After(r.c, evs, coolOff))
            && SealedStamps(r, acts, coolOff)
  {
    if evs != [] {
      var front := evs[..|evs| - 1];
      var r' := r.(c := After(r.c, front, coolOff));
      UnsplitRun(r, front, p, q, coolOff);
      UnsplitStep(r', evs[|evs| - 1], p, q, coolOff);
      RunBoth(r, UnsplitAll(r.c, front, p, q, coolOff), Unsplit(r'.c, evs[|evs| - 1], p, q, coolOff), coolOff);
    }
  }

  // ---------------------------------------------------------------- runs that lose a failure

  /** A refresh straddles the two writes of a failed round: it compares before them and clears after
      them.  Another refresh passes right after the failure. */
  lemma StraddlingRefresh(start: int, failed: int, coolOff: int)
    requires coolOff > 0 && failed >= start + coolOff
    ensures var r := Race(Control(true, start), [Outside, Outside], [false]);
            var acts := [Look(0), Compare(0, failed), Flag(0), Stamp(0, failed), Clear(0)];
            && ValidActs(r, acts, coolOff)
            && StartAfter(start, acts) == failed
            && GoesOn(TakeAll(r, acts, coolOff), Look(1), coolOff)
            && !CalmActs(acts, failed, coolOff)
  {
    var r := Race(Control(true, start), [Outside, Outside], [false]);
    var acts := [Look(0), Compare(0, failed), Flag(0), Stamp(0, failed), Clear(0)];
    var r2 := Take(Take(r, Look(0), coolOff), Compare(0, failed), coolOff);
    RunOfThree(r2, Flag(0), Stamp(0, failed), Clear(0), coolOff);
    Before(Take(r, Look(0), coolOff), Compare(0, failed), [Flag(0), Stamp(0, failed), Clear(0)], coolOff);
    Before(r, Look(0), [Compare(0, failed)] + [Flag(0), Stamp(0, failed), Clear(0)], coolOff);
    assert acts == [Look(0)] + ([Compare(0, failed)] + [Flag(0), Stamp(0, failed), Clear(0)]);
    assert acts[3].Stamp? && acts[..4][3] == Stamp(0, failed);
    assert acts[..4] == acts[..|acts| - 1];
  }

  /** Or it does all its steps between the two writes. */
  lemma RefreshBetweenWrites(start: int, failed: int, coolOff: int)
    requires coolOff > 0 && failed >= start + coolOff
    ensures var r := Race(Control(false, start), [Outside, Outside], [false]);
            var acts := [Flag(0), Look(0), Compare(0, failed), Clear(0), Stamp(0, failed)];
            && ValidActs(r, acts, coolOff)
            && StartAfter(start, acts) == failed
            && GoesOn(TakeAll(r, acts, coolOff), Look(1), coolOff)
            && !CalmActs(acts, failed, coolOff)
  {
    var r := Race(Control(false, start), [Outside, Outside], [false]);
    var acts := [Flag(0), Look(0), Compare(0, failed), Clear(0), Stamp(0, failed)];
    var r2 := Take(Take(r, Flag(0), coolOff), Look(0), coolOff);
    RunOfThree(r2, Compare(0, failed), Clear(0), Stamp(0, failed), coolOff);
    Before(Take(r, Flag(0), coolOff), Look(0), [Compare(0, failed), Clear(0), Stamp(0, failed)], coolOff);
    Before(r, Flag(0), [Look(0)] + [Compare(0, failed), Clear(0), Stamp(0, failed)], coolOff);
    assert acts == [Flag(0)] + ([Look(0)] + [Compare(0, failed), Clear(0), Stamp(0, failed)]);
    assert acts[4].Stamp?;
  }
}
