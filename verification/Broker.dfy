/** The broker (cmd/broker): bounded ingestion into a channel and workers that write batches from a
    reused buffer. */
module Broker {
  import opened Models
  import opened Seqs
  import opened GoSlices
  import opened Arithmetic

  const QUEUE_CAPACITY: nat := 50000

  // ---------------------------------------------------------------- one worker

  /** What the select statement of a worker picks. */
  datatype Choice = Receive(result: CheckResult) | Tick

  datatype Flush = Flush(items: seq<CheckResult>, bySize: bool)

  datatype Worker = Worker(flushed: seq<Flush>, buffer: seq<CheckResult>)

  function Step(w: Worker, c: Choice, batchSize: nat): Worker {
    match c
    case Receive(r) =>
      var batch := w.buffer + [r];
      if |batch| >= batchSize then Worker(w.flushed + [Flush(batch, true)], []) else w.(buffer := batch)
    case Tick =>
      if |w.buffer| > 0 then Worker(w.flushed + [Flush(w.buffer, false)], []) else w
  }

  function After(choices: seq<Choice>, batchSize: nat): Worker {
    if choices == [] then Worker([], [])
    else Step(After(choices[..|choices| - 1], batchSize), choices[|choices| - 1], batchSize)
  }

  function Received(choices: seq<Choice>): seq<CheckResult> {
    if choices == [] then []
    else Received(choices[..|choices| - 1])
         + if choices[|choices| - 1].Receive? then [choices[|choices| - 1].result] else []
  }

  function Ticks(choices: seq<Choice>): nat {
    if choices == [] then 0
    else Ticks(choices[..|choices| - 1]) + if choices[|choices| - 1].Tick? then 1 else 0
  }

  /** The items of all flushes, in order. */
  function Written(flushed: seq<Flush>): seq<CheckResult> {
    if flushed == [] then [] else Written(flushed[..|flushed| - 1]) + flushed[|flushed| - 1].items
  }

  function BySize(flushed: seq<Flush>): nat {
    if flushed == [] then 0 else BySize(flushed[..|flushed| - 1]) + if flushed[|flushed| - 1].bySize then 1 else 0
  }

  lemma WrittenSnoc(flushed: seq<Flush>, f: Flush)
    ensures Written(flushed + [f]) == Written(flushed) + f.items
  {
    assert (flushed + [f])[..|flushed|] == flushed;
  }

  /** One choice adds the received result, if any, behind what was written and buffered before. */
  lemma StepWritten(w: Worker, c: Choice, batchSize: nat)
    ensures var w' := Step(w, c, batchSize);
            Written(w'.flushed) + w'.buffer ==
            (Written(w.flushed) + w.buffer) + if c.Receive? then [c.result] else []
  {
    match c
    case Receive(r) =>
      WrittenSnoc(w.flushed, Flush(w.buffer + [r], true));
      assert Written(w.flushed) + (w.buffer + [r]) == (Written(w.flushed) + w.buffer) + [r];
    case Tick =>
      WrittenSnoc(w.flushed, Flush(w.buffer, false));
  }

  /** The flushed batches followed by the buffer are exactly what the worker received, in order. */
  lemma {:induction false} NothingLost(choices: seq<Choice>, batchSize: nat)
    ensures var w := After(choices, batchSize); Written(w.flushed) + w.buffer == Received(choices)
  {
    if choices != [] {
      var front, last := choices[..|choices| - 1], choices[|choices| - 1];
      NothingLost(front, batchSize);
      StepWritten(After(front, batchSize), last, batchSize);
    }
  }

  /** Every flush has 1 to B items, a size-triggered one exactly B, and fewer than B items wait. */
  lemma {:induction false} FlushSizes(choices: seq<Choice>, batchSize: nat)
    requires batchSize >= 1
    ensures var w := After(choices, batchSize);
            && |w.buffer| < batchSize
            && forall f :: f in w.flushed ==>
                 1 <= |f.items| <= batchSize && (f.bySize ==> |f.items| == batchSize)
  {
    if choices != [] {
      FlushSizes(choices[..|choices| - 1], batchSize);
    }
  }

  /** k received results and t ticks cause at most floor(k / B) + t flushes. */
  lemma FlushCount(choices: seq<Choice>, batchSize: nat)
    requires batchSize >= 1
    ensures |After(choices, batchSize).flushed| <= |Received(choices)| / batchSize + Ticks(choices)
  {
    FlushLedger(choices, batchSize);
    var k, n := |Received(choices)|, BySize(After(choices, batchSize).flushed);
    DivMod(k, batchSize);
    ProductOrder(k / batchSize + 1, n, batchSize);
    NextMultiple(k / batchSize, batchSize);
  }

  /** One choice in the ledger: a receive adds one item, and pays for a flush by size in full; a tick
      flushes at most once. */
  lemma StepLedger(w: Worker, c: Choice, batchSize: nat)
    requires |w.buffer| < batchSize
    ensures var w' := Step(w, c, batchSize);
            && BySize(w'.flushed) * batchSize + |w'.buffer|
               <= BySize(w.flushed) * batchSize + |w.buffer| + (if c.Receive? then 1 else 0)
            && |w'.flushed| + BySize(w.flushed) <= |w.flushed| + BySize(w'.flushed) + (if c.Tick? then 1 else 0)
  {
    var n := BySize(w.flushed);
    match c
    case Receive(r) =>
      if |w.buffer| + 1 >= batchSize {
        BySizeSnoc(w.flushed, Flush(w.buffer + [r], true));
        NextMultiple(n, batchSize);
      }
    case Tick =>
      if |w.buffer| > 0 {
        BySizeSnoc(w.flushed, Flush(w.buffer, false));
        assert BySize(Step(w, c, batchSize).flushed) == n;
      }
  }

  lemma BySizeSnoc(flushed: seq<Flush>, f: Flush)
    ensures BySize(flushed + [f]) == BySize(flushed) + if f.bySize then 1 else 0
  {
    assert (flushed + [f])[..|flushed|] == flushed;
  }

  lemma {:induction false} FlushLedger(choices: seq<Choice>, batchSize: nat)
    requires batchSize >= 1
    ensures var w := After(choices, batchSize);
            && BySize(w.flushed) * batchSize + |w.buffer| <= |Received(choices)|
            && |w.flushed| <= BySize(w.flushed) + Ticks(choices)
  {
    if choices != [] {
      var front := choices[..|choices| - 1];
      FlushLedger(front, batchSize);
      FlushSizes(front, batchSize);
      StepLedger(After(front, batchSize), choices[|choices| - 1], batchSize);
    }
  }

  // ---------------------------------------------------------------- when a worker flushes

  function NextSince(since: seq<CheckResult>, c: Choice): seq<CheckResult> {
    if c.Tick? then [] else since + [c.result]
  }

  /** What was received since the last tick. */
  function SinceTick(choices: seq<Choice>): seq<CheckResult> {
    if choices == [] then [] else NextSince(SinceTick(choices[..|choices| - 1]), choices[|choices| - 1])
  }

  /** What is left of `xs` when full batches are cut off from the front. */
  function Rest(xs: seq<CheckResult>, batchSize: nat): seq<CheckResult>
    requires batchSize >= 1
  {
    if |xs| < batchSize then xs else Rest(xs[batchSize..], batchSize)
  }

  lemma {:induction false} RestSnoc(xs: seq<CheckResult>, r: CheckResult, batchSize: nat)
    requires batchSize >= 1
    ensures var left := Rest(xs, batchSize);
            && |left| < batchSize && left <= left + [r]
            && Rest(xs + [r], batchSize) == if |left| + 1 == batchSize then [] else left + [r]
    ensures |Rest(xs, batchSize)| <= |xs| && xs[|xs| - |Rest(xs, batchSize)|..] == Rest(xs, batchSize)
    decreases |xs|
  {
    if |xs| < batchSize {
      if |xs| + 1 == batchSize {
        assert (xs + [r])[batchSize..] == [];
      }
    } else {
      RestSnoc(xs[batchSize..], r, batchSize);
      assert (xs + [r])[batchSize..] == xs[batchSize..] + [r];
    }
  }

  /** What one choice flushes: a tick whatever waits, a received result the batch that it completes. */
  function NextFlushes(w: Worker, since: seq<CheckResult>, batchSize: nat, c: Choice): seq<Flush>
    requires batchSize >= 1
  {
    match c
    case Tick => if w.buffer == [] then [] else [Flush(w.buffer, false)]
    case Receive(r) =>
      var all := since + [r];
      if Rest(all, batchSize) == [] && batchSize <= |all| then [Flush(all[|all| - batchSize..], true)] else []
  }

  lemma StepFlushes(w: Worker, since: seq<CheckResult>, c: Choice, batchSize: nat)
    requires batchSize >= 1 && w.buffer == Rest(since, batchSize)
    ensures Step(w, c, batchSize).buffer == Rest(NextSince(since, c), batchSize)
    ensures Step(w, c, batchSize).flushed == w.flushed + NextFlushes(w, since, batchSize, c)
  {
    match c
    case Tick =>
      TickFlushes(w, since, batchSize);
    case Receive(r) =>
      ReceiveFlushes(w, since, r, batchSize);
  }

  lemma TickFlushes(w: Worker, since: seq<CheckResult>, batchSize: nat)
    requires batchSize >= 1
    ensures Step(w, Tick, batchSize).buffer == Rest([], batchSize)
    ensures Step(w, Tick, batchSize).flushed == w.flushed + NextFlushes(w, since, batchSize, Tick)
  {
  }

  /** One more received result: the buffer grows, or it is full and goes out. */
  lemma ReceiveFlushes(w: Worker, since: seq<CheckResult>, r: CheckResult, batchSize: nat)
    requires batchSize >= 1 && w.buffer == Rest(since, batchSize)
    ensures Step(w, Receive(r), batchSize).buffer == Rest(since + [r], batchSize)
    ensures Step(w, Receive(r), batchSize).flushed == w.flushed + NextFlushes(w, since, batchSize, Receive(r))
  {
    RestSnoc(since, r, batchSize);
    if |w.buffer| + 1 == batchSize {
      FullBatch(since, w.buffer, r);
    } else {
      assert w.flushed + [] == w.flushed;
    }
  }

  lemma FullBatch(since: seq<CheckResult>, left: seq<CheckResult>, r: CheckResult)
    requires |left| <= |since| && since[|since| - |left|..] == left
    ensures (since + [r])[|since| - |left|..] == left + [r]
  {
  }

  /** The buffer is exactly what was received since the last tick, without the full batches. */
  lemma {:induction false} BufferIs(choices: seq<Choice>, batchSize: nat)
    requires batchSize >= 1
    ensures After(choices, batchSize).buffer == Rest(SinceTick(choices), batchSize)
  {
    if choices != [] {
      var front, c := choices[..|choices| - 1], choices[|choices| - 1];
      BufferIs(front, batchSize);
      StepFlushes(After(front, batchSize), SinceTick(front), c, batchSize);
    }
  }

  /** After every choice: a tick writes whatever waits and nothing else, and a received result makes a flush
      exactly when it completes a batch counted from the last tick, and then of that batch. */
  lemma FlushedWhen(choices: seq<Choice>, c: Choice, batchSize: nat)
    requires batchSize >= 1
    ensures After(choices + [c], batchSize).flushed == After(choices, batchSize).flushed
            + NextFlushes(After(choices, batchSize), SinceTick(choices), batchSize, c)
  {
    assert (choices + [c])[..|choices|] == choices;
    BufferIs(choices, batchSize);
    StepFlushes(After(choices, batchSize), SinceTick(choices), c, batchSize);
  }

  /** Nothing waits after a tick: all that was received is written. */
  lemma AfterTick(choices: seq<Choice>, batchSize: nat)
    requires choices != [] && choices[|choices| - 1].Tick?
    ensures var w := After(choices, batchSize); w.buffer == [] && Written(w.flushed) == Received(choices)
  {
    NothingLost(choices, batchSize);
    var written := Written(After(choices, batchSize).flushed);
    assert written + [] == written;
  }

  /** A batch size of 0 works like 1. */
  lemma {:induction false} ZeroBatch(choices: seq<Choice>)
    ensures After(choices, 0) == After(choices, 1)
  {
    if choices != [] {
      ZeroBatch(choices[..|choices| - 1]);
    }
  }

  /** dbWorker, for the choices its select statement makes.  The batch is appended to and truncated in
      one buffer; `batch[:0]` keeps the array. */
  method DbWorker(choices: seq<Choice>, batchSize: nat) returns (w: Worker)
    ensures w == After(choices, batchSize)
  {
    var buffer := new CheckResult[batchSize];
    var batch := Slice(buffer, 0);
    var flushed: seq<Flush> := [];
    for i := 0 to |choices|
      invariant batch.Valid() && fresh(batch.arr)
      invariant After(choices[..i], batchSize) == Worker(flushed, batch.Contents())
    {
      assert choices[..i + 1][..i] == choices[..i];
      match choices[i] {
        case Receive(res) =>
          batch := Append(batch, res);
          if batch.len >= batchSize {
            flushed := flushed + [Flush(batch.arr[..batch.len], true)];
            batch := Slice(batch.arr, 0);
          }
        case Tick =>
          if batch.len > 0 {
            flushed := flushed + [Flush(batch.arr[..batch.len], false)];
            batch := Slice(batch.arr, 0);
          }
      }
    }
    assert choices[..|choices|] == choices;
    w := Worker(flushed, batch.arr[..batch.len]);
  }

  // ---------------------------------------------------------------- ingestion and all workers

  datatype State = State(queue: seq<CheckResult>, workers: seq<Worker>)

  datatype Event = Ingest(result: CheckResult, accepted: bool) | Take(worker: nat) | TickOf(worker: nat)

  predicate Enabled(s: State, ev: Event) {
    match ev
    case Ingest(_, accepted) => accepted <==> |s.queue| < QUEUE_CAPACITY
    case Take(w) => w < |s.workers| && s.queue != []
    case TickOf(w) => w < |s.workers|
  }

  function Next(s: State, ev: Event, batchSize: nat): State
    requires Enabled(s, ev)
  {
    match ev
    case Ingest(r, accepted) => s.(queue := if accepted then s.queue + [r] else s.queue)
    case Take(w) => State(s.queue[1..], s.workers[w := Step(s.workers[w], Receive(s.queue[0]), batchSize)])
    case TickOf(w) => s.(workers := s.workers[w := Step(s.workers[w], Tick, batchSize)])
  }

  predicate ValidRun(s: State, evs: seq<Event>, batchSize: nat)
    decreases |evs|
  {
    evs == [] || (Enabled(s, evs[0]) && ValidRun(Next(s, evs[0], batchSize), evs[1..], batchSize))
  }

  function Run(s: State, evs: seq<Event>, batchSize: nat): State
    requires ValidRun(s, evs, batchSize)
    decreases |evs|
  {
    if evs == [] then s else Run(Next(s, evs[0], batchSize), evs[1..], batchSize)
  }

  function Accepted(evs: seq<Event>): multiset<CheckResult> {
    if evs == [] then multiset{}
    else (if evs[0].Ingest? && evs[0].accepted then multiset{evs[0].result} else multiset{}) + Accepted(evs[1..])
  }

  /** What a worker has written or still buffers. */
  function Holds(w: Worker): multiset<CheckResult> {
    multiset(Written(w.flushed)) + multiset(w.buffer)
  }

  function AllHold(workers: seq<Worker>): multiset<CheckResult> {
    if workers == [] then multiset{} else Holds(workers[0]) + AllHold(workers[1..])
  }

  lemma {:induction false} AllHoldAfter(workers: seq<Worker>, i: nat, w: Worker, more: multiset<CheckResult>)
    requires i < |workers| && Holds(w) == Holds(workers[i]) + more
    ensures AllHold(workers[i := w]) == AllHold(workers) + more
  {
    if i == 0 {
      assert workers[0 := w][1..] == workers[1..];
    } else {
      assert workers[i := w] == [workers[0]] + workers[1..][i - 1 := w];
      AllHoldAfter(workers[1..], i - 1, w, more);
    }
  }

  lemma StepHolds(w: Worker, c: Choice, batchSize: nat)
    ensures Holds(Step(w, c, batchSize)) == Holds(w) + if c.Receive? then multiset{c.result} else multiset{}
  {
    match c
    case Receive(r) =>
      WrittenSnoc(w.flushed, Flush(w.buffer + [r], true));
      assert multiset(w.buffer + [r]) == multiset(w.buffer) + multiset{r};
    case Tick =>
      WrittenSnoc(w.flushed, Flush(w.buffer, false));
  }

  lemma TakeConserves(s: State, w: nat, batchSize: nat)
    requires Enabled(s, Take(w))
    ensures var s' := Next(s, Take(w), batchSize);
            multiset(s'.queue) + AllHold(s'.workers) == multiset(s.queue) + AllHold(s.workers)
  {
    var r := s.queue[0];
    StepHolds(s.workers[w], Receive(r), batchSize);
    AllHoldAfter(s.workers, w, Step(s.workers[w], Receive(r), batchSize), multiset{r});
    FrontOut(s.queue);
    Moved(multiset{r}, multiset(s.queue[1..]), AllHold(s.workers));
  }

  lemma StepConserves(s: State, ev: Event, batchSize: nat)
    requires Enabled(s, ev)
    ensures var s' := Next(s, ev, batchSize);
            multiset(s'.queue) + AllHold(s'.workers) ==
            multiset(s.queue) + AllHold(s.workers)
            + if ev.Ingest? && ev.accepted then multiset{ev.result} else multiset{}
  {
    match ev
    case Ingest(_, _) =>
    case Take(w) =>
      TakeConserves(s, w, batchSize);
    case TickOf(w) =>
      StepHolds(s.workers[w], Tick, batchSize);
      AllHoldAfter(s.workers, w, Step(s.workers[w], Tick, batchSize), multiset{});
  }

  /** Across ingestion and all workers, what was accepted is queued, buffered or flushed, and the queue
      never exceeds its capacity. */
  lemma {:induction false} Conservation(s: State, evs: seq<Event>, batchSize: nat)
    requires ValidRun(s, evs, batchSize) && |s.queue| <= 50000
    ensures var s' := Run(s, evs, batchSize);
            && multiset(s'.queue) + AllHold(s'.workers) == multiset(s.queue) + AllHold(s.workers) + Accepted(evs)
            && |s'.queue| <= 50000
    decreases |evs|
  {
    if evs != [] {
      StepConserves(s, evs[0], batchSize);
      Conservation(Next(s, evs[0], batchSize), evs[1..], batchSize);
    }
  }

  /** The choices that worker `w` makes in one event, and in a run of the pool. */
  function SeenIn(s: State, ev: Event, w: nat): seq<Choice>
    requires Enabled(s, ev)
  {
    match ev
    case Ingest(_, _) => []
    case Take(v) => if v == w then [Receive(s.queue[0])] else []
    case TickOf(v) => if v == w then [Tick] else []
  }

  function Seen(s: State, evs: seq<Event>, w: nat, batchSize: nat): seq<Choice>
    requires ValidRun(s, evs, batchSize)
    decreases |evs|
  {
    if evs == [] then []
    else SeenIn(s, evs[0], w) + Seen(Next(s, evs[0], batchSize), evs[1..], w, batchSize)
  }

  lemma EventIsChoice(s: State, ev: Event, w: nat, so: seq<Choice>, batchSize: nat)
    requires Enabled(s, ev) && w < |s.workers| && s.workers[w] == After(so, batchSize)
    ensures |Next(s, ev, batchSize).workers| == |s.workers|
    ensures Next(s, ev, batchSize).workers[w] == After(so + SeenIn(s, ev, w), batchSize)
  {
    var now := SeenIn(s, ev, w);
    if now == [] {
      assert so + now == so;
    } else {
      assert (so + now)[..|so|] == so;
    }
  }

  /** Every worker of the pool is a worker on its own with the choices it sees, so what holds of
      `After` holds of it. */
  lemma {:induction false} WorkersRun(s: State, evs: seq<Event>, w: nat, so: seq<Choice>, batchSize: nat)
    requires ValidRun(s, evs, batchSize) && w < |s.workers| && s.workers[w] == After(so, batchSize)
    ensures |Run(s, evs, batchSize).workers| == |s.workers|
    ensures Run(s, evs, batchSize).workers[w] == After(so + Seen(s, evs, w, batchSize), batchSize)
    decreases |evs|
  {
    if evs == [] {
      assert so + Seen(s, evs, w, batchSize) == so;
    } else {
      var s', now := Next(s, evs[0], batchSize), SeenIn(s, evs[0], w);
      EventIsChoice(s, evs[0], w, so, batchSize);
      WorkersRun(s', evs[1..], w, so + now, batchSize);
      Associative(so, now, Seen(s', evs[1..], w, batchSize));
    }
  }

  /** In every run of a pool whose workers start empty, each worker has written or buffers what it took
      from the queue, in order, and its flushes have the sizes and the number stated for one worker. */
  lemma EachWorker(s: State, evs: seq<Event>, w: nat, batchSize: nat)
    requires ValidRun(s, evs, batchSize) && w < |s.workers| && s.workers[w] == Worker([], []) && batchSize >= 1
    ensures |Run(s, evs, batchSize).workers| == |s.workers|
    ensures var worker, seen := Run(s, evs, batchSize).workers[w], Seen(s, evs, w, batchSize);
            && Written(worker.flushed) + worker.buffer == Received(seen)
            && |worker.buffer| < batchSize
            && (forall f :: f in worker.flushed ==>
                  1 <= |f.items| <= batchSize && (f.bySize ==> |f.items| == batchSize))
            && |worker.flushed| <= |Received(seen)| / batchSize + Ticks(seen)
            && worker.buffer == Rest(SinceTick(seen), batchSize)
            && (seen != [] && seen[|seen| - 1].Tick? ==> worker.buffer == [] && Written(worker.flushed) == Received(seen))
  {
    var seen := Seen(s, evs, w, batchSize);
    WorkersRun(s, evs, w, [], batchSize);
    assert [] + seen == seen;
    NothingLost(seen, batchSize);
    FlushSizes(seen, batchSize);
    FlushCount(seen, batchSize);
    BufferIs(seen, batchSize);
    if seen != [] && seen[|seen| - 1].Tick? {
      AfterTick(seen, batchSize);
    }
  }

  // ---------------------------------------------------------------- order

  function AcceptedInOrder(evs: seq<Event>): seq<CheckResult> {
    if evs == [] then []
    else (if evs[0].Ingest? && evs[0].accepted then [evs[0].result] else []) + AcceptedInOrder(evs[1..])
  }

  /** What the workers took from the queue, in the order of taking. */
  function Taken(s: State, evs: seq<Event>, batchSize: nat): seq<CheckResult>
    requires ValidRun(s, evs, batchSize)
    decreases |evs|
  {
    if evs == [] then []
    else (if evs[0].Take? then [s.queue[0]] else []) + Taken(Next(s, evs[0], batchSize), evs[1..], batchSize)
  }

  lemma StepInOrder(s: State, ev: Event, later: seq<CheckResult>, batchSize: nat)
    requires Enabled(s, ev)
    ensures s.queue + ((if ev.Ingest? && ev.accepted then [ev.result] else []) + later) ==
            (if ev.Take? then [s.queue[0]] else []) + (Next(s, ev, batchSize).queue + later)
  {
  }

  /** First in, first out: what was queued and accepted is what the workers took followed by the queue. */
  lemma {:induction false} FirstInFirstOut(s: State, evs: seq<Event>, batchSize: nat)
    requires ValidRun(s, evs, batchSize)
    ensures s.queue + AcceptedInOrder(evs) == Taken(s, evs, batchSize) + Run(s, evs, batchSize).queue
    decreases |evs|
  {
    if evs == [] {
      assert s.queue + [] == [] + s.queue;
    } else {
      var s', rest := Next(s, evs[0], batchSize), evs[1..];
      FirstInFirstOut(s', rest, batchSize);
      StepInOrder(s, evs[0], AcceptedInOrder(rest), batchSize);
      Associative(if evs[0].Take? then [s.queue[0]] else [], Taken(s', rest, batchSize), Run(s, evs, batchSize).queue);
    }
  }

  datatype Reply = Accepted202 | BadRequest400 | NotAllowed405 | Unavailable503

  class Server {
    var dataQueue: seq<CheckResult>

    /** handleIngestion; `payload` is None when the body does not decode. */
    method HandleIngestion(isPost: bool, payload: Option<CheckResult>, ghost workers: seq<Worker>, ghost batchSize: nat)
      returns (reply: Reply)
      modifies this
      ensures isPost && payload.Some? ==>
                && reply == (if |old(dataQueue)| < 50000 then Accepted202 else Unavailable503)
                && dataQueue == old(dataQueue) + (if |old(dataQueue)| < 50000 then [payload.value] else [])
                && var ev := Ingest(payload.value, reply == Accepted202);
                   && Enabled(State(old(dataQueue), workers), ev)
                   && State(dataQueue, workers) == Next(State(old(dataQueue), workers), ev, batchSize)
      ensures !isPost ==> reply == NotAllowed405 && dataQueue == old(dataQueue)
      ensures isPost && payload.None? ==> reply == BadRequest400 && dataQueue == old(dataQueue)
    {
      if !isPost {
        return NotAllowed405;
      }
      if payload.None? {
        return BadRequest400;
      }
      if |dataQueue| < QUEUE_CAPACITY {
        dataQueue := dataQueue + [payload.value];
        reply := Accepted202;
      } else {
        assert dataQueue + [] == dataQueue;
        reply := Unavailable503;
      }
    }
  }
}
