/**
 * The news-event queue as interleaved atomic steps: any number of enqueuing goroutines, one
 * consumer, any number of scanners sharing the per-symbol lock, and a clock that only advances.
 * A step that is not enabled leaves the state as it is.
 */
module NewsQueue {

  /** Rest between news-triggered evaluations of one symbol, in seconds. */
  const DEBOUNCE: int := 60

  /** Between `LoadOrStore` and the channel send, and between a full channel and `Delete`. */
  datatype Enqueuer = Idle | Claimed(sym: string) | Dropping(sym: string)

  datatype Consumer =
    | Waiting
    | Holding(sym: string)               // received, still marked pending
    | Checking(sym: string)              // no longer pending, debounce not yet read
    | Cleared(sym: string, at: int)      // debounce passed at `at`
    | Locked(sym: string, at: int)       // symbol lock held
    | Evaluating(sym: string)            // marked evaluated, lock held

  datatype Scanner = Resting | Scanning(sym: string)

  /** One `markEvaluated`: by the news consumer, with the time its debounce check passed, or by a scan. */
  datatype Mark = Mark(sym: string, time: int, news: bool, checked: int)

  datatype State = State(
    now: int,
    pending: set<string>,
    queue: seq<string>,
    enqueuers: map<nat, Enqueuer>,
    consumer: Consumer,
    busy: set<string>,
    scanners: map<nat, Scanner>,
    lastEval: map<string, int>,
    evals: seq<Mark>)

  datatype Step =
    | Tick(elapsed: nat)
    | Claim(t: nat, sym: string)    // LoadOrStore on the pending map
    | Send(t: nat)                  // non-blocking channel send
    | Drop(t: nat)                  // the default branch's Delete
    | Receive
    | Forget                        // the consumer's Delete
    | CheckDebounce
    | TryLock                       // LoadOrStore on the busy map
    | SkipActive                    // an active signal exists: unlock and return
    | MarkEvaluated
    | Finish                        // evaluation over, or recovered from panic: unlock
    | ScanLock(t: nat, sym: string)
    | ScanMark(t: nat)
    | ScanUnlock(t: nat)

  const INIT: State := State(0, {}, [], map[], Waiting, {}, map[], map[], [])

  function EnqueuerAt(s: State, t: nat): Enqueuer {
    if t in s.enqueuers then s.enqueuers[t] else Idle
  }

  function ScannerAt(s: State, t: nat): Scanner {
    if t in s.scanners then s.scanners[t] else Resting
  }

  function Next(s: State, capacity: nat, step: Step): State {
    match step
    case Tick(d) => s.(now := s.now + d)
    case Claim(t, sym) =>
      if EnqueuerAt(s, t).Idle? && sym !in s.pending
      then s.(pending := s.pending + {sym}, enqueuers := s.enqueuers[t := Claimed(sym)]) else s
    case Send(t) =>
      if !EnqueuerAt(s, t).Claimed? then s
      else if |s.queue| < capacity
      then s.(queue := s.queue + [s.enqueuers[t].sym], enqueuers := s.enqueuers[t := Idle])
      else s.(enqueuers := s.enqueuers[t := Dropping(s.enqueuers[t].sym)])
    case Drop(t) =>
      if !EnqueuerAt(s, t).Dropping? then s
      else s.(pending := s.pending - {s.enqueuers[t].sym}, enqueuers := s.enqueuers[t := Idle])
    case Receive =>
      if s.consumer.Waiting? && s.queue != [] then s.(consumer := Holding(s.queue[0]), queue := s.queue[1..]) else s
    case Forget =>
      if s.consumer.Holding? then s.(pending := s.pending - {s.consumer.sym}, consumer := Checking(s.consumer.sym))
        else s
    case CheckDebounce =>
      if !s.consumer.Checking? then s
      else if s.consumer.sym in s.lastEval && s.now - s.lastEval[s.consumer.sym] < DEBOUNCE then s.(consumer := Waiting)
      else s.(consumer := Cleared(s.consumer.sym, s.now))
    case TryLock =>
      if !s.consumer.Cleared? then s
      else if s.consumer.sym in s.busy then s.(consumer := Waiting)
      else s.(busy := s.busy + {s.consumer.sym}, consumer := Locked(s.consumer.sym, s.consumer.at))
    case SkipActive =>
      if s.consumer.Locked? then s.(busy := s.busy - {s.consumer.sym}, consumer := Waiting) else s
    case MarkEvaluated =>
      if !s.consumer.Locked? then s
      else s.(lastEval := s.lastEval[s.consumer.sym := s.now],
              evals := s.evals + [Mark(s.consumer.sym, s.now, true, s.consumer.at)],
              consumer := Evaluating(s.consumer.sym))
    case Finish =>
      if s.consumer.Evaluating? then s.(busy := s.busy - {s.consumer.sym}, consumer := Waiting) else s
    case ScanLock(t, sym) =>
      if ScannerAt(s, t).Resting? && sym !in s.busy
      then s.(busy := s.busy + {sym}, scanners := s.scanners[t := Scanning(sym)]) else s
    case ScanMark(t) =>
      if ScannerAt(s, t).Scanning?
      then s.(lastEval := s.lastEval[s.scanners[t].sym := s.now],
              evals := s.evals + [Mark(s.scanners[t].sym, s.now, false, s.now)]) else s
    case ScanUnlock(t) =>
      if ScannerAt(s, t).Scanning? then s.(busy := s.busy - {s.scanners[t].sym}, scanners := s.scanners[t := Resting])
        else s
  }

  function Run(capacity: nat, steps: seq<Step>): State {
    if steps == [] then INIT else Next(Run(capacity, steps[..|steps| - 1]), capacity, steps[|steps| - 1])
  }

  /** Headlines concern symbols of the scan universe only. */
  ghost predicate WithinUniverse(steps: seq<Step>, universe: set<string>) {
    forall i | 0 <= i < |steps| && steps[i].Claim? :: steps[i].sym in universe
  }

  // ------------------------------------------------ ownership of pending marks

  datatype Owner = ByEnqueuer(t: nat) | BySlot(i: nat) | ByConsumer

  ghost predicate Owns(s: State, o: Owner, sym: string) {
    match o
    case ByEnqueuer(t) => !EnqueuerAt(s, t).Idle? && EnqueuerAt(s, t).sym == sym
    case BySlot(i) => i < |s.queue| && s.queue[i] == sym
    case ByConsumer => s.consumer == Holding(sym)
  }

  /** Every pending symbol has exactly one owner, and nothing else has any. */
  ghost predicate OwnedOnce(s: State) {
    OwnersPending(s) && OneOwner(s) && PendingOwned(s)
  }

  ghost predicate OwnersPending(s: State) {
    forall o, sym | Owns(s, o, sym) :: sym in s.pending
  }

  ghost predicate OneOwner(s: State) {
    forall o, o', sym | Owns(s, o, sym) && Owns(s, o', sym) :: o == o'
  }

  ghost predicate PendingOwned(s: State) {
    forall sym | sym in s.pending :: exists o :: Owns(s, o, sym)
  }

  /** Where an owner's claim is after one step. */
  ghost function OwnerAfter(s: State, capacity: nat, step: Step, o: Owner): Owner {
    match step
    case Send(t) =>
      if o == ByEnqueuer(t) && EnqueuerAt(s, t).Claimed? && |s.queue| < capacity then BySlot(|s.queue|) else o
    case Receive =>
      if s.consumer.Waiting? && o.BySlot? && o.i == 0 then ByConsumer
      else if s.consumer.Waiting? && o.BySlot? then BySlot(o.i - 1)
      else o
    case _ => o
  }

  /** The same owner before the step; the inverse of `OwnerAfter` for owners that survive it. */
  ghost function OwnerBefore(s: State, capacity: nat, step: Step, o: Owner): Owner {
    match step
    case Send(t) => if o == BySlot(|s.queue|) then ByEnqueuer(t) else o
    case Receive =>
      if !s.consumer.Waiting? || s.queue == [] then o
      else if o == ByConsumer then BySlot(0)
      else if o.BySlot? then BySlot(o.i + 1)
      else o
    case _ => o
  }

  lemma OwnerCameFrom(s: State, capacity: nat, step: Step, o: Owner, sym: string)
    requires Owns(Next(s, capacity, step), o, sym)
    ensures Owns(s, OwnerBefore(s, capacity, step, o), sym)
            || (step.Claim? && step.sym == sym && o == ByEnqueuer(step.t) && sym !in s.pending)
  {
  }

  lemma OwnerGoesTo(s: State, capacity: nat, step: Step, o: Owner, sym: string)
    requires Owns(s, o, sym) && sym in Next(s, capacity, step).pending
    ensures Owns(Next(s, capacity, step), OwnerAfter(s, capacity, step, o), sym)
  {
    match o
    case ByEnqueuer(t) => EnqueuerGoesTo(s, capacity, step, t, sym);
    case BySlot(i) => SlotGoesTo(s, capacity, step, i, sym);
    case ByConsumer =>
  }

  lemma EnqueuerGoesTo(s: State, capacity: nat, step: Step, t: nat, sym: string)
    requires Owns(s, ByEnqueuer(t), sym) && sym in Next(s, capacity, step).pending
    ensures Owns(Next(s, capacity, step), OwnerAfter(s, capacity, step, ByEnqueuer(t)), sym)
  {
  }

  lemma SlotGoesTo(s: State, capacity: nat, step: Step, i: nat, sym: string)
    requires Owns(s, BySlot(i), sym)
    ensures Owns(Next(s, capacity, step), OwnerAfter(s, capacity, step, BySlot(i)), sym)
  {
  }

  /** A mark leaves the pending map only with the owner that takes it away. */
  lemma StaysPending(s: State, capacity: nat, step: Step, sym: string)
    requires sym in s.pending && sym !in Next(s, capacity, step).pending
    ensures step.Drop? ==> Owns(s, ByEnqueuer(step.t), sym) && !Owns(Next(s, capacity, step), ByEnqueuer(step.t), sym)
    ensures step.Forget? ==> Owns(s, ByConsumer, sym) && !Owns(Next(s, capacity, step), ByConsumer, sym)
    ensures step.Drop? || step.Forget?
  {
  }

  lemma NextOwnersPending(s: State, capacity: nat, step: Step)
    requires OwnersPending(s) && OneOwner(s)
    ensures OwnersPending(Next(s, capacity, step))
  {
    var s' := Next(s, capacity, step);
    forall o, sym | Owns(s', o, sym)
      ensures sym in s'.pending
    {
      OwnerCameFrom(s, capacity, step, o, sym);
      ClaimIsPending(s, capacity, step);
      if sym in s.pending && sym !in s'.pending {
        StaysPending(s, capacity, step, sym);
      }
      hide Next, Owns;
    }
  }

  lemma ClaimIsPending(s: State, capacity: nat, step: Step)
    ensures step.Claim? && Owns(Next(s, capacity, step), ByEnqueuer(step.t), step.sym) ==>
              step.sym in Next(s, capacity, step).pending || Owns(s, ByEnqueuer(step.t), step.sym)
  {
  }

  lemma NextOneOwner(s: State, capacity: nat, step: Step)
    requires OwnersPending(s) && OneOwner(s)
    ensures OneOwner(Next(s, capacity, step))
  {
    var s' := Next(s, capacity, step);
    forall o, o', sym | Owns(s', o, sym) && Owns(s', o', sym)
      ensures o == o'
    {
      OwnerCameFrom(s, capacity, step, o, sym);
      OwnerCameFrom(s, capacity, step, o', sym);
      BeforeIsInjective(s, capacity, step, o, o', sym);
      hide Next, Owns, OwnerBefore;
    }
  }

  /** Two owners after the step do not come from one before it. */
  lemma BeforeIsInjective(s: State, capacity: nat, step: Step, o: Owner, o': Owner, sym: string)
    requires Owns(Next(s, capacity, step), o, sym) && Owns(Next(s, capacity, step), o', sym)
    requires OwnerBefore(s, capacity, step, o) == OwnerBefore(s, capacity, step, o')
    ensures o == o'
  {
  }

  lemma NextPendingOwned(s: State, capacity: nat, step: Step)
    requires OwnedOnce(s)
    ensures PendingOwned(Next(s, capacity, step))
  {
    var s' := Next(s, capacity, step);
    forall sym | sym in s'.pending
      ensures exists o :: Owns(s', o, sym)
    {
      if sym in s.pending {
        var o :| Owns(s, o, sym);
        OwnerGoesTo(s, capacity, step, o, sym);
      } else {
        assert Owns(s', ByEnqueuer(step.t), sym);
      }
      hide OwnedOnce, OwnerAfter;
    }
  }

  lemma NextOwnedOnce(s: State, capacity: nat, step: Step)
    requires OwnedOnce(s)
    ensures OwnedOnce(Next(s, capacity, step))
  {
    NextPendingOwned(s, capacity, step);
    hide OwnersPending, OneOwner, PendingOwned, Next;
    NextOwnersPending(s, capacity, step);
    NextOneOwner(s, capacity, step);
  }

  /** Under every interleaving each pending symbol is owned by exactly one enqueuer, queue slot or the consumer. */
  lemma {:induction false} RunOwnedOnce(capacity: nat, steps: seq<Step>)
    ensures OwnedOnce(Run(capacity, steps))
    decreases |steps|
  {
    if steps != [] {
      RunOwnedOnce(capacity, steps[..|steps| - 1]);
      NextOwnedOnce(Run(capacity, steps[..|steps| - 1]), capacity, steps[|steps| - 1]);
    }
  }

  // ----------------------------------------------------- the queue never fills

  ghost predicate Distinct(q: seq<string>) {
    forall i, j | 0 <= i < j < |q| :: q[i] != q[j]
  }

  lemma {:induction false} DistinctFits(q: seq<string>, u: set<string>)
    requires Distinct(q) && forall x | x in q :: x in u
    ensures |q| <= |u|
    decreases |q|
  {
    if q != [] {
      var init, last := q[..|q| - 1], q[|q| - 1];
      DistinctFits(init, u - {last});
    }
  }

  lemma OnlyClaimsAdd(s: State, capacity: nat, step: Step)
    ensures Next(s, capacity, step).pending <= if step.Claim? then s.pending + {step.sym} else s.pending
  {
  }

  lemma {:induction false} PendingWithinUniverse(capacity: nat, steps: seq<Step>, universe: set<string>)
    requires WithinUniverse(steps, universe)
    ensures Run(capacity, steps).pending <= universe
    decreases |steps|
  {
    if steps != [] {
      PendingWithinUniverse(capacity, steps[..|steps| - 1], universe);
      OnlyClaimsAdd(Run(capacity, steps[..|steps| - 1]), capacity, steps[|steps| - 1]);
      hide Next;
    }
  }

  /** The queue never holds a symbol twice, nor one an enqueuer is about to send. */
  lemma QueueDistinct(s: State, t: nat)
    requires OwnedOnce(s)
    ensures Distinct(s.queue)
    ensures !EnqueuerAt(s, t).Idle? ==> EnqueuerAt(s, t).sym !in s.queue
  {
    forall i, j | 0 <= i < j < |s.queue|
      ensures s.queue[i] != s.queue[j]
    {
      assert Owns(s, BySlot(i), s.queue[i]) && Owns(s, BySlot(j), s.queue[j]);
    }
    if !EnqueuerAt(s, t).Idle? && EnqueuerAt(s, t).sym in s.queue {
      var i :| 0 <= i < |s.queue| && s.queue[i] == EnqueuerAt(s, t).sym;
      assert Owns(s, BySlot(i), s.queue[i]) && Owns(s, ByEnqueuer(t), s.queue[i]);
    }
  }

  lemma SendFindsRoom(s: State, t: nat, universe: set<string>)
    requires OwnedOnce(s) && s.pending <= universe && EnqueuerAt(s, t).Claimed?
    ensures |s.queue| < |universe|
  {
    QueueDistinct(s, t);
    var all := s.queue + [EnqueuerAt(s, t).sym];
    forall x | x in all
      ensures x in universe
    {
      if x in s.queue {
        var i :| 0 <= i < |s.queue| && s.queue[i] == x;
        assert Owns(s, BySlot(i), x);
      } else {
        assert Owns(s, ByEnqueuer(t), x);
      }
    }
    DistinctFits(all, universe);
  }

  ghost predicate SomeoneDrops(s: State) {
    exists t: nat :: EnqueuerAt(s, t).Dropping?
  }

  lemma {:induction false} NoDropsWhenUniverseFits(capacity: nat, steps: seq<Step>, universe: set<string>)
    requires WithinUniverse(steps, universe) && |universe| <= capacity
    ensures !SomeoneDrops(Run(capacity, steps))
    decreases |steps|
  {
    if steps != [] {
      var before, last := steps[..|steps| - 1], steps[|steps| - 1];
      var s := Run(capacity, before);
      NoDropsWhenUniverseFits(capacity, before, universe);
      if SomeoneDrops(Next(s, capacity, last)) {
        var t: nat :| EnqueuerAt(Next(s, capacity, last), t).Dropping?;
        assert !EnqueuerAt(s, t).Dropping?;
        assert last == Send(t) && EnqueuerAt(s, t).Claimed? && |s.queue| >= capacity;
        RunOwnedOnce(capacity, before);
        PendingWithinUniverse(capacity, before, universe);
        SendFindsRoom(s, t, universe);
        assert false;
      }
    }
  }

  /** One enqueuer sends the symbols in turn while the consumer sleeps. */
  function Flood(syms: seq<string>): seq<Step> {
    if syms == [] then [] else Flood(syms[..|syms| - 1]) + [Claim(0, syms[|syms| - 1]), Send(0)]
  }

  /** Exactly the symbols sent wait in the queue, and the enqueuer is free again. */
  ghost predicate Flooded(s: State, syms: seq<string>) {
    s.queue == syms && s.pending == (set x | x in syms) && EnqueuerAt(s, 0).Idle?
  }

  lemma FloodOneMore(s: State, capacity: nat, init: seq<string>, sym: string)
    requires Flooded(s, init) && sym !in init && |init| < capacity
    ensures Flooded(Next(Next(s, capacity, Claim(0, sym)), capacity, Send(0)), init + [sym])
  {
    var s1 := Next(s, capacity, Claim(0, sym));
    assert s1.pending == (set x | x in init + [sym]);
    assert EnqueuerAt(s1, 0) == Claimed(sym) && s1.queue == init;
  }

  lemma FloodStep(syms: seq<string>)
    requires syms != []
    ensures Flood(syms) == Flood(syms[..|syms| - 1]) + [Claim(0, syms[|syms| - 1]), Send(0)]
  {
  }

  lemma {:induction false} FloodFills(capacity: nat, syms: seq<string>, universe: set<string>)
    requires Distinct(syms) && |syms| <= capacity && forall x | x in syms :: x in universe
    ensures WithinUniverse(Flood(syms), universe)
    ensures Flooded(Run(capacity, Flood(syms)), syms)
    decreases |syms|
  {
    hide *;
    if syms == [] {
      NothingFlooded(capacity, universe);
    } else {
      var init, last := syms[..|syms| - 1], syms[|syms| - 1];
      LastIsNew(syms);
      FloodFills(capacity, init, universe);
      SendOne(capacity, Flood(init), last);
      FloodStep(syms);
      FloodOneMore(Run(capacity, Flood(init)), capacity, init, last);
      OneMoreWithin(Flood(init), last, universe);
    }
  }

  lemma NothingFlooded(capacity: nat, universe: set<string>)
    ensures WithinUniverse(Flood([]), universe) && Flooded(Run(capacity, Flood([])), [])
  {
  }

  lemma LastIsNew(syms: seq<string>)
    requires Distinct(syms) && syms != []
    ensures var init, last := syms[..|syms| - 1], syms[|syms| - 1];
            syms == init + [last] && last !in init && Distinct(init)
  {
  }

  lemma OneMoreWithin(steps: seq<Step>, sym: string, universe: set<string>)
    requires WithinUniverse(steps, universe) && sym in universe
    ensures WithinUniverse(steps + [Claim(0, sym), Send(0)], universe)
  {
  }

  /** A claim and a send appended to a run. */
  lemma SendOne(capacity: nat, steps: seq<Step>, sym: string)
    ensures Run(capacity, steps + [Claim(0, sym), Send(0)]) ==
            Next(Next(Run(capacity, steps), capacity, Claim(0, sym)), capacity, Send(0))
  {
    var all := steps + [Claim(0, sym), Send(0)];
    assert all[..|all| - 1] == steps + [Claim(0, sym)];
    assert (steps + [Claim(0, sym)])[..|steps|] == steps;
  }

  lemma {:induction false} Enumerate(u: set<string>) returns (syms: seq<string>)
    ensures Distinct(syms) && |syms| == |u| && forall x :: x in syms <==> x in u
    decreases |u|
  {
    if u == {} {
      syms := [];
    } else {
      var x :| x in u;
      var rest := Enumerate(u - {x});
      syms := rest + [x];
    }
  }

  lemma OverflowReachable(capacity: nat, universe: set<string>)
    requires |universe| > capacity
    ensures exists steps :: WithinUniverse(steps, universe) && SomeoneDrops(Run(capacity, steps))
  {
    var syms := Enumerate(universe);
    var first, extra := syms[..capacity], syms[capacity];
    FloodFills(capacity, first, universe);
    SendOne(capacity, Flood(first), extra);
    var steps := Flood(first) + [Claim(0, extra), Send(0)];
    assert extra in syms && extra !in first;
    hide Run, Flood;
    SendOverflows(Run(capacity, Flood(first)), capacity, first, extra);
    assert WithinUniverse(steps, universe) && SomeoneDrops(Run(capacity, steps));
  }

  lemma SendOverflows(s: State, capacity: nat, syms: seq<string>, extra: string)
    requires Flooded(s, syms) && |syms| == capacity && extra !in syms
    ensures SomeoneDrops(Next(Next(s, capacity, Claim(0, extra)), capacity, Send(0)))
  {
    var s1 := Next(s, capacity, Claim(0, extra));
    assert EnqueuerAt(s1, 0) == Claimed(extra);
    assert EnqueuerAt(Next(s1, capacity, Send(0)), 0).Dropping?;
  }

  /** The explicit queue-full drop can happen under some interleaving exactly when the universe outgrows the queue. */
  lemma DropReachableIff(capacity: nat, universe: set<string>)
    ensures (exists steps :: WithinUniverse(steps, universe) && SomeoneDrops(Run(capacity, steps)))
            <==> |universe| > capacity
  {
    if |universe| > capacity {
      OverflowReachable(capacity, universe);
    } else {
      forall steps | WithinUniverse(steps, universe)
        ensures !SomeoneDrops(Run(capacity, steps))
      {
        NoDropsWhenUniverseFits(capacity, steps, universe);
      }
    }
  }

  // ---------------------------------------------------------- the symbol lock

  datatype Holder = ByScanner(t: nat) | ByNews

  ghost predicate Holds(s: State, h: Holder, sym: string) {
    match h
    case ByScanner(t) => ScannerAt(s, t) == Scanning(sym)
    case ByNews => (s.consumer.Locked? || s.consumer.Evaluating?) && s.consumer.sym == sym
  }

  /** The busy map is exactly the set of locked symbols, each with one holder. */
  ghost predicate LockedOnce(s: State) {
    HoldersBusy(s) && OneHolder(s) && BusyHeld(s)
  }

  ghost predicate HoldersBusy(s: State) {
    forall h, sym | Holds(s, h, sym) :: sym in s.busy
  }

  ghost predicate OneHolder(s: State) {
    forall h, h', sym | Holds(s, h, sym) && Holds(s, h', sym) :: h == h'
  }

  ghost predicate BusyHeld(s: State) {
    forall sym | sym in s.busy :: exists h :: Holds(s, h, sym)
  }

  lemma HolderCameFrom(s: State, capacity: nat, step: Step, h: Holder, sym: string)
    requires Holds(Next(s, capacity, step), h, sym)
    ensures Holds(s, h, sym)
            || (sym !in s.busy && ((step.ScanLock? && h == ByScanner(step.t)) || (step.TryLock? && h == ByNews)))
  {
  }

  lemma NextHoldersBusy(s: State, capacity: nat, step: Step)
    requires HoldersBusy(s) && OneHolder(s)
    ensures HoldersBusy(Next(s, capacity, step))
  {
    var s' := Next(s, capacity, step);
    forall h, sym | Holds(s', h, sym)
      ensures sym in s'.busy
    {
      HolderCameFrom(s, capacity, step, h, sym);
      if step.ScanUnlock? && ScannerAt(s, step.t).Scanning? {
        assert Holds(s, ByScanner(step.t), ScannerAt(s, step.t).sym);
      } else if (step.SkipActive? && s.consumer.Locked?) || (step.Finish? && s.consumer.Evaluating?) {
        assert Holds(s, ByNews, s.consumer.sym);
      }
    }
  }

  lemma NextOneHolder(s: State, capacity: nat, step: Step)
    requires HoldersBusy(s) && OneHolder(s)
    ensures OneHolder(Next(s, capacity, step))
  {
    var s' := Next(s, capacity, step);
    forall h, h', sym | Holds(s', h, sym) && Holds(s', h', sym)
      ensures h == h'
    {
      HolderCameFrom(s, capacity, step, h, sym);
      HolderCameFrom(s, capacity, step, h', sym);
      hide Next, Holds;
    }
  }

  lemma NextBusyHeld(s: State, capacity: nat, step: Step)
    requires BusyHeld(s)
    ensures BusyHeld(Next(s, capacity, step))
  {
    var s' := Next(s, capacity, step);
    forall sym | sym in s'.busy
      ensures exists h :: Holds(s', h, sym)
    {
      if sym in s.busy {
        var h :| Holds(s, h, sym);
        assert Holds(s', h, sym);
      } else {
        assert Holds(s', if step.TryLock? then ByNews else ByScanner(step.t), sym);
      }
    }
  }

  lemma NextLockedOnce(s: State, capacity: nat, step: Step)
    requires LockedOnce(s)
    ensures LockedOnce(Next(s, capacity, step))
  {
    hide HoldersBusy, OneHolder, BusyHeld, Next;
    NextHoldersBusy(s, capacity, step);
    NextOneHolder(s, capacity, step);
    NextBusyHeld(s, capacity, step);
  }

  /** Under every interleaving of news and scans, a symbol has at most one guarded evaluation at a time. */
  lemma {:induction false} RunLockedOnce(capacity: nat, steps: seq<Step>)
    ensures LockedOnce(Run(capacity, steps))
    decreases |steps|
  {
    if steps != [] {
      RunLockedOnce(capacity, steps[..|steps| - 1]);
      NextLockedOnce(Run(capacity, steps[..|steps| - 1]), capacity, steps[|steps| - 1]);
    }
  }

  // -------------------------------------------------------------- the debounce

  /** The symbol rested the debounce between the two evaluations. */
  predicate Rests(a: Mark, b: Mark) {
    b.time - a.time >= DEBOUNCE
  }

  /** `a` is a scan marked no earlier than the debounce check of the news evaluation `b`. */
  predicate SlippedIn(a: Mark, b: Mark) {
    !a.news && a.time >= b.checked
  }

  /** What the check promises against an earlier mark, for an evaluation that starts at or after `at`. */
  predicate ClearOf(a: Mark, at: int) {
    at - a.time >= DEBOUNCE || (!a.news && a.time >= at)
  }

  ghost predicate Debounced(s: State) {
    && (forall sym | sym in s.lastEval :: s.lastEval[sym] <= s.now)
    && (forall i | 0 <= i < |s.evals| ::
          s.evals[i].sym in s.lastEval && s.evals[i].time <= s.lastEval[s.evals[i].sym])
    && (forall i, j | 0 <= i < j < |s.evals| && s.evals[i].sym == s.evals[j].sym && s.evals[j].news ::
          s.evals[j].checked <= s.evals[j].time && ClearOf(s.evals[i], s.evals[j].checked))
    && (s.consumer.Cleared? || s.consumer.Locked? ==>
          s.consumer.at <= s.now &&
          forall i | 0 <= i < |s.evals| && s.evals[i].sym == s.consumer.sym :: ClearOf(s.evals[i], s.consumer.at))
  }

  /** A scan may mark any time; a news mark needs the promise its check gave. */
  lemma AddMark(s: State, m: Mark, s': State)
    requires Debounced(s) && m.time == s.now == s'.now
    requires s'.evals == s.evals + [m] && s'.lastEval == s.lastEval[m.sym := s.now]
    requires if m.news then s'.consumer.Evaluating? && s.consumer == Locked(m.sym, m.checked)
             else s'.consumer == s.consumer
    ensures Debounced(s')
  {
  }

  /** Where a check's promise comes from: it was there before, or the debounce is passed at this moment. */
  ghost predicate PromiseKept(s: State, s': State) {
    s'.consumer.Cleared? || s'.consumer.Locked? ==>
      var sym, at := s'.consumer.sym, s'.consumer.at;
      || ((s.consumer.Cleared? || s.consumer.Locked?) && s.consumer.sym == sym && s.consumer.at == at)
      || (at == s.now && (sym in s.lastEval ==> s.now - s.lastEval[sym] >= DEBOUNCE))
  }

  lemma QuietStep(s: State, capacity: nat, step: Step)
    requires step.MarkEvaluated? ==> !s.consumer.Locked?
    requires step.ScanMark? ==> !ScannerAt(s, step.t).Scanning?
    ensures var s' := Next(s, capacity, step);
            s'.evals == s.evals && s'.lastEval == s.lastEval && s'.now >= s.now
  {
  }

  /** Only its own steps move the consumer. */
  lemma PromiseMoves(s: State, capacity: nat, step: Step)
    ensures PromiseKept(s, Next(s, capacity, step))
  {
    if step.CheckDebounce? || step.TryLock? {
      hide ScannerAt, EnqueuerAt;
    } else {
      ConsumerStays(s, capacity, step);
      hide Next;
    }
  }

  lemma ConsumerStays(s: State, capacity: nat, step: Step)
    requires !step.CheckDebounce? && !step.TryLock?
    ensures var s' := Next(s, capacity, step);
            s'.consumer == s.consumer || !(s'.consumer.Cleared? || s'.consumer.Locked?)
  {
  }

  lemma QuietDebounced(s: State, s': State)
    requires Debounced(s) && PromiseKept(s, s')
    requires s'.evals == s.evals && s'.lastEval == s.lastEval && s'.now >= s.now
    ensures Debounced(s')
  {
  }

  lemma NextDebounced(s: State, capacity: nat, step: Step)
    requires Debounced(s)
    ensures Debounced(Next(s, capacity, step))
  {
    hide Debounced, PromiseKept;
    var s' := Next(s, capacity, step);
    if step.MarkEvaluated? && s.consumer.Locked? {
      AddMark(s, Mark(s.consumer.sym, s.now, true, s.consumer.at), s');
    } else if step.ScanMark? && ScannerAt(s, step.t).Scanning? {
      AddMark(s, Mark(s.scanners[step.t].sym, s.now, false, s.now), s');
    } else {
      QuietStep(s, capacity, step);
      PromiseMoves(s, capacity, step);
      QuietDebounced(s, s');
    }
  }

  lemma {:induction false} RunDebounced(capacity: nat, steps: seq<Step>)
    ensures Debounced(Run(capacity, steps))
    decreases |steps|
  {
    if steps != [] {
      RunDebounced(capacity, steps[..|steps| - 1]);
      NextDebounced(Run(capacity, steps[..|steps| - 1]), capacity, steps[|steps| - 1]);
    }
  }

  /**
   * A news evaluation has rested the debounce since every earlier evaluation of its symbol, by news
   * or by scan, unless a scan slipped in at or after its check; and when it starts within the debounce
   * of its check, exactly unless one did.
   */
  lemma RestKeptIff(capacity: nat, steps: seq<Step>, i: nat, j: nat)
    requires i < j < |Run(capacity, steps).evals|
    requires Run(capacity, steps).evals[i].sym == Run(capacity, steps).evals[j].sym
             && Run(capacity, steps).evals[j].news
    ensures var a, b := Run(capacity, steps).evals[i], Run(capacity, steps).evals[j];
            && (Rests(a, b) || SlippedIn(a, b))
            && (b.time - b.checked < DEBOUNCE ==> (Rests(a, b) <==> !SlippedIn(a, b)))
  {
    RunDebounced(capacity, steps);
  }

  /**
   * Two news-triggered evaluations of one symbol are at least the debounce apart, even though the
   * check is read before the lock is taken and scanners mark the same symbol in between.
   */
  lemma NewsEvaluationsSpaced(capacity: nat, steps: seq<Step>, i: nat, j: nat)
    requires i < j < |Run(capacity, steps).evals|
             && Run(capacity, steps).evals[i].sym == Run(capacity, steps).evals[j].sym
    requires Run(capacity, steps).evals[i].news && Run(capacity, steps).evals[j].news
    ensures Rests(Run(capacity, steps).evals[i], Run(capacity, steps).evals[j])
  {
    RestKeptIff(capacity, steps, i, j);
  }

  /** A scan's evaluation and a news evaluation of the same symbol, in the same instant. */
  ghost predicate ScanThenNews(s: State) {
    s.evals == [Mark("A", 0, false, 0), Mark("A", 0, true, 0)]
  }

  /** A scan does slip in: a news evaluation of the same symbol starts in the very same instant. */
  lemma ScanInsideDebounce()
    ensures exists steps :: ScanThenNews(Run(1, steps))
  {
    var p5 := [Claim(0, "A"), Send(0), Receive, Forget, CheckDebounce];
    var p6 := p5 + [ScanLock(1, "A")];
    var p7 := p6 + [ScanMark(1)];
    var p8 := p7 + [ScanUnlock(1)];
    var p9 := p8 + [TryLock];
    ClearedInFive();
    RunStep(1, p5, ScanLock(1, "A"));
    RunStep(1, p6, ScanMark(1));
    RunStep(1, p7, ScanUnlock(1));
    RunStep(1, p8, TryLock);
    RunStep(1, p9, MarkEvaluated);
    hide *;
    ScanPasses(Run(1, p5));
    NewsFollows(Run(1, p8));
    assert ScanThenNews(Run(1, p9 + [MarkEvaluated]));
  }

  lemma ScanPasses(s: State)
    requires s.consumer == Cleared("A", 0) && s.busy == {} && s.scanners == map[] && s.now == 0 && s.evals == []
    ensures var s3 := Next(Next(Next(s, 1, ScanLock(1, "A")), 1, ScanMark(1)), 1, ScanUnlock(1));
            s3.busy == {} && s3.consumer == Cleared("A", 0) && s3.now == 0 && s3.evals == [Mark("A", 0, false, 0)]
  {
    var s1 := Next(s, 1, ScanLock(1, "A"));
    assert s1.busy == {"A"} && ScannerAt(s1, 1) == Scanning("A");
  }

  lemma NewsFollows(s: State)
    requires s.consumer == Cleared("A", 0) && s.busy == {} && s.now == 0
    requires s.evals == [Mark("A", 0, false, 0)]
    ensures ScanThenNews(Next(Next(s, 1, TryLock), 1, MarkEvaluated))
  {
    assert Next(s, 1, TryLock).consumer == Locked("A", 0);
  }

  lemma RunStep(capacity: nat, steps: seq<Step>, step: Step)
    ensures Run(capacity, steps + [step]) == Next(Run(capacity, steps), capacity, step)
  {
    assert (steps + [step])[..|steps|] == steps;
  }

  /** One headline, taken through the queue up to a passed debounce. */
  lemma ClearedInFive()
    ensures var s := Run(1, [Claim(0, "A"), Send(0), Receive, Forget, CheckDebounce]);
            s.consumer == Cleared("A", 0) && s.busy == {} && s.now == 0 && s.scanners == map[] && s.evals == []
  {
    var p2 := [Claim(0, "A"), Send(0)];
    var p3, p4 := p2 + [Receive], p2 + [Receive, Forget];
    assert p3 + [Forget] == p4 && p4 + [CheckDebounce] == [Claim(0, "A"), Send(0), Receive, Forget, CheckDebounce];
    assert [] + p2 == p2;
    assert Run(1, []) == INIT;
    hide Run, Next, EnqueuerAt;
    SendOne(1, [], "A");
    RunStep(1, p2, Receive);
    RunStep(1, p3, Forget);
    RunStep(1, p4, CheckDebounce);
    SentFirst();
    TakenThrough(Run(1, p2));
  }

  ghost predicate Waits(s: State) {
    && s.queue == ["A"] && s.consumer.Waiting? && s.lastEval == map[]
    && s.busy == {} && s.now == 0 && s.scanners == map[] && s.evals == []
  }

  lemma SentFirst()
    ensures Waits(Next(Next(INIT, 1, Claim(0, "A")), 1, Send(0)))
  {
    var s1 := Next(INIT, 1, Claim(0, "A"));
    assert EnqueuerAt(s1, 0) == Claimed("A") && s1.queue == [];
  }

  lemma TakenThrough(s: State)
    requires Waits(s)
    ensures var r := Next(Next(Next(s, 1, Receive), 1, Forget), 1, CheckDebounce);
            r.consumer == Cleared("A", 0) && r.busy == {} && r.now == 0 && r.scanners == map[] && r.evals == []
  {
    assert Next(s, 1, Receive).consumer == Holding("A");
  }

  // ------------------------------------------------- exactly when an evaluation starts

  /** The last time noted for a symbol is that of some evaluation, none of which is later. */
  ghost predicate LastIsMark(s: State) {
    forall sym | sym in s.lastEval ::
      exists i | 0 <= i < |s.evals| :: s.evals[i].sym == sym && s.evals[i].time == s.lastEval[sym]
  }

  lemma NextLastIsMark(s: State, capacity: nat, step: Step)
    requires LastIsMark(s)
    ensures LastIsMark(Next(s, capacity, step))
  {
    var s' := Next(s, capacity, step);
    forall sym | sym in s'.lastEval
      ensures exists i | 0 <= i < |s'.evals| :: s'.evals[i].sym == sym && s'.evals[i].time == s'.lastEval[sym]
    {
      NewMark(s, capacity, step, sym);
      if s'.evals == s.evals || (sym in s.lastEval && s'.lastEval[sym] == s.lastEval[sym]) {
        var i :| 0 <= i < |s.evals| && s.evals[i].sym == sym && s.evals[i].time == s.lastEval[sym];
        assert s'.evals[i] == s.evals[i];
      } else {
        assert s'.evals[|s.evals|].sym == sym;
      }
      hide Next;
    }
  }

  lemma NewMark(s: State, capacity: nat, step: Step, sym: string)
    requires sym in Next(s, capacity, step).lastEval
    ensures var s' := Next(s, capacity, step);
            && s.evals <= s'.evals
            && ((sym in s.lastEval && s'.lastEval[sym] == s.lastEval[sym])
                || (|s'.evals| == |s.evals| + 1 && s'.evals[|s.evals|].sym == sym
                    && s'.evals[|s.evals|].time == s'.lastEval[sym]))
  {
  }

  lemma {:induction false} RunLastIsMark(capacity: nat, steps: seq<Step>)
    ensures LastIsMark(Run(capacity, steps))
    decreases |steps|
  {
    if steps != [] {
      RunLastIsMark(capacity, steps[..|steps| - 1]);
      hide LastIsMark, Next;
      NextLastIsMark(Run(capacity, steps[..|steps| - 1]), capacity, steps[|steps| - 1]);
    }
  }

  /** In every reachable state the debounce lets a symbol through exactly when each evaluation of it is a minute old. */
  lemma ClearedIff(capacity: nat, steps: seq<Step>)
    requires Run(capacity, steps).consumer.Checking?
    ensures var s := Run(capacity, steps); var sym, s' := s.consumer.sym, Next(s, capacity, CheckDebounce);
            && (s'.consumer == Cleared(sym, s.now) <==>
                  forall i | 0 <= i < |s.evals| && s.evals[i].sym == sym :: s.now - s.evals[i].time >= 60)
            && (s'.consumer != Cleared(sym, s.now) ==> s'.consumer == Waiting)
  {
    RunLastIsMark(capacity, steps);
    RunDebounced(capacity, steps);
    var s := Run(capacity, steps);
    ClearedWhen(s, capacity);
    hide *;
  }

  lemma ClearedWhen(s: State, capacity: nat)
    requires LastIsMark(s) && Debounced(s) && s.consumer.Checking?
    ensures var sym, s' := s.consumer.sym, Next(s, capacity, CheckDebounce);
            && (s'.consumer == Cleared(sym, s.now) <==>
                  forall i | 0 <= i < |s.evals| && s.evals[i].sym == sym :: s.now - s.evals[i].time >= 60)
            && (s'.consumer != Cleared(sym, s.now) ==> s'.consumer == Waiting)
  {
    var sym := s.consumer.sym;
    if sym in s.lastEval {
      var i :| 0 <= i < |s.evals| && s.evals[i].sym == sym && s.evals[i].time == s.lastEval[sym];
    }
  }

  /** And the symbol lock is taken exactly when nobody holds it. */
  lemma LockedIff(capacity: nat, steps: seq<Step>)
    requires Run(capacity, steps).consumer.Cleared?
    ensures var s := Run(capacity, steps); var sym, s' := s.consumer.sym, Next(s, capacity, TryLock);
            && (s'.consumer == Locked(sym, s.consumer.at) <==> !exists h :: Holds(s, h, sym))
            && (s'.consumer != Locked(sym, s.consumer.at) ==> s'.consumer == Waiting)
  {
    RunLockedOnce(capacity, steps);
    LockedWhen(Run(capacity, steps), capacity);
    hide *;
  }

  lemma LockedWhen(s: State, capacity: nat)
    requires LockedOnce(s) && s.consumer.Cleared?
    ensures var sym, s' := s.consumer.sym, Next(s, capacity, TryLock);
            && (s'.consumer == Locked(sym, s.consumer.at) <==> !exists h :: Holds(s, h, sym))
            && (s'.consumer != Locked(sym, s.consumer.at) ==> s'.consumer == Waiting)
  {
    var sym := s.consumer.sym;
    assert sym in s.busy <==> exists h :: Holds(s, h, sym);
  }
}
