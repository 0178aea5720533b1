/**
 * Handlers that close one symbol's signal at the same time - every tick on its own goroutine, the
 * reconciler, an operator - as interleaved atomic steps. Each works on its own copy of the row, closes
 * the row in the store, and then the position in the engine, which knows only the symbol.
 */
module ExitRace {
  import opened Common

  datatype Exit = Exit(price: real, reason: string)

  /** A signal of the symbol as the store keeps it; the latest is the last. */
  datatype Row = Row(active: bool, exit: Option<Exit>)

  datatype Handler =
    | Idle
    | Loaded(id: nat)               // holds a copy that was active when it was read
    | Stored(id: nat, exit: Exit)   // has closed the row, not yet the position

  /** The position of signal `owner` closed by a handler of signal `by`. */
  datatype Closing = Closing(owner: nat, closer: nat, exit: Exit)

  datatype State = State(rows: seq<Row>, position: Option<nat>, handlers: seq<Handler>, closings: seq<Closing>)

  datatype Step =
    | NextSignal                          // evaluated only without an active signal and without a position
    | Load(t: nat)
    | GiveUp(t: nat)                      // the copy crosses no level
    | Persist(t: nat, exit: Exit)         // UPDATE ... WHERE id, whatever the row's status by now
    | Release(t: nat, triggered: bool)    // the engine's close, by symbol; its own levels may not trigger

  function Init(n: nat): State {
    State([], None, seq(n, _ => Idle), [])
  }

  predicate LastActive(s: State) {
    s.rows != [] && s.rows[|s.rows| - 1].active
  }

  function At(s: State, t: nat): Handler {
    if t < |s.handlers| then s.handlers[t] else Idle
  }

  function Next(s: State, step: Step): State {
    match step
    case NextSignal =>
      if LastActive(s) || s.position.Some? then s
      else s.(rows := s.rows + [Row(true, None)], position := Some(|s.rows|))
    case Load(t) =>
      if t < |s.handlers| && At(s, t).Idle? && LastActive(s)
      then s.(handlers := s.handlers[t := Loaded(|s.rows| - 1)]) else s
    case GiveUp(t) => if At(s, t).Loaded? then s.(handlers := s.handlers[t := Idle]) else s
    case Persist(t, exit) =>
      if At(s, t).Loaded? && At(s, t).id < |s.rows|
      then s.(rows := s.rows[At(s, t).id := Row(false, Some(exit))],
              handlers := s.handlers[t := Stored(At(s, t).id, exit)])
      else s
    case Release(t, triggered) =>
      if !At(s, t).Stored? then s
      else if triggered && s.position.Some?
      then s.(position := None, handlers := s.handlers[t := Idle],
              closings := s.closings + [Closing(s.position.value, At(s, t).id, At(s, t).exit)])
      else s.(handlers := s.handlers[t := Idle])
  }

  function RunFrom(s: State, steps: seq<Step>): State
    decreases |steps|
  {
    if steps == [] then s else RunFrom(Next(s, steps[0]), steps[1..])
  }

  // --------------------------------------------------------------- at most once

  /** The open position is the latest signal's, and has not been closed before. */
  ghost predicate OpenOnce(s: State) {
    && (s.position.Some? ==> s.position.value == |s.rows| - 1)
    && (forall i | 0 <= i < |s.closings| :: s.closings[i].owner < |s.rows| && s.position != Some(s.closings[i].owner))
    && (forall i, j | 0 <= i < j < |s.closings| :: s.closings[i].owner != s.closings[j].owner)
  }

  lemma {:induction false} RunOpensOnce(s: State, steps: seq<Step>)
    requires OpenOnce(s)
    ensures OpenOnce(RunFrom(s, steps))
    decreases |steps|
  {
    if steps != [] {
      assert OpenOnce(Next(s, steps[0]));
      hide OpenOnce, Next;
      RunOpensOnce(Next(s, steps[0]), steps[1..]);
    }
  }

  /** However many handlers race, no position is ever closed twice. */
  lemma ClosedAtMostOnce(n: nat, steps: seq<Step>, i: nat, j: nat)
    requires i < j < |RunFrom(Init(n), steps).closings|
    ensures RunFrom(Init(n), steps).closings[i].owner != RunFrom(Init(n), steps).closings[j].owner
  {
    RunOpensOnce(Init(n), steps);
  }

  // ---------------------------------------------------------- the right position

  /** Every position was closed by a handler of its own signal. */
  ghost predicate OwnCloses(s: State) {
    forall c | c in s.closings :: c.owner == c.closer
  }

  /** The row of every closed position records the exit it was closed at. */
  ghost predicate Reported(s: State) {
    forall c | c in s.closings :: c.owner < |s.rows| && s.rows[c.owner] == Row(false, Some(c.exit))
  }

  ghost predicate Faithful(s: State) {
    OwnCloses(s) && Reported(s)
  }

  /**
   * The handler writes to a row that is still active. A status guard in the update is not enough for
   * this: the handler must also give up, and leave the position alone, when its write touches no row.
   */
  predicate Fresh(s: State, step: Step) {
    step.Persist? && At(s, step.t).Loaded? && At(s, step.t).id < |s.rows| ==> s.rows[At(s, step.t).id].active
  }

  predicate FreshRun(s: State, steps: seq<Step>)
    decreases |steps|
  {
    steps == [] || (Fresh(s, steps[0]) && FreshRun(Next(s, steps[0]), steps[1..]))
  }

  /** Only the latest row can be active, and then its position is open. */
  ghost predicate LatestOnly(s: State) {
    && (forall k | 0 <= k < |s.rows| - 1 :: !s.rows[k].active)
    && (LastActive(s) ==> s.position == Some(|s.rows| - 1))
  }

  /** A handler between its two writes has closed the latest row, whose position is still open. */
  ghost predicate Midway(s: State, t: nat) {
    At(s, t).Stored? ==>
      && At(s, t).id == |s.rows| - 1 && s.rows[At(s, t).id] == Row(false, Some(At(s, t).exit))
      && s.position == Some(At(s, t).id)
  }

  ghost predicate Ordered(s: State) {
    && LatestOnly(s) && Faithful(s)
    && (forall t: nat :: Midway(s, t))
    && (forall t: nat, u: nat | At(s, t).Stored? && At(s, u).Stored? :: t == u)
  }

  lemma PersistOrdered(s: State, step: Step)
    requires Ordered(s) && step.Persist? && Fresh(s, step)
    ensures Ordered(Next(s, step))
  {
    var r := Next(s, step);
    forall t: nat
      ensures Midway(r, t) && (At(r, t).Stored? && r != s ==> t == step.t)
    {
      assert Midway(s, t);
    }
  }

  lemma ReleaseOrdered(s: State, step: Step)
    requires Ordered(s) && step.Release?
    ensures Ordered(Next(s, step))
  {
    var r := Next(s, step);
    assert Midway(s, step.t);
    forall t: nat
      ensures Midway(r, t) && (At(r, t).Stored? ==> At(s, t).Stored?)
    {
      assert Midway(s, t);
    }
  }

  lemma OtherOrdered(s: State, step: Step)
    requires Ordered(s) && !step.Persist? && !step.Release?
    ensures Ordered(Next(s, step))
  {
    var r := Next(s, step);
    forall t: nat
      ensures Midway(r, t) && (At(r, t).Stored? ==> At(s, t).Stored?)
    {
      assert Midway(s, t);
    }
  }

  lemma NextOrdered(s: State, step: Step)
    requires Ordered(s) && Fresh(s, step)
    ensures Ordered(Next(s, step))
  {
    hide Ordered, Next;
    if step.Persist? {
      PersistOrdered(s, step);
    } else if step.Release? {
      ReleaseOrdered(s, step);
    } else {
      OtherOrdered(s, step);
    }
  }

  /** However many handlers race: if each writes only to a row still active, every closing is faithful. */
  lemma {:induction false} FreshWritesAreFaithful(s: State, steps: seq<Step>)
    requires Ordered(s) && FreshRun(s, steps)
    ensures Faithful(RunFrom(s, steps))
    decreases |steps|
  {
    if steps != [] {
      NextOrdered(s, steps[0]);
      hide Ordered, Next, Fresh;
      FreshWritesAreFaithful(Next(s, steps[0]), steps[1..]);
    }
  }

  // ------------------------------------------------------------- one handler

  /** A lone handler's copy is of a row nobody else can have closed. */
  ghost predicate Alone(s: State) {
    |s.handlers| <= 1 && (At(s, 0).Loaded? ==> At(s, 0).id < |s.rows| && s.rows[At(s, 0).id].active)
  }

  lemma {:induction false} AloneIsFresh(s: State, steps: seq<Step>)
    requires Alone(s)
    ensures FreshRun(s, steps)
    decreases |steps|
  {
    if steps != [] {
      assert Fresh(s, steps[0]) && Alone(Next(s, steps[0]));
      hide Alone, Next, Fresh;
      AloneIsFresh(Next(s, steps[0]), steps[1..]);
    }
  }

  /** Two handlers that both read the row before either writes; a new signal opens between their closes. */
  function Racing(x: Exit, y: Exit): seq<Step> {
    [NextSignal, Load(0), Load(1), Persist(0, x), Release(0, true), NextSignal, Persist(1, y), Release(1, true)]
  }

  lemma RunStep(s: State, steps: seq<Step>, k: nat)
    requires k < |steps|
    ensures RunFrom(s, steps[k..]) == RunFrom(Next(s, steps[k]), steps[k + 1..])
  {
    assert steps[k..][1..] == steps[k + 1..];
  }

  ghost predicate Raced(s: State, x: Exit, y: Exit) {
    && s.rows == [Row(false, Some(y)), Row(true, None)] && s.position == None
    && s.closings == [Closing(0, 0, x), Closing(1, 0, y)]
  }

  /** One handler has closed row and position; the other still holds its copy. */
  ghost predicate FirstDone(s: State, x: Exit) {
    && |s.handlers| >= 2 && s.handlers[0] == Idle && s.handlers[1] == Loaded(0)
    && s.rows == [Row(false, Some(x))] && s.position == None && s.closings == [Closing(0, 0, x)]
  }

  lemma FirstHalf(n: nat, x: Exit)
    requires n >= 2
    ensures var s2 := Next(Next(Init(n), NextSignal), Load(0));
            FirstDone(Next(Next(Next(s2, Load(1)), Persist(0, x)), Release(0, true)), x)
  {
    var s2 := Next(Next(Init(n), NextSignal), Load(0));
    assert s2.handlers[0] == Loaded(0) && s2.handlers[1] == Idle && s2.rows == [Row(true, None)];
    var s4 := Next(Next(s2, Load(1)), Persist(0, x));
    assert s4.handlers[0] == Stored(0, x) && s4.handlers[1] == Loaded(0) && s4.rows == [Row(false, Some(x))];
  }

  lemma SecondHalf(s: State, x: Exit, y: Exit)
    requires FirstDone(s, x)
    ensures Raced(Next(Next(Next(s, NextSignal), Persist(1, y)), Release(1, true)), x, y)
  {
    var s6 := Next(s, NextSignal);
    assert s6.rows == [Row(false, Some(x)), Row(true, None)];
  }

  /** The second handler overwrites the first signal's recorded exit and closes the second signal's position. */
  lemma RaceHappens(n: nat, x: Exit, y: Exit)
    requires n >= 2
    ensures Raced(RunFrom(Init(n), Racing(x, y)), x, y)
  {
    hide Next, RunFrom, Raced, FirstDone;
    var steps := Racing(x, y);
    var s2 := Next(Next(Init(n), NextSignal), Load(0));
    var s5 := Next(Next(Next(s2, Load(1)), Persist(0, x)), Release(0, true));
    FirstHalf(n, x);
    SecondHalf(s5, x, y);
    RunStep(Init(n), steps, 0);
    RunStep(Next(Init(n), NextSignal), steps, 1);
    RunStep(s2, steps, 2);
    RunStep(Next(s2, Load(1)), steps, 3);
    RunStep(Next(Next(s2, Load(1)), Persist(0, x)), steps, 4);
    RunStep(s5, steps, 5);
    RunStep(Next(s5, NextSignal), steps, 6);
    RunStep(Next(Next(s5, NextSignal), Persist(1, y)), steps, 7);
    RunNothing(Next(Next(Next(s5, NextSignal), Persist(1, y)), Release(1, true)));
    assert steps[0..] == steps && steps[8..] == [];
  }

  lemma RunNothing(s: State)
    ensures RunFrom(s, []) == s
  {
  }

  /**
   * Over every interleaving each position is closed by its own signal's handler exactly when handlers
   * never overlap, and so is each recorded exit the one its position was closed at: two break both.
   */
  lemma FaithfulIff(n: nat)
    ensures (forall steps :: OwnCloses(RunFrom(Init(n), steps))) <==> n <= 1
    ensures (forall steps :: Reported(RunFrom(Init(n), steps))) <==> n <= 1
  {
    if n <= 1 {
      forall steps
        ensures Faithful(RunFrom(Init(n), steps))
      {
        AloneIsFresh(Init(n), steps);
        FreshWritesAreFaithful(Init(n), steps);
      }
    } else {
      var x, y := Exit(1.0, "STOP_LOSS"), Exit(2.0, "TIME_EXIT");
      RaceHappens(n, x, y);
      RacedIsUnfaithful(RunFrom(Init(n), Racing(x, y)), x, y);
    }
    hide *;
  }

  lemma RacedIsUnfaithful(s: State, x: Exit, y: Exit)
    requires Raced(s, x, y) && x != y
    ensures !OwnCloses(s) && !Reported(s)
  {
    assert Closing(0, 0, x) in s.closings && Closing(1, 0, y) in s.closings;
  }
}
