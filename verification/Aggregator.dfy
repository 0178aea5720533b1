/** Streaming aggregation of price ticks into candle bars with a bounded history per symbol. */
module Aggregator {
  import opened Common

  datatype Tick = Tick(symbol: string, price: real, volume: real, time: int)

  datatype Bar = Bar(
    symbol: string,
    startTime: int,
    endTime: int,
    open: real,
    high: real,
    low: real,
    close: real,
    volume: real,
    ticks: int,
    complete: bool)

  /** Integer division truncating toward zero. */
  function TruncDiv(a: int, b: int): int
    requires b > 0
  {
    if a >= 0 then a / b else -((-a) / b)
  }

  function Slot(time: int, tf: int): int
    requires tf > 0
  {
    TruncDiv(time, tf) * tf
  }

  // ------------------------------------------------- the ticks behind a bar

  /** The ticks folded into one bar, at least the one that opened it. */
  type Batch = b: seq<Tick> | b != [] witness [Tick("", 1.0, 0.0, 0)]

  /** The ticks of one symbol that are ingested at all. */
  function TicksOf(log: seq<Tick>, symbol: string): (ts: seq<Tick>)
    ensures forall t | t in ts :: t in log && t.symbol == symbol && t.price > 0.0
  {
    if log == [] then []
    else
      var t := log[|log| - 1];
      TicksOf(log[..|log| - 1], symbol) + if t.symbol == symbol && t.price > 0.0 then [t] else []
  }

  /** Whether a tick starts a new run: the first tick, or one of a later slot than the current run's first. */
  predicate Opens(gs: seq<Batch>, t: Tick, tf: int)
    requires tf > 0
  {
    gs == [] || Slot(t.time, tf) > Slot(gs[|gs| - 1][0].time, tf)
  }

  /** The runs of ticks behind the bars: anything that does not start a new one joins the current one. */
  function Groups(ticks: seq<Tick>, tf: int): (gs: seq<Batch>)
    requires tf > 0
    ensures gs == [] <==> ticks == []
  {
    if ticks == [] then []
    else
      var gs, t := Groups(ticks[..|ticks| - 1], tf), ticks[|ticks| - 1];
      if Opens(gs, t, tf) then gs + [[t]]
      else gs[..|gs| - 1] + [gs[|gs| - 1] + [t]]
  }

  function Highest(ticks: seq<Tick>): real
    requires ticks != []
  {
    var t := ticks[|ticks| - 1];
    if |ticks| == 1 then t.price else Max(t.price, Highest(ticks[..|ticks| - 1]))
  }

  function Lowest(ticks: seq<Tick>): real
    requires ticks != []
  {
    var t := ticks[|ticks| - 1];
    if |ticks| == 1 then t.price else Min(t.price, Lowest(ticks[..|ticks| - 1]))
  }

  function Volume(ticks: seq<Tick>): real {
    if ticks == [] then 0.0 else Volume(ticks[..|ticks| - 1]) + ticks[|ticks| - 1].volume
  }

  /** First price, extremes, last price, total volume and count of a run of ticks. */
  function BarOf(ticks: Batch, tf: int, complete: bool): Bar
    requires tf > 0
  {
    var start := Slot(ticks[0].time, tf);
    Bar(ticks[0].symbol, start, start + tf, ticks[0].price, Highest(ticks), Lowest(ticks), ticks[|ticks| - 1].price,
        Volume(ticks), |ticks|, complete)
  }

  /** The bars of all completed runs: every run but the last. */
  function Completed(gs: seq<Batch>, tf: int): (bars: seq<Bar>)
    requires tf > 0
    ensures |bars| == if gs == [] then 0 else |gs| - 1
  {
    seq(if gs == [] then 0 else |gs| - 1, i requires 0 <= i < |gs| => BarOf(gs[i], tf, true))
  }

  function LastN(bars: seq<Bar>, n: nat): seq<Bar> {
    if |bars| > n then bars[|bars| - n..] else bars
  }

  // ------------------------------------------------------------ the fold

  /** One symbol's bar in progress and its kept history. */
  datatype Track = Track(current: Option<Bar>, history: seq<Bar>)

  function Opening(t: Tick, tf: int): Bar
    requires tf > 0
  {
    Bar(t.symbol, Slot(t.time, tf), Slot(t.time, tf) + tf, t.price, t.price, t.price, t.price, t.volume, 1, false)
  }

  function Extended(b: Bar, t: Tick): Bar {
    b.(high := if t.price > b.high then t.price else b.high,
       low := if t.price < b.low then t.price else b.low,
       close := t.price, volume := b.volume + t.volume, ticks := b.ticks + 1)
  }

  function Step(k: Track, t: Tick, tf: int, n: nat): Track
    requires tf > 0
  {
    if t.price <= 0.0 then k
    else if k.current.None? then k.(current := Some(Opening(t, tf)))
    else if Slot(t.time, tf) > k.current.value.startTime then
      Track(Some(Opening(t, tf)), LastN(k.history + [k.current.value.(complete := true)], n))
    else k.(current := Some(Extended(k.current.value, t)))
  }

  function Replay(log: seq<Tick>, s: string, tf: int, n: nat): Track
    requires tf > 0
  {
    if log == [] then Track(None, [])
    else
      var before, t := Replay(log[..|log| - 1], s, tf, n), log[|log| - 1];
      if t.symbol == s then Step(before, t, tf, n) else before
  }

  class CandleAggregator {
    const timeframeSeconds: int
    const maxHistoryBars: int
    var currentBars: map<string, Bar>
    var historyBars: map<string, seq<Bar>>
    /** Every tick ever offered. */
    ghost var log: seq<Tick>

    function View(s: string): Track
      reads this
    {
      Track(if s in currentBars then Some(currentBars[s]) else None, if s in historyBars then historyBars[s] else [])
    }

    /** Per symbol, the bar in progress and the kept history are those of the ticks offered so far. */
    ghost predicate Valid()
      reads this
    {
      && timeframeSeconds > 0 && maxHistoryBars > 0
      && forall s :: View(s) == Replay(log, s, timeframeSeconds, maxHistoryBars)
    }

    constructor (timeframeSeconds: int, maxHistoryBars: int)
      ensures Valid() && log == []
      ensures this.timeframeSeconds == if timeframeSeconds <= 0 then 7200 else timeframeSeconds
      ensures this.maxHistoryBars == if maxHistoryBars <= 0 then 100 else maxHistoryBars
    {
      this.timeframeSeconds := if timeframeSeconds <= 0 then 7200 else timeframeSeconds;
      this.maxHistoryBars := if maxHistoryBars <= 0 then 100 else maxHistoryBars;
      currentBars, historyBars := map[], map[];
      log := [];
    }

    /** Adds one tick; a tick of a later slot completes the bar in progress and returns it. */
    method IngestTick(symbol: string, price: real, volume: real, time: int) returns (completed: Option<Bar>)
      requires Valid()
      modifies this
      ensures Valid() && log == old(log) + [Tick(symbol, price, volume, time)]
      ensures var cur := old(View(symbol)).current;
              completed == if price > 0.0 && cur.Some? && Slot(time, timeframeSeconds) > cur.value.startTime
                then Some(cur.value.(complete := true)) else None
    {
      ghost var tick := Tick(symbol, price, volume, time);
      completed := Offer(symbol, price, volume, time);
      log := log + [tick];
      hide Slot, Replay, Step, View;
      forall s
        ensures View(s) == Replay(log, s, timeframeSeconds, maxHistoryBars)
      {
        ReplayNext(old(log), tick, s, timeframeSeconds, maxHistoryBars);
      }
    }

    /** The bars of one symbol after one more tick; no other symbol's change. */
    method Offer(symbol: string, price: real, volume: real, time: int) returns (completed: Option<Bar>)
      requires timeframeSeconds > 0 && maxHistoryBars > 0
      modifies this`currentBars, this`historyBars
      ensures var tick := Tick(symbol, price, volume, time);
              View(symbol) == Step(old(View(symbol)), tick, timeframeSeconds, maxHistoryBars)
      ensures forall s | s != symbol :: View(s) == old(View(s))
      ensures var cur := old(View(symbol)).current;
              completed == if price > 0.0 && cur.Some? && Slot(time, timeframeSeconds) > cur.value.startTime
                then Some(cur.value.(complete := true)) else None
    {
      hide Slot, LastN, Extended;
      completed := None;
      if price > 0.0 {
        var start := Slot(time, timeframeSeconds);
        var opening := Bar(symbol, start, start + timeframeSeconds, price, price, price, price, volume, 1, false);
        if symbol !in currentBars {
          currentBars := currentBars[symbol := opening];
        } else if start > currentBars[symbol].startTime {
          completed := Some(currentBars[symbol].(complete := true));
          Keep(symbol, completed.value);
          currentBars := currentBars[symbol := opening];
        } else {
          Extend(symbol, price, volume, time);
        }
      }
    }

    /** Appends a completed bar to the symbol's history, dropping the oldest beyond the limit. */
    method Keep(symbol: string, bar: Bar)
      requires maxHistoryBars > 0
      modifies this`historyBars
      ensures View(symbol) == old(View(symbol)).(history := LastN(old(View(symbol)).history + [bar], maxHistoryBars))
      ensures forall s | s != symbol :: View(s) == old(View(s))
    {
      var hist := (if symbol in historyBars then historyBars[symbol] else []) + [bar];
      if |hist| > maxHistoryBars {
        hist := hist[|hist| - maxHistoryBars..];
      }
      historyBars := historyBars[symbol := hist];
    }

    /** Adds a tick to the bar in progress. */
    method Extend(symbol: string, price: real, volume: real, time: int)
      requires symbol in currentBars
      modifies this`currentBars
      ensures View(symbol) == old(View(symbol)).(current :=
                Some(Extended(old(currentBars[symbol]), Tick(symbol, price, volume, time))))
      ensures forall s | s != symbol :: View(s) == old(View(s))
    {
      var cur := currentBars[symbol];
      if price > cur.high {
        cur := cur.(high := price);
      }
      if price < cur.low {
        cur := cur.(low := price);
      }
      cur := cur.(close := price, volume := cur.volume + volume, ticks := cur.ticks + 1);
      currentBars := currentBars[symbol := cur];
    }

    /** A copy of the kept bars: the last completed runs of this symbol's ticks. */
    method GetHistory(symbol: string) returns (bars: seq<Bar>)
      requires Valid()
      ensures bars == LastN(Completed(Groups(TicksOf(log, symbol), timeframeSeconds), timeframeSeconds), maxHistoryBars)
    {
      BarsAreRuns(log, symbol, timeframeSeconds, maxHistoryBars);
      bars := View(symbol).history;
    }
  }

  lemma ReplayNext(log: seq<Tick>, t: Tick, s: string, tf: int, n: nat)
    requires tf > 0
    ensures Replay(log + [t], s, tf, n) ==
            if t.symbol == s then Step(Replay(log, s, tf, n), t, tf, n) else Replay(log, s, tf, n)
  {
    hide Step;
    assert (log + [t])[..|log|] == log;
  }

  /** What the runs of ticks look like as bars: the last one in progress, the others completed, the oldest dropped. */
  ghost function Shown(gs: seq<Batch>, tf: int, n: nat): Track
    requires tf > 0
  {
    Track(if gs == [] then None else Some(BarOf(gs[|gs| - 1], tf, false)), LastN(Completed(gs, tf), n))
  }

  /** Folding ticks in one by one shows, at every point, the bars of the runs of all ticks so far. */
  lemma {:induction false} BarsAreRuns(log: seq<Tick>, s: string, tf: int, n: nat)
    requires tf > 0 && n > 0
    ensures Replay(log, s, tf, n) == Shown(Groups(TicksOf(log, s), tf), tf, n)
    decreases |log|
  {
    if log != [] {
      var before, t := log[..|log| - 1], log[|log| - 1];
      BarsAreRuns(before, s, tf, n);
      assert t.price <= 0.0 ==> Step(Replay(before, s, tf, n), t, tf, n) == Replay(before, s, tf, n);
      hide Step, Shown, Groups;
      if t.symbol == s && t.price > 0.0 {
        OfferedGroups(TicksOf(before, s), t, tf);
        StepShows(Groups(TicksOf(before, s), tf), t, tf, n);
      } else {
        assert TicksOf(log, s) == TicksOf(before, s);
      }
    }
  }

  /** The runs after one more tick. */
  function Grown(gs: seq<Batch>, t: Tick, tf: int): seq<Batch>
    requires tf > 0
  {
    if Opens(gs, t, tf) then gs + [[t]] else gs[..|gs| - 1] + [gs[|gs| - 1] + [t]]
  }

  lemma StepShows(gs: seq<Batch>, t: Tick, tf: int, n: nat)
    requires tf > 0 && n > 0 && t.price > 0.0
    ensures Step(Shown(gs, tf, n), t, tf, n) == Shown(Grown(gs, t, tf), tf, n)
  {
    if gs == [] {
      BarOfOne(t, tf);
      assert Grown(gs, t, tf) == [[t]];
    } else {
      var last := gs[|gs| - 1];
      BarOfStart(last, tf);
      if Opens(gs, t, tf) {
        BarOfOne(t, tf);
        CompletedNext(gs, [t], tf);
        LastNAppend(Completed(gs, tf), BarOf(last, tf, true), n);
      } else {
        BarOfMore(last, t, tf);
        CompletedKept(gs, last + [t], tf);
      }
    }
  }

  lemma OfferedGroups(ticks: seq<Tick>, t: Tick, tf: int)
    requires tf > 0
    ensures Groups(ticks + [t], tf) == Grown(Groups(ticks, tf), t, tf)
  {
    assert (ticks + [t])[..|ticks|] == ticks;
  }

  lemma BarOfOne(t: Tick, tf: int)
    requires tf > 0
    ensures BarOf([t], tf, false) == Opening(t, tf)
  {
    var g: Batch := [t];
    assert g[..|g| - 1] == [];
    assert Volume(g) == t.volume;
  }

  lemma BarOfStart(g: Batch, tf: int)
    requires tf > 0
    ensures BarOf(g, tf, false).startTime == Slot(g[0].time, tf)
    ensures BarOf(g, tf, false).(complete := true) == BarOf(g, tf, true)
  {
  }

  lemma BarOfMore(g: Batch, t: Tick, tf: int)
    requires tf > 0
    ensures BarOf(g + [t], tf, false) == Extended(BarOf(g, tf, false), t)
  {
    assert (g + [t])[..|g|] == g;
  }

  lemma LastNAppend(bars: seq<Bar>, b: Bar, n: nat)
    requires n > 0
    ensures LastN(LastN(bars, n) + [b], n) == LastN(bars + [b], n)
  {
  }

  lemma CompletedNext(gs: seq<Batch>, g: Batch, tf: int)
    requires tf > 0 && gs != []
    ensures Completed(gs + [g], tf) == Completed(gs, tf) + [BarOf(gs[|gs| - 1], tf, true)]
  {
    hide BarOf;
  }

  lemma CompletedKept(gs: seq<Batch>, g: Batch, tf: int)
    requires tf > 0 && gs != []
    ensures Completed(gs[..|gs| - 1] + [g], tf) == Completed(gs, tf)
  {
    hide BarOf;
  }

  // ------------------------------------------------------------------- laws

  function Flatten(gs: seq<Batch>): seq<Tick> {
    if gs == [] then [] else Flatten(gs[..|gs| - 1]) + gs[|gs| - 1]
  }

  /** No tick is lost, doubled or reordered: the runs behind the bars, end to end, are the ticks. */
  lemma {:induction false} BarsPartitionTicks(ticks: seq<Tick>, tf: int)
    requires tf > 0
    ensures Flatten(Groups(ticks, tf)) == ticks
    decreases |ticks|
  {
    if ticks != [] {
      var before, t := ticks[..|ticks| - 1], ticks[|ticks| - 1];
      BarsPartitionTicks(before, tf);
      assert ticks == before + [t];
      OfferedGroups(before, t, tf);
      FlattenGrown(Groups(before, tf), t, tf);
    }
  }

  lemma FlattenGrown(gs: seq<Batch>, t: Tick, tf: int)
    requires tf > 0
    ensures Flatten(Grown(gs, t, tf)) == Flatten(gs) + [t]
  {
    hide Slot;
    var grown := Grown(gs, t, tf);
    if Opens(gs, t, tf) {
      assert grown[..|grown| - 1] == gs;
    } else {
      assert grown[..|grown| - 1] == gs[..|gs| - 1];
    }
  }

  function Start(b: Batch, tf: int): int
    requires tf > 0
  {
    Slot(b[0].time, tf)
  }

  ghost predicate StartsUp(gs: seq<Batch>, tf: int)
    requires tf > 0
  {
    forall i, j | 0 <= i < j < |gs| :: Start(gs[i], tf) < Start(gs[j], tf)
  }

  lemma StartsUpJoin(gs: seq<Batch>, b: Batch, tf: int)
    requires tf > 0 && StartsUp(gs, tf) && (gs != [] ==> Start(gs[|gs| - 1], tf) < Start(b, tf))
    ensures StartsUp(gs + [b], tf)
  {
    hide Start;
    forall i | 0 <= i < |gs|
      ensures Start(gs[i], tf) < Start(b, tf)
    {
      assert i < |gs| - 1 ==> Start(gs[i], tf) < Start(gs[|gs| - 1], tf);
    }
  }

  /** Bar start times strictly increase. */
  lemma {:induction false} StartsIncrease(ticks: seq<Tick>, tf: int)
    requires tf > 0
    ensures StartsUp(Groups(ticks, tf), tf)
    decreases |ticks|
  {
    if ticks != [] {
      var before, t := ticks[..|ticks| - 1], ticks[|ticks| - 1];
      StartsIncrease(before, tf);
      var gs := Groups(before, tf);
      if Opens(gs, t, tf) {
        StartsUpJoin(gs, [t], tf);
      } else {
        StartsUpJoin(gs[..|gs| - 1], gs[|gs| - 1] + [t], tf);
      }
    }
  }

  ghost predicate AllUpTo(ticks: seq<Tick>, slot: int, tf: int)
    requires tf > 0
  {
    forall k | 0 <= k < |ticks| :: Slot(ticks[k].time, tf) <= slot
  }

  lemma AllUpToAppend(ticks: seq<Tick>, t: Tick, slot: int, tf: int)
    requires tf > 0
    ensures AllUpTo(ticks + [t], slot, tf) <==> AllUpTo(ticks, slot, tf) && Slot(t.time, tf) <= slot
  {
    hide Slot;
    assert (ticks + [t])[|ticks|] == t;
    assert forall k | 0 <= k < |ticks| :: (ticks + [t])[k] == ticks[k];
  }

  lemma AllUpToRaise(ticks: seq<Tick>, low: int, high: int, tf: int)
    requires tf > 0 && AllUpTo(ticks, low, tf) && low <= high
    ensures AllUpTo(ticks, high, tf)
  {
  }

  ghost predicate NoneAhead(gs: seq<Batch>, tf: int)
    requires tf > 0
  {
    forall i | 0 <= i < |gs| :: AllUpTo(gs[i], Start(gs[i], tf), tf)
  }

  lemma NoneAheadJoin(gs: seq<Batch>, b: Batch, tf: int)
    requires tf > 0 && NoneAhead(gs, tf) && AllUpTo(b, Start(b, tf), tf)
    ensures NoneAhead(gs + [b], tf)
  {
    hide AllUpTo, Start;
  }

  /** No bar holds a tick of a later slot than its own: a late tick joins the bar in progress, never the reverse. */
  lemma {:induction false} NoTickAheadOfItsBar(ticks: seq<Tick>, tf: int)
    requires tf > 0
    ensures NoneAhead(Groups(ticks, tf), tf)
    decreases |ticks|
  {
    if ticks != [] {
      var before, t := ticks[..|ticks| - 1], ticks[|ticks| - 1];
      NoTickAheadOfItsBar(before, tf);
      var gs := Groups(before, tf);
      if Opens(gs, t, tf) {
        NoneAheadJoin(gs, [t], tf);
      } else {
        AllUpToAppend(gs[|gs| - 1], t, Start(gs[|gs| - 1], tf), tf);
        NoneAheadJoin(gs[..|gs| - 1], gs[|gs| - 1] + [t], tf);
      }
    }
  }

  /** The bar in progress starts at the latest slot any tick has had. */
  lemma {:induction false} CurrentBarIsLatest(ticks: seq<Tick>, tf: int)
    requires tf > 0 && ticks != []
    ensures var gs := Groups(ticks, tf); AllUpTo(ticks, Start(gs[|gs| - 1], tf), tf) && gs[|gs| - 1][0] in ticks
    decreases |ticks|
  {
    var before, t := ticks[..|ticks| - 1], ticks[|ticks| - 1];
    assert ticks == before + [t];
    var gs := Groups(before, tf);
    if before != [] {
      CurrentBarIsLatest(before, tf);
      var start := Start(gs[|gs| - 1], tf);
      if Slot(t.time, tf) > start {
        AllUpToRaise(before, start, Slot(t.time, tf), tf);
        AllUpToAppend(before, t, Slot(t.time, tf), tf);
      } else {
        AllUpToAppend(before, t, start, tf);
      }
    } else {
      AllUpToAppend(before, t, Slot(t.time, tf), tf);
    }
    hide Slot, AllUpTo;
  }

  ghost predicate SameSlot(b: Batch, tf: int)
    requires tf > 0
  {
    forall k | 0 <= k < |b| :: Slot(b[k].time, tf) == Start(b, tf)
  }

  ghost predicate OwnSlotOnly(gs: seq<Batch>, tf: int)
    requires tf > 0
  {
    forall i | 0 <= i < |gs| :: SameSlot(gs[i], tf)
  }

  ghost predicate InOrder(ticks: seq<Tick>, tf: int)
    requires tf > 0
  {
    forall i, j | 0 <= i < j < |ticks| :: Slot(ticks[i].time, tf) <= Slot(ticks[j].time, tf)
  }

  lemma InOrderAppend(ticks: seq<Tick>, t: Tick, tf: int)
    requires tf > 0
    ensures InOrder(ticks + [t], tf) <==> InOrder(ticks, tf) && AllUpTo(ticks, Slot(t.time, tf), tf)
  {
    hide Slot;
    var all := ticks + [t];
    assert all[|ticks|] == t && forall k | 0 <= k < |ticks| :: all[k] == ticks[k];
    if InOrder(all, tf) {
      assert forall i, j | 0 <= i < j < |ticks| :: Slot(all[i].time, tf) <= Slot(all[j].time, tf);
      assert forall i | 0 <= i < |ticks| :: Slot(all[i].time, tf) <= Slot(all[|ticks|].time, tf);
    }
  }

  lemma SameSlotAppend(b: Batch, t: Tick, tf: int)
    requires tf > 0
    ensures SameSlot(b + [t], tf) <==> SameSlot(b, tf) && Slot(t.time, tf) == Start(b, tf)
  {
    hide Slot;
    assert (b + [t])[|b|] == t;
    assert forall k | 0 <= k < |b| :: (b + [t])[k] == b[k];
  }

  /** Every bar holds ticks of its own slot only, exactly when no tick arrives after one of a later slot. */
  lemma {:induction false} OwnSlotOnlyIff(ticks: seq<Tick>, tf: int)
    requires tf > 0
    ensures OwnSlotOnly(Groups(ticks, tf), tf) <==> InOrder(ticks, tf)
    decreases |ticks|
  {
    if ticks != [] {
      var before, t := ticks[..|ticks| - 1], ticks[|ticks| - 1];
      assert ticks == before + [t];
      OwnSlotOnlyIff(before, tf);
      InOrderAppend(before, t, tf);
      OfferedGroups(before, t, tf);
      OneIsOrderly(t, tf);
      hide Groups, Slot, SameSlot, OwnSlotOnly, AllUpTo, InOrder;
      if before != [] {
        CurrentBarIsLatest(before, tf);
        OwnSlotGrown(before, Groups(before, tf), t, tf);
      }
    }
  }

  lemma OneIsOrderly(t: Tick, tf: int)
    requires tf > 0
    ensures OwnSlotOnly(Grown([], t, tf), tf) && AllUpTo([], Slot(t.time, tf), tf)
  {
    hide Slot;
  }

  lemma OwnSlotGrown(before: seq<Tick>, gs: seq<Batch>, t: Tick, tf: int)
    requires tf > 0 && gs != [] && gs[|gs| - 1][0] in before && AllUpTo(before, Start(gs[|gs| - 1], tf), tf)
    ensures OwnSlotOnly(Grown(gs, t, tf), tf) <==> OwnSlotOnly(gs, tf) && AllUpTo(before, Slot(t.time, tf), tf)
  {
    var last := gs[|gs| - 1];
    if Opens(gs, t, tf) {
      AllUpToRaise(before, Start(last, tf), Slot(t.time, tf), tf);
      JoinKeepsSlots(gs, [t], tf);
    } else {
      var opener :| 0 <= opener < |before| && before[opener] == last[0];
      SameSlotAppend(last, t, tf);
      JoinKeepsSlots(gs[..|gs| - 1], last, tf);
      JoinKeepsSlots(gs[..|gs| - 1], last + [t], tf);
      assert gs[..|gs| - 1] + [last] == gs;
      assert AllUpTo(before, Slot(t.time, tf), tf) ==> Slot(before[opener].time, tf) <= Slot(t.time, tf);
      assert Slot(t.time, tf) == Start(last, tf) ==> AllUpTo(before, Slot(t.time, tf), tf);
      hide Slot, SameSlot, OwnSlotOnly, AllUpTo;
    }
  }

  lemma JoinKeepsSlots(gs: seq<Batch>, g: Batch, tf: int)
    requires tf > 0
    ensures OwnSlotOnly(gs + [g], tf) <==> OwnSlotOnly(gs, tf) && SameSlot(g, tf)
  {
    hide SameSlot;
    var all := gs + [g];
    assert all[|gs|] == g && forall i | 0 <= i < |gs| :: all[i] == gs[i];
  }

  /** A slot contains its tick, except before the epoch: truncation moves those ticks up to the slot's end. */
  lemma SlotHoldsTickIff(time: int, tf: int)
    requires tf > 0
    ensures Slot(time, tf) <= time < Slot(time, tf) + tf <==> time >= 0 || time % tf == 0
  {
    if time >= 0 {
      assert time == time / tf * tf + time % tf;
    } else {
      var n := -time;
      assert n == n / tf * tf + n % tf;
      assert Slot(time, tf) == -(n / tf * tf);
      NegativeRemainder(n, tf);
    }
  }

  lemma NegativeRemainder(n: int, tf: int)
    requires tf > 0 && n > 0
    ensures n % tf == 0 <==> (-n) % tf == 0
  {
    assert n == n / tf * tf + n % tf;
    assert -n == (-n) / tf * tf + (-n) % tf;
    RemaindersVanishTogether(n / tf, (-n) / tf, tf, n % tf, (-n) % tf);
  }

  lemma RemaindersVanishTogether(p: int, q: int, tf: int, r: int, s: int)
    requires 0 <= r < tf && 0 <= s < tf && p * tf + r == -(q * tf + s)
    ensures r == 0 <==> s == 0
  {
    MultipleBounds(p + q, tf);
    assert (p + q) * tf == p * tf + q * tf;
  }

  lemma MultipleBounds(q: int, tf: int)
    requires tf > 0
    ensures q <= -2 ==> q * tf <= -2 * tf
    ensures q >= 1 ==> q * tf >= tf
    ensures q == 0 ==> q * tf == 0
    ensures q == -1 ==> q * tf == -tf
  {
  }

  /** The high and low of a bar are attained by its ticks and bound all of them, so they bracket open and close. */
  lemma {:induction false} ExtremesAttained(ticks: seq<Tick>)
    requires ticks != []
    ensures forall t | t in ticks :: Lowest(ticks) <= t.price <= Highest(ticks)
    ensures exists t | t in ticks :: t.price == Highest(ticks)
    ensures exists t | t in ticks :: t.price == Lowest(ticks)
    decreases |ticks|
  {
    var before, t := ticks[..|ticks| - 1], ticks[|ticks| - 1];
    assert ticks == before + [t];
    if before != [] {
      ExtremesAttained(before);
      var h :| h in before && h.price == Highest(before);
      var l :| l in before && l.price == Lowest(before);
      assert h in ticks && l in ticks && t in ticks;
    } else {
      assert t in ticks;
    }
  }
}
