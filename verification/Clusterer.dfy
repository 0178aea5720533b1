/** Rolling merge of syndicated headlines into clusters with an incremental tier-weighted sentiment. */
module Clusterer {
  import opened Common
  import opened Headlines

  /** Similarity at or above which two headlines are one story. */
  const JACCARD_THRESHOLD: real := 0.82

  /** The merge window, in seconds. */
  const MERGE_WINDOW: int := 2700

  function SourceTierWeight(source: string): (w: real)
    ensures w > 0.0
  {
    var s := LowerAll(source);
    if s in {"reuters", "bloomberg", "wsj", "ft", "yahoo", "yahoo finance", "yahoofinance"} then 1.0
    else if s in {"coindesk", "cointelegraph", "decrypt", "the block", "coingecko"} then 0.6
    else 0.2
  }

  function LowerAll(s: string): string {
    seq(|s|, i requires 0 <= i < |s| => Lower(s[i]))
  }

  // ----------------------------------------------------- what a cluster is

  datatype Row = Row(
    headline: string,
    sources: seq<string>,
    headlines: seq<string>,
    sentiments: seq<real>,
    storyCount: int,
    fusedSentiment: real,
    polarization: real,
    tierWeightSum: real,
    firstSeen: int,
    lastSeen: int)

  function WeightSum(sources: seq<string>): real {
    if sources == [] then 0.0 else WeightSum(sources[..|sources| - 1]) + SourceTierWeight(sources[|sources| - 1])
  }

  /** One story's share of the weighted total. */
  function Share(tier: real, sentiment: real): real {
    tier * sentiment
  }

  function WeightedSentiment(sources: seq<string>, sentiments: seq<real>): real
    requires |sources| == |sentiments|
  {
    if sources == [] then 0.0
    else
      var n := |sources| - 1;
      WeightedSentiment(sources[..n], sentiments[..n]) + Share(SourceTierWeight(sources[n]), sentiments[n])
  }

  /** How many members satisfy a bound on the bullish or bearish side. */
  function CountBeyond(sentiments: seq<real>, bull: bool): (n: nat)
    ensures n <= |sentiments|
  {
    if sentiments == [] then 0
    else
      var n := |sentiments| - 1;
      CountBeyond(sentiments[..n], bull)
      + if (if bull then sentiments[n] > 0.05 else sentiments[n] < -0.05) then 1 else 0
  }

  /** Zero for one-sided coverage, one for perfectly balanced coverage. */
  function PolarizationScore(bull: int, bear: int): real {
    if bull + bear <= 0 then 0.0 else 1.0 - Abs((bull - bear) as real) / (bull + bear) as real
  }

  function Polarization(sentiments: seq<real>): real {
    PolarizationScore(CountBeyond(sentiments, true), CountBeyond(sentiments, false))
  }

  /** Some earlier member of the cluster is the same story. */
  ghost predicate Linked(headlines: seq<string>, j: nat)
    requires j < |headlines|
  {
    exists i | 0 <= i < j :: TrigramJaccard(headlines[j], headlines[i]) >= JACCARD_THRESHOLD
  }

  predicate Balances(fused: real, weight: real, total: real) {
    fused * weight == total
  }

  /**
   * A cluster's books: one source, headline and sentiment per story, the running weight their sum,
   * the fused sentiment times it the weighted sum, and every later headline linked to an earlier one.
   */
  ghost predicate Sound(r: Row) {
    && |r.sources| == |r.headlines| == |r.sentiments| == r.storyCount
    && r.storyCount >= 1
    && r.headline == r.headlines[0]
    && r.tierWeightSum == WeightSum(r.sources)
    && Balances(r.fusedSentiment, r.tierWeightSum, WeightedSentiment(r.sources, r.sentiments))
    && r.polarization == Polarization(r.sentiments)
    && r.firstSeen <= r.lastSeen
    && (forall j | 1 <= j < |r.headlines| :: Linked(r.headlines, j))
  }

  function NewRow(source: string, title: string, sentiment: real, now: int): Row {
    Row(title, [source], [title], [sentiment], 1, sentiment, Polarization([sentiment]),
        SourceTierWeight(source), now, now)
  }

  /** The running mean after one more story of weight `tier`, `weight` being the new total. */
  function FusedNext(fused: real, weight: real, tier: real, sentiment: real): real
    requires weight != 0.0
  {
    (fused * (weight - tier) + sentiment * tier) / weight
  }

  function Merged(r: Row, source: string, title: string, sentiment: real, now: int): Row
    requires r.tierWeightSum + SourceTierWeight(source) != 0.0
  {
    var tier := SourceTierWeight(source);
    var weight := r.tierWeightSum + tier;
    r.(sources := r.sources + [source], headlines := r.headlines + [title], sentiments := r.sentiments + [sentiment],
       tierWeightSum := weight,
       fusedSentiment := FusedNext(r.fusedSentiment, weight, tier, sentiment),
       storyCount := r.storyCount + 1,
       polarization := Polarization(r.sentiments + [sentiment]),
       lastSeen := if now > r.lastSeen then now else r.lastSeen,
       firstSeen := if now < r.firstSeen then now else r.firstSeen)
  }

  predicate Covers(r: Row, norm: string, now: int) {
    now - r.lastSeen <= MERGE_WINDOW && exists h | h in r.headlines :: TrigramJaccard(norm, h) >= JACCARD_THRESHOLD
  }

  /** The last covering cluster: the search does not stop at the first. */
  function Target(rows: seq<Row>, norm: string, now: int): (i: int)
    ensures -1 <= i < |rows|
    ensures i >= 0 ==> Covers(rows[i], norm, now)
  {
    hide *;
    if rows == [] then -1
    else if Covers(rows[|rows| - 1], norm, now) then |rows| - 1
    else Target(rows[..|rows| - 1], norm, now)
  }

  lemma {:induction false} TargetIsLast(rows: seq<Row>, norm: string, now: int, k: int)
    requires Target(rows, norm, now) < k < |rows|
    ensures !Covers(rows[k], norm, now)
    decreases |rows|
  {
    hide Covers;
    if k < |rows| - 1 {
      TargetIsLast(rows[..|rows| - 1], norm, now, k);
    }
  }

  ghost predicate AllSound(rows: seq<Row>) {
    forall i | 0 <= i < |rows| :: Sound(rows[i])
  }

  lemma {:induction false} WeightsPositive(sources: seq<string>)
    ensures WeightSum(sources) >= 0.0 && (sources != [] ==> WeightSum(sources) > 0.0)
    decreases |sources|
  {
    if sources != [] {
      WeightsPositive(sources[..|sources| - 1]);
    }
  }

  ghost function Ingested(rows: seq<Row>, source: string, title: string, sentiment: real, now: int): seq<Row>
    requires AllSound(rows)
  {
    var norm := Joined(Words(title));
    var i := Target(rows, norm, now);
    if norm == [] then rows
    else if i < 0 then rows + [NewRow(source, title, sentiment, now)]
    else
      WeightsPositive(rows[i].sources);
      rows[i := Merged(rows[i], source, title, sentiment, now)]
  }

  function Live(r: Row, now: int, halfLife: int): bool {
    now - r.lastSeen <= 2 * halfLife
  }

  /** The clusters that survive pruning, in their order. */
  function Pruned(rows: seq<Row>, now: int, halfLife: int): seq<Row> {
    if rows == [] then []
    else
      var n := |rows| - 1;
      Pruned(rows[..n], now, halfLife) + if Live(rows[n], now, halfLife) then [rows[n]] else []
  }

  const LN2: real := 0.6931471805599453

  /** Half-life decay in minutes of age: neutral for an invalid half-life, nothing past twice a valid one. */
  function FreshnessWeight(age: int, halfLifeMinutes: real, exp: real -> real): real {
    if halfLifeMinutes <= 0.0 then 1.0
    else
      var ageMin := (if age < 0 then 0 else age) as real / 60.0;
      if ageMin > 2.0 * halfLifeMinutes then 0.0 else exp(-LN2 * ageMin / halfLifeMinutes)
  }

  // -------------------------------------------------------- objects in place

  class NewsCluster {
    var headline: string
    var sources: seq<string>
    var headlines: seq<string>
    var sentiments: seq<real>
    var storyCount: int
    var fusedSentiment: real
    var polarization: real
    var tierWeightSum: real
    var firstSeen: int
    var lastSeen: int
    /** Recomputed whenever the clusters are read; no part of the cluster's books. */
    var freshWeight: real

    function View(): Row
      reads this
    {
      Row(headline, sources, headlines, sentiments, storyCount, fusedSentiment, polarization, tierWeightSum,
          firstSeen, lastSeen)
    }

    constructor (source: string, title: string, sentiment: real, now: int)
      ensures View() == NewRow(source, title, sentiment, now)
    {
      headline, sources, headlines, sentiments := title, [source], [title], [sentiment];
      storyCount, fusedSentiment, polarization := 1, sentiment, Polarization([sentiment]);
      tierWeightSum, firstSeen, lastSeen, freshWeight := SourceTierWeight(source), now, now, 0.0;
    }

    /** Polarization recomputed from all member sentiments. */
    method EffectivePolarization() returns (score: real)
      ensures score == Polarization(sentiments)
    {
      var bull, bear := 0, 0;
      for i := 0 to |sentiments|
        invariant bull == CountBeyond(sentiments[..i], true) && bear == CountBeyond(sentiments[..i], false)
      {
        assert sentiments[..i + 1][..i] == sentiments[..i];
        if sentiments[i] > 0.05 {
          bull := bull + 1;
        } else if sentiments[i] < -0.05 {
          bear := bear + 1;
        }
      }
      assert sentiments[..|sentiments|] == sentiments;
      score := PolarizationScore(bull, bear);
    }

    /** Whether a normalised headline belongs here: inside the window, and like one of the members. */
    method Matches(norm: string, now: int) returns (found: bool)
      ensures found == Covers(View(), norm, now)
    {
      hide TrigramJaccard;
      if now - lastSeen > MERGE_WINDOW {
        return false;
      }
      for h := 0 to |headlines|
        invariant forall g | 0 <= g < h :: TrigramJaccard(norm, headlines[g]) < JACCARD_THRESHOLD
      {
        if TrigramJaccard(norm, headlines[h]) >= JACCARD_THRESHOLD {
          assert headlines[h] in View().headlines;
          return true;
        }
      }
      found := false;
    }

    method Merge(source: string, title: string, sentiment: real, now: int)
      requires tierWeightSum + SourceTierWeight(source) != 0.0
      modifies this
      ensures View() == Merged(old(View()), source, title, sentiment, now)
    {
      hide SourceTierWeight, Polarization, FusedNext;
      sources := sources + [source];
      headlines := headlines + [title];
      sentiments := sentiments + [sentiment];
      var tier := SourceTierWeight(source);
      tierWeightSum := tierWeightSum + tier;
      fusedSentiment := FusedNext(fusedSentiment, tierWeightSum, tier, sentiment);
      storyCount := storyCount + 1;
      polarization := EffectivePolarization();
      if now > lastSeen {
        lastSeen := now;
      }
      if now < firstSeen {
        firstSeen := now;
      }
    }
  }

  class ClusterSet {
    /** In seconds. */
    const halfLife: int
    /** The slice: the first `count` slots of a backing array that appends may replace and pruning reuses. */
    var slots: array<NewsCluster>
    var count: nat

    function Items(): seq<NewsCluster>
      requires count <= slots.Length
      reads this, slots
    {
      slots[..count]
    }

    ghost predicate Valid()
      reads this, slots, if count <= slots.Length then slots[..count] else []
    {
      && count <= slots.Length && halfLife > 0
      && Distinct(Items())
      && AllSound(Views(Items()))
    }

    ghost function Rows(): seq<Row>
      requires count <= slots.Length
      reads this, slots, slots[..count]
    {
      Views(Items())
    }

    constructor (halfLife: int)
      ensures Valid() && Rows() == [] && fresh(slots)
    {
      this.halfLife := if halfLife <= 0 then 900 else halfLife;
      slots := new NewsCluster[0];
      count := 0;
    }

    /** Visits every cluster; a later match replaces an earlier one. */
    method FindTarget(norm: string, now: int) returns (i: int)
      requires Valid()
      ensures i == Target(Rows(), norm, now)
    {
      hide Covers, Sound;
      i := -1;
      for k := 0 to count
        invariant i == Target(Rows()[..k], norm, now)
      {
        assert Rows()[..k + 1][..k] == Rows()[..k] && Rows()[..k + 1][k] == slots[k].View();
        var matches := slots[k].Matches(norm, now);
        if matches {
          i := k;
        }
      }
      assert Rows()[..count] == Rows();
    }

    /** Folds one headline into the clusters; returns the cluster it landed in, null for an empty headline. */
    method Ingest(source: string, title: string, sentiment: real, now: int) returns (target: NewsCluster?)
      requires Valid()
      modifies this, slots, Items()
      ensures Valid()
      ensures Rows() == Ingested(old(Rows()), source, title, sentiment, now)
      ensures target == null <==> Words(title) == []
      ensures target != null ==> target in Items() && title in target.headlines
    {
      hide Words, Joined, Covers, Sound, Target, NewRow, Merged, Ingested, AllSound, SourceTierWeight, Distinct;
      IngestPlan(Rows(), source, title, sentiment, now);
      var norm := NormalizeHeadline(title);
      if norm == "" {
        return null;
      }
      var i := FindTarget(norm, now);
      if i < 0 {
        target := Start(source, title, sentiment, now);
      } else {
        target := Extend(i, source, title, sentiment, now);
      }
    }

    method Start(source: string, title: string, sentiment: real, now: int) returns (target: NewsCluster)
      requires Valid() && AllSound(Rows() + [NewRow(source, title, sentiment, now)])
      modifies this, slots
      ensures Valid() && Rows() == old(Rows()) + [NewRow(source, title, sentiment, now)]
      ensures target in Items() && title in target.headlines
    {
      hide Sound, Polarization, SourceTierWeight;
      target := new NewsCluster(source, title, sentiment, now);
      Append(target);
      assert Rows() == old(Rows()) + [target.View()];
      assert title in target.View().headlines;
    }

    /** Go's `append`: in place while there is room, else into a larger copy. */
    method Append(c: NewsCluster)
      requires count <= slots.Length
      modifies this, slots
      ensures count <= slots.Length && Items() == old(Items()) + [c]
    {
      if count == slots.Length {
        var was := slots;
        slots := new NewsCluster[2 * count + 1](i requires 0 <= i reads was => if i < was.Length then was[i] else c);
        assert slots[..count] == was[..count];
      }
      slots[count] := c;
      count := count + 1;
    }

    method Extend(i: nat, source: string, title: string, sentiment: real, now: int) returns (target: NewsCluster)
      requires Valid() && i < count
      requires Rows()[i].tierWeightSum + SourceTierWeight(source) != 0.0
      requires AllSound(Rows()[i := Merged(Rows()[i], source, title, sentiment, now)])
      modifies Items()
      ensures Valid() && Rows() == old(Rows())[i := Merged(old(Rows())[i], source, title, sentiment, now)]
      ensures target in Items() && title in target.headlines
    {
      hide Sound, Polarization, SourceTierWeight;
      target := slots[i];
      assert target in Items() && target.View() == Rows()[i];
      target.Merge(source, title, sentiment, now);
      assert Rows() == old(Rows())[i := target.View()];
      assert title in target.View().headlines;
    }

    /** Halfway through pruning: the survivors so far at the front, slots from `k` on still as they were. */
    ghost predicate Compacting(items: seq<NewsCluster>, rows: seq<Row>, k: nat, w: nat, now: int, exp: real -> real)
      requires |items| == |rows|
      reads this, slots, items
    {
      && w <= k <= count == |items| && count <= slots.Length && halfLife > 0
      && slots[..w] == Survivors(items[..k], rows[..k], now, halfLife)
      && (forall j | k <= j < count :: slots[j] == items[j])
      && (forall i | 0 <= i < count :: items[i].View() == rows[i])
      && (forall i | 0 <= i < k && Live(rows[i], now, halfLife) :: Weighted(items[i], now, halfLife, exp))
    }

    /** One iteration of the pruning loop. */
    method Visit(k: nat, w: nat, now: int, exp: real -> real, ghost items: seq<NewsCluster>, ghost rows: seq<Row>)
      returns (next: nat)
      requires |items| == |rows| && Distinct(items) && k < count && Compacting(items, rows, k, w, now, exp)
      modifies slots, items
      ensures Compacting(items, rows, k + 1, next, now, exp)
    {
      hide Survival, FreshnessWeight, Survivors;
      next := w;
      var c := slots[k];
      assert c == items[k] && c.View() == rows[k];
      SurvivorsNext(items, rows, k, now, halfLife);
      if now - c.lastSeen <= 2 * halfLife {
        SurvivorKeepsWeight(now - c.lastSeen, halfLife, exp);
        c.freshWeight := FreshnessWeight(now - c.lastSeen, halfLife as real / 60.0, exp);
        slots[w] := c;
        next := w + 1;
        assert slots[..next] == old(slots[..w]) + [c];
      }
    }

    /** The pruning loop, which overwrites the backing array from the front while still reading it. */
    method Compact(now: int, exp: real -> real) returns (w: nat)
      requires Valid()
      modifies slots, Items()
      ensures w <= count
      ensures slots[..w] == Survivors(old(Items()), old(Rows()), now, halfLife)
      ensures forall i | 0 <= i < count :: old(Items())[i].View() == old(Rows())[i]
      ensures forall i | 0 <= i < count && Live(old(Rows())[i], now, halfLife) ::
                Weighted(old(Items())[i], now, halfLife, exp)
    {
      hide Sound, AllSound, Survival, Survivors, Weighted;
      ghost var items, rows := Items(), Rows();
      NoSurvivors(now, halfLife);
      assert items[..0] == [] && rows[..0] == [];
      w := 0;
      for k := 0 to count
        invariant Compacting(items, rows, k, w, now, exp)
      {
        hide Compacting;
        w := Visit(k, w, now, exp, items, rows);
      }
      assert items[..count] == items && rows[..count] == rows;
    }

    /** Drops the clusters past twice the half-life; returns a copy of the rest, none discarded by its weight. */
    method Clusters(now: int, exp: real -> real) returns (out: seq<NewsCluster>)
      requires Valid()
      modifies this, slots, Items()
      ensures Valid() && slots == old(slots) && out == Items()
      ensures Rows() == Pruned(old(Rows()), now, halfLife)
      ensures forall c | c in out :: c in old(Items()) && Weighted(c, now, halfLife, exp)
    {
      hide Sound, Survival;
      ghost var items, rows := Items(), Rows();
      PrunedKeeps(rows, now, halfLife);
      count := Compact(now, exp);
      SurvivorsAre(items, rows, now, halfLife);
      out := Items();
    }
  }

  /** The objects of the rows that survive pruning, in their order. */
  ghost function Survivors(items: seq<NewsCluster>, rows: seq<Row>, now: int, halfLife: int): seq<NewsCluster>
    requires |items| == |rows|
  {
    if items == [] then []
    else
      var n := |items| - 1;
      Survivors(items[..n], rows[..n], now, halfLife) + if Live(rows[n], now, halfLife) then [items[n]] else []
  }

  lemma NoSurvivors(now: int, halfLife: int)
    ensures Survivors([], [], now, halfLife) == []
  {
  }

  lemma SurvivorsNext(items: seq<NewsCluster>, rows: seq<Row>, k: nat, now: int, halfLife: int)
    requires |items| == |rows| && k < |items|
    ensures Survivors(items[..k + 1], rows[..k + 1], now, halfLife) ==
            Survivors(items[..k], rows[..k], now, halfLife) + if Live(rows[k], now, halfLife) then [items[k]] else []
  {
    assert items[..k + 1][..k] == items[..k] && rows[..k + 1][..k] == rows[..k];
  }

  lemma {:induction false} SurvivorsAre(items: seq<NewsCluster>, rows: seq<Row>, now: int, halfLife: int)
    requires Distinct(items) && |items| == |rows|
    requires forall i | 0 <= i < |items| :: items[i].View() == rows[i]
    ensures Distinct(Survivors(items, rows, now, halfLife))
    ensures Views(Survivors(items, rows, now, halfLife)) == Pruned(rows, now, halfLife)
    ensures forall c | c in Survivors(items, rows, now, halfLife) ::
              exists i | 0 <= i < |items| :: c == items[i] && Live(rows[i], now, halfLife)
  {
    if items != [] {
      var n := |items| - 1;
      SurvivorsAre(items[..n], rows[..n], now, halfLife);
      assert items[n] !in Survivors(items[..n], rows[..n], now, halfLife);
    }
  }

  /** What reading the clusters leaves in `freshWeight`. */
  ghost predicate Weighted(c: NewsCluster, now: int, halfLife: int, exp: real -> real)
    reads c
    requires halfLife > 0
  {
    c.freshWeight == Survival(now - c.lastSeen, halfLife, exp)
  }

  ghost predicate Distinct(cs: seq<NewsCluster>) {
    forall i, j | 0 <= i < j < |cs| :: cs[i] != cs[j]
  }

  /** The weight of a live cluster: the decay itself, never the discard. */
  function Survival(age: int, halfLife: int, exp: real -> real): real
    requires halfLife > 0
  {
    exp(-LN2 * ((if age < 0 then 0 else age) as real / 60.0) / (halfLife as real / 60.0))
  }

  lemma SurvivorKeepsWeight(age: int, halfLife: int, exp: real -> real)
    requires halfLife > 0 && age <= 2 * halfLife
    ensures FreshnessWeight(age, halfLife as real / 60.0, exp) == Survival(age, halfLife, exp)
  {
  }

  ghost function Views(cs: seq<NewsCluster>): seq<Row>
    reads cs
  {
    seq(|cs|, i requires 0 <= i < |cs| reads cs => cs[i].View())
  }

  lemma EmptyNorm(words: seq<string>)
    requires AllWords(words)
    ensures Joined(words) == [] <==> words == []
  {
    if words != [] {
      JoinedStarts(words);
    }
  }

  // ------------------------------------------------------------------- laws

  lemma FusedNextBalances(fused: real, before: real, total: real, tier: real, sentiment: real)
    requires before > 0.0 && tier > 0.0 && Balances(fused, before, total)
    ensures Balances(FusedNext(fused, before + tier, tier, sentiment), before + tier, total + Share(tier, sentiment))
  {
    var next := total + sentiment * tier;
    assert (before + tier) - tier == before;
    assert FusedNext(fused, before + tier, tier, sentiment) == next / (before + tier);
    DivMulCancel(next, before + tier);
  }

  /** A headline like some member links to it when appended; the earlier links stand. */
  lemma LinksExtend(headlines: seq<string>, title: string, h: string)
    requires h in headlines && TrigramJaccard(title, h) >= JACCARD_THRESHOLD
    requires forall j | 1 <= j < |headlines| :: Linked(headlines, j)
    ensures forall j | 1 <= j < |headlines + [title]| :: Linked(headlines + [title], j)
  {
    hide TrigramJaccard;
    var all := headlines + [title];
    forall j | 1 <= j < |all|
      ensures Linked(all, j)
    {
      if j < |headlines| {
        assert Linked(headlines, j);
        var i :| 0 <= i < j && TrigramJaccard(headlines[j], headlines[i]) >= JACCARD_THRESHOLD;
        assert all[i] == headlines[i] && all[j] == headlines[j];
      } else {
        var i :| 0 <= i < |headlines| && headlines[i] == h;
        assert all[i] == h && all[j] == title;
      }
    }
  }

  lemma AppendedSums(sources: seq<string>, sentiments: seq<real>, source: string, sentiment: real)
    requires |sources| == |sentiments|
    ensures WeightSum(sources + [source]) == WeightSum(sources) + SourceTierWeight(source)
    ensures WeightedSentiment(sources + [source], sentiments + [sentiment]) ==
            WeightedSentiment(sources, sentiments) + Share(SourceTierWeight(source), sentiment)
  {
    hide SourceTierWeight;
    assert (sources + [source])[..|sources|] == sources && (sentiments + [sentiment])[..|sentiments|] == sentiments;
  }

  lemma MergedSound(r: Row, source: string, title: string, sentiment: real, now: int, h: string)
    requires Sound(r) && h in r.headlines && TrigramJaccard(title, h) >= JACCARD_THRESHOLD
    ensures r.tierWeightSum + SourceTierWeight(source) != 0.0
    ensures Sound(Merged(r, source, title, sentiment, now))
  {
    WeightsPositive(r.sources);
    FusedNextBalances(r.fusedSentiment, r.tierWeightSum, WeightedSentiment(r.sources, r.sentiments),
                      SourceTierWeight(source), sentiment);
    LinksExtend(r.headlines, title, h);
    AppendedSums(r.sources, r.sentiments, source, sentiment);
    hide TrigramJaccard, SourceTierWeight, Polarization, Linked, WeightSum, WeightedSentiment, FusedNext,
      Share, Balances;
    assert (r.headlines + [title])[0] == r.headlines[0];
  }

  /** What one headline does to the clusters: nothing, a new cluster, or one cluster extended. */
  lemma IngestPlan(rows: seq<Row>, source: string, title: string, sentiment: real, now: int)
    requires AllSound(rows)
    ensures AllSound(Ingested(rows, source, title, sentiment, now))
    ensures Joined(Words(title)) == "" <==> Words(title) == []
    ensures var i := Target(rows, Joined(Words(title)), now);
            Ingested(rows, source, title, sentiment, now) ==
            if Words(title) == [] then rows
            else if i < 0 then rows + [NewRow(source, title, sentiment, now)]
            else
              assert rows[i].tierWeightSum + SourceTierWeight(source) != 0.0 by { WeightsPositive(rows[i].sources); }
              rows[i := Merged(rows[i], source, title, sentiment, now)]
    ensures var i := Target(rows, Joined(Words(title)), now);
            i >= 0 ==> rows[i].tierWeightSum + SourceTierWeight(source) != 0.0
  {
    WordsAreWords(title, []);
    EmptyNorm(Words(title));
    IngestedSound(rows, source, title, sentiment, now);
    var i := Target(rows, Joined(Words(title)), now);
    if i >= 0 {
      WeightsPositive(rows[i].sources);
    }
  }

  lemma NewSound(source: string, title: string, sentiment: real, now: int)
    ensures Sound(NewRow(source, title, sentiment, now))
  {
    assert [source][..0] == [] && [sentiment][..0] == [];
    assert WeightSum([source]) == SourceTierWeight(source);
    assert WeightedSentiment([source], [sentiment]) == SourceTierWeight(source) * sentiment;
  }

  lemma IngestedSound(rows: seq<Row>, source: string, title: string, sentiment: real, now: int)
    requires AllSound(rows)
    ensures AllSound(Ingested(rows, source, title, sentiment, now))
  {
    var norm := Joined(Words(title));
    var i := Target(rows, norm, now);
    NewSound(source, title, sentiment, now);
    if norm != [] && i >= 0 {
      var h :| h in rows[i].headlines && TrigramJaccard(norm, h) >= JACCARD_THRESHOLD;
      SimilarityOfNormalForms(title, h);
      MergedSound(rows[i], source, title, sentiment, now, h);
    }
  }

  lemma {:induction false} PrunedKeeps(rows: seq<Row>, now: int, halfLife: int)
    ensures forall r :: r in Pruned(rows, now, halfLife) <==> r in rows && Live(r, now, halfLife)
    ensures AllSound(rows) ==> AllSound(Pruned(rows, now, halfLife))
    decreases |rows|
  {
    if rows != [] {
      PrunedKeeps(rows[..|rows| - 1], now, halfLife);
      assert rows == rows[..|rows| - 1] + [rows[|rows| - 1]];
    }
  }

  datatype Event = News(source: string, title: string, sentiment: real, now: int) | Prune(now: int)

  ghost function Run(events: seq<Event>, halfLife: int): (rows: seq<Row>)
    ensures AllSound(rows)
  {
    if events == [] then []
    else
      var before, e := Run(events[..|events| - 1], halfLife), events[|events| - 1];
      match e
      case News(source, title, sentiment, now) =>
        IngestedSound(before, source, title, sentiment, now);
        Ingested(before, source, title, sentiment, now)
      case Prune(now) =>
        PrunedKeeps(before, now, halfLife);
        Pruned(before, now, halfLife)
  }

  predicate TotalWithin(lo: real, weight: real, total: real, hi: real) {
    lo * weight <= total <= hi * weight
  }

  lemma MeanStep(weight: real, total: real, tier: real, sentiment: real, lo: real, hi: real)
    requires tier > 0.0 && lo <= sentiment <= hi
    requires TotalWithin(lo, weight, total, hi)
    ensures TotalWithin(lo, weight + tier, total + Share(tier, sentiment), hi)
  {
    MulMonotone(lo, sentiment, tier);
    MulMonotone(sentiment, hi, tier);
    assert lo * (weight + tier) == lo * weight + lo * tier && hi * (weight + tier) == hi * weight + hi * tier;
  }

  lemma {:induction false} MeanWithin(sources: seq<string>, sentiments: seq<real>, lo: real, hi: real)
    requires |sources| == |sentiments| && forall k | 0 <= k < |sentiments| :: lo <= sentiments[k] <= hi
    ensures TotalWithin(lo, WeightSum(sources), WeightedSentiment(sources, sentiments), hi)
    decreases |sources|
  {
    if sources != [] {
      hide SourceTierWeight, TotalWithin, Share;
      var n := |sources| - 1;
      MeanWithin(sources[..n], sentiments[..n], lo, hi);
      MeanStep(WeightSum(sources[..n]), WeightedSentiment(sources[..n], sentiments[..n]), SourceTierWeight(sources[n]),
               sentiments[n], lo, hi);
    }
  }

  /** The incremental sentiment is the tier-weighted mean of all members, and lies within any bounds they share. */
  lemma FusedIsWeightedMean(r: Row, lo: real, hi: real)
    requires Sound(r) && forall k | 0 <= k < |r.sentiments| :: lo <= r.sentiments[k] <= hi
    ensures WeightSum(r.sources) > 0.0
    ensures r.fusedSentiment == WeightedSentiment(r.sources, r.sentiments) / WeightSum(r.sources)
    ensures lo <= r.fusedSentiment <= hi
  {
    WeightsPositive(r.sources);
    MeanWithin(r.sources, r.sentiments, lo, hi);
    hide *;
    QuotientWithin(r.fusedSentiment, WeightSum(r.sources), WeightedSentiment(r.sources, r.sentiments), lo, hi);
  }

  lemma QuotientWithin(f: real, w: real, total: real, lo: real, hi: real)
    requires w > 0.0 && Balances(f, w, total) && TotalWithin(lo, w, total, hi)
    ensures f == total / w && lo <= f <= hi
  {
    MulDivCancel(f, w);
    MulDivCancel(lo, w);
    MulDivCancel(hi, w);
    DivMonotone(lo * w, total, w);
    DivMonotone(total, hi * w, w);
  }

  /** Every cluster of every run, pruned or not: the mean, within the members' range, and each later story linked. */
  lemma EveryClusterIsAMean(events: seq<Event>, halfLife: int, i: nat, lo: real, hi: real)
    requires i < |Run(events, halfLife)|
    requires forall k | 0 <= k < |Run(events, halfLife)[i].sentiments| ::
             lo <= Run(events, halfLife)[i].sentiments[k] <= hi
    ensures var r := Run(events, halfLife)[i];
            && |r.headlines| == |r.sources| == |r.sentiments| == r.storyCount
            && lo <= r.fusedSentiment <= hi
            && WeightSum(r.sources) > 0.0
            && r.fusedSentiment == WeightedSentiment(r.sources, r.sentiments) / WeightSum(r.sources)
            && forall j | 1 <= j < |r.headlines| :: Linked(r.headlines, j)
  {
    FusedIsWeightedMean(Run(events, halfLife)[i], lo, hi);
  }

  /** All headlines held, with repetition. */
  function AllHeadlines(rows: seq<Row>): multiset<string> {
    if rows == [] then multiset{} else AllHeadlines(rows[..|rows| - 1]) + multiset(rows[|rows| - 1].headlines)
  }

  lemma {:induction false} ReplaceHeadlines(rows: seq<Row>, i: nat, r: Row, title: string)
    requires i < |rows| && r.headlines == rows[i].headlines + [title]
    ensures AllHeadlines(rows[i := r]) == AllHeadlines(rows) + multiset{title}
    decreases |rows|
  {
    var n := |rows| - 1;
    if i == n {
      assert rows[i := r][..n] == rows[..n];
    } else {
      ReplaceHeadlines(rows[..n], i, r, title);
      assert rows[i := r][..n] == rows[..n][i := r];
    }
  }

  /** Each headline with a word in it enters exactly one cluster, and disturbs no other member. */
  lemma IngestAddsExactlyOne(rows: seq<Row>, source: string, title: string, sentiment: real, now: int)
    requires AllSound(rows)
    ensures AllHeadlines(Ingested(rows, source, title, sentiment, now)) ==
            AllHeadlines(rows) + if Words(title) == [] then multiset{} else multiset{title}
  {
    WordsAreWords(title, []);
    EmptyNorm(Words(title));
    var i := Target(rows, Joined(Words(title)), now);
    if Words(title) != [] {
      if i >= 0 {
        WeightsPositive(rows[i].sources);
        ReplaceHeadlines(rows, i, Merged(rows[i], source, title, sentiment, now), title);
      } else {
        var all := rows + [NewRow(source, title, sentiment, now)];
        assert all[..|all| - 1] == rows;
      }
    }
  }

  /** The headlines of a run of news, those without a word aside. */
  function NewsTitles(events: seq<Event>): multiset<string> {
    if events == [] then multiset{}
    else
      var e := events[|events| - 1];
      NewsTitles(events[..|events| - 1]) + if e.News? && Words(e.title) != [] then multiset{e.title} else multiset{}
  }

  /** Without pruning, the clusters of a run hold exactly the headlines ingested, each once. */
  lemma {:induction false} RunPartitionsHeadlines(events: seq<Event>, halfLife: int)
    requires forall k | 0 <= k < |events| :: events[k].News?
    ensures AllHeadlines(Run(events, halfLife)) == NewsTitles(events)
    decreases |events|
  {
    if events != [] {
      var before, e := events[..|events| - 1], events[|events| - 1];
      RunPartitionsHeadlines(before, halfLife);
      IngestAddsExactlyOne(Run(before, halfLife), e.source, e.title, e.sentiment, e.now);
    }
  }

  // -------------------------------------------------------- freshest first

  /** The order the comment on `Clusters` promises. */
  predicate FreshestFirst(rows: seq<Row>) {
    forall i, j | 0 <= i < j < |rows| :: rows[i].lastSeen >= rows[j].lastSeen
  }

  predicate SeenBy(rows: seq<Row>, now: int) {
    forall i | 0 <= i < |rows| :: rows[i].lastSeen <= now
  }

  /** Where a headline lands: its cluster's place, or one past the last. */
  function Place(rows: seq<Row>, title: string, now: int): (i: nat)
    ensures i <= |rows|
  {
    hide *;
    var i := Target(rows, Joined(Words(title)), now);
    if i < 0 then |rows| else i
  }

  function Others(rows: seq<Row>, i: nat): seq<Row>
    requires i <= |rows|
  {
    if i == |rows| then rows else rows[..i] + rows[i + 1..]
  }

  /**
   * One headline that is no older than any story leaves the clusters freshest first exactly when the
   * untouched ones are, and every one before its place was last seen at this very instant.
   */
  lemma IngestKeepsOrderIff(rows: seq<Row>, source: string, title: string, sentiment: real, now: int)
    requires AllSound(rows) && SeenBy(rows, now) && Words(title) != []
    ensures SeenBy(Ingested(rows, source, title, sentiment, now), now)
    ensures var i := Place(rows, title, now);
            FreshestFirst(Ingested(rows, source, title, sentiment, now)) <==>
              FreshestFirst(Others(rows, i)) && forall k | 0 <= k < i :: rows[k].lastSeen == now
  {
    WordsAreWords(title, []);
    EmptyNorm(Words(title));
    var i, after := Place(rows, title, now), Ingested(rows, source, title, sentiment, now);
    LandsAt(rows, source, title, sentiment, now);
    hide Ingested, AllSound, Sound, Words, Joined, Place;
    OrderAround(rows, after, i, now);
  }

  lemma LandsAt(rows: seq<Row>, source: string, title: string, sentiment: real, now: int)
    requires AllSound(rows) && SeenBy(rows, now) && Joined(Words(title)) != []
    ensures var i, after := Place(rows, title, now), Ingested(rows, source, title, sentiment, now);
            && |after| == (if i == |rows| then i + 1 else |rows|)
            && after[i].lastSeen == now && forall k | 0 <= k < |rows| && k != i :: after[k] == rows[k]
  {
    hide Words, Joined, Sound, Covers, SourceTierWeight, Polarization, FusedNext, WeightSum;
    var i := Target(rows, Joined(Words(title)), now);
    if i >= 0 {
      WeightsPositive(rows[i].sources);
    }
  }

  /** Over plain rows: one of them set to `now`, which none exceeds. */
  lemma OrderAround(rows: seq<Row>, after: seq<Row>, i: nat, now: int)
    requires SeenBy(rows, now) && i <= |rows| && |after| == (if i == |rows| then i + 1 else |rows|)
    requires after[i].lastSeen == now && forall k | 0 <= k < |rows| && k != i :: after[k] == rows[k]
    ensures SeenBy(after, now)
    ensures FreshestFirst(after) <==> FreshestFirst(Others(rows, i)) && forall k | 0 <= k < i :: rows[k].lastSeen == now
  {
    var rest := Others(rows, i);
    if FreshestFirst(after) {
      forall j, k | 0 <= j < k < |rest|
        ensures rest[j].lastSeen >= rest[k].lastSeen
      {
        assert rest[j] == after[if j < i then j else j + 1] && rest[k] == after[if k < i then k else k + 1];
      }
      forall k | 0 <= k < i
        ensures rows[k].lastSeen == now
      {
        assert after[k].lastSeen >= after[i].lastSeen;
      }
    }
    if FreshestFirst(rest) && forall k | 0 <= k < i :: rows[k].lastSeen == now {
      forall j, k | 0 <= j < k < |after|
        ensures after[j].lastSeen >= after[k].lastSeen
      {
        if j > i {
          assert after[j] == rest[j - 1] && after[k] == rest[k - 1];
        }
      }
    }
  }

  function TimeOf(e: Event): int {
    match e
    case News(_, _, _, now) => now
    case Prune(now) => now
  }

  /** Events come in the order of their times. */
  predicate Timely(events: seq<Event>) {
    forall i, j | 0 <= i < j < |events| :: TimeOf(events[i]) <= TimeOf(events[j])
  }

  /** The headline lands behind a cluster last seen before it. */
  predicate LandsBehind(rows: seq<Row>, e: Event) {
    e.News? && Words(e.title) != [] && exists k | 0 <= k < Place(rows, e.title, e.now) :: rows[k].lastSeen != e.now
  }

  ghost predicate AlwaysFreshestFirst(events: seq<Event>, halfLife: int) {
    FreshestFirst(Run(events, halfLife)) && (events == [] || AlwaysFreshestFirst(events[..|events| - 1], halfLife))
  }

  ghost predicate NeverLandsBehind(events: seq<Event>, halfLife: int) {
    events == [] ||
    var before := events[..|events| - 1];
    !LandsBehind(Run(before, halfLife), events[|events| - 1]) && NeverLandsBehind(before, halfLife)
  }

  lemma {:induction false} PrunedKeepsOrder(rows: seq<Row>, now: int, halfLife: int)
    requires FreshestFirst(rows)
    ensures FreshestFirst(Pruned(rows, now, halfLife))
    decreases |rows|
  {
    if rows != [] {
      var n := |rows| - 1;
      PrunedKeepsOrder(rows[..n], now, halfLife);
      PrunedKeeps(rows[..n], now, halfLife);
      forall r | r in rows[..n]
        ensures r.lastSeen >= rows[n].lastSeen
      {
        var k :| 0 <= k < n && rows[k] == r;
      }
    }
  }

  lemma {:induction false} RunSeenBy(events: seq<Event>, halfLife: int, now: int)
    requires Timely(events) && (events != [] ==> TimeOf(events[|events| - 1]) <= now)
    ensures SeenBy(Run(events, halfLife), now)
    decreases |events|
  {
    if events != [] {
      var before, e := events[..|events| - 1], events[|events| - 1];
      RunSeenBy(before, halfLife, TimeOf(e));
      EventKeepsOrderIff(events, halfLife);
      hide Run;
    }
  }

  /** The last event of a run, on the clusters before it. */
  lemma EventKeepsOrderIff(events: seq<Event>, halfLife: int)
    requires events != []
    requires SeenBy(Run(events[..|events| - 1], halfLife), TimeOf(events[|events| - 1]))
    ensures SeenBy(Run(events, halfLife), TimeOf(events[|events| - 1]))
    ensures FreshestFirst(Run(events[..|events| - 1], halfLife)) ==>
              (FreshestFirst(Run(events, halfLife)) <==>
                 !LandsBehind(Run(events[..|events| - 1], halfLife), events[|events| - 1]))
  {
    var rows, e := Run(events[..|events| - 1], halfLife), events[|events| - 1];
    hide *;
    match e {
      case News(source, title, sentiment, now) =>
        NewsKeepsOrderIff(rows, e);
        RunNews(events, halfLife);
      case Prune(now) =>
        PruneKeepsOrderIff(rows, e, halfLife);
        RunPrune(events, halfLife);
    }
  }

  lemma RunNews(events: seq<Event>, halfLife: int)
    requires events != [] && events[|events| - 1].News?
    ensures var before, e := Run(events[..|events| - 1], halfLife), events[|events| - 1];
            Run(events, halfLife) == Ingested(before, e.source, e.title, e.sentiment, e.now)
  {
    hide Ingested, Sound;
  }

  lemma RunPrune(events: seq<Event>, halfLife: int)
    requires events != [] && events[|events| - 1].Prune?
    ensures Run(events, halfLife) == Pruned(Run(events[..|events| - 1], halfLife), events[|events| - 1].now, halfLife)
  {
    hide Pruned, Sound;
  }

  lemma NewsKeepsOrderIff(rows: seq<Row>, e: Event)
    requires AllSound(rows) && e.News? && SeenBy(rows, TimeOf(e))
    ensures var after := Ingested(rows, e.source, e.title, e.sentiment, e.now);
            SeenBy(after, TimeOf(e)) && (FreshestFirst(rows) ==> (FreshestFirst(after) <==> !LandsBehind(rows, e)))
  {
    WordsAreWords(e.title, []);
    EmptyNorm(Words(e.title));
    if Words(e.title) != [] {
      IngestKeepsOrderIff(rows, e.source, e.title, e.sentiment, e.now);
      hide Ingested, AllSound, Words, Joined, Place, Others, FreshestFirst;
      if FreshestFirst(rows) {
        OthersKeepOrder(rows, Place(rows, e.title, e.now));
      }
    }
    hide AllSound, Words, Joined, Place, Others, FreshestFirst;
  }

  lemma PruneKeepsOrderIff(rows: seq<Row>, e: Event, halfLife: int)
    requires e.Prune? && SeenBy(rows, TimeOf(e))
    ensures var after := Pruned(rows, e.now, halfLife);
            SeenBy(after, TimeOf(e)) && (FreshestFirst(rows) ==> FreshestFirst(after)) && !LandsBehind(rows, e)
  {
    PrunedKeeps(rows, e.now, halfLife);
    if FreshestFirst(rows) {
      PrunedKeepsOrder(rows, e.now, halfLife);
    }
    hide Pruned, AllSound, FreshestFirst;
  }

  lemma OthersKeepOrder(rows: seq<Row>, i: nat)
    requires i <= |rows| && FreshestFirst(rows)
    ensures FreshestFirst(Others(rows, i))
  {
  }

  /**
   * Over every run in time order the clusters are freshest first throughout exactly when no headline ever
   * lands behind a cluster last seen before it.
   */
  lemma {:induction false} FreshestFirstIff(events: seq<Event>, halfLife: int)
    requires Timely(events)
    ensures AlwaysFreshestFirst(events, halfLife) <==> NeverLandsBehind(events, halfLife)
    decreases |events|
  {
    if events != [] {
      var before, e := events[..|events| - 1], events[|events| - 1];
      FreshestFirstIff(before, halfLife);
      RunSeenBy(before, halfLife, TimeOf(e));
      EventKeepsOrderIff(events, halfLife);
      assert FreshestFirst(Run(before, halfLife)) || !AlwaysFreshestFirst(before, halfLife);
      hide Run, LandsBehind, FreshestFirst;
    }
  }

  /** A story out of every cluster's window starts a cluster of its own, at the end. */
  lemma LateStoryStartsOne(rows: seq<Row>, source: string, title: string, sentiment: real, now: int)
    requires AllSound(rows) && Joined(Words(title)) != []
    requires forall i | 0 <= i < |rows| :: now - rows[i].lastSeen > MERGE_WINDOW
    ensures Ingested(rows, source, title, sentiment, now) == rows + [NewRow(source, title, sentiment, now)]
  {
    hide Words, Joined, AllSound, SourceTierWeight, Polarization, TrigramJaccard;
    var i := Target(rows, Joined(Words(title)), now);
  }

  lemma OneLetterIsAWord(c: char)
    requires c == 'a' || c == 'b'
    ensures Words([c]) != [] && Joined(Words([c])) != []
  {
    assert Lower(c) == c && IsWordChar(c) && [c][1..] == [] && [] + [c] == [c];
    assert WordsFrom([], [c]) == [[c]];
    assert Words([c]) == WordsFrom([], [] + [c]);
    WordsAreWords([c], []);
    EmptyNorm(Words([c]));
  }

  const OLDER: Event := News("reuters", "a", 0.0, 0)
  const NEWER: Event := News("reuters", "b", 0.0, 3000)

  lemma TwoStories(first: Row, second: Row)
    requires first == NewRow("reuters", "a", 0.0, 0) && second == NewRow("reuters", "b", 0.0, 3000)
    ensures Run([OLDER, NEWER], 3600) == [first, second]
  {
    hide Run, Ingested, Words, Joined, AllSound, NewRow;
    assert [OLDER, NEWER][..1] == [OLDER] && [OLDER][..0] == [];
    OneLetterIsAWord('a');
    OneLetterIsAWord('b');
    NothingAtFirst();
    RunNews([OLDER], 3600);
    RunNews([OLDER, NEWER], 3600);
    LateStoryStartsOne([], "reuters", "a", 0.0, 0);
    assert [] + [first] == [first];
    assert first.lastSeen == 0 by { FirstSeen("a", 0); }
    LateStoryStartsOne([first], "reuters", "b", 0.0, 3000);
  }

  lemma NothingAtFirst()
    ensures Run([], 3600) == []
  {
  }

  lemma FirstSeen(title: string, now: int)
    ensures NewRow("reuters", title, 0.0, now).lastSeen == now && NewRow("reuters", title, 0.0, now).headline == title
  {
  }

  /** Two stories fifty minutes apart are listed oldest first, though neither is pruned. */
  lemma OldestComesFirst()
    ensures var rows := Run([OLDER, NEWER, Prune(3000)], 3600);
            && Timely([OLDER, NEWER, Prune(3000)])
            && |rows| == 2 && rows[0].headline == "a" && rows[1].headline == "b" && !FreshestFirst(rows)
  {
    hide Run, Ingested, NewRow, Pruned, AllSound;
    var first, second := NewRow("reuters", "a", 0.0, 0), NewRow("reuters", "b", 0.0, 3000);
    assert [OLDER, NEWER, Prune(3000)][..2] == [OLDER, NEWER];
    TwoStories(first, second);
    FirstSeen("a", 0);
    FirstSeen("b", 3000);
    RunPrune([OLDER, NEWER, Prune(3000)], 3600);
    PrunedTwo(first, second, 3000, 3600);
  }

  lemma PrunedTwo(a: Row, b: Row, now: int, halfLife: int)
    requires Live(a, now, halfLife) && Live(b, now, halfLife)
    ensures Pruned([a, b], now, halfLife) == [a, b]
  {
    assert [a, b][..1] == [a] && [a][..0] == [];
    assert Pruned([a], now, halfLife) == [a];
  }

  // ------------------------------------------------------------ in plain counts

  /** The cluster was last seen at most 45 minutes before, and shares 82 hundredths of its trigrams with some member. */
  ghost predicate SameStory(r: Row, title: string, now: int) {
    && now - r.lastSeen <= 2700
    && exists h | h in r.headlines ::
         var ta, tb := TokenTrigrams(Words(title)), TokenTrigrams(Words(h));
         100 * |ta * tb| >= 82 * |ta + tb|
  }

  lemma CoversIs(r: Row, title: string, now: int)
    ensures Covers(r, Joined(Words(title)), now) <==> SameStory(r, title, now)
  {
    forall h | h in r.headlines
      ensures TrigramJaccard(Joined(Words(title)), h) >= JACCARD_THRESHOLD <==>
              var ta, tb := TokenTrigrams(Words(title)), TokenTrigrams(Words(h));
              100 * |ta * tb| >= 82 * |ta + tb|
    {
      SimilarityOfNormalForms(title, h);
      ThresholdIs(title, h);
    }
    hide TrigramJaccard, TokenTrigrams, Words, Joined;
  }

  /**
   * Where a headline with a word in it goes: into the last cluster that is the same story, with one more
   * member, seen now at the earliest; into one of its own at the end when there is none. No other changes.
   */
  lemma IngestIs(rows: seq<Row>, source: string, title: string, sentiment: real, now: int, i: int)
    requires AllSound(rows) && Words(title) != []
    requires -1 <= i < |rows| && (i >= 0 ==> SameStory(rows[i], title, now))
    requires forall k | i < k < |rows| :: !SameStory(rows[k], title, now)
    ensures var after := Ingested(rows, source, title, sentiment, now);
            if i < 0 then
              && |after| == |rows| + 1 && after[..|rows|] == rows
              && after[|rows|].headlines == [title] && after[|rows|].sources == [source]
              && after[|rows|].sentiments == [sentiment] && after[|rows|].lastSeen == now
            else
              && |after| == |rows| && (forall k | 0 <= k < |rows| && k != i :: after[k] == rows[k])
              && after[i].headlines == rows[i].headlines + [title] && after[i].sources == rows[i].sources + [source]
              && after[i].sentiments == rows[i].sentiments + [sentiment]
              && after[i].lastSeen == (if now > rows[i].lastSeen then now else rows[i].lastSeen)
  {
    WordsAreWords(title, []);
    EmptyNorm(Words(title));
    TargetIs(rows, title, now, i);
    hide Words, Joined, Sound, Covers, SameStory, SourceTierWeight, Polarization, FusedNext, WeightSum;
    if i >= 0 {
      WeightsPositive(rows[i].sources);
    }
  }

  lemma TargetIs(rows: seq<Row>, title: string, now: int, i: int)
    requires -1 <= i < |rows| && (i >= 0 ==> SameStory(rows[i], title, now))
    requires forall k | i < k < |rows| :: !SameStory(rows[k], title, now)
    ensures Target(rows, Joined(Words(title)), now) == i
  {
    hide *;
    var norm := Joined(Words(title));
    var t := Target(rows, norm, now);
    if t >= 0 {
      CoversIs(rows[t], title, now);
    }
    if i > t {
      CoversIs(rows[i], title, now);
      TargetIsLast(rows, norm, now, i);
    }
  }

  /** Twice the smaller camp over both camps: the members more bullish than 0.05 and those more bearish. */
  lemma PolarizationIs(sentiments: seq<real>)
    ensures var bull, bear := Bulls(sentiments, 0.05), Bears(sentiments, 0.05);
            && (|bull| + |bear| == 0 ==> Polarization(sentiments) == 0.0)
            && Polarization(sentiments) * (|bull| + |bear|) as real ==
               2.0 * (if |bull| < |bear| then |bull| else |bear|) as real
  {
    CountIsSize(sentiments);
    var bull, bear := |Bulls(sentiments, 0.05)|, |Bears(sentiments, 0.05)|;
    hide CountBeyond, Bulls, Bears;
    if bull + bear > 0 {
      DivMulCancel(Abs((bull - bear) as real), (bull + bear) as real);
      OneLess(Abs((bull - bear) as real) / (bull + bear) as real, (bull + bear) as real);
    }
  }

  lemma OneLess(x: real, n: real)
    ensures (1.0 - x) * n == n - x * n
  {
  }

  function Bulls(sentiments: seq<real>, beyond: real): set<int> {
    set i | 0 <= i < |sentiments| && sentiments[i] > beyond
  }

  function Bears(sentiments: seq<real>, beyond: real): set<int> {
    set i | 0 <= i < |sentiments| && sentiments[i] < -beyond
  }

  lemma {:induction false} CountIsSize(sentiments: seq<real>)
    ensures CountBeyond(sentiments, true) == |Bulls(sentiments, 0.05)|
    ensures CountBeyond(sentiments, false) == |Bears(sentiments, 0.05)|
    decreases |sentiments|
  {
    if sentiments != [] {
      CountIsSize(sentiments[..|sentiments| - 1]);
      OneMoreSentiment(sentiments, 0.05);
      hide Bulls, Bears;
    }
  }

  lemma OneMoreSentiment(sentiments: seq<real>, beyond: real)
    requires sentiments != []
    ensures var n := |sentiments| - 1;
            var bulls, bears := Bulls(sentiments[..n], beyond), Bears(sentiments[..n], beyond);
            && n !in bulls && Bulls(sentiments, beyond) == bulls + (if sentiments[n] > beyond then {n} else {})
            && n !in bears && Bears(sentiments, beyond) == bears + (if sentiments[n] < -beyond then {n} else {})
  {
  }

  /** Tier weights do not read the case of a source; a wire weighs most, the crypto press less, any other least. */
  lemma TierIs(source: string)
    ensures SourceTierWeight(source) == SourceTierWeight(LowerAll(source))
    ensures SourceTierWeight(source) == 1.0 <==>
            LowerAll(source) in {"reuters", "bloomberg", "wsj", "ft", "yahoo", "yahoo finance", "yahoofinance"}
    ensures SourceTierWeight(source) == 0.6 <==>
            LowerAll(source) in {"coindesk", "cointelegraph", "decrypt", "the block", "coingecko"}
    ensures SourceTierWeight(source) in {1.0, 0.6, 0.2}
  {
    assert LowerAll(LowerAll(source)) == LowerAll(source);
  }

  /** Pruning keeps exactly what was last seen at most two half-lives before. */
  lemma PruneIs(rows: seq<Row>, now: int, halfLife: int, r: Row)
    ensures r in Pruned(rows, now, halfLife) <==> r in rows && now - r.lastSeen <= halfLife + halfLife
  {
    PrunedKeeps(rows, now, halfLife);
  }

  /** A story loses half its weight with every half-life. */
  lemma SurvivalAtHalfLives(halfLife: int, exp: real -> real)
    requires halfLife > 0
    ensures Survival(halfLife, halfLife, exp) == exp(-LN2) && Survival(2 * halfLife, halfLife, exp) == exp(-2.0 * LN2)
    ensures Survival(0, halfLife, exp) == exp(0.0)
  {
    var h := halfLife as real / 60.0;
    assert (2 * halfLife) as real / 60.0 == 2.0 * h;
    MulDivCancel(-LN2, h);
    MulDivCancel(-2.0 * LN2, h);
    assert -LN2 * (2.0 * h) == -2.0 * LN2 * h;
    assert -LN2 * 0.0 / h == 0.0;
  }
}
