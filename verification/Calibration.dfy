/** The reliability report of settled bets
(internal/engine/brain/calibration.go:115-240), over the reals. */
module Calibration {
  import opened Wrappers
  import opened Factors
  import opened Order
  import opened Lists

  datatype Point = Point(predicted: real, observed: real)
  datatype Bin = Bin(low: real, high: real, n: nat, meanPredicted: real, observedFrequency: real)
  datatype Summary = Summary(technique: string, n: nat, meanPredicted: real, observedFrequency: real, brier: real,
                             bins: seq<Bin>)

  // ----- sums -----

  function Sum(f: Point -> real, points: seq<Point>): real {
    if points == [] then 0.0 else f(points[0]) + Sum(f, points[1..])
  }

  function Predicted(p: Point): real {
    p.predicted
  }

  function Observed(p: Point): real {
    p.observed
  }

  function SquaredError(p: Point): real {
    Times(p.predicted - p.observed, p.predicted - p.observed)
  }

  function One(p: Point): real {
    1.0
  }

  lemma {:induction false} SumSnoc(f: Point -> real, points: seq<Point>, p: Point)
    ensures Sum(f, points + [p]) == Sum(f, points) + f(p)
  {
    if points == [] {
      assert points + [p] == [p] && [p][1..] == [];
    } else {
      assert (points + [p])[1..] == points[1..] + [p];
      SumSnoc(f, points[1..], p);
    }
  }

  lemma {:induction false} SumRemove(f: Point -> real, points: seq<Point>, i: nat)
    requires i < |points|
    ensures Sum(f, points) == Sum(f, RemoveAt(points, i)) + f(points[i])
  {
    if i == 0 {
      assert RemoveAt(points, 0) == points[1..];
    } else {
      SumRemove(f, points[1..], i - 1);
      var rest := RemoveAt(points, i);
      assert rest[0] == points[0] && rest[1..] == RemoveAt(points[1..], i - 1);
    }
  }

  /** A sum does not depend on the order. */
  lemma {:induction false} SumPermuted(f: Point -> real, points: seq<Point>, others: seq<Point>)
    requires multiset(points) == multiset(others)
    ensures Sum(f, points) == Sum(f, others)
    decreases |points|
  {
    if points == [] {
      assert |multiset(others)| == 0;
    } else {
      var n := |points| - 1;
      var i := MatchLast(points, others);
      SumPermuted(f, points[..n], RemoveAt(others, i));
      SumRemove(f, others, i);
      SumRemove(f, points, n);
      assert RemoveAt(points, n) == points[..n];
    }
  }

  lemma {:induction false} SumOne(points: seq<Point>)
    ensures Sum(One, points) == |points| as real
  {
    if points != [] {
      SumOne(points[1..]);
    }
  }

  // ----- bins (calibration.go:216-240) -----

  function BinIndex(p: real, numBins: nat): (i: nat)
    requires numBins > 0
    ensures i < numBins
  {
    var k := (p * numBins as real).Floor;
    if k >= numBins then numBins - 1 else if k < 0 then 0 else k
  }

  function Low(i: nat, numBins: nat): real
    requires numBins > 0
  {
    i as real / numBins as real
  }

  /** The bins are the half-open intervals of the diagram, the last one closed. */
  lemma BinIsInterval(p: real, numBins: nat, i: nat)
    requires numBins > 0 && i < numBins && 0.0 <= p <= 1.0
    ensures BinIndex(p, numBins) == i
       <==> Low(i, numBins) <= p && (p < Low(i + 1, numBins) || i == numBins - 1)
  {
    var n := numBins as real;
    var x := p * n;
    assert 0.0 <= x <= n;
    Scale(i as real, p, n);
    Scale((i + 1) as real, p, n);
  }

  lemma Scale(a: real, p: real, n: real)
    requires n > 0.0
    ensures a / n <= p <==> a <= p * n
  {
    var q := a / n;
    assert q * n == a;
    if q <= p {
      assert (p - q) * n >= 0.0;
    } else {
      assert (q - p) * n > 0.0;
    }
  }

  function InBin(points: seq<Point>, numBins: nat, i: nat): seq<Point>
    requires numBins > 0
  {
    Filter((p: Point) => BinIndex(p.predicted, numBins) == i, points)
  }

  /** The sum over the first `k` bins of the sums within them. */
  function SumBins(f: Point -> real, points: seq<Point>, numBins: nat, k: nat): real
    requires numBins > 0
  {
    if k == 0 then 0.0 else SumBins(f, points, numBins, k - 1) + Sum(f, InBin(points, numBins, k - 1))
  }

  lemma InBinCons(points: seq<Point>, numBins: nat, i: nat)
    requires numBins > 0 && points != []
    ensures InBin(points, numBins, i)
         == (if BinIndex(points[0].predicted, numBins) == i then [points[0]] else []) + InBin(points[1..], numBins, i)
  {
  }

  lemma {:induction false} SumBinsCons(f: Point -> real, points: seq<Point>, numBins: nat, k: nat)
    requires numBins > 0 && points != []
    ensures SumBins(f, points, numBins, k)
         == SumBins(f, points[1..], numBins, k)
          + if BinIndex(points[0].predicted, numBins) < k then f(points[0]) else 0.0
  {
    if k > 0 {
      SumBinsCons(f, points, numBins, k - 1);
      InBinCons(points, numBins, k - 1);
      var rest := InBin(points[1..], numBins, k - 1);
      assert ([points[0]] + rest)[1..] == rest && [] + rest == rest;
    }
  }

  lemma {:induction false} SumBinsNone(f: Point -> real, numBins: nat, k: nat)
    requires numBins > 0
    ensures SumBins(f, [], numBins, k) == 0.0
  {
    if k > 0 {
      SumBinsNone(f, numBins, k - 1);
    }
  }

  /** Every point falls in exactly one bin. */
  lemma {:induction false} BinsPartition(f: Point -> real, points: seq<Point>, numBins: nat)
    requires numBins > 0
    ensures SumBins(f, points, numBins, numBins) == Sum(f, points)
  {
    if points == [] {
      SumBinsNone(f, numBins, numBins);
    } else {
      BinsPartition(f, points[1..], numBins);
      SumBinsCons(f, points, numBins, numBins);
    }
  }

  // ----- the summary (calibration.go:174-211) -----

  function Ratio(total: real, n: nat): real {
    if n == 0 then 0.0 else total / n as real
  }

  function BinOf(points: seq<Point>, numBins: nat, i: nat): Bin
    requires numBins > 0
  {
    var own := InBin(points, numBins, i);
    Bin(Low(i, numBins), Low(i + 1, numBins), |own|, Ratio(Sum(Predicted, own), |own|),
        Ratio(Sum(Observed, own), |own|))
  }

  function Summarize(technique: string, points: seq<Point>, numBins: nat): Summary
    requires numBins > 0
  {
    Summary(technique, |points|, Ratio(Sum(Predicted, points), |points|), Ratio(Sum(Observed, points), |points|),
            Ratio(Sum(SquaredError, points), |points|), BinsOf(points, numBins))
  }

  function BinsOf(points: seq<Point>, numBins: nat): (bins: seq<Bin>)
    requires numBins > 0
    ensures |bins| == numBins && forall i :: 0 <= i < numBins ==> bins[i] == BinOf(points, numBins, i)
  {
    seq(numBins, i requires 0 <= i < numBins => BinOf(points, numBins, i))
  }

  lemma RatioTimes(total: real, n: nat)
    requires n == 0 ==> total == 0.0
    ensures Times(n as real, Ratio(total, n)) == total
  {
    if n > 0 {
      assert total / n as real * n as real == total;
    }
  }

  function CountTotal(bins: seq<Bin>): nat {
    if bins == [] then 0 else CountTotal(bins[..|bins| - 1]) + bins[|bins| - 1].n
  }

  /** The bins' means weighted by their counts. */
  function Weighted(value: Bin -> real, bins: seq<Bin>): real {
    if bins == [] then 0.0
    else
      var last := bins[|bins| - 1];
      Weighted(value, bins[..|bins| - 1]) + Times(last.n as real, value(last))
  }

  function MeanPredicted(b: Bin): real {
    b.meanPredicted
  }

  function ObservedFrequency(b: Bin): real {
    b.observedFrequency
  }

  function Gap(b: Bin): real {
    Times(b.meanPredicted - b.observedFrequency, b.meanPredicted - b.observedFrequency)
  }

  lemma {:induction false} CountsAdd(points: seq<Point>, numBins: nat, k: nat)
    requires numBins > 0 && k <= numBins
    ensures CountTotal(BinsOf(points, numBins)[..k]) as real == SumBins(One, points, numBins, k)
  {
    var bins := BinsOf(points, numBins);
    if k > 0 {
      CountsAdd(points, numBins, k - 1);
      SumOne(InBin(points, numBins, k - 1));
      CountStep(bins, k);
    }
  }

  lemma CountStep(bins: seq<Bin>, k: nat)
    requires 0 < k <= |bins|
    ensures CountTotal(bins[..k]) as real == CountTotal(bins[..k - 1]) as real + bins[k - 1].n as real
  {
    assert bins[..k][..k - 1] == bins[..k - 1];
  }

  lemma {:induction false} MeansAdd(points: seq<Point>, numBins: nat, k: nat)
    requires numBins > 0 && k <= numBins
    ensures Weighted(MeanPredicted, BinsOf(points, numBins)[..k]) == SumBins(Predicted, points, numBins, k)
    ensures Weighted(ObservedFrequency, BinsOf(points, numBins)[..k]) == SumBins(Observed, points, numBins, k)
  {
    var bins := BinsOf(points, numBins);
    if k > 0 {
      MeansAdd(points, numBins, k - 1);
      var own := InBin(points, numBins, k - 1);
      RatioTimes(Sum(Predicted, own), |own|);
      RatioTimes(Sum(Observed, own), |own|);
      WeightedStep(MeanPredicted, bins, k);
      WeightedStep(ObservedFrequency, bins, k);
    }
  }

  lemma WeightedStep(value: Bin -> real, bins: seq<Bin>, k: nat)
    requires 0 < k <= |bins|
    ensures Weighted(value, bins[..k])
         == Weighted(value, bins[..k - 1]) + Times(bins[k - 1].n as real, value(bins[k - 1]))
  {
    assert bins[..k][..k - 1] == bins[..k - 1];
  }

  /** Bin counts add up to N, and the count-weighted means are the overall
      means. */
  lemma BinsAddUp(technique: string, points: seq<Point>, numBins: nat)
    requires numBins > 0
    ensures var s := Summarize(technique, points, numBins);
            && CountTotal(s.bins) == s.n == |points|
            && Weighted(MeanPredicted, s.bins) == Times(s.n as real, s.meanPredicted)
            && Weighted(ObservedFrequency, s.bins) == Times(s.n as real, s.observedFrequency)
  {
    var bins := BinsOf(points, numBins);
    assert bins[..numBins] == bins;
    CountsAdd(points, numBins, numBins);
    MeansAdd(points, numBins, numBins);
    BinsPartition(One, points, numBins);
    SumOne(points);
    BinsPartition(Predicted, points, numBins);
    BinsPartition(Observed, points, numBins);
    RatioTimes(Sum(Predicted, points), |points|);
    RatioTimes(Sum(Observed, points), |points|);
  }

  // ----- the score bounds the miscalibration -----

  function Difference(p: Point): real {
    p.predicted - p.observed
  }

  /** The sum of the squared distances of the differences from `m`. */
  function Spread(points: seq<Point>, m: real): real {
    if points == [] then 0.0
    else Times(Difference(points[0]) - m, Difference(points[0]) - m) + Spread(points[1..], m)
  }

  lemma SquareNonNegative(d: real)
    ensures Times(d, d) >= 0.0
  {
    if d >= 0.0 {
      TimesNonNegative(d, d);
    } else {
      TimesNonNegative(0.0 - d, 0.0 - d);
      TimesNegate(d);
    }
  }

  lemma {:induction false} SpreadNonNegative(points: seq<Point>, m: real)
    ensures Spread(points, m) >= 0.0
  {
    if points != [] {
      SquareNonNegative(Difference(points[0]) - m);
      SpreadNonNegative(points[1..], m);
    }
  }

  lemma Expand(d: real, m: real)
    ensures Times(d - m, d - m) == Times(d, d) - 2.0 * Times(m, d) + Times(m, m)
  {
  }

  lemma {:induction false} SpreadIs(points: seq<Point>, m: real)
    ensures Spread(points, m)
         == Sum(SquaredError, points) - 2.0 * Times(m, Sum(Predicted, points) - Sum(Observed, points))
            + Times(|points| as real, Times(m, m))
  {
    if points == [] {
      TimesZero(m);
      TimesZero(Times(m, m));
    } else {
      var rest := points[1..];
      var d, s := Difference(points[0]), Sum(Predicted, rest) - Sum(Observed, rest);
      SpreadIs(rest, m);
      Expand(d, m);
      TimesDistribute(d, s, m);
      TimesDistribute(1.0, |rest| as real, Times(m, m));
      TimesUnit(Times(m, m));
      assert Sum(Predicted, points) - Sum(Observed, points) == d + s;
      assert |points| as real == 1.0 + |rest| as real;
    }
  }

  /** Within one bin the squared error is at least the squared gap of the
      means, times the count. */
  lemma BinGap(points: seq<Point>, numBins: nat, i: nat)
    requires numBins > 0
    ensures var b := BinOf(points, numBins, i);
            Times(b.n as real, Gap(b)) <= Sum(SquaredError, InBin(points, numBins, i))
  {
    var own := InBin(points, numBins, i);
    var b := BinOf(points, numBins, i);
    var m := b.meanPredicted - b.observedFrequency;
    var n := |own| as real;
    RatioTimes(Sum(Predicted, own), |own|);
    RatioTimes(Sum(Observed, own), |own|);
    SpreadIs(own, m);
    SpreadNonNegative(own, m);
    TimesDistribute(b.meanPredicted, 0.0 - b.observedFrequency, n);
    MinusTimes(n, b.observedFrequency);
    TimesComm(n, m);
    TimesAssoc(m, n, m);
    TimesComm(m, n);
    TimesAssoc(n, m, m);
  }

  lemma MinusTimes(n: real, x: real)
    ensures Times(n, 0.0 - x) == 0.0 - Times(n, x)
  {
  }

  lemma {:induction false} GapsAdd(points: seq<Point>, numBins: nat, k: nat)
    requires numBins > 0 && k <= numBins
    ensures Weighted(Gap, BinsOf(points, numBins)[..k]) <= SumBins(SquaredError, points, numBins, k)
  {
    var bins := BinsOf(points, numBins);
    if k > 0 {
      GapsAdd(points, numBins, k - 1);
      BinGap(points, numBins, k - 1);
      assert bins[..k][..k - 1] == bins[..k - 1];
    }
  }

  /** The Brier score is at least the count-weighted mean of the squared gap
      between what was predicted and what happened. */
  lemma BrierBoundsGap(technique: string, points: seq<Point>, numBins: nat)
    requires numBins > 0
    ensures var s := Summarize(technique, points, numBins);
            Weighted(Gap, s.bins) <= Times(s.n as real, s.brier)
  {
    var bins := BinsOf(points, numBins);
    assert bins[..numBins] == bins;
    GapsAdd(points, numBins, numBins);
    BinsPartition(SquaredError, points, numBins);
    RatioTimes(Sum(SquaredError, points), |points|);
  }

  // ----- the order of settlements is irrelevant -----

  lemma SummaryPermuted(technique: string, points: seq<Point>, others: seq<Point>, numBins: nat)
    requires numBins > 0 && multiset(points) == multiset(others)
    ensures Summarize(technique, points, numBins) == Summarize(technique, others, numBins)
  {
    assert |points| == |multiset(points)| && |others| == |multiset(others)|;
    SumPermuted(Predicted, points, others);
    SumPermuted(Observed, points, others);
    SumPermuted(SquaredError, points, others);
    forall i | 0 <= i < numBins ensures BinOf(points, numBins, i) == BinOf(others, numBins, i) {
      BinPermuted(points, others, numBins, i);
    }
  }

  lemma BinPermuted(points: seq<Point>, others: seq<Point>, numBins: nat, i: nat)
    requires numBins > 0 && multiset(points) == multiset(others)
    ensures BinOf(points, numBins, i) == BinOf(others, numBins, i)
  {
    var own, its := InBin(points, numBins, i), InBin(others, numBins, i);
    FilterPermuted((p: Point) => BinIndex(p.predicted, numBins) == i, points, others);
    assert |own| == |multiset(own)| && |its| == |multiset(its)|;
    SumPermuted(Predicted, own, its);
    SumPermuted(Observed, own, its);
  }

  /** A settled bet: its technique, whether it settled TRUE, and the staked
      confidence, if one was recorded. */
  datatype Stake = Unstaked | Staked(confidence: real)
  datatype Settled = Settled(technique: string, verdict: bool, stake: Stake)

  function PointOf(s: Settled): Point
    requires s.stake.Staked?
  {
    Point(s.stake.confidence, if s.verdict then 1.0 else 0.0)
  }

  function Points(settlements: seq<Settled>): seq<Point> {
    if settlements == [] then []
    else (if settlements[0].stake.Staked? then [PointOf(settlements[0])] else []) + Points(settlements[1..])
  }

  predicate Names(s: Settled, technique: string) {
    s.stake.Staked? && s.technique == technique
  }

  function Of(settlements: seq<Settled>, technique: string): seq<Settled> {
    Filter((s: Settled) => Names(s, technique), settlements)
  }

  /** The techniques with a scored bet. */
  function Techniques(settlements: seq<Settled>): set<string> {
    set s | s in settlements && s.stake.Staked? && s.technique != "" :: s.technique
  }

  datatype Report = Report(overall: Summary, byTechnique: seq<Summary>, unscored: nat)

  function UnscoredOf(settlements: seq<Settled>): nat {
    |Filter((s: Settled) => s.stake.Unstaked?, settlements)|
  }

  function SummariesOf(settlements: seq<Settled>, techniques: seq<string>, numBins: nat): (r: seq<Summary>)
    requires numBins > 0
    ensures |r| == |techniques|
    ensures forall i :: 0 <= i < |r| ==>
              r[i] == Summarize(techniques[i], Points(Of(settlements, techniques[i])), numBins)
  {
    seq(|techniques|, i requires 0 <= i < |techniques| =>
      Summarize(techniques[i], Points(Of(settlements, techniques[i])), numBins))
  }

  const DEFAULT_BINS: nat := 10

  function BinsFor(numBins: int): (n: nat)
    ensures n > 0
  {
    if numBins <= 0 then DEFAULT_BINS else numBins
  }

  ghost function Calibrate(settlements: seq<Settled>, numBins: int): Report {
    var n := BinsFor(numBins);
    Report(Summarize("", Points(settlements), n),
           SummariesOf(settlements, Sorting(Techniques(settlements)), n),
           UnscoredOf(settlements))
  }

  lemma {:induction false} PointsRemove(settlements: seq<Settled>, i: nat)
    requires i < |settlements|
    ensures multiset(Points(settlements))
         == multiset(Points(RemoveAt(settlements, i)))
            + Own(settlements[i])
  {
    PointsCons(settlements);
    if i == 0 {
      assert RemoveAt(settlements, 0) == settlements[1..];
    } else {
      PointsRemove(settlements[1..], i - 1);
      var rest := RemoveAt(settlements, i);
      assert rest[0] == settlements[0] && rest[1..] == RemoveAt(settlements[1..], i - 1);
      PointsCons(rest);
    }
  }

  function Own(s: Settled): multiset<Point> {
    if s.stake.Staked? then multiset{PointOf(s)} else multiset{}
  }

  lemma PointsCons(settlements: seq<Settled>)
    requires settlements != []
    ensures multiset(Points(settlements)) == Own(settlements[0]) + multiset(Points(settlements[1..]))
  {
  }

  lemma {:induction false} PointsPermuted(settlements: seq<Settled>, others: seq<Settled>)
    requires multiset(settlements) == multiset(others)
    ensures multiset(Points(settlements)) == multiset(Points(others))
    decreases |settlements|
  {
    if settlements == [] {
      assert |multiset(others)| == 0;
    } else {
      var n := |settlements| - 1;
      var i := MatchLast(settlements, others);
      PointsPermuted(settlements[..n], RemoveAt(others, i));
      PointsRemove(others, i);
      PointsRemove(settlements, n);
      assert RemoveAt(settlements, n) == settlements[..n];
    }
  }

  lemma TechniquePermuted(settlements: seq<Settled>, others: seq<Settled>, technique: string, numBins: nat)
    requires multiset(settlements) == multiset(others) && numBins > 0
    ensures Summarize(technique, Points(Of(settlements, technique)), numBins)
         == Summarize(technique, Points(Of(others, technique)), numBins)
  {
    FilterPermuted((s: Settled) => Names(s, technique), settlements, others);
    PointsPermuted(Of(settlements, technique), Of(others, technique));
    SummaryPermuted(technique, Points(Of(settlements, technique)), Points(Of(others, technique)), numBins);
  }

  lemma UnscoredPermuted(settlements: seq<Settled>, others: seq<Settled>)
    requires multiset(settlements) == multiset(others)
    ensures UnscoredOf(settlements) == UnscoredOf(others)
  {
    FilterPermuted((s: Settled) => s.stake.Unstaked?, settlements, others);
    var mine, its := Filter((s: Settled) => s.stake.Unstaked?, settlements),
        Filter((s: Settled) => s.stake.Unstaked?, others);
    assert |mine| == |multiset(mine)| && |its| == |multiset(its)|;
  }

  /** The report does not depend on the order of the settlements. */
  lemma ReportPermuted(settlements: seq<Settled>, others: seq<Settled>, numBins: int)
    requires multiset(settlements) == multiset(others)
    ensures Calibrate(settlements, numBins) == Calibrate(others, numBins)
  {
    var n := BinsFor(numBins);
    PointsPermuted(settlements, others);
    SummaryPermuted("", Points(settlements), Points(others), n);
    forall s ensures s in settlements <==> s in others {
      InSame(settlements, others, s);
    }
    assert Techniques(settlements) == Techniques(others);
    var names := Sorting(Techniques(settlements));
    forall i | 0 <= i < |names|
      ensures SummariesOf(settlements, names, n)[i] == SummariesOf(others, names, n)[i]
    {
      TechniquePermuted(settlements, others, names[i], n);
    }
    assert SummariesOf(settlements, names, n) == SummariesOf(others, names, n);
    UnscoredPermuted(settlements, others);
  }

  // ----- the loops -----

  lemma {:induction false} InBinSnoc(points: seq<Point>, p: Point, numBins: nat, i: nat)
    requires numBins > 0
    ensures InBin(points + [p], numBins, i)
         == InBin(points, numBins, i) + if BinIndex(p.predicted, numBins) == i then [p] else []
  {
    if points == [] {
      assert points + [p] == [p] && [p][1..] == [];
    } else {
      InBinCons(points, numBins, i);
      InBinCons(points + [p], numBins, i);
      assert (points + [p])[1..] == points[1..] + [p];
      InBinSnoc(points[1..], p, numBins, i);
    }
  }

  lemma BinSumSnoc(f: Point -> real, points: seq<Point>, p: Point, numBins: nat, i: nat)
    requires numBins > 0
    ensures Sum(f, InBin(points + [p], numBins, i))
         == Sum(f, InBin(points, numBins, i)) + if BinIndex(p.predicted, numBins) == i then f(p) else 0.0
    ensures |InBin(points + [p], numBins, i)|
         == |InBin(points, numBins, i)| + if BinIndex(p.predicted, numBins) == i then 1 else 0
  {
    InBinSnoc(points, p, numBins, i);
    var own := InBin(points, numBins, i);
    SumSnoc(f, own, p);
    assert own + [] == own;
  }

  /** The sums and counts of each bin. */
  ghost predicate Binned(points: seq<Point>, numBins: nat, predicted: seq<real>, observed: seq<real>, count: seq<nat>)
    requires numBins > 0
  {
    && |predicted| == |observed| == |count| == numBins
    && forall i :: 0 <= i < numBins ==>
         var own := InBin(points, numBins, i);
         predicted[i] == Sum(Predicted, own) && observed[i] == Sum(Observed, own) && count[i] == |own|
  }

  lemma BinnedStep(points: seq<Point>, p: Point, numBins: nat, predicted: seq<real>, observed: seq<real>,
                   count: seq<nat>)
    requires numBins > 0 && Binned(points, numBins, predicted, observed, count)
    ensures var bin := BinIndex(p.predicted, numBins);
            Binned(points + [p], numBins, predicted[bin := predicted[bin] + p.predicted],
                   observed[bin := observed[bin] + p.observed], count[bin := count[bin] + 1])
  {
    forall i | 0 <= i < numBins
      ensures Sum(Predicted, InBin(points + [p], numBins, i))
           == Sum(Predicted, InBin(points, numBins, i))
            + if BinIndex(p.predicted, numBins) == i then p.predicted else 0.0
      ensures Sum(Observed, InBin(points + [p], numBins, i))
           == Sum(Observed, InBin(points, numBins, i)) + if BinIndex(p.predicted, numBins) == i then p.observed else 0.0
      ensures |InBin(points + [p], numBins, i)|
           == |InBin(points, numBins, i)| + if BinIndex(p.predicted, numBins) == i then 1 else 0
    {
      BinSumSnoc(Predicted, points, p, numBins, i);
      BinSumSnoc(Observed, points, p, numBins, i);
    }
  }

  method AddPoint(p: Point, numBins: nat, predicted: array<real>, observed: array<real>, count: array<nat>)
    requires numBins > 0 && predicted.Length == observed.Length == count.Length == numBins && predicted != observed
    modifies predicted, observed, count
    ensures var bin := BinIndex(p.predicted, numBins);
            && predicted[..] == old(predicted[..])[bin := old(predicted[bin]) + p.predicted]
            && observed[..] == old(observed[..])[bin := old(observed[bin]) + p.observed]
            && count[..] == old(count[..])[bin := old(count[bin]) + 1]
  {
    var bin := BinIndex(p.predicted, numBins);
    predicted[bin] := predicted[bin] + p.predicted;
    observed[bin] := observed[bin] + p.observed;
    count[bin] := count[bin] + 1;
  }

  /** Accumulate the sums of each bin in place. */
  method AccumulateBins(points: seq<Point>, numBins: nat)
    returns (predicted: array<real>, observed: array<real>, count: array<nat>)
    requires numBins > 0
    ensures Binned(points, numBins, predicted[..], observed[..], count[..])
  {
    predicted := new real[numBins](i => 0.0);
    observed := new real[numBins](i => 0.0);
    count := new nat[numBins](i => 0);
    var k := 0;
    while k < |points|
      invariant 0 <= k <= |points|
      invariant Binned(points[..k], numBins, predicted[..], observed[..], count[..])
    {
      var p := points[k];
      assert points[..k + 1] == points[..k] + [p];
      BinnedStep(points[..k], p, numBins, predicted[..], observed[..], count[..]);
      AddPoint(p, numBins, predicted, observed, count);
      k := k + 1;
    }
    assert points[..k] == points;
  }

  method Totals(points: seq<Point>) returns (predicted: real, observed: real, error: real)
    ensures predicted == Sum(Predicted, points) && observed == Sum(Observed, points)
    ensures error == Sum(SquaredError, points)
  {
    predicted, observed, error := 0.0, 0.0, 0.0;
    var rest := points;
    while rest != []
      invariant predicted + Sum(Predicted, rest) == Sum(Predicted, points)
      invariant observed + Sum(Observed, rest) == Sum(Observed, points)
      invariant error + Sum(SquaredError, rest) == Sum(SquaredError, points)
    {
      var p := rest[0];
      predicted, observed := predicted + p.predicted, observed + p.observed;
      error := error + Times(p.predicted - p.observed, p.predicted - p.observed);
      rest := rest[1..];
    }
  }

  method SummarizeCalibration(technique: string, points: seq<Point>, numBins: nat) returns (s: Summary)
    requires numBins > 0
    ensures s == Summarize(technique, points, numBins)
  {
    var predicted, observed, error := Totals(points);
    var binPredicted, binObserved, binCount := AccumulateBins(points, numBins);
    var bins: seq<Bin> := [];
    while |bins| < numBins
      invariant |bins| <= numBins && forall i :: 0 <= i < |bins| ==> bins[i] == BinOf(points, numBins, i)
    {
      var i := |bins|;
      assert binPredicted[i] == binPredicted[..][i] && binObserved[i] == binObserved[..][i]
             && binCount[i] == binCount[..][i];
      bins := bins + [Bin(Low(i, numBins), Low(i + 1, numBins), binCount[i], Ratio(binPredicted[i], binCount[i]),
                          Ratio(binObserved[i], binCount[i]))];
    }
    s := Summary(technique, |points|, Ratio(predicted, |points|), Ratio(observed, |points|), Ratio(error, |points|),
                 bins);
  }

  function Listed(groups: map<string, seq<Point>>, technique: string): seq<Point> {
    if technique in groups then groups[technique] else []
  }

  ghost predicate Grouped(groups: map<string, seq<Point>>, rest: seq<Settled>, settlements: seq<Settled>) {
    && groups.Keys + Techniques(rest) == Techniques(settlements)
    && forall t {:trigger Of(settlements, t)} :: t != "" ==>
         Listed(groups, t) + Points(Of(rest, t)) == Points(Of(settlements, t))
  }

  lemma OfCons(settlements: seq<Settled>, t: string)
    requires settlements != []
    ensures Points(Of(settlements, t))
         == (if Names(settlements[0], t) then [PointOf(settlements[0])] else []) + Points(Of(settlements[1..], t))
  {
    var rest := Of(settlements[1..], t);
    assert Of(settlements, t) == (if Names(settlements[0], t) then [settlements[0]] else []) + rest;
    assert ([settlements[0]] + rest)[1..] == rest && [] + rest == rest;
  }

  lemma GroupedStep(groups: map<string, seq<Point>>, rest: seq<Settled>, settlements: seq<Settled>)
    requires rest != [] && Grouped(groups, rest, settlements)
    ensures var s := rest[0];
            Grouped(if s.stake.Staked? && s.technique != ""
                    then groups[s.technique := Listed(groups, s.technique) + [PointOf(s)]] else groups,
                    rest[1..], settlements)
  {
    var s := rest[0];
    var after := if s.stake.Staked? && s.technique != ""
                 then groups[s.technique := Listed(groups, s.technique) + [PointOf(s)]] else groups;
    forall t {:trigger Of(settlements, t)} | t != ""
      ensures Listed(after, t) + Points(Of(rest[1..], t)) == Points(Of(settlements, t))
    {
      OfCons(rest, t);
      var tail := Points(Of(rest[1..], t));
      if Names(s, t) {
        Associate(Listed(groups, t), [PointOf(s)], tail);
      } else {
        assert [] + tail == tail;
      }
    }
    assert rest == [s] + rest[1..];
  }

  method GroupByTechnique(settlements: seq<Settled>) returns (groups: map<string, seq<Point>>)
    ensures groups.Keys == Techniques(settlements)
    ensures forall t :: t in groups ==> groups[t] == Points(Of(settlements, t))
  {
    groups := map[];
    var rest := settlements;
    forall t {:trigger Of(settlements, t)} | t != "" ensures [] + Points(Of(rest, t)) == Points(Of(settlements, t)) { }
    while rest != []
      invariant Grouped(groups, rest, settlements)
    {
      GroupedStep(groups, rest, settlements);
      var s := rest[0];
      if s.stake.Staked? && s.technique != "" {
        groups := groups[s.technique := Listed(groups, s.technique) + [PointOf(s)]];
      }
      rest := rest[1..];
    }
    forall t | t in groups ensures groups[t] == Points(Of(settlements, t)) {
      assert t in Techniques(settlements) && groups[t] + [] == groups[t];
      assert Of(settlements, t) == Of(settlements, t);
    }
  }

  method ScoreAll(settlements: seq<Settled>) returns (overall: seq<Point>, unscored: nat)
    ensures overall == Points(settlements) && unscored == UnscoredOf(settlements)
  {
    overall, unscored := [], 0;
    var rest := settlements;
    while rest != []
      invariant overall + Points(rest) == Points(settlements)
      invariant unscored + UnscoredOf(rest) == UnscoredOf(settlements)
    {
      var s := rest[0];
      if s.stake.Unstaked? {
        unscored := unscored + 1;
        assert Points(rest) == Points(rest[1..]);
      } else {
        Associate(overall, [PointOf(s)], Points(rest[1..]));
        overall := overall + [PointOf(s)];
      }
      rest := rest[1..];
    }
    assert overall + [] == overall;
  }

  method SummarizeTechniques(ghost settlements: seq<Settled>, groups: map<string, seq<Point>>, techniques: seq<string>,
                             numBins: nat)
    returns (summaries: seq<Summary>)
    requires numBins > 0
    requires forall t :: t in techniques ==> t in groups && groups[t] == Points(Of(settlements, t))
    ensures summaries == SummariesOf(settlements, techniques, numBins)
  {
    summaries := [];
    while |summaries| < |techniques|
      invariant |summaries| <= |techniques|
      invariant forall i :: 0 <= i < |summaries| ==>
          summaries[i] == Summarize(techniques[i], Points(Of(settlements, techniques[i])), numBins)
    {
      var t := techniques[|summaries|];
      assert t in techniques;
      var s := SummarizeCalibration(t, groups[t], numBins);
      summaries := summaries + [s];
    }
  }

  /** The settlements whose belief could be read. */
  function Readable(answers: seq<Option<Settled>>): seq<Settled> {
    if answers == [] then []
    else (if answers[0].Some? then [answers[0].value] else []) + Readable(answers[1..])
  }

  /** Stops at the first belief that cannot be read. */
  method ReadAll(answers: seq<Option<Settled>>) returns (settlements: seq<Settled>, ok: bool)
    ensures ok <==> None !in answers
    ensures ok ==> settlements == Readable(answers)
  {
    settlements := [];
    var rest := answers;
    while rest != []
      invariant settlements + Readable(rest) == Readable(answers)
      invariant None in answers <==> None in rest
    {
      if rest[0].None? {
        return [], false;
      }
      Associate(settlements, [rest[0].value], Readable(rest[1..]));
      settlements := settlements + [rest[0].value];
      rest := rest[1..];
    }
    assert settlements + [] == settlements;
    return settlements, true;
  }

  /** The report, or an error exactly when some belief cannot be read. */
  method ComputeCalibration(answers: seq<Option<Settled>>, numBins: int) returns (report: Option<Report>)
    ensures report == if None in answers then None else Some(Calibrate(Readable(answers), numBins))
  {
    var settlements, ok := ReadAll(answers);
    if !ok {
      return None;
    }
    var n := BinsFor(numBins);
    var points, unscored := ScoreAll(settlements);
    var groups := GroupByTechnique(settlements);
    var techniques := SortedKeys(groups.Keys);
    assert forall t :: t in techniques ==> t in Elems(techniques);
    var summaries := SummarizeTechniques(settlements, groups, techniques, n);
    var overall := SummarizeCalibration("", points, n);
    return Some(Report(overall, summaries, unscored));
  }
}
