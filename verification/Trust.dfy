/** The arithmetic of trust aggregation in src/consensus/DistributedTrustManager.ts, over exact reals. */
module TrustMath {
  /** A report as the aggregation sees it: its score and the weight its age gives it. */
  datatype Rated = Rated(score: real, weight: real)

  const WEEK_MS: real := 604800000.0
  const MIN_REPORTS: nat := 5

  /** Newer reports weigh more; the weight decays over seven days and never falls below one half. */
  function Weight(age: int): (w: real)
    ensures w >= 0.5
  {
    var w := 1.0 - age as real / WEEK_MS;
    if w > 0.5 then w else 0.5
  }

  function Sum(rs: seq<Rated>): real {
    if rs == [] then 0.0 else Sum(rs[..|rs| - 1]) + rs[|rs| - 1].score
  }

  function Mean(rs: seq<Rated>): real
    requires rs != []
  {
    Sum(rs) / |rs| as real
  }

  function Sqr(x: real): real { x * x }

  function SquaredDistances(rs: seq<Rated>, mean: real): real {
    if rs == [] then 0.0 else SquaredDistances(rs[..|rs| - 1], mean) + Sqr(rs[|rs| - 1].score - mean)
  }

  function Variance(rs: seq<Rated>): real
    requires rs != []
  {
    SquaredDistances(rs, Mean(rs)) / |rs| as real
  }

  /** Within two standard deviations, compared by squares. */
  predicate Near(r: Rated, mean: real, variance: real) { Sqr(r.score - mean) <= 4.0 * variance }

  function Filtered(rs: seq<Rated>, mean: real, variance: real): seq<Rated> {
    if rs == [] then []
    else
      var last := rs[|rs| - 1];
      Filtered(rs[..|rs| - 1], mean, variance) + (if Near(last, mean, variance) then [last] else [])
  }

  function Kept(rs: seq<Rated>): seq<Rated>
    requires rs != []
  {
    Filtered(rs, Mean(rs), Variance(rs))
  }

  function WeightedSum(rs: seq<Rated>): real {
    if rs == [] then 0.0 else WeightedSum(rs[..|rs| - 1]) + rs[|rs| - 1].score * rs[|rs| - 1].weight
  }

  function TotalWeight(rs: seq<Rated>): real {
    if rs == [] then 0.0 else TotalWeight(rs[..|rs| - 1]) + rs[|rs| - 1].weight
  }

  /** `Math.round` */
  function Round(x: real): int { (x + 0.5).Floor }

  predicate Weighted(rs: seq<Rated>) {
    forall i | 0 <= i < |rs| :: rs[i].weight >= 0.5
  }

  predicate InRange(rs: seq<Rated>, lo: real, hi: real) {
    forall i | 0 <= i < |rs| :: lo <= rs[i].score <= hi
  }

  // ---------- Fewer than a quarter of the reports are dropped ----------

  /** The comparison with a square root, had the code an exact one. */
  lemma NearBySquareRoot(r: Rated, mean: real, variance: real, stdDev: real)
    requires stdDev >= 0.0 && stdDev * stdDev == variance
    ensures Near(r, mean, variance) <==> (if r.score >= mean then r.score - mean else mean - r.score) <= 2.0 * stdDev
  {
    var d := if r.score >= mean then r.score - mean else mean - r.score;
    assert Sqr(r.score - mean) == d * d;
    var t := 2.0 * stdDev;
    assert t * t == 4.0 * variance;
    SquareOrder(d, t);
  }

  lemma SquareOrder(d: real, t: real)
    requires d >= 0.0 && t >= 0.0
    ensures d * d <= t * t <==> d <= t
  {
    assert (d - t) * (d + t) == d * d - t * t;
    if d > t {
      PositiveProduct(d - t, d + t);
    } else {
      FactorMonotone(d + t, d, t);
    }
  }

  lemma PositiveProduct(a: real, b: real)
    requires a > 0.0 && b > 0.0
    ensures a * b > 0.0
  {
  }

  lemma DivTimes(x: real, n: real)
    requires n > 0.0
    ensures x / n * n == x && (x >= 0.0 ==> x / n >= 0.0)
  {
  }

  lemma SquareNonNegative(x: real)
    ensures Sqr(x) >= 0.0
  {
    if x > 0.0 {
      PositiveProduct(x, x);
    } else if x < 0.0 {
      PositiveProduct(-x, -x);
      assert x * x == (-x) * (-x);
    }
  }

  lemma {:induction false} DistancesBound(rs: seq<Rated>, mean: real, variance: real)
    ensures var dropped := |rs| - |Filtered(rs, mean, variance)|;
            && dropped >= 0
            && SquaredDistances(rs, mean) >= 4.0 * variance * dropped as real
            && (dropped > 0 ==> SquaredDistances(rs, mean) > 4.0 * variance * dropped as real)
  {
    if rs != [] {
      DistancesBound(rs[..|rs| - 1], mean, variance);
      var last := rs[|rs| - 1];
      SquareNonNegative(last.score - mean);
      var k := |rs| - 1 - |Filtered(rs[..|rs| - 1], mean, variance)|;
      OneMore(4.0 * variance, k);
      hide Sqr;
    }
  }

  lemma OneMore(v: real, k: int)
    ensures v * (k + 1) as real == v * k as real + v
  {
    assert (k + 1) as real == k as real + 1.0;
    Distribute(v, k as real, 1.0);
  }

  lemma {:induction false} DistancesNonNegative(rs: seq<Rated>, mean: real)
    ensures SquaredDistances(rs, mean) >= 0.0
  {
    if rs != [] {
      DistancesNonNegative(rs[..|rs| - 1], mean);
      SquareNonNegative(rs[|rs| - 1].score - mean);
    }
  }

  /** The inequality of Chebyshev for a finite list, at two standard deviations. */
  lemma FewDropped(rs: seq<Rated>)
    requires rs != []
    ensures 4 * (|rs| - |Kept(rs)|) < |rs|
  {
    var mean, variance := Mean(rs), Variance(rs);
    DistancesBound(rs, mean, variance);
    DistancesNonNegative(rs, mean);
    VarianceTimes(rs);
    Chebyshev(SquaredDistances(rs, mean), variance, |rs| - |Filtered(rs, mean, variance)|, |rs|);
  }

  lemma Chebyshev(distances: real, variance: real, dropped: nat, n: nat)
    requires n > 0 && variance >= 0.0 && distances == variance * n as real
    requires dropped > 0 ==> distances > 4.0 * variance * dropped as real
    ensures 4 * dropped < n
  {
    if dropped > 0 {
      Regroup(variance, dropped as real);
      LargerFactor(variance, 4.0 * dropped as real, n as real);
    }
  }

  lemma LargerFactor(v: real, a: real, b: real)
    requires v >= 0.0
    ensures v * a < v * b ==> a < b
  {
    if a >= b {
      FactorMonotone(v, b, a);
    }
  }

  lemma VarianceTimes(rs: seq<Rated>)
    requires rs != []
    ensures SquaredDistances(rs, Mean(rs)) == Variance(rs) * |rs| as real
    ensures SquaredDistances(rs, Mean(rs)) >= 0.0 ==> Variance(rs) >= 0.0
  {
    hide SquaredDistances, Mean;
    DivTimes(SquaredDistances(rs, Mean(rs)), |rs| as real);
  }

  lemma Regroup(v: real, k: real)
    ensures 4.0 * v * k == v * (4.0 * k)
  {
  }

  lemma FactorMonotone(v: real, a: real, b: real)
    requires v >= 0.0 && a <= b
    ensures v * a <= v * b
  {
    assert v * (b - a) >= 0.0;
  }

  // ---------- The aggregated score ----------

  function Aggregate(rs: seq<Rated>): real
    requires rs != [] && Weighted(rs)
  {
    KeptWeight(rs);
    WeightedSum(Kept(rs)) / TotalWeight(Kept(rs))
  }

  lemma {:induction false} FilteredFrom(rs: seq<Rated>, mean: real, variance: real)
    ensures forall r <- Filtered(rs, mean, variance) :: r in rs && Near(r, mean, variance)
    ensures forall r <- rs :: Near(r, mean, variance) ==> r in Filtered(rs, mean, variance)
  {
    if rs != [] {
      FilteredFrom(rs[..|rs| - 1], mean, variance);
      assert rs == rs[..|rs| - 1] + [rs[|rs| - 1]];
    }
  }

  lemma {:induction false} WeightPositive(rs: seq<Rated>)
    requires Weighted(rs)
    ensures TotalWeight(rs) >= 0.0 && (rs != [] ==> TotalWeight(rs) > 0.0)
  {
    if rs != [] {
      WeightPositive(rs[..|rs| - 1]);
    }
  }

  /** The division is safe: something is kept, and its weight is positive. */
  lemma KeptWeight(rs: seq<Rated>)
    requires rs != [] && Weighted(rs)
    ensures Kept(rs) != [] && Weighted(Kept(rs)) && TotalWeight(Kept(rs)) > 0.0
  {
    FewDropped(rs);
    FilteredFrom(rs, Mean(rs), Variance(rs));
    forall i | 0 <= i < |Kept(rs)| ensures Kept(rs)[i].weight >= 0.5 {
      assert Kept(rs)[i] in rs;
    }
    WeightPositive(Kept(rs));
  }

  lemma {:induction false} WeightedBounds(rs: seq<Rated>, lo: real, hi: real)
    requires Weighted(rs) && InRange(rs, lo, hi)
    ensures lo * TotalWeight(rs) <= WeightedSum(rs) <= hi * TotalWeight(rs)
  {
    if rs != [] {
      var front, last := rs[..|rs| - 1], rs[|rs| - 1];
      WeightedBounds(front, lo, hi);
      BoundsStep(TotalWeight(front), WeightedSum(front), last.weight, last.score, lo, hi);
    }
  }

  lemma BoundsStep(w: real, s: real, weight: real, score: real, lo: real, hi: real)
    requires lo * w <= s <= hi * w && lo <= score <= hi && weight >= 0.0
    ensures lo * (w + weight) <= s + score * weight <= hi * (w + weight)
  {
    FactorMonotone(weight, lo, score);
    FactorMonotone(weight, score, hi);
    Distribute(lo, w, weight);
    Distribute(hi, w, weight);
  }

  lemma Distribute(k: real, a: real, b: real)
    ensures k * (a + b) == k * a + b * k
  {
  }

  lemma QuotientBounds(s: real, w: real, lo: real, hi: real)
    requires w > 0.0 && lo * w <= s <= hi * w
    ensures lo <= s / w <= hi
  {
    DivTimes(s, w);
    var q := s / w;
    if q < lo {
      PositiveProduct(lo - q, w);
    }
    if q > hi {
      PositiveProduct(q - hi, w);
    }
  }

  /** The aggregate lies between any bounds of the kept scores. */
  lemma AggregateBounds(rs: seq<Rated>, lo: real, hi: real)
    requires rs != [] && Weighted(rs) && InRange(Kept(rs), lo, hi)
    ensures lo <= Aggregate(rs) <= hi
  {
    KeptWeight(rs);
    WeightedBounds(Kept(rs), lo, hi);
    QuotientBounds(WeightedSum(Kept(rs)), TotalWeight(Kept(rs)), lo, hi);
  }

  /** Scores between 0 and 1000 aggregate to a rounded score between 0 and 1000. */
  lemma AggregateInScale(rs: seq<Rated>)
    requires rs != [] && Weighted(rs) && InRange(rs, 0.0, 1000.0)
    ensures 0 <= Round(Aggregate(rs)) <= 1000
  {
    FilteredFrom(rs, Mean(rs), Variance(rs));
    forall i | 0 <= i < |Kept(rs)| ensures 0.0 <= Kept(rs)[i].score <= 1000.0 {
      assert Kept(rs)[i] in rs;
    }
    AggregateBounds(rs, 0.0, 1000.0);
  }

  // ---------- What the figures are ----------

  /** A report weighs one when it is made, loses weight evenly, and weighs one half from three and a half days on. */
  lemma WeightIs(age: int, older: int)
    ensures 0 <= age <= 302400000 ==> Weight(age) * 604800000.0 == 604800000.0 - age as real
    ensures Weight(0) == 1.0 && (age >= 302400000 ==> Weight(age) == 0.5)
    ensures age <= older ==> Weight(age) >= Weight(older)
  {
    WeightTimes(age);
    WeightTimes(older);
    WeightTimes(0);
  }

  lemma WeightTimes(age: int)
    ensures var w := 1.0 - age as real / WEEK_MS;
            w * 604800000.0 == 604800000.0 - age as real && Weight(age) == if w > 0.5 then w else 0.5
  {
    assert age as real / WEEK_MS * WEEK_MS == age as real;
  }

  /** The nearest integer, the larger one of two. */
  lemma RoundIs(x: real)
    ensures x - 0.5 < Round(x) as real <= x + 0.5
  {
  }

  lemma DropLast(a: seq<Rated>, b: seq<Rated>)
    requires b != []
    ensures (a + b)[..|a + b| - 1] == a + b[..|b| - 1] && (a + b)[|a + b| - 1] == b[|b| - 1]
  {
  }

  lemma {:induction false} SumAdds(a: seq<Rated>, b: seq<Rated>)
    ensures Sum(a + b) == Sum(a) + Sum(b)
  {
    if b == [] {
      assert a + b == a;
    } else {
      SumAdds(a, b[..|b| - 1]);
      DropLast(a, b);
      hide Sqr, Near;
    }
  }

  lemma {:induction false} DistancesAdd(a: seq<Rated>, b: seq<Rated>, mean: real)
    ensures SquaredDistances(a + b, mean) == SquaredDistances(a, mean) + SquaredDistances(b, mean)
  {
    if b == [] {
      assert a + b == a;
    } else {
      DistancesAdd(a, b[..|b| - 1], mean);
      DropLast(a, b);
      hide Sqr, Near;
    }
  }

  lemma {:induction false} WeightedAdds(a: seq<Rated>, b: seq<Rated>)
    ensures WeightedSum(a + b) == WeightedSum(a) + WeightedSum(b)
  {
    if b == [] {
      assert a + b == a;
    } else {
      WeightedAdds(a, b[..|b| - 1]);
      DropLast(a, b);
      hide Sqr, Near;
    }
  }

  lemma {:induction false} TotalAdds(a: seq<Rated>, b: seq<Rated>)
    ensures TotalWeight(a + b) == TotalWeight(a) + TotalWeight(b)
  {
    if b == [] {
      assert a + b == a;
    } else {
      TotalAdds(a, b[..|b| - 1]);
      DropLast(a, b);
      hide Sqr, Near;
    }
  }

  lemma {:induction false} FilterAdds(a: seq<Rated>, b: seq<Rated>, mean: real, variance: real)
    ensures Filtered(a + b, mean, variance) == Filtered(a, mean, variance) + Filtered(b, mean, variance)
  {
    if b == [] {
      assert a + b == a;
    } else {
      FilterAdds(a, b[..|b| - 1], mean, variance);
      DropLast(a, b);
      hide Sqr, Near;
    }
  }

  /** The sums over a list of reports, and the filter: for two lists together, and below for one report. This
      determines them. */
  lemma SumsAdd(a: seq<Rated>, b: seq<Rated>, mean: real, variance: real)
    ensures Sum(a + b) == Sum(a) + Sum(b)
    ensures SquaredDistances(a + b, mean) == SquaredDistances(a, mean) + SquaredDistances(b, mean)
    ensures WeightedSum(a + b) == WeightedSum(a) + WeightedSum(b)
    ensures TotalWeight(a + b) == TotalWeight(a) + TotalWeight(b)
    ensures Filtered(a + b, mean, variance) == Filtered(a, mean, variance) + Filtered(b, mean, variance)
  {
    hide Sum, SquaredDistances, WeightedSum, TotalWeight, Filtered;
    SumAdds(a, b);
    DistancesAdd(a, b, mean);
    WeightedAdds(a, b);
    TotalAdds(a, b);
    FilterAdds(a, b, mean, variance);
  }

  lemma SumsOfOne(r: Rated, mean: real, variance: real)
    ensures Sum([r]) == r.score && WeightedSum([r]) == r.score * r.weight && TotalWeight([r]) == r.weight
    ensures SquaredDistances([r], mean) == (r.score - mean) * (r.score - mean)
    ensures Filtered([r], mean, variance)
         == if (r.score - mean) * (r.score - mean) <= 4.0 * variance then [r] else []
  {
    assert [r][..0] == [];
  }

  /** The aggregate times the kept weight is the kept weighted sum, and likewise mean and variance: these are averages,
      the last two over all reports, the aggregate over those within two standard deviations of the mean. */
  lemma AveragesAre(rs: seq<Rated>)
    requires rs != [] && Weighted(rs)
    ensures Mean(rs) * |rs| as real == Sum(rs) && Variance(rs) * |rs| as real == SquaredDistances(rs, Mean(rs))
    ensures var kept := Filtered(rs, Mean(rs), Variance(rs));
            TotalWeight(kept) > 0.0 && Aggregate(rs) * TotalWeight(kept) == WeightedSum(kept)
  {
    hide Sum, SquaredDistances, Filtered, WeightedSum, TotalWeight, Mean, Variance, Aggregate;
    KeptWeight(rs);
    MeanTimes(rs);
    VarianceTimes(rs);
    AggregateTimes(rs);
  }

  lemma MeanTimes(rs: seq<Rated>)
    requires rs != []
    ensures Mean(rs) * |rs| as real == Sum(rs)
  {
    hide Sum;
    DivTimes(Sum(rs), |rs| as real);
  }

  lemma AggregateTimes(rs: seq<Rated>)
    requires rs != [] && Weighted(rs)
    ensures TotalWeight(Kept(rs)) > 0.0 && Aggregate(rs) * TotalWeight(Kept(rs)) == WeightedSum(Kept(rs))
  {
    hide WeightedSum, TotalWeight, Kept;
    KeptWeight(rs);
    DivTimes(WeightedSum(Kept(rs)), TotalWeight(Kept(rs)));
  }
}

/** The report tables of DistributedTrustManager. */
module TrustManager {
  import opened TrustMath
  import opened Buckets

  type PeerId = string

  datatype Report = Report(reporter: PeerId, peer: PeerId, score: real, timestamp: int, signature: string)

  /** `trust_report_<reporter>_<peer>_<time>`, taken as the triple it is built from. */
  datatype ReportId = ReportId(reporter: PeerId, peer: PeerId, time: int)

  datatype Score = Score(localScore: real, networkScore: int, aggregatedScore: real, reporterCount: nat,
                         lastUpdated: int)

  /** The four maps; a bucket is a set of ids in insertion order. */
  datatype State = State(
    scores: map<PeerId, Score>,
    reports: map<ReportId, Report>,
    byPeer: map<PeerId, seq<ReportId>>,
    byReporter: map<PeerId, seq<ReportId>>)

  const Empty: State := State(map[], map[], map[], map[])

  // ---------- Operations ----------

  function RatedReports(ids: seq<ReportId>, reports: map<ReportId, Report>, now: int): (rs: seq<Rated>)
    ensures Weighted(rs)
  {
    if ids == [] then []
    else
      var front := RatedReports(ids[..|ids| - 1], reports, now);
      var id := ids[|ids| - 1];
      front + (if id in reports then [Rated(reports[id].score, Weight(now - reports[id].timestamp))] else [])
  }

  /** The score written for a bucket of at least five reports. */
  function ScoreOf(rs: seq<Rated>, count: nat, now: int): Score
    requires |rs| >= MIN_REPORTS && Weighted(rs)
  {
    Score(0.0, Round(Mean(rs)), Round(Aggregate(rs)) as real, count, now)
  }

  function Recalculate(s: State, p: PeerId, now: int): State {
    var ids := Bucket(s.byPeer, p);
    var rs := RatedReports(ids, s.reports, now);
    if |rs| < MIN_REPORTS then s else s.(scores := s.scores[p := ScoreOf(rs, |ids|, now)])
  }

  function Submit(s: State, reporter: PeerId, peer: PeerId, score: real, signature: string, now: int): State {
    if score < 0.0 || score > 1000.0 then s
    else
      var id := ReportId(reporter, peer, now);
      Recalculate(s.(
        reports := s.reports[id := Report(reporter, peer, score, now, signature)],
        byPeer := Insert(s.byPeer, peer, id),
        byReporter := Insert(s.byReporter, reporter, id)), peer, now)
  }

  /** The score is recalculated from the bucket before the report itself is deleted. */
  function RemoveReport(s: State, id: ReportId, now: int): State {
    if id !in s.reports then s
    else
      var r := s.reports[id];
      var t := Recalculate(s.(
        byPeer := Buckets.Remove(s.byPeer, r.peer, id),
        byReporter := Buckets.Remove(s.byReporter, r.reporter, id)), r.peer, now);
      t.(reports := t.reports - {id})
  }

  function RemoveAll(s: State, ids: seq<ReportId>, now: int): State
    decreases |ids|
  {
    if ids == [] then s else RemoveAll(RemoveReport(s, ids[0], now), ids[1..], now)
  }

  function RemoveForPeer(s: State, p: PeerId, now: int): State {
    if p !in s.byPeer then s
    else
      var t := RemoveAll(s, s.byPeer[p], now);
      t.(byPeer := t.byPeer - {p})
  }

  function SetLocal(s: State, p: PeerId, localScore: real, now: int): State {
    if p in s.scores then
      Recalculate(s.(scores := s.scores[p := s.scores[p].(localScore := localScore)]), p, now)
    else s.(scores := s.scores[p := Score(localScore, 0, localScore, 0, now)])
  }

  // ---------- The tables agree ----------

  function PeerOf(id: ReportId): PeerId { id.peer }

  function ReporterOf(id: ReportId): PeerId { id.reporter }

  predicate Matches(id: ReportId, r: Report) {
    r.peer == id.peer && r.reporter == id.reporter && 0.0 <= r.score <= 1000.0
  }

  /** Each bucket holds exactly the ids of the stored reports about that peer, or by that reporter, once each. */
  ghost predicate Inv(s: State) {
    && (forall id | id in s.reports :: Matches(id, s.reports[id]))
    && Indexes(s.byPeer, s.reports.Keys, PeerOf)
    && Indexes(s.byReporter, s.reports.Keys, ReporterOf)
  }

  predicate InScale(s: State) {
    forall p | p in s.scores :: 0.0 <= s.scores[p].aggregatedScore <= 1000.0
  }

  lemma RecalculateKeeps(s: State, p: PeerId, now: int)
    requires forall id <- Bucket(s.byPeer, p) :: id in s.reports ==> 0.0 <= s.reports[id].score <= 1000.0
    ensures var t := Recalculate(s, p, now);
            && t.reports == s.reports && t.byPeer == s.byPeer && t.byReporter == s.byReporter
            && (InScale(s) ==> InScale(t))
            && (forall q | q != p :: q in t.scores <==> q in s.scores)
            && (forall q | q != p && q in s.scores :: t.scores[q] == s.scores[q])
  {
    var rs := RatedReports(Bucket(s.byPeer, p), s.reports, now);
    RatedInRange(Bucket(s.byPeer, p), s.reports, now);
    if |rs| >= MIN_REPORTS {
      AggregateInScale(rs);
    }
  }

  lemma {:induction false} RatedInRange(ids: seq<ReportId>, reports: map<ReportId, Report>, now: int)
    requires forall id <- ids :: id in reports ==> 0.0 <= reports[id].score <= 1000.0
    ensures InRange(RatedReports(ids, reports, now), 0.0, 1000.0)
    ensures (forall id <- ids :: id in reports) ==> |RatedReports(ids, reports, now)| == |ids|
  {
    if ids != [] {
      assert ids == ids[..|ids| - 1] + [ids[|ids| - 1]];
      RatedInRange(ids[..|ids| - 1], reports, now);
    }
  }

  lemma SubmitKeeps(s: State, reporter: PeerId, peer: PeerId, score: real, signature: string, now: int)
    requires Inv(s)
    ensures var t := Submit(s, reporter, peer, score, signature, now);
            Inv(t) && (InScale(s) ==> InScale(t))
  {
    hide Indexes, Insert, Recalculate, Bucket;
    if 0.0 <= score <= 1000.0 {
      var id := ReportId(reporter, peer, now);
      var t := s.(
        reports := s.reports[id := Report(reporter, peer, score, now, signature)],
        byPeer := Insert(s.byPeer, peer, id),
        byReporter := Insert(s.byReporter, reporter, id));
      InsertIndexes(s.byPeer, s.reports.Keys, PeerOf, id);
      InsertIndexes(s.byReporter, s.reports.Keys, ReporterOf, id);
      assert t.reports.Keys == s.reports.Keys + {id};
      assert forall x | x in t.reports :: Matches(x, t.reports[x]);
      RecalculateKeeps(t, peer, now);
    }
  }

  // ---------- What a submission does to the scores ----------

  /** `ids` lists the stored reports about the peer, each once. */
  ghost predicate Lists(s: State, p: PeerId, ids: seq<ReportId>) {
    NoDuplicates(ids) && forall id :: id in ids <==> id in s.reports && s.reports[id].peer == p
  }

  /** The listed reports as they count at this time. */
  function RatedAt(s: State, ids: seq<ReportId>, now: int): (rs: seq<Rated>)
    requires forall id <- ids :: id in s.reports
    ensures |rs| == |ids|
  {
    seq(|ids|, i requires 0 <= i < |ids| =>
      assert ids[i] in ids;
      Rated(s.reports[ids[i]].score, Weight(now - s.reports[ids[i]].timestamp)))
  }

  lemma {:induction false} RatedReportsAre(s: State, ids: seq<ReportId>, now: int)
    requires forall id <- ids :: id in s.reports
    ensures RatedReports(ids, s.reports, now) == RatedAt(s, ids, now)
  {
    if ids != [] {
      var front, last := ids[..|ids| - 1], ids[|ids| - 1];
      assert ids == front + [last] && last in ids;
      RatedReportsAre(s, front, now);
      hide Weight, RatedReports;
    }
  }

  /** The score is the one these reports give: their number, the rounded average of their scores, and the rounded
      average, weighted by age, of those within two standard deviations. */
  ghost predicate ScoreFrom(x: Score, rs: seq<Rated>, now: int)
    requires rs != [] && Weighted(rs)
  {
    && x.reporterCount == |rs| && x.lastUpdated == now && x.localScore == 0.0
    && x.networkScore == Round(Mean(rs)) && x.aggregatedScore == Round(Aggregate(rs)) as real
  }

  /** A submission in range is stored under its id. With it, if there are at least five reports about the peer, the
      peer's score is the one they give; with fewer it stays as it was. No other peer's score changes, and a
      submission out of range changes nothing. */
  lemma SubmitScores(s: State, reporter: PeerId, peer: PeerId, score: real, signature: string, now: int)
    requires Inv(s)
    ensures var t := Submit(s, reporter, peer, score, signature, now);
            if !(0.0 <= score <= 1000.0) then t == s
            else
              && t.reports == s.reports[ReportId(reporter, peer, now) := Report(reporter, peer, score, now, signature)]
              && (forall q | q != peer :: q in t.scores <==> q in s.scores)
              && (forall q | q != peer && q in s.scores :: t.scores[q] == s.scores[q])
              && exists ids: seq<ReportId> | Lists(t, peer, ids) ::
                   var rs := RatedAt(t, ids, now);
                   if |ids| < 5 then t.scores == s.scores
                   else Weighted(rs) && peer in t.scores && ScoreFrom(t.scores[peer], rs, now)
  {
    if 0.0 <= score <= 1000.0 {
      SubmitKeeps(s, reporter, peer, score, signature, now);
      var id := ReportId(reporter, peer, now);
      var u := s.(
        reports := s.reports[id := Report(reporter, peer, score, now, signature)],
        byPeer := Insert(s.byPeer, peer, id),
        byReporter := Insert(s.byReporter, reporter, id));
      assert Submit(s, reporter, peer, score, signature, now) == Recalculate(u, peer, now);
      hide Submit, Inv, Insert, Recalculate, ScoreFrom, RatedAt, Lists;
      RecalculateScores(u, peer, now);
    }
  }

  lemma BucketLists(s: State, p: PeerId)
    requires Inv(s)
    ensures Lists(s, p, Bucket(s.byPeer, p))
  {
  }

  lemma RecalculateScores(s: State, p: PeerId, now: int)
    requires Inv(Recalculate(s, p, now))
    ensures var t := Recalculate(s, p, now);
            && t.reports == s.reports
            && (forall q | q != p :: q in t.scores <==> q in s.scores)
            && (forall q | q != p && q in s.scores :: t.scores[q] == s.scores[q])
            && exists ids: seq<ReportId> | Lists(t, p, ids) ::
                 var rs := RatedAt(t, ids, now);
                 if |ids| < 5 then t.scores == s.scores
                 else Weighted(rs) && p in t.scores && ScoreFrom(t.scores[p], rs, now)
  {
    var t := Recalculate(s, p, now);
    var ids := Bucket(s.byPeer, p);
    hide Inv, RatedReports, RatedAt, Mean, Aggregate, Lists, ScoreFrom, Round;
    assert t.reports == s.reports && t.byPeer == s.byPeer;
    BucketLists(t, p);
    assert forall id <- ids :: id in t.reports by { ListedStored(t, p, ids); }
    RatedReportsAre(t, ids, now);
    var rs := RatedAt(t, ids, now);
    assert RatedReports(ids, s.reports, now) == rs;
    if |ids| >= 5 {
      ScoreOfIs(rs, now);
    }
    hide Recalculate;
    assert Lists(t, p, ids);
  }

  lemma ListedStored(s: State, p: PeerId, ids: seq<ReportId>)
    requires Lists(s, p, ids)
    ensures forall id <- ids :: id in s.reports
  {
  }

  lemma ScoreOfIs(rs: seq<Rated>, now: int)
    requires |rs| >= 5 && Weighted(rs)
    ensures ScoreFrom(ScoreOf(rs, |rs|, now), rs, now)
  {
    hide Mean, Aggregate, Round;
  }
  lemma RemoveKeeps(s: State, id: ReportId, now: int)
    requires Inv(s)
    ensures var t := RemoveReport(s, id, now);
            Inv(t) && (InScale(s) ==> InScale(t)) && t.reports == s.reports - {id}
  {
    hide Indexes, Buckets.Remove, Recalculate, Bucket;
    if id in s.reports {
      RemoveIndexes(s.byPeer, s.reports.Keys, PeerOf, id);
      RemoveIndexes(s.byReporter, s.reports.Keys, ReporterOf, id);
      var t := s.(byPeer := Buckets.Remove(s.byPeer, id.peer, id),
                  byReporter := Buckets.Remove(s.byReporter, id.reporter, id));
      RecalculateKeeps(t, id.peer, now);
      assert (s.reports - {id}).Keys == s.reports.Keys - {id};
    }
  }

  ghost function Ids(q: seq<ReportId>): set<ReportId> { set id | id in q }

  lemma {:induction false} RemoveAllKeeps(s: State, ids: seq<ReportId>, now: int)
    requires Inv(s)
    ensures var t := RemoveAll(s, ids, now);
            Inv(t) && (InScale(s) ==> InScale(t)) && t.reports == s.reports - Ids(ids)
    decreases |ids|
  {
    hide Inv, RemoveReport, InScale;
    if ids != [] {
      RemoveKeeps(s, ids[0], now);
      RemoveAllKeeps(RemoveReport(s, ids[0], now), ids[1..], now);
      assert ids == [ids[0]] + ids[1..];
      assert Ids(ids) == {ids[0]} + Ids(ids[1..]);
    }
  }

  /** All reports about the peer go, and no others. */
  lemma RemoveForPeerKeeps(s: State, p: PeerId, now: int)
    requires Inv(s)
    ensures var t := RemoveForPeer(s, p, now);
            && Inv(t) && (InScale(s) ==> InScale(t))
            && p !in t.byPeer && t.reports == map id | id in s.reports && id.peer != p :: s.reports[id]
  {
    hide RemoveAll, Indexes, Matches;
    OwnedIds(s, p);
    if p in s.byPeer {
      RemoveAllKeeps(s, s.byPeer[p], now);
      var t := RemoveAll(s, s.byPeer[p], now);
      DropBucket(t.byPeer, t.reports.Keys, p);
      assert t.byPeer - {p} == RemoveForPeer(s, p, now).byPeer;
    }
  }

  lemma OwnedIds(s: State, p: PeerId)
    requires Inv(s)
    ensures forall id | id in s.reports :: id.peer == p <==> id in Bucket(s.byPeer, p)
  {
  }

  lemma DropBucket(m: map<PeerId, seq<ReportId>>, ids: set<ReportId>, p: PeerId)
    requires Indexes(m, ids, PeerOf) && forall id <- ids :: id.peer != p
    ensures Indexes(m - {p}, ids, PeerOf)
  {
  }

  /** The scale is kept exactly when the peer has a score already or the local score is in range: the local
      score of a peer without one is taken over as its aggregate, whatever it is. */
  lemma SetLocalKeeps(s: State, p: PeerId, localScore: real, now: int)
    requires Inv(s)
    ensures var t := SetLocal(s, p, localScore, now);
            Inv(t) && (InScale(s) ==> (InScale(t) <==> p in s.scores || 0.0 <= localScore <= 1000.0))
  {
    if p in s.scores {
      RecalculateKeeps(s.(scores := s.scores[p := s.scores[p].(localScore := localScore)]), p, now);
    } else {
      var t := SetLocal(s, p, localScore, now);
      assert p in t.scores && t.scores[p].aggregatedScore == localScore;
    }
  }

  /** The local score set is the local score kept exactly when no aggregate is due: with a score and five
      reports the recalculation that follows writes zero over it. */
  lemma LocalScoreKept(s: State, p: PeerId, localScore: real, now: int)
    requires Inv(s)
    ensures var t := SetLocal(s, p, localScore, now);
            p in t.scores && (t.scores[p].localScore == localScore
                              <==> p !in s.scores || |Bucket(s.byPeer, p)| < MIN_REPORTS || localScore == 0.0)
  {
    hide Inv, RatedReports;
    RatedCount(s, p, Bucket(s.byPeer, p), now);
  }

  // ---------- The score outlives the reports ----------

  lemma {:induction false} RatedSame(ids: seq<ReportId>, a: map<ReportId, Report>, b: map<ReportId, Report>, now: int)
    requires forall id <- ids :: (id in a <==> id in b) && (id in a ==> a[id] == b[id])
    ensures RatedReports(ids, a, now) == RatedReports(ids, b, now)
  {
    if ids != [] {
      assert ids == ids[..|ids| - 1] + [ids[|ids| - 1]];
      RatedSame(ids[..|ids| - 1], a, b, now);
    }
  }

  lemma RemoveFirst(s: State, p: PeerId, now: int)
    requires Inv(s) && Bucket(s.byPeer, p) != []
    ensures var ids := Bucket(s.byPeer, p);
            var t := RemoveReport(s, ids[0], now);
            var rs := RatedReports(ids[1..], s.reports, now);
            && Inv(t) && Bucket(t.byPeer, p) == ids[1..] && t.reports == s.reports - {ids[0]}
            && |rs| == |ids| - 1
            && t.scores == if |rs| < MIN_REPORTS then s.scores else s.scores[p := ScoreOf(rs, |rs|, now)]
  {
    hide Inv, Indexes, ScoreOf, RatedReports, InScale, Matches, Deleted;
    var ids := s.byPeer[p];
    HeadStored(s, p);
    RemoveKeeps(s, ids[0], now);
    RatedCount(s, p, ids[1..], now);
    HeadDeleted(ids);
  }

  lemma HeadDeleted(ids: seq<ReportId>)
    requires ids != [] && ids[0] !in ids[1..]
    ensures Deleted(ids, ids[0]) == ids[1..]
  {
    DeletedAbsent(ids[1..], ids[0]);
  }

  lemma HeadStored(s: State, p: PeerId)
    requires Inv(s) && Bucket(s.byPeer, p) != []
    ensures var ids := Bucket(s.byPeer, p);
            && ids[0] in s.reports && s.reports[ids[0]].peer == p && ids[0] !in ids[1..]
  {
    BucketStored(s, p);
    LaterApart(s, p);
    assert Bucket(s.byPeer, p)[0] in Bucket(s.byPeer, p);
  }

  function LastFive(ids: seq<ReportId>): seq<ReportId> { if |ids| >= 5 then ids[|ids| - 5..] else [] }

  /** Removing the first report of more than five leaves the last five and what they say as they are. */
  lemma LastFiveSame(s: State, p: PeerId, now: int)
    requires Inv(s) && |Bucket(s.byPeer, p)| > 5
    ensures var ids := Bucket(s.byPeer, p);
            && LastFive(ids[1..]) == LastFive(ids)
            && RatedReports(LastFive(ids), s.reports - {ids[0]}, now) == RatedReports(LastFive(ids), s.reports, now)
  {
    hide Inv, RatedReports;
    var ids := Bucket(s.byPeer, p);
    HeadStored(s, p);
    assert forall id <- LastFive(ids) :: id in ids[1..];
    RatedSame(LastFive(ids), s.reports, s.reports - {ids[0]}, now);
  }

  lemma LastFiveRated(s: State, p: PeerId, now: int)
    requires Inv(s) && |Bucket(s.byPeer, p)| >= 5
    ensures |RatedReports(LastFive(Bucket(s.byPeer, p)), s.reports, now)| == 5
  {
    hide Inv, RatedReports;
    RatedCount(s, p, LastFive(Bucket(s.byPeer, p)), now);
  }

  /** The scores once all reports about the peer are gone, one by one. */
  function ScoresAfter(s: State, p: PeerId, now: int): map<PeerId, Score> {
    var ids := Bucket(s.byPeer, p);
    var lastFive := RatedReports(LastFive(ids), s.reports, now);
    if |ids| > 5 && |lastFive| == 5 then s.scores[p := ScoreOf(lastFive, 5, now)] else s.scores
  }

  /** They are the same before and after the first of the removals. */
  lemma ScoresAfterFirst(s: State, p: PeerId, now: int)
    requires Inv(s) && Bucket(s.byPeer, p) != []
    ensures ScoresAfter(RemoveReport(s, Bucket(s.byPeer, p)[0], now), p, now) == ScoresAfter(s, p, now)
  {
    hide Inv, RatedReports, ScoreOf, Bucket, RemoveReport;
    var ids := Bucket(s.byPeer, p);
    RemoveFirst(s, p, now);
    if |ids| > 5 {
      LastFiveSame(s, p, now);
      LastFiveRated(s, p, now);
    }
  }

  /** Removing every report about a peer leaves the score of the last five of them, or the old one. */
  lemma {:induction false} ScoreSurvivesRemoval(s: State, p: PeerId, now: int)
    requires Inv(s)
    ensures var ids := Bucket(s.byPeer, p);
            var lastFive := RatedReports(LastFive(ids), s.reports, now);
            && (|ids| >= 5 ==> |lastFive| == 5)
            && RemoveAll(s, ids, now).scores == if |ids| > 5 then s.scores[p := ScoreOf(lastFive, 5, now)] else s.scores
  {
    hide Inv, RemoveAll, RatedReports, ScoreOf, Bucket;
    if |Bucket(s.byPeer, p)| >= 5 {
      LastFiveRated(s, p, now);
    }
    RemovalsScore(s, p, now);
  }

  lemma {:induction false} RemovalsScore(s: State, p: PeerId, now: int)
    requires Inv(s)
    ensures RemoveAll(s, Bucket(s.byPeer, p), now).scores == ScoresAfter(s, p, now)
    decreases |Bucket(s.byPeer, p)|
  {
    hide Inv, RemoveReport, Bucket, RemoveAll, ScoresAfter, RatedReports;
    var ids := Bucket(s.byPeer, p);
    RemoveAllStep(s, ids, now);
    if ids != [] {
      RemoveFirst(s, p, now);
      ScoresAfterFirst(s, p, now);
      RemovalsScore(RemoveReport(s, ids[0], now), p, now);
    } else {
      NothingAfter(s, p, now);
    }
  }

  lemma NothingAfter(s: State, p: PeerId, now: int)
    requires Bucket(s.byPeer, p) == []
    ensures ScoresAfter(s, p, now) == s.scores
  {
  }

  lemma RemoveAllStep(s: State, ids: seq<ReportId>, now: int)
    ensures RemoveAll(s, ids, now) == if ids == [] then s else RemoveAll(RemoveReport(s, ids[0], now), ids[1..], now)
  {
    hide RemoveReport;
  }

  lemma BucketStored(s: State, p: PeerId)
    requires Inv(s)
    ensures forall id <- Bucket(s.byPeer, p) :: id in s.reports && Matches(id, s.reports[id])
  {
  }

  lemma RatedCount(s: State, p: PeerId, ids: seq<ReportId>, now: int)
    requires Inv(s) && forall id <- ids :: id in Bucket(s.byPeer, p)
    ensures |RatedReports(ids, s.reports, now)| == |ids|
  {
    BucketStored(s, p);
    RatedInRange(ids, s.reports, now);
  }

  lemma LaterApart(s: State, p: PeerId)
    requires Inv(s) && Bucket(s.byPeer, p) != []
    ensures forall i | 1 <= i < |Bucket(s.byPeer, p)| :: Bucket(s.byPeer, p)[i] != Bucket(s.byPeer, p)[0]
  {
  }

  // ---------- The manager ----------

  class DistributedTrustManager {
    var trustScores: map<PeerId, Score>
    var trustReports: map<ReportId, Report>
    var reportsByPeer: map<PeerId, seq<ReportId>>
    var reportsByReporter: map<PeerId, seq<ReportId>>

    ghost function Value(): State
      reads this
    {
      State(trustScores, trustReports, reportsByPeer, reportsByReporter)
    }

    ghost predicate Valid()
      reads this
    {
      Inv(Value())
    }

    constructor ()
      ensures Value() == Empty && Valid()
    {
      trustScores, trustReports, reportsByPeer, reportsByReporter := map[], map[], map[], map[];
    }

    method RecalculateAggregatedScore(p: PeerId, now: int)
      modifies this`trustScores
      ensures Value() == Recalculate(old(Value()), p, now)
    {
      hide ScoreOf;
      if p !in reportsByPeer || |reportsByPeer[p]| == 0 {
        return;
      }
      var ids := reportsByPeer[p];
      var reports := RatedReports(ids, trustReports, now);
      if |reports| < 5 {
        return;
      }
      trustScores := trustScores[p := ScoreOf(reports, |ids|, now)];
    }

    method SubmitTrustReport(reporter: PeerId, peer: PeerId, trustScore: real, signature: string, now: int)
      returns (accepted: bool)
      requires Valid()
      modifies this
      ensures Valid() && Value() == Submit(old(Value()), reporter, peer, trustScore, signature, now)
      ensures accepted <==> 0.0 <= trustScore <= 1000.0
    {
      hide Inv, Recalculate, Insert;
      SubmitKeeps(Value(), reporter, peer, trustScore, signature, now);
      if trustScore < 0.0 || trustScore > 1000.0 {
        return false;
      }
      var id := ReportId(reporter, peer, now);
      trustReports := trustReports[id := Report(reporter, peer, trustScore, now, signature)];
      reportsByPeer := Insert(reportsByPeer, peer, id);
      reportsByReporter := Insert(reportsByReporter, reporter, id);
      RecalculateAggregatedScore(peer, now);
      return true;
    }

    method RemoveTrustReport(id: ReportId, now: int) returns (removed: bool)
      requires Valid()
      modifies this
      ensures Valid() && Value() == RemoveReport(old(Value()), id, now)
      ensures removed <==> id in old(trustReports)
    {
      hide Inv, Recalculate, Buckets.Remove;
      ghost var before := Value();
      RemoveKeeps(before, id, now);
      if id !in trustReports {
        return false;
      }
      var report := trustReports[id];
      reportsByPeer := Buckets.Remove(reportsByPeer, report.peer, id);
      reportsByReporter := Buckets.Remove(reportsByReporter, report.reporter, id);
      RecalculateAggregatedScore(report.peer, now);
      trustReports := trustReports - {id};
      return true;
    }

    /** The loop walks the bucket while each removal deletes the visited id from it. */
    method RemoveTrustReportsForPeer(p: PeerId, now: int) returns (count: nat)
      requires Valid()
      modifies this
      ensures Valid() && Value() == RemoveForPeer(old(Value()), p, now)
      ensures count == |Bucket(old(reportsByPeer), p)|
    {
      RemoveForPeerKeeps(Value(), p, now);
      if p !in reportsByPeer {
        return 0;
      }
      ghost var all := RemoveAll(Value(), reportsByPeer[p], now);
      var visited := reportsByPeer[p];
      count := 0;
      hide Inv, RemoveReport, RemoveAll;
      while count < |visited|
        invariant 0 <= count <= |visited|
        invariant Valid() && Bucket(reportsByPeer, p) == visited[count..]
        invariant RemoveAll(Value(), visited[count..], now) == all
      {
        RemoveAllStep(Value(), visited[count..], now);
        RemoveFirst(Value(), p, now);
        HeadStored(Value(), p);
        assert visited[count..][1..] == visited[count + 1..];
        var removed := RemoveTrustReport(visited[count], now);
        assert removed;
        count := count + 1;
      }
      RemoveAllStep(Value(), [], now);
      reportsByPeer := reportsByPeer - {p};
    }

    method SetLocalTrustScore(p: PeerId, localScore: real, now: int)
      requires Valid()
      modifies this
      ensures Valid() && Value() == SetLocal(old(Value()), p, localScore, now)
    {
      SetLocalKeeps(Value(), p, localScore, now);
      hide Inv, Recalculate, Insert, Buckets.Remove;
      if p in trustScores {
        trustScores := trustScores[p := trustScores[p].(localScore := localScore)];
        RecalculateAggregatedScore(p, now);
      } else {
        trustScores := trustScores[p := Score(localScore, 0, localScore, 0, now)];
      }
    }
  }
}
