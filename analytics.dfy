/**
 * The statistics several pages compute over a list of grades: the sum and
 * mean of the percentages, the best and worst percentage, the colour a
 * percentage is shown in, the five-band distribution of the overview pages
 * and the three-band distribution of the per-student and per-subject pages.
 */
module Analytics {
  import opened Seqs
  import opened Sorting
  import opened Grades

  /** `grades.reduce((sum, g) => sum + percentage(g), 0)`. */
  function SumPct(gs: seq<ValidGrade>): real
  {
    if gs == [] then 0.0 else Percentage(gs[0]) + SumPct(gs[1..])
  }

  /** The mean percentage; 0 for no grades, as every page writes it. */
  function MeanPct(gs: seq<ValidGrade>): (r: real)
    ensures |gs| == 0 ==> r == 0.0
  {
    if |gs| == 0 then 0.0 else SumPct(gs) / (|gs| as real)
  }

  /** The mean times the count gives back the sum. */
  lemma MeanTimesCount(gs: seq<ValidGrade>)
    requires |gs| > 0
    ensures MeanPct(gs) * (|gs| as real) == SumPct(gs)
  {
  }

  /** `Math.max(...percentages)` of a non-empty list. */
  function MaxPct(gs: seq<ValidGrade>): (r: real)
    requires |gs| > 0
    ensures forall i :: 0 <= i < |gs| ==> Percentage(gs[i]) <= r
    ensures exists i :: 0 <= i < |gs| && Percentage(gs[i]) == r
  {
    if |gs| == 1 then Percentage(gs[0])
    else
      var m := MaxPct(gs[1..]);
      assert forall i :: 1 <= i < |gs| ==> gs[i] == gs[1..][i - 1];
      if Percentage(gs[0]) >= m then Percentage(gs[0]) else m
  }

  /** `Math.min(...percentages)` of a non-empty list. */
  function MinPct(gs: seq<ValidGrade>): (r: real)
    requires |gs| > 0
    ensures forall i :: 0 <= i < |gs| ==> r <= Percentage(gs[i])
    ensures exists i :: 0 <= i < |gs| && Percentage(gs[i]) == r
  {
    if |gs| == 1 then Percentage(gs[0])
    else
      var m := MinPct(gs[1..]);
      assert forall i :: 1 <= i < |gs| ==> gs[i] == gs[1..][i - 1];
      if Percentage(gs[0]) <= m then Percentage(gs[0]) else m
  }

  lemma {:induction false} SumAtLeast(gs: seq<ValidGrade>, lo: real)
    requires forall i :: 0 <= i < |gs| ==> lo <= Percentage(gs[i])
    ensures lo * (|gs| as real) <= SumPct(gs)
  {
    if gs != [] {
      SumAtLeast(gs[1..], lo);
    }
  }

  lemma {:induction false} SumAtMost(gs: seq<ValidGrade>, hi: real)
    requires forall i :: 0 <= i < |gs| ==> Percentage(gs[i]) <= hi
    ensures SumPct(gs) <= hi * (|gs| as real)
  {
    if gs != [] {
      SumAtMost(gs[1..], hi);
    }
  }

  /** Scaling by a positive factor keeps an inequality. */
  lemma ScaleKeepsOrder(a: real, b: real, n: real)
    requires n > 0.0 && a * n <= b * n
    ensures a <= b
  {
  }

  /** A lower bound on every percentage bounds the mean from below. */
  lemma MeanAtLeast(gs: seq<ValidGrade>, lo: real)
    requires |gs| > 0
    requires forall i :: 0 <= i < |gs| ==> lo <= Percentage(gs[i])
    ensures lo <= MeanPct(gs)
  {
    SumAtLeast(gs, lo);
    MeanTimesCount(gs);
    ScaleKeepsOrder(lo, MeanPct(gs), |gs| as real);
  }

  /** An upper bound on every percentage bounds the mean from above. */
  lemma MeanAtMost(gs: seq<ValidGrade>, hi: real)
    requires |gs| > 0
    requires forall i :: 0 <= i < |gs| ==> Percentage(gs[i]) <= hi
    ensures MeanPct(gs) <= hi
  {
    SumAtMost(gs, hi);
    MeanTimesCount(gs);
    ScaleKeepsOrder(MeanPct(gs), hi, |gs| as real);
  }

  /** The mean of a non-empty list lies between its worst and its best percentage. */
  lemma MeanBetween(gs: seq<ValidGrade>)
    requires |gs| > 0
    ensures MinPct(gs) <= MeanPct(gs) <= MaxPct(gs)
  {
    MeanAtLeast(gs, MinPct(gs));
    MeanAtMost(gs, MaxPct(gs));
  }

  /** When every grade scores 0 the mean is 0. */
  lemma {:induction false} MeanOfZeroScores(gs: seq<ValidGrade>)
    requires forall i :: 0 <= i < |gs| ==> gs[i].score == 0.0
    ensures SumPct(gs) == 0.0 && MeanPct(gs) == 0.0
  {
    if gs != [] {
      MeanOfZeroScores(gs[1..]);
    }
  }

  /** Inserting a grade into a list adds its percentage to the sum. */
  lemma {:induction false} SumInsert(x: ValidGrade, s: seq<ValidGrade>, le: (ValidGrade, ValidGrade) -> bool)
    ensures SumPct(Insert(x, s, le)) == Percentage(x) + SumPct(s)
  {
    if s != [] && !le(x, s[0]) {
      SumInsert(x, s[1..], le);
    }
  }

  /** Sorting a list of grades does not change the sum of its percentages. */
  lemma {:induction false} SumSort(gs: seq<ValidGrade>, le: (ValidGrade, ValidGrade) -> bool)
    ensures SumPct(Sort(gs, le)) == SumPct(gs)
  {
    if gs != [] {
      SumSort(gs[1..], le);
      SumInsert(gs[0], Sort(gs[1..], le), le);
    }
  }

  /** The best and worst percentage depend only on which grades are in the list. */
  lemma ExtremesSameElements(a: seq<ValidGrade>, b: seq<ValidGrade>)
    requires |a| > 0 && |b| > 0
    requires forall x :: x in a <==> x in b
    ensures MaxPct(a) == MaxPct(b) && MinPct(a) == MinPct(b)
  {
    var i :| 0 <= i < |a| && Percentage(a[i]) == MaxPct(a);
    var j :| 0 <= j < |b| && Percentage(b[j]) == MaxPct(b);
    assert a[i] in b && b[j] in a;
    var k :| 0 <= k < |a| && Percentage(a[k]) == MinPct(a);
    var l :| 0 <= l < |b| && Percentage(b[l]) == MinPct(b);
    assert a[k] in b && b[l] in a;
  }

  /** The four statistic cards: count, mean, and best and worst, which read 'N/A' for no grades. */
  datatype StatCards = StatCards(total: nat, average: real, highest: Option<real>, lowest: Option<real>)

  function CardStats(gs: seq<ValidGrade>): (c: StatCards)
    ensures c.total == |gs|
    ensures |gs| == 0 ==> c.average == 0.0 && c.highest == None && c.lowest == None
    ensures |gs| > 0 ==> c.average == MeanPct(gs)
    ensures |gs| > 0 ==> c.highest.Some? && c.lowest.Some? && c.lowest.value <= c.average <= c.highest.value
    ensures |gs| > 0 ==> forall i :: 0 <= i < |gs| ==> c.lowest.value <= Percentage(gs[i]) <= c.highest.value
  {
    if |gs| == 0 then StatCards(0, 0.0, None, None)
    else
      MeanBetween(gs);
      StatCards(|gs|, MeanPct(gs), Some(MaxPct(gs)), Some(MinPct(gs)))
  }

  /** The cards of a sorted list are the cards of the list. */
  lemma CardStatsSort(gs: seq<ValidGrade>, le: (ValidGrade, ValidGrade) -> bool)
    ensures CardStats(Sort(gs, le)) == CardStats(gs)
  {
    var r := Sort(gs, le);
    SumSort(gs, le);
    SortSameElements(gs, le);
    if |gs| > 0 {
      ExtremesSameElements(r, gs);
    }
  }

  /** The text colour of a percentage. */
  datatype Color = Green | Yellow | Red

  function GradeColor(p: real): (c: Color)
    ensures c == Green <==> p >= 80.0
    ensures c == Yellow <==> 60.0 <= p < 80.0
    ensures c == Red <==> p < 60.0
  {
    if p >= 80.0 then Green
    else if p >= 60.0 then Yellow
    else Red
  }

  /** The five bands of the overview distribution. */
  datatype Band = Excellent | Good | Fair | Below | Failing

  /** The band a percentage falls in: every percentage falls in exactly one. */
  function BandOf(p: real): (b: Band)
    ensures b == Excellent <==> p >= 90.0
    ensures b == Good <==> 80.0 <= p < 90.0
    ensures b == Fair <==> 70.0 <= p < 80.0
    ensures b == Below <==> 60.0 <= p < 70.0
    ensures b == Failing <==> p < 60.0
  {
    if p >= 90.0 then Excellent
    else if p >= 80.0 then Good
    else if p >= 70.0 then Fair
    else if p >= 60.0 then Below
    else Failing
  }

  predicate IsExcellent(g: ValidGrade) { Percentage(g) >= 90.0 }
  predicate IsGood(g: ValidGrade) { var p := Percentage(g); p >= 80.0 && p < 90.0 }
  predicate IsFair(g: ValidGrade) { var p := Percentage(g); p >= 70.0 && p < 80.0 }
  predicate IsBelow(g: ValidGrade) { var p := Percentage(g); p >= 60.0 && p < 70.0 }
  predicate IsFailing(g: ValidGrade) { Percentage(g) < 60.0 }

  /** Each grade satisfies exactly one of the five band filters: the one of its band. */
  lemma FiveBandsDisjoint(g: ValidGrade)
    ensures IsExcellent(g) <==> BandOf(Percentage(g)) == Excellent
    ensures IsGood(g) <==> BandOf(Percentage(g)) == Good
    ensures IsFair(g) <==> BandOf(Percentage(g)) == Fair
    ensures IsBelow(g) <==> BandOf(Percentage(g)) == Below
    ensures IsFailing(g) <==> BandOf(Percentage(g)) == Failing
  {
  }

  /** The counts of the overview distribution, named as the pages name them. */
  datatype FiveBuckets = FiveBuckets(excellent: nat, good: nat, average: nat, below: nat, failing: nat)
  {
    function Sum(): nat { excellent + good + average + below + failing }
  }

  /** Five independent filters, one per band, as the overview pages write them. */
  function FiveBucketDistribution(gs: seq<ValidGrade>): FiveBuckets
  {
    FiveBuckets(|Filter(gs, IsExcellent)|, |Filter(gs, IsGood)|, |Filter(gs, IsFair)|,
                |Filter(gs, IsBelow)|, |Filter(gs, IsFailing)|)
  }

  /** The five counts partition the grades: together they count every grade once. */
  lemma {:induction false} FiveBucketsPartition(gs: seq<ValidGrade>)
    ensures FiveBucketDistribution(gs).Sum() == |gs|
  {
    if gs != [] {
      FiveBucketsPartition(gs[1..]);
      var b := BandOf(Percentage(gs[0]));
    }
  }

  /** The three bands of the per-student and per-subject pages, named by their colour. */
  predicate IsRed(g: ValidGrade) { Percentage(g) < 60.0 }
  predicate IsYellow(g: ValidGrade) { var p := Percentage(g); p >= 60.0 && p < 80.0 }
  predicate IsGreen(g: ValidGrade) { Percentage(g) >= 80.0 }

  datatype ThreeBuckets = ThreeBuckets(red: nat, yellow: nat, green: nat)

  function ThreeBucketDistribution(gs: seq<ValidGrade>): ThreeBuckets
  {
    ThreeBuckets(|Filter(gs, IsRed)|, |Filter(gs, IsYellow)|, |Filter(gs, IsGreen)|)
  }

  /** The three counts partition the grades. */
  lemma {:induction false} ThreeBucketsPartition(gs: seq<ValidGrade>)
    ensures var d := ThreeBucketDistribution(gs); d.red + d.yellow + d.green == |gs|
  {
    if gs != [] {
      ThreeBucketsPartition(gs[1..]);
      var c := GradeColor(Percentage(gs[0]));
    }
  }

  /** Each of the three bands holds exactly the grades shown in its colour. */
  lemma {:induction false} ThreeBucketsByColor(gs: seq<ValidGrade>)
    ensures ThreeBucketDistribution(gs).red == |Filter(gs, (g: ValidGrade) => GradeColor(Percentage(g)) == Red)|
    ensures ThreeBucketDistribution(gs).yellow == |Filter(gs, (g: ValidGrade) => GradeColor(Percentage(g)) == Yellow)|
    ensures ThreeBucketDistribution(gs).green == |Filter(gs, (g: ValidGrade) => GradeColor(Percentage(g)) == Green)|
  {
    if gs != [] {
      ThreeBucketsByColor(gs[1..]);
      var c := GradeColor(Percentage(gs[0]));
    }
  }
}
