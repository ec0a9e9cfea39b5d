/**
 * Integer model of JavaScript's `Math.round` applied to a non-negative
 * rational number n / d.
 */
module Rounding {

  /** `Math.round(n / d)`: the integer nearest to n / d, a half rounding up. */
  function RoundHalfUp(n: nat, d: nat): (r: nat)
    requires d > 0
    ensures 2 * d * r <= 2 * n + d < 2 * d * (r + 1)
  {
    (2 * n + d) / (2 * d)
  }

  /** At most one integer lies within half a unit of n / d (halves going up). */
  lemma NearestIsUnique(n: nat, d: nat, r: nat, k: nat)
    requires d > 0
    requires 2 * d * r <= 2 * n + d < 2 * d * (r + 1)
    requires 2 * d * k <= 2 * n + d < 2 * d * (k + 1)
    ensures r == k
  {
    if r < k {
      MulMonotone(2 * d, r + 1, k);
    }
    if k < r {
      MulMonotone(2 * d, k + 1, r);
    }
  }

  /** Rounding an exact quotient leaves it unchanged: no residue to round away. */
  lemma {:induction false} RoundExact(n: nat, d: nat)
    requires d > 0 && n % d == 0
    ensures RoundHalfUp(n, d) == n / d
  {
    var k := n / d;
    assert n == d * k;
    assert 2 * n + d == 2 * d * k + d;
    assert 2 * d * (k + 1) == 2 * d * k + 2 * d;
    NearestIsUnique(n, d, RoundHalfUp(n, d), k);
  }

  lemma MulMonotone(c: nat, a: nat, b: nat)
    requires a <= b
    ensures c * a <= c * b
  {
    assert c * b == c * a + c * (b - a);
  }

  /** Scaling a multiple of 100 by a whole percentage stays a whole number. */
  lemma {:induction false} ScaleHundredsExact(base: nat, pct: nat)
    requires base % 100 == 0
    ensures (base * pct) % 100 == 0
    ensures base * pct / 100 == (base / 100) * pct
  {
    var k := base / 100;
    assert base == 100 * k;
    assert base * pct == 100 * (k * pct);
  }

  /** Taking a fixed percentage, rounded down, never reverses an order. */
  lemma {:induction false} ScaleMonotone(a: nat, b: nat, pct: nat)
    requires a <= b
    ensures a * pct / 100 <= b * pct / 100
  {
    assert a * pct <= b * pct by {
      MulMonotone(pct, a, b);
    }
    DivMonotone(a * pct, b * pct, 100);
  }

  lemma DivMonotone(x: nat, y: nat, d: nat)
    requires x <= y && d > 0
    ensures x / d <= y / d
  {
    if y / d < x / d {
      MulMonotone(d, y / d + 1, x / d);
    }
  }
}

/**
 * The data behind the price-trend page: the chart series for a chosen period
 * and property type, the three summary figures, and the period labels.
 */
module Index {
  import opened Rounding

  /** The property-type toggle: flats, or independent builder floors. */
  datatype PropertyType = Flat | Builder

  /** A row of a hardcoded table: an x-axis label and its base rate per square foot. */
  datatype Entry = Entry(year: string, base: nat)

  /** A chart point: an x-axis label and the displayed rate per square foot. */
  datatype Point = Point(year: string, rate: nat)

  /**
   * The summary figures. Growth and rental yield are percentages with one
   * decimal, held here as whole tenths of a percent (45.7 is 457).
   */
  datatype Stats = Stats(avgRate: nat, growthTenths: nat, rentalYieldTenths: nat)

  const LastOneYear: string := "last-1-year"
  const LastThreeYears: string := "last-3-years"
  const LastFiveYears: string := "last-5-years"

  const OneYearTable: seq<Entry> := [
    Entry("Feb '25", 10800), Entry("May '25", 11000), Entry("Aug '25", 11200),
    Entry("Nov '25", 11500), Entry("Feb '26", 11800)
  ]

  const ThreeYearTable: seq<Entry> := [
    Entry("2023", 8800), Entry("2023.5", 9000), Entry("2024", 9400),
    Entry("2024.5", 10200), Entry("2025", 11000), Entry("2025.5", 11500),
    Entry("2026", 11800)
  ]

  const FiveYearTable: seq<Entry> := [
    Entry("2022", 8100), Entry("2022.5", 8300), Entry("2023", 8500),
    Entry("2023.5", 8700), Entry("2024", 9200), Entry("2024.5", 10000),
    Entry("2025", 11000), Entry("2025.5", 11100), Entry("2026", 11800)
  ]

  /** Every base rate of a table is a whole multiple of 100. */
  predicate WholeHundreds(tab: seq<Entry>) {
    forall i :: 0 <= i < |tab| ==> tab[i].base % 100 == 0
  }

  /** Base rates never fall from one row to a later one. */
  predicate BasesNonDecreasing(tab: seq<Entry>) {
    forall i, j :: 0 <= i <= j < |tab| ==> tab[i].base <= tab[j].base
  }

  /** Each base rate is at most the one in the next row. */
  predicate StepsNonDecreasing(tab: seq<Entry>) {
    forall i :: 0 <= i < |tab| - 1 ==> tab[i].base <= tab[i + 1].base
  }

  /** Rates that never fall from one row to the next never fall from one row to any later row. */
  lemma {:induction false} StepsGiveOrder(tab: seq<Entry>)
    requires StepsNonDecreasing(tab)
    ensures BasesNonDecreasing(tab)
  {
    if |tab| > 1 {
      var rest := tab[1..];
      assert StepsNonDecreasing(rest) by {
        forall i | 0 <= i < |rest| - 1 ensures rest[i].base <= rest[i + 1].base {
          assert rest[i] == tab[i + 1] && rest[i + 1] == tab[i + 2];
        }
      }
      StepsGiveOrder(rest);
      forall i, j | 0 <= i <= j < |tab| ensures tab[i].base <= tab[j].base {
        if 0 < i {
          assert tab[i] == rest[i - 1] && tab[j] == rest[j - 1];
        } else if 0 < j {
          assert tab[1] == rest[0] && tab[j] == rest[j - 1];
        }
      }
    }
  }

  /** Displayed rates never fall from one point to a later one. */
  predicate RatesNonDecreasing(r: seq<Point>) {
    forall i, j :: 0 <= i <= j < |r| ==> r[i].rate <= r[j].rate
  }

  /**
   * The table a period selects. Only the two exact strings "last-1-year" and
   * "last-3-years" select the short tables; every other string, the empty one
   * included, selects the five-year table.
   */
  function BaseTable(period: string): (tab: seq<Entry>)
    ensures |tab| > 0 && tab[|tab| - 1].base == 11800
  {
    if period == LastOneYear then OneYearTable
    else if period == LastThreeYears then ThreeYearTable
    else FiveYearTable
  }

  /** Every table holds only multiples of 100, and its base rates never fall. */
  lemma BaseTableShape(period: string)
    ensures WholeHundreds(BaseTable(period)) && BasesNonDecreasing(BaseTable(period))
  {
    if period == LastOneYear {
      OneYearShape();
    } else if period == LastThreeYears {
      ThreeYearShape();
    } else {
      FiveYearShape();
    }
  }

  /** The shape of each hardcoded table, checked row against next row. */
  lemma OneYearShape()
    ensures WholeHundreds(OneYearTable) && BasesNonDecreasing(OneYearTable)
  {
    assert StepsNonDecreasing(OneYearTable);
    StepsGiveOrder(OneYearTable);
  }

  lemma ThreeYearShape()
    ensures WholeHundreds(ThreeYearTable) && BasesNonDecreasing(ThreeYearTable)
  {
    assert StepsNonDecreasing(ThreeYearTable);
    StepsGiveOrder(ThreeYearTable);
  }

  lemma FiveYearShape()
    ensures WholeHundreds(FiveYearTable) && BasesNonDecreasing(FiveYearTable)
  {
    assert StepsNonDecreasing(FiveYearTable);
    StepsGiveOrder(FiveYearTable);
  }

  /** The base multiplier as a whole percentage: 1 for flats, 0.85 otherwise. */
  function MultiplierPercent(t: PropertyType): (pct: nat)
    ensures 0 < pct <= 100
    ensures pct == 100 <==> t == Flat
  {
    if t == Flat then 100 else 85
  }

  /**
   * `Math.round(base * baseMultiplier)`: the integer nearest the scaled base,
   * a half rounding up.
   */
  function ScaledRate(base: nat, t: PropertyType): (rate: nat)
    ensures 2 * 100 * rate <= 2 * base * MultiplierPercent(t) + 100 < 2 * 100 * (rate + 1)
  {
    RoundHalfUp(base * MultiplierPercent(t), 100)
  }

  /** For a base that is a multiple of 100 the product is whole, so rounding changes nothing. */
  lemma {:induction false} ScaledRateExact(base: nat, t: PropertyType)
    ensures base % 100 == 0 ==> ScaledRate(base, t) == base / 100 * MultiplierPercent(t)
  {
    if base % 100 == 0 {
      ScaleHundredsExact(base, MultiplierPercent(t));
      RoundExact(base * MultiplierPercent(t), 100);
    }
  }

  /**
   * Each row of a table with its base rate scaled: the `Math.round(base *
   * baseMultiplier)` written out on every row of the three tables. Labels and
   * order are kept; each rate is the integer nearest the scaled base, and it is
   * exactly the scaled base when the table holds only multiples of 100.
   */
  function Scale(tab: seq<Entry>, t: PropertyType): (r: seq<Point>)
    ensures |r| == |tab|
    ensures forall i :: 0 <= i < |r| ==> r[i].year == tab[i].year
    ensures forall i :: 0 <= i < |r| ==>
      2 * 100 * r[i].rate <= 2 * tab[i].base * MultiplierPercent(t) + 100 < 2 * 100 * (r[i].rate + 1)
    ensures WholeHundreds(tab) ==>
      forall i :: 0 <= i < |r| ==> r[i].rate == tab[i].base / 100 * MultiplierPercent(t)
  {
    if tab == [] then []
    else
      var rest := Scale(tab[1..], t);
      ScaledRateExact(tab[0].base, t);
      assert WholeHundreds(tab) ==> WholeHundreds(tab[1..]);
      [Point(tab[0].year, ScaledRate(tab[0].base, t))] + rest
  }

  /**
   * `generateData(period, propertyType)`: the chosen table, each base rate
   * scaled exactly by the property type's multiplier, labels unchanged and in
   * table order.
   */
  function GenerateData(period: string, t: PropertyType): (r: seq<Point>)
    ensures |r| == |BaseTable(period)|
    ensures forall i :: 0 <= i < |r| ==> r[i].year == BaseTable(period)[i].year
    ensures forall i :: 0 <= i < |r| ==>
      r[i].rate == BaseTable(period)[i].base / 100 * MultiplierPercent(t)
  {
    BaseTableShape(period);
    Scale(BaseTable(period), t)
  }

  /** The last point of a series: the current rate. */
  function Latest(r: seq<Point>): Point
    requires |r| > 0
  {
    r[|r| - 1]
  }

  /**
   * The rise from the first to the last rate of a series, relative to the
   * first, in tenths of a percent, rounded to the nearest tenth.
   */
  function RiseTenths(r: seq<Point>): nat
    requires |r| > 0 && r[0].rate > 0 && r[0].rate <= Latest(r).rate
  {
    RoundHalfUp((Latest(r).rate - r[0].rate) * 1000, r[0].rate)
  }

  /**
   * `getStats(propertyType, period)`. The average rate is the current rate,
   * the last point of every series of that property type, whatever the period.
   */
  function GetStats(t: PropertyType, period: string): (s: Stats)
    ensures forall p :: s.avgRate == Latest(GenerateData(p, t)).rate
  {
    SeriesEndsAtCurrentRate(t);
    Stats(
      if t == Flat then 11800 else 10030,
      if period == LastFiveYears then 457 else if period == LastThreeYears then 341 else 93,
      if t == Flat then 30 else 32)
  }

  /** Every series of a property type ends at the same rate, 11800 scaled by its multiplier. */
  lemma SeriesEndsAtCurrentRate(t: PropertyType)
    ensures forall p :: Latest(GenerateData(p, t)).rate == if t == Flat then 11800 else 10030
  {
    forall p ensures Latest(GenerateData(p, t)).rate == if t == Flat then 11800 else 10030 {
      var tab := BaseTable(p);
      assert tab[|tab| - 1].base / 100 == 118;
    }
  }

  /**
   * `periodLabels`: the dropdown text for each period key. It is defined on
   * exactly the three keys the series distinguishes, and no two keys share a
   * text.
   */
  function PeriodLabels(): (m: map<string, string>)
    ensures m.Keys == {LastOneYear, LastThreeYears, LastFiveYears}
    ensures m[LastOneYear] != m[LastThreeYears]
    ensures m[LastOneYear] != m[LastFiveYears]
    ensures m[LastThreeYears] != m[LastFiveYears]
  {
    map[LastOneYear := "Last 1 Year", LastThreeYears := "Last 3 Years", LastFiveYears := "Last 5 Years"]
  }

  /**
   * `Object.keys(periodLabels)`: the dropdown's options, in the order the
   * object literal lists them. Every labelled key appears once, and nothing
   * else appears.
   */
  function PeriodKeys(): (keys: seq<string>)
    ensures forall k :: k in keys <==> k in PeriodLabels()
    ensures forall i, j :: 0 <= i < j < |keys| ==> keys[i] != keys[j]
  {
    [LastOneYear, LastThreeYears, LastFiveYears]
  }

  // ---------------------------------------------------------------------------
  // Properties of the series

  /** The series has 5 points for the one-year period, 7 for three years, 9 for any other string. */
  lemma SeriesLength(period: string, t: PropertyType)
    ensures period == LastOneYear ==> |GenerateData(period, t)| == 5
    ensures period == LastThreeYears ==> |GenerateData(period, t)| == 7
    ensures period != LastOneYear && period != LastThreeYears ==> |GenerateData(period, t)| == 9
  {
  }

  /** Any period string without a label yields exactly the five-year series. */
  lemma UnknownPeriodFallsBack(period: string, t: PropertyType)
    requires period !in PeriodLabels()
    ensures GenerateData(period, t) == GenerateData(LastFiveYears, t)
  {
    assert period != LastOneYear && period != LastThreeYears;
    assert BaseTable(period) == BaseTable(LastFiveYears);
  }

  /** For flats every rate is the table's base rate itself. */
  lemma FlatRatesAreBase(period: string)
    ensures forall i :: 0 <= i < |GenerateData(period, Flat)| ==>
      GenerateData(period, Flat)[i].rate == BaseTable(period)[i].base
  {
    var tab := BaseTable(period);
    BaseTableShape(period);
    forall i | 0 <= i < |tab|
      ensures tab[i].base / 100 * 100 == tab[i].base
    {
      assert tab[i].base % 100 == 0;
    }
  }

  /**
   * For a fixed period the builder-floor series has the flat series' labels in
   * the same order, and each builder rate is exactly 85% of the flat rate:
   * a whole number, and never above it.
   */
  lemma BuilderScalesFlat(period: string)
    ensures |GenerateData(period, Builder)| == |GenerateData(period, Flat)|
    ensures forall i :: 0 <= i < |GenerateData(period, Flat)| ==>
      var flat, builder := GenerateData(period, Flat)[i], GenerateData(period, Builder)[i];
      && builder.year == flat.year
      && (flat.rate * 85) % 100 == 0
      && builder.rate == flat.rate * 85 / 100
      && builder.rate <= flat.rate
  {
    FlatRatesAreBase(period);
    var tab := BaseTable(period);
    BaseTableShape(period);
    forall i | 0 <= i < |tab|
      ensures (tab[i].base * 85) % 100 == 0
      ensures tab[i].base / 100 * 85 == tab[i].base * 85 / 100
      ensures tab[i].base / 100 * 85 <= tab[i].base
    {
      ScaleHundredsExact(tab[i].base, 85);
    }
  }

  /** Rates never fall along the series, for every period and property type. */
  lemma SeriesNonDecreasing(period: string, t: PropertyType)
    ensures RatesNonDecreasing(GenerateData(period, t))
  {
    var tab, r := BaseTable(period), GenerateData(period, t);
    BaseTableShape(period);
    var pct := MultiplierPercent(t);
    forall i, j | 0 <= i <= j < |r|
      ensures r[i].rate <= r[j].rate
    {
      ScaleHundredsExact(tab[i].base, pct);
      ScaleHundredsExact(tab[j].base, pct);
      ScaleMonotone(tab[i].base, tab[j].base, pct);
    }
  }

  // ---------------------------------------------------------------------------
  // Properties of the summary figures

  /** The average rate and rental yield depend only on the property type. */
  lemma StatsIgnorePeriodForTypeFigures(t: PropertyType, p1: string, p2: string)
    ensures GetStats(t, p1).avgRate == GetStats(t, p2).avgRate
    ensures GetStats(t, p1).rentalYieldTenths == GetStats(t, p2).rentalYieldTenths
    ensures GetStats(t, p1).rentalYieldTenths == if t == Flat then 30 else 32
  {
  }

  /**
   * Growth depends only on the period: 45.7 for five years, 34.1 for three
   * years, and 9.3 for every other string, the one-year key included.
   */
  lemma GrowthIgnoresType(period: string, t1: PropertyType, t2: PropertyType)
    ensures GetStats(t1, period).growthTenths == GetStats(t2, period).growthTenths
    ensures period == LastFiveYears ==> GetStats(t1, period).growthTenths == 457
    ensures period == LastThreeYears ==> GetStats(t1, period).growthTenths == 341
    ensures period != LastFiveYears && period != LastThreeYears ==>
      GetStats(t1, period).growthTenths == 93
  {
  }

  /**
   * For each labelled period the growth figure is the series' own rise from its
   * first to its last rate, rounded to a tenth of a percent, for both
   * property types.
   */
  lemma GrowthIsSeriesRise(period: string, t: PropertyType)
    requires period in PeriodLabels()
    ensures var r := GenerateData(period, t);
      && |r| > 0 && 0 < r[0].rate <= Latest(r).rate
      && GetStats(t, period).growthTenths == RiseTenths(r)
  {
    assert period == LastOneYear || period == LastThreeYears || period == LastFiveYears;
    if period == LastOneYear {
      GrowthAt(period, t, 108, 93);
    } else if period == LastThreeYears {
      GrowthAt(period, t, 88, 341);
    } else {
      GrowthAt(period, t, 81, 457);
    }
  }

  /** The growth rule for one period, given its first base rate in hundreds and its growth figure. */
  lemma GrowthAt(period: string, t: PropertyType, first: nat, g: nat)
    requires (first, g) in {(108, 93), (88, 341), (81, 457)}
    requires BaseTable(period)[0].base / 100 == first && GetStats(t, period).growthTenths == g
    ensures var r := GenerateData(period, t);
      && |r| > 0 && 0 < r[0].rate <= Latest(r).rate
      && GetStats(t, period).growthTenths == RiseTenths(r)
  {
    var r, pct := GenerateData(period, t), MultiplierPercent(t);
    assert r[0].rate == first * pct;
    assert Latest(r).rate == 118 * pct;
    RiseOf(r, first, pct, g);
  }

  /**
   * The rise of a series whose rates run from one of the three first base
   * rates (in hundreds) to 11800, scaled by either multiplier.
   */
  lemma RiseOf(r: seq<Point>, first: nat, pct: nat, g: nat)
    requires (first, g) in {(108, 93), (88, 341), (81, 457)} && pct in {100, 85}
    requires |r| > 0 && r[0].rate == first * pct && Latest(r).rate == 118 * pct
    ensures 0 < r[0].rate <= Latest(r).rate && RiseTenths(r) == g
  {
    if pct == 100 {
      if first == 108 {
        assert RiseTenths(r) == RoundHalfUp(1000000, 10800);
      } else if first == 88 {
        assert RiseTenths(r) == RoundHalfUp(3000000, 8800);
      } else {
        assert RiseTenths(r) == RoundHalfUp(3700000, 8100);
      }
    } else {
      if first == 108 {
        assert RiseTenths(r) == RoundHalfUp(850000, 9180);
      } else if first == 88 {
        assert RiseTenths(r) == RoundHalfUp(2550000, 7480);
      } else {
        assert RiseTenths(r) == RoundHalfUp(3145000, 6885);
      }
    }
  }

  /**
   * An unlabelled period gets the five-year series but the one-year growth
   * figure, so its growth does not describe the series it is shown with.
   */
  lemma UnknownPeriodGrowthMismatch(period: string, t: PropertyType)
    requires period !in PeriodLabels()
    ensures GetStats(t, period).growthTenths == GetStats(t, LastOneYear).growthTenths
    ensures var r := GenerateData(period, t);
      && |r| > 0 && 0 < r[0].rate <= Latest(r).rate
      && GetStats(t, period).growthTenths != RiseTenths(r)
  {
    assert period != LastFiveYears && period != LastThreeYears;
    assert GetStats(t, period).growthTenths == 93;
    UnknownPeriodFallsBack(period, t);
    GrowthIsSeriesRise(LastFiveYears, t);
    assert GetStats(t, LastFiveYears).growthTenths == 457;
  }

  // ---------------------------------------------------------------------------
  // Properties of the period dropdown

  /** The options of each period, one year then three then five, select series of increasing length. */
  lemma PeriodLengthsIncrease(t: PropertyType)
    ensures |GenerateData(LastOneYear, t)| < |GenerateData(LastThreeYears, t)| < |GenerateData(LastFiveYears, t)|
  {
    assert LastFiveYears != LastOneYear && LastFiveYears != LastThreeYears;
    SeriesLength(LastOneYear, t);
    SeriesLength(LastThreeYears, t);
    SeriesLength(LastFiveYears, t);
  }

  /**
   * The dropdown's three options, in `Object.keys` order, select series of
   * strictly increasing length: the options run from the shortest period to
   * the longest.
   */
  lemma DropdownShortestFirst(t: PropertyType)
    ensures |PeriodKeys()| == 3
    ensures |GenerateData(PeriodKeys()[0], t)| < |GenerateData(PeriodKeys()[1], t)| < |GenerateData(PeriodKeys()[2], t)|
  {
    var keys := PeriodKeys();
    assert keys[0] == LastOneYear && keys[1] == LastThreeYears && keys[2] == LastFiveYears;
    PeriodLengthsIncrease(t);
  }
}
