/**
 * The measure engine of src/data.py: from the cleaned panel, the return of
 * each asset over the sample window, the covariance matrix of the asset
 * prices, and the observed allocation weight of each asset (its average share
 * of the day's total trading volume).
 */
module Measures {
  import opened Panel
  import opened Stats
  import opened Wrappers

  /** The assets of a panel. */
  function Names(d: seq<Row>): set<string>
  {
    set i | 0 <= i < |d| :: d[i].name
  }

  /** The trading days of a panel. */
  function Dates(d: seq<Row>): set<int>
  {
    set i | 0 <= i < |d| :: d[i].date
  }

  lemma NamesOfTail(d: seq<Row>, n: string)
    requires n in Names(d) && d[0].name != n
    ensures n in Names(d[1..])
  {
    var i :| 0 <= i < |d| && d[i].name == n;
    assert d[1..][i - 1].name == n;
  }

  lemma NamesOfFront(d: seq<Row>, n: string)
    requires n in Names(d) && d[|d| - 1].name != n
    ensures n in Names(d[..|d| - 1])
  {
    var i :| 0 <= i < |d| && d[i].name == n;
    assert d[..|d| - 1][i].name == n;
  }

  // ---------------------------------------------------------------------------
  // measure_returns
  // ---------------------------------------------------------------------------

  /** The row `groupby('name').first()` reads for asset `n`: its first row. */
  function FirstIndex(d: seq<Row>, n: string): (k: nat)
    requires n in Names(d)
    ensures k < |d| && d[k].name == n
    ensures forall j :: 0 <= j < k ==> d[j].name != n
  {
    if d[0].name == n then 0
    else
      NamesOfTail(d, n);
      1 + FirstIndex(d[1..], n)
  }

  /** The row `groupby('name').last()` reads for asset `n`: its last row. */
  function LastIndex(d: seq<Row>, n: string): (k: nat)
    requires n in Names(d)
    ensures k < |d| && d[k].name == n
    ensures forall j :: k < j < |d| ==> d[j].name != n
  {
    if d[|d| - 1].name == n then |d| - 1
    else
      NamesOfFront(d, n);
      LastIndex(d[..|d| - 1], n)
  }

  function FirstPrice(d: seq<Row>, n: string): real
    requires n in Names(d)
  {
    d[FirstIndex(d, n)].price
  }

  function LastPrice(d: seq<Row>, n: string): real
    requires n in Names(d)
  {
    d[LastIndex(d, n)].price
  }

  /** Division by a zero first price is excluded (it has no real value). */
  ghost predicate FirstPricesNonzero(d: seq<Row>)
  {
    forall n :: n in Names(d) ==> FirstPrice(d, n) != 0.0
  }

  /** Buying at `first` and selling at `last` multiplies the investment by
      1 + r. */
  ghost predicate Grows(first: real, r: real, last: real)
  {
    last == first * (1.0 + r)
  }

  /** The holding-period return from `first` to `last`. */
  function Return(first: real, last: real): (r: real)
    requires first != 0.0
    ensures Grows(first, r, last)
  {
    assert first * ((last - first) / first) == last - first;
    (last - first) / first
  }

  /** For a positive buying price, the return is positive exactly when the
      price rose and zero exactly when it did not move. */
  lemma ReturnSign(first: real, last: real)
    requires first > 0.0
    ensures Return(first, last) > 0.0 <==> last > first
    ensures Return(first, last) == 0.0 <==> last == first
  {
  }

  /** `measure_returns`: one return per asset, from its first to its last row. */
  function Returns(d: seq<Row>): (r: map<string, real>)
    requires FirstPricesNonzero(d)
    ensures r.Keys == Names(d)
    ensures forall n :: n in r ==> Grows(FirstPrice(d, n), r[n], LastPrice(d, n))
  {
    map n | n in Names(d) :: Return(FirstPrice(d, n), LastPrice(d, n))
  }

  /** Row `i` is an earliest observation of asset `n`. */
  ghost predicate Earliest(d: seq<Row>, n: string, i: int)
  {
    0 <= i < |d| && d[i].name == n && forall j :: 0 <= j < |d| && d[j].name == n ==> d[i].date <= d[j].date
  }

  /** Row `k` is a latest observation of asset `n`. */
  ghost predicate Latest(d: seq<Row>, n: string, k: int)
  {
    0 <= k < |d| && d[k].name == n && forall j :: 0 <= j < |d| && d[j].name == n ==> d[j].date <= d[k].date
  }

  /** On a panel sorted by (name, date), the first and last rows of an asset
      are its chronologically earliest and latest observations. */
  lemma FirstLastAreEarliestLatest(d: seq<Row>, n: string)
    requires Sorted(d) && n in Names(d)
    ensures Earliest(d, n, FirstIndex(d, n))
    ensures Latest(d, n, LastIndex(d, n))
  {
    var f, l := FirstIndex(d, n), LastIndex(d, n);
    forall j | 0 <= j < |d| && d[j].name == n ensures d[f].date <= d[j].date <= d[l].date {
      if f < j { assert KeyLe(d[f], d[j]); }
      if j < l { assert KeyLe(d[j], d[l]); }
    }
  }

  /** The return of an asset, read off its earliest and latest observations:
      on a sorted panel with one row per (name, date), whichever rows are the
      earliest and the latest, the return is (last - first) / first. */
  lemma ReturnFromEarliestToLatest(d: seq<Row>, n: string, i: int, k: int)
    requires Sorted(d) && UniqueKeys(d) && FirstPricesNonzero(d)
    requires n in Names(d) && Earliest(d, n, i) && Latest(d, n, k)
    ensures d[i].price != 0.0
    ensures Returns(d)[n] == (d[k].price - d[i].price) / d[i].price
  {
    FirstLastAreEarliestLatest(d, n);
    var f, l := FirstIndex(d, n), LastIndex(d, n);
    if f != i {
      assert false;
    }
    if l != k {
      assert false;
    }
  }

  /** An asset observed on a single day earns nothing. */
  lemma SingleObservationReturnsZero(d: seq<Row>, n: string)
    requires FirstPricesNonzero(d) && n in Names(d)
    requires forall i, j :: 0 <= i < |d| && 0 <= j < |d| && d[i].name == n && d[j].name == n ==> i == j
    ensures Returns(d)[n] == 0.0
  {
    assert FirstIndex(d, n) == LastIndex(d, n);
  }

  // ---------------------------------------------------------------------------
  // measure_covariance
  // ---------------------------------------------------------------------------

  /** The wide table: price by (date, name). */
  type Grid = map<(int, string), real>

  datatype PivotError = DuplicateEntry(date: int, name: string)

  /** The (date, name) cells a panel fills. */
  function Cells(d: seq<Row>): set<(int, string)>
  {
    set i | 0 <= i < |d| :: (d[i].date, d[i].name)
  }

  lemma UniqueKeysCons(d: seq<Row>)
    requires d != []
    ensures UniqueKeys(d) <==> UniqueKeys(d[1..]) && (d[0].date, d[0].name) !in Cells(d[1..])
  {
    var t := d[1..];
    if UniqueKeys(d) {
      forall i, j | 0 <= i < j < |t| ensures t[i].name != t[j].name || t[i].date != t[j].date {
        assert t[i] == d[i + 1] && t[j] == d[j + 1];
      }
    }
    if UniqueKeys(t) && (d[0].date, d[0].name) !in Cells(t) {
      forall i, j | 0 <= i < j < |d| ensures d[i].name != d[j].name || d[i].date != d[j].date {
        assert d[j] == t[j - 1];
        if i == 0 {
          assert (t[j - 1].date, t[j - 1].name) in Cells(t);
        } else {
          assert d[i] == t[i - 1];
        }
      }
    }
  }

  /** Two distinct rows of `d` share the cell (date, name). */
  ghost predicate Repeated(d: seq<Row>, date: int, name: string)
  {
    exists i, j :: 0 <= i < j < |d| && d[i].date == date && d[i].name == name && d[j].date == date && d[j].name == name
  }

  lemma RepeatedCons(d: seq<Row>, date: int, name: string)
    requires d != []
    requires Repeated(d[1..], date, name) || (d[0].date == date && d[0].name == name && (date, name) in Cells(d[1..]))
    ensures Repeated(d, date, name)
  {
    var t := d[1..];
    if Repeated(t, date, name) {
      var i, j :| 0 <= i < j < |t| && t[i].date == date && t[i].name == name && t[j].date == date && t[j].name == name;
      assert d[i + 1] == t[i] && d[j + 1] == t[j];
    } else {
      var j :| 0 <= j < |t| && (date, name) == (t[j].date, t[j].name);
      assert d[j + 1] == t[j];
    }
  }

  /** `pivot(index='date', columns='name', values='price')`: fails on a
      repeated (date, name) pair, naming that pair, otherwise holds each row's
      price in its cell. */
  function Pivot(d: seq<Row>): (g: Result<Grid, PivotError>)
    ensures g.Ok? <==> UniqueKeys(d)
    ensures g.Ok? ==> g.value.Keys == Cells(d)
    ensures g.Ok? ==> forall i :: 0 <= i < |d| ==> g.value[(d[i].date, d[i].name)] == d[i].price
    ensures g.Err? ==> Repeated(d, g.error.date, g.error.name)
  {
    if d == [] then Ok(map[])
    else
      UniqueKeysCons(d);
      var key := (d[0].date, d[0].name);
      match Pivot(d[1..])
      case Err(e) =>
        RepeatedCons(d, e.date, e.name);
        Err(e)
      case Ok(g) =>
        if key in g then
          RepeatedCons(d, d[0].date, d[0].name);
          Err(DuplicateEntry(d[0].date, d[0].name))
        else
          var g' := g[key := d[0].price];
          assert Cells(d) == Cells(d[1..]) + {key} by {
            forall c | c in Cells(d) ensures c in Cells(d[1..]) + {key} {
              var i :| 0 <= i < |d| && c == (d[i].date, d[i].name);
              if i > 0 { assert d[i] == d[1..][i - 1]; }
            }
            forall c | c in Cells(d[1..]) ensures c in Cells(d) {
              var i :| 0 <= i < |d[1..]| && c == (d[1..][i].date, d[1..][i].name);
              assert d[1..][i] == d[i + 1];
            }
          }
          assert forall i :: 0 <= i < |d| ==> g'[(d[i].date, d[i].name)] == d[i].price by {
            forall i | 0 <= i < |d| ensures g'[(d[i].date, d[i].name)] == d[i].price {
              if i > 0 {
                assert d[i] == d[1..][i - 1];
                assert (d[i].date, d[i].name) in Cells(d[1..]);
              }
            }
          }
          Ok(g')
  }

  /** Strictly increasing dates. */
  ghost predicate Increasing(s: seq<int>)
  {
    forall i, j :: 0 <= i < j < |s| ==> s[i] < s[j]
  }

  function Elements(s: seq<int>): set<int>
  {
    set x | x in s
  }

  lemma PrependIncreasing(x: int, s: seq<int>)
    requires Increasing(s) && forall y :: y in s ==> x < y
    ensures Increasing([x] + s) && Elements([x] + s) == {x} + Elements(s)
  {
    var r := [x] + s;
    forall i, j | 0 <= i < j < |r| ensures r[i] < r[j] {
      assert r[j] == s[j - 1] && s[j - 1] in s;
      if i > 0 { assert r[i] == s[i - 1]; }
    }
  }

  lemma ElementsCons(s: seq<int>)
    requires s != []
    ensures Elements(s) == {s[0]} + Elements(s[1..])
  {
    assert s == [s[0]] + s[1..];
  }

  /** The head of an increasing list is below every element of its tail
      with a later date inserted. */
  lemma HeadBelowInsert(t: int, s: seq<int>, tail: seq<int>)
    requires Increasing(s) && s != [] && s[0] < t
    requires Elements(tail) == Elements(s[1..]) + {t}
    ensures forall x :: x in tail ==> s[0] < x
  {
    forall x | x in tail ensures s[0] < x {
      assert x in Elements(tail);
      if x != t {
        var k :| 0 <= k < |s[1..]| && s[1..][k] == x;
        assert s[k + 1] == x;
      }
    }
  }

  /** Adds a date to an increasing list of distinct dates, keeping it so. */
  function InsertDate(t: int, s: seq<int>): (r: seq<int>)
    requires Increasing(s)
    ensures Increasing(r) && Elements(r) == Elements(s) + {t}
  {
    if s == [] then [t]
    else if t < s[0] then
      PrependIncreasing(t, s);
      [t] + s
    else if t == s[0] then s
    else
      var tail := InsertDate(t, s[1..]);
      ElementsCons(s);
      HeadBelowInsert(t, s, tail);
      PrependIncreasing(s[0], tail);
      [s[0]] + tail
  }

  /** The row index of the wide table: the panel's dates, ascending, each once. */
  function DateAxis(d: seq<Row>): (axis: seq<int>)
    ensures Increasing(axis) && Elements(axis) == Dates(d)
  {
    if d == [] then []
    else
      var axis := InsertDate(d[0].date, DateAxis(d[1..]));
      assert Dates(d) == Dates(d[1..]) + {d[0].date} by {
        forall t | t in Dates(d) ensures t in Dates(d[1..]) + {d[0].date} {
          var i :| 0 <= i < |d| && d[i].date == t;
          if i > 0 { assert d[1..][i - 1].date == t; }
        }
        forall t | t in Dates(d[1..]) ensures t in Dates(d) {
          var i :| 0 <= i < |d[1..]| && d[1..][i].date == t;
          assert d[i + 1].date == t;
        }
      }
      axis
  }

  lemma {:induction false} IncreasingCardinality(s: seq<int>)
    requires Increasing(s)
    ensures |Elements(s)| == |s|
  {
    if s != [] {
      IncreasingCardinality(s[1..]);
      assert Elements(s) == {s[0]} + Elements(s[1..]) by {
        assert s == [s[0]] + s[1..];
      }
      assert s[0] !in Elements(s[1..]);
    }
  }

  /** Every asset has a price on every trading day of the panel. */
  ghost predicate Dense(d: seq<Row>)
  {
    forall t, n :: t in Dates(d) && n in Names(d) ==> (t, n) in Cells(d)
  }

  /** The pairs of assets: both axes of the covariance matrix. */
  function AssetPairs(names: set<string>): set<(string, string)>
  {
    set a, b | a in names && b in names :: (a, b)
  }

  /** Every cell a dense table needs is filled: the grid has a price for each
      asset on each day of the date axis. */
  ghost predicate Covers(g: Grid, axis: seq<int>, names: set<string>)
  {
    forall k, n :: 0 <= k < |axis| && n in names ==> (axis[k], n) in g
  }

  lemma PivotCoversAxis(d: seq<Row>)
    requires Dense(d) && UniqueKeys(d)
    ensures Covers(Pivot(d).value, DateAxis(d), Names(d))
  {
    var axis := DateAxis(d);
    forall k, n | 0 <= k < |axis| && n in Names(d) ensures (axis[k], n) in Pivot(d).value {
      assert axis[k] in Elements(axis);
    }
  }

  lemma AxisLength(d: seq<Row>)
    ensures |DateAxis(d)| == |Dates(d)|
  {
    IncreasingCardinality(DateAxis(d));
  }

  /** The price column of asset `n` of the wide table, in date order. */
  function Column(g: Grid, axis: seq<int>, n: string): (xs: seq<real>)
    requires forall k :: 0 <= k < |axis| ==> (axis[k], n) in g
    ensures |xs| == |axis|
    ensures forall k :: 0 <= k < |axis| ==> xs[k] == g[(axis[k], n)]
  {
    seq(|axis|, k requires 0 <= k < |axis| => g[(axis[k], n)])
  }

  /** `DataFrame.cov()` of the wide table: the sample covariance of every pair
      of columns. */
  function CovMatrix(g: Grid, axis: seq<int>, names: set<string>): (m: map<(string, string), real>)
    requires |axis| >= 2 && Covers(g, axis, names)
    ensures m.Keys == AssetPairs(names)
  {
    map a, b | a in names && b in names :: (a, b) := SampleCov(Column(g, axis, a), Column(g, axis, b))
  }

  /** `measure_covariance`: pivot to the wide table, then its covariance
      matrix. A dense panel with at least two days is required; a repeated
      (date, name) pair makes the pivot fail. */
  function Covariance(d: seq<Row>): (r: Result<map<(string, string), real>, PivotError>)
    requires Dense(d) && |Dates(d)| >= 2
    ensures r.Ok? <==> UniqueKeys(d)
    ensures r.Ok? ==> r.value.Keys == AssetPairs(Names(d))
  {
    match Pivot(d)
    case Err(e) => Err(e)
    case Ok(g) =>
      AxisLength(d);
      PivotCoversAxis(d);
      Ok(CovMatrix(g, DateAxis(d), Names(d)))
  }

  /** `xs` lists the prices of asset `n` on the panel's days in ascending
      date order. */
  ghost predicate PriceSeries(d: seq<Row>, n: string, xs: seq<real>)
  {
    var axis := DateAxis(d);
    |xs| == |axis| &&
    forall k, i :: 0 <= k < |axis| && 0 <= i < |d| && d[i].name == n && d[i].date == axis[k] ==> xs[k] == d[i].price
  }

  lemma ColumnIsPriceSeries(d: seq<Row>, n: string, xs: seq<real>)
    requires Dense(d) && UniqueKeys(d) && n in Names(d) && PriceSeries(d, n, xs)
    ensures Covers(Pivot(d).value, DateAxis(d), Names(d))
    ensures Column(Pivot(d).value, DateAxis(d), n) == xs
  {
    var g, axis := Pivot(d).value, DateAxis(d);
    PivotCoversAxis(d);
    forall k | 0 <= k < |axis| ensures xs[k] == g[(axis[k], n)] {
      assert (axis[k], n) in Cells(d);
      var i :| 0 <= i < |d| && (axis[k], n) == (d[i].date, d[i].name);
    }
  }

  /** Each entry of the matrix is the sample covariance of the two assets'
      price series, and the matrix is symmetric. */
  lemma CovarianceEntries(d: seq<Row>, a: string, b: string, xs: seq<real>, ys: seq<real>)
    requires Dense(d) && |Dates(d)| >= 2 && UniqueKeys(d)
    requires a in Names(d) && b in Names(d)
    requires PriceSeries(d, a, xs) && PriceSeries(d, b, ys)
    ensures |xs| == |ys| >= 2
    ensures Covariance(d).value[(a, b)] == SampleCov(xs, ys)
    ensures Covariance(d).value[(a, b)] == Covariance(d).value[(b, a)]
  {
    AxisLength(d);
    ColumnIsPriceSeries(d, a, xs);
    ColumnIsPriceSeries(d, b, ys);
    SampleCovSymmetric(xs, ys);
  }

  /** The diagonal holds sample variances, which are never negative. */
  lemma CovarianceDiagonalNonnegative(d: seq<Row>, a: string)
    requires Dense(d) && |Dates(d)| >= 2 && UniqueKeys(d) && a in Names(d)
    ensures Covariance(d).value[(a, a)] >= 0.0
  {
    AxisLength(d);
    PivotCoversAxis(d);
    SampleVarianceNonnegative(Column(Pivot(d).value, DateAxis(d), a));
  }

  // ---------------------------------------------------------------------------
  // measure_weights
  // ---------------------------------------------------------------------------

  /** Aggregate trading volume of day `t`: `groupby('date')['volume'].sum()`. */
  function VolumeOn(d: seq<Row>, t: int): real
  {
    if d == [] then 0.0 else (if d[0].date == t then d[0].volume else 0.0) + VolumeOn(d[1..], t)
  }

  /** Every day trades a non-zero total. With non-negative volumes a zero
      total makes each of that day's shares 0 / 0 (NaN), which the mean in
      `Weights` would skip; that case is excluded here. */
  ghost predicate DailyVolumesNonzero(d: seq<Row>)
  {
    forall i :: 0 <= i < |d| ==> VolumeOn(d, d[i].date) != 0.0
  }

  /** The `weight` column: each row's share of its day's total volume. */
  function Shares(d: seq<Row>): (s: seq<real>)
    requires DailyVolumesNonzero(d)
    ensures |s| == |d|
    ensures forall i :: 0 <= i < |d| ==> s[i] * VolumeOn(d, d[i].date) == d[i].volume
  {
    seq(|d|, i requires 0 <= i < |d| => d[i].volume / VolumeOn(d, d[i].date))
  }

  /** Sum of the values `s[i]` over the rows of asset `n`. */
  function SumForAsset(d: seq<Row>, s: seq<real>, n: string): real
    requires |s| == |d|
  {
    if d == [] then 0.0 else (if d[0].name == n then s[0] else 0.0) + SumForAsset(d[1..], s[1..], n)
  }

  /** Number of rows of asset `n`. */
  function CountForAsset(d: seq<Row>, n: string): nat
  {
    if d == [] then 0 else (if d[0].name == n then 1 else 0) + CountForAsset(d[1..], n)
  }

  lemma {:induction false} CountPositive(d: seq<Row>, n: string)
    requires n in Names(d)
    ensures CountForAsset(d, n) > 0
  {
    if d[0].name != n {
      NamesOfTail(d, n);
      CountPositive(d[1..], n);
    }
  }

  /** Sum of the values `s[i]` over the rows of day `t`. */
  function SumForDate(d: seq<Row>, s: seq<real>, t: int): real
    requires |s| == |d|
  {
    if d == [] then 0.0 else (if d[0].date == t then s[0] else 0.0) + SumForDate(d[1..], s[1..], t)
  }

  /** `groupby('name')['weight'].mean()`: each asset's mean daily share. */
  function Weights(d: seq<Row>): (w: map<string, real>)
    requires DailyVolumesNonzero(d)
    ensures w.Keys == Names(d)
  {
    var s := Shares(d);
    assert forall n :: n in Names(d) ==> CountForAsset(d, n) > 0 by {
      forall n | n in Names(d) ensures CountForAsset(d, n) > 0 {
        CountPositive(d, n);
      }
    }
    map n | n in Names(d) :: SumForAsset(d, s, n) / CountForAsset(d, n) as real
  }

  lemma {:induction false} SharesOfDate(d: seq<Row>, s: seq<real>, t: int, total: real)
    requires |s| == |d| && total != 0.0
    requires forall i :: 0 <= i < |d| && d[i].date == t ==> s[i] == d[i].volume / total
    ensures SumForDate(d, s, t) == VolumeOn(d, t) / total
  {
    if d != [] {
      SharesOfDate(d[1..], s[1..], t, total);
      if d[0].date == t {
        assert s[0] + VolumeOn(d[1..], t) / total == (d[0].volume + VolumeOn(d[1..], t)) / total;
      }
    }
  }

  /** On every trading day the assets' shares of that day's volume add up
      to one. */
  lemma DailySharesSumToOne(d: seq<Row>, t: int)
    requires DailyVolumesNonzero(d) && t in Dates(d)
    ensures SumForDate(d, Shares(d), t) == 1.0
  {
    var i :| 0 <= i < |d| && d[i].date == t;
    var total := VolumeOn(d, t);
    assert total != 0.0;
    SharesOfDate(d, Shares(d), t, total);
    assert VolumeOn(d, t) / total == 1.0;
  }

  lemma {:induction false} VolumeWithinDailyTotal(d: seq<Row>, i: int)
    requires 0 <= i < |d|
    requires forall j :: 0 <= j < |d| ==> d[j].volume >= 0.0
    ensures 0.0 <= d[i].volume <= VolumeOn(d, d[i].date)
  {
    if i == 0 {
      VolumeOnNonnegative(d[1..], d[0].date);
    } else {
      VolumeWithinDailyTotal(d[1..], i - 1);
      assert d[1..][i - 1] == d[i];
    }
  }

  lemma {:induction false} VolumeOnNonnegative(d: seq<Row>, t: int)
    requires forall j :: 0 <= j < |d| ==> d[j].volume >= 0.0
    ensures VolumeOn(d, t) >= 0.0
  {
    if d != [] {
      VolumeOnNonnegative(d[1..], t);
    }
  }

  lemma {:induction false} SumForAssetBounds(d: seq<Row>, s: seq<real>, n: string)
    requires |s| == |d|
    requires forall i :: 0 <= i < |s| ==> 0.0 <= s[i] <= 1.0
    ensures 0.0 <= SumForAsset(d, s, n) <= CountForAsset(d, n) as real
  {
    if d != [] {
      SumForAssetBounds(d[1..], s[1..], n);
    }
  }

  /** With non-negative volumes every daily share lies in [0, 1]. */
  lemma SharesInUnitInterval(d: seq<Row>)
    requires DailyVolumesNonzero(d)
    requires forall j :: 0 <= j < |d| ==> d[j].volume >= 0.0
    ensures forall i :: 0 <= i < |d| ==> 0.0 <= Shares(d)[i] <= 1.0
  {
    var s := Shares(d);
    forall i | 0 <= i < |d| ensures 0.0 <= s[i] <= 1.0 {
      VolumeWithinDailyTotal(d, i);
      var total := VolumeOn(d, d[i].date);
      RatioInUnitInterval(d[i].volume, total, s[i]);
    }
  }

  lemma RatioInUnitInterval(x: real, total: real, r: real)
    requires 0.0 <= x <= total && total != 0.0 && r == x / total
    ensures 0.0 <= r <= 1.0
  {
  }

  /** With non-negative volumes every weight lies in [0, 1]. */
  lemma WeightsInUnitInterval(d: seq<Row>, n: string)
    requires DailyVolumesNonzero(d) && n in Names(d)
    requires forall j :: 0 <= j < |d| ==> d[j].volume >= 0.0
    ensures 0.0 <= Weights(d)[n] <= 1.0
  {
    var s := Shares(d);
    SharesInUnitInterval(d);
    SumForAssetBounds(d, s, n);
    CountPositive(d, n);
    var c, total := CountForAsset(d, n) as real, SumForAsset(d, s, n);
    RatioInUnitInterval(total, c, total / c);
    assert Weights(d)[n] == total / c;
  }

  lemma SumForAssetCons(d: seq<Row>, s: seq<real>, n: string)
    requires |s| == |d| > 0
    ensures SumForAsset(d, s, n) == (if d[0].name == n then s[0] else 0.0) + SumForAsset(d[1..], s[1..], n)
  {
  }

  lemma {:induction false} SumOfConstant(d: seq<Row>, s: seq<real>, n: string, c: real)
    requires |s| == |d|
    requires forall i :: 0 <= i < |d| && d[i].name == n ==> s[i] == c
    ensures SumForAsset(d, s, n) == c * CountForAsset(d, n) as real
  {
    if d != [] {
      SumOfConstant(d[1..], s[1..], n, c);
      var k := CountForAsset(d[1..], n) as real;
      if d[0].name == n {
        assert c * (k + 1.0) == c + c * k;
      }
    }
  }

  /** An asset whose share of the daily volume is the same on every day it
      trades has that share as its weight. */
  lemma ConstantShareWeight(d: seq<Row>, n: string, c: real)
    requires DailyVolumesNonzero(d) && n in Names(d)
    requires forall i :: 0 <= i < |d| && d[i].name == n ==> Shares(d)[i] == c
    ensures Weights(d)[n] == c
  {
    var s := Shares(d);
    SumOfConstant(d, s, n, c);
    CountPositive(d, n);
    var k, total := CountForAsset(d, n) as real, SumForAsset(d, s, n);
    assert total == c * k;
    CancelFactor(c, k, total);
    assert Weights(d)[n] == total / k;
  }

  lemma CancelFactor(c: real, k: real, total: real)
    requires k > 0.0 && total == c * k
    ensures total / k == c
  {
  }
}
