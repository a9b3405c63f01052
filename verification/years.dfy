/**
 `year_list = sorted(data['Year'].unique())` and the year dropdown's default
 value `year_list[0]`.
 */
module Years {
  import opened Optional
  import opened Records

  predicate StrictlyIncreasing(xs: seq<int>) {
    forall i, j :: 0 <= i < j < |xs| ==> xs[i] < xs[j]
  }

  /** `y` occurs as the year of some row. */
  predicate YearPresent(data: Dataset, y: int) {
    exists i :: 0 <= i < |data| && data[i].year == y
  }

  /** Inserts `y` into an ascending duplicate-free list, keeping it so. */
  function InsertSorted(xs: seq<int>, y: int): (res: seq<int>)
    requires StrictlyIncreasing(xs)
    ensures StrictlyIncreasing(res)
    ensures forall z :: z in res <==> z in xs || z == y
  {
    if |xs| == 0 then [y]
    else if y < xs[0] then [y] + xs
    else if y == xs[0] then xs
    else
      var tail := InsertSorted(xs[1..], y);
      forall i | 0 <= i < |tail|
        ensures xs[0] < tail[i]
      {
        assert tail[i] in tail;
        if tail[i] != y {
          var j :| 0 <= j < |xs| - 1 && xs[1..][j] == tail[i];
          assert xs[j + 1] == tail[i];
        }
      }
      [xs[0]] + tail
  }

  /** The distinct years of the rows, ascending. */
  function YearList(data: Dataset): (years: seq<int>)
    ensures StrictlyIncreasing(years)
    ensures forall y :: y in years <==> YearPresent(data, y)
  {
    if |data| == 0 then []
    else
      var rest := YearList(data[1..]);
      forall y | YearPresent(data, y) && y != data[0].year
        ensures YearPresent(data[1..], y)
      {
        var i :| 0 <= i < |data| && data[i].year == y;
        assert data[1..][i - 1].year == y;
      }
      forall y | YearPresent(data[1..], y)
        ensures YearPresent(data, y)
      {
        var i :| 0 <= i < |data| - 1 && data[1..][i].year == y;
        assert data[i + 1].year == y;
      }
      InsertSorted(rest, data[0].year)
  }

  lemma HeadIsElement(xs: seq<int>)
    ensures |xs| > 0 ==> xs[0] in xs
  {
  }

  /** Two ascending duplicate-free lists with the same elements are equal:
      `YearList` is the one sorted, deduplicated list of the data's years. */
  lemma {:induction false} StrictlyIncreasingUnique(a: seq<int>, b: seq<int>)
    requires StrictlyIncreasing(a) && StrictlyIncreasing(b)
    requires forall z :: z in a <==> z in b
    ensures a == b
  {
    if |a| > 0 && |b| > 0 {
      assert a[0] in a && b[0] in b;
      var i :| 0 <= i < |b| && b[i] == a[0];
      var j :| 0 <= j < |a| && a[j] == b[0];
      assert a[0] == b[0] by {
        assert b[0] <= b[i] && a[0] <= a[j];
      }
      forall z ensures z in a[1..] <==> z in b[1..] {
        if z in a[1..] {
          var k :| 0 <= k < |a| - 1 && a[1..][k] == z;
          assert a[k + 1] == z && z != a[0];
          assert z in b;
          var m :| 0 <= m < |b| && b[m] == z;
          assert m > 0 && b[1..][m - 1] == z;
        }
        if z in b[1..] {
          var k :| 0 <= k < |b| - 1 && b[1..][k] == z;
          assert b[k + 1] == z && z != b[0];
          assert z in a;
          var m :| 0 <= m < |a| && a[m] == z;
          assert m > 0 && a[1..][m - 1] == z;
        }
      }
      StrictlyIncreasingUnique(a[1..], b[1..]);
      assert a == [a[0]] + a[1..] && b == [b[0]] + b[1..];
    } else if |a| > 0 {
      HeadIsElement(a);
      assert false;
    } else if |b| > 0 {
      HeadIsElement(b);
      assert false;
    }
  }

  /** `year_list[0]`: the earliest year, or `None` where the source fails
      with an index error because the data has no rows. */
  function DefaultYear(data: Dataset): (y: Option<int>)
    ensures y.None? <==> |data| == 0
    ensures y.Some? ==> YearPresent(data, y.value)
    ensures y.Some? ==> forall i :: 0 <= i < |data| ==> y.value <= data[i].year
  {
    var years := YearList(data);
    if |years| == 0 then
      assert |data| > 0 ==> YearPresent(data, data[0].year);
      None
    else
      forall i | 0 <= i < |data|
        ensures years[0] <= data[i].year
      {
        assert YearPresent(data, data[i].year);
      }
      Some(years[0])
  }
}
