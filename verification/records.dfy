/**
 The rows of the automobile sales table, and the row filters the dashboard
 applies to them. The table is loaded once and never changes, so it is
 modelled as an immutable sequence of records.
 */
module Records {

  /** One row of the sales table; only the columns the dashboard reads are kept.
      `recession` is the raw 0/1 column, compared with 1 by the dashboard. */
  datatype Record = Record(
    year: int,
    month: string,
    vehicleType: string,
    automobileSales: real,
    advertisingExpenditure: real,
    unemploymentRate: real,
    recession: int)

  type Dataset = seq<Record>

  /** The rows of `rows` that satisfy `p`, in their original order
      (a boolean-mask selection `data[mask]`). */
  function Filter(rows: seq<Record>, p: Record -> bool): (res: seq<Record>)
    ensures |res| <= |rows|
    ensures forall r :: r in res <==> r in rows && p(r)
    ensures forall r :: multiset(res)[r] == if p(r) then multiset(rows)[r] else 0
  {
    if |rows| == 0 then []
    else
      assert rows == [rows[0]] + rows[1..];
      (if p(rows[0]) then [rows[0]] else []) + Filter(rows[1..], p)
  }

  /** The sum of `val` over all rows. */
  function Total(rows: seq<Record>, val: Record -> real): real
  {
    if |rows| == 0 then 0.0 else val(rows[0]) + Total(rows[1..], val)
  }

  predicate InRecession(r: Record) {
    r.recession == 1
  }

  /** The recession subset: rows whose `Recession` column equals 1. */
  function RecessionRows(data: Dataset): (res: Dataset)
    ensures forall r :: r in res <==> r in data && r.recession == 1
  {
    Filter(data, InRecession)
  }

  /** The rows of one calendar year. */
  function YearRows(data: Dataset, year: int): (res: Dataset)
    ensures forall r :: r in res <==> r in data && r.year == year
  {
    Filter(data, (r: Record) => r.year == year)
  }
}
