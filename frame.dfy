/** The table a projection is returned as: six named columns of equal length,
    built the way a column-oriented data-frame constructor builds them from
    one list per heading. */
module Frame {

  /** Why a table could not be built. */
  datatype Error = ColumnLengthMismatch

  datatype Result<T> = Success(value: T) | Failure(error: Error)

  /** One column per heading: Month, Users, Revenue, Total Cost, Net Profit,
      Cash Flow. Row i of the table is the i-th element of every column. */
  datatype Table = Table(
    month: seq<int>,
    users: seq<real>,
    revenue: seq<real>,
    totalCost: seq<real>,
    netProfit: seq<real>,
    cashFlow: seq<real>)
  {
    /** Every column holds the same number of rows as the Month column. */
    predicate Rectangular() {
      |users| == |month| && |revenue| == |month| && |totalCost| == |month|
      && |netProfit| == |month| && |cashFlow| == |month|
    }
  }

  /** Builds a table from its six columns; the constructor refuses columns
      of different lengths, and otherwise keeps every column as given. */
  function MakeTable(
    month: seq<int>, users: seq<real>, revenue: seq<real>,
    totalCost: seq<real>, netProfit: seq<real>, cashFlow: seq<real>): (r: Result<Table>)
    ensures r.Success? <==>
      |users| == |revenue| == |totalCost| == |netProfit| == |cashFlow| == |month|
    ensures r.Failure? ==> r.error == ColumnLengthMismatch
    ensures r.Success? ==>
      r.value.month == month && r.value.users == users && r.value.revenue == revenue
      && r.value.totalCost == totalCost && r.value.netProfit == netProfit
      && r.value.cashFlow == cashFlow
  {
    var t := Table(month, users, revenue, totalCost, netProfit, cashFlow);
    if t.Rectangular() then Success(t) else Failure(ColumnLengthMismatch)
  }
}
