/** The month-by-month cohort and cash-flow projection: a user count that
    follows a first-order growth/churn recurrence, the revenue, cost and
    profit each month's users bring, and the running total of that profit. */
module Financials {
  import opened Frame

  /** The parameters of one projection, as the caller passes them. */
  datatype Inputs = Inputs(
    initialUsers: real,
    fee: real,
    churn: real,
    growthRate: real,
    fixedCost: real,
    varCost: real,
    months: int)

  /** The bounds the input form puts on each parameter. The projection itself
      accepts any values. */
  predicate FormBounds(p: Inputs) {
    p.initialUsers >= 1.0 && p.fee >= 0.0
    && 0.0 <= p.churn <= 1.0 && 0.0 <= p.growthRate <= 1.0
    && p.fixedCost >= 0.0 && p.varCost >= 0.0 && p.months >= 1
  }

  // ---------------------------------------------------------------------------
  // One month

  /** Last month's users, plus the users growth adds, minus the users churn removes. */
  function NextUsers(u: real, growthRate: real, churn: real): real {
    u + u * growthRate - u * churn
  }

  function Revenue(u: real, fee: real): real {
    u * fee
  }

  function TotalCost(u: real, fixedCost: real, varCost: real): real {
    fixedCost + u * varCost
  }

  function NetProfit(u: real, p: Inputs): real {
    Revenue(u, p.fee) - TotalCost(u, p.fixedCost, p.varCost)
  }

  // ---------------------------------------------------------------------------
  // Columns

  /** The user counts of months 1 .. n. */
  function Users(u0: real, growthRate: real, churn: real, n: nat): (r: seq<real>)
    requires n >= 1
    ensures |r| == n && r[0] == u0
  {
    if n == 1 then [u0]
    else
      var prev := Users(u0, growthRate, churn, n - 1);
      prev + [NextUsers(prev[n - 2], growthRate, churn)]
  }

  function Revenues(us: seq<real>, fee: real): seq<real> {
    seq(|us|, i requires 0 <= i < |us| => Revenue(us[i], fee))
  }

  function TotalCosts(us: seq<real>, fixedCost: real, varCost: real): seq<real> {
    seq(|us|, i requires 0 <= i < |us| => TotalCost(us[i], fixedCost, varCost))
  }

  function NetProfits(us: seq<real>, p: Inputs): seq<real> {
    seq(|us|, i requires 0 <= i < |us| => NetProfit(us[i], p))
  }

  /** Each per-month column of a table with one more month is the old
      column followed by that month's figure. */
  lemma ColumnsAppend(us: seq<real>, u: real, p: Inputs)
    ensures Revenues(us + [u], p.fee) == Revenues(us, p.fee) + [Revenue(u, p.fee)]
    ensures TotalCosts(us + [u], p.fixedCost, p.varCost)
            == TotalCosts(us, p.fixedCost, p.varCost) + [TotalCost(u, p.fixedCost, p.varCost)]
    ensures NetProfits(us + [u], p) == NetProfits(us, p) + [NetProfit(u, p)]
  {
  }

  /** Sum of a sequence, added up from the front as an accumulator does. */
  function Sum(s: seq<real>): real {
    if s == [] then 0.0 else Sum(s[..|s| - 1]) + s[|s| - 1]
  }

  /** The cumulative column: each element is the previous one plus the next
      value, starting from zero. */
  function RunningSums(s: seq<real>): (r: seq<real>)
    ensures |r| == |s|
  {
    if s == [] then []
    else
      var prev := RunningSums(s[..|s| - 1]);
      prev + [(if prev == [] then 0.0 else prev[|prev| - 1]) + s[|s| - 1]]
  }

  /** The Month column: 1, 2, .., months, and nothing when months < 1. */
  function MonthRange(months: int): seq<int> {
    seq(if months > 0 then months else 0, i => i + 1)
  }

  /** What a projection returns. The users column always starts with the
      initial count; every other column gets one element per month processed,
      so with no month to process the columns disagree in length and the table
      cannot be built. */
  function Projection(p: Inputs): Result<Table> {
    var users := if p.months >= 1 then Users(p.initialUsers, p.growthRate, p.churn, p.months)
                 else [p.initialUsers];
    var booked := if p.months >= 1 then users else [];
    MakeTable(MonthRange(p.months), users,
              Revenues(booked, p.fee), TotalCosts(booked, p.fixedCost, p.varCost),
              NetProfits(booked, p), RunningSums(NetProfits(booked, p)))
  }

  // ---------------------------------------------------------------------------
  // The projection loop

  /** Runs the projection month by month, appending to each column. */
  method SimulateFinancials(p: Inputs) returns (r: Result<Table>)
    ensures r == Projection(p)
  {
    var users := [p.initialUsers];
    var revenue, totalCost, netProfit, cashFlow := [], [], [], [];
    var cumulative := 0.0;
    var m := 1;
    while m <= p.months
      invariant 1 <= m && (p.months >= 1 ==> m <= p.months + 1)
      invariant users == Users(p.initialUsers, p.growthRate, p.churn, if m == 1 then 1 else m - 1)
      invariant revenue == Revenues(users[..m - 1], p.fee)
      invariant totalCost == TotalCosts(users[..m - 1], p.fixedCost, p.varCost)
      invariant netProfit == NetProfits(users[..m - 1], p)
      invariant cashFlow == RunningSums(netProfit)
      invariant cumulative == if cashFlow == [] then 0.0 else cashFlow[|cashFlow| - 1]
    {
      var currentUsers: real;
      if m > 1 {
        var newUsers := users[|users| - 1] * p.growthRate;
        var churnUsers := users[|users| - 1] * p.churn;
        currentUsers := users[|users| - 1] + newUsers - churnUsers;
        assert currentUsers == NextUsers(users[m - 2], p.growthRate, p.churn);
        users := users + [currentUsers];
        assert users == Users(p.initialUsers, p.growthRate, p.churn, m);
      } else {
        currentUsers := users[|users| - 1];
      }
      var monthlyRevenue := currentUsers * p.fee;
      var monthlyCost := p.fixedCost + currentUsers * p.varCost;
      var profit := monthlyRevenue - monthlyCost;
      cumulative := cumulative + profit;
      revenue := revenue + [monthlyRevenue];
      totalCost := totalCost + [monthlyCost];
      netProfit := netProfit + [profit];
      cashFlow := cashFlow + [cumulative];
      assert users[..m] == users[..m - 1] + [currentUsers];
      assert monthlyRevenue == Revenue(currentUsers, p.fee);
      assert monthlyCost == TotalCost(currentUsers, p.fixedCost, p.varCost);
      ColumnsAppend(users[..m - 1], currentUsers, p);
      m := m + 1;
    }
    assert p.months >= 1 ==> users[..m - 1] == users;
    r := MakeTable(MonthRange(p.months), users, revenue, totalCost, netProfit, cashFlow);
  }

  // ---------------------------------------------------------------------------
  // The user recurrence

  /** Projecting fewer months gives a prefix of the longer projection. */
  lemma {:induction false} UsersPrefix(u0: real, growthRate: real, churn: real, n: nat, k: nat)
    requires 1 <= k <= n
    ensures Users(u0, growthRate, churn, n)[..k] == Users(u0, growthRate, churn, k)
  {
    if k < n {
      UsersPrefix(u0, growthRate, churn, n - 1, k);
      assert Users(u0, growthRate, churn, n)[..n - 1] == Users(u0, growthRate, churn, n - 1);
    }
  }

  /** Every month after the first follows from the month before it. */
  lemma UsersStep(u0: real, growthRate: real, churn: real, n: nat, i: nat)
    requires 1 <= i < n
    ensures Users(u0, growthRate, churn, n)[i]
            == NextUsers(Users(u0, growthRate, churn, n)[i - 1], growthRate, churn)
  {
    UsersPrefix(u0, growthRate, churn, n, i + 1);
    UsersPrefix(u0, growthRate, churn, n, i);
    assert Users(u0, growthRate, churn, n)[i] == Users(u0, growthRate, churn, i + 1)[i];
    assert Users(u0, growthRate, churn, n)[i - 1] == Users(u0, growthRate, churn, i)[i - 1];
  }

  function Pow(b: real, k: nat): real {
    if k == 0 then 1.0 else b * Pow(b, k - 1)
  }

  /** The user count of month i + 1 is the initial count scaled i times by
      the net monthly factor 1 + growth - churn. */
  lemma {:induction false} UsersClosedForm(u0: real, growthRate: real, churn: real, n: nat, i: nat)
    requires i < n
    ensures Users(u0, growthRate, churn, n)[i] == u0 * Pow(1.0 + growthRate - churn, i)
  {
    if i > 0 {
      var b := 1.0 + growthRate - churn;
      var prev := Users(u0, growthRate, churn, n)[i - 1];
      UsersClosedForm(u0, growthRate, churn, n, i - 1);
      UsersStep(u0, growthRate, churn, n, i);
      assert NextUsers(prev, growthRate, churn) == prev * b;
      assert prev * b == u0 * (b * Pow(b, i - 1));
    }
  }

  /** When growth and churn cancel, the user count never moves. */
  lemma {:induction false} UsersConstant(u0: real, rate: real, n: nat, i: nat)
    requires i < n
    ensures Users(u0, rate, rate, n)[i] == u0
  {
    if i > 0 {
      UsersConstant(u0, rate, n, i - 1);
      UsersStep(u0, rate, rate, n, i);
    }
  }

  lemma {:induction false} PowNonNegative(b: real, k: nat)
    requires b >= 0.0
    ensures Pow(b, k) >= 0.0
  {
    if k > 0 {
      PowNonNegative(b, k - 1);
    }
  }

  // ---------------------------------------------------------------------------
  // The running total

  /** Element i of the cumulative column is the sum of the first i + 1 values. */
  lemma {:induction false} RunningSumsAreSums(s: seq<real>, i: nat)
    requires i < |s|
    ensures RunningSums(s)[i] == Sum(s[..i + 1])
  {
    var init := s[..|s| - 1];
    if i < |s| - 1 {
      RunningSumsAreSums(init, i);
      assert init[..i + 1] == s[..i + 1];
    } else {
      assert s[..i + 1] == s;
      if i > 0 {
        RunningSumsAreSums(init, i - 1);
        assert init[..i] == init;
      } else {
        assert init == [];
      }
    }
  }

  /** The cumulative column starts with the first value and adds one value per step. */
  lemma RunningSumsStep(s: seq<real>, i: nat)
    requires i < |s|
    ensures i == 0 ==> RunningSums(s)[0] == s[0]
    ensures i > 0 ==> RunningSums(s)[i] == RunningSums(s)[i - 1] + s[i]
  {
    RunningSumsAreSums(s, i);
    assert s[..i + 1][..i] == s[..i];
    if i > 0 {
      RunningSumsAreSums(s, i - 1);
    }
  }

  /** The last cumulative value is the sum of all values. */
  lemma RunningSumsLast(s: seq<real>)
    requires s != []
    ensures RunningSums(s)[|s| - 1] == Sum(s)
  {
    RunningSumsAreSums(s, |s| - 1);
    assert s[..|s|] == s;
  }

  // ---------------------------------------------------------------------------
  // Properties of the projection

  /** The projection fails exactly when there is no month to project. */
  lemma ProjectionFailsIff(p: Inputs)
    ensures Projection(p).Failure? <==> p.months < 1
    ensures Projection(p).Failure? ==> Projection(p).error == ColumnLengthMismatch
  {
  }

  /** One row per month, numbered 1 .. months without gaps. */
  lemma ProjectionShape(p: Inputs)
    requires p.months >= 1
    ensures Projection(p).Success?
    ensures var t := Projection(p).value;
      t.Rectangular() && |t.month| == p.months
      && forall i :: 0 <= i < p.months ==> t.month[i] == i + 1
  {
  }

  /** Month 1 has exactly the initial users; each later month follows the
      growth/churn recurrence from the month before. */
  lemma ProjectionUsers(p: Inputs)
    requires p.months >= 1
    ensures Projection(p).Success?
    ensures var t := Projection(p).value;
      t.users[0] == p.initialUsers
      && forall i :: 1 <= i < p.months ==>
           t.users[i] == t.users[i - 1] + t.users[i - 1] * p.growthRate - t.users[i - 1] * p.churn
  {
    forall i | 1 <= i < p.months
      ensures Users(p.initialUsers, p.growthRate, p.churn, p.months)[i]
              == NextUsers(Users(p.initialUsers, p.growthRate, p.churn, p.months)[i - 1], p.growthRate, p.churn)
    {
      UsersStep(p.initialUsers, p.growthRate, p.churn, p.months, i);
    }
  }

  /** Every row's revenue, cost and profit come from that row's users. */
  lemma ProjectionRows(p: Inputs)
    requires p.months >= 1
    ensures Projection(p).Success?
    ensures var t := Projection(p).value;
      forall i :: 0 <= i < p.months ==>
        t.revenue[i] == t.users[i] * p.fee
        && t.totalCost[i] == p.fixedCost + t.users[i] * p.varCost
        && t.netProfit[i] == t.revenue[i] - t.totalCost[i]
  {
  }

  /** Cash flow is the running total of net profit: it starts at month 1's
      profit, adds each month's profit, and ends at the sum of them all. */
  lemma ProjectionCashFlow(p: Inputs)
    requires p.months >= 1
    ensures Projection(p).Success?
    ensures var t := Projection(p).value;
      t.cashFlow[0] == t.netProfit[0]
      && (forall i :: 1 <= i < p.months ==> t.cashFlow[i] == t.cashFlow[i - 1] + t.netProfit[i])
      && t.cashFlow[p.months - 1] == Sum(t.netProfit)
  {
    var t := Projection(p).value;
    RunningSumsStep(t.netProfit, 0);
    forall i | 1 <= i < p.months
      ensures t.cashFlow[i] == t.cashFlow[i - 1] + t.netProfit[i]
    {
      RunningSumsStep(t.netProfit, i);
    }
    RunningSumsLast(t.netProfit);
  }

  /** When growth equals churn, every month has the initial users. */
  lemma ProjectionConstantUsers(p: Inputs)
    requires p.months >= 1 && p.growthRate == p.churn
    ensures Projection(p).Success?
    ensures forall i :: 0 <= i < p.months ==> Projection(p).value.users[i] == p.initialUsers
  {
    forall i | 0 <= i < p.months
      ensures Users(p.initialUsers, p.churn, p.churn, p.months)[i] == p.initialUsers
    {
      UsersConstant(p.initialUsers, p.churn, p.months, i);
    }
  }

  /** The users of month i + 1 are the initial users times (1 + growth - churn)^i. */
  lemma ProjectionUsersClosedForm(p: Inputs)
    requires p.months >= 1
    ensures Projection(p).Success?
    ensures forall i :: 0 <= i < p.months ==>
      Projection(p).value.users[i] == p.initialUsers * Pow(1.0 + p.growthRate - p.churn, i)
  {
    forall i | 0 <= i < p.months
      ensures Users(p.initialUsers, p.growthRate, p.churn, p.months)[i]
              == p.initialUsers * Pow(1.0 + p.growthRate - p.churn, i)
    {
      UsersClosedForm(p.initialUsers, p.growthRate, p.churn, p.months, i);
    }
  }

  /** Within the form's bounds no month ever has a negative user count. */
  lemma ProjectionUsersNonNegative(p: Inputs)
    requires FormBounds(p)
    ensures Projection(p).Success?
    ensures forall i :: 0 <= i < p.months ==> Projection(p).value.users[i] >= 0.0
  {
    var b := 1.0 + p.growthRate - p.churn;
    forall i | 0 <= i < p.months
      ensures Users(p.initialUsers, p.growthRate, p.churn, p.months)[i] >= 0.0
    {
      UsersClosedForm(p.initialUsers, p.growthRate, p.churn, p.months, i);
      PowNonNegative(b, i);
    }
  }

  /** A one-month projection is a single row of the initial conditions. */
  lemma ProjectionSingleMonth(p: Inputs)
    requires p.months == 1
    ensures var u := p.initialUsers;
      Projection(p) == Success(Table([1], [u], [Revenue(u, p.fee)], [TotalCost(u, p.fixedCost, p.varCost)],
                                     [NetProfit(u, p)], [NetProfit(u, p)]))
  {
    var u := p.initialUsers;
    var us := Users(u, p.growthRate, p.churn, 1);
    assert us == [u];
    assert MonthRange(1) == [1];
    assert Revenues(us, p.fee) == [Revenue(u, p.fee)];
    assert TotalCosts(us, p.fixedCost, p.varCost) == [TotalCost(u, p.fixedCost, p.varCost)];
    assert NetProfits(us, p) == [NetProfit(u, p)];
    assert RunningSums([NetProfit(u, p)]) == [NetProfit(u, p)];
  }

  /** A three-month projection worked out by hand: 100 users paying 10 each,
      10% churn, 20% growth, a fixed cost of 1000 and 2 per user. */
  lemma ProjectionExample()
    ensures Projection(Inputs(100.0, 10.0, 0.1, 0.2, 1000.0, 2.0, 3))
      == Success(Table([1, 2, 3],
                       [100.0, 110.0, 121.0],
                       [1000.0, 1100.0, 1210.0],
                       [1200.0, 1220.0, 1242.0],
                       [-200.0, -120.0, -32.0],
                       [-200.0, -320.0, -352.0]))
  {
    var p := Inputs(100.0, 10.0, 0.1, 0.2, 1000.0, 2.0, 3);
    ProjectionShape(p);
    ProjectionUsers(p);
    ProjectionRows(p);
    ProjectionCashFlow(p);
    var t := Projection(p).value;
    assert t.users[1] == 110.0;
    assert t.users[2] == 121.0;
    assert t.month == [1, 2, 3];
    assert t.users == [100.0, 110.0, 121.0];
    assert t.revenue == [1000.0, 1100.0, 1210.0];
    assert t.totalCost == [1200.0, 1220.0, 1242.0];
    assert t.netProfit == [-200.0, -120.0, -32.0];
    assert t.cashFlow == [-200.0, -320.0, -352.0];
  }
}
