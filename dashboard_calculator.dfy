/**
 * Dashboard metrics over snapshots of the customers and the sales: revenue and counts
 * for today and for this month, the monthly average, pending rewards and the ranking.
 * "Now" is a parameter, read once per call.
 */
module DashboardCalculator {
  import opened Wrappers
  import opened Records
  import opened StableSort
  import opened LoyaltyCalculator

  /** The threshold the pending-rewards count compares with, a literal of its own. */
  const PendingThreshold: int := 50
  /** How many customers the ranking returns when no limit is given. */
  const DefaultLimit: int := 5

  /** `isCurrentMonth`: same year and month as now (the day does not matter). */
  function IsCurrentMonth(t: Timestamp, now: Timestamp): (r: bool)
    ensures r <==> (t.year, t.month) == (now.year, now.month)
  {
    t.year == now.year && t.month == now.month
  }

  /** Only the year and month count: moving a date within its month, or moving now, changes nothing. */
  lemma MonthIgnoresDay(t: Timestamp, now: Timestamp, d: int, e: int)
    ensures IsCurrentMonth(t.(day := d), now.(day := e)) == IsCurrentMonth(t, now)
  {
  }

  /** `isToday`: same year, month and day as now; so every sale of today is one of this month. */
  function IsToday(t: Timestamp, now: Timestamp): (r: bool)
    ensures r ==> IsCurrentMonth(t, now)
    ensures r <==> IsCurrentMonth(t, now) && t.day == now.day
  {
    t.year == now.year && t.month == now.month && t.day == now.day
  }

  /** The sales made today, anonymous ones included, in their order. */
  function TodaySales(sales: seq<Sale>, now: Timestamp): (r: seq<Sale>)
    ensures |r| <= |sales|
    ensures forall x :: x in r <==> x in sales && IsToday(x.createdAt, now)
  {
    if sales == [] then []
    else
      var last := sales[|sales| - 1];
      TodaySales(sales[..|sales| - 1], now) + (if IsToday(last.createdAt, now) then [last] else [])
  }

  /** The sales made this month, anonymous ones included, in their order. */
  function MonthSales(sales: seq<Sale>, now: Timestamp): (r: seq<Sale>)
    ensures |r| <= |sales|
    ensures forall x :: x in r <==> x in sales && IsCurrentMonth(x.createdAt, now)
  {
    if sales == [] then []
    else
      var last := sales[|sales| - 1];
      MonthSales(sales[..|sales| - 1], now) + (if IsCurrentMonth(last.createdAt, now) then [last] else [])
  }

  function SumAmounts(sales: seq<Sale>): real {
    if sales == [] then 0.0
    else SumAmounts(sales[..|sales| - 1]) + sales[|sales| - 1].amount
  }

  /** `getTodayRevenue`; 0 for a null or undefined list. */
  function GetTodayRevenue(sales: Option<seq<Sale>>, now: Timestamp): (r: real)
    ensures sales == None ==> r == 0.0
    ensures sales == Some([]) ==> r == 0.0
  {
    match sales
    case None => 0.0
    case Some(s) => SumAmounts(TodaySales(s, now))
  }

  /** `getTodayTransactions`; 0 for a null or undefined list. */
  function GetTodayTransactions(sales: Option<seq<Sale>>, now: Timestamp): (r: nat)
    ensures sales == None ==> r == 0
    ensures sales.Some? ==> r <= |sales.value|
    ensures sales == Some([]) ==> r == 0
  {
    match sales
    case None => 0
    case Some(s) => |TodaySales(s, now)|
  }

  /** `getMonthlyRevenue`; 0 for a null or undefined list. */
  function GetMonthlyRevenue(sales: Option<seq<Sale>>, now: Timestamp): (r: real)
    ensures sales == None ==> r == 0.0
    ensures sales == Some([]) ==> r == 0.0
  {
    match sales
    case None => 0.0
    case Some(s) => SumAmounts(MonthSales(s, now))
  }

  /** `getMonthlyTransactions`; 0 for a null or undefined list. */
  function GetMonthlyTransactions(sales: Option<seq<Sale>>, now: Timestamp): (r: nat)
    ensures sales == None ==> r == 0
    ensures sales.Some? ==> r <= |sales.value|
    ensures sales == Some([]) ==> r == 0
  {
    match sales
    case None => 0
    case Some(s) => |MonthSales(s, now)|
  }

  /**
   * One more sale adds its amount and one transaction to each window it falls in,
   * whoever its customer is (anonymous sales count), and nothing to the others.
   */
  lemma WindowsSnoc(sales: seq<Sale>, x: Sale, now: Timestamp)
    ensures GetTodayRevenue(Some(sales + [x]), now) ==
      GetTodayRevenue(Some(sales), now) + (if IsToday(x.createdAt, now) then x.amount else 0.0)
    ensures GetTodayTransactions(Some(sales + [x]), now) ==
      GetTodayTransactions(Some(sales), now) + (if IsToday(x.createdAt, now) then 1 else 0)
    ensures GetMonthlyRevenue(Some(sales + [x]), now) ==
      GetMonthlyRevenue(Some(sales), now) + (if IsCurrentMonth(x.createdAt, now) then x.amount else 0.0)
    ensures GetMonthlyTransactions(Some(sales + [x]), now) ==
      GetMonthlyTransactions(Some(sales), now) + (if IsCurrentMonth(x.createdAt, now) then 1 else 0)
  {
    assert (sales + [x])[..|sales|] == sales;
    var today, month := TodaySales(sales, now), MonthSales(sales, now);
    assert (today + [x])[..|today|] == today;
    assert (month + [x])[..|month|] == month;
    assert today + [] == today;
    assert month + [] == month;
  }

  /**
   * Today's transactions never outnumber this month's, and with no negative amount
   * today's revenue never exceeds this month's (and neither is negative).
   */
  lemma {:induction false} TodayWithinMonth(sales: seq<Sale>, now: Timestamp)
    ensures GetTodayTransactions(Some(sales), now) <= GetMonthlyTransactions(Some(sales), now)
    ensures (forall i :: 0 <= i < |sales| ==> sales[i].amount >= 0.0) ==>
      0.0 <= GetTodayRevenue(Some(sales), now) <= GetMonthlyRevenue(Some(sales), now)
  {
    if sales != [] {
      var init, last := sales[..|sales| - 1], sales[|sales| - 1];
      assert sales == init + [last];
      TodayWithinMonth(init, now);
      WindowsSnoc(init, last, now);
    }
  }

  /** `Math.round(x * 100) / 100`: half-up rounding to a whole number of cents. */
  function RoundCents(x: real): (r: real)
    ensures (r * 100.0).Floor as real == r * 100.0
    ensures x - 0.005 < r <= x + 0.005
    ensures x >= 0.0 ==> r >= 0.0
  {
    (x * 100.0 + 0.5).Floor as real / 100.0
  }

  /**
   * `getAverageSale`: 0 when nothing was sold this month (no division by zero), otherwise
   * the monthly mean rounded half-up to cents.
   */
  function GetAverageSale(sales: Option<seq<Sale>>, now: Timestamp): (r: real)
    ensures GetMonthlyTransactions(sales, now) == 0 ==> r == 0.0
    ensures GetMonthlyTransactions(sales, now) > 0 ==>
      var mean := GetMonthlyRevenue(sales, now) / GetMonthlyTransactions(sales, now) as real;
      && mean - 0.005 < r <= mean + 0.005
      && (r * 100.0).Floor as real == r * 100.0
  {
    var monthlyRevenue := GetMonthlyRevenue(sales, now);
    var monthlyTransactions := GetMonthlyTransactions(sales, now);
    if monthlyTransactions == 0 then 0.0
    else RoundCents(monthlyRevenue / monthlyTransactions as real)
  }

  /** With no negative amount, the average sale is not negative. */
  lemma AverageNonNegative(sales: seq<Sale>, now: Timestamp)
    requires forall i :: 0 <= i < |sales| ==> sales[i].amount >= 0.0
    ensures GetAverageSale(Some(sales), now) >= 0.0
  {
    TodayWithinMonth(sales, now);
  }

  /** Rounding examples: a whole amount stays, 10/3 becomes 3.33 and 2/3 becomes 0.67. */
  lemma RoundCentsExamples()
    ensures RoundCents(5000.0) == 5000.0
    ensures RoundCents(10.0 / 3.0) == 3.33
    ensures RoundCents(2.0 / 3.0) == 0.67
  {
  }

  /** `pointsByCustomer.get(id) || 0` */
  function Lookup(points: map<string, int>, id: string): int {
    if id in points then points[id] else 0
  }

  /** Looking any id up in `points` gives its loyalty total over `seen`. */
  ghost predicate Accumulated(points: map<string, int>, seen: seq<Sale>) {
    forall id :: Lookup(points, id) == GetCustomerTotalPoints(id, Some(seen))
  }

  /** One pass of the first loop keeps every looked-up value equal to the loyalty total so far. */
  lemma AccumulateStep(before: map<string, int>, after: map<string, int>, sales: seq<Sale>, i: nat)
    requires i < |sales|
    requires Accumulated(before, sales[..i])
    requires after == if sales[i].customerId == None then before
                      else before[sales[i].customerId.value := Lookup(before, sales[i].customerId.value) + sales[i].pointsEarned]
    ensures Accumulated(after, sales[..i + 1])
  {
    PrefixSnoc(sales, i);
    forall id ensures Lookup(after, id) == GetCustomerTotalPoints(id, Some(sales[..i + 1])) {
      TotalPointsSnoc(id, sales[..i], sales[i]);
      assert Lookup(before, id) == GetCustomerTotalPoints(id, Some(sales[..i]));
    }
  }

  /**
   * The map both dashboard loops build: every non-null customer id of a sale, mapped to the
   * sum of its points. Looking any id up gives the loyalty total of that id.
   */
  method PointsByCustomer(sales: seq<Sale>) returns (points: map<string, int>)
    ensures forall id :: Lookup(points, id) == GetCustomerTotalPoints(id, Some(sales))
  {
    points := map[];
    assert sales[..0] == [];
    for i := 0 to |sales|
      invariant Accumulated(points, sales[..i])
    {
      var sale := sales[i];
      ghost var before := points;
      if sale.customerId != None {
        var currentPoints := Lookup(points, sale.customerId.value);
        points := points[sale.customerId.value := currentPoints + sale.pointsEarned];
      }
      AccumulateStep(before, points, sales, i);
    }
    assert sales[..|sales|] == sales;
  }

  /** The customers, in list order, whose point total reaches the threshold. */
  function PendingCustomers(customers: seq<Customer>, sales: seq<Sale>): (r: seq<Customer>)
    ensures |r| <= |customers|
  {
    if customers == [] then []
    else
      var last := customers[|customers| - 1];
      PendingCustomers(customers[..|customers| - 1], sales) +
        (if GetCustomerTotalPoints(last.id, Some(sales)) >= PendingThreshold then [last] else [])
  }

  /** Extending a prefix by one element. */
  lemma PrefixSnoc<T>(s: seq<T>, i: nat)
    requires i < |s|
    ensures s[..i + 1] == s[..i] + [s[i]]
  {
  }

  /** The counting loop's step: one more listed customer counts exactly when its total reaches the threshold. */
  lemma PendingCustomersSnoc(customers: seq<Customer>, c: Customer, sales: seq<Sale>)
    ensures PendingCustomers(customers + [c], sales) == PendingCustomers(customers, sales) +
      (if GetCustomerTotalPoints(c.id, Some(sales)) >= PendingThreshold then [c] else [])
  {
  }

  /**
   * Exactly the listed customers for whom a reward is available are counted: the
   * dashboard's literal 50 and the loyalty calculator's threshold agree.
   */
  lemma {:induction false} PendingCustomersMembers(customers: seq<Customer>, sales: seq<Sale>)
    ensures forall c :: c in PendingCustomers(customers, sales) ==>
      c in customers && IsRewardAvailable(GetCustomerTotalPoints(c.id, Some(sales)))
    ensures forall c :: c in customers && IsRewardAvailable(GetCustomerTotalPoints(c.id, Some(sales))) ==>
      c in PendingCustomers(customers, sales)
  {
    if customers != [] {
      var init, last := customers[..|customers| - 1], customers[|customers| - 1];
      assert customers == init + [last];
      PendingCustomersMembers(init, sales);
    }
  }

  /**
   * `getRewardsPendingCount`: how many listed customers have reached the reward
   * threshold; 0 when either list is null.
   */
  method GetRewardsPendingCount(customers: Option<seq<Customer>>, sales: Option<seq<Sale>>) returns (count: nat)
    ensures customers == None || sales == None ==> count == 0
    ensures customers.Some? && sales.Some? ==> count == |PendingCustomers(customers.value, sales.value)|
    ensures customers.Some? ==> count <= |customers.value|
  {
    if customers == None || sales == None {
      return 0;
    }
    var cs, ss := customers.value, sales.value;
    var points := PointsByCustomer(ss);
    count := 0;
    assert cs[..0] == [];
    for i := 0 to |cs|
      invariant count == |PendingCustomers(cs[..i], ss)|
    {
      PendingCustomersSnoc(cs[..i], cs[i], ss);
      PrefixSnoc(cs, i);
      var totalPoints := Lookup(points, cs[i].id);
      if totalPoints >= PendingThreshold {
        count := count + 1;
      }
    }
    assert cs[..|cs|] == cs;
  }

  /** One row of the ranking. */
  datatype Entry = Entry(customer: Customer, totalPoints: int)

  function EntryPoints(e: Entry): int {
    e.totalPoints
  }

  /** The rows the second loop pushes: listed customers with a positive total, in list order. */
  function Ranked(customers: seq<Customer>, sales: seq<Sale>): (r: seq<Entry>)
    ensures |r| <= |customers|
    ensures forall i :: 0 <= i < |r| ==>
      && r[i].totalPoints > 0
      && r[i].customer in customers
      && r[i].totalPoints == GetCustomerTotalPoints(r[i].customer.id, Some(sales))
    ensures forall c :: c in customers && GetCustomerTotalPoints(c.id, Some(sales)) > 0 ==>
      Entry(c, GetCustomerTotalPoints(c.id, Some(sales))) in r
  {
    if customers == [] then []
    else
      var init, last := customers[..|customers| - 1], customers[|customers| - 1];
      assert customers == init + [last];
      var totalPoints := GetCustomerTotalPoints(last.id, Some(sales));
      Ranked(init, sales) + (if totalPoints > 0 then [Entry(last, totalPoints)] else [])
  }

  /** The second loop's step: one more listed customer adds a row exactly when its total is positive. */
  lemma RankedSnoc(customers: seq<Customer>, c: Customer, sales: seq<Sale>)
    ensures Ranked(customers + [c], sales) == Ranked(customers, sales) +
      (if GetCustomerTotalPoints(c.id, Some(sales)) > 0 then [Entry(c, GetCustomerTotalPoints(c.id, Some(sales)))] else [])
  {
  }

  /** `slice(0, end)`: a prefix; a negative end counts back from the length. */
  function Slice<T>(s: seq<T>, end: int): (r: seq<T>)
    ensures r <= s
    ensures 0 <= end ==> |r| == if end < |s| then end else |s|
    ensures end < 0 ==> |r| == if |s| + end > 0 then |s| + end else 0
  {
    if end < 0 then (if |s| + end > 0 then s[..|s| + end] else [])
    else if end < |s| then s[..end]
    else s
  }

  /** The ranking `getTopCustomers` returns for two lists that are not null. */
  function TopCustomers(customers: seq<Customer>, sales: seq<Sale>, limit: int): seq<Entry> {
    Slice(SortDesc(Ranked(customers, sales), EntryPoints), limit)
  }

  /**
   * `getTopCustomers`: fill the map, push one row per listed customer with points,
   * sort the rows by points descending, keep the first `limit`; [] when either list is null.
   */
  method GetTopCustomers(customers: Option<seq<Customer>>, sales: Option<seq<Sale>>, limit: int := DefaultLimit)
    returns (top: seq<Entry>)
    ensures customers == None || sales == None ==> top == []
    ensures customers.Some? && sales.Some? ==> top == TopCustomers(customers.value, sales.value, limit)
  {
    if customers == None || sales == None {
      return [];
    }
    var cs, ss := customers.value, sales.value;
    var points := PointsByCustomer(ss);
    var customerResults: seq<Entry> := [];
    assert cs[..0] == [];
    for i := 0 to |cs|
      invariant customerResults == Ranked(cs[..i], ss)
    {
      RankedSnoc(cs[..i], cs[i], ss);
      PrefixSnoc(cs, i);
      var totalPoints := Lookup(points, cs[i].id);
      assert totalPoints == GetCustomerTotalPoints(cs[i].id, Some(ss));
      if totalPoints > 0 {
        customerResults := customerResults + [Entry(cs[i], totalPoints)];
      }
    }
    assert cs[..|cs|] == cs;
    customerResults := SortDesc(customerResults, EntryPoints);
    top := Slice(customerResults, limit);
  }

  /** No more rows than `limit` (when it is not negative) and than listed customers. */
  lemma TopCustomersBounded(customers: seq<Customer>, sales: seq<Sale>, limit: int)
    ensures |TopCustomers(customers, sales, limit)| <= |customers|
    ensures limit >= 0 ==> |TopCustomers(customers, sales, limit)| <= limit
  {
  }

  /**
   * Every row is a listed customer with a positive total equal to its loyalty total;
   * ids that occur only in sales never appear.
   */
  lemma TopCustomersEntries(customers: seq<Customer>, sales: seq<Sale>, limit: int)
    ensures forall i :: 0 <= i < |TopCustomers(customers, sales, limit)| ==>
      var e := TopCustomers(customers, sales, limit)[i];
      && e.totalPoints > 0
      && e.customer in customers
      && e.totalPoints == GetCustomerTotalPoints(e.customer.id, Some(sales))
  {
    var sorted := SortDesc(Ranked(customers, sales), EntryPoints);
    var top := TopCustomers(customers, sales, limit);
    forall i | 0 <= i < |top|
      ensures top[i].totalPoints > 0 && top[i].customer in customers
      ensures top[i].totalPoints == GetCustomerTotalPoints(top[i].customer.id, Some(sales))
    {
      assert top[i] == sorted[i];
      assert sorted[i] in multiset(Ranked(customers, sales));
    }
  }

  /** The ranking is a prefix of the sorted rows. */
  lemma TopCustomersIsPrefix(customers: seq<Customer>, sales: seq<Sale>, limit: int)
    ensures var sorted := SortDesc(Ranked(customers, sales), EntryPoints);
      TopCustomers(customers, sales, limit) == sorted[..|TopCustomers(customers, sales, limit)|]
  {
  }

  /** Rows come in non-increasing order of points. */
  lemma TopCustomersOrdered(customers: seq<Customer>, sales: seq<Sale>, limit: int)
    ensures NonIncreasing(TopCustomers(customers, sales, limit), EntryPoints)
  {
    SortDescNonIncreasing(Ranked(customers, sales), EntryPoints);
    TopCustomersIsPrefix(customers, sales, limit);
  }

  /** The sorted rows past the `limit` cut, which the ranking leaves out. */
  function Dropped(customers: seq<Customer>, sales: seq<Sale>, limit: int): seq<Entry> {
    var sorted := SortDesc(Ranked(customers, sales), EntryPoints);
    sorted[|TopCustomers(customers, sales, limit)|..]
  }

  /**
   * The ranking keeps the best rows: with the rows it drops it makes up all the rows of
   * customers with points, and no dropped row has more points than a kept one.
   */
  lemma TopCustomersAreTop(customers: seq<Customer>, sales: seq<Sale>, limit: int)
    ensures multiset(TopCustomers(customers, sales, limit)) + multiset(Dropped(customers, sales, limit)) ==
            multiset(Ranked(customers, sales))
    ensures forall i, j :: 0 <= i < |TopCustomers(customers, sales, limit)| && 0 <= j < |Dropped(customers, sales, limit)| ==>
              Dropped(customers, sales, limit)[j].totalPoints <= TopCustomers(customers, sales, limit)[i].totalPoints
  {
    var ranked := Ranked(customers, sales);
    var sorted := SortDesc(ranked, EntryPoints);
    var top := TopCustomers(customers, sales, limit);
    TopCustomersIsPrefix(customers, sales, limit);
    SortDescNonIncreasing(ranked, EntryPoints);
    PrefixDominates(sorted, |top|, EntryPoints);
    SplitMultiset(sorted, |top|);
  }

  /**
   * Rows with equal points keep the order of the customer list: for each total, the rows
   * with it are a prefix of the listed customers with it.
   */
  lemma TopCustomersStable(customers: seq<Customer>, sales: seq<Sale>, limit: int, k: int)
    ensures WithKey(TopCustomers(customers, sales, limit), EntryPoints, k) <=
            WithKey(Ranked(customers, sales), EntryPoints, k)
  {
    var ranked := Ranked(customers, sales);
    var sorted := SortDesc(ranked, EntryPoints);
    var top := TopCustomers(customers, sales, limit);
    TopCustomersIsPrefix(customers, sales, limit);
    WithKeyOfPrefix(sorted, |top|, EntryPoints, k);
    SortDescStable(ranked, EntryPoints, k);
  }
}
