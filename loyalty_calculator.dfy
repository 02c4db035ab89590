/** Loyalty derivations over a snapshot of the sales: point totals, reward test, a customer's history. */
module LoyaltyCalculator {
  import opened Wrappers
  import opened Records
  import opened StableSort
  import SaleStorage

  /** The reward threshold; a constant, not read from the settings. */
  const RewardThreshold: int := 50

  /** The sales whose `customerId` is `id` (the `filter`), in their order. */
  function SalesOf(id: string, sales: seq<Sale>): (r: seq<Sale>)
    ensures |r| <= |sales|
    ensures forall i :: 0 <= i < |r| ==> r[i].customerId == Some(id)
    ensures multiset(r) <= multiset(sales)
    ensures forall x :: x in sales && x.customerId == Some(id) ==> x in r
  {
    if sales == [] then []
    else
      var last := sales[|sales| - 1];
      assert sales == sales[..|sales| - 1] + [last];
      SalesOf(id, sales[..|sales| - 1]) + (if last.customerId == Some(id) then [last] else [])
  }

  /**
   * The filter keeps every sale of `id` as often as it occurs in the list, and no other
   * sale: the multiset of the result is that of the list restricted to `id`'s sales.
   */
  lemma {:induction false} SalesOfMultiplicity(id: string, sales: seq<Sale>)
    ensures forall x :: multiset(SalesOf(id, sales))[x] == if x.customerId == Some(id) then multiset(sales)[x] else 0
  {
    if sales != [] {
      var init, last := sales[..|sales| - 1], sales[|sales| - 1];
      assert sales == init + [last];
      SalesOfMultiplicity(id, init);
    }
  }

  /** The `reduce` summing `pointsEarned`. */
  function SumPoints(sales: seq<Sale>): int {
    if sales == [] then 0
    else SumPoints(sales[..|sales| - 1]) + sales[|sales| - 1].pointsEarned
  }

  /** `getCustomerTotalPoints`; a null or undefined sales list counts as empty. */
  function GetCustomerTotalPoints(id: string, sales: Option<seq<Sale>>): (r: int)
    ensures sales == None ==> r == 0
  {
    SumPoints(SalesOf(id, sales.GetOr([])))
  }

  /**
   * One more sale adds its points exactly when it belongs to `id`: an anonymous sale or
   * another customer's sale adds nothing.
   */
  lemma TotalPointsSnoc(id: string, sales: seq<Sale>, x: Sale)
    ensures GetCustomerTotalPoints(id, Some(sales + [x])) ==
      GetCustomerTotalPoints(id, Some(sales)) + (if x.customerId == Some(id) then x.pointsEarned else 0)
  {
    assert (sales + [x])[..|sales|] == sales;
    var before := SalesOf(id, sales);
    if x.customerId == Some(id) {
      assert (before + [x])[..|before|] == before;
    } else {
      assert before + [] == before;
    }
  }

  /** The total over two lists joined is the sum of the totals. */
  lemma {:induction false} TotalPointsAppend(id: string, a: seq<Sale>, b: seq<Sale>)
    ensures GetCustomerTotalPoints(id, Some(a + b)) ==
      GetCustomerTotalPoints(id, Some(a)) + GetCustomerTotalPoints(id, Some(b))
  {
    if b == [] {
      assert a + b == a;
    } else {
      var init, last := b[..|b| - 1], b[|b| - 1];
      assert b == init + [last];
      assert a + b == (a + init) + [last];
      TotalPointsAppend(id, a, init);
      TotalPointsSnoc(id, a + init, last);
      TotalPointsSnoc(id, init, last);
    }
  }

  /** With no negative `pointsEarned`, no total is negative. */
  lemma {:induction false} TotalPointsNonNegative(id: string, sales: seq<Sale>)
    requires forall i :: 0 <= i < |sales| ==> sales[i].pointsEarned >= 0
    ensures GetCustomerTotalPoints(id, Some(sales)) >= 0
  {
    if sales != [] {
      var init, last := sales[..|sales| - 1], sales[|sales| - 1];
      assert sales == init + [last];
      TotalPointsNonNegative(id, init);
      TotalPointsSnoc(id, init, last);
    }
  }

  /** A single sale counts for `id` exactly when it is `id`'s. */
  lemma TotalPointsSingle(id: string, x: Sale)
    ensures GetCustomerTotalPoints(id, Some([x])) == if x.customerId == Some(id) then x.pointsEarned else 0
  {
    TotalPointsSnoc(id, [], x);
    assert [] + [x] == [x];
  }

  /**
   * A concrete history: sales of 15000 and 8000 linked to customer `c` earn 15 and 8 points
   * under the floor rule, 23 in all; not yet a reward.
   */
  lemma TotalPointsExample(c: string, s0: Sale, s1: Sale)
    requires c != ""
    requires s0.amount == 15000.0 && s0.customerId == Some(c) && s0.pointsEarned == SaleStorage.PointsFor(Some(c), s0.amount)
    requires s1.amount == 8000.0 && s1.customerId == Some(c) && s1.pointsEarned == SaleStorage.PointsFor(Some(c), s1.amount)
    ensures s0.pointsEarned == 15 && s1.pointsEarned == 8
    ensures GetCustomerTotalPoints(c, Some([s0, s1])) == 23
    ensures !IsRewardAvailable(GetCustomerTotalPoints(c, Some([s0, s1])))
  {
    SaleStorage.PointsForThousands(c, 15);
    SaleStorage.PointsForThousands(c, 8);
    TotalPointsPair(c, [s0, s1]);
  }

  /** Two sales both linked to `id` total their two point values. */
  lemma TotalPointsPair(id: string, sales: seq<Sale>)
    requires |sales| == 2 && sales[0].customerId == Some(id) && sales[1].customerId == Some(id)
    ensures GetCustomerTotalPoints(id, Some(sales)) == sales[0].pointsEarned + sales[1].pointsEarned
  {
    var first := [sales[0]];
    assert first + [sales[1]] == sales;
    TotalPointsSingle(id, sales[0]);
    TotalPointsSnoc(id, first, sales[1]);
  }

  /** `isRewardAvailable`: true from 50 points up. */
  function IsRewardAvailable(totalPoints: int): (r: bool)
    ensures r <==> totalPoints >= 50
  {
    totalPoints >= RewardThreshold
  }

  /** Reward availability is monotone in the point total. */
  lemma RewardMonotone(p: int, q: int)
    requires p <= q && IsRewardAvailable(p)
    ensures IsRewardAvailable(q)
  {
  }

  /** The sort key of a sale: its creation instant. */
  function CreatedAt(s: Sale): int {
    s.createdAt.instant
  }

  /** `getCustomerSales`: the sales of `id`, sorted newest first; none for a null sales list. */
  function GetCustomerSales(id: string, sales: Option<seq<Sale>>): (r: seq<Sale>)
    ensures sales == None ==> r == []
    ensures multiset(r) == multiset(SalesOf(id, sales.GetOr([])))
  {
    SortDesc(SalesOf(id, sales.GetOr([])), CreatedAt)
  }

  /** Exactly the sales of `id` come back: each of them, and nothing else. */
  lemma GetCustomerSalesMembers(id: string, sales: seq<Sale>)
    ensures forall i :: 0 <= i < |GetCustomerSales(id, Some(sales))| ==>
      GetCustomerSales(id, Some(sales))[i].customerId == Some(id)
    ensures forall x :: x in sales && x.customerId == Some(id) ==> x in GetCustomerSales(id, Some(sales))
  {
    var r := GetCustomerSales(id, Some(sales));
    forall i | 0 <= i < |r| ensures r[i].customerId == Some(id) {
      assert r[i] in multiset(r);
    }
    forall x | x in sales && x.customerId == Some(id) ensures x in r {
      assert x in multiset(SalesOf(id, sales));
    }
  }

  /** Each sale of `id` comes back as often as it is stored, and no other sale comes back. */
  lemma GetCustomerSalesPermutation(id: string, sales: seq<Sale>)
    ensures forall x ::
              multiset(GetCustomerSales(id, Some(sales)))[x] == if x.customerId == Some(id) then multiset(sales)[x] else 0
  {
    SalesOfMultiplicity(id, sales);
  }

  /**
   * Newest first, and sales created at the same instant keep their stored order
   * (the sort is stable).
   */
  lemma GetCustomerSalesNewestFirst(id: string, sales: seq<Sale>)
    ensures NonIncreasing(GetCustomerSales(id, Some(sales)), CreatedAt)
    ensures forall t ::
              WithKey(GetCustomerSales(id, Some(sales)), CreatedAt, t) == WithKey(SalesOf(id, sales), CreatedAt, t)
  {
    SortDescNonIncreasing(SalesOf(id, sales), CreatedAt);
    forall t ensures WithKey(GetCustomerSales(id, Some(sales)), CreatedAt, t) == WithKey(SalesOf(id, sales), CreatedAt, t) {
      SortDescStable(SalesOf(id, sales), CreatedAt, t);
    }
  }
}
