/** The admin dashboard's figures (app/admin/page.tsx): per-status counts,
    the revenue of completed orders, the first five orders and the short
    order id. The orders page computes the same figures over its own list. */
module Dashboard {
  import opened Types
  import opened Decimal
  import opened SeqFacts
  import OrderService
  import AdminData

  datatype Stats = Stats(newCount: nat, accepted: nat, preparing: nat, completed: nat, totalRevenue: int)

  /** The orders in the given status, in list order. */
  function WithStatus(orders: seq<Order>, s: OrderStatus): (r: seq<Order>)
    ensures |r| <= |orders|
    ensures forall i :: 0 <= i < |r| ==> r[i].status == s
  {
    if orders == [] then []
    else (if orders[0].status == s then [orders[0]] else []) + WithStatus(orders[1..], s)
  }

  /** The sum of the totals of a list of orders. */
  function SumTotals(orders: seq<Order>): (sum: int)
    ensures orders == [] ==> sum == 0
    ensures (forall i :: 0 <= i < |orders| ==> orders[i].total >= 0) ==> sum >= 0
  {
    if orders == [] then 0 else orders[0].total + SumTotals(orders[1..])
  }

  /** The five figures the dashboard shows for a list of orders. */
  function ComputeStats(orders: seq<Order>): (st: Stats)
    ensures st.newCount == multiset(Statuses(orders))[New]
    ensures st.accepted == multiset(Statuses(orders))[Accepted]
    ensures st.preparing == multiset(Statuses(orders))[Preparing]
    ensures st.completed == multiset(Statuses(orders))[Completed]
    ensures st.newCount + st.accepted + st.preparing + st.completed == |orders|
    ensures orders == [] ==> st.totalRevenue == 0
  {
    StatusCountsPartition(orders);
    CountIsMultiplicity(orders, New);
    CountIsMultiplicity(orders, Accepted);
    CountIsMultiplicity(orders, Preparing);
    CountIsMultiplicity(orders, Completed);
    Stats(|WithStatus(orders, New)|, |WithStatus(orders, Accepted)|,
          |WithStatus(orders, Preparing)|, |WithStatus(orders, Completed)|,
          SumTotals(WithStatus(orders, Completed)))
  }

  /** The statuses of the orders, in list order. */
  function Statuses(orders: seq<Order>): (r: seq<OrderStatus>)
    ensures |r| == |orders| && forall i :: 0 <= i < |r| ==> r[i] == orders[i].status
  {
    if orders == [] then [] else [orders[0].status] + Statuses(orders[1..])
  }

  /** Filtering respects concatenation, so the filter keeps list order. */
  lemma {:induction false} WithStatusConcat(a: seq<Order>, b: seq<Order>, s: OrderStatus)
    ensures WithStatus(a + b, s) == WithStatus(a, s) + WithStatus(b, s)
    decreases |a|
  {
    if a != [] {
      assert (a + b)[1..] == a[1..] + b;
      WithStatusConcat(a[1..], b, s);
      AppendAssoc(if a[0].status == s then [a[0]] else [], WithStatus(a[1..], s), WithStatus(b, s));
    } else {
      assert a + b == b;
    }
  }

  /** An order is counted under a status exactly when it is in the list and has it. */
  lemma {:induction false} WithStatusMembers(orders: seq<Order>, s: OrderStatus)
    ensures forall o :: o in WithStatus(orders, s) <==> o in orders && o.status == s
    decreases |orders|
  {
    if orders != [] {
      WithStatusMembers(orders[1..], s);
      assert forall o :: o in orders <==> o == orders[0] || o in orders[1..];
    }
  }

  /** Each count is the number of orders with that status. */
  lemma {:induction false} CountIsMultiplicity(orders: seq<Order>, s: OrderStatus)
    ensures |WithStatus(orders, s)| == multiset(Statuses(orders))[s]
    decreases |orders|
  {
    if orders != [] {
      CountIsMultiplicity(orders[1..], s);
      assert Statuses(orders) == [orders[0].status] + Statuses(orders[1..]);
    }
  }

  /** Every order has one of the four statuses, so the counts add up. */
  lemma {:induction false} StatusCountsPartition(orders: seq<Order>)
    ensures |WithStatus(orders, New)| + |WithStatus(orders, Accepted)|
            + |WithStatus(orders, Preparing)| + |WithStatus(orders, Completed)| == |orders|
    decreases |orders|
  {
    if orders != [] {
      StatusCountsPartition(orders[1..]);
    }
  }

  lemma {:induction false} SumTotalsConcat(a: seq<Order>, b: seq<Order>)
    ensures SumTotals(a + b) == SumTotals(a) + SumTotals(b)
    decreases |a|
  {
    if a != [] {
      assert (a + b)[1..] == a[1..] + b;
      SumTotalsConcat(a[1..], b);
    } else {
      assert a + b == b;
    }
  }

  /** Revenue adds up over a split of the order list. */
  lemma RevenueConcat(a: seq<Order>, b: seq<Order>)
    ensures ComputeStats(a + b).totalRevenue == ComputeStats(a).totalRevenue + ComputeStats(b).totalRevenue
  {
    WithStatusConcat(a, b, Completed);
    SumTotalsConcat(WithStatus(a, Completed), WithStatus(b, Completed));
  }

  /** Appending a non-completed order leaves the revenue as it was. */
  lemma RevenueIgnoresAppended(orders: seq<Order>, o: Order)
    requires o.status != Completed
    ensures ComputeStats(orders + [o]).totalRevenue == ComputeStats(orders).totalRevenue
  {
    RevenueConcat(orders, [o]);
    assert WithStatus([o], Completed) == [];
  }

  /** Appending a completed order adds exactly its total to the revenue;
      with RevenueIgnoresAppended this fixes the revenue of every list. */
  lemma RevenueAddsCompleted(orders: seq<Order>, o: Order)
    requires o.status == Completed
    ensures ComputeStats(orders + [o]).totalRevenue == ComputeStats(orders).totalRevenue + o.total
  {
    RevenueConcat(orders, [o]);
    assert WithStatus([o], Completed) == [o];
    assert [o][1..] == [];
    assert SumTotals([o]) == o.total + SumTotals([]);
  }

  /** Replacing a non-completed order by another non-completed order leaves
      the revenue as it was. */
  lemma RevenueIgnoresReplaced(orders: seq<Order>, i: nat, o: Order)
    requires i < |orders| && orders[i].status != Completed && o.status != Completed
    ensures ComputeStats(orders[i := o]).totalRevenue == ComputeStats(orders).totalRevenue
  {
    var pre, post := orders[..i], orders[i + 1..];
    assert orders == pre + [orders[i]] + post;
    assert orders[i := o] == pre + [o] + post;
    RevenueConcat(pre + [orders[i]], post);
    RevenueConcat(pre + [o], post);
    RevenueIgnoresAppended(pre, orders[i]);
    RevenueIgnoresAppended(pre, o);
  }

  /** Moving an order between the non-completed statuses, as the local
      store's status update does, never changes the revenue. */
  lemma RevenueAfterStatusChange(orders: seq<Order>, id: string, s: OrderStatus, now: string)
    requires s != Completed
    requires forall j :: 0 <= j < |orders| && orders[j].id == id ==> orders[j].status != Completed
    ensures ComputeStats(AdminData.WithStatus(orders, id, s, now)).totalRevenue
            == ComputeStats(orders).totalRevenue
  {
    var i := AdminData.FindOrderIndex(orders, id);
    if i != -1 {
      assert AdminData.WithStatus(orders, id, s, now) == orders[i := orders[i].(status := s, updatedAt := now)];
      RevenueIgnoresReplaced(orders, i, orders[i].(status := s, updatedAt := now));
    }
  }

  /** The recent list: the first five orders, or all of them when fewer. */
  function Recent(orders: seq<Order>): (r: seq<Order>)
    ensures |r| == if |orders| < 5 then |orders| else 5
    ensures r == orders[..|r|]
  {
    if |orders| < 5 then orders else orders[..5]
  }

  /** Because saving appends, the recent list of a local store holds the
      earliest five orders: once there are five, a new order does not enter it. */
  lemma RecentStableAfterFive(orders: seq<Order>, o: Order)
    ensures |orders| >= 5 ==> Recent(orders + [o]) == Recent(orders)
    ensures |orders| < 5 ==> Recent(orders + [o]) == orders + [o]
  {
    if |orders| >= 5 {
      PrefixOfAppend(orders, [o]);
      assert (orders + [o])[..5] == orders[..5];
    }
  }

  /** The short id: the last six characters of the id, or all of it when shorter. */
  function ShortId(id: string): (r: string)
    ensures |r| == if |id| < 6 then |id| else 6
    ensures id == id[..|id| - |r|] + r
  {
    if |id| < 6 then id else id[|id| - 6..]
  }

  /** For an order placed at or after 100000 ms, the short id is the last six
      digits of its clock reading: the reading is a multiple of 10^6 plus the
      short id's value. */
  lemma ShortIdOfOrderId(nowMs: nat)
    requires nowMs >= 100000
    ensures AllDigits(ShortId(OrderService.OrderId(nowMs)))
    ensures DecimalValue(ShortId(OrderService.OrderId(nowMs))) < 1000000
    ensures (nowMs - DecimalValue(ShortId(OrderService.OrderId(nowMs)))) % 1000000 == 0
  {
    var digits := NatToDecimal(nowMs);
    var id := OrderService.OrderId(nowMs);
    assert id == OrderService.OrderIdPrefix + digits;
    assert Power10(5) == 100000;
    DecimalLength(nowMs, 5);
    assert id[|id| - 6..] == digits[|digits| - 6..];
    DecimalSplit(digits, 6);
    DecimalRoundTrip(nowMs);
    assert Power10(6) == 1000000;
    var hi: nat := DecimalValue(digits[..|digits| - 6]);
    assert nowMs - DecimalValue(ShortId(id)) == hi * 1000000;
  }
}
