/** The admin orders page (app/admin/orders/page.tsx): the same figures as
    the dashboard over the list fetched from the remote table, a status
    selector on every recent order, and the status change, which updates the
    remote table and then fetches the list again. The remote table is a
    sequence of orders; the fetch (newest first) is a parameter. */
module OrdersPage {
  import opened Types
  import opened SeqFacts
  import Dashboard

  datatype StatusOption = StatusOption(value: string, text: string)

  /** The selector's options, in the order it lists them. */
  const StatusOptions: seq<StatusOption> := [
    StatusOption("new", "New"),
    StatusOption("accepted", "Accepted"),
    StatusOption("preparing", "Preparing"),
    StatusOption("completed", "Completed")
  ]

  /** The status a selected option value stands for. */
  function ParseStatus(value: string): (r: Option<OrderStatus>)
    ensures r.Some? ==> StatusName(r.value) == value
    ensures r.None? ==> forall s: OrderStatus :: StatusName(s) != value
  {
    if value == "new" then Some(New)
    else if value == "accepted" then Some(Accepted)
    else if value == "preparing" then Some(Preparing)
    else if value == "completed" then Some(Completed)
    else None
  }

  /** The options shown for an order in the current status: always all four. */
  function SelectorOptions(current: OrderStatus): (opts: seq<StatusOption>)
    ensures |opts| == |AllStatuses|
    ensures forall i :: 0 <= i < |opts| ==> ParseStatus(opts[i].value) == Some(AllStatuses[i])
  {
    StatusOptions
  }

  /** There is no transition guard: from any status, every status is offered. */
  lemma AnyStatusSelectable(current: OrderStatus, target: OrderStatus)
    ensures exists i :: 0 <= i < |SelectorOptions(current)| && ParseStatus(SelectorOptions(current)[i].value) == Some(target)
  {
    var opts := SelectorOptions(current);
    var i := match target case New => 0 case Accepted => 1 case Preparing => 2 case Completed => 3;
    assert ParseStatus(opts[i].value) == Some(AllStatuses[i]);
  }

  datatype Effect = UpdateStatus(orderId: string, status: OrderStatus) | ReloadOrders

  /** A choice in the selector: one status update of that order, then a reload. */
  function HandleStatusUpdate(orderId: string, status: OrderStatus): (effects: seq<Effect>)
    ensures |effects| == 2 && effects[0] == UpdateStatus(orderId, status) && effects[1] == ReloadOrders
  {
    [UpdateStatus(orderId, status), ReloadOrders]
  }

  /** The remote table and the list the page shows. */
  datatype PageState = PageState(table: seq<Order>, shown: seq<Order>)

  /** The remote update: every row with the id takes the status and the
      timestamp; when the store reports an error the table stays as it was
      (the error is only logged). */
  function RemoteUpdate(table: seq<Order>, id: string, status: OrderStatus, now: string, ok: bool): (r: seq<Order>)
    ensures |r| == |table|
    ensures forall j :: 0 <= j < |table| ==>
      r[j] == if ok && table[j].id == id then table[j].(status := status, updatedAt := now) else table[j]
  {
    if table == [] then []
    else
      var head := if ok && table[0].id == id then table[0].(status := status, updatedAt := now) else table[0];
      [head] + RemoteUpdate(table[1..], id, status, now, ok)
  }

  /** One effect against the page: the update touches only the table, the
      reload only the shown list. */
  function Step(st: PageState, e: Effect, now: string, ok: bool, fetch: seq<Order> -> seq<Order>): (r: PageState)
    ensures e.UpdateStatus? ==> r.shown == st.shown && |r.table| == |st.table|
    ensures e.UpdateStatus? && !ok ==> r == st
    ensures e.ReloadOrders? ==> r.table == st.table && r.shown == fetch(st.table)
  {
    match e
    case UpdateStatus(id, s) => st.(table := RemoteUpdate(st.table, id, s, now, ok))
    case ReloadOrders => st.(shown := fetch(st.table))
  }

  /** The effects in turn. No effect adds or removes a row; a rejected update
      and a reload leave the table as it was. */
  function Run(st: PageState, effects: seq<Effect>, now: string, ok: bool, fetch: seq<Order> -> seq<Order>): (r: PageState)
    ensures |r.table| == |st.table|
    ensures !ok ==> r.table == st.table
    ensures (forall e :: e in effects ==> e.ReloadOrders?) ==> r.table == st.table
    decreases |effects|
  {
    if effects == [] then st else Run(Step(st, effects[0], now, ok, fetch), effects[1..], now, ok, fetch)
  }

  /** After a successful status change the page shows the fetched table in
      which every row of the order has the chosen status, whatever status it
      had before, and every other row is as it was. */
  lemma StatusUpdateReflected(st: PageState, id: string, s: OrderStatus, now: string, fetch: seq<Order> -> seq<Order>)
    ensures var r := Run(st, HandleStatusUpdate(id, s), now, true, fetch);
      && r.shown == fetch(r.table)
      && |r.table| == |st.table|
      && (forall j :: 0 <= j < |st.table| && st.table[j].id == id ==> r.table[j].status == s && r.table[j].updatedAt == now)
      && (forall j :: 0 <= j < |st.table| && st.table[j].id != id ==> r.table[j] == st.table[j])
  {
    var effects := HandleStatusUpdate(id, s);
    var mid := Step(st, effects[0], now, true, fetch);
    assert effects[1..] == [ReloadOrders];
    assert Run(st, effects, now, true, fetch) == Run(mid, [ReloadOrders], now, true, fetch);
  }

  /** When the store rejects the update the page still reloads, and shows the
      table unchanged. */
  lemma FailedUpdateOnlyReloads(st: PageState, id: string, s: OrderStatus, now: string, fetch: seq<Order> -> seq<Order>)
    ensures Run(st, HandleStatusUpdate(id, s), now, false, fetch) == PageState(st.table, fetch(st.table))
  {
    var effects := HandleStatusUpdate(id, s);
    var mid := Step(st, effects[0], now, false, fetch);
    assert mid.table == st.table;
    assert effects[1..] == [ReloadOrders];
    assert Run(st, effects, now, false, fetch) == Run(mid, [ReloadOrders], now, false, fetch);
  }

  /** The multiplicity of an order among those in a status. */
  lemma {:induction false} WithStatusMultiset(orders: seq<Order>, s: OrderStatus)
    ensures forall o :: multiset(Dashboard.WithStatus(orders, s))[o] == if o.status == s then multiset(orders)[o] else 0
    decreases |orders|
  {
    if orders != [] {
      WithStatusMultiset(orders[1..], s);
      assert orders == [orders[0]] + orders[1..];
    }
  }

  /** Taking one order out of a list takes its total out of the sum. */
  lemma RemoveAt(b: seq<Order>, k: nat)
    requires k < |b|
    ensures Dashboard.SumTotals(b) == Dashboard.SumTotals(b[..k] + b[k + 1..]) + b[k].total
  {
    var pre, post, x := b[..k], b[k + 1..], b[k];
    SplitAt(b, k);
    SplitAt(b[k..], 1);
    assert b[k..][..1] == [x] && b[k..][1..] == post;
    AppendAssoc(pre, [x], post);
    SumOfSplit(pre, x, post);
  }

  lemma SumOfSplit(pre: seq<Order>, x: Order, post: seq<Order>)
    ensures Dashboard.SumTotals((pre + [x]) + post) == Dashboard.SumTotals(pre + post) + x.total
  {
    Dashboard.SumTotalsConcat(pre + [x], post);
    Dashboard.SumTotalsConcat(pre, [x]);
    Dashboard.SumTotalsConcat(pre, post);
    assert [x][1..] == [];
  }

  /** Totals add up the same in any order. */
  lemma {:induction false} SumTotalsPermutation(a: seq<Order>, b: seq<Order>)
    requires multiset(a) == multiset(b)
    ensures Dashboard.SumTotals(a) == Dashboard.SumTotals(b)
    decreases |a|
  {
    if a != [] {
      var k := MatchHead(a, b);
      RemoveAt(b, k);
      SumTotalsPermutation(a[1..], b[..k] + b[k + 1..]);
    } else {
      assert |multiset(b)| == 0;
    }
  }

  /** Filtering a permuted list by status gives a permutation of the filtered list. */
  lemma WithStatusPermutation(a: seq<Order>, b: seq<Order>, s: OrderStatus)
    requires multiset(a) == multiset(b)
    ensures multiset(Dashboard.WithStatus(a, s)) == multiset(Dashboard.WithStatus(b, s))
    ensures |Dashboard.WithStatus(a, s)| == |Dashboard.WithStatus(b, s)|
  {
    WithStatusMultiset(a, s);
    WithStatusMultiset(b, s);
    assert forall o :: multiset(Dashboard.WithStatus(a, s))[o] == multiset(Dashboard.WithStatus(b, s))[o];
    assert |multiset(Dashboard.WithStatus(a, s))| == |Dashboard.WithStatus(a, s)|;
    assert |multiset(Dashboard.WithStatus(b, s))| == |Dashboard.WithStatus(b, s)|;
  }

  /** The figures do not depend on the order the list is fetched in:
      a newest-first list has the same counts and revenue as any other
      ordering of the same orders. */
  lemma StatsOrderIndependent(a: seq<Order>, b: seq<Order>)
    requires multiset(a) == multiset(b)
    ensures Dashboard.ComputeStats(a) == Dashboard.ComputeStats(b)
  {
    WithStatusPermutation(a, b, New);
    WithStatusPermutation(a, b, Accepted);
    WithStatusPermutation(a, b, Preparing);
    WithStatusPermutation(a, b, Completed);
    SumTotalsPermutation(Dashboard.WithStatus(a, Completed), Dashboard.WithStatus(b, Completed));
  }
}
