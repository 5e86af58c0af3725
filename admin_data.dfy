/** The browser-local admin store (lib/data/adminData.ts): the kitchen
    settings under the key "admin_settings" and the order list under the key
    "admin_orders", each read with a fallback and rewritten whole. */
module AdminData {
  import opened Types
  import opened Storage

  const DefaultAdminSettings: AdminSettings := AdminSettings(
    "Cloud Kitchen",
    "+918850055287",
    "https://via.placeholder.com/300x300/000000/FFFFFF?text=UPI+QR+Code",
    "yourupi@paytm")

  /** The index of the first order with the given id, or -1 when there is none. */
  function FindOrderIndex(orders: seq<Order>, id: string): (i: int)
    ensures -1 <= i < |orders|
    ensures i == -1 <==> forall j :: 0 <= j < |orders| ==> orders[j].id != id
    ensures 0 <= i ==> orders[i].id == id && forall j :: 0 <= j < i ==> orders[j].id != id
  {
    if orders == [] then -1
    else if orders[0].id == id then 0
    else
      var k := FindOrderIndex(orders[1..], id);
      if k == -1 then -1 else k + 1
  }

  /** The order list with the first order of the given id moved to a new
      status at time now; nothing else in the list changes. */
  function WithStatus(orders: seq<Order>, id: string, status: OrderStatus, now: string): (r: seq<Order>)
    ensures |r| == |orders|
    ensures FindOrderIndex(orders, id) == -1 ==> r == orders
    ensures forall j :: 0 <= j < |orders| && j != FindOrderIndex(orders, id) ==> r[j] == orders[j]
    ensures forall j :: 0 <= j < |orders| ==> r[j].id == orders[j].id
    ensures var i := FindOrderIndex(orders, id);
            0 <= i ==> r[i].status == status && r[i].updatedAt == now
                       && r[i].(status := orders[i].status, updatedAt := orders[i].updatedAt) == orders[i]
  {
    var i := FindOrderIndex(orders, id);
    if i == -1 then orders else orders[i := orders[i].(status := status, updatedAt := now)]
  }

  class LocalStore {
    /** Whether code runs in a browser; on the server every reader falls
        back and every writer does nothing. */
    const hasWindow: bool
    var settingsSlot: Slot<AdminSettings>
    var ordersSlot: Slot<seq<Order>>

    constructor (hasWindow: bool, settingsSlot: Slot<AdminSettings>, ordersSlot: Slot<seq<Order>>)
      ensures this.hasWindow == hasWindow
      ensures this.settingsSlot == settingsSlot && this.ordersSlot == ordersSlot
    {
      this.hasWindow := hasWindow;
      this.settingsSlot := settingsSlot;
      this.ordersSlot := ordersSlot;
    }

    /** The stored settings, or the defaults when nothing usable is stored. */
    function GetAdminSettings(): (s: AdminSettings)
      reads this
      ensures hasWindow && settingsSlot.Parsed? ==> s == settingsSlot.value
      ensures !hasWindow || settingsSlot.Empty? || settingsSlot.Unparsable? ==> s == DefaultAdminSettings
    {
      ReadOr(hasWindow, settingsSlot, DefaultAdminSettings)
    }

    method SaveAdminSettings(settings: AdminSettings)
      modifies this`settingsSlot
      ensures settingsSlot == if hasWindow then Parsed(settings) else old(settingsSlot)
      ensures hasWindow ==> GetAdminSettings() == settings
    {
      if !hasWindow {
        return;
      }
      settingsSlot := Parsed(settings);
    }

    /** The stored orders, or none when nothing usable is stored. */
    function GetOrders(): (orders: seq<Order>)
      reads this
      ensures hasWindow && ordersSlot.Parsed? ==> orders == ordersSlot.value
      ensures !hasWindow || ordersSlot.Empty? || ordersSlot.Unparsable? ==> orders == []
    {
      ReadOr(hasWindow, ordersSlot, [])
    }

    /** Appends one order to the stored list (an unparsable list is replaced). */
    method SaveOrder(order: Order)
      modifies this`ordersSlot
      ensures hasWindow ==> ordersSlot == Parsed(old(GetOrders()) + [order])
      ensures !hasWindow ==> ordersSlot == old(ordersSlot)
      ensures hasWindow ==> |GetOrders()| == |old(GetOrders())| + 1
                            && GetOrders()[..|old(GetOrders())|] == old(GetOrders())
                            && GetOrders()[|old(GetOrders())|] == order
    {
      if !hasWindow {
        return;
      }
      var orders := GetOrders();
      orders := orders + [order];
      ordersSlot := Parsed(orders);
    }

    /** Moves the first order with the id to the status, stamping it with now;
        when no order has the id, storage is not written at all. */
    method UpdateOrderStatus(orderId: string, status: OrderStatus, now: string)
      modifies this`ordersSlot
      ensures !hasWindow || FindOrderIndex(old(GetOrders()), orderId) == -1 ==> ordersSlot == old(ordersSlot)
      ensures hasWindow && FindOrderIndex(old(GetOrders()), orderId) != -1
              ==> ordersSlot == Parsed(WithStatus(old(GetOrders()), orderId, status, now))
      ensures |GetOrders()| == |old(GetOrders())|
    {
      if !hasWindow {
        return;
      }
      var orders := GetOrders();
      var orderIndex := FindOrderIndex(orders, orderId);
      if orderIndex != -1 {
        orders := orders[orderIndex := orders[orderIndex].(status := status, updatedAt := now)];
        ordersSlot := Parsed(orders);
      }
    }
  }

  /** An order appended under an id no earlier order has is the one a later
      status change of that id finds. */
  lemma {:induction false} FindAppended(orders: seq<Order>, order: Order)
    requires forall j :: 0 <= j < |orders| ==> orders[j].id != order.id
    ensures FindOrderIndex(orders + [order], order.id) == |orders|
  {
    var all := orders + [order];
    assert all[|orders|] == order;
    assert forall j :: 0 <= j < |orders| ==> all[j] == orders[j];
  }

  /** Saving a new order and then changing its status leaves the earlier
      orders as they were and the new one with the new status. */
  lemma SaveThenUpdate(orders: seq<Order>, order: Order, status: OrderStatus, now: string)
    requires forall j :: 0 <= j < |orders| ==> orders[j].id != order.id
    ensures WithStatus(orders + [order], order.id, status, now)
            == orders + [order.(status := status, updatedAt := now)]
  {
    FindAppended(orders, order);
  }

  /** Repeating the same status change changes nothing more. */
  lemma WithStatusIdempotent(orders: seq<Order>, id: string, status: OrderStatus, now: string)
    ensures WithStatus(WithStatus(orders, id, status, now), id, status, now) == WithStatus(orders, id, status, now)
  {
    var once := WithStatus(orders, id, status, now);
    var i := FindOrderIndex(orders, id);
    if i >= 0 {
      assert FindOrderIndex(once, id) == i;
    } else {
      assert once == orders;
    }
  }
}
