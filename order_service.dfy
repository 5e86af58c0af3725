/** Building the remote order record at checkout (lib/data/orderService.ts).
    The remote insert is a parameter: it either stores the row and returns
    what was stored, or fails with an error message. */
module OrderService {
  import opened Types
  import opened Decimal

  /** What the checkout hands to createOrder. */
  datatype OrderDraft = OrderDraft(
    items: seq<CartItem>,
    total: int,
    orderType: OrderType,
    paymentMethod: PaymentMethod,
    customerName: Option<string>,
    customerPhone: Option<string>,
    customerAddress: Option<string>)

  /** A row of the remote orders table; orderType, paymentMethod and
      customerPhone are the columns order_type, payment_method, customer_phone. */
  datatype OrderRow = OrderRow(
    id: string,
    items: seq<CartItem>,
    total: int,
    orderType: OrderType,
    paymentMethod: PaymentMethod,
    status: OrderStatus,
    customerPhone: Option<string>)

  const OrderIdPrefix: string := "ORD-"

  /** The order id for a clock reading in milliseconds: "ORD-" and the
      reading's decimal digits, which read back to the reading. */
  function OrderId(nowMs: nat): (id: string)
    ensures |id| > |OrderIdPrefix| && id[..|OrderIdPrefix|] == OrderIdPrefix
    ensures AllDigits(id[|OrderIdPrefix|..]) && DecimalValue(id[|OrderIdPrefix|..]) == nowMs
  {
    DecimalRoundTrip(nowMs);
    var id := OrderIdPrefix + NatToDecimal(nowMs);
    assert id[|OrderIdPrefix|..] == NatToDecimal(nowMs);
    id
  }

  /** Two orders placed at different milliseconds get different ids. */
  lemma OrderIdInjective(a: nat, b: nat)
    ensures OrderId(a) == OrderId(b) ==> a == b
  {
    if OrderId(a) == OrderId(b) {
      assert OrderId(a)[|OrderIdPrefix|..] == OrderId(b)[|OrderIdPrefix|..];
    }
  }

  /** The row createOrder asks the store to insert. */
  function NewOrderRow(draft: OrderDraft, nowMs: nat): (row: OrderRow)
    ensures row.status == New
    ensures |row.id| > |OrderIdPrefix| && row.id[..|OrderIdPrefix|] == OrderIdPrefix
    ensures AllDigits(row.id[|OrderIdPrefix|..]) && DecimalValue(row.id[|OrderIdPrefix|..]) == nowMs
  {
    OrderRow(OrderId(nowMs), draft.items, draft.total, draft.orderType, draft.paymentMethod,
             New, draft.customerPhone)
  }

  /** createOrder: the store's answer to the insert; a failure is passed on
      (re-thrown) and no record is returned. */
  function CreateOrder(draft: OrderDraft, nowMs: nat, insert: OrderRow -> Result<OrderRow, string>)
    : (r: Result<OrderRow, string>)
    ensures r.Failure? <==> insert(NewOrderRow(draft, nowMs)).Failure?
    ensures r.Failure? ==> r.error == insert(NewOrderRow(draft, nowMs)).error
    ensures r.Success? ==> r.value == insert(NewOrderRow(draft, nowMs)).value
  {
    match insert(NewOrderRow(draft, nowMs))
    case Failure(e) => Failure(e)
    case Success(stored) => Success(stored)
  }

  /** Every new row starts in status New, under the id of its clock reading,
      with the draft's items and total copied rather than recomputed, and the
      order type, payment method and phone carried over. */
  lemma NewRowFields(draft: OrderDraft, nowMs: nat)
    ensures var row := NewOrderRow(draft, nowMs);
      && row.status == New
      && row.id[..|OrderIdPrefix|] == OrderIdPrefix
      && DecimalValue(row.id[|OrderIdPrefix|..]) == nowMs
      && row.items == draft.items && row.total == draft.total
      && row.orderType == draft.orderType && row.paymentMethod == draft.paymentMethod
      && row.customerPhone == draft.customerPhone
  {
  }

  /** The customer's name and address never reach the store: drafts that
      differ only there produce the same row. */
  lemma NameAndAddressDropped(draft: OrderDraft, name: Option<string>, address: Option<string>, nowMs: nat)
    ensures NewOrderRow(draft.(customerName := name, customerAddress := address), nowMs)
            == NewOrderRow(draft, nowMs)
  {
  }

  /** The row determines the draft up to the name and address. */
  lemma RowDeterminesDraft(d1: OrderDraft, d2: OrderDraft, nowMs: nat)
    requires NewOrderRow(d1, nowMs) == NewOrderRow(d2, nowMs)
    ensures d1.(customerName := d2.customerName, customerAddress := d2.customerAddress) == d2
  {
  }

  /** A store that echoes the inserted row makes createOrder return exactly
      the row it built. */
  lemma CreateOrderEcho(draft: OrderDraft, nowMs: nat)
    ensures CreateOrder(draft, nowMs, row => Success(row)) == Success(NewOrderRow(draft, nowMs))
  {
  }
}
