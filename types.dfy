/** The storefront's domain vocabulary: the enumerations and records that the
    catalogue, the order table, the admin pages and the message formatter share. */
module Types {

  datatype Option<T> = None | Some(value: T) {
    function GetOr(default: T): T {
      match this
      case Some(v) => v
      case None => default
    }
  }

  datatype Result<T, E> = Success(value: T) | Failure(error: E)

  /** The two menu partitions. */
  datatype Cuisine = Chinese | Biryani

  datatype PaymentMethod = COD | Online

  datatype OrderType = Delivery | Pickup

  /** The order lifecycle: there is no cancelled (or any other) state. */
  datatype OrderStatus = New | Accepted | Preparing | Completed

  /** Every status, in the order the admin selector lists them. */
  const AllStatuses: seq<OrderStatus> := [New, Accepted, Preparing, Completed]

  /** The string each enumeration value has in stored records. */
  function CuisineName(c: Cuisine): string {
    match c
    case Chinese => "chinese"
    case Biryani => "biryani"
  }

  function PaymentMethodName(p: PaymentMethod): string {
    match p
    case COD => "COD"
    case Online => "ONLINE"
  }

  function OrderTypeName(t: OrderType): string {
    match t
    case Delivery => "delivery"
    case Pickup => "pickup"
  }

  function StatusName(s: OrderStatus): string {
    match s
    case New => "new"
    case Accepted => "accepted"
    case Preparing => "preparing"
    case Completed => "completed"
  }

  /** A catalogue entry. Prices are whole rupees. */
  datatype MenuItem = MenuItem(
    id: string,
    name: string,
    price: int,
    cuisine: Cuisine,
    category: string,
    image: string,
    availability: bool,
    description: Option<string>)

  /** A cart line: every MenuItem field plus a quantity. */
  datatype CartItem = CartItem(
    id: string,
    name: string,
    price: int,
    cuisine: Cuisine,
    category: string,
    image: string,
    availability: bool,
    description: Option<string>,
    quantity: int)
  {
    /** The MenuItem part of the line. */
    function AsMenuItem(): (m: MenuItem)
      ensures WithQuantity(m, quantity) == this
    {
      MenuItem(id, name, price, cuisine, category, image, availability, description)
    }
  }

  /** A cart line built from a menu item; the inverse of AsMenuItem. */
  function WithQuantity(m: MenuItem, quantity: int): (c: CartItem)
    ensures c.quantity == quantity
    ensures c.id == m.id && c.name == m.name && c.price == m.price && c.cuisine == m.cuisine
    ensures c.category == m.category && c.image == m.image
    ensures c.availability == m.availability && c.description == m.description
  {
    CartItem(m.id, m.name, m.price, m.cuisine, m.category, m.image, m.availability, m.description, quantity)
  }

  /** A placed order: its own copy of the cart lines, its own total, status and
      timestamps; the customer fields are optional. */
  datatype Order = Order(
    id: string,
    items: seq<CartItem>,
    total: int,
    orderType: OrderType,
    paymentMethod: PaymentMethod,
    status: OrderStatus,
    customerName: Option<string>,
    customerPhone: Option<string>,
    customerAddress: Option<string>,
    createdAt: string,
    updatedAt: string)

  /** The kitchen's configuration: four plain strings, none optional. */
  datatype AdminSettings = AdminSettings(
    kitchenName: string,
    whatsappNumber: string,
    upiQrCode: string,
    upiId: string)

  lemma StatusesExhaustive(s: OrderStatus)
    ensures s in AllStatuses
    ensures |AllStatuses| == 4
    ensures forall i, j :: 0 <= i < j < |AllStatuses| ==> AllStatuses[i] != AllStatuses[j]
  {
  }

  lemma {:induction false} MenuItemRoundTrip(m: MenuItem, quantity: int)
    ensures WithQuantity(m, quantity).AsMenuItem() == m
  {
  }

  /** Distinct values have distinct stored names, so the names identify the values. */
  lemma NamesInjective(s: OrderStatus, t: OrderStatus, c: Cuisine, d: Cuisine)
    ensures StatusName(s) == StatusName(t) ==> s == t
    ensures CuisineName(c) == CuisineName(d) ==> c == d
  {
  }
}
