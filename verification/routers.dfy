/**
 * The API procedures: the input each one accepts, and the two order
 * procedures that do more than pass their input through to the data layer,
 * `orders.create` (totals, order number, header and lines) and
 * `orders.updateStatus`.
 */
module Routers {
  import opened Wrappers
  import opened Rows
  import opened Schema
  import opened Store
  import opened Queries
  import Decimal
  import opened Pricing

  // ---------------------------------------------------------------------------
  // Input checking. A rejected input lists the fields at fault, in schema order.

  function Issue(bad: bool, field: string): seq<string> {
    if bad then [field] else []
  }

  function Checked<T>(issues: seq<string>, value: T): (r: Result<T, seq<string>>)
    ensures r.Success? <==> issues == []
    ensures r.Success? ==> r.value == value
    ensures r.Failure? ==> r.error == issues
  {
    if issues == [] then Success(value) else Failure(issues)
  }

  /** `z.string().min(1).optional()`. */
  predicate NameOk(name: Option<string>) {
    name.None? || name.value != ""
  }

  /** `categories.create`: a non-empty name. */
  function CheckCategoryCreate(name: string, description: Option<string>): (r: Result<Category, seq<string>>)
    ensures r.Success? <==> name != ""
    ensures r.Success? ==> r.value == Category(name, description)
    ensures r.Failure? ==> r.error == ["name"]
  {
    Checked(Issue(name == "", "name"), Category(name, description))
  }

  /** `categories.update`: a name, when given, is not empty. */
  function CheckCategoryUpdate(p: CategoryPatch): (r: Result<CategoryPatch, seq<string>>)
    ensures r.Success? <==> NameOk(p.name)
    ensures r.Success? ==> r.value == p
  {
    Checked(Issue(!NameOk(p.name), "name"), p)
  }

  /** `customers.create`: a non-empty name; every other field passes as given. */
  function CheckCustomerCreate(c: CustomerInsert): (r: Result<CustomerInsert, seq<string>>)
    ensures r.Success? <==> c.name != ""
    ensures r.Success? ==> r.value == c
  {
    Checked(Issue(c.name == "", "name"), c)
  }

  /** `customers.update`: a name, when given, is not empty. */
  function CheckCustomerUpdate(p: CustomerPatch): (r: Result<CustomerPatch, seq<string>>)
    ensures r.Success? <==> NameOk(p.name)
    ensures r.Success? ==> r.value == p
  {
    Checked(Issue(!NameOk(p.name), "name"), p)
  }

  datatype ProductCreateRequest = ProductCreateRequest(
    name: string,
    description: Option<string>,
    sku: Option<string>,
    categoryId: Option<int>,
    kind: string,
    price: int,
    unit: Option<string>,
    active: Option<bool>)

  /**
   * `products.create`: a non-empty name, a type tag of "product" or "service"
   * and a price of at least 0; a missing unit becomes "un".
   */
  function CheckProductCreate(q: ProductCreateRequest): (r: Result<ProductInsert, seq<string>>)
    ensures r.Success? <==> q.name != "" && ParseType(q.kind).Some? && q.price >= 0
    ensures r.Success? ==>
      && r.value.kind.Some? && TypeTag(r.value.kind.value) == q.kind
      && r.value.unit == Some(if q.unit.Some? then q.unit.value else DefaultUnit)
      && r.value.(kind := None, unit := None) ==
         ProductInsert(q.name, q.description, q.sku, q.categoryId, None, q.price, None, q.active)
  {
    var issues := Issue(q.name == "", "name") + Issue(ParseType(q.kind).None?, "type") + Issue(q.price < 0, "price");
    var unit := OrDefault(q.unit, DefaultUnit);
    if issues != [] then Failure(issues)
    else Success(ProductInsert(q.name, q.description, q.sku, q.categoryId, ParseType(q.kind), q.price, Some(unit), q.active))
  }

  datatype ProductUpdateRequest = ProductUpdateRequest(
    name: Option<string>,
    description: Option<string>,
    sku: Option<string>,
    categoryId: Option<int>,
    kind: Option<string>,
    price: Option<int>,
    unit: Option<string>,
    active: Option<bool>)

  /** `products.update`: each field that is given obeys the creation rule; nothing gets a default. */
  function CheckProductUpdate(q: ProductUpdateRequest): (r: Result<ProductPatch, seq<string>>)
    ensures r.Success? <==>
      && NameOk(q.name)
      && (q.kind.Some? ==> ParseType(q.kind.value).Some?)
      && (q.price.Some? ==> q.price.value >= 0)
    ensures r.Success? ==>
      && r.value.kind.Some? == q.kind.Some?
      && (q.kind.Some? ==> TypeTag(r.value.kind.value) == q.kind.value)
      && r.value.(kind := None) == ProductPatch(q.name, q.description, q.sku, q.categoryId, None, q.price, q.unit, q.active)
  {
    var badKind := q.kind.Some? && ParseType(q.kind.value).None?;
    var badPrice := q.price.Some? && q.price.value < 0;
    var issues := Issue(!NameOk(q.name), "name") + Issue(badKind, "type") + Issue(badPrice, "price");
    var kind := if q.kind.Some? then ParseType(q.kind.value) else None;
    if issues != [] then Failure(issues)
    else Success(ProductPatch(q.name, q.description, q.sku, q.categoryId, kind, q.price, q.unit, q.active))
  }

  // ---------------------------------------------------------------------------
  // orders.create

  datatype PaymentMethod = Cash | CreditCard | DebitCard | Pix | BankTransfer | Check | Other

  function PaymentTag(m: PaymentMethod): string {
    match m
    case Cash => "cash"
    case CreditCard => "credit_card"
    case DebitCard => "debit_card"
    case Pix => "pix"
    case BankTransfer => "bank_transfer"
    case Check => "check"
    case Other => "other"
  }

  function ParsePayment(tag: string): (r: Option<PaymentMethod>)
    ensures r.Some? ==> PaymentTag(r.value) == tag
    ensures r.None? ==> forall m :: PaymentTag(m) != tag
  {
    if tag == "cash" then Some(Cash)
    else if tag == "credit_card" then Some(CreditCard)
    else if tag == "debit_card" then Some(DebitCard)
    else if tag == "pix" then Some(Pix)
    else if tag == "bank_transfer" then Some(BankTransfer)
    else if tag == "check" then Some(Check)
    else if tag == "other" then Some(Other)
    else None
  }

  /**
   * The body of an `orders.create` call. `customerId` is None when no number
   * was sent; `paymentMethod` is None when the field is absent; `discount` is
   * None when absent (it then defaults to 0).
   */
  datatype CreateOrderRequest = CreateOrderRequest(
    customerId: Option<int>,
    paymentMethod: Option<string>,
    items: seq<ItemRequest>,
    discount: Option<int>,
    notes: Option<string>,
    deliveryDate: Option<int>)

  /** An accepted `orders.create` body, with the discount default applied. */
  datatype NewOrder = NewOrder(
    customerId: int,
    paymentMethod: PaymentMethod,
    items: seq<ItemRequest>,
    discount: int,
    notes: Option<string>,
    deliveryDate: Option<int>)

  predicate PaymentOk(pm: Option<string>) {
    pm.Some? && ParsePayment(pm.value).Some?
  }

  /**
   * The input rule of `orders.create`: a customer number, one of the seven
   * payment methods, every line with quantity at least 1 and unit price at
   * least 0 (an empty list of lines is accepted), and a discount, when given,
   * of at least 0.
   */
  function ValidateCreateOrder(req: CreateOrderRequest): (r: Result<NewOrder, seq<string>>)
    ensures r.Success? <==>
      && req.customerId.Some?
      && PaymentOk(req.paymentMethod)
      && AllAccepted(req.items)
      && (req.discount.Some? ==> req.discount.value >= 0)
    ensures r.Failure? ==> ("paymentMethod" in r.error <==> !PaymentOk(req.paymentMethod))
    ensures r.Success? ==>
      && r.value.customerId == req.customerId.value
      && PaymentTag(r.value.paymentMethod) == req.paymentMethod.value
      && r.value.items == req.items
      && r.value.discount == (if req.discount.Some? then req.discount.value else 0)
      && r.value.discount >= 0
      && r.value.notes == req.notes
      && r.value.deliveryDate == req.deliveryDate
  {
    var badDiscount := req.discount.Some? && req.discount.value < 0;
    var issues :=
      Issue(req.customerId.None?, "customerId")
      + Issue(!PaymentOk(req.paymentMethod), "paymentMethod")
      + Issue(!AllAccepted(req.items), "items")
      + Issue(badDiscount, "discount");
    if issues != [] then Failure(issues)
    else
      Success(NewOrder(req.customerId.value, ParsePayment(req.paymentMethod.value).value, req.items,
                       OrDefault(req.discount, 0), req.notes, req.deliveryDate))
  }

  /** The list of lines has no minimum length: an order without lines is accepted. */
  lemma EmptyOrderAccepted(customerId: int, pm: PaymentMethod, notes: Option<string>, deliveryDate: Option<int>)
    ensures ValidateCreateOrder(CreateOrderRequest(Some(customerId), Some(PaymentTag(pm)), [], None, notes, deliveryDate)).Success?
  {
    PaymentRoundTrip(pm);
  }

  /** The final amount is not clamped: a discount larger than the subtotal gives a negative amount. */
  lemma FinalAmountCanBeNegative(v: NewOrder, userId: int, clock: nat)
    requires v.discount > Subtotal(v.items)
    ensures OrderFrom(Header(v, userId, clock)).finalAmount < 0
  {
  }

  /** Every payment method's tag parses back to it. */
  lemma PaymentRoundTrip(pm: PaymentMethod)
    ensures ParsePayment(PaymentTag(pm)) == Some(pm)
  {
    match pm
    case Cash =>
    case CreditCard =>
    case DebitCard =>
    case Pix =>
    case BankTransfer =>
    case Check =>
    case Other =>
  }

  /** `PED-` followed by the clock reading in decimal. */
  function OrderNumber(clock: nat): (r: string)
    ensures |r| > 4 && r[..4] == "PED-"
    ensures Decimal.Parse(r[4..]) == Some(clock)
  {
    Decimal.ParseShow(clock);
    var r := "PED-" + Decimal.Show(clock);
    assert r[4..] == Decimal.Show(clock);
    r
  }

  /** Two different clock readings never give the same order number. */
  lemma OrderNumberInjective(a: nat, b: nat)
    ensures OrderNumber(a) == OrderNumber(b) ==> a == b
  {
    if OrderNumber(a) == OrderNumber(b) {
      assert OrderNumber(a)[4..] == OrderNumber(b)[4..];
    }
  }

  /** The header row `orders.create` writes. */
  function Header(v: NewOrder, userId: int, clock: nat): (o: OrderInsert)
    ensures OrderFrom(o).status == Pending
    ensures OrderFrom(o).totalAmount == Subtotal(v.items)
    ensures OrderFrom(o).finalAmount == OrderFrom(o).totalAmount - OrderFrom(o).discount
    ensures OrderFrom(o).discount == v.discount
    ensures v.discount >= 0 ==> OrderFrom(o).finalAmount <= OrderFrom(o).totalAmount
    ensures OrderFrom(o).orderNumber == OrderNumber(clock)
    ensures OrderFrom(o).customerId == v.customerId && OrderFrom(o).userId == userId
    ensures OrderFrom(o).notes == v.notes && OrderFrom(o).deliveryDate == v.deliveryDate
  {
    var total := Subtotal(v.items);
    OrderInsert(OrderNumber(clock), v.customerId, userId, Some(Pending), total, Some(v.discount),
                total - v.discount, v.notes, v.deliveryDate)
  }

  /** The line row written for one requested line: a snapshot of name and price, and its line total. */
  function ItemRow(orderId: int, it: ItemRequest): OrderItem {
    OrderItem(orderId, it.productId, it.productName, it.quantity, it.unitPrice, LineTotal(it), it.notes)
  }

  function ItemRows(orderId: int, items: seq<ItemRequest>): (r: seq<OrderItem>)
    ensures |r| == |items|
    ensures forall i :: 0 <= i < |items| ==> r[i] == ItemRow(orderId, items[i])
  {
    if items == [] then [] else [ItemRow(orderId, items[0])] + ItemRows(orderId, items[1..])
  }

  /** The sum of `totalPrice` over stored line rows. */
  function LinesTotal(rows: seq<Row<OrderItem>>): int {
    if rows == [] then 0 else LinesTotal(rows[..|rows| - 1]) + rows[|rows| - 1].data.totalPrice
  }

  /** Rows carrying the lines written for `items` add up to the subtotal of `items`. */
  lemma {:induction false} LinesTotalOfWritten(rows: seq<Row<OrderItem>>, orderId: int, items: seq<ItemRequest>)
    requires |rows| == |items|
    requires forall i :: 0 <= i < |rows| ==> rows[i].data == ItemRow(orderId, items[i])
    ensures LinesTotal(rows) == Subtotal(items)
  {
    if rows != [] {
      LinesTotalOfWritten(rows[..|rows| - 1], orderId, items[..|items| - 1]);
    }
  }

  /** `after` is `before` followed by rows carrying the first few of `lines`, in order. */
  predicate Appended(before: seq<Row<OrderItem>>, after: seq<Row<OrderItem>>, lines: seq<OrderItem>) {
    && |before| <= |after| <= |before| + |lines|
    && after[..|before|] == before
    && forall i :: |before| <= i < |after| ==> after[i].data == lines[i - |before|]
  }

  lemma AppendedStep(before: seq<Row<OrderItem>>, row: Row<OrderItem>, after: seq<Row<OrderItem>>, lines: seq<OrderItem>)
    requires lines != [] && row.data == lines[0]
    requires Appended(before + [row], after, lines[1..])
    ensures Appended(before, after, lines)
  {
    assert after[..|before|] == (after[..|before| + 1])[..|before|];
  }

  /**
   * The line writes of `orders.create`, one `createOrderItem` after another:
   * stops at the first one the database refuses, keeping what was written
   * before it.
   */
  function WithItemsInserted(t: Tables, lines: seq<OrderItem>, now: int): (r: (Tables, Result<(), StoreError>))
    requires t.Valid()
    ensures r.0.Valid()
    decreases |lines|
  {
    if lines == [] then (t, Success(()))
    else
      match WithOrderItemInserted(t, lines[0], now)
      case Failure(e) => (t, Failure(e))
      case Success(t1) => WithItemsInserted(t1, lines[1..], now)
  }

  /**
   * The line writes append rows carrying the first lines in order and touch
   * no other table.
   */
  lemma {:induction false} ItemsInsertedShape(t: Tables, lines: seq<OrderItem>, now: int)
    requires t.Valid()
    ensures WithItemsInserted(t, lines, now).0.categories == t.categories
    ensures WithItemsInserted(t, lines, now).0.customers == t.customers
    ensures WithItemsInserted(t, lines, now).0.products == t.products
    ensures WithItemsInserted(t, lines, now).0.orders == t.orders
    ensures Appended(t.orderItems, WithItemsInserted(t, lines, now).0.orderItems, lines)
    decreases |lines|
  {
    if lines != [] {
      var first := WithOrderItemInserted(t, lines[0], now);
      if first.Success? {
        var t1 := first.value;
        ItemsInsertedShape(t1, lines[1..], now);
        AppendedStep(t.orderItems, Row(t.nextOrderItemId, now, lines[0]), WithItemsInserted(t1, lines[1..], now).0.orderItems, lines);
      }
    }
  }

  /**
   * The line writes either write every line or stop at the first line whose
   * order or product does not exist.
   */
  lemma ItemsInsertedOutcome(t: Tables, lines: seq<OrderItem>, now: int)
    requires t.Valid()
    ensures
      var r := WithItemsInserted(t, lines, now);
      r.1.Success? <==> |r.0.orderItems| == |t.orderItems| + |lines|
    ensures
      var r := WithItemsInserted(t, lines, now);
      var k := |r.0.orderItems| - |t.orderItems|;
      r.1.Failure? ==>
        && 0 <= k < |lines|
        && r.1.error == ForeignKeyViolation
        && (lines[k].orderId !in Ids(t.orders) || lines[k].productId !in Ids(t.products))
  {
    ItemsInsertedStop(t, lines, now);
  }

  /**
   * The index of the first line whose order or product is not among the
   * given keys, or the number of lines when there is none.
   */
  function FirstRefused(orderIds: set<int>, productIds: set<int>, lines: seq<OrderItem>): (k: nat)
    ensures k <= |lines|
    ensures forall i :: 0 <= i < k ==> lines[i].orderId in orderIds && lines[i].productId in productIds
    ensures k < |lines| ==> lines[k].orderId !in orderIds || lines[k].productId !in productIds
  {
    if lines == [] then 0
    else if lines[0].orderId !in orderIds || lines[0].productId !in productIds then 0
    else 1 + FirstRefused(orderIds, productIds, lines[1..])
  }

  /** The line writes write exactly the lines before the first refused one. */
  lemma {:induction false} ItemsInsertedStop(t: Tables, lines: seq<OrderItem>, now: int)
    requires t.Valid()
    ensures
      var r := WithItemsInserted(t, lines, now);
      var k := FirstRefused(Ids(t.orders), Ids(t.products), lines);
      && |r.0.orderItems| == |t.orderItems| + k
      && (r.1.Success? <==> k == |lines|)
      && (r.1.Failure? ==> r.1.error == ForeignKeyViolation)
    decreases |lines|
  {
    if lines != [] {
      var first := WithOrderItemInserted(t, lines[0], now);
      if first.Success? {
        var t1 := first.value;
        assert Ids(t1.orders) == Ids(t.orders) && Ids(t1.products) == Ids(t.products);
        ItemsInsertedStop(t1, lines[1..], now);
      }
    }
  }

  datatype Created = Created(id: int, orderNumber: string)

  datatype ApiError = BadRequest(issues: seq<string>) | Internal(cause: StoreError)

  /**
   * Everything `orders.create` does, given the database contents before the
   * call (None: no connection), the caller's user id and the clock reading:
   * the contents after it and the answer.
   */
  function PlaceOrder(store: Option<Tables>, userId: int, req: CreateOrderRequest, clock: nat, now: int)
    : (r: (Option<Tables>, Result<Created, ApiError>))
    requires store.Some? ==> store.value.Valid()
    ensures r.0.Some? ==> r.0.value.Valid()
    ensures ValidateCreateOrder(req).Failure? ==> r == (store, Failure(BadRequest(ValidateCreateOrder(req).error)))
    ensures store.None? ==> r.0 == store && r.1.Failure?
    ensures r.1.Success? ==> store.Some? && r.0.Some? && ValidateCreateOrder(req).Success?
    ensures ValidateCreateOrder(req).Success? && store.Some? && HeaderRefused(store.value, ValidateCreateOrder(req).value, clock) ==>
      r == (store, Failure(Internal(HeaderError(store.value, ValidateCreateOrder(req).value))))
    ensures r.1.Failure? && r.0 != store ==> store.Some? && r.0.Some? && ValidateCreateOrder(req).Success?
  {
    match ValidateCreateOrder(req)
    case Failure(issues) => (store, Failure(BadRequest(issues)))
    case Success(v) =>
      if store.None? then (store, Failure(Internal(Unavailable)))
      else
        var t0 := store.value;
        match WithOrderInserted(t0, Header(v, userId, clock), now)
        case Failure(e) => (store, Failure(Internal(e)))
        case Success(t1) =>
          var id := t0.nextOrderId;
          var w := WithItemsInserted(t1, ItemRows(id, v.items), now);
          if w.1.Success? then (Some(w.0), Success(Created(id, OrderNumber(clock))))
          else (Some(w.0), Failure(Internal(w.1.error)))
  }

  /**
   * What `orders.create` leaves behind: after a success, the complete order
   * (`OrderWritten`); after a failure once the header was accepted, the
   * header and the lines before the first refused one stay (`PartlyWritten`),
   * so the store has changed, and the failure is a foreign-key error.
   */
  lemma PlaceOrderEffect(store: Option<Tables>, userId: int, req: CreateOrderRequest, clock: nat, now: int)
    requires store.Some? ==> store.value.Valid()
    ensures
      var r := PlaceOrder(store, userId, req, clock, now);
      r.1.Success? ==>
        OrderWritten(store.value, r.0.value, userId, ValidateCreateOrder(req).value, clock, now, r.1.value)
    ensures
      var r := PlaceOrder(store, userId, req, clock, now);
      && ValidateCreateOrder(req).Success? && store.Some?
      && !HeaderRefused(store.value, ValidateCreateOrder(req).value, clock)
      && r.1.Failure? ==>
        && r.0.Some? && r.0 != store
        && PartlyWritten(store.value, r.0.value, userId, ValidateCreateOrder(req).value, clock, now)
        && r.1 == Failure(Internal(ForeignKeyViolation))
  {
    if ValidateCreateOrder(req).Success? && store.Some? {
      var v := ValidateCreateOrder(req).value;
      var h := WithOrderInserted(store.value, Header(v, userId, clock), now);
      if h.Success? {
        HeaderThenLines(store.value, h.value, v, userId, clock, now);
        var r := PlaceOrder(store, userId, req, clock, now);
        if r.1.Failure? {
          assert |r.0.value.orders| == |store.value.orders| + 1;
        }
      }
    }
  }

  /**
   * Whether the database takes a checked order: its customer exists, no
   * order carries its number yet, and every line names an existing product.
   */
  predicate OrderAccepted(t: Tables, v: NewOrder, clock: nat) {
    && v.customerId in Ids(t.customers)
    && !NumberTaken(t.orders, OrderNumber(clock))
    && forall i :: 0 <= i < |v.items| ==> v.items[i].productId in Ids(t.products)
  }

  /**
   * `orders.create` succeeds exactly when its input passes the check, there
   * is a connection, and the database takes the order: the customer exists,
   * the order number is free and every line names an existing product.
   */
  lemma PlaceOrderSucceeds(store: Option<Tables>, userId: int, req: CreateOrderRequest, clock: nat, now: int)
    requires store.Some? ==> store.value.Valid()
    ensures PlaceOrder(store, userId, req, clock, now).1.Success? <==>
      ValidateCreateOrder(req).Success? && store.Some? && OrderAccepted(store.value, ValidateCreateOrder(req).value, clock)
  {
    if ValidateCreateOrder(req).Success? && store.Some? {
      var v := ValidateCreateOrder(req).value;
      var h := WithOrderInserted(store.value, Header(v, userId, clock), now);
      if h.Success? {
        HeaderThenLines(store.value, h.value, v, userId, clock, now);
        var r := PlaceOrder(store, userId, req, clock, now);
        if r.1.Failure? {
          assert |r.0.value.orders| == |store.value.orders| + 1;
        }
      }
    }
  }

  /** The database refuses the header: its customer is missing or its number is taken. */
  predicate HeaderRefused(t: Tables, v: NewOrder, clock: nat) {
    v.customerId !in Ids(t.customers) || NumberTaken(t.orders, OrderNumber(clock))
  }

  /** The error a refused header reports: the foreign-key error when the customer is missing, else the duplicate. */
  function HeaderError(t: Tables, v: NewOrder): StoreError {
    if v.customerId !in Ids(t.customers) then ForeignKeyViolation else DuplicateEntry
  }

  /** What the header write followed by the line writes leaves behind, complete or not. */
  lemma HeaderThenLines(t0: Tables, t1: Tables, v: NewOrder, userId: int, clock: nat, now: int)
    requires t0.Valid()
    requires WithOrderInserted(t0, Header(v, userId, clock), now) == Success(t1)
    ensures
      var w := WithItemsInserted(t1, ItemRows(t0.nextOrderId, v.items), now);
      && (w.1.Success? ==> OrderWritten(t0, w.0, userId, v, clock, now, Created(t0.nextOrderId, OrderNumber(clock))))
      && (w.1.Failure? ==> PartlyWritten(t0, w.0, userId, v, clock, now) && w.1.error == ForeignKeyViolation)
      && (w.1.Success? <==> forall i :: 0 <= i < |v.items| ==> v.items[i].productId in Ids(t0.products))
  {
    var id := t0.nextOrderId;
    var items := ItemRows(id, v.items);
    var w := WithItemsInserted(t1, items, now);
    var t2 := w.0;
    ItemsInsertedShape(t1, items, now);
    ItemsInsertedStop(t1, items, now);
    var header := HeaderRow(id, v, userId, clock, now);
    assert t1.orders == t0.orders + [header];
    assert header in t1.orders;
    assert t1.orderItems == t0.orderItems;
    NoLinesForNextOrder(t0);
    FreshOrderLines(t0.orderItems, t2.orderItems, id, v.items);
    LinesResolveExactly(t1, id, v.items, now);
    if w.1.Success? {
      assert |ItemsOfOrder(Some(t2), id)| == |v.items|;
      assert OrderWritten(t0, t2, userId, v, clock, now, Created(id, OrderNumber(clock)));
    } else {
      assert |ItemsOfOrder(Some(t2), id)| < |v.items|;
      assert PartlyWritten(t0, t2, userId, v, clock, now);
    }
  }

  /**
   * Once the order with key `id` exists, its line writes succeed exactly when
   * every requested product exists, and a refusal is a foreign-key error.
   */
  lemma LinesResolveExactly(t: Tables, id: int, items: seq<ItemRequest>, now: int)
    requires t.Valid() && id in Ids(t.orders)
    ensures
      var w := WithItemsInserted(t, ItemRows(id, items), now);
      && (w.1.Success? <==> forall i :: 0 <= i < |items| ==> items[i].productId in Ids(t.products))
      && (w.1.Failure? ==> w.1.error == ForeignKeyViolation)
  {
    var lines := ItemRows(id, items);
    ItemsInsertedStop(t, lines, now);
    var k := FirstRefused(Ids(t.orders), Ids(t.products), lines);
    if k < |items| {
      assert lines[k].productId !in Ids(t.products);
    } else {
      forall i | 0 <= i < |items| ensures items[i].productId in Ids(t.products) {
        assert lines[i].productId in Ids(t.products);
      }
    }
  }

  /**
   * Reading back a freshly created order by its key gives the header that
   * was written, and its lines add up to the header's total.
   */
  lemma PlacedOrderReadBack(store: Option<Tables>, userId: int, req: CreateOrderRequest, clock: nat, now: int)
    requires store.Some? ==> store.value.Valid()
    ensures
      var r := PlaceOrder(store, userId, req, clock, now);
      r.1.Success? ==>
        && OrderById(r.0, r.1.value.id) == Some(HeaderRow(r.1.value.id, ValidateCreateOrder(req).value, userId, clock, now))
        && OrderById(r.0, r.1.value.id).value.data.finalAmount
             == Subtotal(ValidateCreateOrder(req).value.items) - ValidateCreateOrder(req).value.discount
        && LinesTotal(ItemsOfOrder(r.0, r.1.value.id)) == Subtotal(ValidateCreateOrder(req).value.items)
  {
    var r := PlaceOrder(store, userId, req, clock, now);
    if r.1.Success? {
      var before := store.value;
      var after := r.0.value;
      var v := ValidateCreateOrder(req).value;
      var id := r.1.value.id;
      var header := HeaderRow(id, v, userId, clock, now);
      PlaceOrderEffect(store, userId, req, clock, now);
      assert OrderWritten(before, after, userId, v, clock, now, r.1.value);
      assert after.orders == before.orders + [header];
      FindUnique(after.orders, id, |before.orders|);
    }
  }

  /** The header row as it is stored under key `id`. */
  function HeaderRow(id: int, v: NewOrder, userId: int, clock: nat, now: int): Row<Order> {
    Row(id, now, OrderFrom(Header(v, userId, clock)))
  }

  /**
   * After a successful `orders.create`: the answer names the new key and the
   * order number; the order table gained exactly the header row, pending,
   * whose total is the subtotal of the lines and whose final amount is that
   * total minus the discount; the order's lines, read back, are one row per
   * requested line in request order, each a snapshot of the request, and they
   * add up to the header's total. The line table is the old one followed by
   * exactly those rows, and the other tables are untouched.
   */
  ghost predicate OrderWritten(before: Tables, after: Tables, userId: int, v: NewOrder, clock: nat, now: int, c: Created) {
    var header := HeaderRow(before.nextOrderId, v, userId, clock, now);
    var lines := ItemsOfOrder(Some(after), c.id);
    && c == Created(before.nextOrderId, OrderNumber(clock))
    && after.orders == before.orders + [header]
    && header.data.orderNumber == c.orderNumber
    && header.data.status == Pending
    && header.data.totalAmount == Subtotal(v.items)
    && header.data.finalAmount == header.data.totalAmount - v.discount
    && |lines| == |v.items|
    && (forall i :: 0 <= i < |lines| ==> lines[i].data == ItemRow(c.id, v.items[i]))
    && LinesTotal(lines) == header.data.totalAmount
    && |after.orderItems| == |before.orderItems| + |v.items|
    && Appended(before.orderItems, after.orderItems, ItemRows(c.id, v.items))
    && after.categories == before.categories
    && after.customers == before.customers
    && after.products == before.products
  }

  /**
   * After `orders.create` failed on a line: the header row stays, and so do
   * the lines written before the first refused one. The line table is the old
   * one followed by exactly those rows, fewer than requested, and the other
   * tables are untouched.
   */
  ghost predicate PartlyWritten(before: Tables, after: Tables, userId: int, v: NewOrder, clock: nat, now: int) {
    var header := HeaderRow(before.nextOrderId, v, userId, clock, now);
    var lines := ItemRows(before.nextOrderId, v.items);
    var k := FirstRefused(Ids(after.orders), Ids(after.products), lines);
    && after.orders == before.orders + [header]
    && |ItemsOfOrder(Some(after), before.nextOrderId)| < |v.items|
    && k < |v.items|
    && |after.orderItems| == |before.orderItems| + k
    && Appended(before.orderItems, after.orderItems, lines)
    && after.categories == before.categories
    && after.customers == before.customers
    && after.products == before.products
  }

  /** No stored line refers to the key the next order will get. */
  lemma NoLinesForNextOrder(t: Tables)
    requires t.Valid()
    ensures forall x :: x in t.orderItems ==> x.data.orderId != t.nextOrderId
  {
    forall x | x in t.orderItems ensures x.data.orderId != t.nextOrderId {
      assert x.data.orderId in Ids(t.orders);
    }
  }

  /** Behind rows of other orders, the rows appended for order `id` are all that a read of `id` returns. */
  lemma FreshOrderLines(existing: seq<Row<OrderItem>>, after: seq<Row<OrderItem>>, id: int, items: seq<ItemRequest>)
    requires forall x :: x in existing ==> x.data.orderId != id
    requires Appended(existing, after, ItemRows(id, items))
    ensures
      var lines := Filter(after, OfOrder(id));
      && |lines| == |after| - |existing|
      && |lines| <= |items|
      && (forall i :: 0 <= i < |lines| ==> lines[i].data == ItemRow(id, items[i]))
      && (|lines| == |items| ==> LinesTotal(lines) == Subtotal(items))
  {
    var added := after[|existing|..];
    forall i | 0 <= i < |added| ensures added[i].data == ItemRow(id, items[i]) {
      assert added[i] == after[|existing| + i];
    }
    ReadBackIsAppended(existing, added, id);
    assert after == existing + added;
    if |added| == |items| {
      LinesTotalOfWritten(added, id, items);
    }
  }

  lemma ReadBackIsAppended(existing: seq<Row<OrderItem>>, added: seq<Row<OrderItem>>, id: int)
    requires forall x :: x in existing ==> x.data.orderId != id
    requires forall i :: 0 <= i < |added| ==> added[i].data.orderId == id
    ensures Filter(existing + added, OfOrder(id)) == added
  {
    FilterAppend(existing, added, OfOrder(id));
    FilterNone(existing, OfOrder(id));
    FilterAll(added, OfOrder(id));
  }

  // ---------------------------------------------------------------------------
  // The procedures

  /**
   * `orders.create`: check the input, total the lines, stamp the order number,
   * write the header, then write the lines one by one.
   */
  method CreateOrder(db: Database, userId: int, req: CreateOrderRequest, clock: nat, now: int)
    returns (r: Result<Created, ApiError>)
    requires db.Valid()
    modifies db
    ensures db.Valid()
    ensures (db.store, r) == PlaceOrder(old(db.store), userId, req, clock, now)
    ensures r.Success? <==>
      ValidateCreateOrder(req).Success? && old(db.store).Some?
      && OrderAccepted(old(db.store).value, ValidateCreateOrder(req).value, clock)
  {
    ghost var before := db.store;
    PlaceOrderSucceeds(before, userId, req, clock, now);
    var checked := ValidateCreateOrder(req);
    if checked.Failure? {
      return Failure(BadRequest(checked.error));
    }
    var v := checked.value;
    var totalAmount := Subtotal(v.items);
    var finalAmount := totalAmount - v.discount;
    var orderNumber := OrderNumber(clock);
    var header := OrderInsert(orderNumber, v.customerId, userId, Some(Pending), totalAmount, Some(v.discount),
                              finalAmount, v.notes, v.deliveryDate);
    assert header == Header(v, userId, clock);
    var created := db.CreateOrder(header, now);
    if created.Failure? {
      return Failure(Internal(created.error));
    }
    var orderId := created.value;
    ghost var t1 := db.store.value;
    assert before.Some? && WithOrderInserted(before.value, header, now) == Success(t1);
    var written := WriteLines(db, orderId, v.items, now);
    assert (db.store.value, written) == WithItemsInserted(t1, ItemRows(orderId, v.items), now);
    if written.Failure? {
      return Failure(Internal(written.error));
    }
    return Success(Created(orderId, orderNumber));
  }

  /** The loop of `orders.create` that writes one line row per requested line, in request order. */
  method WriteLines(db: Database, orderId: int, items: seq<ItemRequest>, now: int) returns (r: Result<(), StoreError>)
    requires db.Valid() && db.store.Some?
    modifies db
    ensures db.Valid() && db.store.Some?
    ensures (db.store.value, r) == WithItemsInserted(old(db.store).value, ItemRows(orderId, items), now)
  {
    ghost var lines := ItemRows(orderId, items);
    ghost var t1 := db.store.value;
    var i := 0;
    assert lines[0..] == lines;
    while i < |items|
      invariant 0 <= i <= |items|
      invariant db.Valid() && db.store.Some?
      invariant WithItemsInserted(db.store.value, lines[i..], now) == WithItemsInserted(t1, lines, now)
    {
      var item := items[i];
      var line := OrderItem(orderId, item.productId, item.productName, item.quantity, item.unitPrice,
                            item.quantity * item.unitPrice, item.notes);
      assert line == lines[i];
      ghost var before := db.store.value;
      ItemsStep(before, lines[i..], now);
      assert lines[i..][1..] == lines[i + 1..];
      var written := db.CreateOrderItem(line, now);
      if written.Failure? {
        return Failure(written.error);
      }
      i := i + 1;
    }
    assert lines[i..] == [];
    return Success(());
  }

  /** One step of the line writes: the first line either is refused, ending them, or is written. */
  lemma ItemsStep(t: Tables, lines: seq<OrderItem>, now: int)
    requires t.Valid() && lines != []
    ensures
      var first := WithOrderItemInserted(t, lines[0], now);
      && (first.Failure? ==> WithItemsInserted(t, lines, now) == (t, Failure(first.error)))
      && (first.Success? ==> WithItemsInserted(t, lines, now) == WithItemsInserted(first.value, lines[1..], now))
  {
  }

  /**
   * `orders.updateStatus`: an unknown status tag is refused and nothing is
   * written; otherwise the update sets the status column and nothing else.
   */
  method UpdateStatus(db: Database, id: int, status: string) returns (r: Result<(), ApiError>)
    requires db.Valid()
    modifies db
    ensures db.Valid()
    ensures ParseStatus(status).None? ==> r == Failure(BadRequest(["status"])) && db.store == old(db.store)
    ensures ParseStatus(status).Some? && old(db.store).None? ==>
      r == Failure(Internal(Unavailable)) && db.store == old(db.store)
    ensures ParseStatus(status).Some? && old(db.store).Some? ==>
      r == Success(()) && db.store == Some(WithOrderUpdated(old(db.store).value, id, StatusOnly(ParseStatus(status).value)).value)
  {
    var s := ParseStatus(status);
    if s.None? {
      return Failure(BadRequest(["status"]));
    }
    var written := db.UpdateOrder(id, StatusOnly(s.value));
    if written.Failure? {
      return Failure(Internal(written.error));
    }
    r := Success(());
  }

  /**
   * A status update changes the status of the order with that key and
   * nothing else: every other column of that row, every other row and every
   * other table stay as they were; a missing key changes nothing.
   */
  lemma StatusUpdateOnlyStatus(t: Tables, id: int, s: OrderStatus)
    requires t.Valid()
    ensures
      var after := WithOrderUpdated(t, id, StatusOnly(s)).value;
      && |after.orders| == |t.orders|
      && (forall i :: 0 <= i < |t.orders| ==>
            after.orders[i] == if t.orders[i].id == id then t.orders[i].(data := t.orders[i].data.(status := s)) else t.orders[i])
      && after.(orders := t.orders) == t
  {
    var after := WithOrderUpdated(t, id, StatusOnly(s)).value;
    forall i | 0 <= i < |t.orders| && t.orders[i].id == id
      ensures after.orders[i] == t.orders[i].(data := t.orders[i].data.(status := s))
    {
      PatchStatusOnly(t.orders[i].data, s);
    }
  }
}
