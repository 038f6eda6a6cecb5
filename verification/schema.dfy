/**
 * The tables of the back office: their columns, enumerations and defaults,
 * and the constraints the database enforces on them (primary keys, the unique
 * order number, foreign keys). Money columns hold integer cents.
 */
module Schema {
  import opened Wrappers
  import opened Rows

  // ---------------------------------------------------------------------------
  // Enumerations

  /** `orders.status`. */
  datatype OrderStatus = Pending | Confirmed | Processing | Completed | Cancelled

  function StatusTag(s: OrderStatus): string {
    match s
    case Pending => "pending"
    case Confirmed => "confirmed"
    case Processing => "processing"
    case Completed => "completed"
    case Cancelled => "cancelled"
  }

  /** Reads a status tag; anything outside the five tags is rejected. */
  function ParseStatus(tag: string): (r: Option<OrderStatus>)
    ensures r.Some? ==> StatusTag(r.value) == tag
    ensures r.None? ==> forall s :: StatusTag(s) != tag
  {
    if tag == "pending" then Some(Pending)
    else if tag == "confirmed" then Some(Confirmed)
    else if tag == "processing" then Some(Processing)
    else if tag == "completed" then Some(Completed)
    else if tag == "cancelled" then Some(Cancelled)
    else None
  }

  /** `products.type`. */
  datatype ProductType = PhysicalProduct | Service

  function TypeTag(k: ProductType): string {
    match k
    case PhysicalProduct => "product"
    case Service => "service"
  }

  function ParseType(tag: string): (r: Option<ProductType>)
    ensures r.Some? ==> TypeTag(r.value) == tag
    ensures r.None? ==> forall k :: TypeTag(k) != tag
  {
    if tag == "product" then Some(PhysicalProduct)
    else if tag == "service" then Some(Service)
    else None
  }

  // ---------------------------------------------------------------------------
  // Column defaults

  const DefaultStatus: OrderStatus := Pending
  const DefaultDiscount: int := 0
  const DefaultType: ProductType := PhysicalProduct
  const DefaultUnit: string := "un"
  const DefaultActive: bool := true

  function OrDefault<T>(o: Option<T>, d: T): T {
    match o
    case Some(v) => v
    case None => d
  }

  // ---------------------------------------------------------------------------
  // Columns of each table (besides `id` and `createdAt`, which `Row` carries)

  datatype Category = Category(name: string, description: Option<string>)

  datatype Customer = Customer(
    name: string,
    email: Option<string>,
    phone: Option<string>,
    document: Option<string>,
    address: Option<string>,
    city: Option<string>,
    state: Option<string>,
    zipCode: Option<string>,
    notes: Option<string>,
    active: bool)

  datatype Product = Product(
    name: string,
    description: Option<string>,
    sku: Option<string>,
    categoryId: Option<int>,
    kind: ProductType,
    price: int,
    unit: string,
    active: bool)

  datatype Order = Order(
    orderNumber: string,
    customerId: int,
    userId: int,
    status: OrderStatus,
    totalAmount: int,
    discount: int,
    finalAmount: int,
    notes: Option<string>,
    deliveryDate: Option<int>)

  datatype OrderItem = OrderItem(
    orderId: int,
    productId: int,
    productName: string,
    quantity: int,
    unitPrice: int,
    totalPrice: int,
    notes: Option<string>)

  // ---------------------------------------------------------------------------
  // Insert shapes: a column with a default may be left out of an insert

  datatype CustomerInsert = CustomerInsert(
    name: string,
    email: Option<string>,
    phone: Option<string>,
    document: Option<string>,
    address: Option<string>,
    city: Option<string>,
    state: Option<string>,
    zipCode: Option<string>,
    notes: Option<string>,
    active: Option<bool>)

  datatype ProductInsert = ProductInsert(
    name: string,
    description: Option<string>,
    sku: Option<string>,
    categoryId: Option<int>,
    kind: Option<ProductType>,
    price: int,
    unit: Option<string>,
    active: Option<bool>)

  datatype OrderInsert = OrderInsert(
    orderNumber: string,
    customerId: int,
    userId: int,
    status: Option<OrderStatus>,
    totalAmount: int,
    discount: Option<int>,
    finalAmount: int,
    notes: Option<string>,
    deliveryDate: Option<int>)

  /** The stored customer: `active` falls back to its default. */
  function CustomerFrom(c: CustomerInsert): Customer {
    Customer(c.name, c.email, c.phone, c.document, c.address, c.city, c.state, c.zipCode, c.notes,
             OrDefault(c.active, DefaultActive))
  }

  /** The stored product: `type`, `unit` and `active` fall back to their defaults. */
  function ProductFrom(p: ProductInsert): Product {
    Product(p.name, p.description, p.sku, p.categoryId, OrDefault(p.kind, DefaultType), p.price,
            OrDefault(p.unit, DefaultUnit), OrDefault(p.active, DefaultActive))
  }

  /** The stored order: `status` and `discount` fall back to their defaults. */
  function OrderFrom(o: OrderInsert): Order {
    Order(o.orderNumber, o.customerId, o.userId, OrDefault(o.status, DefaultStatus), o.totalAmount,
          OrDefault(o.discount, DefaultDiscount), o.finalAmount, o.notes, o.deliveryDate)
  }

  /** Columns left out of an insert take the schema's defaults; supplied ones are kept. */
  lemma DefaultsApplied(c: CustomerInsert, p: ProductInsert, o: OrderInsert)
    ensures CustomerFrom(c).active == (c.active != Some(false))
    ensures p.kind.None? ==> ProductFrom(p).kind == PhysicalProduct
    ensures p.unit.None? ==> ProductFrom(p).unit == "un"
    ensures ProductFrom(p).active == (p.active != Some(false))
    ensures o.status.None? ==> OrderFrom(o).status == Pending
    ensures o.discount.None? ==> OrderFrom(o).discount == 0
    ensures p.kind.Some? ==> ProductFrom(p).kind == p.kind.value
    ensures p.unit.Some? ==> ProductFrom(p).unit == p.unit.value
    ensures o.status.Some? ==> OrderFrom(o).status == o.status.value
    ensures o.discount.Some? ==> OrderFrom(o).discount == o.discount.value
    ensures OrderFrom(o).totalAmount == o.totalAmount && OrderFrom(o).finalAmount == o.finalAmount
  {
  }

  // ---------------------------------------------------------------------------
  // The database and its constraints

  /** Every key is a positive autoincrement value below the table's counter, in insertion order. */
  predicate KeyedBelow<T(==,!new)>(s: seq<Row<T>>, next: int) {
    && 1 <= next
    && KeysIncreasing(s)
    && forall r :: r in s ==> 1 <= r.id < next
  }

  /** `orders.orderNumber` is `unique()`. */
  predicate UniqueOrderNumbers(orders: seq<Row<Order>>) {
    forall a, b :: a in orders && b in orders && a.data.orderNumber == b.data.orderNumber ==> a.id == b.id
  }

  /** `products.categoryId` references `categories.id` (the column may be null). */
  predicate CategoryRefs(products: seq<Row<Product>>, categories: seq<Row<Category>>) {
    forall p :: p in products && p.data.categoryId.Some? ==> p.data.categoryId.value in Ids(categories)
  }

  /** `orders.customerId` references `customers.id`. */
  predicate CustomerRefs(orders: seq<Row<Order>>, customers: seq<Row<Customer>>) {
    forall o :: o in orders ==> o.data.customerId in Ids(customers)
  }

  /** `orderItems.orderId` references `orders.id` and `orderItems.productId` references `products.id`. */
  predicate ItemRefs(items: seq<Row<OrderItem>>, orders: seq<Row<Order>>, products: seq<Row<Product>>) {
    forall it :: it in items ==> it.data.orderId in Ids(orders) && it.data.productId in Ids(products)
  }

  /**
   * The contents of all five tables and their autoincrement counters (the key
   * the next insert receives).
   */
  datatype Tables = Tables(
    categories: seq<Row<Category>>,
    customers: seq<Row<Customer>>,
    products: seq<Row<Product>>,
    orders: seq<Row<Order>>,
    orderItems: seq<Row<OrderItem>>,
    nextCategoryId: int,
    nextCustomerId: int,
    nextProductId: int,
    nextOrderId: int,
    nextOrderItemId: int)
  {
    /** Foreign keys: every reference names an existing row. */
    predicate ReferencesResolve() {
      && CategoryRefs(products, categories)
      && CustomerRefs(orders, customers)
      && ItemRefs(orderItems, orders, products)
    }

    /** What the database guarantees of its contents at all times. */
    predicate Valid() {
      && KeyedBelow(categories, nextCategoryId)
      && KeyedBelow(customers, nextCustomerId)
      && KeyedBelow(products, nextProductId)
      && KeyedBelow(orders, nextOrderId)
      && KeyedBelow(orderItems, nextOrderItemId)
      && UniqueOrderNumbers(orders)
      && ReferencesResolve()
    }
  }

  /** A freshly created database: every table empty, every counter at 1. */
  function EmptyTables(): (t: Tables)
    ensures t.Valid()
    ensures t.categories == [] && t.customers == [] && t.products == [] && t.orders == [] && t.orderItems == []
  {
    Tables([], [], [], [], [], 1, 1, 1, 1, 1)
  }

  /** Appending a row under the counter's key keeps the keys in order and adds exactly that key. */
  lemma AppendKeyed<T(!new)>(s: seq<Row<T>>, next: int, row: Row<T>)
    requires KeyedBelow(s, next) && row.id == next
    ensures next !in Ids(s)
    ensures KeyedBelow(s + [row], next + 1)
    ensures Ids(s + [row]) == Ids(s) + {next}
  {
    var s' := s + [row];
    forall x | x in Ids(s') ensures x in Ids(s) + {next} {
      var r :| r in s' && r.id == x;
    }
    forall x | x in Ids(s) + {next} ensures x in Ids(s') {
      if x != next {
        var r :| r in s && r.id == x;
        assert r in s';
      } else {
        assert row in s';
      }
    }
  }

  /** Rewriting columns keeps every key where it was. */
  lemma UpdateKeyed<T(!new)>(s: seq<Row<T>>, next: int, id: int, f: T -> T)
    requires KeyedBelow(s, next)
    ensures KeyedBelow(UpdateWhere(s, id, f), next)
    ensures Ids(UpdateWhere(s, id, f)) == Ids(s)
  {
    var r := UpdateWhere(s, id, f);
    UpdateKeepsKeys(s, id, f);
    forall x | x in r ensures 1 <= x.id < next {
      var i :| 0 <= i < |r| && r[i] == x;
      assert s[i] in s;
    }
  }

  /** A table whose rows kept their keys, position by position, is keyed as before. */
  lemma SameKeysKeyed<T(!new)>(s: seq<Row<T>>, r: seq<Row<T>>, next: int)
    requires KeyedBelow(s, next)
    requires |r| == |s| && forall i :: 0 <= i < |s| ==> r[i].id == s[i].id
    ensures KeyedBelow(r, next)
    ensures Ids(r) == Ids(s)
  {
    forall x | x in r ensures 1 <= x.id < next {
      var i :| 0 <= i < |r| && r[i] == x;
      assert s[i] in s;
    }
    forall k | k in Ids(r) ensures k in Ids(s) {
      var x :| x in r && x.id == k;
      var i :| 0 <= i < |r| && r[i] == x;
      assert s[i] in s;
    }
    forall k | k in Ids(s) ensures k in Ids(r) {
      var x :| x in s && x.id == k;
      var i :| 0 <= i < |s| && s[i] == x;
      assert r[i] in r;
    }
  }

  /** Deleting rows keeps the remaining keys in order and under the counter. */
  lemma WithoutKeyed<T(!new)>(s: seq<Row<T>>, next: int, id: int)
    requires KeyedBelow(s, next)
    ensures KeyedBelow(Without(s, id), next)
    ensures Ids(Without(s, id)) == Ids(s) - {id}
  {
    WithoutIds(s, id);
  }
}
