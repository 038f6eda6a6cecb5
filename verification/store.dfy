/**
 * The write side of the data-access layer: `create*`, `update*` and `delete*`
 * for each table. Each write is first stated as a transition on the tables
 * (a function, so that lemmas can speak about it) and then performed in place
 * by a method of `Database`, which also fails when there is no connection.
 */
module Store {
  import opened Wrappers
  import opened Rows
  import opened Schema

  /** Why a write did not happen. */
  datatype StoreError =
    | Unavailable           // no database handle: every write throws
    | ForeignKeyViolation   // a reference names no row, or a deleted row is still referenced
    | DuplicateEntry        // a second order with the same order number

  // ---------------------------------------------------------------------------
  // Partial updates: a field that is present is written, an absent one is kept

  datatype CategoryPatch = CategoryPatch(name: Option<string>, description: Option<string>)

  datatype CustomerPatch = CustomerPatch(
    name: Option<string>,
    email: Option<string>,
    phone: Option<string>,
    document: Option<string>,
    address: Option<string>,
    city: Option<string>,
    state: Option<string>,
    zipCode: Option<string>,
    notes: Option<string>,
    active: Option<bool>)

  datatype ProductPatch = ProductPatch(
    name: Option<string>,
    description: Option<string>,
    sku: Option<string>,
    categoryId: Option<int>,
    kind: Option<ProductType>,
    price: Option<int>,
    unit: Option<string>,
    active: Option<bool>)

  datatype OrderPatch = OrderPatch(
    orderNumber: Option<string>,
    customerId: Option<int>,
    userId: Option<int>,
    status: Option<OrderStatus>,
    totalAmount: Option<int>,
    discount: Option<int>,
    finalAmount: Option<int>,
    notes: Option<string>,
    deliveryDate: Option<int>)

  /** The patch `orders.updateStatus` sends: the status and nothing else. */
  function StatusOnly(s: OrderStatus): OrderPatch {
    OrderPatch(None, None, None, Some(s), None, None, None, None, None)
  }

  /** A supplied value replaces a nullable column; an absent one leaves it. */
  function Keep<T>(current: Option<T>, supplied: Option<T>): Option<T> {
    if supplied.Some? then supplied else current
  }

  function PatchCategory(c: Category, p: CategoryPatch): Category {
    Category(OrDefault(p.name, c.name), Keep(c.description, p.description))
  }

  function PatchCustomer(c: Customer, p: CustomerPatch): Customer {
    Customer(OrDefault(p.name, c.name), Keep(c.email, p.email), Keep(c.phone, p.phone),
             Keep(c.document, p.document), Keep(c.address, p.address), Keep(c.city, p.city),
             Keep(c.state, p.state), Keep(c.zipCode, p.zipCode), Keep(c.notes, p.notes),
             OrDefault(p.active, c.active))
  }

  function PatchProduct(d: Product, p: ProductPatch): Product {
    Product(OrDefault(p.name, d.name), Keep(d.description, p.description), Keep(d.sku, p.sku),
            Keep(d.categoryId, p.categoryId), OrDefault(p.kind, d.kind), OrDefault(p.price, d.price),
            OrDefault(p.unit, d.unit), OrDefault(p.active, d.active))
  }

  function PatchOrder(o: Order, p: OrderPatch): Order {
    Order(OrDefault(p.orderNumber, o.orderNumber), OrDefault(p.customerId, o.customerId),
          OrDefault(p.userId, o.userId), OrDefault(p.status, o.status),
          OrDefault(p.totalAmount, o.totalAmount), OrDefault(p.discount, o.discount),
          OrDefault(p.finalAmount, o.finalAmount), Keep(o.notes, p.notes),
          Keep(o.deliveryDate, p.deliveryDate))
  }

  /** Applying the same patch twice is the same as applying it once. */
  lemma PatchIdempotent(c: Customer, cp: CustomerPatch, d: Product, pp: ProductPatch)
    ensures PatchCustomer(PatchCustomer(c, cp), cp) == PatchCustomer(c, cp)
    ensures PatchProduct(PatchProduct(d, pp), pp) == PatchProduct(d, pp)
  {
  }

  /** A status-only patch changes the status and no other column of an order. */
  lemma PatchStatusOnly(o: Order, s: OrderStatus)
    ensures PatchOrder(o, StatusOnly(s)) == o.(status := s)
  {
  }

  /** A patch that sets no field changes nothing. */
  lemma EmptyPatchIdentity(c: Customer)
    ensures PatchCustomer(c, CustomerPatch(None, None, None, None, None, None, None, None, None, None)) == c
  {
  }

  /** The categories after `UPDATE ... WHERE id = ?`: only rows with that key take the patch. */
  function PatchedCategories(s: seq<Row<Category>>, id: int, p: CategoryPatch): (r: seq<Row<Category>>)
    ensures |r| == |s|
    ensures forall i :: 0 <= i < |s| ==>
      r[i] == if s[i].id == id then s[i].(data := PatchCategory(s[i].data, p)) else s[i]
    ensures id !in Ids(s) ==> r == s
  {
    var f := (c: Category) => PatchCategory(c, p);
    if id !in Ids(s) then UpdateMissing(s, id, f); s else UpdateWhere(s, id, f)
  }

  /** The customers after `UPDATE ... WHERE id = ?`. */
  function PatchedCustomers(s: seq<Row<Customer>>, id: int, p: CustomerPatch): (r: seq<Row<Customer>>)
    ensures |r| == |s|
    ensures forall i :: 0 <= i < |s| ==>
      r[i] == if s[i].id == id then s[i].(data := PatchCustomer(s[i].data, p)) else s[i]
    ensures id !in Ids(s) ==> r == s
  {
    var f := (c: Customer) => PatchCustomer(c, p);
    if id !in Ids(s) then UpdateMissing(s, id, f); s else UpdateWhere(s, id, f)
  }

  /** The products after `UPDATE ... WHERE id = ?`. */
  function PatchedProducts(s: seq<Row<Product>>, id: int, p: ProductPatch): (r: seq<Row<Product>>)
    ensures |r| == |s|
    ensures forall i :: 0 <= i < |s| ==>
      r[i] == if s[i].id == id then s[i].(data := PatchProduct(s[i].data, p)) else s[i]
    ensures id !in Ids(s) ==> r == s
  {
    var f := (d: Product) => PatchProduct(d, p);
    if id !in Ids(s) then UpdateMissing(s, id, f); s else UpdateWhere(s, id, f)
  }

  /** The orders after `UPDATE ... WHERE id = ?`. */
  function PatchedOrders(s: seq<Row<Order>>, id: int, p: OrderPatch): (r: seq<Row<Order>>)
    ensures |r| == |s|
    ensures forall i :: 0 <= i < |s| ==>
      r[i] == if s[i].id == id then s[i].(data := PatchOrder(s[i].data, p)) else s[i]
    ensures id !in Ids(s) ==> r == s
  {
    var f := (o: Order) => PatchOrder(o, p);
    if id !in Ids(s) then UpdateMissing(s, id, f); s else UpdateWhere(s, id, f)
  }

  // ---------------------------------------------------------------------------
  // Transitions on the tables

  /** `createCategory`: append a row under the next key. */
  function WithCategoryInserted(t: Tables, c: Category, now: int): (r: Tables)
    requires t.Valid()
    ensures r.Valid()
    ensures t.nextCategoryId !in Ids(t.categories)
    ensures r.categories == t.categories + [Row(t.nextCategoryId, now, c)]
    ensures r.(categories := t.categories, nextCategoryId := t.nextCategoryId) == t
  {
    var row := Row(t.nextCategoryId, now, c);
    AppendKeyed(t.categories, t.nextCategoryId, row);
    var r := t.(categories := t.categories + [row], nextCategoryId := t.nextCategoryId + 1);
    assert CategoryRefs(r.products, r.categories);
    r
  }

  /** `updateCategory`: patch the row with key `id`; a missing key changes nothing. */
  function WithCategoryUpdated(t: Tables, id: int, p: CategoryPatch): (r: Tables)
    requires t.Valid()
    ensures r.Valid()
    ensures r.categories == PatchedCategories(t.categories, id, p)
    ensures r.(categories := t.categories) == t
  {
    var cs := PatchedCategories(t.categories, id, p);
    SameKeysKeyed(t.categories, cs, t.nextCategoryId);
    var r := t.(categories := cs);
    assert CategoryRefs(r.products, r.categories);
    r
  }

  /** Some product is filed under category `id`. */
  predicate CategoryInUse(products: seq<Row<Product>>, id: int) {
    exists p :: p in products && p.data.categoryId == Some(id)
  }

  /**
   * `deleteCategory`: remove the row with key `id`. The foreign key from
   * products has no `ON DELETE` rule, so a category still in use is not deleted.
   */
  function WithCategoryDeleted(t: Tables, id: int): (r: Result<Tables, StoreError>)
    requires t.Valid()
    ensures r.Failure? <==> CategoryInUse(t.products, id)
    ensures r.Failure? ==> r.error == ForeignKeyViolation
    ensures r.Success? ==> r.value.Valid()
    ensures r.Success? ==> forall x :: x in r.value.categories <==> x in t.categories && x.id != id
    ensures r.Success? ==> r.value.(categories := t.categories) == t
  {
    if CategoryInUse(t.products, id) then Failure(ForeignKeyViolation)
    else
      WithoutKeyed(t.categories, t.nextCategoryId, id);
      var r := t.(categories := Without(t.categories, id));
      assert CategoryRefs(r.products, r.categories);
      Success(r)
  }

  /** `createCustomer`: append a row under the next key, with `active` defaulted. */
  function WithCustomerInserted(t: Tables, c: CustomerInsert, now: int): (r: Tables)
    requires t.Valid()
    ensures r.Valid()
    ensures t.nextCustomerId !in Ids(t.customers)
    ensures r.customers == t.customers + [Row(t.nextCustomerId, now, CustomerFrom(c))]
    ensures r.(customers := t.customers, nextCustomerId := t.nextCustomerId) == t
  {
    var row := Row(t.nextCustomerId, now, CustomerFrom(c));
    AppendKeyed(t.customers, t.nextCustomerId, row);
    var r := t.(customers := t.customers + [row], nextCustomerId := t.nextCustomerId + 1);
    assert CustomerRefs(r.orders, r.customers);
    r
  }

  /** `updateCustomer`: patch the row with key `id`; a missing key changes nothing. */
  function WithCustomerUpdated(t: Tables, id: int, p: CustomerPatch): (r: Tables)
    requires t.Valid()
    ensures r.Valid()
    ensures r.customers == PatchedCustomers(t.customers, id, p)
    ensures r.(customers := t.customers) == t
  {
    var cs := PatchedCustomers(t.customers, id, p);
    SameKeysKeyed(t.customers, cs, t.nextCustomerId);
    var r := t.(customers := cs);
    assert CustomerRefs(r.orders, r.customers);
    r
  }

  /** Some order was placed by customer `id`. */
  predicate CustomerInUse(orders: seq<Row<Order>>, id: int) {
    exists o :: o in orders && o.data.customerId == id
  }

  /** `deleteCustomer`: a customer with orders is not deleted (no cascade on `orders.customerId`). */
  function WithCustomerDeleted(t: Tables, id: int): (r: Result<Tables, StoreError>)
    requires t.Valid()
    ensures r.Failure? <==> CustomerInUse(t.orders, id)
    ensures r.Failure? ==> r.error == ForeignKeyViolation
    ensures r.Success? ==> r.value.Valid()
    ensures r.Success? ==> forall x :: x in r.value.customers <==> x in t.customers && x.id != id
    ensures r.Success? ==> r.value.(customers := t.customers) == t
  {
    if CustomerInUse(t.orders, id) then Failure(ForeignKeyViolation)
    else
      WithoutKeyed(t.customers, t.nextCustomerId, id);
      var r := t.(customers := Without(t.customers, id));
      assert CustomerRefs(r.orders, r.customers);
      Success(r)
  }

  /** A product's category reference is null or names an existing category. */
  predicate CategoryResolves(t: Tables, categoryId: Option<int>) {
    categoryId.Some? ==> categoryId.value in Ids(t.categories)
  }

  /** `createProduct`: rejected when its category does not exist. */
  function WithProductInserted(t: Tables, p: ProductInsert, now: int): (r: Result<Tables, StoreError>)
    requires t.Valid()
    ensures r.Failure? <==> !CategoryResolves(t, p.categoryId)
    ensures r.Failure? ==> r.error == ForeignKeyViolation
    ensures r.Success? ==> r.value.Valid()
    ensures r.Success? ==> t.nextProductId !in Ids(t.products)
    ensures r.Success? ==> r.value.products == t.products + [Row(t.nextProductId, now, ProductFrom(p))]
    ensures r.Success? ==> r.value.(products := t.products, nextProductId := t.nextProductId) == t
  {
    if !CategoryResolves(t, p.categoryId) then Failure(ForeignKeyViolation)
    else
      var row := Row(t.nextProductId, now, ProductFrom(p));
      AppendKeyed(t.products, t.nextProductId, row);
      var r := t.(products := t.products + [row], nextProductId := t.nextProductId + 1);
      assert CategoryRefs(r.products, r.categories);
      assert ItemRefs(r.orderItems, r.orders, r.products);
      Success(r)
  }

  /**
   * `updateProduct`: patch the row with key `id`; rejected when the row exists
   * and the patch points it at a missing category; a missing key changes nothing.
   */
  function WithProductUpdated(t: Tables, id: int, p: ProductPatch): (r: Result<Tables, StoreError>)
    requires t.Valid()
    ensures r.Failure? <==> id in Ids(t.products) && !CategoryResolves(t, p.categoryId)
    ensures r.Failure? ==> r.error == ForeignKeyViolation
    ensures r.Success? ==> r.value.Valid()
    ensures r.Success? ==> r.value.products == PatchedProducts(t.products, id, p)
    ensures r.Success? ==> r.value.(products := t.products) == t
  {
    if id in Ids(t.products) && !CategoryResolves(t, p.categoryId) then
      Failure(ForeignKeyViolation)
    else
      UpdateProductValid(t, id, p);
      Success(t.(products := PatchedProducts(t.products, id, p)))
  }

  lemma UpdateProductValid(t: Tables, id: int, p: ProductPatch)
    requires t.Valid()
    requires id in Ids(t.products) ==> CategoryResolves(t, p.categoryId)
    ensures t.(products := PatchedProducts(t.products, id, p)).Valid()
  {
    var ps := PatchedProducts(t.products, id, p);
    SameKeysKeyed(t.products, ps, t.nextProductId);
    forall x | x in ps && x.data.categoryId.Some? ensures x.data.categoryId.value in Ids(t.categories) {
      var i :| 0 <= i < |ps| && ps[i] == x;
      assert t.products[i] in t.products;
      if t.products[i].id == id {
        assert id in Ids(t.products);
      }
    }
  }

  /** Some order item refers to product `id`. */
  predicate ProductInUse(items: seq<Row<OrderItem>>, id: int) {
    exists it :: it in items && it.data.productId == id
  }

  /** `deleteProduct`: a product named by an order item is not deleted (no cascade on `orderItems.productId`). */
  function WithProductDeleted(t: Tables, id: int): (r: Result<Tables, StoreError>)
    requires t.Valid()
    ensures r.Failure? <==> ProductInUse(t.orderItems, id)
    ensures r.Failure? ==> r.error == ForeignKeyViolation
    ensures r.Success? ==> r.value.Valid()
    ensures r.Success? ==> forall x :: x in r.value.products <==> x in t.products && x.id != id
    ensures r.Success? ==> r.value.(products := t.products) == t
  {
    if ProductInUse(t.orderItems, id) then Failure(ForeignKeyViolation)
    else
      WithoutKeyed(t.products, t.nextProductId, id);
      var r := t.(products := Without(t.products, id));
      assert CategoryRefs(r.products, r.categories);
      assert ItemRefs(r.orderItems, r.orders, r.products);
      Success(r)
  }

  /** Some order already carries this order number. */
  predicate NumberTaken(orders: seq<Row<Order>>, orderNumber: string) {
    exists o :: o in orders && o.data.orderNumber == orderNumber
  }

  /**
   * `createOrder`: append the header under the next key. Rejected when the
   * customer does not exist, or when the order number is already used.
   */
  function WithOrderInserted(t: Tables, o: OrderInsert, now: int): (r: Result<Tables, StoreError>)
    requires t.Valid()
    ensures r.Failure? <==> o.customerId !in Ids(t.customers) || NumberTaken(t.orders, o.orderNumber)
    ensures r.Failure? ==> r.error == if o.customerId !in Ids(t.customers) then ForeignKeyViolation else DuplicateEntry
    ensures r.Success? ==> r.value.Valid()
    ensures r.Success? ==> t.nextOrderId !in Ids(t.orders)
    ensures r.Success? ==> r.value.orders == t.orders + [Row(t.nextOrderId, now, OrderFrom(o))]
    ensures r.Success? ==> r.value.(orders := t.orders, nextOrderId := t.nextOrderId) == t
  {
    if o.customerId !in Ids(t.customers) then Failure(ForeignKeyViolation)
    else if NumberTaken(t.orders, o.orderNumber) then Failure(DuplicateEntry)
    else
      var row := Row(t.nextOrderId, now, OrderFrom(o));
      InsertOrderValid(t, row);
      Success(t.(orders := t.orders + [row], nextOrderId := t.nextOrderId + 1))
  }

  lemma InsertOrderValid(t: Tables, row: Row<Order>)
    requires t.Valid() && row.id == t.nextOrderId
    requires row.data.customerId in Ids(t.customers) && !NumberTaken(t.orders, row.data.orderNumber)
    ensures t.nextOrderId !in Ids(t.orders)
    ensures t.(orders := t.orders + [row], nextOrderId := t.nextOrderId + 1).Valid()
  {
    var os := t.orders + [row];
    AppendKeyed(t.orders, t.nextOrderId, row);
    assert CustomerRefs(os, t.customers) by {
      forall x | x in os ensures x.data.customerId in Ids(t.customers) {
        if x != row {
          assert x in t.orders;
        }
      }
    }
    assert ItemRefs(t.orderItems, os, t.products) by {
      forall x | x in t.orderItems ensures x.data.orderId in Ids(os) {
        assert x.data.orderId in Ids(t.orders);
      }
    }
    assert UniqueOrderNumbers(os) by {
      assert forall x :: x in t.orders ==> x.data.orderNumber != row.data.orderNumber;
      assert forall x :: x in os ==> x in t.orders || x == row;
    }
  }

  /** An order other than the one with key `id` carries this order number. */
  predicate NumberTakenByOther(orders: seq<Row<Order>>, id: int, orderNumber: string) {
    exists o :: o in orders && o.id != id && o.data.orderNumber == orderNumber
  }

  /** The patch names a customer that does not exist. */
  predicate PatchCustomerMissing(t: Tables, p: OrderPatch) {
    p.customerId.Some? && p.customerId.value !in Ids(t.customers)
  }

  /** The patch gives the order a number another order already carries. */
  predicate PatchNumberTaken(t: Tables, id: int, p: OrderPatch) {
    p.orderNumber.Some? && NumberTakenByOther(t.orders, id, p.orderNumber.value)
  }

  /**
   * `updateOrder`: patch the row with key `id`; a missing key changes nothing.
   * When the row exists, a patch naming a missing customer is refused by the
   * foreign key, and one giving the order another order's number by the
   * unique index.
   */
  function WithOrderUpdated(t: Tables, id: int, p: OrderPatch): (r: Result<Tables, StoreError>)
    requires t.Valid()
    ensures r.Failure? <==> id in Ids(t.orders) && (PatchCustomerMissing(t, p) || PatchNumberTaken(t, id, p))
    ensures r.Failure? ==> r.error == if PatchCustomerMissing(t, p) then ForeignKeyViolation else DuplicateEntry
    ensures r.Success? ==> r.value.Valid()
    ensures r.Success? ==> r.value.orders == PatchedOrders(t.orders, id, p)
    ensures r.Success? ==> r.value.(orders := t.orders) == t
  {
    if id in Ids(t.orders) && PatchCustomerMissing(t, p) then Failure(ForeignKeyViolation)
    else if id in Ids(t.orders) && PatchNumberTaken(t, id, p) then Failure(DuplicateEntry)
    else
      UpdateOrderValid(t, id, p);
      Success(t.(orders := PatchedOrders(t.orders, id, p)))
  }

  lemma UpdateOrderValid(t: Tables, id: int, p: OrderPatch)
    requires t.Valid()
    requires id in Ids(t.orders) ==> !PatchCustomerMissing(t, p) && !PatchNumberTaken(t, id, p)
    ensures t.(orders := PatchedOrders(t.orders, id, p)).Valid()
  {
    var os := PatchedOrders(t.orders, id, p);
    SameKeysKeyed(t.orders, os, t.nextOrderId);
    PatchedOrdersKeepCustomers(t, id, p);
    PatchedOrdersKeepNumbersUnique(t, id, p);
    assert ItemRefs(t.orderItems, os, t.products);
  }

  /** After an accepted patch every order still names an existing customer. */
  lemma PatchedOrdersKeepCustomers(t: Tables, id: int, p: OrderPatch)
    requires t.Valid()
    requires id in Ids(t.orders) ==> !PatchCustomerMissing(t, p)
    ensures CustomerRefs(PatchedOrders(t.orders, id, p), t.customers)
  {
    var os := PatchedOrders(t.orders, id, p);
    forall x | x in os ensures x.data.customerId in Ids(t.customers) {
      var i :| 0 <= i < |os| && os[i] == x;
      assert t.orders[i] in t.orders;
    }
  }

  /** After an accepted patch no two orders share an order number. */
  lemma PatchedOrdersKeepNumbersUnique(t: Tables, id: int, p: OrderPatch)
    requires t.Valid()
    requires id in Ids(t.orders) ==> !PatchNumberTaken(t, id, p)
    ensures UniqueOrderNumbers(PatchedOrders(t.orders, id, p))
  {
    var s := t.orders;
    var os := PatchedOrders(s, id, p);
    forall a, b | a in os && b in os && a.data.orderNumber == b.data.orderNumber ensures a.id == b.id {
      var i :| 0 <= i < |os| && os[i] == a;
      var j :| 0 <= j < |os| && os[j] == b;
      assert s[i] in s && s[j] in s;
      assert os[i].id == s[i].id && os[j].id == s[j].id;
      if p.orderNumber.Some? && (s[i].id == id || s[j].id == id) {
        assert id in Ids(s);
        assert forall x :: x in s && x.id != id ==> x.data.orderNumber != p.orderNumber.value;
      }
    }
  }

  /**
   * `deleteOrder`: remove the header with key `id` and, by the `ON DELETE
   * CASCADE` rule of `orderItems.orderId`, every item of that order.
   */
  function WithOrderDeleted(t: Tables, id: int): (r: Tables)
    requires t.Valid()
    ensures r.Valid()
    ensures forall x :: x in r.orders <==> x in t.orders && x.id != id
    ensures forall x :: x in r.orderItems <==> x in t.orderItems && x.data.orderId != id
    ensures r.(orders := t.orders, orderItems := t.orderItems) == t
  {
    DeleteOrderValid(t, id);
    t.(orders := Without(t.orders, id), orderItems := Filter(t.orderItems, OutsideOrder(id)))
  }

  /** The items the cascade of deleting order `id` leaves in place. */
  function OutsideOrder(id: int): Row<OrderItem> -> bool {
    (x: Row<OrderItem>) => x.data.orderId != id
  }

  lemma DeleteOrderValid(t: Tables, id: int)
    requires t.Valid()
    ensures t.(orders := Without(t.orders, id), orderItems := Filter(t.orderItems, OutsideOrder(id))).Valid()
  {
    var os := Without(t.orders, id);
    var items := Filter(t.orderItems, OutsideOrder(id));
    WithoutKeyed(t.orders, t.nextOrderId, id);
    FilterKeysIncreasing(t.orderItems, OutsideOrder(id));
    assert forall x :: x in os ==> x in t.orders;
    assert forall x :: x in items ==> x in t.orderItems && x.data.orderId != id;
    assert KeyedBelow(items, t.nextOrderItemId);
    assert CustomerRefs(os, t.customers);
    assert ItemRefs(items, os, t.products);
    assert UniqueOrderNumbers(os);
  }

  /** `createOrderItem`: rejected when the order or the product does not exist. */
  function WithOrderItemInserted(t: Tables, it: OrderItem, now: int): (r: Result<Tables, StoreError>)
    requires t.Valid()
    ensures r.Failure? <==> it.orderId !in Ids(t.orders) || it.productId !in Ids(t.products)
    ensures r.Failure? ==> r.error == ForeignKeyViolation
    ensures r.Success? ==> r.value.Valid()
    ensures r.Success? ==> t.nextOrderItemId !in Ids(t.orderItems)
    ensures r.Success? ==> r.value.orderItems == t.orderItems + [Row(t.nextOrderItemId, now, it)]
    ensures r.Success? ==> r.value.(orderItems := t.orderItems, nextOrderItemId := t.nextOrderItemId) == t
  {
    if it.orderId !in Ids(t.orders) || it.productId !in Ids(t.products) then Failure(ForeignKeyViolation)
    else
      var row := Row(t.nextOrderItemId, now, it);
      AppendKeyed(t.orderItems, t.nextOrderItemId, row);
      var r := t.(orderItems := t.orderItems + [row], nextOrderItemId := t.nextOrderItemId + 1);
      assert ItemRefs(r.orderItems, r.orders, r.products);
      Success(r)
  }

  /** `deleteOrderItem`: remove the item with key `id`. */
  function WithOrderItemDeleted(t: Tables, id: int): (r: Tables)
    requires t.Valid()
    ensures r.Valid()
    ensures forall x :: x in r.orderItems <==> x in t.orderItems && x.id != id
    ensures r.(orderItems := t.orderItems) == t
  {
    WithoutKeyed(t.orderItems, t.nextOrderItemId, id);
    var r := t.(orderItems := Without(t.orderItems, id));
    assert ItemRefs(r.orderItems, r.orders, r.products);
    r
  }

  // ---------------------------------------------------------------------------
  // The database handle

  /**
   * The database as the data-access layer sees it: `store` is None when no
   * connection could be made (`getDb()` gave null), in which case every write
   * fails and leaves nothing behind.
   */
  class Database {
    var store: Option<Tables>

    ghost predicate Valid()
      reads this
    {
      store.Some? ==> store.value.Valid()
    }

    constructor (initial: Option<Tables>)
      requires initial.Some? ==> initial.value.Valid()
      ensures Valid() && store == initial
    {
      store := initial;
    }

    method CreateCategory(c: Category, now: int) returns (r: Result<int, StoreError>)
      requires Valid()
      modifies this
      ensures Valid()
      ensures old(store).None? ==> r == Failure(Unavailable) && store == old(store)
      ensures old(store).Some? ==>
        r == Success(old(store).value.nextCategoryId) && store == Some(WithCategoryInserted(old(store).value, c, now))
    {
      if store.None? {
        return Failure(Unavailable);
      }
      var t := store.value;
      r := Success(t.nextCategoryId);
      store := Some(WithCategoryInserted(t, c, now));
    }

    method UpdateCategory(id: int, p: CategoryPatch) returns (r: Result<(), StoreError>)
      requires Valid()
      modifies this
      ensures Valid()
      ensures old(store).None? ==> r == Failure(Unavailable) && store == old(store)
      ensures old(store).Some? ==> r == Success(()) && store == Some(WithCategoryUpdated(old(store).value, id, p))
    {
      if store.None? {
        return Failure(Unavailable);
      }
      store := Some(WithCategoryUpdated(store.value, id, p));
      r := Success(());
    }

    method DeleteCategory(id: int) returns (r: Result<(), StoreError>)
      requires Valid()
      modifies this
      ensures Valid()
      ensures old(store).None? ==> r == Failure(Unavailable) && store == old(store)
      ensures old(store).Some? ==> Outcome(old(store).value, WithCategoryDeleted(old(store).value, id), r, store)
    {
      if store.None? {
        return Failure(Unavailable);
      }
      r := Apply(WithCategoryDeleted(store.value, id));
    }

    method CreateCustomer(c: CustomerInsert, now: int) returns (r: Result<int, StoreError>)
      requires Valid()
      modifies this
      ensures Valid()
      ensures old(store).None? ==> r == Failure(Unavailable) && store == old(store)
      ensures old(store).Some? ==>
        r == Success(old(store).value.nextCustomerId) && store == Some(WithCustomerInserted(old(store).value, c, now))
    {
      if store.None? {
        return Failure(Unavailable);
      }
      var t := store.value;
      r := Success(t.nextCustomerId);
      store := Some(WithCustomerInserted(t, c, now));
    }

    method UpdateCustomer(id: int, p: CustomerPatch) returns (r: Result<(), StoreError>)
      requires Valid()
      modifies this
      ensures Valid()
      ensures old(store).None? ==> r == Failure(Unavailable) && store == old(store)
      ensures old(store).Some? ==> r == Success(()) && store == Some(WithCustomerUpdated(old(store).value, id, p))
    {
      if store.None? {
        return Failure(Unavailable);
      }
      store := Some(WithCustomerUpdated(store.value, id, p));
      r := Success(());
    }

    method DeleteCustomer(id: int) returns (r: Result<(), StoreError>)
      requires Valid()
      modifies this
      ensures Valid()
      ensures old(store).None? ==> r == Failure(Unavailable) && store == old(store)
      ensures old(store).Some? ==> Outcome(old(store).value, WithCustomerDeleted(old(store).value, id), r, store)
    {
      if store.None? {
        return Failure(Unavailable);
      }
      r := Apply(WithCustomerDeleted(store.value, id));
    }

    method CreateProduct(p: ProductInsert, now: int) returns (r: Result<int, StoreError>)
      requires Valid()
      modifies this
      ensures Valid()
      ensures old(store).None? ==> r == Failure(Unavailable) && store == old(store)
      ensures old(store).Some? ==>
        var next := WithProductInserted(old(store).value, p, now);
        match next
        case Failure(e) => r == Failure(e) && store == old(store)
        case Success(t') => r == Success(old(store).value.nextProductId) && store == Some(t')
    {
      if store.None? {
        return Failure(Unavailable);
      }
      var t := store.value;
      var next := WithProductInserted(t, p, now);
      if next.Failure? {
        return Failure(next.error);
      }
      r := Success(t.nextProductId);
      store := Some(next.value);
    }

    method UpdateProduct(id: int, p: ProductPatch) returns (r: Result<(), StoreError>)
      requires Valid()
      modifies this
      ensures Valid()
      ensures old(store).None? ==> r == Failure(Unavailable) && store == old(store)
      ensures old(store).Some? ==> Outcome(old(store).value, WithProductUpdated(old(store).value, id, p), r, store)
    {
      if store.None? {
        return Failure(Unavailable);
      }
      r := Apply(WithProductUpdated(store.value, id, p));
    }

    method DeleteProduct(id: int) returns (r: Result<(), StoreError>)
      requires Valid()
      modifies this
      ensures Valid()
      ensures old(store).None? ==> r == Failure(Unavailable) && store == old(store)
      ensures old(store).Some? ==> Outcome(old(store).value, WithProductDeleted(old(store).value, id), r, store)
    {
      if store.None? {
        return Failure(Unavailable);
      }
      r := Apply(WithProductDeleted(store.value, id));
    }

    method CreateOrder(o: OrderInsert, now: int) returns (r: Result<int, StoreError>)
      requires Valid()
      modifies this
      ensures Valid()
      ensures old(store).None? ==> r == Failure(Unavailable) && store == old(store)
      ensures old(store).Some? ==>
        var next := WithOrderInserted(old(store).value, o, now);
        match next
        case Failure(e) => r == Failure(e) && store == old(store)
        case Success(t') => r == Success(old(store).value.nextOrderId) && store == Some(t')
    {
      if store.None? {
        return Failure(Unavailable);
      }
      var t := store.value;
      var next := WithOrderInserted(t, o, now);
      if next.Failure? {
        return Failure(next.error);
      }
      r := Success(t.nextOrderId);
      store := Some(next.value);
    }

    method UpdateOrder(id: int, p: OrderPatch) returns (r: Result<(), StoreError>)
      requires Valid()
      modifies this
      ensures Valid()
      ensures old(store).None? ==> r == Failure(Unavailable) && store == old(store)
      ensures old(store).Some? ==> Outcome(old(store).value, WithOrderUpdated(old(store).value, id, p), r, store)
    {
      if store.None? {
        return Failure(Unavailable);
      }
      r := Apply(WithOrderUpdated(store.value, id, p));
    }

    method DeleteOrder(id: int) returns (r: Result<(), StoreError>)
      requires Valid()
      modifies this
      ensures Valid()
      ensures old(store).None? ==> r == Failure(Unavailable) && store == old(store)
      ensures old(store).Some? ==> r == Success(()) && store == Some(WithOrderDeleted(old(store).value, id))
    {
      if store.None? {
        return Failure(Unavailable);
      }
      store := Some(WithOrderDeleted(store.value, id));
      r := Success(());
    }

    method CreateOrderItem(it: OrderItem, now: int) returns (r: Result<int, StoreError>)
      requires Valid()
      modifies this
      ensures Valid()
      ensures old(store).None? ==> r == Failure(Unavailable) && store == old(store)
      ensures old(store).Some? ==>
        var next := WithOrderItemInserted(old(store).value, it, now);
        match next
        case Failure(e) => r == Failure(e) && store == old(store)
        case Success(t') => r == Success(old(store).value.nextOrderItemId) && store == Some(t')
    {
      if store.None? {
        return Failure(Unavailable);
      }
      var t := store.value;
      var next := WithOrderItemInserted(t, it, now);
      if next.Failure? {
        return Failure(next.error);
      }
      r := Success(t.nextOrderItemId);
      store := Some(next.value);
    }

    method DeleteOrderItem(id: int) returns (r: Result<(), StoreError>)
      requires Valid()
      modifies this
      ensures Valid()
      ensures old(store).None? ==> r == Failure(Unavailable) && store == old(store)
      ensures old(store).Some? ==> r == Success(()) && store == Some(WithOrderItemDeleted(old(store).value, id))
    {
      if store.None? {
        return Failure(Unavailable);
      }
      store := Some(WithOrderItemDeleted(store.value, id));
      r := Success(());
    }

    /** Performs a write that may be refused: on refusal nothing changes. */
    method Apply(next: Result<Tables, StoreError>) returns (r: Result<(), StoreError>)
      requires store.Some?
      requires next.Success? ==> next.value.Valid()
      modifies this
      ensures Outcome(old(store).value, next, r, store)
    {
      if next.Failure? {
        return Failure(next.error);
      }
      store := Some(next.value);
      r := Success(());
    }
  }

  /** A refused write reports its error and keeps the old tables; an accepted one installs the new tables. */
  predicate Outcome(before: Tables, next: Result<Tables, StoreError>, r: Result<(), StoreError>, after: Option<Tables>) {
    match next
    case Failure(e) => r == Failure(e) && after == Some(before)
    case Success(t') => r == Success(()) && after == Some(t')
  }
}
