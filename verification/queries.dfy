/**
 * The read side of the data-access layer: the list queries with their search
 * filters and orderings, the look-ups by key, the order-with-details join and
 * the dashboard figures. Every read answers "nothing" (an empty list, no row,
 * no figures) when there is no database connection.
 */
module Queries {
  import opened Wrappers
  import opened Rows
  import opened Schema
  import opened Store

  // ---------------------------------------------------------------------------
  // Filters

  /** `column LIKE '%term%'`: the term occurs in the text as one contiguous piece. */
  predicate Contains(text: string, term: string)
    decreases |text|
  {
    |term| <= |text| && (text[..|term|] == term || (text != [] && Contains(text[1..], term)))
  }

  /** The term occurs in the text starting at position `i`. */
  predicate OccursAt(text: string, term: string, i: int) {
    0 <= i <= |text| - |term| && text[i..i + |term|] == term
  }

  /** `Contains` is substring containment: the term occurs at some position of the text. */
  lemma {:induction false} ContainsIsSubstring(text: string, term: string)
    ensures Contains(text, term) <==> exists i :: OccursAt(text, term, i)
    decreases |text|
  {
    if |term| <= |text| && text != [] {
      var rest := text[1..];
      ContainsIsSubstring(rest, term);
      if Contains(text, term) {
        if text[..|term|] == term {
          assert OccursAt(text, term, 0);
        } else {
          var j :| OccursAt(rest, term, j);
          assert text[j + 1..j + 1 + |term|] == rest[j..j + |term|];
          assert OccursAt(text, term, j + 1);
        }
      }
      if i :| OccursAt(text, term, i) {
        if i > 0 {
          assert rest[i - 1..i - 1 + |term|] == text[i..i + |term|];
          assert OccursAt(rest, term, i - 1);
        }
      }
    } else if |term| <= |text| {
      assert OccursAt(text, term, 0);
    }
  }

  /** The same test on a nullable column: a NULL column never matches. */
  predicate ContainsIn(column: Option<string>, term: string) {
    column.Some? && Contains(column.value, term)
  }

  /** A text filter is applied only when it is truthy: present and not "". */
  predicate GivenText(v: Option<string>) {
    v.Some? && v.value != ""
  }

  /** A numeric filter is applied only when it is truthy: present and not 0. */
  predicate GivenId(v: Option<int>) {
    v.Some? && v.value != 0
  }

  predicate CustomerSelected(c: Row<Customer>, term: Option<string>) {
    GivenText(term) ==>
      || Contains(c.data.name, term.value)
      || ContainsIn(c.data.email, term.value)
      || ContainsIn(c.data.phone, term.value)
      || ContainsIn(c.data.document, term.value)
  }

  predicate ProductSelected(p: Row<Product>, term: Option<string>, categoryId: Option<int>) {
    && (GivenText(term) ==>
          || Contains(p.data.name, term.value)
          || ContainsIn(p.data.description, term.value)
          || ContainsIn(p.data.sku, term.value))
    && (GivenId(categoryId) ==> p.data.categoryId == Some(categoryId.value))
  }

  predicate OrderSelected(o: Row<Order>, status: Option<string>, customerId: Option<int>) {
    && (GivenText(status) ==> StatusTag(o.data.status) == status.value)
    && (GivenId(customerId) ==> o.data.customerId == customerId.value)
  }

  // ---------------------------------------------------------------------------
  // Lists

  /** `ORDER BY name`. */
  predicate ByName(a: Row<Category>, b: Row<Category>) {
    LexLe(a.data.name, b.data.name)
  }

  lemma ByNameIsTotalPreorder()
    ensures TotalPreorder(ByName)
  {
    forall a: Row<Category>, b: Row<Category> ensures ByName(a, b) || ByName(b, a) {
      LexLeTotal(a.data.name, b.data.name);
    }
    forall a: Row<Category>, b: Row<Category>, c: Row<Category> | ByName(a, b) && ByName(b, c) ensures ByName(a, c) {
      LexLeTransitive(a.data.name, b.data.name, c.data.name);
    }
  }

  /** `getAllCategories`: every category, by name. */
  function AllCategories(store: Option<Tables>): (r: seq<Row<Category>>)
    ensures store.None? ==> r == []
    ensures store.Some? ==> multiset(r) == multiset(store.value.categories)
    ensures SortedBy(r, ByName)
  {
    if store.None? then []
    else
      ByNameIsTotalPreorder();
      Sort(store.value.categories, ByName)
  }

  /**
   * `getAllCustomers`: with a truthy search term, the customers whose name,
   * email, phone or document contains it; otherwise all customers. Newest first.
   */
  function AllCustomers(store: Option<Tables>, term: Option<string>): (r: seq<Row<Customer>>)
    ensures forall c ::
      multiset(r)[c] == (if store.Some? && CustomerSelected(c, term) then multiset(store.value.customers)[c] else 0)
    ensures SortedBy(r, NewerFirst)
  {
    if store.None? then []
    else
      NewerFirstIsTotalPreorder<Customer>();
      var keep := (c: Row<Customer>) => CustomerSelected(c, term);
      FilterMultiset(store.value.customers, keep);
      Sort(Filter(store.value.customers, keep), NewerFirst)
  }

  /**
   * `getAllProducts`: the products whose name, description or sku contains a
   * truthy search term and whose category equals a truthy category id; a falsy
   * filter is not applied. Newest first.
   */
  function AllProducts(store: Option<Tables>, term: Option<string>, categoryId: Option<int>): (r: seq<Row<Product>>)
    ensures forall p ::
      multiset(r)[p] == (if store.Some? && ProductSelected(p, term, categoryId) then multiset(store.value.products)[p] else 0)
    ensures SortedBy(r, NewerFirst)
  {
    if store.None? then []
    else
      NewerFirstIsTotalPreorder<Product>();
      var keep := (p: Row<Product>) => ProductSelected(p, term, categoryId);
      FilterMultiset(store.value.products, keep);
      Sort(Filter(store.value.products, keep), NewerFirst)
  }

  /**
   * `getAllOrders`: the orders whose status tag equals a truthy status and whose
   * customer equals a truthy customer id; a falsy filter is not applied. Newest first.
   */
  function AllOrders(store: Option<Tables>, status: Option<string>, customerId: Option<int>): (r: seq<Row<Order>>)
    ensures forall o ::
      multiset(r)[o] == (if store.Some? && OrderSelected(o, status, customerId) then multiset(store.value.orders)[o] else 0)
    ensures SortedBy(r, NewerFirst)
  {
    if store.None? then []
    else
      NewerFirstIsTotalPreorder<Order>();
      var keep := (o: Row<Order>) => OrderSelected(o, status, customerId);
      FilterMultiset(store.value.orders, keep);
      Sort(Filter(store.value.orders, keep), NewerFirst)
  }

  /** A status filter that is not one of the five status tags matches no order at all. */
  lemma UnknownStatusListsNothing(store: Option<Tables>, status: string, customerId: Option<int>)
    requires status != "" && ParseStatus(status).None?
    ensures AllOrders(store, Some(status), customerId) == []
  {
    var r := AllOrders(store, Some(status), customerId);
    forall o ensures multiset(r)[o] == 0 {
      assert !OrderSelected(o, Some(status), customerId);
    }
    assert multiset(r) == multiset{};
  }

  // ---------------------------------------------------------------------------
  // Look-ups by key

  /** `getCategoryById`. */
  function CategoryById(store: Option<Tables>, id: int): (r: Option<Row<Category>>)
    ensures r.Some? ==> store.Some? && r.value in store.value.categories && r.value.id == id
    ensures r.None? <==> store.None? || id !in Ids(store.value.categories)
  {
    if store.None? then None else Find(store.value.categories, id)
  }

  /** `getCustomerById`. */
  function CustomerById(store: Option<Tables>, id: int): (r: Option<Row<Customer>>)
    ensures r.Some? ==> store.Some? && r.value in store.value.customers && r.value.id == id
    ensures r.None? <==> store.None? || id !in Ids(store.value.customers)
  {
    if store.None? then None else Find(store.value.customers, id)
  }

  /** `getProductById`. */
  function ProductById(store: Option<Tables>, id: int): (r: Option<Row<Product>>)
    ensures r.Some? ==> store.Some? && r.value in store.value.products && r.value.id == id
    ensures r.None? <==> store.None? || id !in Ids(store.value.products)
  {
    if store.None? then None else Find(store.value.products, id)
  }

  /** `getOrderById`. */
  function OrderById(store: Option<Tables>, id: int): (r: Option<Row<Order>>)
    ensures r.Some? ==> store.Some? && r.value in store.value.orders && r.value.id == id
    ensures r.None? <==> store.None? || id !in Ids(store.value.orders)
  {
    if store.None? then None else Find(store.value.orders, id)
  }

  /**
   * `getOrderItems`: the items of one order. The query has no `ORDER BY`;
   * the model returns them in table order, which is key order.
   */
  function ItemsOfOrder(store: Option<Tables>, orderId: int): (r: seq<Row<OrderItem>>)
    ensures forall x ::
      multiset(r)[x] == (if store.Some? && x.data.orderId == orderId then multiset(store.value.orderItems)[x] else 0)
  {
    if store.None? then []
    else
      FilterMultiset(store.value.orderItems, OfOrder(orderId));
      Filter(store.value.orderItems, OfOrder(orderId))
  }

  /** `WHERE orderId = ?` on the item table. */
  function OfOrder(orderId: int): Row<OrderItem> -> bool {
    (x: Row<OrderItem>) => x.data.orderId == orderId
  }

  /** The header of an order, the items that belong to it, and its customer if that can be found. */
  datatype OrderDetails = OrderDetails(order: Row<Order>, items: seq<Row<OrderItem>>, customer: Option<Row<Customer>>)

  /**
   * `getOrderWithDetails`: nothing when the order does not exist; otherwise the
   * header, exactly the items whose `orderId` is this order's key, and the
   * look-up of its customer.
   */
  function OrderWithDetails(store: Option<Tables>, id: int): (r: Option<OrderDetails>)
    ensures r.None? <==> store.None? || id !in Ids(store.value.orders)
    ensures r.Some? ==> r.value.order in store.value.orders && r.value.order.id == id
    ensures r.Some? ==>
      forall x :: multiset(r.value.items)[x] == (if x.data.orderId == id then multiset(store.value.orderItems)[x] else 0)
    ensures r.Some? ==> r.value.customer == CustomerById(store, r.value.order.data.customerId)
  {
    match OrderById(store, id)
    case None => None
    case Some(order) =>
      Some(OrderDetails(order, ItemsOfOrder(store, id), CustomerById(store, order.data.customerId)))
  }

  /** In a consistent database the customer of an existing order is always found. */
  lemma DetailsHaveCustomer(t: Tables, id: int)
    requires t.Valid() && id in Ids(t.orders)
    ensures OrderWithDetails(Some(t), id).Some?
    ensures OrderWithDetails(Some(t), id).value.customer.Some?
  {
    var d := OrderWithDetails(Some(t), id).value;
    assert d.order in t.orders;
  }

  // ---------------------------------------------------------------------------
  // Dashboard

  /** How many orders have status `s`. */
  function CountStatus(orders: seq<Row<Order>>, s: OrderStatus): (n: nat)
    ensures n <= |orders|
  {
    if orders == [] then 0
    else (if orders[0].data.status == s then 1 else 0) + CountStatus(orders[1..], s)
  }

  /** What one order adds to the revenue: its final amount once completed, otherwise nothing. */
  function Earned(o: Order): int {
    if o.status == Completed then o.finalAmount else 0
  }

  /** `COALESCE(SUM(finalAmount), 0)` over the completed orders. */
  function Revenue(orders: seq<Row<Order>>): int {
    if orders == [] then 0 else Earned(orders[0].data) + Revenue(orders[1..])
  }

  datatype Stats = Stats(totalCustomers: int, totalProducts: int, totalOrders: int, pendingOrders: int, totalRevenue: int)

  /**
   * `getDashboardStats`: no figures without a connection; otherwise the three
   * row counts, the number of pending orders and the revenue of completed ones.
   */
  function DashboardStats(store: Option<Tables>): (r: Option<Stats>)
    ensures r.None? <==> store.None?
    ensures r.Some? ==>
      && r.value.totalCustomers == |store.value.customers|
      && r.value.totalProducts == |store.value.products|
      && r.value.totalOrders == |store.value.orders|
      && 0 <= r.value.pendingOrders <= r.value.totalOrders
      && r.value.pendingOrders == CountStatus(store.value.orders, Pending)
      && r.value.totalRevenue == Revenue(store.value.orders)
  {
    match store
    case None => None
    case Some(t) =>
      Some(Stats(|t.customers|, |t.products|, |t.orders|, CountStatus(t.orders, Pending), Revenue(t.orders)))
  }

  /** A new database reports zero for every figure. */
  lemma EmptyDashboard()
    ensures DashboardStats(Some(EmptyTables())) == Some(Stats(0, 0, 0, 0, 0))
  {
  }

  function Indicator(b: bool): int {
    if b then 1 else 0
  }

  /** `r` is `s` with at most the row at index `k` replaced. */
  predicate SameExcept(s: seq<Row<Order>>, r: seq<Row<Order>>, k: int) {
    && |r| == |s|
    && 0 <= k < |s|
    && forall i :: 0 <= i < |s| && i != k ==> r[i] == s[i]
  }

  lemma {:induction false} CountOneChanged(s: seq<Row<Order>>, r: seq<Row<Order>>, k: int, st: OrderStatus)
    requires SameExcept(s, r, k)
    ensures CountStatus(r, st) ==
      CountStatus(s, st) - Indicator(s[k].data.status == st) + Indicator(r[k].data.status == st)
  {
    if k == 0 {
      assert r[1..] == s[1..];
    } else {
      CountOneChanged(s[1..], r[1..], k - 1, st);
    }
  }

  lemma {:induction false} RevenueOneChanged(s: seq<Row<Order>>, r: seq<Row<Order>>, k: int)
    requires SameExcept(s, r, k)
    ensures Revenue(r) == Revenue(s) - Earned(s[k].data) + Earned(r[k].data)
  {
    if k == 0 {
      assert r[1..] == s[1..];
    } else {
      RevenueOneChanged(s[1..], r[1..], k - 1);
    }
  }

  /**
   * Setting the status of one existing order moves the dashboard by that order
   * alone: the pending count and the revenue change by its own contribution,
   * before and after, and the three row counts do not change.
   */
  lemma StatusChangeStats(t: Tables, k: int, s: OrderStatus)
    requires t.Valid() && 0 <= k < |t.orders|
    ensures
      var o := t.orders[k].data;
      var before := DashboardStats(Some(t)).value;
      var after := DashboardStats(Some(WithOrderUpdated(t, t.orders[k].id, StatusOnly(s)).value)).value;
      && after.totalCustomers == before.totalCustomers
      && after.totalProducts == before.totalProducts
      && after.totalOrders == before.totalOrders
      && after.pendingOrders == before.pendingOrders - Indicator(o.status == Pending) + Indicator(s == Pending)
      && after.totalRevenue == before.totalRevenue - Earned(o) + Earned(o.(status := s))
  {
    var o := t.orders[k].data;
    var id := t.orders[k].id;
    var r := PatchedOrders(t.orders, id, StatusOnly(s));
    forall i | 0 <= i < |t.orders| && i != k
      ensures r[i] == t.orders[i]
    {
      assert t.orders[i].id != id by {
        if i < k {
          assert t.orders[i].id < t.orders[k].id;
        } else {
          assert t.orders[k].id < t.orders[i].id;
        }
      }
    }
    assert r[k].data == o.(status := s);
    CountOneChanged(t.orders, r, k, Pending);
    RevenueOneChanged(t.orders, r, k);
  }
}
