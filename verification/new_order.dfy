/**
 * The new-order page: the state of its form, adding and removing lines, the
 * running total it shows, and the request it sends on submit.
 */
module NewOrderPage {
  import opened Wrappers
  import opened Rows
  import opened Schema
  import opened Queries
  import opened Pricing
  import opened Routers
  import Decimal

  /** `filter((_, i) => i !== index)`: every element except the one at `index`; any other index removes nothing. */
  function WithoutIndex<T>(s: seq<T>, index: int): (r: seq<T>)
    ensures 0 <= index < |s| ==> r == s[..index] + s[index + 1..]
    ensures !(0 <= index < |s|) ==> r == s
  {
    if s == [] then []
    else
      var rest := WithoutIndex(s[1..], index - 1);
      assert 0 < index < |s| ==> s[1..][..index - 1] + s[1..][index..] == s[1..index] + s[index + 1..];
      assert !(0 <= index < |s|) ==> [s[0]] + s[1..] == s;
      (if index == 0 then [] else [s[0]]) + rest
  }

  /** `Number(text)` for the texts the page's selects produce: a key in decimal, or no number at all. */
  function NumberOf(text: string): (r: Option<int>)
    ensures r.Some? <==> text != [] && Decimal.AllDigits(text)
    ensures forall n: nat :: text == Decimal.Show(n) ==> r == Some(n)
  {
    forall n: nat | text == Decimal.Show(n) ensures Decimal.Parse(text) == Some(n) {
      Decimal.ParseShow(n);
    }
    match Decimal.Parse(text)
    case None => None
    case Some(n) => Some(n)
  }

  /** `products?.find(p => p.id === Number(selectedProduct))`. */
  function SelectedProduct(products: Option<seq<Row<Product>>>, selected: string): (r: Option<Row<Product>>)
    ensures r.Some? ==> products.Some? && r.value in products.value && NumberOf(selected) == Some(r.value.id)
    ensures r.None? <==> products.None? || NumberOf(selected).None? || NumberOf(selected).value !in Ids(products.value)
  {
    if products.None? || NumberOf(selected).None? then None
    else Find(products.value, NumberOf(selected).value)
  }

  /** The line added for a product: its key, and its name and price as they are now. */
  function Snapshot(p: Row<Product>, quantity: int, itemNotes: string): (it: ItemRequest)
    ensures it.productId == p.id && it.productName == p.data.name && it.unitPrice == p.data.price
    ensures it.quantity == quantity
    ensures it.notes.None? <==> itemNotes == ""
  {
    ItemRequest(p.id, p.data.name, quantity, p.data.price, if itemNotes == "" then None else Some(itemNotes))
  }

  /** The body the page sends to `orders.create`; `paymentMethod` is what the call carries for that field. */
  function Payload(customerId: string, items: seq<ItemRequest>, discount: int, notes: string,
                   deliveryDate: Option<int>, paymentMethod: Option<string>): (q: CreateOrderRequest)
    ensures q.items == items && q.discount == Some(discount) && q.paymentMethod == paymentMethod
    ensures q.customerId == NumberOf(customerId)
    ensures q.notes.None? <==> notes == ""
  {
    CreateOrderRequest(NumberOf(customerId), paymentMethod, items, Some(discount),
                       if notes == "" then None else Some(notes), deliveryDate)
  }

  predicate UnitsPositive(items: seq<ItemRequest>) {
    forall i :: 0 <= i < |items| ==> items[i].quantity >= 1
  }

  lemma AppendKeepsUnits(items: seq<ItemRequest>, it: ItemRequest)
    requires UnitsPositive(items) && it.quantity >= 1
    ensures UnitsPositive(items + [it])
  {
    var r := items + [it];
    forall i | 0 <= i < |r| ensures r[i].quantity >= 1 {
      if i < |items| {
        assert r[i] == items[i];
      }
    }
  }

  lemma RemoveKeepsUnits(items: seq<ItemRequest>, index: int)
    requires UnitsPositive(items)
    ensures UnitsPositive(WithoutIndex(items, index))
  {
    var r := WithoutIndex(items, index);
    if 0 <= index < |items| {
      forall i | 0 <= i < |r| ensures r[i].quantity >= 1 {
        if i < index {
          assert r[i] == items[i];
        } else {
          assert r[i] == items[i + 1];
        }
      }
    }
  }

  datatype AddOutcome = Added | NeedsSelection | UnknownProduct

  datatype Submission = NoCustomer | NoItems | Sent(request: CreateOrderRequest)

  class NewOrderForm {
    var customerId: string
    var items: seq<ItemRequest>
    var discount: int
    var notes: string
    /** None while the date field is empty. */
    var deliveryDate: Option<int>
    var selectedProduct: string
    var quantity: int
    var itemNotes: string

    /** Every line on the form has at least one unit. */
    ghost predicate Valid()
      reads this
    {
      UnitsPositive(items)
    }

    /** The empty form. */
    constructor ()
      ensures Valid()
      ensures customerId == "" && items == [] && discount == 0 && notes == "" && deliveryDate == None
      ensures selectedProduct == "" && quantity == 1 && itemNotes == ""
    {
      customerId := "";
      items := [];
      discount := 0;
      notes := "";
      deliveryDate := None;
      selectedProduct := "";
      quantity := 1;
      itemNotes := "";
    }

    /** `subtotal - discount`, the total the page shows; it is not clamped at zero. */
    function CalculateTotal(): int
      reads this
    {
      Subtotal(items) - discount
    }

    /**
     * `addItem`: with no product chosen or a quantity below 1 nothing happens;
     * a choice that is not in the loaded product list changes nothing either;
     * otherwise a snapshot line is appended and the line inputs are reset.
     */
    method AddItem(products: Option<seq<Row<Product>>>) returns (outcome: AddOutcome)
      requires Valid()
      modifies this
      ensures Valid()
      ensures outcome == NeedsSelection <==> old(selectedProduct) == "" || old(quantity) <= 0
      ensures outcome == UnknownProduct <==>
        old(selectedProduct) != "" && old(quantity) > 0 && SelectedProduct(products, old(selectedProduct)).None?
      ensures outcome != Added ==> unchanged(this)
      ensures outcome == Added ==>
        && items == old(items) + [Snapshot(SelectedProduct(products, old(selectedProduct)).value, old(quantity), old(itemNotes))]
        && CalculateTotal() == old(CalculateTotal()) + LineTotal(items[|items| - 1])
        && selectedProduct == "" && quantity == 1 && itemNotes == ""
        && customerId == old(customerId) && discount == old(discount) && notes == old(notes)
        && deliveryDate == old(deliveryDate)
    {
      if selectedProduct == "" || quantity <= 0 {
        return NeedsSelection;
      }
      var product := SelectedProduct(products, selectedProduct);
      if product.None? {
        return UnknownProduct;
      }
      var newItem := Snapshot(product.value, quantity, itemNotes);
      SubtotalAppend(items, newItem);
      AppendKeepsUnits(items, newItem);
      items := items + [newItem];
      selectedProduct := "";
      quantity := 1;
      itemNotes := "";
      outcome := Added;
    }

    /** `removeItem`: drop the line at `index`; an index outside the list changes nothing. */
    method RemoveItem(index: int)
      requires Valid()
      modifies this
      ensures Valid()
      ensures items == WithoutIndex(old(items), index)
      ensures 0 <= index < |old(items)| ==> CalculateTotal() == old(CalculateTotal()) - LineTotal(old(items)[index])
      ensures !(0 <= index < |old(items)|) ==> CalculateTotal() == old(CalculateTotal())
      ensures customerId == old(customerId) && discount == old(discount) && notes == old(notes)
      ensures deliveryDate == old(deliveryDate) && selectedProduct == old(selectedProduct)
      ensures quantity == old(quantity) && itemNotes == old(itemNotes)
    {
      if 0 <= index < |items| {
        SubtotalRemove(items, index);
      }
      RemoveKeepsUnits(items, index);
      items := WithoutIndex(items, index);
    }

    /**
     * `handleSubmit`: without a customer, or without lines, nothing is sent;
     * otherwise the order is sent with the given payment method, which the
     * page never supplies (see `AsWrittenSubmissionRejected`).
     */
    method HandleSubmit(paymentMethod: PaymentMethod) returns (s: Submission)
      ensures s == NoCustomer <==> customerId == ""
      ensures s == NoItems <==> customerId != "" && items == []
      ensures s.Sent? ==>
        s.request == Payload(customerId, items, discount, notes, deliveryDate, Some(PaymentTag(paymentMethod)))
    {
      if customerId == "" {
        return NoCustomer;
      }
      if |items| == 0 {
        return NoItems;
      }
      s := Sent(Payload(customerId, items, discount, notes, deliveryDate, Some(PaymentTag(paymentMethod))));
    }
  }

  /**
   * As written, the page's submit sends no `paymentMethod`, a field the order
   * endpoint requires: whatever the form holds, the request is refused and
   * the refusal names that field.
   */
  lemma AsWrittenSubmissionRejected(customerId: string, items: seq<ItemRequest>, discount: int, notes: string,
                                    deliveryDate: Option<int>)
    ensures
      var v := ValidateCreateOrder(Payload(customerId, items, discount, notes, deliveryDate, None));
      v.Failure? && "paymentMethod" in v.error
  {
  }

  /**
   * With a payment method sent, a form with a chosen customer, lines the
   * endpoint accepts and a discount of at least 0 passes the endpoint's check
   * unchanged.
   */
  lemma CorrectedSubmissionAccepted(customerId: string, items: seq<ItemRequest>, discount: int, notes: string,
                                    deliveryDate: Option<int>, pm: PaymentMethod)
    requires customerId != [] && Decimal.AllDigits(customerId)
    requires AllAccepted(items) && discount >= 0
    ensures
      var v := ValidateCreateOrder(Payload(customerId, items, discount, notes, deliveryDate, Some(PaymentTag(pm))));
      && v.Success?
      && v.value.items == items && v.value.discount == discount && v.value.paymentMethod == pm
  {
    PaymentRoundTrip(pm);
  }

  /**
   * The corrected submission of a form whose customer is chosen and whose
   * discount is at least 0 passes the endpoint's check: the form's own
   * invariant supplies the quantity rule, so only the prices remain to be
   * known.
   */
  lemma FormSubmissionAccepted(form: NewOrderForm, pm: PaymentMethod)
    requires form.Valid()
    requires form.customerId != [] && Decimal.AllDigits(form.customerId) && form.discount >= 0
    requires forall i :: 0 <= i < |form.items| ==> form.items[i].unitPrice >= 0
    ensures
      var q := Payload(form.customerId, form.items, form.discount, form.notes, form.deliveryDate, Some(PaymentTag(pm)));
      ValidateCreateOrder(q).Success? && ValidateCreateOrder(q).value.items == form.items
  {
    assert AllAccepted(form.items) by {
      forall i | 0 <= i < |form.items| ensures LineAccepted(form.items[i]) {
        assert form.items[i].quantity >= 1;
      }
    }
    CorrectedSubmissionAccepted(form.customerId, form.items, form.discount, form.notes, form.deliveryDate, pm);
  }

  /**
   * When the corrected submission is stored, the order's final amount is the
   * total the page showed, and its lines read back add up to the page's
   * subtotal.
   */
  lemma StoredTotalMatchesPage(form: NewOrderForm, store: Option<Tables>, userId: int, pm: PaymentMethod,
                               clock: nat, now: int)
    requires store.Some? ==> store.value.Valid()
    ensures
      var q := Payload(form.customerId, form.items, form.discount, form.notes, form.deliveryDate, Some(PaymentTag(pm)));
      var r := PlaceOrder(store, userId, q, clock, now);
      r.1.Success? ==>
        && OrderById(r.0, r.1.value.id).Some?
        && OrderById(r.0, r.1.value.id).value.data.finalAmount == form.CalculateTotal()
        && LinesTotal(ItemsOfOrder(r.0, r.1.value.id)) == Subtotal(form.items)
  {
    var q := Payload(form.customerId, form.items, form.discount, form.notes, form.deliveryDate, Some(PaymentTag(pm)));
    PlacedOrderReadBack(store, userId, q, clock, now);
  }
}
