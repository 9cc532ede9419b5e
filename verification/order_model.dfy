/** The order record: its status enumeration, its line items, and the schema step
    that turns a submitted document into a stored order (required fields and
    defaults). */
module OrderModel {
  import opened Common
  import opened Text

  /** The three values the `status` enumeration admits. */
  datatype Status = Pending | Completed | Failed

  function StatusText(s: Status): (t: string)
    ensures t in {"pending", "completed", "failed"}
  {
    match s
    case Pending => "pending"
    case Completed => "completed"
    case Failed => "failed"
  }

  /** The enumeration check: only the three spellings are accepted. */
  function ParseStatus(t: string): (r: Option<Status>)
    ensures r.Some? <==> t in {"pending", "completed", "failed"}
  {
    if t == "pending" then Some(Pending)
    else if t == "completed" then Some(Completed)
    else if t == "failed" then Some(Failed)
    else None
  }

  /** Status values and their stored spellings correspond one to one. */
  lemma StatusRoundTrip(s: Status, t: string)
    ensures ParseStatus(StatusText(s)) == Some(s)
    ensures ParseStatus(t) == Some(s) <==> StatusText(s) == t
  {
  }

  /** Free-form key/value data attached to an order (delivery details). */
  type Metadata = map<string, string>

  const DefaultEmail := "lucysperfumery@gmail.com"
  const DefaultCurrency := "GHS"

  /** A payment reference interpolated into text: an absent one prints as
      `undefined`. */
  function ReferenceText(ref: Option<string>): (t: string)
    ensures ref.Some? ==> t == ref.value
  {
    ref.GetOr("undefined")
  }

  datatype Customer = Customer(name: string, email: string, phone: string)

  datatype SelectedOption = SelectedOption(optionId: Option<string>, optionName: Option<string>,
                                           optionPrice: Option<real>)

  datatype OrderItem = OrderItem(productId: string, name: string, quantity: int, price: real,
                                 selectedOption: Option<SelectedOption>)

  datatype Order = Order(orderNumber: string, customer: Customer, items: seq<OrderItem>,
                         totalAmount: real, currency: string, status: Status,
                         paystackReference: Option<string>, metadata: Option<Metadata>)

  /** A line item as submitted: any field may be missing. */
  datatype ItemDraft = ItemDraft(productId: Option<string>, name: Option<string>,
                                 quantity: Option<int>, price: Option<real>,
                                 selectedOption: Option<SelectedOption>)

  datatype CustomerDraft = CustomerDraft(name: Option<string>, email: Option<string>, phone: Option<string>)

  /** An order document as handed to the schema, before defaults and checks. */
  datatype OrderDraft = OrderDraft(orderNumber: Option<string>, customer: CustomerDraft,
                                   items: seq<ItemDraft>, totalAmount: Option<real>,
                                   currency: Option<string>, status: Option<Status>,
                                   paystackReference: Option<string>, metadata: Option<Metadata>)

  /** A required string path is satisfied by a present, non-empty string. */
  predicate HasText(s: Option<string>) {
    s.Some? && s.value != ""
  }

  predicate ItemComplete(d: ItemDraft) {
    HasText(d.productId) && HasText(d.name) && d.quantity.Some? && d.price.Some?
  }

  /** Every required path of the order schema is filled. */
  predicate DraftComplete(d: OrderDraft) {
    && HasText(d.orderNumber)
    && HasText(d.customer.name)
    && HasText(d.customer.phone)
    && d.totalAmount.Some?
    && forall i :: 0 <= i < |d.items| ==> ItemComplete(d.items[i])
  }

  /** The schema's names for the required paths. */
  const OrderNumberPath := "orderNumber"
  const CustomerNamePath := "customer.name"
  const CustomerPhonePath := "customer.phone"
  const TotalAmountPath := "totalAmount"
  const ItemsPath := "items."
  const ProductIdField := "productId"
  const NameField := "name"
  const QuantityField := "quantity"
  const PriceField := "price"

  /** The paths of the required item fields that are not filled, in schema order. */
  function ItemErrors(i: nat, d: ItemDraft): (errs: seq<string>)
    ensures errs == [] <==> ItemComplete(d)
  {
    var p := ItemsPath + Decimal(i) + ".";
    (if HasText(d.productId) then [] else [p + ProductIdField])
    + (if HasText(d.name) then [] else [p + NameField])
    + (if d.quantity.Some? then [] else [p + QuantityField])
    + (if d.price.Some? then [] else [p + PriceField])
  }

  function ItemsErrors(items: seq<ItemDraft>, from: nat): (errs: seq<string>)
    ensures errs == [] <==> forall i :: 0 <= i < |items| ==> ItemComplete(items[i])
    decreases |items|
  {
    if items == [] then []
    else ItemErrors(from, items[0]) + ItemsErrors(items[1..], from + 1)
  }

  /** Every path the schema reports as missing. */
  function MissingPaths(d: OrderDraft): (errs: seq<string>)
    ensures errs == [] <==> DraftComplete(d)
  {
    (if HasText(d.orderNumber) then [] else [OrderNumberPath])
    + (if HasText(d.customer.name) then [] else [CustomerNamePath])
    + (if HasText(d.customer.phone) then [] else [CustomerPhonePath])
    + ItemsErrors(d.items, 0)
    + (if d.totalAmount.Some? then [] else [TotalAmountPath])
  }

  function ToItem(d: ItemDraft): (it: OrderItem)
    requires ItemComplete(d)
    ensures it.productId == d.productId.value && it.name == d.name.value
    ensures it.quantity == d.quantity.value && it.price == d.price.value
    ensures it.selectedOption == d.selectedOption
  {
    OrderItem(d.productId.value, d.name.value, d.quantity.value, d.price.value, d.selectedOption)
  }

  /** Validating a document against the order schema: the missing required paths as
      an error, otherwise the stored order with `email`, `currency` and `status`
      defaulted where they were not given. */
  function BuildOrder(d: OrderDraft): (r: Result<Order, seq<string>>)
    ensures r.Err? <==> !DraftComplete(d)
    ensures r.Err? ==> r.error == MissingPaths(d) && r.error != []
    ensures r.Ok? ==> var o := r.value;
      && o.orderNumber == d.orderNumber.value
      && o.customer.name == d.customer.name.value
      && o.customer.phone == d.customer.phone.value
      && o.customer.email == d.customer.email.GetOr(DefaultEmail)
      && |o.items| == |d.items|
      && (forall i :: 0 <= i < |o.items| ==> o.items[i] == ToItem(d.items[i]))
      && o.totalAmount == d.totalAmount.value
      && o.currency == d.currency.GetOr(DefaultCurrency)
      && o.status == d.status.GetOr(Pending)
      && o.paystackReference == d.paystackReference
      && o.metadata == d.metadata
  {
    var missing := MissingPaths(d);
    if missing != [] then Err(missing)
    else
      Ok(Order(d.orderNumber.value,
               Customer(d.customer.name.value, d.customer.email.GetOr(DefaultEmail), d.customer.phone.value),
               seq(|d.items|, i requires 0 <= i < |d.items| => ToItem(d.items[i])),
               d.totalAmount.value,
               d.currency.GetOr(DefaultCurrency),
               d.status.GetOr(Pending),
               d.paystackReference,
               d.metadata))
  }

  /** A document that leaves out `status`, `currency` and the customer's email is
      stored as pending, in cedis, addressed to the shop's own mailbox. */
  lemma DefaultsApplied(d: OrderDraft)
    requires DraftComplete(d)
    requires d.status.None? && d.currency.None? && d.customer.email.None?
    ensures BuildOrder(d).Ok?
    ensures BuildOrder(d).value.status == Pending
    ensures BuildOrder(d).value.currency == "GHS"
    ensures BuildOrder(d).value.customer.email == "lucysperfumery@gmail.com"
  {
  }

  /** Given values are kept: a default never overrides a supplied field. */
  lemma GivenValuesKept(d: OrderDraft, st: Status, cur: string, email: string)
    requires DraftComplete(d)
    requires d.status == Some(st) && d.currency == Some(cur) && d.customer.email == Some(email)
    ensures BuildOrder(d).Ok?
    ensures BuildOrder(d).value.status == st
    ensures BuildOrder(d).value.currency == cur
    ensures BuildOrder(d).value.customer.email == email
  {
  }
}
