/** The owner's chat notification for a paid order: the numbered item list and
    the Markdown message. The bot client and the date formatting are not
    modelled; whether the bot exists, whether the send succeeded and the date
    text are parameters. */
module Telegram {
  import opened Common
  import opened Text
  import opened Money
  import opened OrderModel

  const SendFailure := "Failed to send Telegram notification"
  const NotAvailable := "N/A"
  const EntrySeparator := "\n\n"

  const QuantityLabel := "\nQuantity: "
  const PriceLabel := " x GHS "
  const LineTotalLabel := " \n= GHS "

  /** Entry `index` of the list, numbered from 1. */
  function Entry(index: nat, item: OrderItem): (e: string)
    ensures var head := Decimal(index + 1) + ". " + item.name;
            |e| > |head| && e[..|head|] == head
  {
    var head := Decimal(index + 1) + ". " + item.name;
    var rest := QuantityLabel + IntDecimal(item.quantity) + PriceLabel + ToFixed2(item.price)
      + LineTotalLabel + ToFixed2(item.quantity as real * item.price);
    JoinFront(head, rest);
    head + rest
  }

  /** The entries of `items`, the first numbered `from + 1`. */
  function Entries(items: seq<OrderItem>, from: nat): (es: seq<string>)
    ensures |es| == |items| && forall k :: 0 <= k < |items| ==> es[k] == Entry(from + k, items[k])
  {
    seq(|items|, k requires 0 <= k < |items| => Entry(from + k, items[k]))
  }

  /** `formatItemsForTelegram(items)`: the entries joined by a blank line. */
  function ItemsText(items: seq<OrderItem>): string {
    Join(Entries(items, 0), EntrySeparator)
  }

  /** Adding an item to a non-empty order adds one blank line and one entry,
      numbered after the others; nothing before it changes. */
  lemma ItemsTextAppend(items: seq<OrderItem>, item: OrderItem)
    requires items != []
    ensures ItemsText(items + [item]) == ItemsText(items) + EntrySeparator + Entry(|items|, item)
  {
    var es := Entries(items, 0);
    assert Entries(items + [item], 0) == es + [Entry(|items|, item)] by {
      forall k | 0 <= k < |items| + 1
        ensures Entries(items + [item], 0)[k] == (es + [Entry(|items|, item)])[k]
      {
        if k < |items| {
          assert (items + [item])[k] == items[k];
        }
      }
    }
    JoinAppend(Entries(items, 0), [Entry(|items|, item)], EntrySeparator);
  }

  /** The list of a one-item order is that item's entry, numbered 1; an empty
      order gives an empty list. */
  lemma ItemsTextSmall(items: seq<OrderItem>)
    ensures items == [] ==> ItemsText(items) == ""
    ensures |items| == 1 ==> ItemsText(items) == Entry(0, items[0])
    ensures |items| >= 1 ==> |ItemsText(items)| > 3 && ItemsText(items)[..3] == "1. "
  {
    if |items| >= 1 {
      var head := Decimal(0 + 1) + ". " + items[0].name;
      assert Decimal(1) == "1";
      assert head[..3] == "1. ";
      FirstEntryLeads(Entries(items, 0), head);
    }
  }

  /** A list whose first entry starts with `head` starts with `head` itself. */
  lemma FirstEntryLeads(es: seq<string>, head: string)
    requires |es| >= 1 && |es[0]| > |head| && es[0][..|head|] == head
    ensures |Join(es, EntrySeparator)| > |head| && Join(es, EntrySeparator)[..|head|] == head
  {
    var r := Join(es, EntrySeparator);
    assert r[..|es[0]|][..|head|] == r[..|head|];
  }

  /** `metadata && metadata[key] ? metadata[key] : "N/A"`. */
  function MetaField(meta: Option<Metadata>, key: string): (v: string)
    ensures v == NotAvailable <==> meta.None? || key !in meta.value || meta.value[key] in {"", NotAvailable}
    ensures v != NotAvailable ==> meta.Some? && key in meta.value && v == meta.value[key]
  {
    if meta.Some? && key in meta.value && meta.value[key] != "" then meta.value[key] else NotAvailable
  }

  const Headline := "*" + "NEW ORDER RECEIVED!*\n    \n*Order Details:*\nOrder ID: `"

  /** The headline up to and including the order number. */
  function Intro(orderNumber: string): (t: string)
    ensures |t| == |Headline| + |orderNumber| && t[0] == '*'
    ensures t[|Headline|..] == orderNumber
  {
    assert (Headline + orderNumber)[0] == Headline[0];
    Headline + orderNumber
  }

  /** The date, status, customer, delivery, items and total lines. */
  function Details(o: Order, dateText: string): string {
    "`\nDate: " + dateText
      + "\nStatus: Paid \U{00E2}\U{0153}\U{2026}\n\n*Customer Info:*\nName: " + o.customer.name
      + "\nEmail: " + o.customer.email
      + "\nPhone: " + o.customer.phone
      + "\nDelivery Method: " + MetaField(o.metadata, "deliveryMethod")
      + "\nDelivery Address: " + MetaField(o.metadata, "deliveryAddress")
      + "\n\n\n*Items Ordered:*\n" + ItemsText(o.items)
      + "\n\n*Total Amount:* *" + o.currency + " " + ToFixed2(o.totalAmount)
      + "*\n\n*Payment Reference:*\n`"
  }

  /** The message text after the trim: starts with the headline and ends with
      the back-quoted payment reference. */
  function Body(o: Order, dateText: string): (b: string)
    ensures |b| > 0 && b[0] == '*' && b[|b| - 1] == '`'
  {
    var intro := Intro(o.orderNumber);
    var front := Details(o, dateText) + ReferenceText(o.paystackReference);
    JoinEnds(front + "`", "`");
    JoinEnds(intro, front + "`");
    intro + (front + "`")
  }

  /** The template literal before the trim: a line break and four spaces of
      indentation, the body, and the closing line break. */
  function Raw(o: Order, dateText: string): string {
    "\n    " + Body(o, dateText) + "\n"
  }

  /** The trim removes exactly the template's indentation and nothing of the
      order's own text, even when the reference ends in white space. */
  lemma TrimKeepsBody(o: Order, dateText: string)
    ensures Trim(Raw(o, dateText)) == Body(o, dateText)
  {
    var b := Body(o, dateText);
    assert AllSpace("\n    ");
    assert AllSpace("\n");
    TrimFramedText("\n    ", b, "\n");
  }

  /** The message names the order number and the payment reference. */
  lemma BodyNamesOrder(o: Order, dateText: string)
    ensures Contains(Body(o, dateText), o.orderNumber)
    ensures Contains(Body(o, dateText), ReferenceText(o.paystackReference))
  {
    ContainsBoth(Headline, o.orderNumber, Details(o, dateText), ReferenceText(o.paystackReference), "`");
  }

  datatype Notification = Notification(text: string, markdown: bool)

  /** `sendNewOrderNotification(order)`. `botReady` is whether the client was
      created at start-up, `delivered` whether the chat accepted the message. */
  function SendNewOrderNotification(o: Order, dateText: string, botReady: bool, delivered: bool)
    : (r: Result<Notification, string>)
    ensures r.Ok? <==> botReady && delivered
    ensures r.Err? ==> r.error == SendFailure
    ensures r.Ok? ==> r.value.markdown && r.value.text == Body(o, dateText)
  {
    if !botReady || !delivered then Err(SendFailure)
    else
      assert Trim(Raw(o, dateText)) == Body(o, dateText) by { TrimKeepsBody(o, dateText); }
      Ok(Notification(Trim(Raw(o, dateText)), true))
  }
}
