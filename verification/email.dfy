/** The two e-mails sent for a paid order: the item table, the substitution data,
    the subjects and the failure messages. The mail transport and the template
    file read are not modelled; their outcomes are parameters. */
module Email {
  import opened Common
  import opened Text
  import opened Money
  import opened OrderModel
  import opened Template

  const ConfirmationFailure := "Failed to send order confirmation email"
  const AlertFailure := "Failed to send new order alert email"
  const ConfirmationPrefix := "Order Confirmation - "
  /** The alert subject's prefix exactly as the source file spells it (an emoji
      that was saved with the wrong encoding). */
  const AlertPrefix := "=\U{00EF}\U{00BF}\U{00BD}\U{000F} New Order Received - "

  const RowOpen := "\n    <tr>\n      <td style=\"padding: 10px; border-bottom: 1px solid #eee;\">"
  const RowClose := "</td>\n    </tr>\n  "

  /** One table row of `formatItemsList`: name, quantity, unit price and line
      total, the amounts with two decimals. */
  function Row(item: OrderItem): string {
    RowOpen + item.name + Cells(item) + RowClose
  }

  /** A row starts with the opening cell markup and the item's name and ends
      with the row's closing markup. */
  lemma RowShape(item: OrderItem)
    ensures var r := Row(item);
            && |r| > |RowOpen| + |item.name| && r[..|RowOpen|] == RowOpen
            && r[|RowOpen|..|RowOpen| + |item.name|] == item.name
            && |r| >= |RowClose| && r[|r| - |RowClose|..] == RowClose
  {
    FramedPieces(RowOpen, item.name, Cells(item), RowClose);
  }

  const CentredCell := "</td>\n      <td style=\"padding: 10px; border-bottom: 1px solid #eee; text-align: center;\">"
  const MoneyCell := "</td>\n      <td style=\"padding: 10px; border-bottom: 1px solid #eee; text-align: right;\">GHS "

  /** The quantity, unit price and line total cells between the name and the
      row's end. */
  function Cells(item: OrderItem): string {
    CentredCell + IntDecimal(item.quantity) + MoneyCell + ToFixed2(item.price)
      + MoneyCell + ToFixed2(item.quantity as real * item.price)
  }

  /** The strings of `rows` written one after another. */
  function Concat(rows: seq<string>): (s: string)
    ensures rows == [] ==> s == ""
    ensures |rows| == 1 ==> s == rows[0]
  {
    if rows == [] then "" else Concat(rows[..|rows| - 1]) + rows[|rows| - 1]
  }

  lemma {:induction false} ConcatAppend(a: seq<string>, b: seq<string>)
    ensures Concat(a + b) == Concat(a) + Concat(b)
    decreases |b|
  {
    if b == [] {
      assert a + b == a;
    } else {
      var last := |b| - 1;
      assert (a + b)[..|a + b| - 1] == a + b[..last];
      assert (a + b)[|a + b| - 1] == b[last];
      ConcatAppend(a, b[..last]);
    }
  }

  /** The rows of the items, one per item and in item order. */
  function Rows(items: seq<OrderItem>): (rows: seq<string>)
    ensures |rows| == |items| && forall k :: 0 <= k < |items| ==> rows[k] == Row(items[k])
  {
    seq(|items|, k requires 0 <= k < |items| => Row(items[k]))
  }

  /** `formatItemsList(items)`: the rows in item order, with no separator. */
  function ItemsList(items: seq<OrderItem>): (s: string)
    ensures items == [] ==> s == ""
    ensures |items| == 1 ==> s == Row(items[0])
  {
    Concat(Rows(items))
  }

  /** The table of a concatenation is the concatenation of the tables. */
  lemma ItemsListConcat(a: seq<OrderItem>, b: seq<OrderItem>)
    ensures ItemsList(a + b) == ItemsList(a) + ItemsList(b)
  {
    RowsConcat(a, b);
    ConcatAppend(Rows(a), Rows(b));
  }

  lemma RowsConcat(a: seq<OrderItem>, b: seq<OrderItem>)
    ensures Rows(a + b) == Rows(a) + Rows(b)
  {
    var joined, parts := Rows(a + b), Rows(a) + Rows(b);
    forall k | 0 <= k < |joined| ensures joined[k] == parts[k] {
      if k < |a| {
        assert (a + b)[k] == a[k];
      } else {
        assert (a + b)[k] == b[k - |a|];
      }
    }
  }

  /** Item i contributes exactly its own row, after the rows of the items before
      it and before the rows of the items after it. */
  lemma RowAt(items: seq<OrderItem>, i: nat)
    requires i < |items|
    ensures ItemsList(items) == ItemsList(items[..i]) + Row(items[i]) + ItemsList(items[i + 1..])
  {
    assert items == items[..i] + [items[i]] + items[i + 1..];
    ItemsListConcat(items[..i] + [items[i]], items[i + 1..]);
    ItemsListConcat(items[..i], [items[i]]);
  }

  datatype Mail = Mail(to: string, subject: string, html: string)

  /** What the environment contributes: the template file's text (or `None` when
      reading it failed), the formatted creation date, and whether the mail
      transport accepted the message. */
  datatype MailEnv = MailEnv(template: Option<string>, dateText: string, delivered: bool)

  /** The substitution data of the customer's confirmation, in the source's order. */
  function ConfirmationData(o: Order, dateText: string): seq<(string, string)>
  {
    [("customerName", o.customer.name), ("orderId", o.orderNumber), ("orderDate", dateText),
     ("itemsList", ItemsList(o.items)), ("totalAmount", ToFixed2(o.totalAmount)),
     ("currency", o.currency)]
  }

  /** The substitution data of the owner's alert. */
  function AlertData(o: Order, dateText: string): seq<(string, string)>
  {
    [("orderId", o.orderNumber), ("orderDate", dateText), ("customerName", o.customer.name),
     ("customerEmail", o.customer.email), ("customerPhone", o.customer.phone),
     ("itemsList", ItemsList(o.items)), ("totalAmount", ToFixed2(o.totalAmount)),
     ("currency", o.currency), ("paystackReference", ReferenceText(o.paystackReference))]
  }

  /** `sendOrderConfirmation(order)`: to the customer, subject naming the order
      number; any failure surfaces as one fixed message. */
  function SendOrderConfirmation(o: Order, env: MailEnv): (r: Result<Mail, string>)
    ensures r.Ok? <==> env.template.Some? && env.delivered
    ensures r.Err? ==> r.error == ConfirmationFailure
    ensures r.Ok? ==> && r.value.to == o.customer.email
                      && |r.value.subject| == |ConfirmationPrefix| + |o.orderNumber|
                      && r.value.subject[..|ConfirmationPrefix|] == ConfirmationPrefix
                      && r.value.subject[|ConfirmationPrefix|..] == o.orderNumber
                      && r.value.html == Substitute(env.template.value, ConfirmationData(o, env.dateText))
  {
    if env.template.None? || !env.delivered then Err(ConfirmationFailure)
    else
      var subject := ConfirmationPrefix + o.orderNumber;
      Ok(Mail(o.customer.email, subject, Substitute(env.template.value, ConfirmationData(o, env.dateText))))
  }

  /** `sendNewOrderAlert(order)`: to the owner's address, subject naming the order
      number. */
  function SendNewOrderAlert(o: Order, ownerEmail: string, env: MailEnv): (r: Result<Mail, string>)
    ensures r.Ok? <==> env.template.Some? && env.delivered
    ensures r.Err? ==> r.error == AlertFailure
    ensures r.Ok? ==> && r.value.to == ownerEmail
                      && |r.value.subject| == |AlertPrefix| + |o.orderNumber|
                      && r.value.subject[..|AlertPrefix|] == AlertPrefix
                      && r.value.subject[|AlertPrefix|..] == o.orderNumber
                      && r.value.html == Substitute(env.template.value, AlertData(o, env.dateText))
  {
    if env.template.None? || !env.delivered then Err(AlertFailure)
    else
      var subject := AlertPrefix + o.orderNumber;
      Ok(Mail(ownerEmail, subject, Substitute(env.template.value, AlertData(o, env.dateText))))
  }

  /** For a template made of inert text and `{{key}}` holes, the confirmation
      body is that template with the six data holes filled and the others left
      alone. */
  lemma ConfirmationFillsTemplate(o: Order, env: MailEnv, segs: seq<Segment>)
    requires env.template == Some(Render(segs, map[])) && env.delivered && WellFormed(segs)
    requires DataInert(ConfirmationData(o, env.dateText))
    ensures SendOrderConfirmation(o, env).Ok?
    ensures SendOrderConfirmation(o, env).value.html
            == Render(segs, Bind(map[], ConfirmationData(o, env.dateText)))
  {
    SubstituteRenders(segs, map[], ConfirmationData(o, env.dateText));
  }
}
