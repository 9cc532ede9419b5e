/** Classification of the payment gateway's verification reply. The HTTP request
    itself is not modelled: its outcome is the `GatewayReply` parameter. */
module Paystack {
  import opened Common
  import opened OrderModel

  const VerifyFailure := "Failed to verify payment with Paystack"
  const UnpaidMessage := "Payment verification failed"

  datatype TxCustomer = TxCustomer(email: Option<string>, phone: Option<string>)

  /** The transaction object inside the reply. `amount` is in minor units
      (pesewas). */
  datatype TxData = TxData(status: Option<string>, reference: Option<string>, amount: int,
                           currency: Option<string>, paidAt: Option<string>,
                           customer: Option<TxCustomer>, metadata: Option<Metadata>)

  /** What the HTTP call produced: a transport or HTTP error (with the API's
      `message` when the error carried a body), or a body with a top-level
      `status` and an optional `data` object. */
  datatype GatewayReply =
    | Transport(apiMessage: Option<string>)
    | Reply(status: Option<bool>, data: Option<TxData>)

  /** The fields echoed back on success, with the amount in major units. */
  datatype Payment = Payment(reference: Option<string>, amount: real, currency: Option<string>,
                             status: Option<string>, paidAt: Option<string>,
                             customerEmail: Option<string>, customerPhone: Option<string>,
                             metadata: Option<Metadata>)

  datatype Verification =
    | Paid(payment: Payment)
    | Unpaid(message: string, gatewayStatus: Option<string>)

  /** A reply the gateway counts as a completed payment. */
  predicate Confirmed(g: GatewayReply) {
    g.Reply? && g.status == Some(true) && g.data.Some? && g.data.value.status == Some("success")
  }

  /** `verifyPayment(reference)`: `Ok(Paid)` for a confirmed payment, `Ok(Unpaid)`
      for any other well-formed reply, and `Err` with the API's message (or the
      fixed fallback) when the call failed or a field it reads was missing. */
  function Verify(g: GatewayReply): (r: Result<Verification, string>)
    ensures r.Ok? && r.value.Paid? <==> Confirmed(g) && g.data.value.customer.Some?
    ensures r.Ok? && r.value.Unpaid? <==> g.Reply? && !Confirmed(g) && g.data.Some?
    ensures r.Ok? && r.value.Unpaid? ==> r.value.message == UnpaidMessage
                                         && r.value.gatewayStatus == g.data.value.status
    ensures r.Err? && g.Transport? && Truthy(g.apiMessage) ==> r.error == g.apiMessage.value
    ensures r.Err? && !(g.Transport? && Truthy(g.apiMessage)) ==> r.error == VerifyFailure
  {
    match g
    case Transport(m) =>
      Err(if Truthy(m) then m.value else VerifyFailure)
    case Reply(st, data) =>
      if data.None? then
        // reading `data.status` of a missing object throws a TypeError
        Err(VerifyFailure)
      else if st == Some(true) && data.value.status == Some("success") then
        if data.value.customer.None? then Err(VerifyFailure)
        else
          var tx := data.value;
          Ok(Paid(Payment(tx.reference, tx.amount as real / 100.0, tx.currency, tx.status,
                          tx.paidAt, tx.customer.value.email, tx.customer.value.phone,
                          tx.metadata)))
      else Ok(Unpaid(UnpaidMessage, data.value.status))
  }

  /** On success the amount is the gateway's minor units divided by one hundred and
      the remaining fields are the gateway's own. */
  lemma PaidEchoesGateway(g: GatewayReply)
    requires Verify(g).Ok? && Verify(g).value.Paid?
    ensures var tx := g.data.value;
            var p := Verify(g).value.payment;
            && p.amount * 100.0 == tx.amount as real
            && p.reference == tx.reference && p.currency == tx.currency
            && p.status == Some("success") && p.paidAt == tx.paidAt
            && p.customerEmail == tx.customer.value.email
            && p.customerPhone == tx.customer.value.phone
            && p.metadata == tx.metadata
  {
  }

  /** The controllers compare the converted amount with the order total: the two
      agree exactly when the gateway's minor units are the total times one
      hundred. */
  lemma AmountMatches(g: GatewayReply, total: real)
    requires Verify(g).Ok? && Verify(g).value.Paid?
    ensures Verify(g).value.payment.amount == total <==> g.data.value.amount as real == total * 100.0
  {
    PaidEchoesGateway(g);
  }
}
