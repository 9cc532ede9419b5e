/** The paid-order pipeline as two state transitions over the store: `createOrder`
    (validate, replay an existing reference, verify the payment, check the amount,
    allocate a number, persist, reduce stock, notify) and `verifyPayment` (settle
    an order that was stored before it was paid). Every call into the database,
    the payment gateway or a messaging service is replaced by its outcome, given
    in a `World`. */
module OrdersController {
  import opened Common
  import opened OrderModel
  import opened OrderCounter
  import opened OrderNumber
  import opened Paystack
  import opened ProductModel
  import opened Stock
  import opened Notifications
  import opened Text
  import opened Pagination

  const CustomerRequired := "Customer information (name, email, phone) is required"
  const ItemsRequired := "Order must contain at least one item"
  const AmountRequired := "Total amount must be greater than 0"
  const ReferenceRequired := "Paystack reference is required"
  const OrderExists := "Order already exists"
  const PaymentIncomplete := "Payment verification failed. Please complete payment first."
  const AmountMismatch := "Payment amount does not match order total"
  const OrderCreated := "Order created and payment verified successfully."
  const CreateFallback := "Failed to create order"
  const PaymentReferenceRequired := "Payment reference is required"
  const OrderNotFound := "Order not found with this payment reference"
  const AlreadyCompleted := "Order already verified and completed"
  const VerificationFailed := "Payment verification failed"
  const PaymentCompleted := "Payment verified and order completed successfully"
  const VerifyFallback := "Failed to verify payment"

  /** The collections the two transitions touch: orders by payment reference,
      products by id, and the per-year counters. */
  datatype Store = Store(orders: map<string, Order>, products: Products, counters: Counters)

  /** The body of `POST /orders`; a field that is missing (or, for `items`, not an
      array) is `None`. */
  datatype CreateRequest = CreateRequest(
    customer: Option<CustomerDraft>, items: Option<seq<ItemDraft>>, totalAmount: Option<real>,
    currency: Option<string>, metadata: Option<Metadata>, paystackReference: Option<string>)

  /** The outcomes of the outside calls one request makes: the gateway's reply,
      the current year, whether the counter update throws, the message of a
      failing order write (`None` when it succeeds), the positions of the items
      whose stock update throws, and the messaging environment. */
  datatype World = World(gateway: GatewayReply, year: nat, counterFails: bool,
                         writeError: Option<string>, stockFaults: set<nat>, notify: NotifyEnv)

  /** The JSON bodies the handlers send. */
  datatype Reply =
    | Rejected(error: string)
    | PaymentRefused(error: string, paymentStatus: Option<string>)
    | AmountDiffers(error: string, expected: real, received: real)
    | Accepted(message: string, order: Order)

  datatype Response = Response(code: nat, reply: Reply)

  /** A transition's result: the new store, the response, and the messages sent
      (`None` when the handler sends none). */
  datatype Outcome = Outcome(store: Store, response: Response, sent: Option<Sent>)

  /** `error.message || fallback`. */
  function ErrorText(message: string, fallback: string): (t: string)
    ensures t == message || (message == "" && t == fallback)
    ensures t != "" <==> message != "" || fallback != ""
  {
    if message != "" then message else fallback
  }

  predicate CustomerGiven(req: CreateRequest) {
    && req.customer.Some?
    && Truthy(req.customer.value.name) && Truthy(req.customer.value.email)
    && Truthy(req.customer.value.phone)
  }

  predicate ItemsGiven(req: CreateRequest) {
    req.items.Some? && req.items.value != []
  }

  predicate AmountGiven(req: CreateRequest) {
    req.totalAmount.Some? && req.totalAmount.value > 0.0
  }

  /** All four input checks of `createOrder` pass. */
  predicate RequestValid(req: CreateRequest) {
    CustomerGiven(req) && ItemsGiven(req) && AmountGiven(req) && Truthy(req.paystackReference)
  }

  /** The first failing input check's message, in the handler's order. */
  function ValidationError(req: CreateRequest): (e: Option<string>)
    ensures e.None? <==> RequestValid(req)
  {
    if !CustomerGiven(req) then Some(CustomerRequired)
    else if !ItemsGiven(req) then Some(ItemsRequired)
    else if !AmountGiven(req) then Some(AmountRequired)
    else if !Truthy(req.paystackReference) then Some(ReferenceRequired)
    else None
  }

  /** `currency || "GHS"`. */
  function CurrencyOf(currency: Option<string>): (c: string)
    ensures Truthy(currency) ==> c == currency.value
    ensures !Truthy(currency) ==> c == DefaultCurrency
  {
    if Truthy(currency) then currency.value else DefaultCurrency
  }

  /** The document handed to `Order.create`. */
  function Draft(req: CreateRequest, number: string): OrderDraft
    requires RequestValid(req)
  {
    OrderDraft(Some(number), req.customer.value, req.items.value, req.totalAmount,
               Some(CurrencyOf(req.currency)), Some(Completed), req.paystackReference, req.metadata)
  }

  /** The message of the order schema's validation error: the failing paths. */
  function OrderValidation(paths: seq<string>): string {
    "Order validation failed: " + Join(paths, ", ")
  }

  /** `createOrder`. */
  function CreateOrder(st: Store, req: CreateRequest, w: World): (out: Outcome)
    ensures out.response.code in {200, 201, 400, 500}
    ensures out.response.code == 201 <==> out.sent.Some?
    ensures out.response.code != 201 ==> out.store.orders == st.orders && out.store.products == st.products
    ensures out.response.code == 201 ==> && RequestValid(req)
                                         && req.paystackReference.value !in st.orders
                                         && Verify(w.gateway).Ok? && Verify(w.gateway).value.Paid?
                                         && Verify(w.gateway).value.payment.amount == req.totalAmount.value
                                         && out.response.reply.Accepted?
                                         && out.store.orders == st.orders[req.paystackReference.value := out.response.reply.order]
  {
    match ValidationError(req)
    case Some(e) => Outcome(st, Response(400, Rejected(e)), None)
    case None =>
      var ref := req.paystackReference.value;
      if ref in st.orders then Outcome(st, Response(200, Accepted(OrderExists, st.orders[ref])), None)
      else Settle(st, req, w)
  }

  /** The gateway and amount checks for a new reference. */
  function Settle(st: Store, req: CreateRequest, w: World): (out: Outcome)
    requires RequestValid(req)
    ensures out.response.code in {201, 400, 500}
    ensures out.response.code == 201 <==> out.sent.Some?
    ensures out.response.code != 201 ==> out.store.orders == st.orders && out.store.products == st.products
    ensures out.response.code == 201 ==> && Verify(w.gateway).Ok? && Verify(w.gateway).value.Paid?
                                         && Verify(w.gateway).value.payment.amount == req.totalAmount.value
                                         && out.response.reply.Accepted?
                                         && out.store.orders == st.orders[req.paystackReference.value := out.response.reply.order]
  {
    match Verify(w.gateway)
    case Err(m) => Outcome(st, Response(500, Rejected(ErrorText(m, CreateFallback))), None)
    case Ok(v) =>
      if v.Unpaid? then Outcome(st, Response(400, PaymentRefused(PaymentIncomplete, v.gatewayStatus)), None)
      else if v.payment.amount != req.totalAmount.value then
        Outcome(st, Response(400, AmountDiffers(AmountMismatch, req.totalAmount.value, v.payment.amount)), None)
      else Persist(st, req, w)
  }

  /** What persisting needs to succeed: the counter step and the write do not
      throw, and the order schema accepts the order under the year's next
      number. */
  predicate Recordable(st: Store, req: CreateRequest, w: World)
    requires RequestValid(req)
  {
    && !w.counterFails && w.writeError.None?
    && BuildOrder(Draft(req, FormatOrderNumber(w.year, Current(st.counters, w.year) + 1))).Ok?
  }

  /** Number allocation, the write, the stock loop and the notifications. */
  function Persist(st: Store, req: CreateRequest, w: World): (out: Outcome)
    requires RequestValid(req)
    ensures out.response.code in {201, 500}
    ensures out.response.code == 201 <==> out.sent.Some?
    ensures out.response.code == 201 <==> Recordable(st, req, w)
    ensures w.writeError.Some? ==> out.response.code == 500
    ensures out.response.code != 201 ==> out.store.orders == st.orders && out.store.products == st.products
    ensures out.response.code == 201 ==> && out.response.reply.Accepted?
                                         && out.store.orders == st.orders[req.paystackReference.value := out.response.reply.order]
    ensures var g := GenerateOrderNumber(st.counters, w.year, w.counterFails);
            && out.store.counters == g.counters
            && (out.response.code == 201 ==>
                  var o := out.response.reply.order;
                  && g.number == Ok(o.orderNumber)
                  && o.paystackReference == req.paystackReference
                  && out.store.products == ReduceStock(st.products, o.items, w.stockFaults))
  {
    var g := GenerateOrderNumber(st.counters, w.year, w.counterFails);
    match g.number
    case Err(m) => Outcome(st.(counters := g.counters), Response(500, Rejected(m)), None)
    case Ok(number) =>
      assert number == FormatOrderNumber(w.year, Current(st.counters, w.year) + 1);
      match BuildOrder(Draft(req, number))
      case Err(paths) =>
        Outcome(st.(counters := g.counters), Response(500, Rejected(OrderValidation(paths))), None)
      case Ok(o) =>
        if w.writeError.Some? then
          Outcome(st.(counters := g.counters), Response(500, Rejected(ErrorText(w.writeError.value, CreateFallback))), None)
        else
          var ps := ReduceStock(st.products, o.items, w.stockFaults);
          Outcome(Store(st.orders[req.paystackReference.value := o], ps, g.counters),
                  Response(201, Accepted(OrderCreated, o)), Some(Notify(o, w.notify)))
  }

  /** The three ways persisting fails, each answering 500 with the stock and the
      orders untouched: the counter's error, the order schema's validation
      message, and the write's error message (or the handler's fallback). Only
      the counter step, which ran, stays advanced. */
  lemma PersistFails(st: Store, req: CreateRequest, w: World)
    requires RequestValid(req)
    ensures var out := Persist(st, req, w);
            var g := GenerateOrderNumber(st.counters, w.year, w.counterFails);
            && (g.number.Err? ==>
                  out == Outcome(st.(counters := g.counters), Response(500, Rejected(g.number.error)), None))
            && (g.number.Ok? && BuildOrder(Draft(req, g.number.value)).Err? ==>
                  out == Outcome(st.(counters := g.counters),
                                 Response(500, Rejected(OrderValidation(BuildOrder(Draft(req, g.number.value)).error))), None))
            && (g.number.Ok? && BuildOrder(Draft(req, g.number.value)).Ok? && w.writeError.Some? ==>
                  out == Outcome(st.(counters := g.counters),
                                 Response(500, Rejected(ErrorText(w.writeError.value, CreateFallback))), None))
  {
  }

  /** `verifyPayment`. */
  function VerifyPayment(st: Store, reference: Option<string>, w: World): (out: Outcome)
    ensures out.response.code in {200, 400, 404, 500}
    ensures out.sent.Some? ==> out.response.code == 200
    ensures out.store.counters == st.counters
    ensures out.store.orders.Keys == st.orders.Keys
    ensures out.response.code != 200 || out.sent.None? ==> out.store.products == st.products
    ensures forall r :: r in st.orders ==> out.store.orders[r] == st.orders[r].(status := out.store.orders[r].status)
    ensures forall r :: r in st.orders && out.store.orders[r] != st.orders[r] ==> Truthy(reference) && r == reference.value
    ensures || out.store.products == st.products
            || (&& Truthy(reference) && reference.value in st.orders
                && out.store.products == ReduceStock(st.products, st.orders[reference.value].items, w.stockFaults))
  {
    if !Truthy(reference) then Outcome(st, Response(400, Rejected(PaymentReferenceRequired)), None)
    else if reference.value !in st.orders then Outcome(st, Response(404, Rejected(OrderNotFound)), None)
    else
      var o := st.orders[reference.value];
      if o.status == Completed then Outcome(st, Response(200, Accepted(AlreadyCompleted, o)), None)
      else Confirm(st, reference.value, w)
  }

  /** The gateway check, the status write and the stock loop for a stored order
      that is not yet completed. */
  function Confirm(st: Store, ref: string, w: World): (out: Outcome)
    requires ref in st.orders
    ensures out.response.code in {200, 400, 500}
    ensures out.sent.Some? ==> out.response.code == 200
    ensures out.store.counters == st.counters
    ensures ref in out.store.orders && out.store.orders == st.orders[ref := out.store.orders[ref]]
    ensures out.store.orders[ref] == st.orders[ref].(status := out.store.orders[ref].status)
    ensures out.response.code != 200 || out.sent.None? ==> out.store.products == st.products
    ensures || out.store.products == st.products
            || out.store.products == ReduceStock(st.products, st.orders[ref].items, w.stockFaults)
  {
    var o := st.orders[ref];
    match Verify(w.gateway)
    case Err(m) => Outcome(st, Response(500, Rejected(ErrorText(m, VerifyFallback))), None)
    case Ok(v) =>
      if v.Unpaid? then
        if w.writeError.Some? then
          Outcome(st, Response(500, Rejected(ErrorText(w.writeError.value, VerifyFallback))), None)
        else
          Outcome(st.(orders := st.orders[ref := o.(status := Failed)]),
                  Response(400, PaymentRefused(VerificationFailed, v.gatewayStatus)), None)
      else if v.payment.amount != o.totalAmount then
        Outcome(st, Response(400, AmountDiffers(AmountMismatch, o.totalAmount, v.payment.amount)), None)
      else if w.writeError.Some? then
        Outcome(st, Response(500, Rejected(ErrorText(w.writeError.value, VerifyFallback))), None)
      else
        var paid := o.(status := Completed);
        Outcome(Store(st.orders[ref := paid], ReduceStock(st.products, o.items, w.stockFaults), st.counters),
                Response(200, Accepted(PaymentCompleted, paid)), Some(Notify(paid, w.notify)))
  }

  // ---------------------------------------------------------------------------
  // createOrder

  /** A request failing an input check gets 400 with the first failing check's
      message, and nothing else happens. */
  lemma InvalidRequestRejected(st: Store, req: CreateRequest, w: World)
    requires !RequestValid(req)
    ensures var out := CreateOrder(st, req, w);
            && out.store == st && out.sent.None? && out.response.code == 400
            && (!CustomerGiven(req) ==> out.response.reply == Rejected(CustomerRequired))
            && (CustomerGiven(req) && !ItemsGiven(req) ==> out.response.reply == Rejected(ItemsRequired))
            && (CustomerGiven(req) && ItemsGiven(req) && !AmountGiven(req) ==>
                  out.response.reply == Rejected(AmountRequired))
            && (CustomerGiven(req) && ItemsGiven(req) && AmountGiven(req) ==>
                  out.response.reply == Rejected(ReferenceRequired))
  {
  }

  /** A reference already on file is answered with the stored order, whatever the
      gateway, the counters or the messaging services would have done. */
  lemma ExistingReferenceReplayed(st: Store, req: CreateRequest, w: World)
    requires RequestValid(req) && req.paystackReference.value in st.orders
    ensures CreateOrder(st, req, w)
            == Outcome(st, Response(200, Accepted(OrderExists, st.orders[req.paystackReference.value])), None)
  {
  }

  /** Sending the same request again after it created an order changes nothing and
      returns the order created the first time. */
  lemma ReplayAfterCreate(st: Store, req: CreateRequest, w1: World, w2: World)
    requires CreateOrder(st, req, w1).response.code == 201
    ensures var first := CreateOrder(st, req, w1);
            CreateOrder(first.store, req, w2)
            == Outcome(first.store, Response(200, Accepted(OrderExists, first.response.reply.order)), None)
  {
    var first := CreateOrder(st, req, w1);
    ExistingReferenceReplayed(first.store, req, w2);
  }

  /** Without a confirmed payment of exactly the order total nothing is stored and
      no order number is taken. */
  lemma PaymentGate(st: Store, req: CreateRequest, w: World)
    requires RequestValid(req) && req.paystackReference.value !in st.orders
    requires !(&& Verify(w.gateway).Ok? && Verify(w.gateway).value.Paid?
               && Verify(w.gateway).value.payment.amount == req.totalAmount.value)
    ensures var out := CreateOrder(st, req, w);
            && out.store == st && out.sent.None?
            && (Verify(w.gateway).Err? ==>
                  out.response == Response(500, Rejected(ErrorText(Verify(w.gateway).error, CreateFallback))))
            && (Verify(w.gateway).Ok? && Verify(w.gateway).value.Unpaid? ==>
                  out.response == Response(400, PaymentRefused(PaymentIncomplete, Verify(w.gateway).value.gatewayStatus)))
            && (Verify(w.gateway).Ok? && Verify(w.gateway).value.Paid? ==>
                  out.response == Response(400, AmountDiffers(AmountMismatch, req.totalAmount.value,
                                                              Verify(w.gateway).value.payment.amount)))
  {
  }

  /** A valid request under a new reference is created exactly when the gateway
      confirms a payment of the total, the counter step and the write succeed,
      and the order schema accepts the order under the year's next number. */
  lemma CreatedExactly(st: Store, req: CreateRequest, w: World)
    requires RequestValid(req) && req.paystackReference.value !in st.orders
    ensures CreateOrder(st, req, w).response.code == 201
            <==> && Verify(w.gateway).Ok? && Verify(w.gateway).value.Paid?
                 && Verify(w.gateway).value.payment.amount == req.totalAmount.value
                 && Recordable(st, req, w)
  {
    assert ValidationError(req).None?;
    assert CreateOrder(st, req, w) == Settle(st, req, w);
    SettleCreates(st, req, w);
  }

  lemma SettleCreates(st: Store, req: CreateRequest, w: World)
    requires RequestValid(req)
    ensures Settle(st, req, w).response.code == 201
            <==> && Verify(w.gateway).Ok? && Verify(w.gateway).value.Paid?
                 && Verify(w.gateway).value.payment.amount == req.totalAmount.value
                 && Recordable(st, req, w)
  {
    match Verify(w.gateway)
    case Err(_) =>
    case Ok(v) =>
      if v.Paid? && v.payment.amount == req.totalAmount.value {
        assert Settle(st, req, w) == Persist(st, req, w);
      }
  }

  /** A created order was paid in full: the gateway reported the total, in
      pesewas. */
  lemma PaidInFull(st: Store, req: CreateRequest, w: World)
    requires CreateOrder(st, req, w).response.code == 201
    ensures w.gateway.Reply? && w.gateway.data.Some?
    ensures w.gateway.data.value.amount as real == req.totalAmount.value * 100.0
  {
    AmountMatches(w.gateway, req.totalAmount.value);
  }

  /** The order a successful create stores: completed, numbered with the year's
      next counter value, in the requested currency or cedis, with the stock
      loop run over its items. */
  lemma CreatedOrder(st: Store, req: CreateRequest, w: World)
    requires CreateOrder(st, req, w).response.code == 201
    ensures var out := CreateOrder(st, req, w);
            var o := out.response.reply.order;
            && out.response.reply == Accepted(OrderCreated, o)
            && o.status == Completed
            && Current(out.store.counters, w.year) == Current(st.counters, w.year) + 1
            && o.orderNumber == FormatOrderNumber(w.year, Current(out.store.counters, w.year))
            && o.currency == CurrencyOf(req.currency)
            && o.paystackReference == req.paystackReference
            && o.totalAmount == req.totalAmount.value
            && o.customer.name == req.customer.value.name.value
            && o.customer.email == req.customer.value.email.value
            && o.metadata == req.metadata
            && |o.items| == |req.items.value|
            && out.store.products == ReduceStock(st.products, o.items, w.stockFaults)
            && out.sent == Some(Notify(o, w.notify))
  {
    assert CreateOrder(st, req, w) == Persist(st, req, w);
    PersistedOrder(st, req, w);
  }

  /** The same facts about the persisting step on its own. */
  lemma PersistedOrder(st: Store, req: CreateRequest, w: World)
    requires RequestValid(req) && Persist(st, req, w).response.code == 201
    ensures var out := Persist(st, req, w);
            var o := out.response.reply.order;
            && out.response.reply == Accepted(OrderCreated, o)
            && o.status == Completed
            && Current(out.store.counters, w.year) == Current(st.counters, w.year) + 1
            && o.orderNumber == FormatOrderNumber(w.year, Current(out.store.counters, w.year))
            && o.currency == CurrencyOf(req.currency)
            && o.paystackReference == req.paystackReference
            && o.totalAmount == req.totalAmount.value
            && o.customer.name == req.customer.value.name.value
            && o.customer.email == req.customer.value.email.value
            && o.metadata == req.metadata
            && |o.items| == |req.items.value|
            && out.store.products == ReduceStock(st.products, o.items, w.stockFaults)
            && out.sent == Some(Notify(o, w.notify))
  {
    var g := GenerateOrderNumber(st.counters, w.year, w.counterFails);
    GeneratedNumber(st.counters, w.year, w.counterFails, g.number.value);
  }

  /** The messaging outcomes never change the store or the response. */
  lemma CreateIgnoresNotifications(st: Store, req: CreateRequest, w: World, env: NotifyEnv)
    ensures CreateOrder(st, req, w).store == CreateOrder(st, req, w.(notify := env)).store
    ensures CreateOrder(st, req, w).response == CreateOrder(st, req, w.(notify := env)).response
  {
    if ValidationError(req).None? && req.paystackReference.value !in st.orders {
      SettleIgnoresNotifications(st, req, w, env);
    }
  }

  lemma SettleIgnoresNotifications(st: Store, req: CreateRequest, w: World, env: NotifyEnv)
    requires RequestValid(req)
    ensures Settle(st, req, w).store == Settle(st, req, w.(notify := env)).store
    ensures Settle(st, req, w).response == Settle(st, req, w.(notify := env)).response
  {
    var w' := w.(notify := env);
    assert w'.gateway == w.gateway;
    if Verify(w.gateway).Ok? && Verify(w.gateway).value.Paid?
       && Verify(w.gateway).value.payment.amount == req.totalAmount.value {
      PersistIgnoresNotifications(st, req, w, env);
    }
  }

  lemma PersistIgnoresNotifications(st: Store, req: CreateRequest, w: World, env: NotifyEnv)
    requires RequestValid(req)
    ensures Persist(st, req, w).store == Persist(st, req, w.(notify := env)).store
    ensures Persist(st, req, w).response == Persist(st, req, w.(notify := env)).response
  {
    var w' := w.(notify := env);
    var g := GenerateOrderNumber(st.counters, w.year, w.counterFails);
    assert GenerateOrderNumber(st.counters, w'.year, w'.counterFails) == g;
    if g.number.Ok? {
      var b := BuildOrder(Draft(req, g.number.value));
      if b.Ok? && w.writeError.None? {
        var ps := ReduceStock(st.products, b.value.items, w.stockFaults);
        assert ReduceStock(st.products, b.value.items, w'.stockFaults) == ps;
      }
    }
  }

  // ---------------------------------------------------------------------------
  // verifyPayment

  /** A missing reference is refused, an unknown one is not found, and an order
      already completed is returned as it is; none of them changes anything. */
  lemma VerifyEarlyExits(st: Store, reference: Option<string>, w: World)
    ensures var out := VerifyPayment(st, reference, w);
            && (!Truthy(reference) ==> out == Outcome(st, Response(400, Rejected(PaymentReferenceRequired)), None))
            && (Truthy(reference) && reference.value !in st.orders ==>
                  out == Outcome(st, Response(404, Rejected(OrderNotFound)), None))
            && (Truthy(reference) && reference.value in st.orders && st.orders[reference.value].status == Completed ==>
                  out == Outcome(st, Response(200, Accepted(AlreadyCompleted, st.orders[reference.value])), None))
  {
  }

  /** The three settlements of an order not yet completed: an unpaid reply marks
      it failed, a paid reply of another amount changes nothing, and a paid reply
      of the exact total completes it and runs the stock loop. */
  lemma VerifySettles(st: Store, ref: string, w: World)
    requires ref != "" && ref in st.orders && st.orders[ref].status != Completed
    requires Verify(w.gateway).Ok? && w.writeError.None?
    ensures var out := VerifyPayment(st, Some(ref), w);
            var o := st.orders[ref];
            var v := Verify(w.gateway).value;
            && (v.Unpaid? ==> && out.store == st.(orders := st.orders[ref := o.(status := Failed)])
                              && out.response == Response(400, PaymentRefused(VerificationFailed, v.gatewayStatus))
                              && out.sent.None?)
            && (v.Paid? && v.payment.amount != o.totalAmount ==>
                  && out.store == st && out.sent.None?
                  && out.response == Response(400, AmountDiffers(AmountMismatch, o.totalAmount, v.payment.amount)))
            && (v.Paid? && v.payment.amount == o.totalAmount ==>
                  && out.store.orders == st.orders[ref := o.(status := Completed)]
                  && out.store.products == ReduceStock(st.products, o.items, w.stockFaults)
                  && out.response == Response(200, Accepted(PaymentCompleted, o.(status := Completed)))
                  && out.sent == Some(Notify(o.(status := Completed), w.notify)))
  {
  }

  /** A thrown gateway call, or a failed write of the order's new status after an
      unpaid reply or a paid reply of the exact total, answers 500 with the
      error's message (or the handler's fallback) and changes nothing. */
  lemma VerifyFails(st: Store, ref: string, w: World)
    requires ref != "" && ref in st.orders && st.orders[ref].status != Completed
    ensures var out := VerifyPayment(st, Some(ref), w);
            var o := st.orders[ref];
            && (Verify(w.gateway).Err? ==>
                  out == Outcome(st, Response(500, Rejected(ErrorText(Verify(w.gateway).error, VerifyFallback))), None))
            && (&& Verify(w.gateway).Ok? && w.writeError.Some?
                && (Verify(w.gateway).value.Unpaid? || Verify(w.gateway).value.payment.amount == o.totalAmount) ==>
                  out == Outcome(st, Response(500, Rejected(ErrorText(w.writeError.value, VerifyFallback))), None))
  {
  }

  lemma VerifyIgnoresNotifications(st: Store, reference: Option<string>, w: World, env: NotifyEnv)
    ensures VerifyPayment(st, reference, w).store == VerifyPayment(st, reference, w.(notify := env)).store
    ensures VerifyPayment(st, reference, w).response == VerifyPayment(st, reference, w.(notify := env)).response
  {
  }

  // ---------------------------------------------------------------------------
  // The store invariant

  /** `number` is one the counters have handed out: some year's value between one
      and that year's current counter, formatted. */
  ghost predicate Issued(number: string, c: Counters) {
    exists y: nat, v: nat :: 1 <= v <= Current(c, y) && number == FormatOrderNumber(y, v)
  }

  /** Each order is filed under its own reference. */
  ghost predicate FiledByReference(orders: map<string, Order>) {
    forall r :: r in orders ==> orders[r].paystackReference == Some(r)
  }

  /** No two orders share a number. */
  ghost predicate NumbersDistinct(orders: map<string, Order>) {
    forall r1, r2 :: r1 in orders && r2 in orders && r1 != r2 ==>
      orders[r1].orderNumber != orders[r2].orderNumber
  }

  /** Every number was issued by the counters. */
  ghost predicate AllIssued(orders: map<string, Order>, c: Counters) {
    forall r :: r in orders ==> Issued(orders[r].orderNumber, c)
  }

  /** What every reachable store satisfies: each order is filed under its own
      reference, no two orders share a number, every number was issued by the
      counters, and no stock is negative. */
  ghost predicate Valid(st: Store) {
    && FiledByReference(st.orders)
    && NumbersDistinct(st.orders)
    && AllIssued(st.orders, st.counters)
    && StockNonNegative(st.products)
  }

  /** Counters only move forward. */
  ghost predicate Advanced(c: Counters, c': Counters) {
    forall y :: Current(c, y) <= Current(c', y)
  }

  lemma IssuedStays(number: string, c: Counters, c': Counters)
    requires Issued(number, c) && Advanced(c, c')
    ensures Issued(number, c')
  {
    var y: nat, v: nat :| 1 <= v <= Current(c, y) && number == FormatOrderNumber(y, v);
    assert Current(c, y) <= Current(c', y);
  }

  /** A freshly allocated number differs from every number issued before. */
  lemma FreshNumber(number: string, c: Counters, year: nat)
    requires Issued(number, c)
    ensures number != FormatOrderNumber(year, Current(c, year) + 1)
  {
    var y: nat, v: nat :| 1 <= v <= Current(c, y) && number == FormatOrderNumber(y, v);
    if number == FormatOrderNumber(year, Current(c, year) + 1) {
      FormatInjective(y, v, year, Current(c, year) + 1);
    }
  }

  lemma GenerateAdvances(c: Counters, year: nat, fails: bool)
    ensures Advanced(c, GenerateOrderNumber(c, year, fails).counters)
  {
    var c' := GenerateOrderNumber(c, year, fails).counters;
    forall y ensures Current(c, y) <= Current(c', y) {
      if y != year && y in c {
        assert y in c';
      }
    }
  }

  /** `createOrder` keeps the store valid, on every path. */
  lemma CreatePreservesValid(st: Store, req: CreateRequest, w: World)
    requires Valid(st)
    ensures Valid(CreateOrder(st, req, w).store)
  {
    if RequestValid(req) && req.paystackReference.value !in st.orders
       && Verify(w.gateway).Ok? && Verify(w.gateway).value.Paid?
       && Verify(w.gateway).value.payment.amount == req.totalAmount.value {
      PersistPreservesValid(st, req, w);
    }
  }

  lemma PersistPreservesValid(st: Store, req: CreateRequest, w: World)
    requires Valid(st) && RequestValid(req) && req.paystackReference.value !in st.orders
    ensures Valid(Persist(st, req, w).store)
  {
    var out := Persist(st, req, w);
    var g := GenerateOrderNumber(st.counters, w.year, w.counterFails);
    GenerateAdvances(st.counters, w.year, w.counterFails);
    if out.response.code == 201 {
      var o := out.response.reply.order;
      GeneratedNumber(st.counters, w.year, w.counterFails, o.orderNumber);
      ReducePreservesNonNegative(st.products, o.items, w.stockFaults);
      ValidAdd(st, req.paystackReference.value, o, out.store.products, g.counters, w.year);
      assert out.store == Store(st.orders[req.paystackReference.value := o], out.store.products, g.counters);
    } else {
      ValidAdvance(st, g.counters);
      assert out.store == st.(counters := g.counters);
    }
  }

  /** A generated number is the year's counter value plus one, formatted, and the
      counter has moved to that value. */
  lemma GeneratedNumber(c: Counters, year: nat, fails: bool, number: string)
    requires GenerateOrderNumber(c, year, fails).number == Ok(number)
    ensures number == FormatOrderNumber(year, Current(c, year) + 1)
    ensures Current(GenerateOrderNumber(c, year, fails).counters, year) == Current(c, year) + 1
  {
  }

  /** Moving the counters forward keeps a valid store valid. */
  lemma ValidAdvance(st: Store, c': Counters)
    requires Valid(st) && Advanced(st.counters, c')
    ensures Valid(st.(counters := c'))
  {
    IssuedAdvance(st.orders, st.counters, c');
  }

  lemma IssuedAdvance(orders: map<string, Order>, c: Counters, c': Counters)
    requires AllIssued(orders, c) && Advanced(c, c')
    ensures AllIssued(orders, c')
  {
    forall r | r in orders
      ensures Issued(orders[r].orderNumber, c')
    {
      IssuedStays(orders[r].orderNumber, c, c');
    }
  }

  /** Filing a new order under a new reference, numbered with the year's freshly
      advanced counter, keeps the store valid. */
  lemma ValidAdd(st: Store, ref: string, o: Order, ps: Products, c': Counters, year: nat)
    requires Valid(st) && ref !in st.orders && o.paystackReference == Some(ref)
    requires Advanced(st.counters, c') && Current(c', year) == Current(st.counters, year) + 1
    requires o.orderNumber == FormatOrderNumber(year, Current(st.counters, year) + 1)
    requires StockNonNegative(ps)
    ensures Valid(Store(st.orders[ref := o], ps, c'))
  {
    FiledAdd(st.orders, ref, o);
    DistinctAfterAdd(st.orders, st.counters, ref, o, year);
    IssuedAfterAdd(st.orders, st.counters, c', ref, o, year);
  }

  lemma DistinctAfterAdd(orders: map<string, Order>, c: Counters, ref: string, o: Order, year: nat)
    requires NumbersDistinct(orders) && AllIssued(orders, c) && ref !in orders
    requires o.orderNumber == FormatOrderNumber(year, Current(c, year) + 1)
    ensures NumbersDistinct(orders[ref := o])
  {
    NewNumberDistinct(orders, c, o.orderNumber, year);
    DistinctAdd(orders, ref, o);
  }

  lemma IssuedAfterAdd(orders: map<string, Order>, c: Counters, c': Counters, ref: string, o: Order, year: nat)
    requires AllIssued(orders, c) && Advanced(c, c') && Current(c', year) == Current(c, year) + 1
    requires o.orderNumber == FormatOrderNumber(year, Current(c, year) + 1)
    ensures AllIssued(orders[ref := o], c')
  {
    IssuedAdvance(orders, c, c');
    NewNumberIssued(o.orderNumber, c, c', year);
    IssuedAdd(orders, c', ref, o);
  }

  lemma FiledAdd(orders: map<string, Order>, ref: string, o: Order)
    requires FiledByReference(orders) && o.paystackReference == Some(ref)
    ensures FiledByReference(orders[ref := o])
  {
    var m := orders[ref := o];
    forall r | r in m
      ensures m[r].paystackReference == Some(r)
    {
      if r != ref {
        assert m[r] == orders[r];
      }
    }
  }

  lemma DistinctAdd(orders: map<string, Order>, ref: string, o: Order)
    requires NumbersDistinct(orders) && ref !in orders
    requires forall r :: r in orders ==> orders[r].orderNumber != o.orderNumber
    ensures NumbersDistinct(orders[ref := o])
  {
    var m := orders[ref := o];
    forall r1, r2 | r1 in m && r2 in m && r1 != r2
      ensures m[r1].orderNumber != m[r2].orderNumber
    {
      if r1 != ref && r2 != ref {
        assert m[r1] == orders[r1] && m[r2] == orders[r2];
      }
    }
  }

  lemma IssuedAdd(orders: map<string, Order>, c: Counters, ref: string, o: Order)
    requires AllIssued(orders, c) && Issued(o.orderNumber, c)
    ensures AllIssued(orders[ref := o], c)
  {
    var m := orders[ref := o];
    forall r | r in m
      ensures Issued(m[r].orderNumber, c)
    {
      if r != ref {
        assert m[r] == orders[r];
      }
    }
  }

  lemma NewNumberIssued(number: string, c: Counters, c': Counters, year: nat)
    requires Current(c', year) == Current(c, year) + 1
    requires number == FormatOrderNumber(year, Current(c, year) + 1)
    ensures Issued(number, c')
  {
    var k := Current(c, year) + 1;
    assert 1 <= k <= Current(c', year) && number == FormatOrderNumber(year, k);
  }

  lemma NewNumberDistinct(orders: map<string, Order>, c: Counters, number: string, year: nat)
    requires AllIssued(orders, c)
    requires number == FormatOrderNumber(year, Current(c, year) + 1)
    ensures forall r :: r in orders ==> orders[r].orderNumber != number
  {
    forall r | r in orders
      ensures orders[r].orderNumber != number
    {
      FreshNumber(orders[r].orderNumber, c, year);
    }
  }

  /** Changing statuses (and stock, keeping it non-negative) keeps a valid store
      valid. */
  lemma ValidStatusChange(st: Store, st': Store)
    requires Valid(st) && st'.counters == st.counters && st'.orders.Keys == st.orders.Keys
    requires forall r :: r in st.orders ==> st'.orders[r] == st.orders[r].(status := st'.orders[r].status)
    requires StockNonNegative(st'.products)
    ensures Valid(st')
  {
    var a, b := st.orders, st'.orders;
    assert forall r :: r in b ==> b[r].paystackReference == a[r].paystackReference;
    assert forall r :: r in b ==> b[r].orderNumber == a[r].orderNumber;
  }

  /** `verifyPayment` keeps the store valid: it only ever changes a status and
      stock. */
  lemma VerifyPreservesValid(st: Store, reference: Option<string>, w: World)
    requires Valid(st)
    ensures Valid(VerifyPayment(st, reference, w).store)
  {
    var out := VerifyPayment(st, reference, w);
    if out.store.products != st.products {
      ReducePreservesNonNegative(st.products, st.orders[reference.value].items, w.stockFaults);
    }
    ValidStatusChange(st, out.store);
  }

  /** Every order is completed: what a store written only by `createOrder` looks
      like. */
  predicate AllCompleted(st: Store) {
    forall r :: r in st.orders ==> st.orders[r].status == Completed
  }

  lemma CreateKeepsAllCompleted(st: Store, req: CreateRequest, w: World)
    requires AllCompleted(st)
    ensures AllCompleted(CreateOrder(st, req, w).store)
  {
    var out := CreateOrder(st, req, w);
    if out.response.code == 201 {
      CreatedOrder(st, req, w);
    }
  }

  /** Since `createOrder` only stores paid orders, `verifyPayment` on such a store
      never changes it and never sends anything: its later branches are reached
      only by orders written some other way. */
  lemma VerifyReadOnlyAfterCreate(st: Store, reference: Option<string>, w: World)
    requires AllCompleted(st)
    ensures VerifyPayment(st, reference, w).store == st
    ensures VerifyPayment(st, reference, w).sent.None?
    ensures VerifyPayment(st, reference, w).response.code in {200, 400, 404}
  {
  }
}
