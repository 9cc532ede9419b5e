# Lucy's Perfumery backend: the paid-order pipeline and the product handlers in Dafny

This project models the core of the Lucy's Perfumery shop backend (Express with
Mongoose documents) and proves properties of the model.

- **Order pipeline.** `createOrder` and `verifyPayment` are two transitions over
  a store. The store holds orders keyed by payment reference, products keyed by
  id, and the per-year order counters. Each outside call is replaced by its
  outcome, collected in a `World`: the payment gateway's reply, the current
  year, whether the counter update throws, an order-write failure, the stock
  updates that throw, and the messaging outcomes.
- **Order numbers.** The per-year counter (`getNextSequence`), the
  `LP-YYYY-NNNNNN` layout, and its anchored validator. The proofs cover
  injectivity, the round trip through a parser, and rejection of sequence
  numbers that no longer fit in six digits.
- **Payment classification.** The gateway reply becomes a paid payment (the
  amount divided by 100), an unpaid result, or an error.
- **Notifications.** Phone normalisation to E.164 and the SMS text. The
  e-mail item table and the `{{key}}` substitution loop, proved equal to
  rendering a template once the data holes are filled. That proof is for
  templates and values that are inert, meaning every `{` is followed by a
  character other than `{`. Single braces, as in a style sheet, are allowed. The Telegram message,
  with its numbered item list and "N/A" fallbacks. None of the four sends can
  change a handler's outcome.
- **Products.** The checks and the record of `createProduct`, the field merge
  of `updateProduct`, the active flag, soft delete, and the listing page
  arithmetic. The product schema's required fields, defaults and trimming are
  modelled as a separate save step.
- **Uploads.** `extractPublicId`.

Money is an exact `real`. JavaScript strings are `seq<char>`. JavaScript
truthiness, `trim()` and `padStart` are written out in the `Common` and `Text`
modules.

Where the product controller and the product schema disagree, the model follows
the code as written. `createProduct` builds a record without `brand`, which the
schema requires, so every create that passes the checks ends in a 500 (see
"## Findings"). The schema also declares no `options` path, so options sent to
the product handlers are never stored. A stored product therefore never counts
as one sold by options.

## Model

| member | source | states |
|---|---|---|
| OrdersController.CreateOrder | controllers/orders.controller.js:21-189 | The response is 200, 201, 400 or 500. Messages are sent exactly when it is 201. Any other code leaves orders and products untouched. A 201 means all four checks passed, the reference was new, the gateway confirmed a payment of exactly `totalAmount`, and the order was filed under its reference. |
| OrdersController.Settle | controllers/orders.controller.js:65-88 | After the input checks: no order is written unless the gateway reports a paid transaction whose amount equals the total. |
| OrdersController.Persist | controllers/orders.controller.js:90-182 | The counters become those of the number generation, even when the later write fails. It answers 201 exactly when the counter step and the write succeed and the order schema accepts the order under the year's next number; a failed write always answers 500. On 201 the order carries the generated number and the request's reference, and products are the stock reduction over the order's items. |
| OrdersController.ErrorText | controllers/orders.controller.js:183-188 | `error.message \|\| fallback`: the message when it is non-empty, otherwise the fallback. |
| OrdersController.ValidationError | controllers/orders.controller.js:25-51 | No error exactly when the customer has a name, email and phone, the items are a non-empty array, the total is positive, and the reference is present. |
| OrdersController.CurrencyOf | controllers/orders.controller.js:98 | A missing or empty currency becomes "GHS"; any other value is kept. |
| OrdersController.InvalidRequestRejected | controllers/orders.controller.js:25-51 | An invalid request gets 400 with the first failing check's message, in the handler's order, and leaves the store unchanged with nothing sent. |
| OrdersController.ExistingReferenceReplayed | controllers/orders.controller.js:54-63 | A known reference returns the stored order with 200. The store is unchanged, so there is no gateway use, no counter step, no stock change and no message. |
| OrdersController.ReplayAfterCreate | controllers/orders.controller.js:54-63 | Repeating a successful create, under any later world, replays the order that the first call created. |
| OrdersController.CreatedExactly | controllers/orders.controller.js:65-182 | A valid request under a new reference is created with 201 exactly when the gateway confirms a payment of the total, the counter step and the write succeed, and the schema accepts the order. |
| OrdersController.PaymentGate | controllers/orders.controller.js:66-88 | Without a confirmed payment of exactly the total, nothing is stored or allocated. A gateway error answers 500 with its message, or "Failed to create order" when that is empty. An unpaid reply answers 400 with the gateway status; a different amount answers 400 with both amounts. |
| OrdersController.PersistFails | controllers/orders.controller.js:90-188 | A counter failure, a schema refusal of the order, or a failed write each answers 500: the counter's message, the order validation message, or the write's message with "Failed to create order" as fallback. Orders and stock are untouched; only the counter step stays. |
| OrdersController.CreatedOrder | controllers/orders.controller.js:90-182 | A created order is `completed`. Its number is the year's next sequence value, and the year's counter went up by one. Currency, reference, total, customer, metadata and item count come from the request. Products are the stock reduction, and the four sends are attempted. |
| OrdersController.CreateIgnoresNotifications | controllers/orders.controller.js:134-174 | The store and the response do not depend on the messaging outcomes. |
| OrdersController.VerifyPayment | controllers/orders.controller.js:196-339 | Counters and the set of references never change. An order can change only in its status, and only the requested one. Products are unchanged or are the stock reduction over that order's items. |
| OrdersController.VerifyEarlyExits | controllers/orders.controller.js:200-223 | A missing reference gives 400 and an unknown one gives 404. An already completed order is returned with 200. In all three cases the store is unchanged and nothing is sent. |
| OrdersController.VerifySettles | controllers/orders.controller.js:228-331 | An unpaid reply marks the order `failed` with 400. A different amount changes nothing and answers 400. A matching payment marks it `completed`, reduces stock, notifies, and answers 200. |
| OrdersController.VerifyFails | controllers/orders.controller.js:222-337 | A gateway error, or a failed status write after an unpaid or a matching reply, answers 500 with the error's message, or "Failed to verify payment" when that is empty. Nothing changes and nothing is sent. |
| OrdersController.VerifyIgnoresNotifications | controllers/orders.controller.js:284-324 | The store and the response of `verifyPayment` do not depend on the messaging outcomes. |
| OrdersController.IssuedStays | models/orderCounter.model.js:31-37 | A number issued by the counters stays issued once they advance. |
| OrdersController.FreshNumber | services/orderNumber.service.js:19-23 | The next number of any year differs from every number already issued. |
| OrdersController.GenerateAdvances | services/orderNumber.service.js:12-31 | Number generation never moves a counter backwards, whether it fails or not. |
| OrdersController.CreatePreservesValid | controllers/orders.controller.js:21-189 | `createOrder` keeps the store invariant. Each order is filed under its own reference, order numbers are unique, every number was issued by the counters, and no stock is negative. |
| OrdersController.PersistPreservesValid | controllers/orders.controller.js:90-131 | Persisting a new order keeps the store invariant. |
| OrdersController.ValidAdvance | models/orderCounter.model.js:31-37 | Advancing the counters keeps the store invariant. |
| OrdersController.ValidAdd | models/orders.model.js:5-10 | Adding an order under a new reference, numbered with the next value of its year, keeps the store invariant, including unique order numbers. |
| OrdersController.NewNumberIssued | services/orderNumber.service.js:19-23 | The freshly generated number counts as issued by the advanced counters. |
| OrdersController.NewNumberDistinct | models/orders.model.js:5-10 | The freshly generated number differs from the number of every stored order. |
| OrdersController.ValidStatusChange | controllers/orders.controller.js:228-252 | Changing only statuses, with non-negative stock, keeps the store invariant. |
| OrdersController.VerifyPreservesValid | controllers/orders.controller.js:196-339 | `verifyPayment` keeps the store invariant. |
| OrdersController.CreateKeepsAllCompleted | controllers/orders.controller.js:93-102 | `createOrder` only ever stores completed orders. |
| OrdersController.VerifyReadOnlyAfterCreate | controllers/orders.controller.js:217-223 | On a store where every order is completed, `verifyPayment` changes nothing, sends nothing, and answers 200, 400 or 404. |
| OrderCounter.GetNextSequence | models/orderCounter.model.js:31-37 | A missing year starts at 1 and an existing counter returns its value plus one. The stored value equals the returned one. Other years are untouched, and each year has at most one counter. |
| OrderCounter.ConsecutiveAllocations | models/orderCounter.model.js:34 | Two calls for the same year return consecutive values. |
| OrderCounter.AllocateRun | models/orderCounter.model.js:31-37 | `n` calls return `Current + 1` up to `Current + n`, strictly increasing. The counter advances by `n` and other years keep their values. |
| OrderNumber.PaddedSequence | services/orderNumber.service.js:22 | `padStart(6, "0")` is at least six characters long and never shorter than the number's decimal text, so it never truncates. |
| OrderNumber.PaddedSequenceDigits | services/orderNumber.service.js:22 | The padded text is all digits and reads back as the sequence number. It is exactly six digits long iff the number is below 1000000. |
| OrderNumber.FormatOrderNumber | services/orderNumber.service.js:22-23 | The number is "LP-", then the year, "-" and the padded sequence, with the two dashes at their fixed places. |
| OrderNumber.FormatLayout | services/orderNumber.service.js:23 | Each character of the year and of the padded sequence sits at its offset in the number. |
| OrderNumber.FormatValidIff | services/orderNumber.service.js:38-41 | A generated number passes the validator iff the year has four digits and the sequence is at most 999999. |
| OrderNumber.GeneratedNumberValid | services/orderNumber.service.js:22-23 | For a four-digit year and a sequence number from 1 to 999999, the number passes the validator. |
| OrderNumber.OverflowRejected | services/orderNumber.service.js:22 | From 1000000 on, the suffix is longer than six digits and the validator rejects the number. |
| OrderNumber.FormatInjective | services/orderNumber.service.js:22-23 | Equal numbers come from equal years and equal sequence values. |
| OrderNumber.ParseOrderNumber | services/orderNumber.service.js:38-41 | The parse succeeds exactly on strings the anchored pattern `LP-` + 4 digits + `-` + 6 digits accepts. |
| OrderNumber.ParseFormat | services/orderNumber.service.js:38-41 | Parsing a valid generated number gives back its year and sequence value. |
| OrderNumber.FormatParse | services/orderNumber.service.js:38-41 | Formatting the parse of a valid number whose year has no leading zero gives the number back. |
| OrderNumber.GenerateOrderNumber | services/orderNumber.service.js:12-31 | A counter failure leaves the counters as they were and yields the single message "Failed to generate order number". Otherwise the year's counter advances by one and the number formats the new value. Other years are untouched. |
| OrderModel.StatusText | models/orders.model.js:31-35 | A status is one of "pending", "completed" or "failed". |
| OrderModel.ParseStatus | models/orders.model.js:33 | Exactly the three enum strings are accepted. |
| OrderModel.StatusRoundTrip | models/orders.model.js:31-35 | Status text and parsing are inverse to each other. |
| OrderModel.ReferenceText | services/telegram.service.js:81 | A present reference is written as itself. |
| OrderModel.MissingPaths | models/orders.model.js:5-29 | No path is missing exactly when every required path of the order and of each item is filled. |
| OrderModel.BuildOrder | models/orders.model.js:3-40 | Saving fails exactly when a required path is missing, listing the missing paths. Otherwise the order keeps the given values and takes the defaults: e-mail, "GHS", `pending`. |
| OrderModel.DefaultsApplied | models/orders.model.js:13-35 | Without status, currency or e-mail, the order is `pending`, in "GHS", for "lucysperfumery@gmail.com". |
| OrderModel.GivenValuesKept | models/orders.model.js:13-35 | Given status, currency and e-mail are kept. |
| OrderModel.ToItem | models/orders.model.js:16-28 | A stored item carries the product id, name, quantity, price and the optional selected option it was given. |
| Stock.ReduceOneFacts | controllers/orders.controller.js:107-123 | An existing product with at least `quantity` in stock loses exactly `quantity`; otherwise nothing changes. No other product and no other field changes. |
| Stock.ReduceStock | controllers/orders.controller.js:105-131 | Only stock changes. A product no attempted item names is untouched. A stock value either stays or ends non-negative. |
| Stock.ApplyFacts | controllers/orders.controller.js:105-131 | The item loop satisfies the same three facts as the whole reduction. |
| Stock.ReducePreservesNonNegative | controllers/orders.controller.js:110-111 | Non-negative stock stays non-negative. |
| Stock.ReduceConcat | controllers/orders.controller.js:105-131 | Reducing for `a + b` is reducing for `a`, then for `b`: one item's outcome never stops later items. |
| Stock.FaultIsSkip | controllers/orders.controller.js:124-130 | An item whose update throws is skipped and the loop goes on. |
| Stock.NeverIncreases | controllers/orders.controller.js:105-131 | With non-negative quantities, no stock goes up. |
| Stock.ReduceStockLoop | controllers/orders.controller.js:255-281 | The loop over the items computes exactly `ReduceStock`. |
| Paystack.Verify | services/paystack.service.js:8-48 | The result is paid iff `status === true` and the transaction status is "success". Any other well-formed reply is unpaid, with the fixed message and the gateway status. A failed call raises the API's message or the fixed fallback. |
| Paystack.PaidEchoesGateway | services/paystack.service.js:20-34 | A paid result's amount times 100 is the gateway amount. Reference, currency, status, time, customer e-mail, phone and metadata are echoed. |
| Paystack.AmountMatches | services/paystack.service.js:24 | For a paid verification, the converted amount equals a total iff the gateway's minor units are that total times 100. |
| OrdersController.PaidInFull | controllers/orders.controller.js:78-87 | A created order's total times 100 is exactly the amount, in pesewas, that the gateway reported. |
| Money.ToFixed2 | services/email.service.js:45-46 | `toFixed(2)` gives a sign only for negatives, digits, a point, and exactly two more digits. |
| Money.ToFixed2Value | services/email.service.js:74 | The digits of `toFixed(2)` spell the value in hundredths, rounded to the nearest. |
| Money.ExactCents | services/email.service.js:74 | A value with an exact number of hundredths prints exactly those hundredths. |
| FixedPoint.FixedTextValue | services/telegram.service.js:21-23 | The fixed text is the whole part in decimal and two digits of hundredths. |
| Hubtel.Clean | services/hubtel.service.js:56-58 | After cleaning, no white space, '-', '(', ')' or '.' remains. |
| Hubtel.CleanIsStrip | services/hubtel.service.js:56-58 | Trimming before the removal makes no difference. |
| Hubtel.StripFacts | services/hubtel.service.js:58 | The removal leaves no separator and keeps a separator-free string as it is. |
| Hubtel.ShapeOf | services/hubtel.service.js:61-78 | A cleaned string has a shape iff it is `+digits` or all digits (at least one). |
| Hubtel.Rewrite | services/hubtel.service.js:61-75 | Every rewrite is `+` followed only by digits. |
| Hubtel.ShapeRewrites | services/hubtel.service.js:61-75 | The rules apply in order: `+d` is kept, `00d` becomes `+d`, `0d` becomes `+233d`, `233d` becomes `+233d`, other digits get `+233`. |
| Hubtel.Normalize | services/hubtel.service.js:52-84 | Success comes exactly when the cleaned string has a shape and its rewrite has 8 to 15 digits after the `+`, and then the number is that rewrite. "Invalid phone number format" comes exactly when the cleaned string has no shape; any other failure is the E.164 error. |
| Hubtel.NationalNumber | services/hubtel.service.js:66-83 | A number that cleans to `0` followed by a subscriber number of 5 to 12 digits not starting with `0` is sent to `+233` and that subscriber number: "0241234567" becomes "+233241234567". |
| Hubtel.NormalizeShaped | services/hubtel.service.js:61-84 | A cleaned number with a shape whose rewrite has 8 to 15 digits is accepted as that rewrite. |
| Hubtel.MalformedRefused | services/hubtel.service.js:76-78 | An empty or bare "+" string is refused as malformed. |
| Hubtel.StrayCharacterRefused | services/hubtel.service.js:73-78 | A non-digit anywhere after an optional leading '+' is refused as malformed. |
| Hubtel.NormalizeIdempotent | services/hubtel.service.js:61-84 | Normalising a normalised number gives it back. |
| Hubtel.NormalizeE164 | services/hubtel.service.js:61-63 | A valid E.164 number is kept as it is. |
| Hubtel.Message | services/hubtel.service.js:88 | The SMS text contains the customer name, the order id and the total. |
| Hubtel.SendConfirmation | services/hubtel.service.js:52-97 | The send succeeds iff the number normalises and delivery succeeds. A normalisation error is passed on and a failed delivery raises the SMS failure. The message goes to the E.164 number. |
| Upload.Run | services/upload.service.js:65 | The captured run is the longest prefix without '.'. |
| Upload.FirstMatch | services/upload.service.js:65 | The leftmost position where the prefix is followed by a character other than '.'. |
| Upload.ExtractPublicId | services/upload.service.js:61-67 | Missing or empty input gives null, and so does input with no match. Otherwise the result is the folder followed by a non-empty run without '.'. |
| Upload.PublicIdIsFirstRun | services/upload.service.js:65-66 | The result is the folder plus the run after the first match. |
| Upload.UploadedUrl | services/upload.service.js:65-66 | For a URL ending in `folder/name.ext` with no earlier match, the id is `folder/name`. |
| Upload.RunStopsAtDot | services/upload.service.js:65 | The run of `name.ext` is `name` when the name has no dot. |
| Template.Placeholder | services/email.service.js:26 | `{{key}}` is the key between two pairs of braces. |
| Template.ReplaceHit | services/email.service.js:26-27 | A leading placeholder is replaced by the value and the scan continues after it. |
| Template.ReplaceRendered | services/email.service.js:25-28 | Replacing one key in a rendered template renders the template with that key bound, when the literal text and the values are inert. |
| Template.SubstituteRenders | services/email.service.js:20-31 | For inert literal text and values, the substitution loop over the data gives the template with every data key's holes filled and all other holes left as placeholders. |
| Template.SubstituteNoPlaceholders | services/email.service.js:25-28 | Text without any data placeholder is returned unchanged. |
| Template.FilledKeyGone | services/email.service.js:26-27 | Once a key is filled, its placeholder no longer occurs, when the literal text and the values are inert. |
| Template.NestedBracesLeavePlaceholder | services/email.service.js:26-27 | One pass does not remove every placeholder: "{{{{a}}}}" with `a` = "a" becomes "{{a}}". |
| Template.StyleRuleInert | services/email.service.js:21-22 | Literal text may hold style-sheet rules: brace-free text followed by a braced, brace-free body is inert. |
| Email.RowShape | services/email.service.js:41-48 | A row starts with the opening cell markup, then the item name, and ends with the row's closing markup. |
| Email.ItemsList | services/email.service.js:38-51 | No items give an empty table and one item gives its row. |
| Email.ItemsListConcat | services/email.service.js:39-50 | The table of `a + b` is the table of `a` followed by that of `b`: rows are joined with nothing in between. |
| Email.RowAt | services/email.service.js:39-50 | Item `i` contributes exactly its own row, between the rows before and after it. |
| Email.SendOrderConfirmation | services/email.service.js:58-92 | The send succeeds iff the template is read and delivery succeeds; failure is the fixed message. The mail goes to the customer, the subject is "Order Confirmation - " followed by the number, and the body is the substituted template. |
| Email.SendNewOrderAlert | services/email.service.js:99-136 | The send succeeds iff the template is read and delivery succeeds. The mail goes to the owner, with the alert prefix and the number as subject. |
| Email.ConfirmationFillsTemplate | services/email.service.js:69-76 | For a template of inert text and holes, with inert data values, the body is the template with the six data holes filled. |
| Telegram.Entry | services/telegram.service.js:19-23 | An entry starts with its 1-based number, ". " and the item name. |
| Telegram.ItemsTextAppend | services/telegram.service.js:16-26 | Appending an item appends a blank line and its entry, numbered after the others. |
| Telegram.ItemsTextSmall | services/telegram.service.js:16-26 | No items give an empty list and one item gives its entry; a list starts with "1. ". |
| Telegram.MetaField | services/telegram.service.js:63-72 | The value is "N/A" iff metadata or the key is missing or the value is empty (or is "N/A" itself). Otherwise it is the metadata's value. |
| Telegram.Body | services/telegram.service.js:51-82 | The message starts with '*' and ends with the back-quote after the reference. |
| Telegram.TrimKeepsBody | services/telegram.service.js:51-82 | The trim removes only the template's own indentation and final line break. |
| Telegram.BodyNamesOrder | services/telegram.service.js:55-81 | The message contains the order number and the payment reference. |
| Telegram.SendNewOrderNotification | services/telegram.service.js:33-101 | The send succeeds iff the bot exists and delivery succeeds; failure is the fixed message. The text is the Markdown body. |
| Notifications.NotifyOutcomes | controllers/orders.controller.js:134-174 | Each of the four sends succeeds by its own conditions, independently of the others. The e-mails go to the customer and the owner; the chat text is the order message. |
| ProductModel.Prepared | models/products.model.js:5-39 | Name and brand are trimmed. Image defaults to "no-image.jpg", stock to 0 and the active flag to true, each only when absent. |
| ProductModel.RequiredErrors | models/products.model.js:5-35 | No error exactly when name, description, price, category, brand and stock are all filled. |
| ProductModel.SaveProduct | models/products.model.js:3-44 | Saving fails exactly with the failing required paths. Otherwise the product holds the prepared values, with trimmed name and brand, and passes the schema. |
| ProductModel.ResaveValid | models/products.model.js:3-44 | Saving a valid stored product again returns it unchanged. |
| ProductModel.ValidationMessage | models/products.model.js:22-26 | One failing path gives "Product validation failed: path: message". |
| ProductsController.OptionError | controllers/products.controller.js:76-93 | An option passes iff its name is not blank, its price is positive, and any given stock is not negative. |
| ProductsController.OptionsError | controllers/products.controller.js:75-93 | No error iff every option passes. Otherwise the error is that of the first failing option. |
| ProductsController.CharsFailName | controllers/products.controller.js:56-80 | Options parsed to a non-empty string count as options, and the loop stops at the first character with the option-name message. |
| ProductsController.StringOptionsRefused | controllers/products.controller.js:43-80 | A create whose `options` text parses to a non-empty string is refused with "Each option must have a name". |
| ProductsController.StringOptionsRefusedOnUpdate | controllers/products.controller.js:262-286 | An update of a known product whose `options` text parses to a non-empty string is refused with "Each option must have a name", and nothing changes. |
| ProductsController.CreateOptions | controllers/products.controller.js:43-53 | Unparseable non-empty string options give "Invalid options format". Falsy options give the empty list. |
| ProductsController.BaseError | controllers/products.controller.js:58-71 | No error iff the price is given and positive and any given stock is not negative. |
| ProductsController.CreateValidation | controllers/products.controller.js:21-94 | The checks pass iff the request is acceptable. Blank name, description and category are reported in that order, and a failed parse before the option or price checks. |
| ProductsController.CreateRecordShape | controllers/products.controller.js:110-122 | Name, description and category are trimmed. With options, price and stock are 0 and the options are attached. Otherwise the record has the positive price and the given stock or 0. The record is active unless told otherwise. |
| ProductsController.ImageOf | controllers/products.controller.js:97-107 | The image is "no-image.jpg" without a file and the uploaded URL with one. A failed upload stops the handler. |
| ProductsController.Store | controllers/products.controller.js:124-137 | A schema refusal answers 500 with the validation message. Otherwise the saved product is stored under the id. |
| ProductsController.CreateAccepted | controllers/products.controller.js:96-130 | After the checks, a failed upload answers 500 "Failed to upload image". A 201 stores a product that passes the schema. |
| ProductsController.CreateWith | controllers/products.controller.js:19-137 | 400 iff the checks fail, with their message. The catalogue changes only on 201. |
| ProductsController.NoBrandRefused | models/products.model.js:22-26 | A document complete but for the brand is refused on exactly that path. |
| ProductsController.CreateProduct | controllers/products.controller.js:19-137 | As written: the catalogue never changes. A request that fails the checks gets their 400. Any other gets the upload failure or "Product validation failed: brand: Please specify a brand". |
| ProductsController.CreateProductWithBrand | controllers/products.controller.js:19-137 | With the brand passed through, a 201 stores a product that passes the schema. |
| ProductsController.CreateWithBrandStores | controllers/products.controller.js:110-130 | With a non-blank brand, an accepted request is stored as exactly the record built from it. |
| ProductsController.UpdateOptions | controllers/products.controller.js:262-272 | An unparseable string gives "Invalid options format". Absent or `null` options count as not supplied. |
| ProductsController.UpdateCheck | controllers/products.controller.js:275-317 | New non-empty options are checked one by one. Otherwise a given price must be positive and a given stock not negative. |
| ProductsController.UpdateProduct | controllers/products.controller.js:246-366 | 404 iff the id is unknown. The set of ids never changes and the catalogue changes only on 200. A 200 stores a product that passes the schema. |
| ProductsController.UpdateAnswers | controllers/products.controller.js:274-366 | After a good parse, a failing check answers 400 with its message and a failed upload 500. Otherwise the merged product is saved; a merge that passes the schema is stored and answered with 200. |
| ProductsController.UpdateMerges | controllers/products.controller.js:332-351 | Text fields take the trimmed new value only when it is truthy. The flag changes when given. Non-empty options reset price and stock to 0; otherwise given values replace them. The brand is kept and the image changes only with an upload. |
| ProductsController.BlankNameRefused | controllers/products.controller.js:333 | A name of spaces only is assigned, trimmed to empty, and refused by the schema with 500. |
| ProductsController.SetActive | controllers/products.controller.js:393-400 | The flag is set and saved. A stored valid product changes in its flag only, and the reply carries it. |
| ProductsController.ToggleActive | controllers/products.controller.js:378-400 | A non-boolean flag gives 400 and an unknown id 404. Success sets the flag and says "activated" or "deactivated". |
| ProductsController.DeleteProduct | controllers/products.controller.js:418-434 | A soft delete. An unknown id gives 404; otherwise the product stays, with only its flag cleared. |
| ProductsController.DeleteIsDeactivate | controllers/products.controller.js:427-434 | Deleting is toggling to `false`. |
| ProductsController.ToggleIdempotent | controllers/products.controller.js:393-400 | Setting the same flag twice is setting it once. |
| ProductsController.HandlersKeepCatalogueValid | controllers/products.controller.js:19-434 | Create, update, toggle and delete keep every stored product valid for the schema. |
| ProductsController.ListProducts | controllers/products.controller.js:146-201 | Without query values, page 1 with limit 10 shows the first ten products (or all of them) and reports the total. |
| Pagination.OrDefault | controllers/products.controller.js:146-147 | `parseInt(x) \|\| d`: a value that did not parse, or parsed to 0, gives the default. |
| Pagination.PageOf | controllers/products.controller.js:146-148 | Page defaults to 1 and limit to 10, neither is 0, and `skip = (page - 1) * limit`. |
| Pagination.PageCount | controllers/products.controller.js:201 | The count is `ceil(total / limit)`. |
| Pagination.Window | controllers/products.controller.js:187-190 | The page holds up to `limit` records, taken from position `skip` in order. |
| Pagination.ExactlyOnePage | controllers/products.controller.js:146-201 | Record `k` lies on exactly one page, and that page is among the pages reported. |
| Pagination.ListPage | controllers/orders.controller.js:376-394 | A negative skip is refused. Otherwise the page, the limit, the total and the page count are reported, and the records are the ones from `skip` on. |
| Pagination.DefaultPageIsFull | controllers/orders.controller.js:376-378 | With the default limit, page `n` of a long enough list holds records `10(n-1)` up to `10n`. |
| Pagination.RecordOnItsPage | controllers/orders.controller.js:376-394 | Asking for record `k`'s page finds it at position `k % limit`. |
| Text.PadStart | services/orderNumber.service.js:22 | `padStart` keeps the whole string at the end and fills only in front, up to the width. |
| Text.Trim | controllers/products.controller.js:21 | `trim()` leaves no white space at either end, and is empty iff the input is all white space. |
| Text.TrimIdempotent | controllers/products.controller.js:333 | Trimming twice is trimming once. |
| Text.Join | services/telegram.service.js:25 | `join` of nothing is empty and of one part is that part. |
| Text.JoinAppend | services/telegram.service.js:25 | Joining `a + b` puts the separator once between the two joins. |
| Text.DecimalRoundTrip | services/orderNumber.service.js:22 | The decimal digits of a number read back as that number. |

## Left out

- The HTTP layer, logging and routing are not modelled. `routes/orders.routes.js` has the order routes commented out, and the handlers are modelled anyway.
- The clock is a parameter. The year and both formatted dates (`toLocaleDateString`, `toLocaleString`) are inputs.
- The template file read, the mail transport, the SMS HTTP call, the Telegram bot set-up and send, the gateway call and the image upload are abstract outcomes. The Telegram service's test-message helper is left out.
- Money.ToFixed2: computed on exact reals, rounding half away from zero. JavaScript's `toFixed` works on the nearest double, so ties like 1.005 may print differently.
- Paystack.Verify: divides the gateway amount by 100 exactly; the double division is not modelled. Comparisons with `!==` are exact equality of reals.
- Hubtel.SendConfirmation: the total is printed by JavaScript's number-to-string conversion, which is a text parameter here.
- Template.SubstituteRenders, Template.ReplaceRendered, Template.FilledKeyGone and Email.ConfirmationFillsTemplate hold only when the template's literal text and the values are inert (every `{` followed by a character other than `{`). Some restriction is needed: Template.NestedBracesLeavePlaceholder shows `{{{{a}}}}` keeping a placeholder. A template with `{{` in literal text, or a value ending in `{`, is outside these lemmas.
- Template.SubstituteRenders: `String.prototype.replace` gives `$&`, `$1` and similar patterns a meaning in the value. The model inserts values literally, and the data keys are fixed identifiers with no regular-expression specials.
- `JSON.parse` of string options is not modelled; its outcome (a value, or a throw) is part of the input.
- ProductsController.CreateOptions: an object with a numeric `length` counts as having no options. The source would try to iterate over it and fail. Parsed strings are modelled: their characters are walked as options without fields.
- The product listing's filters (category, active flag, search pattern, price range, in-stock) and the sort by creation date are not modelled. The listing receives the already filtered, sorted sequence.
- `getProductById`, `getProductsByCategory` and `getCategories` are not part of this model.
- Pagination.ListPage: the database reads a negative limit as its absolute value and refuses a negative skip (`None`; the handler answers 500). The database's own error text is not modelled.
- OrdersController.Persist: the order schema's validation message is abbreviated to "Order validation failed: " and the failing paths. The document library's per-path wording is not modelled.
- Database failures are limited to the counter update, the order write and the per-item stock update. Failures of `findOne`/`findById` and invalid product ids (cast errors) are not modelled, nor are save failures of products other than schema validation.
- The type casting of form-data strings to numbers and booleans is not modelled. Prices are reals and `isActive` is a boolean (`None` stands for "not a boolean" in the toggle).
- Concurrency is not modelled: the atomic counter update, the unique indexes under concurrent creates, and the read-then-write stock race. Each handler runs alone.
- Email.ConfirmationData and Email.AlertData only list the substitution data in the source's order; they carry no contract.

## Findings

| source | as written | input that shows it | evidently intended | confidence | as-written member | corrected member |
|---|---|---|---|---|---|---|
| controllers/products.controller.js:110-124 | The record given to `Product.create` has no `brand`, but the schema requires one, so the save always fails. | Name "Rose", description "Floral", category "Perfume", price 120, no options, no file: the answer is 500 "Product validation failed: brand: Please specify a brand". | The request's `brand` goes into the record and a valid request is stored with 201. | high; not executed | ProductsController.CreateProduct | ProductsController.CreateProductWithBrand |
