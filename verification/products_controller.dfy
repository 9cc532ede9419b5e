/** The product handlers: the input checks and the record `createProduct` builds,
    the field merge of `updateProduct`, the active flag, and the listing page.
    The image upload's outcome is a parameter; saving is the schema step of
    `ProductModel`. */
module ProductsController {
  import opened Common
  import opened Text
  import opened ProductModel
  import opened Pagination

  const NameRequired := "Product name is required"
  const DescriptionRequired := "Product description is required"
  const CategoryRequired := "Product category is required"
  const InvalidOptions := "Invalid options format"
  const PriceRequired := "Price must be greater than 0"
  const NegativeStock := "Stock cannot be negative"
  const OptionNameRequired := "Each option must have a name"
  const OptionPriceRequired := "Each option must have a price greater than 0"
  const OptionNegativeStock := "Option stock cannot be negative"
  const UploadFailure := "Failed to upload image"
  const ProductCreated := "Product created successfully"
  const ProductNotFound := "Product not found"
  const ProductUpdated := "Product updated successfully"
  const NotBoolean := "isActive must be a boolean value"
  const ProductActivated := "Product activated successfully"
  const ProductDeactivated := "Product deactivated successfully"

  /** One entry of a submitted `options` array. */
  datatype OptionInput = OptionInput(name: Option<string>, price: Option<real>, stock: Option<int>)

  /** The value `options` holds once parsed: `null`, an array, a string of
      `length` characters, or any other value (a number, a boolean or an object,
      taken to have no positive `length`), with its truthiness. */
  datatype OptionsValue = NullValue | List(entries: seq<OptionInput>) | Chars(length: nat) | Scalar(truthy: bool)

  /** The submitted `options` field: absent, a string (form data) with the result
      of parsing it as JSON (`None` when the parse throws), or a value already. */
  datatype OptionsField = Undefined | Text(text: string, parsed: Option<OptionsValue>) | Value(v: OptionsValue)

  /** The outcome of the image upload, when a file came with the request. */
  datatype Upload = NoFile | Uploaded(url: string) | UploadFailed

  /** The fields a create or update request carries. */
  datatype ProductRequest = ProductRequest(
    name: Option<string>, description: Option<string>, price: Option<real>,
    category: Option<string>, brand: Option<string>, stock: Option<int>, isActive: Option<bool>,
    options: OptionsField)

  datatype ProductReply = Refused(error: string) | Done(message: string, product: Product)

  datatype ProductResponse = ProductResponse(code: nat, reply: ProductReply)

  /** `!s || !s.trim()`: missing, empty or only white space (`Trim` is empty
      exactly for text that is all white space). */
  predicate Blank(s: Option<string>) {
    s.None? || AllSpace(s.value)
  }

  predicate TruthyValue(v: OptionsValue) {
    v.List? || (v.Chars? && v.length > 0) || (v.Scalar? && v.truthy)
  }

  /** A character of a string, seen as an option: it has no `name`, `price` or
      `stock`. */
  const NoFields := OptionInput(None, None, None)

  /** What `for (const option of parsed)` visits: the array's entries, or one
      field-less value per character of a string. */
  function Entries(v: OptionsValue): (es: seq<OptionInput>)
    ensures v.List? ==> es == v.entries
    ensures v.Chars? ==> |es| == v.length && forall i :: 0 <= i < |es| ==> es[i] == NoFields
    ensures !v.List? && !v.Chars? ==> es == []
  {
    match v
    case List(entries) => entries
    case Chars(n) => seq(n, _ => NoFields)
    case _ => []
  }

  /** `parsed && parsed.length > 0`: a non-empty array or string. */
  predicate HasOptions(v: OptionsValue) {
    (v.List? || v.Chars?) && |Entries(v)| > 0
  }

  /** The checks of one option, in the handler's order. */
  function OptionError(o: OptionInput): (e: Option<string>)
    ensures e.None? <==> !Blank(o.name) && o.price.Some? && o.price.value > 0.0
                         && (o.stock.Some? ==> o.stock.value >= 0)
  {
    if Blank(o.name) then Some(OptionNameRequired)
    else if o.price.None? || o.price.value <= 0.0 then Some(OptionPriceRequired)
    else if o.stock.Some? && o.stock.value < 0 then Some(OptionNegativeStock)
    else None
  }

  /** The loop over the options: the first failing option's message. */
  function OptionsError(os: seq<OptionInput>): (e: Option<string>)
    ensures e.None? <==> forall i :: 0 <= i < |os| ==> OptionError(os[i]).None?
    ensures e.Some? ==> exists i :: && 0 <= i < |os| && OptionError(os[i]) == e
                                    && forall j :: 0 <= j < i ==> OptionError(os[j]).None?
  {
    var errs := seq(|os|, i requires 0 <= i < |os| => OptionError(os[i]));
    assert forall i :: 0 <= i < |os| ==> errs[i] == OptionError(os[i]);
    var e := FirstError(errs, 0);
    if e.Some? then
      ghost var i :| && 0 <= i < |errs| && errs[i] == e && forall j :: 0 <= j < i ==> errs[j].None?;
      assert OptionError(os[i]) == e && forall j :: 0 <= j < i ==> OptionError(os[j]).None?;
      e
    else
      assert forall i :: 0 <= i < |os| ==> OptionError(os[i]).None?;
      e
  }

  /** The first `Some` among `errs[k..]`: a loop that stops at the first
      failing check. */
  function FirstError(errs: seq<Option<string>>, k: nat): (e: Option<string>)
    ensures e.None? <==> forall i :: k <= i < |errs| ==> errs[i].None?
    ensures e.Some? ==> exists i :: && k <= i < |errs| && errs[i] == e
                                    && forall j :: k <= j < i ==> errs[j].None?
    decreases |errs| - k
  {
    if k >= |errs| then None
    else if errs[k].Some? then errs[k]
    else FirstError(errs, k + 1)
  }

  /** When the first option fails, its message is the loop's answer. */
  lemma FirstOptionFails(os: seq<OptionInput>)
    requires |os| > 0 && OptionError(os[0]).Some?
    ensures OptionsError(os) == OptionError(os[0])
  {
    var e := OptionsError(os);
    var i :| && 0 <= i < |os| && OptionError(os[i]) == e
             && forall j :: 0 <= j < i ==> OptionError(os[j]).None?;
    assert i == 0;
  }

  /** Options that parse to a non-empty string count as options, and the first
      character, having no `name`, fails the name check. */
  lemma CharsFailName(n: nat)
    requires n > 0
    ensures HasOptions(Chars(n)) && OptionsError(Entries(Chars(n))) == Some(OptionNameRequired)
  {
    FirstOptionFails(Entries(Chars(n)));
  }

  // ---------------------------------------------------------------------------
  // createProduct

  /** `createProduct`'s parse of `options`: a falsy field gives the empty list. */
  function CreateOptions(f: OptionsField): (r: Result<OptionsValue, string>)
    ensures r.Err? <==> f.Text? && f.text != "" && f.parsed.None?
    ensures r.Err? ==> r.error == InvalidOptions
  {
    match f
    case Undefined => Ok(List([]))
    case Text(t, parsed) =>
      if t == "" then Ok(List([]))
      else if parsed.None? then Err(InvalidOptions)
      else Ok(parsed.value)
    case Value(v) => if TruthyValue(v) then Ok(v) else Ok(List([]))
  }

  /** The base price and stock checks of a product sold without options. */
  function BaseError(price: Option<real>, stock: Option<int>): (e: Option<string>)
    ensures e.None? <==> price.Some? && price.value > 0.0 && (stock.Some? ==> stock.value >= 0)
  {
    if price.None? || price.value <= 0.0 then Some(PriceRequired)
    else if stock.Some? && stock.value < 0 then Some(NegativeStock)
    else None
  }

  /** The request passes every input check of `createProduct`: the three text
      fields are not blank, the options parse, and either every option is
      complete or, without options, the price is positive and the stock is not
      negative. */
  predicate CreateAcceptable(req: ProductRequest) {
    && !Blank(req.name) && !Blank(req.description) && !Blank(req.category)
    && CreateOptions(req.options).Ok?
    && var opts := CreateOptions(req.options).value;
       && (HasOptions(opts) ==> forall i :: 0 <= i < |Entries(opts)| ==> OptionError(Entries(opts)[i]).None?)
       && (!HasOptions(opts) ==> && req.price.Some? && req.price.value > 0.0
                                 && (req.stock.Some? ==> req.stock.value >= 0))
  }

  /** The input checks of `createProduct` in the handler's order: the parsed
      options, or the message of the first failing check. */
  function CreateValidation(req: ProductRequest): (r: Result<OptionsValue, string>)
    ensures r.Ok? <==> CreateAcceptable(req)
    ensures r.Ok? ==> r == CreateOptions(req.options)
    ensures Blank(req.name) ==> r == Err(NameRequired)
    ensures !Blank(req.name) && Blank(req.description) ==> r == Err(DescriptionRequired)
    ensures !Blank(req.name) && !Blank(req.description) && Blank(req.category) ==> r == Err(CategoryRequired)
    ensures (!Blank(req.name) && !Blank(req.description) && !Blank(req.category)
             && CreateOptions(req.options).Err?) ==> r == Err(InvalidOptions)
  {
    if Blank(req.name) then Err(NameRequired)
    else if Blank(req.description) then Err(DescriptionRequired)
    else if Blank(req.category) then Err(CategoryRequired)
    else
      match CreateOptions(req.options)
      case Err(e) => Err(e)
      case Ok(opts) =>
        var e := if HasOptions(opts) then OptionsError(Entries(opts)) else BaseError(req.price, req.stock);
        if e.Some? then Err(e.value) else Ok(opts)
  }

  /** `options` sent as the text of a non-empty JSON string: the handler walks
      its characters, and the first has no name. */
  lemma StringOptionsRefused(req: ProductRequest, n: nat)
    requires !Blank(req.name) && !Blank(req.description) && !Blank(req.category)
    requires req.options.Text? && req.options.text != "" && req.options.parsed == Some(Chars(n)) && n > 0
    ensures CreateValidation(req) == Err(OptionNameRequired)
  {
    CharsFailName(n);
  }

  /** The record `createProduct` computes (`productData`), options included. */
  datatype ProductData = ProductData(name: string, description: string, price: real, category: string,
                                     image: string, stock: int, isActive: bool,
                                     options: Option<seq<OptionInput>>)

  /** `productData`: trimmed text, the image, and price and stock set to zero when
      the product is sold by options. */
  function CreateRecord(req: ProductRequest, image: string): ProductData
    requires CreateAcceptable(req)
  {
    var opts := CreateOptions(req.options).value;
    var has := HasOptions(opts);
    ProductData(Trim(req.name.value), Trim(req.description.value),
                if has then 0.0 else req.price.value,
                Trim(req.category.value), image,
                if has then 0 else req.stock.GetOr(0),
                req.isActive.GetOr(true),
                if has then Some(Entries(opts)) else None)
  }

  /** The record of an accepted request: trimmed name, description and category;
      price and stock zero with the options attached when there are options,
      otherwise the given positive price and the given stock or zero; active
      unless told otherwise. */
  lemma CreateRecordShape(req: ProductRequest, image: string)
    requires CreateAcceptable(req)
    ensures var opts := CreateOptions(req.options).value;
            var d := CreateRecord(req, image);
            && d.name == Trim(req.name.value) && d.description == Trim(req.description.value)
            && d.category == Trim(req.category.value) && d.image == image
            && d.isActive == (if req.isActive.Some? then req.isActive.value else true)
            && (HasOptions(opts) ==> d.price == 0.0 && d.stock == 0 && d.options == Some(Entries(opts)))
            && (!HasOptions(opts) ==> && d.price == req.price.value && d.price > 0.0
                                      && d.stock == (if req.stock.Some? then req.stock.value else 0)
                                      && d.stock >= 0 && d.options.None?)
  {
  }

  /** What `Product.create` receives once the schema has dropped the `options`
      path it does not declare, with the given brand. */
  function CreateDraft(d: ProductData, brand: Option<string>): ProductDraft {
    ProductDraft(Some(d.name), Some(d.description), Some(d.price), Some(d.category), brand,
                 Some(d.image), Some(d.stock), Some(d.isActive))
  }

  /** The image URL the record gets; `None` when the upload failed. */
  function ImageOf(upload: Upload): (r: Option<string>)
    ensures r.None? <==> upload.UploadFailed?
    ensures upload.NoFile? ==> r == Some(DefaultImage)
    ensures upload.Uploaded? ==> r == Some(upload.url)
  {
    match upload
    case NoFile => Some(DefaultImage)
    case Uploaded(url) => Some(url)
    case UploadFailed => None
  }

  /** Save a document under `id`: the schema's refusal as a 500, or the stored
      product answered with `code` and `message`. */
  function Store(ps: Products, id: string, d: ProductDraft, code: nat, message: string)
    : (r: (Products, ProductResponse))
    ensures SaveProduct(d).Err? ==> r == (ps, ProductResponse(500, Refused(ValidationMessage("Product", SaveProduct(d).error))))
    ensures SaveProduct(d).Ok? ==> r == (ps[id := SaveProduct(d).value], ProductResponse(code, Done(message, SaveProduct(d).value)))
    ensures r.1.reply.Refused? ==> r.0 == ps && r.1.code == 500
    ensures r.1.reply.Done? ==> && r.1.code == code && r.1.reply.message == message
                                && r.0 == ps[id := r.1.reply.product] && ValidProduct(r.1.reply.product)
  {
    match SaveProduct(d)
    case Err(errs) => (ps, ProductResponse(500, Refused(ValidationMessage("Product", errs))))
    case Ok(p) => (ps[id := p], ProductResponse(code, Done(message, p)))
  }

  /** The steps of the create handler after the input checks: the upload, then
      the save of the record with the given brand. */
  function CreateAccepted(ps: Products, id: string, req: ProductRequest, brand: Option<string>, upload: Upload)
    : (r: (Products, ProductResponse))
    requires CreateAcceptable(req)
    ensures r.1.code in {201, 500}
    ensures r.1.code == 500 ==> r.0 == ps
    ensures upload.UploadFailed? ==> r.1 == ProductResponse(500, Refused(UploadFailure))
    ensures r.1.code == 201 ==> && r.1.reply.Done? && r.1.reply.message == ProductCreated
                                && r.0 == ps[id := r.1.reply.product] && ValidProduct(r.1.reply.product)
  {
    match ImageOf(upload)
    case None => (ps, ProductResponse(500, Refused(UploadFailure)))
    case Some(image) => SaveRecord(ps, id, CreateRecord(req, image), brand)
  }

  /** `Product.create` on a record, with the given brand. */
  function SaveRecord(ps: Products, id: string, d: ProductData, brand: Option<string>)
    : (r: (Products, ProductResponse))
    ensures r.1.code in {201, 500}
    ensures r.1.code == 500 ==> r.0 == ps
    ensures r.1.code == 201 ==> && r.1.reply.Done? && r.1.reply.message == ProductCreated
                                && r.0 == ps[id := r.1.reply.product] && ValidProduct(r.1.reply.product)
    ensures r == Store(ps, id, CreateDraft(d, brand), 201, ProductCreated)
  {
    Store(ps, id, CreateDraft(d, brand), 201, ProductCreated)
  }

  /** The create handler with the brand the record carries as a parameter. */
  function CreateWith(ps: Products, id: string, req: ProductRequest, brand: Option<string>, upload: Upload)
    : (r: (Products, ProductResponse))
    ensures r.1.code in {201, 400, 500}
    ensures r.1.code != 201 ==> r.0 == ps
    ensures r.1.code == 400 <==> !CreateAcceptable(req)
    ensures r.1.code == 400 ==> r.1.reply == Refused(CreateValidation(req).error)
    ensures CreateAcceptable(req) ==> r == CreateAccepted(ps, id, req, brand, upload)
  {
    if CreateValidation(req).Err? then (ps, ProductResponse(400, Refused(CreateValidation(req).error)))
    else CreateAccepted(ps, id, req, brand, upload)
  }

  /** "Product validation failed: brand: Please specify a brand". */
  const BrandRefusal := "Product" + " validation failed: " + "brand" + ": " + "Please specify a brand"

  /** A document with every required path but the brand fails on exactly that
      path, with the message the schema gives. */
  lemma NoBrandRefused(d: ProductDraft)
    requires d.brand.None?
    requires Filled(TrimmedField(d.name)) && Filled(d.description) && d.price.Some? && Filled(d.category)
    ensures SaveProduct(d) == Err([FieldError("brand", "Please specify a brand")])
    ensures ValidationMessage("Product", SaveProduct(d).error) == BrandRefusal
  {
    var p := Prepared(d);
    assert RequiredErrors(p) == [BrandMissing];
  }

  /** `createProduct` as written: the record it builds has no `brand`, which the
      schema requires, so every request that passes the checks and the upload
      ends in the schema's 500, and the catalogue never changes. */
  function CreateProduct(ps: Products, id: string, req: ProductRequest, upload: Upload)
    : (r: (Products, ProductResponse))
    ensures r.0 == ps && r.1.code in {400, 500}
    ensures r.1.code == 400 <==> !CreateAcceptable(req)
    ensures r.1.code == 400 ==> r.1.reply == Refused(CreateValidation(req).error)
    ensures CreateAcceptable(req) ==>
              r.1.reply == Refused(if upload.UploadFailed? then UploadFailure else BrandRefusal)
  {
    assert CreateAcceptable(req) && !upload.UploadFailed? ==>
             var d := CreateDraft(CreateRecord(req, ImageOf(upload).value), None);
             SaveProduct(d).Err? && ValidationMessage("Product", SaveProduct(d).error) == BrandRefusal
    by {
      if CreateAcceptable(req) && !upload.UploadFailed? {
        NoBrandRefused(CreateDraft(CreateRecord(req, ImageOf(upload).value), None));
      }
    }
    CreateWith(ps, id, req, None, upload)
  }

  /** `createProduct` with the request's `brand` passed through to the record, as
      the schema expects. */
  function CreateProductWithBrand(ps: Products, id: string, req: ProductRequest, upload: Upload)
    : (r: (Products, ProductResponse))
    ensures r.1.code in {201, 400, 500}
    ensures r.1.code != 201 ==> r.0 == ps
    ensures r.1.code == 201 ==> r.1.reply.Done? && r.0 == ps[id := r.1.reply.product]
                                && ValidProduct(r.1.reply.product)
  {
    CreateWith(ps, id, req, req.brand, upload)
  }

  /** With a non-blank brand, a create that passes the checks and the upload is
      stored: exactly the record built from the request, with the trimmed brand. */
  lemma CreateWithBrandStores(ps: Products, id: string, req: ProductRequest, upload: Upload)
    requires CreateAcceptable(req) && !upload.UploadFailed?
    requires req.brand.Some? && Trim(req.brand.value) != ""
    ensures var d := CreateRecord(req, ImageOf(upload).value);
            var r := CreateProductWithBrand(ps, id, req, upload);
            && r.1.code == 201
            && r.1.reply.product == Product(d.name, d.description, d.price, d.category, Trim(req.brand.value),
                                            d.image, d.stock, d.isActive)
            && r.0 == ps[id := r.1.reply.product]
  {
    CreateStoresDraft(ps, id, req, upload);
    var d := CreateRecord(req, ImageOf(upload).value);
    TrimIdempotent(req.name.value);
    SaveCreated(d, req.brand.value);
  }

  /** Past the checks and the upload, the handler saves the record's document. */
  lemma CreateStoresDraft(ps: Products, id: string, req: ProductRequest, upload: Upload)
    requires CreateAcceptable(req) && !upload.UploadFailed?
    ensures CreateProductWithBrand(ps, id, req, upload)
            == Store(ps, id, CreateDraft(CreateRecord(req, ImageOf(upload).value),
                                         req.brand), 201, ProductCreated)
  {
    assert CreateValidation(req).value == CreateOptions(req.options).value;
  }

  /** A record with its text filled and its name trimmed is saved as it is, with
      the trimmed brand. */
  lemma SaveCreated(d: ProductData, brand: string)
    requires d.name != "" && Trimmed(d.name) && d.description != "" && d.category != ""
    requires Trim(brand) != ""
    ensures SaveProduct(CreateDraft(d, Some(brand)))
            == Ok(Product(d.name, d.description, d.price, d.category, Trim(brand), d.image, d.stock, d.isActive))
  {
    TrimTrimmed(d.name);
    assert RequiredErrors(Prepared(CreateDraft(d, Some(brand)))) == [];
  }

  // ---------------------------------------------------------------------------
  // updateProduct

  /** `updateProduct`'s parse: `None` when `options` was not sent or is `null`,
      otherwise the value. */
  function UpdateOptions(f: OptionsField): (r: Result<Option<OptionsValue>, string>)
    ensures r.Err? <==> f.Text? && f.parsed.None?
    ensures r.Err? ==> r.error == InvalidOptions
    ensures r.Ok? && r.value.Some? ==> r.value.value != NullValue
    ensures f.Undefined? ==> r == Ok(None)
  {
    match f
    case Undefined => Ok(None)
    case Text(_, parsed) =>
      if parsed.None? then Err(InvalidOptions)
      else if parsed.value == NullValue then Ok(None) else Ok(parsed)
    case Value(v) => if v == NullValue then Ok(None) else Ok(Some(v))
  }

  /** New options that make the product one sold by options. A stored product
      never has options, so without new ones the answer is no. */
  predicate NewOptions(opts: Option<OptionsValue>) {
    opts.Some? && HasOptions(opts.value)
  }

  /** The checks of `updateProduct` after the parse: every new option complete,
      or, without options, a given price positive and a given stock not negative. */
  function UpdateCheck(req: ProductRequest, opts: Option<OptionsValue>): (e: Option<string>)
    ensures NewOptions(opts) ==> e == OptionsError(Entries(opts.value))
    ensures !NewOptions(opts) ==> (e.None? <==> && (req.price.Some? ==> req.price.value > 0.0)
                                                && (req.stock.Some? ==> req.stock.value >= 0))
  {
    if NewOptions(opts) then OptionsError(Entries(opts.value))
    else if req.price.Some? && req.price.value <= 0.0 then Some(PriceRequired)
    else if req.stock.Some? && req.stock.value < 0 then Some(NegativeStock)
    else None
  }

  /** The field assignments: text fields when truthy (trimmed), the flag when
      given, price and stock zeroed by new options or replaced when given
      otherwise; the brand is never touched. */
  function Merge(p: Product, req: ProductRequest, opts: Option<OptionsValue>, image: string): Product {
    var has := NewOptions(opts);
    Product(if Truthy(req.name) then Trim(req.name.value) else p.name,
            if Truthy(req.description) then Trim(req.description.value) else p.description,
            if has then 0.0 else req.price.GetOr(p.price),
            if Truthy(req.category) then Trim(req.category.value) else p.category,
            p.brand, image,
            if has then 0 else req.stock.GetOr(p.stock),
            req.isActive.GetOr(p.isActive))
  }

  /** `updateProduct`. */
  function UpdateProduct(ps: Products, id: string, req: ProductRequest, upload: Upload)
    : (r: (Products, ProductResponse))
    ensures r.1.code in {200, 400, 404, 500}
    ensures r.0.Keys == ps.Keys
    ensures r.1.code != 200 ==> r.0 == ps
    ensures r.1.code == 404 <==> id !in ps
    ensures r.1.code == 404 ==> r.1.reply == Refused(ProductNotFound)
    ensures id in ps && UpdateOptions(req.options).Err? ==> r.1 == ProductResponse(400, Refused(InvalidOptions))
    ensures r.1.code == 200 ==> && r.1.reply.Done? && r.1.reply.message == ProductUpdated
                                && r.0 == ps[id := r.1.reply.product] && ValidProduct(r.1.reply.product)
  {
    if id !in ps then (ps, ProductResponse(404, Refused(ProductNotFound)))
    else
      match UpdateOptions(req.options)
      case Err(e) => (ps, ProductResponse(400, Refused(e)))
      case Ok(opts) =>
        match UpdateCheck(req, opts)
        case Some(e) => (ps, ProductResponse(400, Refused(e)))
        case None =>
          if upload.UploadFailed? then (ps, ProductResponse(500, Refused(UploadFailure)))
          else
            var image := if upload.Uploaded? then upload.url else ps[id].image;
            SaveUpdate(ps, id, Merge(ps[id], req, opts, image))
  }

  /** The update counterpart: a known product with `options` parsing to a
      non-empty string is refused with the option-name message, and nothing
      changes. */
  lemma StringOptionsRefusedOnUpdate(ps: Products, id: string, req: ProductRequest, upload: Upload, n: nat)
    requires id in ps && req.options.Text? && req.options.parsed == Some(Chars(n)) && n > 0
    ensures UpdateProduct(ps, id, req, upload) == (ps, ProductResponse(400, Refused(OptionNameRequired)))
  {
    CharsFailName(n);
  }

  /** `product.save()` on the document loaded by `findById`: the schema checks
      the whole merged product, which is then stored under `id` and answered
      with 200. */
  function SaveUpdate(ps: Products, id: string, q: Product): (r: (Products, ProductResponse))
    requires id in ps
    ensures r.0.Keys == ps.Keys
    ensures r.1.code in {200, 500}
    ensures r.1.code == 500 ==> r.0 == ps
    ensures r.1.code == 200 ==> && r.1.reply.Done? && r.1.reply.message == ProductUpdated
                                && r.0 == ps[id := r.1.reply.product] && ValidProduct(r.1.reply.product)
    ensures r == Store(ps, id, AsDraft(q), 200, ProductUpdated)
  {
    Store(ps, id, AsDraft(q), 200, ProductUpdated)
  }

  /** After a good parse, the answer follows the checks, the upload and the save:
      a failing check answers 400 with its message, a failed upload 500, and
      otherwise the merged product is saved, which stores it and answers 200
      whenever the merge passes the schema. */
  lemma UpdateAnswers(ps: Products, id: string, req: ProductRequest, upload: Upload)
    requires id in ps && UpdateOptions(req.options).Ok?
    ensures var opts := UpdateOptions(req.options).value;
            var e := UpdateCheck(req, opts);
            var r := UpdateProduct(ps, id, req, upload);
            var m := Merge(ps[id], req, opts, if upload.Uploaded? then upload.url else ps[id].image);
            && (e.Some? ==> r == (ps, ProductResponse(400, Refused(e.value))))
            && (e.None? && upload.UploadFailed? ==> r == (ps, ProductResponse(500, Refused(UploadFailure))))
            && (e.None? && !upload.UploadFailed? ==> r == Store(ps, id, AsDraft(m), 200, ProductUpdated))
            && (e.None? && !upload.UploadFailed? && ValidProduct(m) ==>
                  r == (ps[id := m], ProductResponse(200, Done(ProductUpdated, m))))
  {
    var opts := UpdateOptions(req.options).value;
    var m := Merge(ps[id], req, opts, if upload.Uploaded? then upload.url else ps[id].image);
    if ValidProduct(m) {
      ResaveValid(m);
    }
  }

  /** A successful update of a stored product keeps everything the request did
      not mention and takes what it did: new text where given and not empty
      (trimmed), the flag where given, and price and stock reset by non-empty
      options or replaced where given otherwise; the brand never changes. */
  lemma UpdateMerges(ps: Products, id: string, req: ProductRequest, upload: Upload)
    requires id in ps && ValidProduct(ps[id])
    requires UpdateProduct(ps, id, req, upload).1.code == 200
    ensures var p := ps[id];
            var q := UpdateProduct(ps, id, req, upload).1.reply.product;
            var has := NewOptions(UpdateOptions(req.options).value);
            && q.name == (if Truthy(req.name) then Trim(req.name.value) else p.name)
            && q.description == (if Truthy(req.description) then Trim(req.description.value) else p.description)
            && q.category == (if Truthy(req.category) then Trim(req.category.value) else p.category)
            && q.brand == p.brand
            && q.price == (if has then 0.0 else if req.price.Some? then req.price.value else p.price)
            && q.stock == (if has then 0 else if req.stock.Some? then req.stock.value else p.stock)
            && q.isActive == (if req.isActive.Some? then req.isActive.value else p.isActive)
            && q.image == (if upload.Uploaded? then upload.url else p.image)
  {
    UpdateStoresMerge(ps, id, req, upload);
  }

  /** A successful update stores the merge of the stored product and the request. */
  lemma UpdateStoresMerge(ps: Products, id: string, req: ProductRequest, upload: Upload)
    requires id in ps && ValidProduct(ps[id])
    requires UpdateProduct(ps, id, req, upload).1.code == 200
    ensures UpdateProduct(ps, id, req, upload).1.reply.product
            == Merge(ps[id], req, UpdateOptions(req.options).value,
                     if upload.Uploaded? then upload.url else ps[id].image)
  {
    var opts := UpdateOptions(req.options).value;
    var image := if upload.Uploaded? then upload.url else ps[id].image;
    var m := Merge(ps[id], req, opts, image);
    assert UpdateProduct(ps, id, req, upload) == Store(ps, id, AsDraft(m), 200, ProductUpdated);
    assert SaveProduct(AsDraft(m)).Ok?;
    SaveMerged(ps[id], req, opts, image);
  }

  /** Saving the merge of a valid product stores the merge as it is: its text is
      already trimmed. */
  lemma SaveMerged(p: Product, req: ProductRequest, opts: Option<OptionsValue>, image: string)
    requires ValidProduct(p) && SaveProduct(AsDraft(Merge(p, req, opts, image))).Ok?
    ensures SaveProduct(AsDraft(Merge(p, req, opts, image))).value == Merge(p, req, opts, image)
  {
    var m := Merge(p, req, opts, image);
    assert Trimmed(m.name);
    assert m.brand == p.brand;
    assert m.name != "" && m.description != "" && m.category != "";
    ResaveValid(m);
  }

  /** A name of only spaces is truthy, so it is assigned; trimmed to nothing it
      fails the schema, and the product stays as it was. */
  lemma BlankNameRefused(ps: Products, id: string, req: ProductRequest, upload: Upload)
    requires id in ps && !upload.UploadFailed?
    requires req.name.Some? && req.name.value != "" && Trim(req.name.value) == ""
    requires UpdateOptions(req.options).Ok? && UpdateCheck(req, UpdateOptions(req.options).value).None?
    ensures UpdateProduct(ps, id, req, upload).0 == ps
    ensures UpdateProduct(ps, id, req, upload).1.code == 500
  {
    var opts := UpdateOptions(req.options).value;
    var image := if upload.Uploaded? then upload.url else ps[id].image;
    var m := Merge(ps[id], req, opts, image);
    assert m.name == "";
    assert TrimmedField(Some(m.name)) == Some("") by { TrimIdempotent(""); }
  }

  // ---------------------------------------------------------------------------
  // toggleProductActive and deleteProduct

  /** Set the flag and save; the save runs the schema on the whole document. */
  function SetActive(ps: Products, id: string, flag: bool, message: string): (r: (Products, ProductResponse))
    requires id in ps
    ensures r.0.Keys == ps.Keys
    ensures r.1.code in {200, 500} && (r.1.code == 500 ==> r.0 == ps)
    ensures r.1.code == 200 ==> && r.1.reply == Done(message, r.0[id]) && r.0 == ps[id := r.0[id]]
                                && r.0[id].isActive == flag && ValidProduct(r.0[id])
    ensures ValidProduct(ps[id]) ==> r == (ps[id := ps[id].(isActive := flag)],
                                            ProductResponse(200, Done(message, ps[id].(isActive := flag))))
  {
    var p := ps[id].(isActive := flag);
    assert ValidProduct(ps[id]) ==> SaveProduct(AsDraft(p)) == Ok(p) by {
      if ValidProduct(ps[id]) {
        ResaveValid(p);
      }
    }
    Store(ps, id, AsDraft(p), 200, message)
  }

  /** `toggleProductActive`; `isActive` is `None` when the value sent is not a
      boolean. */
  function ToggleActive(ps: Products, id: string, isActive: Option<bool>): (r: (Products, ProductResponse))
    ensures r.0.Keys == ps.Keys
    ensures isActive.None? ==> r == (ps, ProductResponse(400, Refused(NotBoolean)))
    ensures isActive.Some? && id !in ps ==> r == (ps, ProductResponse(404, Refused(ProductNotFound)))
    ensures r.1.code == 200 ==> && isActive.Some? && id in ps && r.0[id].isActive == isActive.value
                                && r.1.reply == Done(if isActive.value then ProductActivated else ProductDeactivated,
                                                     r.0[id])
    ensures isActive.Some? && id in ps && ValidProduct(ps[id]) ==>
              r.1.code == 200 && r.0 == ps[id := ps[id].(isActive := isActive.value)]
  {
    if isActive.None? then (ps, ProductResponse(400, Refused(NotBoolean)))
    else if id !in ps then (ps, ProductResponse(404, Refused(ProductNotFound)))
    else SetActive(ps, id, isActive.value, if isActive.value then ProductActivated else ProductDeactivated)
  }

  /** `deleteProduct`: a soft delete that only clears the flag; the product stays
      in the catalogue. */
  function DeleteProduct(ps: Products, id: string): (r: (Products, ProductResponse))
    ensures r.0.Keys == ps.Keys
    ensures id !in ps ==> r == (ps, ProductResponse(404, Refused(ProductNotFound)))
    ensures id in ps && ValidProduct(ps[id]) ==>
              r == (ps[id := ps[id].(isActive := false)],
                    ProductResponse(200, Done(ProductDeactivated, ps[id].(isActive := false))))
  {
    if id !in ps then (ps, ProductResponse(404, Refused(ProductNotFound)))
    else SetActive(ps, id, false, ProductDeactivated)
  }

  /** Deleting is the same as switching the product off. */
  lemma DeleteIsDeactivate(ps: Products, id: string)
    ensures DeleteProduct(ps, id) == ToggleActive(ps, id, Some(false))
  {
  }

  /** Switching to a value a second time changes nothing more. */
  lemma ToggleIdempotent(ps: Products, id: string, flag: bool)
    requires ToggleActive(ps, id, Some(flag)).1.code == 200
    ensures var once := ToggleActive(ps, id, Some(flag)).0;
            ToggleActive(once, id, Some(flag)) == ToggleActive(ps, id, Some(flag))
  {
    SetActiveAgain(ps, id, flag, if flag then ProductActivated else ProductDeactivated);
  }

  lemma SetActiveAgain(ps: Products, id: string, flag: bool, message: string)
    requires id in ps && SetActive(ps, id, flag, message).1.code == 200
    ensures var first := SetActive(ps, id, flag, message);
            SetActive(first.0, id, flag, message) == first
  {
    var first := SetActive(ps, id, flag, message);
    SetActiveSame(first.0, id, flag, message);
  }

  /** Setting the flag a valid product already has stores nothing new. */
  lemma SetActiveSame(ps: Products, id: string, flag: bool, message: string)
    requires id in ps && ValidProduct(ps[id]) && ps[id].isActive == flag
    ensures SetActive(ps, id, flag, message) == (ps, ProductResponse(200, Done(message, ps[id])))
  {
    assert ps[id].(isActive := flag) == ps[id];
    assert ps[id := ps[id]] == ps;
  }

  /** A catalogue whose products all satisfy the schema. */
  ghost predicate CatalogueValid(ps: Products) {
    forall id :: id in ps ==> ValidProduct(ps[id])
  }

  /** Every handler keeps a valid catalogue valid. */
  lemma HandlersKeepCatalogueValid(ps: Products, id: string, req: ProductRequest, upload: Upload,
                                   flag: Option<bool>)
    requires CatalogueValid(ps)
    ensures CatalogueValid(CreateProduct(ps, id, req, upload).0)
    ensures CatalogueValid(CreateProductWithBrand(ps, id, req, upload).0)
    ensures CatalogueValid(UpdateProduct(ps, id, req, upload).0)
    ensures CatalogueValid(ToggleActive(ps, id, flag).0)
    ensures CatalogueValid(DeleteProduct(ps, id).0)
  {
    var c := CreateProductWithBrand(ps, id, req, upload);
    if c.1.code == 201 {
      PutKeepsValid(ps, id, c.1.reply.product);
    }
    var u := UpdateProduct(ps, id, req, upload);
    if u.1.code == 200 {
      PutKeepsValid(ps, id, u.1.reply.product);
    }
    var t := ToggleActive(ps, id, flag);
    if t.1.code == 200 {
      PutKeepsValid(ps, id, t.0[id]);
    }
    var x := DeleteProduct(ps, id);
    if id in ps {
      PutKeepsValid(ps, id, ps[id].(isActive := false));
    }
  }

  lemma PutKeepsValid(ps: Products, id: string, p: Product)
    requires CatalogueValid(ps) && ValidProduct(p)
    ensures CatalogueValid(ps[id := p])
  {
    var q := ps[id := p];
    forall k | k in q
      ensures ValidProduct(q[k])
    {
      if k != id {
        assert q[k] == ps[k];
      }
    }
  }

  /** `getAllProducts` without the filters: the page of the catalogue listing. */
  function ListProducts(sorted: seq<Product>, pageParam: Option<int>, limitParam: Option<int>)
    : (r: Option<Listing<Product>>)
    ensures r.Some? ==> r.value.total == |sorted|
    ensures pageParam.None? && limitParam.None? ==>
              r.Some? && r.value.page == 1 && r.value.limit == 10
              && r.value.records == sorted[..if |sorted| < 10 then |sorted| else 10]
  {
    ListPage(sorted, pageParam, limitParam)
  }
}
