/** The product record and the schema step that stores a product document:
    trimming of `name` and `brand`, the defaults for `image`, `stock` and
    `isActive`, and the required-field check. */
module ProductModel {
  import opened Common
  import opened Text

  const DefaultImage := "no-image.jpg"

  /** A product as stored. The schema has no `options` path, so a stored product
      never carries any. */
  datatype Product = Product(name: string, description: string, price: real, category: string,
                             brand: string, image: string, stock: int, isActive: bool)

  /** The product collection by id. */
  type Products = map<string, Product>

  /** A product document before the schema has run; absent fields are `None`. */
  datatype ProductDraft = ProductDraft(name: Option<string>, description: Option<string>,
                                       price: Option<real>, category: Option<string>,
                                       brand: Option<string>, image: Option<string>,
                                       stock: Option<int>, isActive: Option<bool>)

  /** A schema path that failed its required check, with the schema's message. */
  datatype FieldError = FieldError(path: string, message: string)

  /** A required string path holds a non-empty string once setters have run. */
  predicate Filled(s: Option<string>) {
    s.Some? && s.value != ""
  }

  /** The `trim: true` setter on a path. */
  function TrimmedField(s: Option<string>): (r: Option<string>)
    ensures r.Some? <==> s.Some?
    ensures s.Some? ==> r.value == Trim(s.value)
  {
    match s
    case None => None
    case Some(v) => Some(Trim(v))
  }

  /** The draft after setters and defaults. */
  function Prepared(d: ProductDraft): (p: ProductDraft)
    ensures p.name == TrimmedField(d.name) && p.brand == TrimmedField(d.brand)
    ensures p.description == d.description && p.category == d.category && p.price == d.price
    ensures p.image == Some(d.image.GetOr(DefaultImage))
    ensures p.stock == Some(d.stock.GetOr(0))
    ensures p.isActive == Some(d.isActive.GetOr(true))
  {
    d.(name := TrimmedField(d.name), brand := TrimmedField(d.brand),
       image := Some(d.image.GetOr(DefaultImage)), stock := Some(d.stock.GetOr(0)),
       isActive := Some(d.isActive.GetOr(true)))
  }

  /** The schema's required paths with their messages. */
  const NameMissing := FieldError("name", "Please add a product name")
  const DescriptionMissing := FieldError("description", "Please add a description")
  const PriceMissing := FieldError("price", "Please add a price")
  const CategoryMissing := FieldError("category", "Please specify a category")
  const BrandMissing := FieldError("brand", "Please specify a brand")
  const StockMissing := FieldError("stock", "Please add stock count")

  /** The failing required paths of a prepared draft, in schema order. */
  function RequiredErrors(p: ProductDraft): (errs: seq<FieldError>)
    ensures errs == [] <==> && Filled(p.name) && Filled(p.description) && p.price.Some?
                            && Filled(p.category) && Filled(p.brand) && p.stock.Some?
  {
    (if Filled(p.name) then [] else [NameMissing])
    + (if Filled(p.description) then [] else [DescriptionMissing])
    + (if p.price.Some? then [] else [PriceMissing])
    + (if Filled(p.category) then [] else [CategoryMissing])
    + (if Filled(p.brand) then [] else [BrandMissing])
    + (if p.stock.Some? then [] else [StockMissing])
  }

  /** A stored product is one the schema would accept as it is. */
  predicate ValidProduct(p: Product) {
    && p.name != "" && Trimmed(p.name)
    && p.description != "" && p.category != ""
    && p.brand != "" && Trimmed(p.brand)
  }

  /** Saving a document: the list of failed paths, or the stored product. */
  function SaveProduct(d: ProductDraft): (r: Result<Product, seq<FieldError>>)
    ensures r.Err? <==> RequiredErrors(Prepared(d)) != []
    ensures r.Err? ==> r.error == RequiredErrors(Prepared(d))
    ensures r.Ok? ==> && ValidProduct(r.value)
                      && r.value.name == Trim(d.name.value)
                      && r.value.brand == Trim(d.brand.value)
                      && r.value.description == d.description.value
                      && r.value.category == d.category.value
                      && r.value.price == d.price.value
                      && r.value.image == d.image.GetOr(DefaultImage)
                      && r.value.stock == d.stock.GetOr(0)
                      && r.value.isActive == d.isActive.GetOr(true)
  {
    var p := Prepared(d);
    var errs := RequiredErrors(p);
    if errs != [] then Err(errs)
    else
      Ok(Product(p.name.value, p.description.value, p.price.value, p.category.value,
                 p.brand.value, p.image.value, p.stock.value, p.isActive.value))
  }

  /** A product as a fully populated document. */
  function AsDraft(p: Product): ProductDraft {
    ProductDraft(Some(p.name), Some(p.description), Some(p.price), Some(p.category),
                 Some(p.brand), Some(p.image), Some(p.stock), Some(p.isActive))
  }

  /** Saving a stored product again changes nothing and cannot fail. */
  lemma ResaveValid(p: Product)
    requires ValidProduct(p)
    ensures SaveProduct(AsDraft(p)) == Ok(p)
  {
    TrimTrimmed(p.name);
    TrimTrimmed(p.brand);
  }

  /** `ValidationError.message` as the document library builds it:
      `<Model> validation failed: <path>: <message>, ...`. */
  function ValidationMessage(model: string, errs: seq<FieldError>): (m: string)
    ensures |errs| == 1 ==> m == model + " validation failed: " + errs[0].path + ": " + errs[0].message
  {
    model + " validation failed: "
    + Join(seq(|errs|, i requires 0 <= i < |errs| => errs[i].path + ": " + errs[i].message), ", ")
  }
}
