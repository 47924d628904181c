/**
 * The add/edit product page: the form record, the change rule that
 * coerces the two numeric inputs, the validity test that enables submit,
 * the request a submit sends, and the form filled from a loaded product.
 */
module ProductAddEdit {

  import opened Wrappers
  import opened Text

  /** A numeric input: blank (the empty string) or a number. */
  datatype NumberField = Blank | Num(value: real)

  /** `Number(x)` of a field; `Number('')` is 0. */
  function ToNumber(f: NumberField): real {
    if f.Blank? then 0.0 else f.value
  }

  /** The form's state. */
  datatype ProductForm = ProductForm(
    title: string,
    description: string,
    price: NumberField,
    stock: NumberField,
    thumbnail: string)

  /** The form of a new product: every field blank. */
  const EmptyForm: ProductForm := ProductForm("", "", Blank, Blank, "")

  /** The inputs `handleChange` is attached to, by their element id. */
  datatype Field = Title | Description | Price | Stock | Thumbnail

  /** What one field holds: text, or a numeric field's value. */
  datatype FieldValue = Text(text: string) | Numeric(number: NumberField)

  function Get(f: ProductForm, field: Field): FieldValue {
    match field
    case Title => Text(f.title)
    case Description => Text(f.description)
    case Price => Numeric(f.price)
    case Stock => Numeric(f.stock)
    case Thumbnail => Text(f.thumbnail)
  }

  // ----------------------------------------------------------- validity

  /** `isFormValid`. */
  predicate IsFormValid(f: ProductForm)
    ensures IsFormValid(f) ==> f.price.Num? && f.price.value > 0.0 && f.stock.Num? && f.stock.value >= 0.0
  {
    && Trim(f.title) != ""
    && Trim(f.description) != ""
    && f.price != Blank
    && f.stock != Blank
    && ToNumber(f.price) > 0.0
    && ToNumber(f.stock) >= 0.0
  }

  /**
   * The form is valid exactly when title and description each hold a
   * non-whitespace character, the price is a number above 0 and the stock
   * a number of at least 0.
   */
  lemma FormValidIff(f: ProductForm)
    ensures IsFormValid(f) <==>
      && !AllSpace(f.title)
      && !AllSpace(f.description)
      && f.price.Num? && f.price.value > 0.0
      && f.stock.Num? && f.stock.value >= 0.0
  {
    TrimEmptyIff(f.title);
    TrimEmptyIff(f.description);
  }

  /**
   * Each of these alone keeps submit disabled: a whitespace-only title or
   * description, a blank price or stock, a price of at most 0, a negative
   * stock.
   */
  lemma InvalidForms(f: ProductForm)
    requires
      || AllSpace(f.title) || AllSpace(f.description)
      || f.price == Blank || f.stock == Blank
      || ToNumber(f.price) <= 0.0 || ToNumber(f.stock) < 0.0
    ensures !IsFormValid(f)
  {
    FormValidIff(f);
  }

  /** A new product's form starts invalid. */
  lemma EmptyFormInvalid()
    ensures !IsFormValid(EmptyForm)
  {
    InvalidForms(EmptyForm);
  }

  /** Price 0 or stock -1 keep submit disabled; price 9.99 with stock 0 enables it. */
  lemma ValidityExamples(title: string, description: string)
    requires !AllSpace(title) && !AllSpace(description)
    ensures !IsFormValid(ProductForm(title, description, Num(0.0), Num(5.0), ""))
    ensures !IsFormValid(ProductForm(title, description, Num(9.99), Num(-1.0), ""))
    ensures IsFormValid(ProductForm(title, description, Num(9.99), Num(0.0), ""))
  {
    FormValidIff(ProductForm(title, description, Num(9.99), Num(0.0), ""));
  }

  // ------------------------------------------------------------- change

  predicate IsNumeric(field: Field) {
    field == Price || field == Stock
  }

  /** What an input's new text becomes in the form: numbers for price and stock only. */
  function Coerce(field: Field, value: string, toNumber: string -> real): (r: FieldValue)
    ensures r.Numeric? <==> IsNumeric(field)
    ensures r.Numeric? ==> (r.number == Blank <==> value == "")
    ensures r.Numeric? && value != "" ==> r.number == Num(toNumber(value))
    ensures r.Text? ==> r.text == value
  {
    if IsNumeric(field) then Numeric(if value == "" then Blank else Num(toNumber(value)))
    else Text(value)
  }

  /**
   * `handleChange`'s update of the previous form. `toNumber` stands for
   * JavaScript's `Number` on the input's text.
   */
  function Changed(prev: ProductForm, field: Field, value: string, toNumber: string -> real)
    : (r: ProductForm)
    ensures Get(r, field) == Coerce(field, value, toNumber)
    ensures forall g: Field :: g != field ==> Get(r, g) == Get(prev, g)
  {
    match field
    case Title => prev.(title := value)
    case Description => prev.(description := value)
    case Price => prev.(price := if value == "" then Blank else Num(toNumber(value)))
    case Stock => prev.(stock := if value == "" then Blank else Num(toNumber(value)))
    case Thumbnail => prev.(thumbnail := value)
  }

  /** Two forms that agree on every field are the same form. */
  lemma FormExtensionality(f: ProductForm, g: ProductForm)
    requires forall field: Field :: Get(f, field) == Get(g, field)
    ensures f == g
  {
    assert Get(f, Title) == Get(g, Title) && Get(f, Description) == Get(g, Description);
    assert Get(f, Price) == Get(g, Price) && Get(f, Stock) == Get(g, Stock);
    assert Get(f, Thumbnail) == Get(g, Thumbnail);
  }

  /** Repeating the same change event changes nothing more. */
  lemma ChangeIdempotent(f: ProductForm, field: Field, value: string, toNumber: string -> real)
    ensures Changed(Changed(f, field, value, toNumber), field, value, toNumber)
            == Changed(f, field, value, toNumber)
  {
    var once := Changed(f, field, value, toNumber);
    FormExtensionality(Changed(once, field, value, toNumber), once);
  }

  /** Clearing the price or the stock input disables submit, whatever else the form holds. */
  lemma ClearingNumberInvalidates(f: ProductForm, field: Field, toNumber: string -> real)
    requires IsNumeric(field)
    ensures !IsFormValid(Changed(f, field, "", toNumber))
  {
    var r := Changed(f, field, "", toNumber);
    assert Get(r, field) == Numeric(Blank);
  }

  /** Editing the thumbnail never changes whether the form may be submitted. */
  lemma ThumbnailIrrelevantToValidity(f: ProductForm, value: string, toNumber: string -> real)
    ensures IsFormValid(Changed(f, Thumbnail, value, toNumber)) == IsFormValid(f)
  {
    var r := Changed(f, Thumbnail, value, toNumber);
    assert Get(r, Title) == Get(f, Title) && Get(r, Description) == Get(f, Description);
    assert Get(r, Price) == Get(f, Price) && Get(r, Stock) == Get(f, Stock);
  }

  /** The file reader's result replaces the thumbnail when it is a non-empty string. */
  function WithUpload(prev: ProductForm, result: Option<string>): (r: ProductForm)
    ensures result.Some? && result.value != "" ==> r.thumbnail == result.value
    ensures result.None? || result.value == "" ==> r == prev
    ensures forall g: Field :: g != Thumbnail ==> Get(r, g) == Get(prev, g)
  {
    if result.Some? && result.value != "" then prev.(thumbnail := result.value) else prev
  }

  // ------------------------------------------------------------- submit

  /** The body sent to the catalog. */
  datatype Payload = Payload(title: string, description: string, price: real, stock: real, thumbnail: string)

  /** Payload construction: text copied verbatim, price and stock as numbers. */
  function PayloadOf(f: ProductForm): (p: Payload)
    ensures p.title == f.title && p.description == f.description && p.thumbnail == f.thumbnail
    ensures f.price == Num(p.price) || (f.price == Blank && p.price == 0.0)
    ensures f.stock == Num(p.stock) || (f.stock == Blank && p.stock == 0.0)
  {
    Payload(f.title, f.description, ToNumber(f.price), ToNumber(f.stock), f.thumbnail)
  }

  /** The payload of a submittable form carries exactly the form's values, within bounds. */
  lemma ValidPayload(f: ProductForm)
    requires IsFormValid(f)
    ensures var p := PayloadOf(f);
      && p.title == f.title && p.description == f.description && p.thumbnail == f.thumbnail
      && f.price == Num(p.price) && f.stock == Num(p.stock)
      && p.price > 0.0 && p.stock >= 0.0
      && !AllSpace(p.title) && !AllSpace(p.description)
  {
    FormValidIff(f);
  }

  datatype Verb = Post | Put

  datatype Request = Request(verb: Verb, path: string, body: Payload)

  /** `isEditMode`: the route carries a non-empty `id`. */
  predicate IsEditMode(id: Option<string>)
    ensures IsEditMode(id) ==> id.Some? && |id.value| > 0
  {
    id.Some? && id.value != ""
  }

  /** The request a submit sends: update the product in edit mode, create one otherwise. */
  function SubmitRequest(id: Option<string>, f: ProductForm): (r: Request)
    ensures r.verb == Put <==> IsEditMode(id)
    ensures r.verb == Put ==> r.path == "/products/" + id.value
    ensures r.verb == Post ==> r.path == "/products/add"
    ensures r.body == PayloadOf(f)
  {
    if IsEditMode(id) then Request(Put, "/products/" + id.value, PayloadOf(f))
    else Request(Post, "/products/add", PayloadOf(f))
  }

  /** The error shown when the catalog rejects a submit. */
  function SubmitError(editMode: bool): string {
    "Failed to " + (if editMode then "update" else "add") + " product. Please try again."
  }

  const ListPath: string := "/dashboard/products"

  const LoadError: string := "Failed to load product data."

  // --------------------------------------------------------------- load

  /** A product as the catalog returns it for editing. */
  datatype CatalogProduct = CatalogProduct(
    title: string,
    description: string,
    price: real,
    stock: real,
    thumbnail: string,
    images: Option<seq<string>>)

  /** The first image of a product, when there is one. */
  predicate HasFirstImage(images: Option<seq<string>>) {
    images.Some? && |images.value| > 0 && images.value[0] != ""
  }

  /** `thumbnail || images[0] || ''`: the first non-empty of the two, else empty. */
  function LoadedThumbnail(thumbnail: string, images: Option<seq<string>>): (r: string)
    ensures r != "" <==> thumbnail != "" || HasFirstImage(images)
    ensures thumbnail != "" ==> r == thumbnail
    ensures thumbnail == "" && HasFirstImage(images) ==> r == images.value[0]
  {
    if thumbnail != "" then thumbnail
    else if HasFirstImage(images) then images.value[0]
    else ""
  }

  /** The form filled from a loaded product. */
  function FormOf(p: CatalogProduct): (f: ProductForm)
    ensures f.title == p.title && f.description == p.description
    ensures f.price == Num(p.price) && f.stock == Num(p.stock)
    ensures f.thumbnail == LoadedThumbnail(p.thumbnail, p.images)
  {
    ProductForm(p.title, p.description, Num(p.price), Num(p.stock), LoadedThumbnail(p.thumbnail, p.images))
  }

  /**
   * Loading a product and submitting it untouched sends the product's own
   * title, description, price and stock back, and its thumbnail or first image.
   */
  lemma LoadThenSubmit(id: string, p: CatalogProduct)
    requires id != ""
    ensures SubmitRequest(Some(id), FormOf(p))
            == Request(Put, "/products/" + id,
                       Payload(p.title, p.description, p.price, p.stock, LoadedThumbnail(p.thumbnail, p.images)))
  {
  }

  /** A loaded product is submittable exactly when its own values pass validation. */
  lemma LoadedValidity(p: CatalogProduct)
    ensures IsFormValid(FormOf(p)) <==>
      !AllSpace(p.title) && !AllSpace(p.description) && p.price > 0.0 && p.stock >= 0.0
  {
    FormValidIff(FormOf(p));
  }

  // --------------------------------------------------------- page state

  /** The state of the add/edit page. */
  class ProductFormPage {
    /** The `id` route parameter. */
    const id: Option<string>
    var formData: ProductForm
    var loading: bool
    var fetchLoading: bool
    var error: Option<string>

    /** A freshly mounted page: blank form; waiting for the product in edit mode. */
    constructor (id: Option<string>)
      ensures this.id == id
      ensures formData == EmptyForm && !loading && fetchLoading == IsEditMode(id) && error == None
    {
      this.id := id;
      formData := EmptyForm;
      loading := false;
      fetchLoading := IsEditMode(id);
      error := None;
    }

    /**
     * `fetchProductData`, once the catalog has answered: the product, or
     * `None` when the request failed.
     */
    method ApplyLoaded(response: Option<CatalogProduct>)
      requires IsEditMode(id)
      modifies this`formData, this`fetchLoading, this`error
      ensures !fetchLoading
      ensures response.Some? ==> formData == FormOf(response.value) && error == None
      ensures response.None? ==> formData == old(formData) && error == Some(LoadError)
    {
      fetchLoading := true;
      error := None;
      if response.Some? {
        formData := FormOf(response.value);
      } else {
        error := Some(LoadError);
      }
      fetchLoading := false;
    }

    /** `handleChange`: one input's new text. */
    method HandleChange(field: Field, value: string, toNumber: string -> real)
      modifies this`formData
      ensures formData == Changed(old(formData), field, value, toNumber)
    {
      formData := Changed(formData, field, value, toNumber);
    }

    /** The file reader's `onload`. */
    method HandleFileLoaded(result: Option<string>)
      modifies this`formData
      ensures formData == WithUpload(old(formData), result)
    {
      formData := WithUpload(formData, result);
    }

    /**
     * `handleSubmit`: ignored while the form is invalid or a submit is in
     * progress; otherwise sends the request, and `succeeded` is the
     * catalog's answer. Success navigates back to the list; failure shows
     * an error naming the operation.
     */
    method HandleSubmit(succeeded: bool) returns (sent: Option<Request>, navigateTo: Option<string>)
      modifies this`loading, this`error
      ensures formData == old(formData)
      ensures !IsFormValid(formData) || old(loading) ==>
        && sent == None && navigateTo == None
        && loading == old(loading) && error == old(error)
      ensures IsFormValid(formData) && !old(loading) ==>
        && sent == Some(SubmitRequest(id, formData))
        && !loading
        && (succeeded ==> navigateTo == Some(ListPath) && error == None)
        && (!succeeded ==> navigateTo == None && error == Some(SubmitError(IsEditMode(id))))
    {
      sent, navigateTo := None, None;
      if !IsFormValid(formData) || loading {
        return;
      }
      loading := true;
      error := None;
      sent := Some(SubmitRequest(id, formData));
      if succeeded {
        navigateTo := Some(ListPath);
      } else {
        error := Some(SubmitError(IsEditMode(id)));
      }
      loading := false;
    }
  }

  /**
   * A new-product page on which only whitespace was typed into the title
   * sends nothing, whatever the other inputs hold.
   */
  method WhitespaceTitleSendsNothing(title: string, description: string, price: string, stock: string,
                                     toNumber: string -> real)
    returns (sent: Option<Request>)
    requires AllSpace(title)
    ensures sent == None
  {
    var page := new ProductFormPage(None);
    page.HandleChange(Title, title, toNumber);
    page.HandleChange(Description, description, toNumber);
    page.HandleChange(Price, price, toNumber);
    page.HandleChange(Stock, stock, toNumber);
    InvalidForms(page.formData);
    var navigateTo;
    sent, navigateTo := page.HandleSubmit(true);
  }
}
