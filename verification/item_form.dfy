/**
 * The add/edit item form: its validation schema, the values it opens
 * with, how the quantity field reads what is typed, and what a submit
 * does to the form.
 */
module ItemForm {
  import opened Wrappers
  import opened Text
  import opened Domain

  /** The form's values as typed; the category is the select's value text. */
  datatype Values = Values(name: string, description: string, category: string, quantity: int, expirationDate: string)

  /** The values once the schema accepts them. */
  datatype Valid = Valid(name: string, description: string, category: Category, quantity: int, expirationDate: string)

  /** The fields the schema can reject. */
  datatype FieldError = NameRequired | InvalidCategory | QuantityTooSmall

  /** The errors of `v`, in field order. */
  function Errors(v: Values): (errs: seq<FieldError>)
    ensures NameRequired in errs <==> |v.name| < 1
    ensures InvalidCategory in errs <==> ParseCategory(v.category).None?
    ensures QuantityTooSmall in errs <==> v.quantity < 1
  {
    (if |v.name| < 1 then [NameRequired] else [])
      + (if ParseCategory(v.category).None? then [InvalidCategory] else [])
      + (if v.quantity < 1 then [QuantityTooSmall] else [])
  }

  /** The schema: a name of at least one character, a category of the enum, a quantity of at least one. */
  function Validate(v: Values): (r: Result<Valid, seq<FieldError>>)
    ensures r.Ok? <==> |v.name| >= 1 && ParseCategory(v.category).Some? && v.quantity >= 1
    ensures r.Ok? ==> r.value == Valid(v.name, v.description, ParseCategory(v.category).value, v.quantity, v.expirationDate)
    ensures r.Err? ==> r.error == Errors(v) && |r.error| > 0
  {
    var errs := Errors(v);
    if errs == [] then Ok(Valid(v.name, v.description, ParseCategory(v.category).value, v.quantity, v.expirationDate))
    else Err(errs)
  }

  /** The texts the category select offers: the eight enum names. */
  function CategoryOptions(): (r: seq<string>)
    ensures |r| == |AllCategories| && forall k :: 0 <= k < |r| ==> r[k] == CategoryName(AllCategories[k])
  {
    seq(|AllCategories|, k requires 0 <= k < |AllCategories| => CategoryName(AllCategories[k]))
  }

  /** Whatever the select offers, the schema accepts as a category. */
  lemma OptionsAccepted(k: nat)
    requires k < |CategoryOptions()|
    ensures ParseCategory(CategoryOptions()[k]) == Some(AllCategories[k])
  {
    ParseCategoryName(AllCategories[k]);
  }

  /** What a caller may prefill; absent fields take the defaults. */
  datatype Initial = Initial(name: Option<string>, description: Option<string>, category: Option<Category>, quantity: Option<int>, expirationDate: Option<string>)

  /** The defaults: empty texts, category other, one piece. */
  const Blank: Values := Values("", "", "OTHER", 1, "")

  /**
   * The values the form opens with: the prefilled ones, each falling back
   * to its default; a quantity of zero counts as absent.
   */
  function ResetValues(init: Option<Initial>): (v: Values)
    ensures init.None? ==> v == Blank
    ensures init.Some? ==> && v.name == OrEmpty(init.value.name) && v.description == OrEmpty(init.value.description)
                           && v.expirationDate == OrEmpty(init.value.expirationDate)
                           && v.category == CategoryName(init.value.category.GetOr(Other))
    ensures v.quantity != 0
    ensures init.Some? && init.value.quantity.Some? && init.value.quantity.value != 0 ==> v.quantity == init.value.quantity.value
    ensures (init.None? || init.value.quantity.None? || init.value.quantity.value == 0) ==> v.quantity == 1
  {
    match init
    case None => Blank
    case Some(i) =>
      var q := if i.quantity.Some? && i.quantity.value != 0 then i.quantity.value else 1;
      Values(OrEmpty(i.name), OrEmpty(i.description), CategoryName(i.category.GetOr(Other)), q, OrEmpty(i.expirationDate))
  }

  /** A form opened from a named item with a positive quantity, or with none, passes the schema. */
  lemma OpenedValuesValid(init: Initial)
    requires Truthy(init.name) && (init.quantity.None? || init.quantity.value >= 0)
    ensures Validate(ResetValues(Some(init))).Ok?
  {
    ParseCategoryName(init.category.GetOr(Other));
  }

  /**
   * The quantity field's reading of what was typed: `parsed` is
   * `parseInt`'s result, `None` for NaN. NaN and zero read as one.
   */
  function ReadQuantity(parsed: Option<int>): (q: int)
    ensures q != 0
    ensures parsed.Some? && parsed.value != 0 ==> q == parsed.value
    ensures parsed.None? || parsed.value == 0 ==> q == 1
  {
    match parsed
    case None => 1
    case Some(n) => if n == 0 then 1 else n
  }

  /** The form: the shown values, the values a bare reset returns to, and the dialog's flags. */
  datatype Form = Form(values: Values, defaults: Values, submitting: bool, open: bool)

  /** Opening the form resets it to the opening values, which also become what a later reset returns to. */
  function SetOpen(f: Form, open: bool, init: Option<Initial>): (r: Form)
    ensures r.open == open && r.submitting == f.submitting
    ensures open ==> r.values == ResetValues(init) && r.defaults == r.values
    ensures !open ==> r.values == f.values && r.defaults == f.defaults
  {
    if open then Form(ResetValues(init), ResetValues(init), f.submitting, true)
    else f.(open := false)
  }

  /**
   * Submitting: nothing is handed on unless the schema accepts the values;
   * `succeeded` says whether the submit handler resolved. Only after it
   * did is the form reset and closed.
   */
  function Submit(f: Form, succeeded: bool): (r: (Form, Option<Valid>))
    ensures r.1 == (match Validate(f.values) case Ok(v) => Some(v) case Err(_) => None)
    ensures r.1.None? ==> r.0 == f
    ensures r.1.Some? && succeeded ==> r.0 == Form(f.defaults, f.defaults, false, false)
    ensures r.1.Some? && !succeeded ==> r.0 == f.(submitting := false)
  {
    match Validate(f.values)
    case Err(_) => (f, None)
    case Ok(v) =>
      if succeeded then (Form(f.defaults, f.defaults, false, false), Some(v))
      else (f.(submitting := false), Some(v))
  }
}
