/**
 * The dialog in which the user checks, and corrects, what a scan
 * proposed for a new item before saving it.
 */
module ScanDialog {
  import opened Wrappers
  import opened Text
  import opened Domain

  /** An item's fields as the dialog receives and hands them on; absent text is `None`. */
  datatype ItemData = ItemData(name: string, description: Option<string>, category: Category, quantity: int, expirationDate: Option<string>)

  /** The dialog's fields; absent text is held as the empty string. */
  datatype Form = Form(name: string, description: string, category: Category, quantity: int, expirationDate: string, submitting: bool, open: bool)

  /** JavaScript's `s || undefined`. */
  function NonEmpty(s: string): (r: Option<string>)
    ensures r.None? <==> s == ""
    ensures r.Some? ==> r.value == s
  {
    if s == "" then None else Some(s)
  }

  /** Opening the dialog loads the proposed fields; an open or close otherwise changes no field. */
  function SetOpen(f: Form, open: bool, initial: ItemData): (r: Form)
    ensures r.open == open && r.submitting == f.submitting
    ensures open ==> && r.name == initial.name && r.description == OrEmpty(initial.description)
                     && r.category == initial.category && r.quantity == initial.quantity
                     && r.expirationDate == OrEmpty(initial.expirationDate)
    ensures !open ==> r == f.(open := false)
  {
    if open then
      f.(name := initial.name, description := OrEmpty(initial.description), category := initial.category,
         quantity := initial.quantity, expirationDate := OrEmpty(initial.expirationDate), open := true)
    else f.(open := false)
  }

  /** The fields handed to the save handlers: empty description and date become absent. */
  function GetFormData(f: Form): (d: ItemData)
    ensures d.name == f.name && d.category == f.category && d.quantity == f.quantity
    ensures d.description.None? <==> f.description == ""
    ensures d.description.Some? ==> d.description.value == f.description
    ensures d.expirationDate.None? <==> f.expirationDate == ""
    ensures d.expirationDate.Some? ==> d.expirationDate.value == f.expirationDate
  {
    ItemData(f.name, NonEmpty(f.description), f.category, f.quantity, NonEmpty(f.expirationDate))
  }

  /** Proposed fields without empty text. */
  predicate Normal(d: ItemData) {
    d.description != Some("") && d.expirationDate != Some("")
  }

  /** Saving without edits hands on exactly what was proposed. */
  lemma UneditedRoundTrip(f: Form, initial: ItemData)
    requires Normal(initial)
    ensures GetFormData(SetOpen(f, true, initial)) == initial
  {
  }

  /** The minus button: lowers the quantity only above one. */
  function Decrement(f: Form): (r: Form)
    ensures f.quantity > 1 ==> r.quantity == f.quantity - 1
    ensures f.quantity <= 1 ==> r.quantity == f.quantity
    ensures r == f.(quantity := r.quantity)
  {
    if f.quantity > 1 then f.(quantity := f.quantity - 1) else f
  }

  /** The plus button. */
  function Increment(f: Form): (r: Form)
    ensures r.quantity == f.quantity + 1 && r == f.(quantity := r.quantity)
  {
    f.(quantity := f.quantity + 1)
  }

  /** The buttons keep a quantity of at least one, and minus undoes plus. */
  lemma StepperKeepsPositive(f: Form)
    requires f.quantity >= 1
    ensures Decrement(f).quantity >= 1 && Increment(f).quantity >= 1
    ensures Decrement(Increment(f)) == f
  {
  }

  /** Both save buttons are enabled only with a name and no save under way. */
  predicate SaveEnabled(f: Form) {
    !f.submitting && f.name != ""
  }

  /**
   * Saving: `succeeded` says whether the save handler resolved. The
   * dialog closes only after a save that succeeded; a failed save leaves
   * it open with the fields kept.
   */
  function Confirm(f: Form, succeeded: bool): (r: Form)
    ensures !r.submitting
    ensures r.open <==> f.open && !succeeded
    ensures r.(open := f.open, submitting := f.submitting) == f
  {
    f.(submitting := false, open := f.open && !succeeded)
  }

  /**
   * Saving and starting on the next item: `hasHandler` says whether the
   * page offers that, `succeeded` whether the handler resolved. The dialog
   * stays open either way.
   */
  function ConfirmAndAddNew(f: Form, hasHandler: bool, succeeded: bool): (r: Form)
    ensures r.open == f.open
    ensures hasHandler ==> r == f.(submitting := false)
    ensures !hasHandler ==> r == f
  {
    if !hasHandler then f else f.(submitting := false)
  }
}
