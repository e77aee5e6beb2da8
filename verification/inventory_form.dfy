/** The inventory item form of components/inventory/inventory-form.tsx: the
    schema, the request built on submit, and the reset. Prices are whole
    cents. */
module InventoryForm {
  import opened Wrappers
  import opened Types

  datatype Mode = Create | Edit

  /** The quantity field after `z.coerce.number()`: a whole number, or
      something `.int()` or `.min(0)` refuses (a fraction, NaN). */
  datatype QuantityInput = Whole(n: int) | NotWhole

  /** The unit price after `z.coerce.number()`: an amount in cents (an
      empty field coerces to 0), or NaN. */
  datatype PriceInput = Amount(cents: int) | NotNumber

  datatype Fields = Fields(
    name: string,
    description: string,
    quantity: QuantityInput,
    unitPrice: PriceInput,
    sku: string)

  /** `inventorySchema` */
  predicate SchemaAccepts(f: Fields) {
    && 1 <= |f.name| <= 255
    && |f.description| <= 1000
    && f.quantity.Whole? && f.quantity.n >= 0
    && f.unitPrice.Amount? && f.unitPrice.cents >= 0
    && |f.sku| <= 100
  }

  /** `CreateInventoryItem` / `UpdateInventoryItem`: an absent optional
      field is `None`. */
  datatype InventoryRequest = InventoryRequest(
    name: string,
    description: Option<string>,
    quantity: int,
    unitPriceCents: Option<int>,
    sku: Option<string>)

  /** `x || undefined` on a string. */
  function NonEmptyOrNone(s: string): (r: Option<string>)
    ensures r.None? <==> s == ""
    ensures r.Some? ==> r.value == s
  {
    if s == "" then None else Some(s)
  }

  /** `handleSubmit(handleFormSubmit)` as written: nothing unless the schema
      accepts; then empty text and a zero price are left out. */
  function SubmitAsWritten(f: Fields): (r: Option<InventoryRequest>)
    ensures r.Some? <==> SchemaAccepts(f)
    ensures r.Some? ==> r.value.name == f.name && r.value.quantity == f.quantity.n
    ensures r.Some? ==> (r.value.unitPriceCents.None? <==> f.unitPrice.cents == 0)
  {
    if !SchemaAccepts(f) then None
    else
      Some(InventoryRequest(
        f.name,
        NonEmptyOrNone(f.description),
        f.quantity.n,
        if f.unitPrice.cents == 0 then None else Some(f.unitPrice.cents),
        NonEmptyOrNone(f.sku)))
  }

  /** The submit with the price always sent, so that 0 is a price like any
      other; text fields keep `|| undefined`. */
  function Submit(f: Fields): (r: Option<InventoryRequest>)
    ensures r.Some? <==> SchemaAccepts(f)
    ensures r.Some? ==> r.value.name == f.name && r.value.quantity == f.quantity.n
    ensures r.Some? ==> r.value.unitPriceCents == Some(f.unitPrice.cents)
    ensures r.Some? ==> r.value.description == NonEmptyOrNone(f.description)
    ensures r.Some? ==> r.value.sku == NonEmptyOrNone(f.sku)
  {
    if !SchemaAccepts(f) then None
    else
      Some(InventoryRequest(
        f.name,
        NonEmptyOrNone(f.description),
        f.quantity.n,
        Some(f.unitPrice.cents),
        NonEmptyOrNone(f.sku)))
  }

  /** The two submits differ only in the price of a zero-priced item. */
  lemma SubmitsAgreeOffZero(f: Fields)
    requires SchemaAccepts(f) && f.unitPrice.cents != 0
    ensures SubmitAsWritten(f) == Submit(f)
  {
  }

  /** What an update request means for a stored item: an absent field
      keeps its value. */
  function ApplyUpdate(item: InventoryItem, req: InventoryRequest): (r: InventoryItem)
    ensures r.id == item.id && r.createdAt == item.createdAt
    ensures r.name == req.name && r.quantity == req.quantity
    ensures r.unitPriceCents == req.unitPriceCents.GetOr(item.unitPriceCents)
    ensures r.description == req.description.GetOr(item.description)
    ensures r.sku == req.sku.GetOr(item.sku)
  {
    item.(
      name := req.name,
      description := req.description.GetOr(item.description),
      quantity := req.quantity,
      unitPriceCents := req.unitPriceCents.GetOr(item.unitPriceCents),
      sku := req.sku.GetOr(item.sku))
  }

  /** `handleReset` and `defaultValues`: create clears the form; edit
      restores the item (`|| 0` and `|| ""` change nothing there). */
  function Reset(mode: Mode, initial: Option<InventoryItem>): (r: Fields)
    ensures mode == Create || initial.None? ==> r == Fields("", "", Whole(0), Amount(0), "")
    ensures mode == Edit && initial.Some? ==>
      r == Fields(initial.value.name, initial.value.description, Whole(initial.value.quantity),
                  Amount(initial.value.unitPriceCents), initial.value.sku)
  {
    match (mode, initial)
    case (Edit, Some(item)) =>
      Fields(item.name, item.description, Whole(item.quantity), Amount(item.unitPriceCents), item.sku)
    case _ => Fields("", "", Whole(0), Amount(0), "")
  }

  /** A reset create form is rejected: the name is required. */
  lemma ResetCreateIsRejected(initial: Option<InventoryItem>)
    ensures Submit(Reset(Create, initial)).None?
  {
  }

  /** Well-formed stored item: what the schema would accept. */
  predicate WellFormed(item: InventoryItem) {
    && 1 <= |item.name| <= 255 && |item.description| <= 1000
    && item.quantity >= 0 && item.unitPriceCents >= 0 && |item.sku| <= 100
  }

  /** Saving an edit form without touching it leaves the item as it was. */
  lemma UntouchedEditKeepsItem(item: InventoryItem)
    requires WellFormed(item)
    ensures Submit(Reset(Edit, Some(item))).Some?
    ensures ApplyUpdate(item, Submit(Reset(Edit, Some(item))).value) == item
  {
  }

  /** Editing the price applies it, zero included. */
  lemma EditedPriceIsApplied(item: InventoryItem, cents: int)
    requires WellFormed(item) && cents >= 0
    ensures var f := Reset(Edit, Some(item)).(unitPrice := Amount(cents));
      Submit(f).Some? && ApplyUpdate(item, Submit(f).value).unitPriceCents == cents
  {
  }

  /** As written, lowering a price to zero is lost: the request leaves the
      price out, so the stored price stays. */
  lemma ZeroPriceIsLostAsWritten(item: InventoryItem)
    requires WellFormed(item) && item.unitPriceCents > 0
    ensures var f := Reset(Edit, Some(item)).(unitPrice := Amount(0));
      && SubmitAsWritten(f).Some?
      && ApplyUpdate(item, SubmitAsWritten(f).value).unitPriceCents == item.unitPriceCents
      && item.unitPriceCents != 0
  {
  }
}
