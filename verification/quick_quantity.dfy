/** The quantity dialog of components/inventory/quick-quantity-update.tsx as
    a state machine over the dialog's `open` and `quantity` state and the
    mutation's pending flag. */
module QuickQuantity {
  import opened Wrappers
  import opened Types
  import opened Text

  datatype Dialog = Dialog(open: bool, quantity: int, pending: bool)

  /** The state the component mounts with. */
  function Mount(item: InventoryItem): (r: Dialog)
    ensures !r.open && !r.pending && r.quantity == item.quantity
  {
    Dialog(false, item.quantity, false)
  }

  /** `handleOpenChange`: opening reloads the item's quantity; closing
      keeps whatever was typed. */
  function OpenChange(d: Dialog, open: bool, item: InventoryItem): (r: Dialog)
    ensures r.open == open && r.pending == d.pending
    ensures open ==> r.quantity == item.quantity
    ensures !open ==> r.quantity == d.quantity
  {
    if open then d.(open := true, quantity := item.quantity) else d.(open := false)
  }

  /** The input's `onChange`, `Number(e.target.value)`. */
  function SetQuantity(d: Dialog, quantity: int): (r: Dialog)
    ensures r.quantity == quantity && r.open == d.open && r.pending == d.pending
  {
    d.(quantity := quantity)
  }

  /** The submit button is disabled while saving or when nothing changed. */
  predicate SubmitDisabled(d: Dialog, item: InventoryItem) {
    d.pending || d.quantity == item.quantity
  }

  /** A submit goes out when the button is enabled and the browser's check
      of the field's `min="0"` passes. */
  predicate CanSubmit(d: Dialog, item: InventoryItem) {
    !SubmitDisabled(d, item) && d.quantity >= 0
  }

  /** The `(id, quantity)` the submit sends, and the dialog after it. */
  function Submit(d: Dialog, item: InventoryItem): (r: (Dialog, Option<(int, int)>))
    ensures r.1.Some? <==> CanSubmit(d, item)
    ensures r.1.Some? ==> r.1.value == (item.id, d.quantity) && r.1.value.1 != item.quantity
    ensures r.1.Some? ==> r.0 == d.(pending := true)
    ensures r.1.None? ==> r.0 == d
  {
    if CanSubmit(d, item) then (d.(pending := true), Some((item.id, d.quantity))) else (d, None)
  }

  /** The mutation settles: success closes the dialog, failure leaves it
      open with the typed value. */
  function Settle(d: Dialog, success: bool): (r: Dialog)
    ensures !r.pending && r.quantity == d.quantity
    ensures r.open == (d.open && !success)
  {
    d.(pending := false, open := d.open && !success)
  }

  /** Cancel closes the dialog; it is disabled while saving. */
  function Cancel(d: Dialog): (r: Dialog)
    ensures d.pending ==> r == d
    ensures !d.pending ==> !r.open && r.quantity == d.quantity
  {
    if d.pending then d else d.(open := false)
  }

  /** The "Change: +n" line: shown only when the value differs, with a
      `+` before a rise. */
  function ChangeLine(d: Dialog, item: InventoryItem): (r: Option<string>)
    ensures r.None? <==> d.quantity == item.quantity
    ensures d.quantity > item.quantity ==> r == Some("Change: +" + NatToString(d.quantity - item.quantity))
    ensures d.quantity < item.quantity ==> r == Some("Change: -" + NatToString(item.quantity - d.quantity))
  {
    if d.quantity == item.quantity then None
    else if d.quantity > item.quantity then
      var line := "Change: " + "+" + IntToString(d.quantity - item.quantity);
      assert "Change: " + "+" == "Change: +";
      Some(line)
    else
      var line := "Change: " + "" + IntToString(d.quantity - item.quantity);
      assert line == "Change: " + "" + "-" + NatToString(item.quantity - d.quantity);
      assert "Change: " + "" + "-" == "Change: -";
      Some(line)
  }

  /** A freshly opened dialog shows no change and cannot submit. */
  lemma OpenedDialogIsUnchanged(d: Dialog, item: InventoryItem)
    ensures ChangeLine(OpenChange(d, true, item), item).None?
    ensures SubmitDisabled(OpenChange(d, true, item), item)
    ensures Submit(OpenChange(d, true, item), item).1.None?
  {
  }

  /** An edit abandoned by closing the dialog is gone when it reopens. */
  lemma ReopenDiscardsEdit(d: Dialog, item: InventoryItem, typed: int)
    ensures var closed := OpenChange(SetQuantity(OpenChange(d, true, item), typed), false, item);
      OpenChange(closed, true, item).quantity == item.quantity
  {
  }

  /** Typing a different non-negative value and submitting sends exactly
      that value, and a success closes the dialog. */
  lemma EditSubmitClose(item: InventoryItem, typed: int)
    requires typed >= 0 && typed != item.quantity
    ensures var d := SetQuantity(OpenChange(Mount(item), true, item), typed);
      var (sent, req) := Submit(d, item);
      req == Some((item.id, typed)) && !Settle(sent, true).open && Settle(sent, false).open
  {
  }
}
