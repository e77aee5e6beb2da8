/** Sending the inventory report: the page of
    app/dashboard/reports/send/page.tsx (merchants chosen by id plus typed
    addresses) and the form of components/reports/send-report-form.tsx
    (addresses from the recipient selector), with the report preview the
    form shows. `window.confirm` is the input `proceed`. */
module SendReport {
  import opened Wrappers
  import opened Types
  import opened Text
  import Seqs
  import Recipients
  import EmailValidation
  import UseDashboard

  // ---- the page ----

  function MerchantId(m: Merchant): int {
    m.id
  }

  /** The addresses of the chosen merchants, in merchant-list order. */
  function ChosenMerchantEmails(merchants: Option<seq<Merchant>>, ids: seq<int>): (r: seq<string>)
    ensures merchants.None? ==> r == []
    ensures merchants.Some? ==> |r| <= |merchants.value|
    ensures forall k :: 0 <= k < |r| ==>
      exists m :: 0 <= m < |merchants.value| && merchants.value[m].id in ids && merchants.value[m].email == r[k]
    ensures merchants.Some? ==>
      forall m :: 0 <= m < |merchants.value| && merchants.value[m].id in ids ==> merchants.value[m].email in r
  {
    match merchants
    case None => []
    case Some(ms) =>
      var r := Recipients.MerchantEmails(Seqs.Filter((m: Merchant) => m.id in ids, ms));
      forall k | 0 <= k < |r|
        ensures exists m :: 0 <= m < |ms| && ms[m].id in ids && ms[m].email == r[k]
      {
        ChosenSound(ms, ids, k);
      }
      forall m | 0 <= m < |ms| && ms[m].id in ids ensures ms[m].email in r {
        ChosenComplete(ms, ids, m);
      }
      r
  }

  lemma ChosenSound(ms: seq<Merchant>, ids: seq<int>, k: int)
    requires 0 <= k < |Seqs.Filter((m: Merchant) => m.id in ids, ms)|
    ensures var r := Recipients.MerchantEmails(Seqs.Filter((m: Merchant) => m.id in ids, ms));
      exists m :: 0 <= m < |ms| && ms[m].id in ids && ms[m].email == r[k]
  {
    var chosen := Seqs.Filter((m: Merchant) => m.id in ids, ms);
    assert chosen[k] in ms;
    var m :| 0 <= m < |ms| && ms[m] == chosen[k];
    assert Recipients.MerchantEmails(chosen)[k] == ms[m].email;
  }

  lemma ChosenComplete(ms: seq<Merchant>, ids: seq<int>, i: int)
    requires 0 <= i < |ms| && ms[i].id in ids
    ensures ms[i].email in Recipients.MerchantEmails(Seqs.Filter((m: Merchant) => m.id in ids, ms))
  {
    var chosen := Seqs.Filter((m: Merchant) => m.id in ids, ms);
    assert ms[i] in chosen;
    var k :| 0 <= k < |chosen| && chosen[k] == ms[i];
    assert Recipients.MerchantEmails(chosen)[k] == ms[i].email;
  }

  /** The chosen addresses built one merchant at a time: each chosen
      merchant contributes its address, in list order. */
  function ChosenOneByOne(ms: seq<Merchant>, ids: seq<int>): seq<string> {
    if ms == [] then []
    else (if ms[0].id in ids then [ms[0].email] else []) + ChosenOneByOne(ms[1..], ids)
  }

  /** `getRecipientEmails`' merchant part is exactly the one-at-a-time
      list: nothing dropped, nothing reordered, nothing repeated. */
  lemma {:induction false} ChosenMerchantEmailsInOrder(ms: seq<Merchant>, ids: seq<int>)
    ensures ChosenMerchantEmails(Some(ms), ids) == ChosenOneByOne(ms, ids)
  {
    if ms != [] {
      ChosenMerchantEmailsInOrder(ms[1..], ids);
      var p := (m: Merchant) => m.id in ids;
      var rest := Seqs.Filter(p, ms[1..]);
      if p(ms[0]) {
        var chosen := [ms[0]] + rest;
        assert Seqs.Filter(p, ms) == chosen;
        assert chosen[1..] == rest;
      } else {
        assert Seqs.Filter(p, ms) == rest;
      }
    }
  }

  /** `getRecipientEmails`: the chosen merchants' addresses, then the typed
      ones; duplicates are kept. */
  function RecipientEmails(merchants: Option<seq<Merchant>>, ids: seq<int>, customText: string): (r: seq<string>)
    ensures |r| == |ChosenMerchantEmails(merchants, ids)| + |Recipients.ParseEmailList(customText)|
    ensures r[..|ChosenMerchantEmails(merchants, ids)|] == ChosenMerchantEmails(merchants, ids)
    ensures r[|ChosenMerchantEmails(merchants, ids)|..] == Recipients.ParseEmailList(customText)
  {
    ChosenMerchantEmails(merchants, ids) + Recipients.ParseEmailList(customText)
  }

  /** The whole recipient list, spelled out: the chosen merchants'
      addresses one merchant at a time in list order, then every non-empty
      trimmed piece of the typed text. */
  lemma RecipientEmailsSpelledOut(ms: seq<Merchant>, ids: seq<int>, customText: string)
    ensures RecipientEmails(Some(ms), ids, customText)
         == ChosenOneByOne(ms, ids) + Recipients.ParseEmailList(customText)
  {
    ChosenMerchantEmailsInOrder(ms, ids);
  }

  /** An address chosen twice, once through a merchant and once typed,
      appears twice. */
  lemma DuplicatesAreKept(m: Merchant, customText: string)
    requires Recipients.ParseEmailList(customText) == [m.email]
    ensures RecipientEmails(Some([m]), [m.id], customText) == [m.email, m.email]
  {
    var chosen := Seqs.Filter((x: Merchant) => x.id in [m.id], [m]);
    assert [m][1..] == [];
    assert chosen == [m];
    assert ChosenMerchantEmails(Some([m]), [m.id]) == Recipients.MerchantEmails([m]);
    assert Recipients.MerchantEmails([m]) == [m.email];
  }

  /** `handleMerchantToggle` on the chosen ids. */
  function ToggleMerchant(ids: seq<int>, id: int): (r: seq<int>)
    ensures id in r <==> id !in ids
    ensures forall x :: x != id ==> (x in r <==> x in ids)
  {
    if id in ids then
      var r := Seqs.Filter((x: int) => x != id, ids);
      forall x | x != id ensures x in r <==> x in ids {
        Seqs.FilterMembership((y: int) => y != id, ids, x);
      }
      r
    else ids + [id]
  }

  /** `handleSelectAllMerchants` on the chosen ids. */
  function SelectAllMerchants(merchants: Option<seq<Merchant>>, ids: seq<int>): (r: seq<int>)
    ensures merchants.None? ==> r == ids
    ensures merchants.Some? && |ids| == |merchants.value| ==> r == []
    ensures merchants.Some? && |ids| != |merchants.value| ==>
      |r| == |merchants.value| && forall k :: 0 <= k < |r| ==> r[k] == merchants.value[k].id
  {
    match merchants
    case None => ids
    case Some(ms) => if |ids| == |ms| then [] else Seqs.Map(MerchantId, ms)
  }

  /** `isFormValid` of both screens. */
  predicate IsFormValid(recipients: seq<string>, subject: string) {
    |recipients| > 0 && Trim(subject) != []
  }

  /** `value.trim() || undefined` */
  function TrimmedOrUndefined(s: string): (r: Option<string>)
    ensures r.None? <==> IsBlank(s)
    ensures r.Some? ==> r.value == Trim(s)
  {
    var t := Trim(s);
    if t == [] then None else Some(t)
  }

  /** Where a send attempt stops. */
  datatype SendOutcome =
    | NoRecipients
    | SubjectMissing
    | Cancelled
    | Send(payload: SendInventoryReport)

  /** `handleSendReport` of the page: refuse an empty recipient list, ask
      before dropping invalid addresses, then send only the valid ones. */
  function PageSend(recipients: seq<string>, subject: string, message: string, proceed: bool): (r: SendOutcome)
    ensures r == NoRecipients <==> recipients == []
    ensures r != SubjectMissing
    ensures r.Send? ==> r.payload.recipients == EmailValidation.ValidateEmails(recipients).validEmails
    ensures r.Send? ==> r.payload.subject == TrimmedOrUndefined(subject)
    ensures r.Send? ==> r.payload.customMessage == TrimmedOrUndefined(message)
  {
    if recipients == [] then NoRecipients
    else
      var v := EmailValidation.ValidateEmails(recipients);
      if v.invalidCount > 0 && !proceed then Cancelled
      else Send(SendInventoryReport(v.validEmails, TrimmedOrUndefined(subject), TrimmedOrUndefined(message)))
  }

  /** The page sends exactly when there are recipients and either every
      address is valid or the user agrees to skip the invalid ones. */
  lemma PageSendsIff(recipients: seq<string>, subject: string, message: string, proceed: bool)
    ensures PageSend(recipients, subject, message, proceed).Send? <==>
      recipients != [] && (EmailValidation.ValidateEmails(recipients).invalidCount == 0 || proceed)
  {
  }

  /** `handleSendReport` of the form: refuse an empty list, then a blank
      subject, before validating. */
  function FormSend(recipients: seq<string>, subject: string, message: string, proceed: bool): (r: SendOutcome)
    ensures r == NoRecipients <==> recipients == []
    ensures r == SubjectMissing <==> recipients != [] && IsBlank(subject)
    ensures r.Send? ==> r.payload.recipients == EmailValidation.ValidateEmails(recipients).validEmails
    ensures r.Send? ==> r.payload.subject == Some(Trim(subject)) && Trim(subject) != []
    ensures r.Send? ==> r.payload.customMessage == TrimmedOrUndefined(message)
  {
    if recipients == [] then NoRecipients
    else if Trim(subject) == [] then SubjectMissing
    else
      var v := EmailValidation.ValidateEmails(recipients);
      if v.invalidCount > 0 && !proceed then Cancelled
      else Send(SendInventoryReport(v.validEmails, Some(Trim(subject)), TrimmedOrUndefined(message)))
  }

  /** The form sends exactly when it is valid and either every address is
      valid or the user agrees to skip the invalid ones. */
  lemma FormSendsIff(recipients: seq<string>, subject: string, message: string, proceed: bool)
    ensures FormSend(recipients, subject, message, proceed).Send? <==>
      IsFormValid(recipients, subject) && (EmailValidation.ValidateEmails(recipients).invalidCount == 0 || proceed)
  {
  }

  /** Every address the form or the page sends passes the address rule. */
  lemma SentAddressesAreValid(recipients: seq<string>, subject: string, message: string, proceed: bool, k: int)
    requires FormSend(recipients, subject, message, proceed).Send?
    requires 0 <= k < |FormSend(recipients, subject, message, proceed).payload.recipients|
    ensures EmailValidation.IsValidEmail(FormSend(recipients, subject, message, proceed).payload.recipients[k])
  {
    EmailValidation.ValidationPartitions(recipients);
  }

  /** The form's fields. */
  datatype FormState = FormState(recipients: seq<string>, subject: string, message: string)

  /** The reset after a successful send. */
  function ResetAfterSend(defaultSubject: string): (r: FormState)
    ensures r.recipients == [] && r.subject == defaultSubject && r.message == ""
    ensures !IsFormValid(r.recipients, r.subject)
  {
    FormState([], defaultSubject, "")
  }

  /** The first ten recipients shown, and the count of the others. */
  function RecipientPreview(recipients: seq<string>): (r: (seq<string>, Option<nat>))
    ensures |r.0| <= 10 && |r.0| <= |recipients| && r.0 == recipients[..|r.0|]
    ensures r.1.Some? <==> |recipients| > 10
    ensures r.1.Some? ==> |r.0| + r.1.value == |recipients|
  {
    (Seqs.Take(recipients, 10), if |recipients| > 10 then Some(|recipients| - 10) else None)
  }

  // ---- the report preview of the form ----

  /** One row of the report data. */
  datatype ReportRow = ReportRow(itemName: string, quantity: int, sku: string, unitPriceCents: int)

  /** `InventoryReportData[] | string`: rows, or the CSV text. */
  datatype ReportData = Rows(rows: seq<ReportRow>) | Csv(text: string)

  /** `reportData?.length || 0`: the number of rows, or, for CSV text, its
      length in characters. */
  function PreviewTotal(data: Option<ReportData>): (r: nat)
    ensures data.None? ==> r == 0
    ensures data.Some? && data.value.Rows? ==> r == |data.value.rows|
  {
    match data
    case None => 0
    case Some(Rows(rows)) => |rows|
    case Some(Csv(text)) => |text|
  }

  /** The preview's low-stock test. */
  predicate PreviewLow(row: ReportRow) {
    row.quantity < 10
  }

  predicate OutOfStock(row: ReportRow) {
    row.quantity == 0
  }

  function RowsOf(data: Option<ReportData>): seq<ReportRow> {
    if data.Some? && data.value.Rows? then data.value.rows else []
  }

  /** The "Low Stock" figure: rows below 10, or 0 for CSV text. */
  function PreviewLowStock(data: Option<ReportData>): (r: nat)
    ensures r <= |RowsOf(data)|
  {
    |Seqs.Filter(PreviewLow, RowsOf(data))|
  }

  /** The number of rows at quantity 0. */
  function OutOfStockCount(data: Option<ReportData>): (r: nat)
    ensures r <= |RowsOf(data)|
  {
    |Seqs.Filter(OutOfStock, RowsOf(data))|
  }

  /** Every out-of-stock row is also counted as low. */
  lemma OutOfStockAtMostLowStock(data: Option<ReportData>)
    ensures OutOfStockCount(data) <= PreviewLowStock(data)
  {
    var rows := RowsOf(data);
    Seqs.FilterWeakerTest(OutOfStock, PreviewLow, rows);
    SubsequenceShorter(Seqs.Filter(OutOfStock, rows), Seqs.Filter(PreviewLow, rows));
  }

  lemma {:induction false} SubsequenceShorter<T>(a: seq<T>, b: seq<T>)
    requires Seqs.IsSubsequence(a, b)
    ensures |a| <= |b|
    decreases |b|
  {
    if a != [] && b != [] {
      if a[0] == b[0] {
        SubsequenceShorter(a[1..], b[1..]);
      } else {
        SubsequenceShorter(a, b[1..]);
      }
    }
  }

  /** The "Out of Stock" cell as written: the count expression appears
      twice in a row, so its digits are shown twice. */
  function OutOfStockCellAsWritten(data: Option<ReportData>): (r: string)
    ensures |r| == 2 * |IntToString(OutOfStockCount(data))|
  {
    IntToString(OutOfStockCount(data)) + IntToString(OutOfStockCount(data))
  }

  /** One out-of-stock row shows as "11". */
  lemma DoubledCount(row: ReportRow)
    requires row.quantity == 0
    ensures OutOfStockCount(Some(Rows([row]))) == 1
    ensures OutOfStockCellAsWritten(Some(Rows([row]))) == "11"
    ensures OutOfStockCellAsWritten(Some(Rows([row]))) != IntToString(1)
  {
    assert [row][1..] == [];
    assert Seqs.Filter(OutOfStock, [row]) == [row];
  }

  /** The "Out of Stock" cell as intended: the count once. */
  function OutOfStockCell(data: Option<ReportData>): (r: string)
    ensures r == IntToString(OutOfStockCount(data))
    ensures OutOfStockCount(data) <= PreviewLowStock(data)
  {
    OutOfStockAtMostLowStock(data);
    IntToString(OutOfStockCount(data))
  }

  /** The rows listed in the preview and the "... and N more items" line. */
  function PreviewRows(data: Option<ReportData>): (r: (seq<ReportRow>, Option<nat>))
    ensures |r.0| <= 5 && |r.0| <= |RowsOf(data)| && r.0 == RowsOf(data)[..|r.0|]
    ensures r.1.Some? <==> PreviewTotal(data) > 5
    ensures data.Some? && data.value.Rows? && r.1.Some? ==> |r.0| + r.1.value == PreviewTotal(data)
  {
    (Seqs.Take(RowsOf(data), 5), if PreviewTotal(data) > 5 then Some(PreviewTotal(data) - 5) else None)
  }

  /** The preview and the dashboard disagree on an item with exactly 10 in
      stock: the dashboard counts it as low, the preview does not. */
  lemma ThresholdsDisagreeAtTen(item: InventoryItem)
    requires item.quantity == 10
    ensures UseDashboard.IsLowStock(item)
    ensures !PreviewLow(ReportRow(item.name, item.quantity, item.sku, item.unitPriceCents))
  {
  }

  /** Everywhere else the two thresholds agree. */
  lemma ThresholdsAgreeElsewhere(item: InventoryItem)
    requires item.quantity != 10
    ensures UseDashboard.IsLowStock(item) <==> PreviewLow(ReportRow(item.name, item.quantity, item.sku, item.unitPriceCents))
  {
  }
}
