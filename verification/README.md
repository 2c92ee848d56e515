# AutoProcure three-way match, modelled in Dafny

AutoProcure reads procurement PDFs, extracts purchase orders (POs), invoices
and goods receipt notes (GRNs) into a document store, and then reconciles them.
Reconciliation is a three-way match: every PO is compared with the invoices
and GRNs that cite it. This project models the deterministic core of that
pipeline and proves properties about it:

- `_normalize_po_reference` and the `reference_po` validators that apply it
  when an invoice or GRN is built.
- `get_document` and the `DocumentType` enumeration.
- The status classifier for one PO. It checks for a missing invoice, then a
  missing GRN, then compares each invoice grand total with the PO total using
  an absolute tolerance of 0.01.
- The reconciliation endpoint as a whole:
  - the PO loop, with the decision lookup;
  - the invoice scan, which produces ghost-PO entries and orphaned-invoice
    entries;
  - the GRN scan, which produces ghost-PO entries and orphaned-GRN entries;
  - the set of processed PO numbers, which is threaded through all three
    loops.
- The decision recorder, which upserts an approve/reject verdict per PO number.

The three stores are sequences in store order. The decision store is a map
from PO number to record. The store queries become pure filters over those
sequences. Each stored document keeps its payload (`Option<...>`, because the
payload part can be null) and its source PDF path.

Files:

- `wrappers.dfy`: `Option` and `Result`.
- `reference.dfy`: `strip`, the `PO-\d+` search, and normalisation.
- `records.dfy`: the records, the validators, `get_document` and the stored
  documents.
- `classifier.dfy`: statuses, issues and the classifier.
- `decisions.dfy`: the decision table and its recorder.
- `reconciliation.dfy`: the engine, written as the source's three loops.
- `reconciliation_properties.dfy`: loop-free reference definitions of the
  engine's output, and the lemmas that connect the loops to them.

Not every stored document ends up in some result. An invoice whose reference
names no stored PO claims that number as a ghost. Every later invoice with the same reference is
then skipped and appears in no result. The same holds for later GRNs of a
number that only GRNs cite. `InvoiceDropped`, `GrnDropped`,
`DroppedInvoiceAbsent`, `DroppedGrnAbsent` and the two concrete examples state
this behaviour exactly.

## Model

| member | source | states |
|---|---|---|
| Reference.Strip | src/processor.py:34 | the result has no leading or trailing whitespace, and it is the input with only whitespace removed at both ends |
| Reference.FindPo | src/processor.py:35 | it finds the leftmost position at or after `from` where `PO-` is followed by a digit, or reports that there is none |
| Reference.Normalize | src/processor.py:31-38 | None maps to None and a string maps to a string; a returned reference is trimmed and is a substring of the input |
| Reference.PickLeftmost | src/processor.py:35-37 | on stripped text with a first `PO-<digit>` at position `i`, the search returns the whole greedy `PO-\d+` token at `i` |
| Reference.NormalizeExtractsLeftmostToken | src/processor.py:34-37 | when the stripped text contains `PO-<digit>`, the result is `PO-` plus the maximal digit run at the leftmost such position |
| Reference.NormalizeKeepsStrippedText | src/processor.py:34-38 | when the stripped text has no `PO-<digit>`, the result is the stripped text itself |
| Reference.NormalizeIdempotent | src/processor.py:31-38 | normalising an already normalised reference leaves it unchanged |
| Records.MakeInvoice | src/processor.py:86-89 | an invoice keeps its number, vendor and total; its stored reference is the normalised raw reference: null exactly when the raw one is, otherwise a trimmed substring of it, and already in normal form |
| Records.MakeGoodsReceipt | src/processor.py:100-103 | a GRN keeps its number and vendor; its stored reference is the normalised raw reference: null exactly when the raw one is, otherwise a trimmed substring of it, and already in normal form |
| Records.ParseType | src/processor.py:26-29 | only the three wire values `invoice`, `purchase_order` and `goods_receipt_note` are accepted, each as its own member |
| Records.ParseTypeName | src/processor.py:26-29 | every document type survives a round trip through its wire value |
| Records.GetDocument | src/processor.py:112-119 | the returned document is of the declared type, and it is present exactly when the slot for that type is filled |
| Records.GetDocumentSelects | src/processor.py:112-119 | `get_document` returns the document in the selected slot, whatever the other slots hold |
| Classifier.StatusNamesDistinct | src/app/app.py:103-110 | the seven status wire values (`matched`, `missing_invoice`, `missing_goods_receipt`, `amount_mismatch`, and `ghost_po`, `orphaned_invoice`, `orphaned_grn` at lines 171-216) are pairwise distinct, so a status is recovered from its string |
| Classifier.IssueText | src/app/app.py:172 | the rendered message of a ghost-reference issue, for an invoice here and for a GRN at line 205, ends with the PO number it names |
| Classifier.GhostTextsNameTheirReference | src/app/app.py:172 | two ghost messages of the same kind are equal exactly when they name the same PO number |
| Classifier.InvoiceTotals | src/app/app.py:113-117 | there are as many totals as invoices with a non-null grand total, and the totals are exactly those grand totals |
| Classifier.InvoiceTotalsInOrder | src/app/app.py:113-117 | each non-null invoice total appears at its own rank, in invoice order, repeats kept |
| Classifier.CheckTotals | src/app/app.py:120-127 | the totals loop keeps the issues so far as a prefix, only appends out-of-tolerance mismatch issues, and moves the status only from `matched` to `amount_mismatch` |
| Classifier.Mismatches | src/app/app.py:121-127 | there is one issue per total outside the 0.01 tolerance, each for such a total, and none exactly when every total is within tolerance |
| Classifier.MismatchesInOrder | src/app/app.py:121-127 | each out-of-tolerance total has its own issue at its rank among the out-of-tolerance totals, in total order |
| Classifier.RepeatedTotalEachReported | src/app/app.py:113-127 | two invoices of 5.0 against a PO total of 1.0 give `amount_mismatch` with two issues |
| Classifier.CheckTotalsAppendsMismatches | src/app/app.py:120-127 | the totals loop appends exactly the mismatch issues, and it sets `amount_mismatch` only when the status is still `matched` |
| Classifier.Classify | src/app/app.py:103-127 | the status follows the ranking missing invoice > missing GRN > amount mismatch > matched; the issues are the missing-document issues followed by the mismatch issues |
| Classifier.NoInvoiceWins | src/app/app.py:106-108 | with no invoices the status is `missing_invoice` and the first issue says so |
| Classifier.MissingGoodsReceiptReported | src/app/app.py:109-111 | the missing-GRN issue appears exactly when there is no GRN; the status says so only when invoices exist |
| Classifier.AmountMismatchReported | src/app/app.py:119-127 | the status is `amount_mismatch` exactly when both kinds of document exist and some total is out of tolerance; the issue tail is one issue per such total |
| Classifier.MatchedIff | src/app/app.py:103-127 | the result is `matched` with no issues exactly when invoices and GRNs exist and every total is within tolerance |
| Classifier.WithinToleranceExample | src/app/app.py:122 | an invoice total of 1000.005 against a PO total of 1000.00 is still `matched` |
| Decisions.ParseVerdict | src/app/app.py:252-253 | only `approved` and `rejected` are accepted |
| Decisions.Lookup | src/app/app.py:130-138 | a record is attached exactly when one is stored under the PO number |
| Decisions.SaveDecision | src/app/app.py:249-280 | an invalid verdict fails and writes nothing; a valid one writes exactly the entry for the PO number with the given fields, leaves every other entry alone, and acknowledges the PO number and verdict |
| Decisions.LastWriteWins | src/app/app.py:266-271 | two saves for the same PO leave one entry, holding the second save |
| Reconciliation.PoExists | src/app/app.py:159 | the existence check, here and at line 197, holds exactly when some stored PO document carries the number; its partner `ReconciliationProperties.NumbersOf` collects exactly the non-empty numbers it accepts |
| Reconciliation.RealResult | src/app/app.py:140-148 | a real PO's result shows that stored PO, the invoices and GRNs citing its number in store order, and the decision stored under its number if any. Its status and issues are the classification of those matched documents against the PO's own total. The status is `missing_invoice` exactly when no invoice cites the number, and `missing_goods_receipt` exactly when some invoice but no GRN cites it |
| Reconciliation.InvoicesFor | src/app/app.py:94-97 | the matched invoices are exactly those whose reference equals the PO number, one entry per matching stored invoice |
| Reconciliation.InvoicesForInOrder | src/app/app.py:94-97 | each matching invoice sits at the rank given by the matching invoices before it, so the lookup keeps store order and holds no repeats the store does not |
| Reconciliation.GrnsFor | src/app/app.py:98-101 | the matched GRNs are exactly those whose reference equals the PO number, one entry per matching stored GRN |
| Reconciliation.GrnsForInOrder | src/app/app.py:98-101 | each matching GRN sits at the rank given by the matching GRNs before it, so the lookup keeps store order and holds no repeats the store does not |
| Reconciliation.VendorNameAsWritten | src/app/app.py:180 | the orphan vendor lookup as written fails exactly when the vendor is present but null |
| Reconciliation.NullVendorCrashes | src/app/app.py:180 | an invoice with a null vendor makes the written lookup raise, while the corrected lookup gives "Unknown" |
| Reconciliation.VendorName | src/app/app.py:180 | it agrees with the written lookup wherever that succeeds, and gives "Unknown" exactly when there is no vendor name |
| Reconciliation.PoPass | src/app/app.py:85-148 | the PO loop yields at most one result per stored PO, and each result holds a stored PO |
| Reconciliation.GhostFromInvoice | src/app/app.py:162-174 | an invoice's ghost entry is a stub with vendor "Unknown" holding only that invoice and each GRN that cites the same number once, in store order (the `GrnsFor` lookup), with status `ghost_po`, the invoice ghost issue and no decision |
| Reconciliation.OrphanInvoice | src/app/app.py:179-186 | an orphan invoice entry is keyed by the invoice's own number ("Unknown" without an invoice part), holds only that invoice, has no decision, and shows vendor "Unknown" exactly when there is no vendor name |
| Reconciliation.InvoicePass | src/app/app.py:151-187 | the invoice scan only appends results and only adds processed numbers, at most one result per invoice |
| Reconciliation.GhostFromGrn | src/app/app.py:200-207 | a GRN's ghost entry is a stub with vendor "Unknown" holding only that GRN, with the GRN ghost issue and no decision |
| Reconciliation.OrphanGrn | src/app/app.py:212-219 | an orphan GRN entry is keyed by the GRN's own number ("Unknown" without a GRN part), holds only that GRN, has no decision, and shows vendor "Unknown" exactly when there is no vendor name |
| Reconciliation.GrnPass | src/app/app.py:190-220 | the GRN scan only appends results and only adds processed numbers, at most one result per GRN |
| Reconciliation.Reconcile | src/app/app.py:74-222 | the endpoint returns at most one result per stored document |
| ReconciliationProperties.NumbersOf | src/app/app.py:159 | the stored PO numbers are exactly the non-empty numbers the PO existence check finds |
| ReconciliationProperties.InvoiceRefs | src/app/app.py:154-157 | the invoice references are exactly the non-empty references of stored invoices |
| ReconciliationProperties.GrnRefs | src/app/app.py:193-196 | the GRN references are exactly the non-empty references of stored GRNs |
| ReconciliationProperties.PoPassResults | src/app/app.py:85-148 | the PO loop marks exactly the stored numbers as processed; it yields, in store order, one result per numbered PO, built from that PO's own matches, classification and decision |
| ReconciliationProperties.InvoicePassEntries | src/app/app.py:151-187 | once every stored number is processed, the invoice scan appends exactly the loop-free invoice entries (the first invoice per unclaimed reference, and every invoice without one) and adds every invoice reference to the processed set |
| ReconciliationProperties.GrnPassEntries | src/app/app.py:190-220 | the GRN scan appends exactly the loop-free GRN entries and adds every GRN reference to the processed set |
| ReconciliationProperties.ReconcileStructure | src/app/app.py:74-222 | the output is the PO results, then the invoice entries against the stored numbers, then the GRN entries against the stored numbers and invoice references |
| ReconciliationProperties.ReconcileCount | src/app/app.py:74-222 | the output has one result per numbered PO, per ghost number, per invoice without a reference and per GRN without a reference |
| ReconciliationProperties.InvoiceAppears | src/app/app.py:94-97 | every invoice that is not dropped appears in some result |
| ReconciliationProperties.DroppedInvoiceAbsent | src/app/app.py:157-176 | a later invoice citing an already claimed ghost number appears in no result |
| ReconciliationProperties.GrnAppears | src/app/app.py:98-101 | every GRN that is not dropped appears in some result |
| ReconciliationProperties.DroppedGrnAbsent | src/app/app.py:196-209 | a later GRN citing a ghost number that only GRNs cite appears in no result |
| ReconciliationProperties.GhostClaimedByFirstInvoice | src/app/app.py:157-176 | the first invoice citing a number with no stored PO yields a ghost entry: a stub with vendor "Unknown", that invoice, each GRN citing the number once in store order, the invoice ghost issue, and no decision |
| ReconciliationProperties.GhostClaimedByFirstGrn | src/app/app.py:196-209 | the first GRN citing a number that neither a PO nor an invoice holds yields a ghost entry holding that GRN alone |
| ReconciliationProperties.OrphanInvoiceReported | src/app/app.py:177-187 | an invoice without a reference yields an orphan entry keyed by its own number; given distinct documents, it is the only result that holds the invoice |
| ReconciliationProperties.OrphanGrnReported | src/app/app.py:210-220 | a GRN without a reference yields an orphan entry keyed by its own number; given distinct documents, it is the only result that holds the GRN |
| ReconciliationProperties.GhostNumbersUnique | src/app/app.py:157-176 | no number gets two ghost entries, and no ghost entry stands for a stored PO |
| ReconciliationProperties.DecisionsOnStoredOrdersOnly | src/app/app.py:130-138 | decisions attach only to results for stored POs, under their own number; ghost and orphan entries have none |
| ReconciliationProperties.SavedDecisionVisible | src/app/app.py:249-271 | after a successful save, the next reconciliation shows the new record on that PO's result and leaves every other decision as it was |
| ReconciliationProperties.SecondGhostInvoiceDropped | src/app/app.py:157-176 | of two invoices citing the missing PO-9, only the first is reported |
| ReconciliationProperties.SecondGhostGrnDropped | src/app/app.py:196-209 | of two GRNs citing the missing PO-7, only the first is reported |

## Left out

- Document store access is left out: connections, `find`/`find_one` and `_serialize_doc`, including `_id` to string. The stores are sequences in store order, and each query is a filter over them.
- Failures of the document store are left out. A store error aborts the request and is not data the engine handles.
- The upsert's `matched`, `modified` and `upserted_id` counters are left out; they are store bookkeeping.
- `Decisions.SaveDecision`: the UTC timestamp and the fixed user `"JA"` are parameters, because they come from the clock and a constant outside the logic.
- Totals are exact reals rather than IEEE doubles, so rounding right at the 0.01 boundary is not modelled.
- `Classifier.IssueText`: Python's rendering of a float inside the mismatch message is a parameter `show`, not a definition.
- `Reference.Strip`: whitespace is ASCII whitespace, including 0x1C-0x1F. `\d` is the ASCII digits. The Unicode whitespace and Unicode decimal digits that Python also accepts are not modelled.
- Document extraction (`InvoicePOGRNClassifier`: PDF rendering and the OpenAI call) is left out. It is I/O and a foreign service.
- The ingestion script, the synthetic data generator and the schema fields the engine never reads are left out. These fields are dates, line items, tax, buyer and currency.
- The list endpoints, the PDF endpoint and the index page are left out. They are only web plumbing around the stores.
- The three stores are one consistent snapshot for the whole request. Writes that land between the loops are not modelled, for example a PO ingested after the PO loop has read its store. Under this snapshot the inner existence checks at app.py lines 159-160 and 197-198 never find a PO that the PO loop missed.
- `Reconciliation.Reconcile`: the engine uses the corrected vendor lookup `VendorName`. The source raises on a null vendor in an orphan entry; see Findings.
- `Reconciliation.OrphanInvoice`: an invoice with a null vendor gets vendor name "Unknown" from the corrected `VendorName`. The source raises at app.py line 180 instead; see Findings.
- `Reconciliation.OrphanGrn`: a GRN with a null vendor gets vendor name "Unknown" from the corrected `VendorName`. The source raises at app.py line 213 instead; see Findings.

## Findings

| source | as written | input that shows it | evidently intended | confidence | as-written member | corrected member |
|---|---|---|---|---|---|---|
| src/app/app.py:180, src/app/app.py:213 | `inv_data.get("vendor", {}).get("name", "Unknown")`: the `{}` default applies only when the key is missing. A stored document whose vendor is `null` makes `.get` be called on `None` and raises `AttributeError`, which fails the whole reconciliation request | an invoice (or GRN) with no `reference_po` and `vendor: null`, e.g. `Invoice("INV-1", None, None, None)` | a null vendor falls back to the name "Unknown", as a missing one does | not executed | Reconciliation.VendorNameAsWritten (Reconciliation.NullVendorCrashes) | Reconciliation.VendorName |
