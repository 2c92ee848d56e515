/** The reconciliation engine: every purchase order with a number is matched
    against the invoices and goods receipts that reference it and classified;
    then all invoices and all goods receipts are scanned for references to
    purchase orders that do not exist (ghosts) or for no reference at all
    (orphans). The set of processed purchase order numbers is threaded through
    the three scans explicitly. */
module Reconciliation {
  import opened Wrappers
  import opened Records
  import opened Classifier
  import opened Decisions

  /** The purchase order shown in a result: the stored document for a real
      order, or a stub holding just a number and a vendor name. */
  datatype PoView = StoredPo(doc: PoDoc) | PoStub(poNumber: string, vendorName: string)

  datatype ReconResult = ReconResult(
    po: PoView,
    invoices: seq<InvoiceDoc>,
    goodsReceipts: seq<GrnDoc>,
    status: Status,
    issues: seq<Issue>,
    decision: Option<DecisionRecord>)

  /** The state threaded through the scans: results so far and the purchase
      order numbers already accounted for. */
  datatype Scan = Scan(results: seq<ReconResult>, processed: set<string>)

  /** Python truthiness of an optional string: present and not empty. */
  predicate Present(s: Option<string>) {
    s.Some? && s.value != ""
  }

  function PoNumberOf(d: PoDoc): Option<string> {
    if d.purchaseOrder.Some? then Some(d.purchaseOrder.value.poNumber) else None
  }

  function PoTotalOf(d: PoDoc): Option<real> {
    if d.purchaseOrder.Some? then d.purchaseOrder.value.grandTotal else None
  }

  function InvoiceRef(d: InvoiceDoc): Option<string> {
    if d.invoice.Some? then d.invoice.value.referencePo else None
  }

  function GrnRef(d: GrnDoc): Option<string> {
    if d.goodsReceipt.Some? then d.goodsReceipt.value.referencePo else None
  }

  /** How many invoices reference exactly `poNumber`. */
  function CountInvoicesFor(invoices: seq<InvoiceDoc>, poNumber: string): nat
    decreases |invoices|
  {
    if |invoices| == 0 then 0
    else (if InvoiceRef(invoices[0]) == Some(poNumber) then 1 else 0) + CountInvoicesFor(invoices[1..], poNumber)
  }

  /** The invoice lookup by exact equality of `reference_po`, in store order. */
  function InvoicesFor(invoices: seq<InvoiceDoc>, poNumber: string): (r: seq<InvoiceDoc>)
    ensures |r| == CountInvoicesFor(invoices, poNumber) <= |invoices|
    ensures forall d :: d in r <==> d in invoices && InvoiceRef(d) == Some(poNumber)
  {
    if |invoices| == 0 then []
    else
      var rest := InvoicesFor(invoices[1..], poNumber);
      assert forall d :: d in invoices <==> d == invoices[0] || d in invoices[1..];
      if InvoiceRef(invoices[0]) == Some(poNumber) then [invoices[0]] + rest else rest
  }

  /** Matching invoice `k` sits at the rank given by the matching invoices
      before it: each stored match appears once, in store order. */
  lemma {:induction false} InvoicesForInOrder(invoices: seq<InvoiceDoc>, poNumber: string, k: nat)
    requires k < |invoices| && InvoiceRef(invoices[k]) == Some(poNumber)
    ensures CountInvoicesFor(invoices[..k], poNumber) < |InvoicesFor(invoices, poNumber)|
    ensures InvoicesFor(invoices, poNumber)[CountInvoicesFor(invoices[..k], poNumber)] == invoices[k]
    decreases k
  {
    if k > 0 {
      InvoicesForInOrder(invoices[1..], poNumber, k - 1);
      assert invoices[..k][1..] == invoices[1..][..k - 1];
      assert invoices[..k][0] == invoices[0];
    }
  }

  /** How many goods receipts reference exactly `poNumber`. */
  function CountGrnsFor(grns: seq<GrnDoc>, poNumber: string): nat
    decreases |grns|
  {
    if |grns| == 0 then 0
    else (if GrnRef(grns[0]) == Some(poNumber) then 1 else 0) + CountGrnsFor(grns[1..], poNumber)
  }

  /** The goods receipt lookup by exact equality of `reference_po`, in store order. */
  function GrnsFor(grns: seq<GrnDoc>, poNumber: string): (r: seq<GrnDoc>)
    ensures |r| == CountGrnsFor(grns, poNumber) <= |grns|
    ensures forall d :: d in r <==> d in grns && GrnRef(d) == Some(poNumber)
  {
    if |grns| == 0 then []
    else
      var rest := GrnsFor(grns[1..], poNumber);
      assert forall d :: d in grns <==> d == grns[0] || d in grns[1..];
      if GrnRef(grns[0]) == Some(poNumber) then [grns[0]] + rest else rest
  }

  /** Matching goods receipt `k` sits at the rank given by the matching
      receipts before it: each stored match appears once, in store order. */
  lemma {:induction false} GrnsForInOrder(grns: seq<GrnDoc>, poNumber: string, k: nat)
    requires k < |grns| && GrnRef(grns[k]) == Some(poNumber)
    ensures CountGrnsFor(grns[..k], poNumber) < |GrnsFor(grns, poNumber)|
    ensures GrnsFor(grns, poNumber)[CountGrnsFor(grns[..k], poNumber)] == grns[k]
    decreases k
  {
    if k > 0 {
      GrnsForInOrder(grns[1..], poNumber, k - 1);
      assert grns[..k][1..] == grns[1..][..k - 1];
      assert grns[..k][0] == grns[0];
    }
  }

  /** The existence check on the purchase order store: some stored order
      document carries exactly this number. */
  predicate PoExists(pos: seq<PoDoc>, poNumber: string)
    ensures PoExists(pos, poNumber) <==> exists d :: d in pos && PoNumberOf(d) == Some(poNumber)
  {
    exists i :: 0 <= i < |pos| && PoNumberOf(pos[i]) == Some(poNumber)
  }

  /** An attribute access on None, which aborts the whole request. */
  datatype Crash = AttributeErrorOnNone

  /** The orphan vendor-name lookup `data.get("vendor", {}).get("name", "Unknown")`
      as written. `vendor` is None when the document part itself is null (the
      lookup then falls back to `{}`), `Some(None)` when the part is there but
      its vendor is null. */
  function VendorNameAsWritten(vendor: Option<Option<Party>>): (r: Result<string, Crash>)
    ensures r.Failure? <==> vendor == Some(None)
  {
    match vendor
    case None => Success("Unknown")
    case Some(None) => Failure(AttributeErrorOnNone)
    case Some(Some(p)) => Success(p.name)
  }

  /** The vendor name of an orphan entry, with a null vendor falling back to
      "Unknown" like a missing one. */
  function VendorName(vendor: Option<Option<Party>>): (name: string)
    ensures VendorNameAsWritten(vendor).Success? ==> name == VendorNameAsWritten(vendor).value
    ensures name == "Unknown" <==> vendor.None? || vendor.value.None? || vendor.value.value.name == "Unknown"
  {
    if vendor.Some? && vendor.value.Some? then vendor.value.value.name else "Unknown"
  }

  /** A null vendor makes the as-written lookup raise. */
  lemma NullVendorCrashes(number: string, total: Option<real>, path: string)
    ensures var d := InvoiceDoc(Some(Invoice(number, None, None, total)), path);
      VendorNameAsWritten(Some(d.invoice.value.vendor)).Failure?
      && VendorName(Some(d.invoice.value.vendor)) == "Unknown"
  {
  }

  function InvoiceVendor(d: InvoiceDoc): Option<Option<Party>> {
    if d.invoice.Some? then Some(d.invoice.value.vendor) else None
  }

  function GrnVendor(d: GrnDoc): Option<Option<Party>> {
    if d.goodsReceipt.Some? then Some(d.goodsReceipt.value.vendor) else None
  }

  /** The result for a purchase order with number `poNumber`. */
  function RealResult(d: PoDoc, poNumber: string, invoices: seq<InvoiceDoc>, grns: seq<GrnDoc>,
                      decisions: DecisionTable): (r: ReconResult)
    ensures r.po == StoredPo(d)
    ensures forall x :: x in r.invoices <==> x in invoices && InvoiceRef(x) == Some(poNumber)
    ensures forall g :: g in r.goodsReceipts <==> g in grns && GrnRef(g) == Some(poNumber)
    ensures r.decision.Some? <==> poNumber in decisions
    ensures r.decision.Some? ==> r.decision.value == decisions[poNumber]
    ensures r.status in {Matched, MissingInvoice, MissingGoodsReceipt, AmountMismatch}
    ensures r.status == MissingInvoice <==> forall x :: x in invoices ==> InvoiceRef(x) != Some(poNumber)
    ensures r.invoices == InvoicesFor(invoices, poNumber) && r.goodsReceipts == GrnsFor(grns, poNumber)
    ensures Classification(r.status, r.issues) == Classify(PoTotalOf(d), r.invoices, r.goodsReceipts)
    ensures r.status == MissingGoodsReceipt <==>
      (exists x :: x in invoices && InvoiceRef(x) == Some(poNumber))
      && forall g :: g in grns ==> GrnRef(g) != Some(poNumber)
  {
    var matchedInvoices := InvoicesFor(invoices, poNumber);
    var matchedGrns := GrnsFor(grns, poNumber);
    var c := Classify(PoTotalOf(d), matchedInvoices, matchedGrns);
    assert |matchedInvoices| > 0 ==> matchedInvoices[0] in matchedInvoices;
    assert |matchedGrns| > 0 ==> matchedGrns[0] in matchedGrns;
    ReconResult(StoredPo(d), matchedInvoices, matchedGrns, c.status, c.issues, Lookup(decisions, poNumber))
  }

  function PoStep(s: Scan, d: PoDoc, invoices: seq<InvoiceDoc>, grns: seq<GrnDoc>, decisions: DecisionTable): Scan {
    var n := PoNumberOf(d);
    if !Present(n) then s
    else Scan(s.results + [RealResult(d, n.value, invoices, grns, decisions)], s.processed + {n.value})
  }

  /** The loop over the purchase order store. */
  function PoPass(pos: seq<PoDoc>, invoices: seq<InvoiceDoc>, grns: seq<GrnDoc>, decisions: DecisionTable): (s: Scan)
    ensures |s.results| <= |pos|
    ensures forall k :: 0 <= k < |s.results| ==> s.results[k].po.StoredPo? && s.results[k].po.doc in pos
    decreases |pos|
  {
    if |pos| == 0 then Scan([], {})
    else PoStep(PoPass(pos[..|pos| - 1], invoices, grns, decisions), pos[|pos| - 1], invoices, grns, decisions)
  }

  /** A ghost entry claimed by an invoice: a stub order, that one invoice, and
      every goods receipt with the same reference. */
  function GhostFromInvoice(d: InvoiceDoc, reference: string, grns: seq<GrnDoc>): (r: ReconResult)
    ensures r.status == GhostPo && r.issues == [InvoiceGhostReference(reference)]
    ensures r.po == PoStub(reference, "Unknown") && r.invoices == [d] && r.decision.None?
    ensures r.goodsReceipts == GrnsFor(grns, reference)
    ensures forall g :: g in r.goodsReceipts <==> g in grns && GrnRef(g) == Some(reference)
  {
    ReconResult(PoStub(reference, "Unknown"), [d], GrnsFor(grns, reference), GhostPo,
                [InvoiceGhostReference(reference)], None)
  }

  /** The orphan entry of an invoice without a reference: keyed by its own
      number, holding only that invoice, with no decision. */
  function OrphanInvoice(d: InvoiceDoc): (r: ReconResult)
    ensures r.status == OrphanedInvoice && r.issues == [InvoiceWithoutReference]
    ensures r.invoices == [d] && r.goodsReceipts == [] && r.decision.None?
    ensures r.po.PoStub? && r.po.poNumber == (if d.invoice.Some? then d.invoice.value.invoiceNumber else "Unknown")
    ensures r.po.vendorName == "Unknown" <==>
      d.invoice.None? || d.invoice.value.vendor.None? || d.invoice.value.vendor.value.name == "Unknown"
  {
    var number := if d.invoice.Some? then d.invoice.value.invoiceNumber else "Unknown";
    ReconResult(PoStub(number, VendorName(InvoiceVendor(d))), [d], [], OrphanedInvoice,
                [InvoiceWithoutReference], None)
  }

  function InvoiceStep(s: Scan, d: InvoiceDoc, pos: seq<PoDoc>, grns: seq<GrnDoc>): Scan {
    var ref := InvoiceRef(d);
    if Present(ref) && ref.value !in s.processed then
      if !PoExists(pos, ref.value) then
        Scan(s.results + [GhostFromInvoice(d, ref.value, grns)], s.processed + {ref.value})
      else
        s
    else if !Present(ref) then
      Scan(s.results + [OrphanInvoice(d)], s.processed)
    else
      s
  }

  /** The loop over the invoice store, starting from state `init`. */
  function InvoicePass(init: Scan, invoices: seq<InvoiceDoc>, pos: seq<PoDoc>, grns: seq<GrnDoc>): (s: Scan)
    ensures init.results <= s.results && init.processed <= s.processed
    ensures |s.results| <= |init.results| + |invoices|
    decreases |invoices|
  {
    if |invoices| == 0 then init
    else InvoiceStep(InvoicePass(init, invoices[..|invoices| - 1], pos, grns), invoices[|invoices| - 1], pos, grns)
  }

  /** A ghost entry claimed by a goods receipt: a stub order and that one
      goods receipt. */
  function GhostFromGrn(d: GrnDoc, reference: string): (r: ReconResult)
    ensures r.status == GhostPo && r.issues == [GrnGhostReference(reference)]
    ensures r.po == PoStub(reference, "Unknown") && r.invoices == [] && r.goodsReceipts == [d] && r.decision.None?
  {
    ReconResult(PoStub(reference, "Unknown"), [], [d], GhostPo, [GrnGhostReference(reference)], None)
  }

  /** The orphan entry of a goods receipt without a reference: keyed by its
      own number, holding only that receipt, with no decision. */
  function OrphanGrn(d: GrnDoc): (r: ReconResult)
    ensures r.status == OrphanedGrn && r.issues == [GrnWithoutReference]
    ensures r.invoices == [] && r.goodsReceipts == [d] && r.decision.None?
    ensures r.po.PoStub? && r.po.poNumber == (if d.goodsReceipt.Some? then d.goodsReceipt.value.grnNumber else "Unknown")
    ensures r.po.vendorName == "Unknown" <==>
      d.goodsReceipt.None? || d.goodsReceipt.value.vendor.None? || d.goodsReceipt.value.vendor.value.name == "Unknown"
  {
    var number := if d.goodsReceipt.Some? then d.goodsReceipt.value.grnNumber else "Unknown";
    ReconResult(PoStub(number, VendorName(GrnVendor(d))), [], [d], OrphanedGrn, [GrnWithoutReference], None)
  }

  function GrnStep(s: Scan, d: GrnDoc, pos: seq<PoDoc>): Scan {
    var ref := GrnRef(d);
    if Present(ref) && ref.value !in s.processed then
      if !PoExists(pos, ref.value) then
        Scan(s.results + [GhostFromGrn(d, ref.value)], s.processed + {ref.value})
      else
        s
    else if !Present(ref) then
      Scan(s.results + [OrphanGrn(d)], s.processed)
    else
      s
  }

  /** The loop over the goods receipt store, starting from state `init`. */
  function GrnPass(init: Scan, grns: seq<GrnDoc>, pos: seq<PoDoc>): (s: Scan)
    ensures init.results <= s.results && init.processed <= s.processed
    ensures |s.results| <= |init.results| + |grns|
    decreases |grns|
  {
    if |grns| == 0 then init
    else GrnStep(GrnPass(init, grns[..|grns| - 1], pos), grns[|grns| - 1], pos)
  }

  /** `reconciliation()`: real orders first, then invoice ghosts and orphans,
      then goods receipt ghosts and orphans. */
  function Reconcile(pos: seq<PoDoc>, invoices: seq<InvoiceDoc>, grns: seq<GrnDoc>, decisions: DecisionTable)
    : (out: seq<ReconResult>)
    ensures |out| <= |pos| + |invoices| + |grns|
  {
    var afterPos := PoPass(pos, invoices, grns, decisions);
    var afterInvoices := InvoicePass(afterPos, invoices, pos, grns);
    GrnPass(afterInvoices, grns, pos).results
  }
}
