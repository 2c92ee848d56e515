/** The status classifier: for one purchase order and the invoices and goods
    receipts that reference it, a reconciliation status and the ordered list
    of issues found. */
module Classifier {
  import opened Wrappers
  import opened Records

  datatype Status =
    | Matched
    | MissingInvoice
    | MissingGoodsReceipt
    | AmountMismatch
    | GhostPo
    | OrphanedInvoice
    | OrphanedGrn

  /** The wire value of a status. */
  function StatusName(s: Status): string {
    match s
    case Matched => "matched"
    case MissingInvoice => "missing_invoice"
    case MissingGoodsReceipt => "missing_goods_receipt"
    case AmountMismatch => "amount_mismatch"
    case GhostPo => "ghost_po"
    case OrphanedInvoice => "orphaned_invoice"
    case OrphanedGrn => "orphaned_grn"
  }

  /** Distinct statuses have distinct wire values, so a client can tell
      every status apart from its string alone. */
  lemma StatusNamesDistinct(a: Status, b: Status)
    ensures StatusName(a) == StatusName(b) <==> a == b
  {
    if a != b {
      assert |StatusName(a)| != |StatusName(b)| || StatusName(a)[0] != StatusName(b)[0];
    }
  }

  /** An issue kept as data; `IssueText` renders the message the engine reports. */
  datatype Issue =
    | NoInvoice
    | NoGoodsReceipt
    | TotalMismatch(invoiceTotal: real, poTotal: real)
    | InvoiceGhostReference(reference: string)
    | GrnGhostReference(reference: string)
    | InvoiceWithoutReference
    | GrnWithoutReference

  /** The message text; `show` stands for Python's rendering of a float. */
  function IssueText(issue: Issue, show: real -> string): (text: string)
    ensures (issue.InvoiceGhostReference? || issue.GrnGhostReference?) ==>
      |issue.reference| < |text| && text[|text| - |issue.reference|..] == issue.reference
  {
    match issue
    case NoInvoice => "No invoice found for this PO"
    case NoGoodsReceipt => "No goods receipt found for this PO"
    case TotalMismatch(t, p) => "Invoice grand_total " + show(t) + " does not match PO grand_total " + show(p)
    case InvoiceGhostReference(r) => "Invoice references non-existent PO: " + r
    case GrnGhostReference(r) => "GRN references non-existent PO: " + r
    case InvoiceWithoutReference => "Invoice has no PO reference"
    case GrnWithoutReference => "GRN has no PO reference"
  }

  /** Two ghost messages of the same kind name the same purchase order number
      only if they are the same message. */
  lemma GhostTextsNameTheirReference(a: string, b: string, show: real -> string)
    ensures IssueText(InvoiceGhostReference(a), show) == IssueText(InvoiceGhostReference(b), show) <==> a == b
    ensures IssueText(GrnGhostReference(a), show) == IssueText(GrnGhostReference(b), show) <==> a == b
  {
    var p := "Invoice references non-existent PO: ";
    if p + a == p + b {
      assert a == (p + a)[|p|..] && b == (p + b)[|p|..];
    }
    var q := "GRN references non-existent PO: ";
    if q + a == q + b {
      assert a == (q + a)[|q|..] && b == (q + b)[|q|..];
    }
  }

  datatype Classification = Classification(status: Status, issues: seq<Issue>)

  /** Absolute tolerance on grand totals, one hundredth of a currency unit. */
  const Tolerance: real := 0.01

  function Abs(x: real): real {
    if x < 0.0 then -x else x
  }

  predicate OutOfTolerance(total: real, poTotal: real) {
    Abs(total - poTotal) > Tolerance
  }

  /** The grand total of a stored invoice, None when the invoice part or its
      total is null. */
  function TotalOf(d: InvoiceDoc): Option<real> {
    if d.invoice.Some? then d.invoice.value.grandTotal else None
  }

  /** How many invoices carry a non-null grand total. */
  function CountTotals(invoices: seq<InvoiceDoc>): nat
    decreases |invoices|
  {
    if |invoices| == 0 then 0
    else (if TotalOf(invoices[0]).Some? then 1 else 0) + CountTotals(invoices[1..])
  }

  /** The non-null invoice totals, in invoice order. */
  function InvoiceTotals(invoices: seq<InvoiceDoc>): (totals: seq<real>)
    ensures |totals| == CountTotals(invoices) <= |invoices|
    ensures forall t :: t in totals <==> exists d :: d in invoices && TotalOf(d) == Some(t)
  {
    if |invoices| == 0 then []
    else
      var rest := InvoiceTotals(invoices[1..]);
      assert forall d :: d in invoices <==> d == invoices[0] || d in invoices[1..];
      match TotalOf(invoices[0])
      case Some(t) => [t] + rest
      case None => rest
  }

  /** The total of invoice `k` sits at the rank given by the invoices with a
      total before it: one entry per invoice total, repeats kept, in order. */
  lemma {:induction false} InvoiceTotalsInOrder(invoices: seq<InvoiceDoc>, k: nat)
    requires k < |invoices| && TotalOf(invoices[k]).Some?
    ensures CountTotals(invoices[..k]) < |InvoiceTotals(invoices)|
    ensures InvoiceTotals(invoices)[CountTotals(invoices[..k])] == TotalOf(invoices[k]).value
    decreases k
  {
    if k > 0 {
      InvoiceTotalsInOrder(invoices[1..], k - 1);
      assert invoices[..k][1..] == invoices[1..][..k - 1];
      assert invoices[..k][0] == invoices[0];
    }
  }

  /** A status is set only while it is still `Matched`: the first one set is kept. */
  function Keep(status: Status, candidate: Status): Status {
    if status == Matched then candidate else status
  }

  /** The loop over invoice totals, one iteration per total. */
  function CheckTotals(c: Classification, totals: seq<real>, poTotal: real): (r: Classification)
    ensures c.issues <= r.issues
    ensures r.status == c.status || (c.status == Matched && r.status == AmountMismatch)
    ensures forall k :: |c.issues| <= k < |r.issues| ==>
      r.issues[k].TotalMismatch? && r.issues[k].invoiceTotal in totals && OutOfTolerance(r.issues[k].invoiceTotal, poTotal)
    decreases |totals|
  {
    if |totals| == 0 then c
    else
      var prev := CheckTotals(c, totals[..|totals| - 1], poTotal);
      var t := totals[|totals| - 1];
      if OutOfTolerance(t, poTotal) then
        Classification(Keep(prev.status, AmountMismatch), prev.issues + [TotalMismatch(t, poTotal)])
      else
        prev
  }

  /** How many totals are out of tolerance. */
  function CountOut(totals: seq<real>, poTotal: real): nat
    decreases |totals|
  {
    if |totals| == 0 then 0
    else (if OutOfTolerance(totals[0], poTotal) then 1 else 0) + CountOut(totals[1..], poTotal)
  }

  /** One mismatch issue per out-of-tolerance total, in order. */
  function Mismatches(totals: seq<real>, poTotal: real): (r: seq<Issue>)
    ensures |r| == CountOut(totals, poTotal) <= |totals|
    ensures forall k :: 0 <= k < |r| ==>
      r[k].TotalMismatch? && r[k].poTotal == poTotal && r[k].invoiceTotal in totals
      && OutOfTolerance(r[k].invoiceTotal, poTotal)
    ensures |r| == 0 <==> forall t :: t in totals ==> !OutOfTolerance(t, poTotal)
  {
    if |totals| == 0 then []
    else
      var rest := Mismatches(totals[1..], poTotal);
      assert forall t :: t in totals <==> t == totals[0] || t in totals[1..];
      if OutOfTolerance(totals[0], poTotal) then [TotalMismatch(totals[0], poTotal)] + rest else rest
  }

  /** The issue for out-of-tolerance total `k` sits at the rank given by the
      out-of-tolerance totals before it, so each such total, repeated or not,
      gets its own issue, in total order. */
  lemma {:induction false} MismatchesInOrder(totals: seq<real>, poTotal: real, k: nat)
    requires k < |totals| && OutOfTolerance(totals[k], poTotal)
    ensures CountOut(totals[..k], poTotal) < |Mismatches(totals, poTotal)|
    ensures Mismatches(totals, poTotal)[CountOut(totals[..k], poTotal)] == TotalMismatch(totals[k], poTotal)
    decreases k
  {
    if k > 0 {
      MismatchesInOrder(totals[1..], poTotal, k - 1);
      assert totals[..k][1..] == totals[1..][..k - 1];
      assert totals[..k][0] == totals[0];
    }
  }

  /** The mismatch issues a purchase order gets; none when its own total is null. */
  function MismatchIssues(poTotal: Option<real>, totals: seq<real>): seq<Issue> {
    if poTotal.None? then [] else Mismatches(totals, poTotal.value)
  }

  /** The issues about missing documents, invoice first. */
  function PresenceIssues(hasInvoice: bool, hasGoodsReceipt: bool): seq<Issue> {
    (if hasInvoice then [] else [NoInvoice]) + (if hasGoodsReceipt then [] else [NoGoodsReceipt])
  }

  /** The precedence ranking: missing invoice over missing goods receipt over
      amount mismatch over matched. */
  function RankedStatus(hasInvoice: bool, hasGoodsReceipt: bool, hasMismatch: bool): Status {
    if !hasInvoice then MissingInvoice
    else if !hasGoodsReceipt then MissingGoodsReceipt
    else if hasMismatch then AmountMismatch
    else Matched
  }

  lemma {:induction false} MismatchesSnoc(totals: seq<real>, t: real, poTotal: real)
    ensures Mismatches(totals + [t], poTotal) == Mismatches(totals, poTotal) + Mismatches([t], poTotal)
    decreases |totals|
  {
    if |totals| == 0 {
      assert totals + [t] == [t];
    } else {
      assert (totals + [t])[1..] == totals[1..] + [t];
      MismatchesSnoc(totals[1..], t, poTotal);
    }
  }

  /** The totals loop appends exactly the mismatch issues and moves the status
      to `AmountMismatch` only if it was `Matched` and some total is out of
      tolerance. */
  lemma {:induction false} CheckTotalsAppendsMismatches(c: Classification, totals: seq<real>, poTotal: real)
    ensures var m := Mismatches(totals, poTotal);
      CheckTotals(c, totals, poTotal)
        == Classification(if |m| > 0 then Keep(c.status, AmountMismatch) else c.status, c.issues + m)
    decreases |totals|
  {
    if |totals| > 0 {
      var front := totals[..|totals| - 1];
      var t := totals[|totals| - 1];
      CheckTotalsAppendsMismatches(c, front, poTotal);
      assert front + [t] == totals;
      MismatchesSnoc(front, t, poTotal);
    }
  }

  /** Classification of one purchase order, in the source's order of checks:
      missing invoice, missing goods receipt, then each invoice total against
      the order's total. */
  function Classify(poTotal: Option<real>, invoices: seq<InvoiceDoc>, goodsReceipts: seq<GrnDoc>): (c: Classification)
    ensures var m := MismatchIssues(poTotal, InvoiceTotals(invoices));
      && c.status == RankedStatus(|invoices| > 0, |goodsReceipts| > 0, |m| > 0)
      && c.issues == PresenceIssues(|invoices| > 0, |goodsReceipts| > 0) + m
  {
    var c0 := if |invoices| == 0 then Classification(MissingInvoice, [NoInvoice]) else Classification(Matched, []);
    var c1 :=
      if |goodsReceipts| == 0 then Classification(Keep(c0.status, MissingGoodsReceipt), c0.issues + [NoGoodsReceipt])
      else c0;
    var totals := InvoiceTotals(invoices);
    if poTotal.Some? && |totals| > 0 then
      CheckTotalsAppendsMismatches(c1, totals, poTotal.value);
      CheckTotals(c1, totals, poTotal.value)
    else
      c1
  }

  /** Without invoices the status is `missing_invoice` and the first issue
      says so, whatever goods receipts exist. */
  lemma NoInvoiceWins(poTotal: Option<real>, goodsReceipts: seq<GrnDoc>)
    ensures var c := Classify(poTotal, [], goodsReceipts);
      c.status == MissingInvoice && |c.issues| > 0 && c.issues[0] == NoInvoice
  {
  }

  /** The missing-goods-receipt issue is reported exactly when there is no
      goods receipt, and the status says so only when invoices exist. */
  lemma MissingGoodsReceiptReported(poTotal: Option<real>, invoices: seq<InvoiceDoc>, goodsReceipts: seq<GrnDoc>)
    ensures var c := Classify(poTotal, invoices, goodsReceipts);
      && (NoGoodsReceipt in c.issues <==> |goodsReceipts| == 0)
      && (c.status == MissingGoodsReceipt <==> |invoices| > 0 && |goodsReceipts| == 0)
  {
    var c := Classify(poTotal, invoices, goodsReceipts);
    var m := MismatchIssues(poTotal, InvoiceTotals(invoices));
    assert forall k :: 0 <= k < |m| ==> m[k] != NoGoodsReceipt;
    if |goodsReceipts| > 0 {
      assert c.issues == PresenceIssues(|invoices| > 0, true) + m;
      assert NoGoodsReceipt !in c.issues;
    }
  }

  /** A total out of tolerance yields `amount_mismatch` exactly when both
      kinds of document are present; each such total gets its own issue
      after the missing-document issues. */
  lemma AmountMismatchReported(poTotal: real, invoices: seq<InvoiceDoc>, goodsReceipts: seq<GrnDoc>)
    ensures var c := Classify(Some(poTotal), invoices, goodsReceipts);
      var totals := InvoiceTotals(invoices);
      && (c.status == AmountMismatch <==>
            |invoices| > 0 && |goodsReceipts| > 0 && exists t :: t in totals && OutOfTolerance(t, poTotal))
      && c.issues[|PresenceIssues(|invoices| > 0, |goodsReceipts| > 0)|..] == Mismatches(totals, poTotal)
  {
    var c := Classify(Some(poTotal), invoices, goodsReceipts);
    var p := PresenceIssues(|invoices| > 0, |goodsReceipts| > 0);
    assert c.issues[|p|..] == Mismatches(InvoiceTotals(invoices), poTotal);
  }

  /** `matched` with no issues exactly when invoices and goods receipts are
      both present and every non-null invoice total is within tolerance of a
      non-null order total. */
  lemma MatchedIff(poTotal: Option<real>, invoices: seq<InvoiceDoc>, goodsReceipts: seq<GrnDoc>)
    ensures var c := Classify(poTotal, invoices, goodsReceipts);
      var ok := |invoices| > 0 && |goodsReceipts| > 0
        && (poTotal.Some? ==> forall t :: t in InvoiceTotals(invoices) ==> !OutOfTolerance(t, poTotal.value));
      && (c.status == Matched <==> ok)
      && (c.issues == [] <==> ok)
  {
  }

  /** A total of 1000.005 against an order total of 1000.00 is within tolerance. */
  lemma WithinToleranceExample(inv: Invoice, grn: GrnDoc)
    requires inv.grandTotal == Some(1000.005)
    ensures Classify(Some(1000.00), [InvoiceDoc(Some(inv), "inv.pdf")], [grn]) == Classification(Matched, [])
  {
    assert InvoiceTotals([InvoiceDoc(Some(inv), "inv.pdf")]) == [1000.005];
  }

  /** Two invoices with the same out-of-tolerance total get one issue each. */
  lemma RepeatedTotalEachReported(grn: GrnDoc)
    ensures var a := InvoiceDoc(Some(Invoice("INV-1", Some("PO-1"), None, Some(5.0))), "a.pdf");
      var b := InvoiceDoc(Some(Invoice("INV-2", Some("PO-1"), None, Some(5.0))), "b.pdf");
      Classify(Some(1.0), [a, b], [grn])
        == Classification(AmountMismatch, [TotalMismatch(5.0, 1.0), TotalMismatch(5.0, 1.0)])
  {
    var a := InvoiceDoc(Some(Invoice("INV-1", Some("PO-1"), None, Some(5.0))), "a.pdf");
    var b := InvoiceDoc(Some(Invoice("INV-2", Some("PO-1"), None, Some(5.0))), "b.pdf");
    assert [a, b][1..] == [b];
    assert InvoiceTotals([a, b]) == [5.0, 5.0];
    assert [5.0, 5.0][1..] == [5.0];
  }
}
