/** The extracted procurement documents: purchase orders, invoices and goods
    receipt notes, only with the fields the reconciliation engine reads, and
    the stored form in which each record store keeps them. */
module Records {
  import opened Wrappers
  import Reference

  datatype Party = Party(name: string)

  datatype PurchaseOrder = PurchaseOrder(
    poNumber: string,
    vendor: Option<Party>,
    grandTotal: Option<real>)

  datatype Invoice = Invoice(
    invoiceNumber: string,
    referencePo: Option<string>,
    vendor: Option<Party>,
    grandTotal: Option<real>)

  datatype GoodsReceipt = GoodsReceipt(
    grnNumber: string,
    referencePo: Option<string>,
    vendor: Option<Party>)

  /** Building an invoice runs the `reference_po` validator: the raw
      reference is normalised before it is stored. */
  function MakeInvoice(invoiceNumber: string, rawReference: Option<string>, vendor: Option<Party>,
                       grandTotal: Option<real>): (inv: Invoice)
    ensures inv.invoiceNumber == invoiceNumber && inv.vendor == vendor && inv.grandTotal == grandTotal
    ensures inv.referencePo == Reference.Normalize(rawReference)
    ensures inv.referencePo.None? <==> rawReference.None?
    ensures inv.referencePo.Some? ==>
      Reference.Trimmed(inv.referencePo.value) && Reference.IsSubstring(inv.referencePo.value, rawReference.value)
    ensures Reference.Normalize(inv.referencePo) == inv.referencePo
  {
    Reference.NormalizeIdempotent(rawReference);
    Invoice(invoiceNumber, Reference.Normalize(rawReference), vendor, grandTotal)
  }

  /** Building a goods receipt runs the same `reference_po` validator. */
  function MakeGoodsReceipt(grnNumber: string, rawReference: Option<string>, vendor: Option<Party>): (grn: GoodsReceipt)
    ensures grn.grnNumber == grnNumber && grn.vendor == vendor
    ensures grn.referencePo == Reference.Normalize(rawReference)
    ensures grn.referencePo.None? <==> rawReference.None?
    ensures grn.referencePo.Some? ==>
      Reference.Trimmed(grn.referencePo.value) && Reference.IsSubstring(grn.referencePo.value, rawReference.value)
    ensures Reference.Normalize(grn.referencePo) == grn.referencePo
  {
    Reference.NormalizeIdempotent(rawReference);
    GoodsReceipt(grnNumber, Reference.Normalize(rawReference), vendor)
  }

  /** The three document kinds the extraction step can report. */
  datatype DocumentType = InvoiceType | PurchaseOrderType | GoodsReceiptType

  /** The enumeration's wire values. */
  function TypeName(t: DocumentType): string {
    match t
    case InvoiceType => "invoice"
    case PurchaseOrderType => "purchase_order"
    case GoodsReceiptType => "goods_receipt_note"
  }

  /** Reading a wire value back into the enumeration; anything else is refused. */
  function ParseType(s: string): (r: Option<DocumentType>)
    ensures r.Some? ==> TypeName(r.value) == s
    ensures (exists t :: TypeName(t) == s) ==> r.Some?
  {
    if s == "invoice" then Some(InvoiceType)
    else if s == "purchase_order" then Some(PurchaseOrderType)
    else if s == "goods_receipt_note" then Some(GoodsReceiptType)
    else None
  }

  lemma ParseTypeName(t: DocumentType)
    ensures ParseType(TypeName(t)) == Some(t)
  {
  }

  datatype Document =
    | InvoiceDocument(invoice: Invoice)
    | PurchaseOrderDocument(purchaseOrder: PurchaseOrder)
    | GoodsReceiptDocument(goodsReceipt: GoodsReceipt)

  function KindOf(d: Document): DocumentType {
    match d
    case InvoiceDocument(_) => InvoiceType
    case PurchaseOrderDocument(_) => PurchaseOrderType
    case GoodsReceiptDocument(_) => GoodsReceiptType
  }

  /** What the extraction step returns: a declared type and one slot per kind,
      each of which may be null. */
  datatype ExtractionResult = ExtractionResult(
    documentType: DocumentType,
    invoice: Option<Invoice>,
    purchaseOrder: Option<PurchaseOrder>,
    goodsReceipt: Option<GoodsReceipt>)

  /** `get_document`: the slot the declared type selects. */
  function GetDocument(e: ExtractionResult): (r: Option<Document>)
    ensures r.Some? ==> KindOf(r.value) == e.documentType
    ensures e.documentType == InvoiceType ==> (r.Some? <==> e.invoice.Some?)
    ensures e.documentType == PurchaseOrderType ==> (r.Some? <==> e.purchaseOrder.Some?)
    ensures e.documentType == GoodsReceiptType ==> (r.Some? <==> e.goodsReceipt.Some?)
  {
    match e.documentType
    case InvoiceType => if e.invoice.Some? then Some(InvoiceDocument(e.invoice.value)) else None
    case PurchaseOrderType => if e.purchaseOrder.Some? then Some(PurchaseOrderDocument(e.purchaseOrder.value)) else None
    case GoodsReceiptType => if e.goodsReceipt.Some? then Some(GoodsReceiptDocument(e.goodsReceipt.value)) else None
  }

  /** The extraction result that reports exactly document `d`. */
  function ExtractionOf(d: Document): ExtractionResult {
    match d
    case InvoiceDocument(inv) => ExtractionResult(InvoiceType, Some(inv), None, None)
    case PurchaseOrderDocument(po) => ExtractionResult(PurchaseOrderType, None, Some(po), None)
    case GoodsReceiptDocument(grn) => ExtractionResult(GoodsReceiptType, None, None, Some(grn))
  }

  /** `get_document` recovers the document an extraction result was built
      from, and the slots the type does not select never influence it. */
  lemma GetDocumentSelects(d: Document, e: ExtractionResult)
    requires e.documentType == KindOf(d)
    requires match d
             case InvoiceDocument(inv) => e.invoice == Some(inv)
             case PurchaseOrderDocument(po) => e.purchaseOrder == Some(po)
             case GoodsReceiptDocument(grn) => e.goodsReceipt == Some(grn)
    ensures GetDocument(e) == Some(d)
    ensures GetDocument(ExtractionOf(d)) == Some(d)
  {
  }

  /** A purchase-order store entry: the payload whose `purchase_order` part
      may be null, plus the path of the PDF it came from. */
  datatype PoDoc = PoDoc(purchaseOrder: Option<PurchaseOrder>, sourcePdfPath: string)

  datatype InvoiceDoc = InvoiceDoc(invoice: Option<Invoice>, sourcePdfPath: string)

  datatype GrnDoc = GrnDoc(goodsReceipt: Option<GoodsReceipt>, sourcePdfPath: string)
}
