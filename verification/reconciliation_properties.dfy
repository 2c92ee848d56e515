/** What the reconciliation engine computes, stated without the threaded
    processed set: the real-order results in store order, one entry per
    invoice or goods receipt that claims a ghost number or carries no
    reference, and the result count that follows. */
module ReconciliationProperties {
  import opened Wrappers
  import opened Records
  import opened Classifier
  import opened Decisions
  import opened Reconciliation

  /** The purchase order numbers the store holds (non-empty ones). */
  function NumbersOf(pos: seq<PoDoc>): (r: set<string>)
    ensures forall n :: n in r <==> n != "" && PoExists(pos, n)
    decreases |pos|
  {
    if |pos| == 0 then {}
    else
      var front := pos[..|pos| - 1];
      var n := PoNumberOf(pos[|pos| - 1]);
      assert forall i :: 0 <= i < |front| ==> front[i] == pos[i];
      NumbersOf(front) + (if Present(n) then {n.value} else {})
  }

  /** How many stored purchase orders have a number. */
  function CountNumbered(pos: seq<PoDoc>): nat
    decreases |pos|
  {
    if |pos| == 0 then 0
    else CountNumbered(pos[..|pos| - 1]) + (if Present(PoNumberOf(pos[|pos| - 1])) then 1 else 0)
  }

  /** The non-empty references the invoices carry. */
  function InvoiceRefs(invoices: seq<InvoiceDoc>): (r: set<string>)
    ensures forall n :: n in r <==> n != "" && exists i :: 0 <= i < |invoices| && InvoiceRef(invoices[i]) == Some(n)
    decreases |invoices|
  {
    if |invoices| == 0 then {}
    else
      var front := invoices[..|invoices| - 1];
      var n := InvoiceRef(invoices[|invoices| - 1]);
      assert forall i :: 0 <= i < |front| ==> front[i] == invoices[i];
      InvoiceRefs(front) + (if Present(n) then {n.value} else {})
  }

  /** The non-empty references the goods receipts carry. */
  function GrnRefs(grns: seq<GrnDoc>): (r: set<string>)
    ensures forall n :: n in r <==> n != "" && exists i :: 0 <= i < |grns| && GrnRef(grns[i]) == Some(n)
    decreases |grns|
  {
    if |grns| == 0 then {}
    else
      var front := grns[..|grns| - 1];
      var n := GrnRef(grns[|grns| - 1]);
      assert forall i :: 0 <= i < |front| ==> front[i] == grns[i];
      GrnRefs(front) + (if Present(n) then {n.value} else {})
  }

  function CountUnreferencedInvoices(invoices: seq<InvoiceDoc>): nat
    decreases |invoices|
  {
    if |invoices| == 0 then 0
    else CountUnreferencedInvoices(invoices[..|invoices| - 1]) + (if Present(InvoiceRef(invoices[|invoices| - 1])) then 0 else 1)
  }

  function CountUnreferencedGrns(grns: seq<GrnDoc>): nat
    decreases |grns|
  {
    if |grns| == 0 then 0
    else CountUnreferencedGrns(grns[..|grns| - 1]) + (if Present(GrnRef(grns[|grns| - 1])) then 0 else 1)
  }

  /** Numbers referenced by some invoice or goods receipt but held by no
      purchase order. */
  function GhostNumbers(pos: seq<PoDoc>, invoices: seq<InvoiceDoc>, grns: seq<GrnDoc>): set<string> {
    (InvoiceRefs(invoices) + GrnRefs(grns)) - NumbersOf(pos)
  }

  /** No earlier invoice carries the same reference as invoice `i`. */
  predicate FirstInvoiceWith(invoices: seq<InvoiceDoc>, i: nat)
    requires i < |invoices|
  {
    forall k :: 0 <= k < i ==> InvoiceRef(invoices[k]) != InvoiceRef(invoices[i])
  }

  /** No earlier goods receipt carries the same reference as receipt `j`. */
  predicate FirstGrnWith(grns: seq<GrnDoc>, j: nat)
    requires j < |grns|
  {
    forall k :: 0 <= k < j ==> GrnRef(grns[k]) != GrnRef(grns[j])
  }

  /** What invoice `i` contributes after the real orders: an orphan entry when
      it has no reference, a ghost entry when it is the first invoice with a
      reference outside `excluded`, nothing otherwise. */
  function InvoiceEntry(invoices: seq<InvoiceDoc>, i: nat, excluded: set<string>, grns: seq<GrnDoc>): seq<ReconResult>
    requires i < |invoices|
  {
    var ref := InvoiceRef(invoices[i]);
    if !Present(ref) then [OrphanInvoice(invoices[i])]
    else if ref.value !in excluded && FirstInvoiceWith(invoices, i) then [GhostFromInvoice(invoices[i], ref.value, grns)]
    else []
  }

  function InvoiceEntries(invoices: seq<InvoiceDoc>, excluded: set<string>, grns: seq<GrnDoc>): seq<ReconResult>
    decreases |invoices|
  {
    if |invoices| == 0 then []
    else InvoiceEntries(invoices[..|invoices| - 1], excluded, grns) + InvoiceEntry(invoices, |invoices| - 1, excluded, grns)
  }

  /** What goods receipt `j` contributes after the invoices, `excluded` being
      the real order numbers and every invoice reference. */
  function GrnEntry(grns: seq<GrnDoc>, j: nat, excluded: set<string>): seq<ReconResult>
    requires j < |grns|
  {
    var ref := GrnRef(grns[j]);
    if !Present(ref) then [OrphanGrn(grns[j])]
    else if ref.value !in excluded && FirstGrnWith(grns, j) then [GhostFromGrn(grns[j], ref.value)]
    else []
  }

  function GrnEntries(grns: seq<GrnDoc>, excluded: set<string>): seq<ReconResult>
    decreases |grns|
  {
    if |grns| == 0 then []
    else GrnEntries(grns[..|grns| - 1], excluded) + GrnEntry(grns, |grns| - 1, excluded)
  }

  /** A result built for a stored purchase order with a number. */
  predicate IsRealResult(r: ReconResult, invoices: seq<InvoiceDoc>, grns: seq<GrnDoc>, decisions: DecisionTable) {
    && r.po.StoredPo?
    && Present(PoNumberOf(r.po.doc))
    && r == RealResult(r.po.doc, PoNumberOf(r.po.doc).value, invoices, grns, decisions)
  }

  /** The purchase order loop marks exactly the store's numbers as processed
      and yields one result per numbered order, each built for that order. */
  lemma {:induction false} PoPassCounts(pos: seq<PoDoc>, invoices: seq<InvoiceDoc>, grns: seq<GrnDoc>,
                                        decisions: DecisionTable)
    ensures var s := PoPass(pos, invoices, grns, decisions);
      && s.processed == NumbersOf(pos)
      && |s.results| == CountNumbered(pos)
      && forall k :: 0 <= k < |s.results| ==> IsRealResult(s.results[k], invoices, grns, decisions)
    decreases |pos|
  {
    if |pos| > 0 {
      PoPassCounts(pos[..|pos| - 1], invoices, grns, decisions);
    }
  }

  /** The numbered order at store position `i` has its result at the rank
      given by the numbered orders before it. */
  lemma {:induction false} PoPassIndex(pos: seq<PoDoc>, invoices: seq<InvoiceDoc>, grns: seq<GrnDoc>,
                                       decisions: DecisionTable, i: nat)
    requires i < |pos| && Present(PoNumberOf(pos[i]))
    ensures var s := PoPass(pos, invoices, grns, decisions);
      && CountNumbered(pos[..i]) < |s.results|
      && s.results[CountNumbered(pos[..i])] == RealResult(pos[i], PoNumberOf(pos[i]).value, invoices, grns, decisions)
    decreases |pos|
  {
    var front := pos[..|pos| - 1];
    assert PoPass(front, invoices, grns, decisions).results <= PoPass(pos, invoices, grns, decisions).results;
    if i == |pos| - 1 {
      PoPassCounts(front, invoices, grns, decisions);
      assert pos[..i] == front;
    } else {
      PoPassIndex(front, invoices, grns, decisions, i);
      assert pos[..i] == front[..i] && pos[i] == front[i];
    }
  }

  /** The purchase order loop yields one result per numbered order, in store
      order, and marks exactly the store's numbers as processed. */
  lemma PoPassResults(pos: seq<PoDoc>, invoices: seq<InvoiceDoc>, grns: seq<GrnDoc>, decisions: DecisionTable)
    ensures var s := PoPass(pos, invoices, grns, decisions);
      && s.processed == NumbersOf(pos)
      && |s.results| == CountNumbered(pos)
      && (forall k :: 0 <= k < |s.results| ==> IsRealResult(s.results[k], invoices, grns, decisions))
      && forall i :: 0 <= i < |pos| && Present(PoNumberOf(pos[i])) ==>
           && CountNumbered(pos[..i]) < |s.results|
           && s.results[CountNumbered(pos[..i])] == RealResult(pos[i], PoNumberOf(pos[i]).value, invoices, grns, decisions)
  {
    PoPassCounts(pos, invoices, grns, decisions);
    forall i | 0 <= i < |pos| && Present(PoNumberOf(pos[i]))
      ensures var s := PoPass(pos, invoices, grns, decisions);
        && CountNumbered(pos[..i]) < |s.results|
        && s.results[CountNumbered(pos[..i])] == RealResult(pos[i], PoNumberOf(pos[i]).value, invoices, grns, decisions)
    {
      PoPassIndex(pos, invoices, grns, decisions, i);
    }
  }

  /** One invoice step, once every stored number counts as processed. */
  lemma InvoiceStepCases(s: Scan, d: InvoiceDoc, pos: seq<PoDoc>, grns: seq<GrnDoc>)
    requires NumbersOf(pos) <= s.processed
    ensures var ref := InvoiceRef(d);
      InvoiceStep(s, d, pos, grns)
        == if !Present(ref) then Scan(s.results + [OrphanInvoice(d)], s.processed)
           else if ref.value in s.processed then s
           else Scan(s.results + [GhostFromInvoice(d, ref.value, grns)], s.processed + {ref.value})
  {
    var ref := InvoiceRef(d);
    if Present(ref) && ref.value !in s.processed {
      assert ref.value !in NumbersOf(pos);
    }
  }

  /** The last invoice's entry, in terms of the references before it. */
  lemma InvoiceEntryLast(invoices: seq<InvoiceDoc>, excluded: set<string>, grns: seq<GrnDoc>)
    requires |invoices| > 0
    ensures var d := invoices[|invoices| - 1]; var ref := InvoiceRef(d);
      InvoiceEntry(invoices, |invoices| - 1, excluded, grns)
        == if !Present(ref) then [OrphanInvoice(d)]
           else if ref.value in excluded + InvoiceRefs(invoices[..|invoices| - 1]) then []
           else [GhostFromInvoice(d, ref.value, grns)]
  {
    var n := |invoices|;
    var front := invoices[..n - 1];
    var ref := InvoiceRef(invoices[n - 1]);
    if Present(ref) {
      if ref.value in InvoiceRefs(front) {
        var k :| 0 <= k < |front| && InvoiceRef(front[k]) == Some(ref.value);
        assert invoices[k] == front[k];
      } else {
        forall k | 0 <= k < n - 1
          ensures InvoiceRef(invoices[k]) != ref
        {
          assert invoices[k] == front[k];
        }
      }
    }
  }

  /** The invoice scan, run from a state whose processed set already holds
      every stored number, appends exactly the invoice entries and adds every
      invoice reference to the processed set. */
  lemma {:induction false} InvoicePassEntries(init: Scan, invoices: seq<InvoiceDoc>, pos: seq<PoDoc>, grns: seq<GrnDoc>)
    requires NumbersOf(pos) <= init.processed
    ensures InvoicePass(init, invoices, pos, grns)
      == Scan(init.results + InvoiceEntries(invoices, init.processed, grns), init.processed + InvoiceRefs(invoices))
    decreases |invoices|
  {
    if |invoices| > 0 {
      var n := |invoices|;
      var front := invoices[..n - 1];
      var d := invoices[n - 1];
      InvoicePassEntries(init, front, pos, grns);
      var prev := InvoicePass(init, front, pos, grns);
      InvoiceStepCases(prev, d, pos, grns);
      InvoiceEntryLast(invoices, init.processed, grns);
    }
  }

  /** One goods receipt step, once every stored number counts as processed. */
  lemma GrnStepCases(s: Scan, d: GrnDoc, pos: seq<PoDoc>)
    requires NumbersOf(pos) <= s.processed
    ensures var ref := GrnRef(d);
      GrnStep(s, d, pos)
        == if !Present(ref) then Scan(s.results + [OrphanGrn(d)], s.processed)
           else if ref.value in s.processed then s
           else Scan(s.results + [GhostFromGrn(d, ref.value)], s.processed + {ref.value})
  {
    var ref := GrnRef(d);
    if Present(ref) && ref.value !in s.processed {
      assert ref.value !in NumbersOf(pos);
    }
  }

  /** The last goods receipt's entry, in terms of the references before it. */
  lemma GrnEntryLast(grns: seq<GrnDoc>, excluded: set<string>)
    requires |grns| > 0
    ensures var d := grns[|grns| - 1]; var ref := GrnRef(d);
      GrnEntry(grns, |grns| - 1, excluded)
        == if !Present(ref) then [OrphanGrn(d)]
           else if ref.value in excluded + GrnRefs(grns[..|grns| - 1]) then []
           else [GhostFromGrn(d, ref.value)]
  {
    var n := |grns|;
    var front := grns[..n - 1];
    var ref := GrnRef(grns[n - 1]);
    if Present(ref) {
      if ref.value in GrnRefs(front) {
        var k :| 0 <= k < |front| && GrnRef(front[k]) == Some(ref.value);
        assert grns[k] == front[k];
      } else {
        forall k | 0 <= k < n - 1
          ensures GrnRef(grns[k]) != ref
        {
          assert grns[k] == front[k];
        }
      }
    }
  }

  /** The goods receipt scan, run from a state whose processed set already
      holds every stored number, appends exactly the goods receipt entries. */
  lemma {:induction false} GrnPassEntries(init: Scan, grns: seq<GrnDoc>, pos: seq<PoDoc>)
    requires NumbersOf(pos) <= init.processed
    ensures GrnPass(init, grns, pos)
      == Scan(init.results + GrnEntries(grns, init.processed), init.processed + GrnRefs(grns))
    decreases |grns|
  {
    if |grns| > 0 {
      var n := |grns|;
      var front := grns[..n - 1];
      var d := grns[n - 1];
      GrnPassEntries(init, front, pos);
      var prev := GrnPass(init, front, pos);
      GrnStepCases(prev, d, pos);
      GrnEntryLast(grns, init.processed);
    }
  }

  /** The engine's output: the real-order results, then the invoice entries,
      then the goods receipt entries, where an entry claims a ghost number only
      if no stored order and no earlier scan has claimed it. */
  lemma ReconcileStructure(pos: seq<PoDoc>, invoices: seq<InvoiceDoc>, grns: seq<GrnDoc>, decisions: DecisionTable)
    ensures Reconcile(pos, invoices, grns, decisions)
      == PoPass(pos, invoices, grns, decisions).results
         + InvoiceEntries(invoices, NumbersOf(pos), grns)
         + GrnEntries(grns, NumbersOf(pos) + InvoiceRefs(invoices))
  {
    var afterPos := PoPass(pos, invoices, grns, decisions);
    PoPassResults(pos, invoices, grns, decisions);
    InvoicePassEntries(afterPos, invoices, pos, grns);
    var afterInvoices := InvoicePass(afterPos, invoices, pos, grns);
    GrnPassEntries(afterInvoices, grns, pos);
  }

  /** Adding one reference adds one unclaimed number exactly when it is
      neither excluded nor already present. */
  lemma NewReferenceCount(refs: set<string>, excluded: set<string>, x: string)
    ensures |(refs + {x}) - excluded| == |refs - excluded| + (if x in excluded + refs then 0 else 1)
  {
    if x !in excluded + refs {
      assert (refs + {x}) - excluded == (refs - excluded) + {x};
    } else {
      assert (refs + {x}) - excluded == refs - excluded;
    }
  }

  lemma {:induction false} InvoiceEntriesCount(invoices: seq<InvoiceDoc>, excluded: set<string>, grns: seq<GrnDoc>)
    ensures |InvoiceEntries(invoices, excluded, grns)|
      == CountUnreferencedInvoices(invoices) + |InvoiceRefs(invoices) - excluded|
    decreases |invoices|
  {
    if |invoices| > 0 {
      var n := |invoices|;
      var front := invoices[..n - 1];
      var ref := InvoiceRef(invoices[n - 1]);
      InvoiceEntriesCount(front, excluded, grns);
      InvoiceEntryLast(invoices, excluded, grns);
      assert InvoiceRefs(invoices) == InvoiceRefs(front) + (if Present(ref) then {ref.value} else {});
      if Present(ref) {
        NewReferenceCount(InvoiceRefs(front), excluded, ref.value);
      }
    }
  }

  lemma {:induction false} GrnEntriesCount(grns: seq<GrnDoc>, excluded: set<string>)
    ensures |GrnEntries(grns, excluded)| == CountUnreferencedGrns(grns) + |GrnRefs(grns) - excluded|
    decreases |grns|
  {
    if |grns| > 0 {
      var n := |grns|;
      var front := grns[..n - 1];
      var ref := GrnRef(grns[n - 1]);
      GrnEntriesCount(front, excluded);
      GrnEntryLast(grns, excluded);
      assert GrnRefs(grns) == GrnRefs(front) + (if Present(ref) then {ref.value} else {});
      if Present(ref) {
        NewReferenceCount(GrnRefs(front), excluded, ref.value);
      }
    }
  }

  /** One result per numbered purchase order, per ghost number, per invoice
      without a reference and per goods receipt without a reference. */
  lemma ReconcileCount(pos: seq<PoDoc>, invoices: seq<InvoiceDoc>, grns: seq<GrnDoc>, decisions: DecisionTable)
    ensures |Reconcile(pos, invoices, grns, decisions)|
      == CountNumbered(pos) + |GhostNumbers(pos, invoices, grns)|
         + CountUnreferencedInvoices(invoices) + CountUnreferencedGrns(grns)
  {
    ReconcileStructure(pos, invoices, grns, decisions);
    PoPassCounts(pos, invoices, grns, decisions);
    var numbers := NumbersOf(pos);
    var invoiceRefs := InvoiceRefs(invoices);
    InvoiceEntriesCount(invoices, numbers, grns);
    GrnEntriesCount(grns, numbers + invoiceRefs);
    GhostsSplit(numbers, invoiceRefs, GrnRefs(grns));
  }

  /** The ghost numbers split into those invoices claim and those only goods
      receipts claim. */
  lemma GhostsSplit(numbers: set<string>, invoiceRefs: set<string>, grnRefs: set<string>)
    ensures |(invoiceRefs + grnRefs) - numbers| == |invoiceRefs - numbers| + |grnRefs - (numbers + invoiceRefs)|
  {
    var a := invoiceRefs - numbers;
    var b := grnRefs - (numbers + invoiceRefs);
    assert a * b == {};
    assert a + b == (invoiceRefs + grnRefs) - numbers;
  }

  lemma InvoiceEntryPrefix(invoices: seq<InvoiceDoc>, m: nat, i: nat, excluded: set<string>, grns: seq<GrnDoc>)
    requires i < m <= |invoices|
    ensures InvoiceEntry(invoices[..m], i, excluded, grns) == InvoiceEntry(invoices, i, excluded, grns)
  {
    assert forall k :: 0 <= k < m ==> invoices[..m][k] == invoices[k];
  }

  lemma GrnEntryPrefix(grns: seq<GrnDoc>, m: nat, j: nat, excluded: set<string>)
    requires j < m <= |grns|
    ensures GrnEntry(grns[..m], j, excluded) == GrnEntry(grns, j, excluded)
  {
    assert forall k :: 0 <= k < m ==> grns[..m][k] == grns[k];
  }

  /** Each invoice's own entry is part of the invoice entries. */
  lemma {:induction false} InvoiceEntryIncluded(invoices: seq<InvoiceDoc>, i: nat, excluded: set<string>, grns: seq<GrnDoc>)
    requires i < |invoices|
    ensures forall r :: r in InvoiceEntry(invoices, i, excluded, grns) ==> r in InvoiceEntries(invoices, excluded, grns)
    decreases |invoices|
  {
    var n := |invoices|;
    var front := invoices[..n - 1];
    assert InvoiceEntries(invoices, excluded, grns)
      == InvoiceEntries(front, excluded, grns) + InvoiceEntry(invoices, n - 1, excluded, grns);
    if i < n - 1 {
      InvoiceEntryIncluded(front, i, excluded, grns);
      InvoiceEntryPrefix(invoices, n - 1, i, excluded, grns);
    }
  }

  /** Every invoice entry comes from one particular invoice. */
  lemma {:induction false} InvoiceEntriesFrom(invoices: seq<InvoiceDoc>, excluded: set<string>, grns: seq<GrnDoc>, r: ReconResult)
    requires r in InvoiceEntries(invoices, excluded, grns)
    ensures exists i :: 0 <= i < |invoices| && r in InvoiceEntry(invoices, i, excluded, grns)
    decreases |invoices|
  {
    var n := |invoices|;
    if r !in InvoiceEntry(invoices, n - 1, excluded, grns) {
      InvoiceEntriesFrom(invoices[..n - 1], excluded, grns, r);
      var i :| 0 <= i < n - 1 && r in InvoiceEntry(invoices[..n - 1], i, excluded, grns);
      InvoiceEntryPrefix(invoices, n - 1, i, excluded, grns);
    }
  }

  lemma {:induction false} GrnEntryIncluded(grns: seq<GrnDoc>, j: nat, excluded: set<string>)
    requires j < |grns|
    ensures forall r :: r in GrnEntry(grns, j, excluded) ==> r in GrnEntries(grns, excluded)
    decreases |grns|
  {
    var n := |grns|;
    if j < n - 1 {
      GrnEntryIncluded(grns[..n - 1], j, excluded);
      GrnEntryPrefix(grns, n - 1, j, excluded);
    }
  }

  lemma {:induction false} GrnEntriesFrom(grns: seq<GrnDoc>, excluded: set<string>, r: ReconResult)
    requires r in GrnEntries(grns, excluded)
    ensures exists j :: 0 <= j < |grns| && r in GrnEntry(grns, j, excluded)
    decreases |grns|
  {
    var n := |grns|;
    if r !in GrnEntry(grns, n - 1, excluded) {
      GrnEntriesFrom(grns[..n - 1], excluded, r);
      var j :| 0 <= j < n - 1 && r in GrnEntry(grns[..n - 1], j, excluded);
      GrnEntryPrefix(grns, n - 1, j, excluded);
    }
  }

  /** A reference some invoice carries is carried first by one of them. */
  lemma {:induction false} FirstInvoiceIndex(invoices: seq<InvoiceDoc>, n: string)
    requires n in InvoiceRefs(invoices)
    ensures exists k :: 0 <= k < |invoices| && InvoiceRef(invoices[k]) == Some(n) && FirstInvoiceWith(invoices, k)
    decreases |invoices|
  {
    var last := |invoices| - 1;
    var front := invoices[..last];
    if n in InvoiceRefs(front) {
      FirstInvoiceIndex(front, n);
      var k :| 0 <= k < |front| && InvoiceRef(front[k]) == Some(n) && FirstInvoiceWith(front, k);
      assert forall m :: 0 <= m <= k ==> front[m] == invoices[m];
      assert FirstInvoiceWith(invoices, k);
    } else {
      assert InvoiceRefs(invoices) == InvoiceRefs(front) + (if Present(InvoiceRef(invoices[last])) then {InvoiceRef(invoices[last]).value} else {});
      forall m | 0 <= m < last
        ensures InvoiceRef(invoices[m]) != InvoiceRef(invoices[last])
      {
        assert front[m] == invoices[m];
      }
    }
  }

  /** The numbered purchase order `j` has its result among the engine's output. */
  lemma RealResultReported(pos: seq<PoDoc>, invoices: seq<InvoiceDoc>, grns: seq<GrnDoc>, decisions: DecisionTable, j: nat)
    requires j < |pos| && Present(PoNumberOf(pos[j]))
    ensures RealResult(pos[j], PoNumberOf(pos[j]).value, invoices, grns, decisions) in Reconcile(pos, invoices, grns, decisions)
  {
    ReconcileStructure(pos, invoices, grns, decisions);
    PoPassResults(pos, invoices, grns, decisions);
    var s := PoPass(pos, invoices, grns, decisions);
    assert s.results[CountNumbered(pos[..j])] in s.results;
  }

  /** Invoice `i` is lost: its reference names no stored order and an
      earlier invoice already carries it. */
  predicate InvoiceDropped(pos: seq<PoDoc>, invoices: seq<InvoiceDoc>, i: nat)
    requires i < |invoices|
  {
    var ref := InvoiceRef(invoices[i]);
    Present(ref) && ref.value !in NumbersOf(pos) && !FirstInvoiceWith(invoices, i)
  }

  /** Goods receipt `j` is lost: its reference names no stored order, no
      invoice carries it, and an earlier goods receipt already does. */
  predicate GrnDropped(pos: seq<PoDoc>, invoices: seq<InvoiceDoc>, grns: seq<GrnDoc>, j: nat)
    requires j < |grns|
  {
    var ref := GrnRef(grns[j]);
    Present(ref) && ref.value !in NumbersOf(pos) && ref.value !in InvoiceRefs(invoices) && !FirstGrnWith(grns, j)
  }

  /** Every invoice that is not dropped shows up in some result: under its
      real order, in the ghost entry it claims, or in its orphan entry. */
  lemma InvoiceAppears(pos: seq<PoDoc>, invoices: seq<InvoiceDoc>, grns: seq<GrnDoc>, decisions: DecisionTable, i: nat)
    requires i < |invoices| && !InvoiceDropped(pos, invoices, i)
    ensures exists r :: r in Reconcile(pos, invoices, grns, decisions) && invoices[i] in r.invoices
  {
    var out := Reconcile(pos, invoices, grns, decisions);
    var numbers := NumbersOf(pos);
    ReconcileStructure(pos, invoices, grns, decisions);
    var ref := InvoiceRef(invoices[i]);
    if Present(ref) && ref.value in numbers {
      var j :| 0 <= j < |pos| && PoNumberOf(pos[j]) == Some(ref.value);
      RealResultReported(pos, invoices, grns, decisions, j);
      var r := RealResult(pos[j], ref.value, invoices, grns, decisions);
      assert invoices[i] in r.invoices;
    } else {
      InvoiceEntryIncluded(invoices, i, numbers, grns);
      var r := InvoiceEntry(invoices, i, numbers, grns)[0];
      assert r in out && invoices[i] in r.invoices;
    }
  }

  /** Results for stored orders hold only invoices and goods receipts whose
      reference is a stored number. */
  lemma RealResultsHoldStoredReferences(pos: seq<PoDoc>, invoices: seq<InvoiceDoc>, grns: seq<GrnDoc>,
                                        decisions: DecisionTable, r: ReconResult)
    requires r in PoPass(pos, invoices, grns, decisions).results
    ensures IsRealResult(r, invoices, grns, decisions)
    ensures forall d :: d in r.invoices ==> Present(InvoiceRef(d)) && InvoiceRef(d).value in NumbersOf(pos)
    ensures forall d :: d in r.goodsReceipts ==> Present(GrnRef(d)) && GrnRef(d).value in NumbersOf(pos)
  {
    var results := PoPass(pos, invoices, grns, decisions).results;
    PoPassResults(pos, invoices, grns, decisions);
    var k :| 0 <= k < |results| && results[k] == r;
    assert IsRealResult(results[k], invoices, grns, decisions);
  }

  /** An invoice entry holds exactly the one invoice it comes from. */
  lemma InvoiceEntryHolds(invoices: seq<InvoiceDoc>, excluded: set<string>, grns: seq<GrnDoc>, r: ReconResult)
    requires r in InvoiceEntries(invoices, excluded, grns)
    ensures exists k :: 0 <= k < |invoices| && r in InvoiceEntry(invoices, k, excluded, grns) && r.invoices == [invoices[k]]
    ensures r.po.PoStub? && r.decision.None?
    ensures forall g :: g in r.goodsReceipts ==> Present(GrnRef(g)) && GrnRef(g).value in InvoiceRefs(invoices)
  {
    InvoiceEntriesFrom(invoices, excluded, grns, r);
    var k :| 0 <= k < |invoices| && r in InvoiceEntry(invoices, k, excluded, grns);
    assert r.invoices == [invoices[k]];
  }

  /** A goods receipt entry holds no invoice and exactly the one goods receipt
      it comes from. */
  lemma GrnEntryHolds(grns: seq<GrnDoc>, excluded: set<string>, r: ReconResult)
    requires r in GrnEntries(grns, excluded)
    ensures r.invoices == [] && r.po.PoStub? && r.decision.None?
    ensures exists k :: 0 <= k < |grns| && r in GrnEntry(grns, k, excluded) && r.goodsReceipts == [grns[k]]
  {
    GrnEntriesFrom(grns, excluded, r);
  }

  /** A dropped invoice shows up in no result at all, when no other stored
      invoice is identical to it (stored documents differ at least by their
      unique source path). */
  lemma DroppedInvoiceAbsent(pos: seq<PoDoc>, invoices: seq<InvoiceDoc>, grns: seq<GrnDoc>, decisions: DecisionTable, i: nat)
    requires i < |invoices| && InvoiceDropped(pos, invoices, i)
    requires forall k :: 0 <= k < |invoices| && k != i ==> invoices[k] != invoices[i]
    ensures forall r :: r in Reconcile(pos, invoices, grns, decisions) ==> invoices[i] !in r.invoices
  {
    var numbers := NumbersOf(pos);
    var excluded := numbers + InvoiceRefs(invoices);
    ReconcileStructure(pos, invoices, grns, decisions);
    forall r | r in Reconcile(pos, invoices, grns, decisions)
      ensures invoices[i] !in r.invoices
    {
      if r in PoPass(pos, invoices, grns, decisions).results {
        RealResultsHoldStoredReferences(pos, invoices, grns, decisions, r);
      } else if r in InvoiceEntries(invoices, numbers, grns) {
        InvoiceEntryHolds(invoices, numbers, grns, r);
      } else {
        GrnEntryHolds(grns, excluded, r);
      }
    }
  }

  /** Every goods receipt that is not dropped shows up in some result: under
      its real order, in the ghost entry of the first invoice with its
      reference, in the ghost entry it claims, or in its orphan entry. */
  lemma GrnAppears(pos: seq<PoDoc>, invoices: seq<InvoiceDoc>, grns: seq<GrnDoc>, decisions: DecisionTable, j: nat)
    requires j < |grns| && !GrnDropped(pos, invoices, grns, j)
    ensures exists r :: r in Reconcile(pos, invoices, grns, decisions) && grns[j] in r.goodsReceipts
  {
    var out := Reconcile(pos, invoices, grns, decisions);
    var numbers := NumbersOf(pos);
    var excluded := numbers + InvoiceRefs(invoices);
    ReconcileStructure(pos, invoices, grns, decisions);
    var ref := GrnRef(grns[j]);
    if Present(ref) && ref.value in numbers {
      var i :| 0 <= i < |pos| && PoNumberOf(pos[i]) == Some(ref.value);
      RealResultReported(pos, invoices, grns, decisions, i);
      var r := RealResult(pos[i], ref.value, invoices, grns, decisions);
      assert grns[j] in r.goodsReceipts;
    } else if Present(ref) && ref.value in InvoiceRefs(invoices) {
      FirstInvoiceIndex(invoices, ref.value);
      var k :| 0 <= k < |invoices| && InvoiceRef(invoices[k]) == ref && FirstInvoiceWith(invoices, k);
      InvoiceEntryIncluded(invoices, k, numbers, grns);
      var r := InvoiceEntry(invoices, k, numbers, grns)[0];
      assert r == GhostFromInvoice(invoices[k], ref.value, grns);
      assert r in out && grns[j] in r.goodsReceipts;
    } else {
      GrnEntryIncluded(grns, j, excluded);
      var r := GrnEntry(grns, j, excluded)[0];
      assert r in out && grns[j] in r.goodsReceipts;
    }
  }

  /** A dropped goods receipt shows up in no result at all, when no other
      stored goods receipt is identical to it. */
  lemma DroppedGrnAbsent(pos: seq<PoDoc>, invoices: seq<InvoiceDoc>, grns: seq<GrnDoc>, decisions: DecisionTable, j: nat)
    requires j < |grns| && GrnDropped(pos, invoices, grns, j)
    requires forall k :: 0 <= k < |grns| && k != j ==> grns[k] != grns[j]
    ensures forall r :: r in Reconcile(pos, invoices, grns, decisions) ==> grns[j] !in r.goodsReceipts
  {
    var numbers := NumbersOf(pos);
    var excluded := numbers + InvoiceRefs(invoices);
    ReconcileStructure(pos, invoices, grns, decisions);
    forall r | r in Reconcile(pos, invoices, grns, decisions)
      ensures grns[j] !in r.goodsReceipts
    {
      if r in PoPass(pos, invoices, grns, decisions).results {
        RealResultsHoldStoredReferences(pos, invoices, grns, decisions, r);
      } else if r in InvoiceEntries(invoices, numbers, grns) {
        InvoiceEntryHolds(invoices, numbers, grns, r);
      } else {
        GrnEntryHolds(grns, excluded, r);
      }
    }
  }

  /** The number a ghost result stands for. */
  function GhostNumber(r: ReconResult): Option<string> {
    if r.status == GhostPo && r.po.PoStub? then Some(r.po.poNumber) else None
  }

  /** The scan invariant behind ghost deduplication: every ghost result is a
      stub for a number that is processed and held by no stored order, and no
      two ghost results share a number. */
  predicate GhostsAccounted(s: Scan, pos: seq<PoDoc>) {
    && (forall k :: 0 <= k < |s.results| && s.results[k].status == GhostPo ==> s.results[k].po.PoStub?)
    && (forall k :: 0 <= k < |s.results| && GhostNumber(s.results[k]).Some? ==>
          GhostNumber(s.results[k]).value in s.processed && !PoExists(pos, GhostNumber(s.results[k]).value))
    && (forall a, b :: 0 <= a < b < |s.results| && GhostNumber(s.results[a]).Some? ==>
          GhostNumber(s.results[a]) != GhostNumber(s.results[b]))
  }

  lemma PoPassHasNoGhosts(pos: seq<PoDoc>, invoices: seq<InvoiceDoc>, grns: seq<GrnDoc>, decisions: DecisionTable)
    ensures GhostsAccounted(PoPass(pos, invoices, grns, decisions), pos)
  {
    var results := PoPass(pos, invoices, grns, decisions).results;
    PoPassResults(pos, invoices, grns, decisions);
    forall k | 0 <= k < |results|
      ensures results[k].status != GhostPo
    {
      assert IsRealResult(results[k], invoices, grns, decisions);
    }
  }

  /** Appending one result keeps the invariant when that result, if it is a
      ghost, is a stub for a fresh number held by no stored order that the
      processed set now records. */
  lemma AppendKeepsGhostsAccounted(s: Scan, x: ReconResult, added: set<string>, pos: seq<PoDoc>)
    requires GhostsAccounted(s, pos)
    requires x.status == GhostPo ==> x.po.PoStub?
    requires GhostNumber(x).Some? ==>
      GhostNumber(x).value !in s.processed && GhostNumber(x).value in added && !PoExists(pos, GhostNumber(x).value)
    ensures GhostsAccounted(Scan(s.results + [x], s.processed + added), pos)
  {
    var t := Scan(s.results + [x], s.processed + added);
    assert forall k :: 0 <= k < |s.results| ==> t.results[k] == s.results[k];
  }

  lemma InvoiceStepKeepsGhostsAccounted(s: Scan, d: InvoiceDoc, pos: seq<PoDoc>, grns: seq<GrnDoc>)
    requires GhostsAccounted(s, pos)
    ensures GhostsAccounted(InvoiceStep(s, d, pos, grns), pos)
  {
    var ref := InvoiceRef(d);
    if Present(ref) && ref.value !in s.processed && !PoExists(pos, ref.value) {
      AppendKeepsGhostsAccounted(s, GhostFromInvoice(d, ref.value, grns), {ref.value}, pos);
    } else if !Present(ref) {
      AppendKeepsGhostsAccounted(s, OrphanInvoice(d), {}, pos);
      assert s.processed + {} == s.processed;
    }
  }

  lemma {:induction false} InvoicePassKeepsGhostsAccounted(init: Scan, invoices: seq<InvoiceDoc>, pos: seq<PoDoc>, grns: seq<GrnDoc>)
    requires GhostsAccounted(init, pos)
    ensures GhostsAccounted(InvoicePass(init, invoices, pos, grns), pos)
    decreases |invoices|
  {
    if |invoices| > 0 {
      var front := invoices[..|invoices| - 1];
      InvoicePassKeepsGhostsAccounted(init, front, pos, grns);
      InvoiceStepKeepsGhostsAccounted(InvoicePass(init, front, pos, grns), invoices[|invoices| - 1], pos, grns);
    }
  }

  lemma GrnStepKeepsGhostsAccounted(s: Scan, d: GrnDoc, pos: seq<PoDoc>)
    requires GhostsAccounted(s, pos)
    ensures GhostsAccounted(GrnStep(s, d, pos), pos)
  {
    var ref := GrnRef(d);
    if Present(ref) && ref.value !in s.processed && !PoExists(pos, ref.value) {
      AppendKeepsGhostsAccounted(s, GhostFromGrn(d, ref.value), {ref.value}, pos);
    } else if !Present(ref) {
      AppendKeepsGhostsAccounted(s, OrphanGrn(d), {}, pos);
      assert s.processed + {} == s.processed;
    }
  }

  lemma {:induction false} GrnPassKeepsGhostsAccounted(init: Scan, grns: seq<GrnDoc>, pos: seq<PoDoc>)
    requires GhostsAccounted(init, pos)
    ensures GhostsAccounted(GrnPass(init, grns, pos), pos)
    decreases |grns|
  {
    if |grns| > 0 {
      var front := grns[..|grns| - 1];
      GrnPassKeepsGhostsAccounted(init, front, pos);
      GrnStepKeepsGhostsAccounted(GrnPass(init, front, pos), grns[|grns| - 1], pos);
    }
  }

  /** No purchase order number gets two ghost results, and no ghost result
      stands for a number a stored order holds. */
  lemma GhostNumbersUnique(pos: seq<PoDoc>, invoices: seq<InvoiceDoc>, grns: seq<GrnDoc>, decisions: DecisionTable)
    ensures var out := Reconcile(pos, invoices, grns, decisions);
      && (forall k :: 0 <= k < |out| && out[k].status == GhostPo ==> out[k].po.PoStub? && !PoExists(pos, out[k].po.poNumber))
      && (forall a, b :: 0 <= a < b < |out| && GhostNumber(out[a]).Some? ==> GhostNumber(out[a]) != GhostNumber(out[b]))
  {
    var afterPos := PoPass(pos, invoices, grns, decisions);
    PoPassHasNoGhosts(pos, invoices, grns, decisions);
    InvoicePassKeepsGhostsAccounted(afterPos, invoices, pos, grns);
    GrnPassKeepsGhostsAccounted(InvoicePass(afterPos, invoices, pos, grns), grns, pos);
  }

  /** Stored decisions are attached only to results for stored orders, each
      under the order's own number; ghost and orphan entries carry none. */
  lemma DecisionsOnStoredOrdersOnly(pos: seq<PoDoc>, invoices: seq<InvoiceDoc>, grns: seq<GrnDoc>, decisions: DecisionTable)
    ensures forall r :: r in Reconcile(pos, invoices, grns, decisions) ==>
      if r.po.StoredPo? then Present(PoNumberOf(r.po.doc)) && r.decision == Lookup(decisions, PoNumberOf(r.po.doc).value)
      else r.decision.None?
  {
    var numbers := NumbersOf(pos);
    var excluded := numbers + InvoiceRefs(invoices);
    ReconcileStructure(pos, invoices, grns, decisions);
    forall r | r in Reconcile(pos, invoices, grns, decisions)
      ensures if r.po.StoredPo? then Present(PoNumberOf(r.po.doc)) && r.decision == Lookup(decisions, PoNumberOf(r.po.doc).value)
              else r.decision.None?
    {
      if r in PoPass(pos, invoices, grns, decisions).results {
        RealResultsHoldStoredReferences(pos, invoices, grns, decisions, r);
      } else if r in InvoiceEntries(invoices, numbers, grns) {
        InvoiceEntryHolds(invoices, numbers, grns, r);
      } else {
        GrnEntryHolds(grns, excluded, r);
      }
    }
  }

  /** After a successful save, the next reconciliation shows the new record
      on every result for a stored order with that number (and there is one
      when such an order exists), leaves every other stored order's decision
      as it was, and shows it on no ghost or orphan entry. */
  lemma SavedDecisionVisible(pos: seq<PoDoc>, invoices: seq<InvoiceDoc>, grns: seq<GrnDoc>, table: DecisionTable,
                             poNumber: string, decision: string, comment: string, timestamp: string, user: string)
    requires SaveDecision(table, poNumber, decision, comment, timestamp, user).reply.Success?
    ensures var saved := SaveDecision(table, poNumber, decision, comment, timestamp, user).table;
      var out := Reconcile(pos, invoices, grns, saved);
      && (forall r :: r in out && r.po.StoredPo? && PoNumberOf(r.po.doc) == Some(poNumber) ==>
            r.decision == Some(saved[poNumber]))
      && (forall r :: r in out && r.po.StoredPo? && PoNumberOf(r.po.doc).Some? && PoNumberOf(r.po.doc).value != poNumber ==>
            r.decision == Lookup(table, PoNumberOf(r.po.doc).value))
      && (forall r :: r in out && r.po.PoStub? ==> r.decision.None?)
      && (poNumber != "" && PoExists(pos, poNumber) ==> exists r :: r in out && r.decision == Some(saved[poNumber]))
  {
    var saved := SaveDecision(table, poNumber, decision, comment, timestamp, user).table;
    DecisionsOnStoredOrdersOnly(pos, invoices, grns, saved);
    if poNumber != "" && PoExists(pos, poNumber) {
      var j :| 0 <= j < |pos| && PoNumberOf(pos[j]) == Some(poNumber);
      RealResultReported(pos, invoices, grns, saved, j);
    }
  }

  /** Two invoices naming the same missing order: the ghost entry holds only
      the first, and the second appears nowhere. */
  lemma SecondGhostInvoiceDropped()
    ensures var first := InvoiceDoc(Some(Invoice("INV-1", Some("PO-9"), None, None)), "a.pdf");
      var second := InvoiceDoc(Some(Invoice("INV-2", Some("PO-9"), None, None)), "b.pdf");
      var out := Reconcile([], [first, second], [], map[]);
      && |out| == 1 && out[0].status == GhostPo && out[0].invoices == [first]
      && forall r :: r in out ==> second !in r.invoices
  {
    var first := InvoiceDoc(Some(Invoice("INV-1", Some("PO-9"), None, None)), "a.pdf");
    var second := InvoiceDoc(Some(Invoice("INV-2", Some("PO-9"), None, None)), "b.pdf");
    var invoices := [first, second];
    assert invoices[..1] == [first];
    assert !FirstInvoiceWith(invoices, 1) by {
      assert InvoiceRef(invoices[0]) == InvoiceRef(invoices[1]);
    }
    DroppedInvoiceAbsent([], invoices, [], map[], 1);
    ReconcileCount([], invoices, [], map[]);
    ReconcileStructure([], invoices, [], map[]);
    assert InvoiceRefs(invoices) == {"PO-9"};
  }

  /** Two goods receipts naming the same missing order that no invoice
      names: only the first is reported. */
  lemma SecondGhostGrnDropped()
    ensures var first := GrnDoc(Some(GoodsReceipt("GRN-1", Some("PO-7"), None)), "a.pdf");
      var second := GrnDoc(Some(GoodsReceipt("GRN-2", Some("PO-7"), None)), "b.pdf");
      var out := Reconcile([], [], [first, second], map[]);
      && |out| == 1 && out[0].status == GhostPo && out[0].goodsReceipts == [first]
      && forall r :: r in out ==> second !in r.goodsReceipts
  {
    var first := GrnDoc(Some(GoodsReceipt("GRN-1", Some("PO-7"), None)), "a.pdf");
    var second := GrnDoc(Some(GoodsReceipt("GRN-2", Some("PO-7"), None)), "b.pdf");
    var grns := [first, second];
    assert grns[..1] == [first];
    assert !FirstGrnWith(grns, 1) by {
      assert GrnRef(grns[0]) == GrnRef(grns[1]);
    }
    DroppedGrnAbsent([], [], grns, map[], 1);
    ReconcileCount([], [], grns, map[]);
    ReconcileStructure([], [], grns, map[]);
    assert GrnRefs(grns) == {"PO-7"};
  }

  /** The first invoice carrying a reference that no stored order holds
      claims that ghost number: a stub with vendor "Unknown", that one
      invoice, every goods receipt with the same reference, no decision. */
  lemma GhostClaimedByFirstInvoice(pos: seq<PoDoc>, invoices: seq<InvoiceDoc>, grns: seq<GrnDoc>,
                                   decisions: DecisionTable, i: nat)
    requires i < |invoices| && FirstInvoiceWith(invoices, i)
    requires Present(InvoiceRef(invoices[i])) && InvoiceRef(invoices[i]).value !in NumbersOf(pos)
    ensures var ref := InvoiceRef(invoices[i]).value;
      exists r :: r in Reconcile(pos, invoices, grns, decisions)
        && r.po == PoStub(ref, "Unknown") && r.status == GhostPo && r.decision.None?
        && r.invoices == [invoices[i]] && r.issues == [InvoiceGhostReference(ref)]
        && r.goodsReceipts == GrnsFor(grns, ref)
        && (forall g :: g in r.goodsReceipts <==> g in grns && GrnRef(g) == Some(ref))
  {
    var ref := InvoiceRef(invoices[i]).value;
    InvoiceGhostIncluded(pos, invoices, grns, decisions, i);
    var r := GhostFromInvoice(invoices[i], ref, grns);
    assert r.po == PoStub(ref, "Unknown") && r.invoices == [invoices[i]];
  }

  /** The ghost entry of the first invoice with an unclaimed reference is
      part of the output. */
  lemma InvoiceGhostIncluded(pos: seq<PoDoc>, invoices: seq<InvoiceDoc>, grns: seq<GrnDoc>,
                             decisions: DecisionTable, i: nat)
    requires i < |invoices| && FirstInvoiceWith(invoices, i)
    requires Present(InvoiceRef(invoices[i])) && InvoiceRef(invoices[i]).value !in NumbersOf(pos)
    ensures GhostFromInvoice(invoices[i], InvoiceRef(invoices[i]).value, grns) in Reconcile(pos, invoices, grns, decisions)
  {
    var numbers := NumbersOf(pos);
    var r := GhostFromInvoice(invoices[i], InvoiceRef(invoices[i]).value, grns);
    assert InvoiceEntry(invoices, i, numbers, grns) == [r];
    InvoiceEntryIncluded(invoices, i, numbers, grns);
    ReconcileStructure(pos, invoices, grns, decisions);
  }

  /** The first goods receipt carrying a reference that neither a stored
      order nor any invoice holds claims that ghost number, alone. */
  lemma GhostClaimedByFirstGrn(pos: seq<PoDoc>, invoices: seq<InvoiceDoc>, grns: seq<GrnDoc>,
                               decisions: DecisionTable, j: nat)
    requires j < |grns| && FirstGrnWith(grns, j)
    requires Present(GrnRef(grns[j]))
    requires GrnRef(grns[j]).value !in NumbersOf(pos) && GrnRef(grns[j]).value !in InvoiceRefs(invoices)
    ensures var ref := GrnRef(grns[j]).value;
      exists r :: r in Reconcile(pos, invoices, grns, decisions)
        && r.po == PoStub(ref, "Unknown") && r.status == GhostPo && r.decision.None?
        && r.invoices == [] && r.goodsReceipts == [grns[j]]
  {
    var excluded := NumbersOf(pos) + InvoiceRefs(invoices);
    ReconcileStructure(pos, invoices, grns, decisions);
    GrnEntryIncluded(grns, j, excluded);
    var r := GrnEntry(grns, j, excluded)[0];
    assert r in Reconcile(pos, invoices, grns, decisions);
  }

  /** An invoice without a reference that no other stored invoice is
      identical to is held by its orphan entry and by no other result. */
  lemma OrphanInvoiceAlone(pos: seq<PoDoc>, invoices: seq<InvoiceDoc>, grns: seq<GrnDoc>,
                           decisions: DecisionTable, i: nat)
    requires i < |invoices| && !Present(InvoiceRef(invoices[i]))
    requires forall k :: 0 <= k < |invoices| && k != i ==> invoices[k] != invoices[i]
    ensures forall r :: r in Reconcile(pos, invoices, grns, decisions) && invoices[i] in r.invoices ==>
      r == OrphanInvoice(invoices[i])
  {
    var numbers := NumbersOf(pos);
    var excluded := numbers + InvoiceRefs(invoices);
    ReconcileStructure(pos, invoices, grns, decisions);
    forall r | r in Reconcile(pos, invoices, grns, decisions) && invoices[i] in r.invoices
      ensures r == OrphanInvoice(invoices[i])
    {
      if r in PoPass(pos, invoices, grns, decisions).results {
        RealResultsHoldStoredReferences(pos, invoices, grns, decisions, r);
      } else if r in InvoiceEntries(invoices, numbers, grns) {
        InvoiceEntryHolds(invoices, numbers, grns, r);
      } else {
        GrnEntryHolds(grns, excluded, r);
      }
    }
  }

  /** An invoice without a reference gets an orphan entry keyed by its own
      number ("Unknown" when the invoice part is null), with its vendor name
      or "Unknown", no goods receipts and no decision; when no other stored
      invoice is identical to it, no other result holds it. */
  lemma OrphanInvoiceReported(pos: seq<PoDoc>, invoices: seq<InvoiceDoc>, grns: seq<GrnDoc>,
                              decisions: DecisionTable, i: nat)
    requires i < |invoices| && !Present(InvoiceRef(invoices[i]))
    ensures var d := invoices[i];
      exists r :: r in Reconcile(pos, invoices, grns, decisions)
        && r.po == PoStub(if d.invoice.Some? then d.invoice.value.invoiceNumber else "Unknown", VendorName(InvoiceVendor(d)))
        && r.status == OrphanedInvoice && r.invoices == [d] && r.goodsReceipts == [] && r.decision.None?
    ensures (forall k :: 0 <= k < |invoices| && k != i ==> invoices[k] != invoices[i]) ==>
      forall r :: r in Reconcile(pos, invoices, grns, decisions) && invoices[i] in r.invoices ==> r == OrphanInvoice(invoices[i])
  {
    var numbers := NumbersOf(pos);
    var r := OrphanInvoice(invoices[i]);
    assert InvoiceEntry(invoices, i, numbers, grns) == [r];
    InvoiceEntryIncluded(invoices, i, numbers, grns);
    ReconcileStructure(pos, invoices, grns, decisions);
    assert r in Reconcile(pos, invoices, grns, decisions);
    if forall k :: 0 <= k < |invoices| && k != i ==> invoices[k] != invoices[i] {
      OrphanInvoiceAlone(pos, invoices, grns, decisions, i);
    }
  }

  /** A goods receipt without a reference that no other stored receipt is
      identical to is held by its orphan entry and by no other result. */
  lemma OrphanGrnAlone(pos: seq<PoDoc>, invoices: seq<InvoiceDoc>, grns: seq<GrnDoc>,
                       decisions: DecisionTable, j: nat)
    requires j < |grns| && !Present(GrnRef(grns[j]))
    requires forall k :: 0 <= k < |grns| && k != j ==> grns[k] != grns[j]
    ensures forall r :: r in Reconcile(pos, invoices, grns, decisions) && grns[j] in r.goodsReceipts ==>
      r == OrphanGrn(grns[j])
  {
    var numbers := NumbersOf(pos);
    var excluded := numbers + InvoiceRefs(invoices);
    ReconcileStructure(pos, invoices, grns, decisions);
    forall r | r in Reconcile(pos, invoices, grns, decisions) && grns[j] in r.goodsReceipts
      ensures r == OrphanGrn(grns[j])
    {
      if r in PoPass(pos, invoices, grns, decisions).results {
        RealResultsHoldStoredReferences(pos, invoices, grns, decisions, r);
      } else if r in InvoiceEntries(invoices, numbers, grns) {
        InvoiceEntryHolds(invoices, numbers, grns, r);
      } else {
        GrnEntryHolds(grns, excluded, r);
      }
    }
  }

  /** A goods receipt without a reference gets an orphan entry keyed by its
      own number, with its vendor name or "Unknown", no invoices and no
      decision; when no other stored receipt is identical to it, no other
      result holds it. */
  lemma OrphanGrnReported(pos: seq<PoDoc>, invoices: seq<InvoiceDoc>, grns: seq<GrnDoc>,
                          decisions: DecisionTable, j: nat)
    requires j < |grns| && !Present(GrnRef(grns[j]))
    ensures var d := grns[j];
      exists r :: r in Reconcile(pos, invoices, grns, decisions)
        && r.po == PoStub(if d.goodsReceipt.Some? then d.goodsReceipt.value.grnNumber else "Unknown", VendorName(GrnVendor(d)))
        && r.status == OrphanedGrn && r.invoices == [] && r.goodsReceipts == [d] && r.decision.None?
    ensures (forall k :: 0 <= k < |grns| && k != j ==> grns[k] != grns[j]) ==>
      forall r :: r in Reconcile(pos, invoices, grns, decisions) && grns[j] in r.goodsReceipts ==> r == OrphanGrn(grns[j])
  {
    var excluded := NumbersOf(pos) + InvoiceRefs(invoices);
    var r := OrphanGrn(grns[j]);
    assert GrnEntry(grns, j, excluded) == [r];
    GrnEntryIncluded(grns, j, excluded);
    ReconcileStructure(pos, invoices, grns, decisions);
    assert r in Reconcile(pos, invoices, grns, decisions);
    if forall k :: 0 <= k < |grns| && k != j ==> grns[k] != grns[j] {
      OrphanGrnAlone(pos, invoices, grns, decisions, j);
    }
  }
}
