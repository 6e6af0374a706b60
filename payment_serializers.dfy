/**
 * The payment serializers: validation of a payment create request (allocations and the nested
 * GL entry), of a payment plan and its installments, of the manual plan status and installment
 * updates, and the field update of a payment.
 *
 * Payment, allocation and installment amounts are in cents; GL line amounts use the journal
 * scale of the invoice serializers (units of 0.00001), whose validate_lines rule this serializer
 * repeats word for word and which is therefore used here unchanged.
 */
module PaymentSerializers {
  import opened Common
  import Payments
  import InvoiceSerializers

  // ---------------------------------------------------------------------------------------
  // Duplicate detection: Python's `len(xs) != len(set(xs))`.

  /** The set of the values of a list, as Python's `set(xs)`. */
  function Elements(xs: seq<int>): (r: set<int>)
    ensures forall x :: x in r <==> x in xs
  {
    if xs == [] then {} else Elements(xs[..|xs| - 1]) + {xs[|xs| - 1]}
  }

  predicate Distinct(xs: seq<int>)
  {
    forall i, j :: 0 <= i < j < |xs| ==> xs[i] != xs[j]
  }

  /** Appending a value keeps a list distinct exactly when the value is new. */
  lemma DistinctSnoc(init: seq<int>, last: int)
    ensures Distinct(init + [last]) <==> Distinct(init) && last !in init
  {
    var xs := init + [last];
    if Distinct(init) && last !in init {
      forall i, j | 0 <= i < j < |xs| ensures xs[i] != xs[j] {
        if j == |xs| - 1 {
          assert xs[i] == init[i];
        } else {
          assert xs[i] == init[i] && xs[j] == init[j];
        }
      }
    }
    if Distinct(xs) {
      forall i, j | 0 <= i < j < |init| ensures init[i] != init[j] {
        assert xs[i] == init[i] && xs[j] == init[j];
      }
    }
    if last in init {
      var i :| 0 <= i < |init| && init[i] == last;
      assert xs[i] == xs[|xs| - 1];
    }
  }

  /** A list has as many distinct values as elements exactly when no value repeats. */
  lemma {:induction false} DistinctIffNoCollapse(xs: seq<int>)
    ensures |Elements(xs)| <= |xs|
    ensures Distinct(xs) <==> |Elements(xs)| == |xs|
  {
    if xs != [] {
      var init, last := xs[..|xs| - 1], xs[|xs| - 1];
      DistinctIffNoCollapse(init);
      assert xs == init + [last];
      DistinctSnoc(init, last);
      assert Elements(xs) == Elements(init) + {last};
      assert last in Elements(init) <==> last in init;
    }
  }

  /** The numbers 1 to n, as Python's `range(1, n + 1)`. */
  function OneTo(n: nat): (r: set<int>)
    ensures forall k :: k in r <==> 1 <= k <= n
    ensures |r| == n
  {
    if n == 0 then {} else OneTo(n - 1) + {n}
  }

  /** A subset of a finite set that is as large as the set is the set itself. */
  lemma SubsetOfSameSize(a: set<int>, b: set<int>)
    requires a <= b && |a| == |b|
    ensures a == b
  {
    assert a * b == a;
    assert |b - a| == |b| - |b * a|;
    assert b * a == a;
  }

  // ---------------------------------------------------------------------------------------
  // Payment create.

  datatype AllocationInput = AllocationInput(invoice: nat, amount: int)

  /** What the payment check reads of an invoice. */
  datatype InvoiceRef = InvoiceRef(partner: nat, currency: nat)

  datatype GlEntryInput = GlEntryInput(currency: nat, lines: seq<InvoiceSerializers.JournalLine>)

  datatype PaymentRequest = PaymentRequest(
    partner: nat,
    currency: nat,
    allocations: seq<AllocationInput>,
    glEntry: Option<GlEntryInput>)

  datatype CreateError =
    | UnknownPartner | UnknownCurrency
    | UnknownInvoice(invoice: nat) | AllocationTooSmall(invoice: nat)
    | DuplicateInvoice
    | InvalidGlEntry(error: InvoiceSerializers.LinesError)
    | OtherPartner(invoice: nat) | OtherCurrency(invoice: nat)
    | GlCurrencyMismatch

  function InvoiceIds(allocs: seq<AllocationInput>): (r: seq<int>)
    ensures |r| == |allocs| && forall i :: 0 <= i < |allocs| ==> r[i] == allocs[i].invoice
  {
    seq(|allocs|, i requires 0 <= i < |allocs| => allocs[i].invoice)
  }

  /** The field checks of one allocation: the invoice exists and at least 0.01 is allocated. */
  predicate AllocationFieldsOk(a: AllocationInput, invoices: map<nat, InvoiceRef>)
  {
    a.invoice in invoices && a.amount >= 1
  }

  /** The field checks of the nested GL entry: non-negative amounts, segments on every line, balanced. */
  predicate GlEntryOk(g: GlEntryInput)
  {
    InvoiceSerializers.ValidateEntry(g.lines).Success?
  }

  /**
   * What a payment create request must satisfy: known partner and currency, allocations to
   * distinct existing invoices of at least 0.01, each invoice of the payment's partner and
   * currency, and a GL entry (when given) that is well formed and in the payment's currency.
   */
  predicate RequestValid(req: PaymentRequest, partners: set<nat>, currencies: set<nat>, invoices: map<nat, InvoiceRef>)
  {
    && req.partner in partners
    && req.currency in currencies
    && (forall i :: 0 <= i < |req.allocations| ==> AllocationFieldsOk(req.allocations[i], invoices))
    && (forall i, j :: 0 <= i < j < |req.allocations| ==> req.allocations[i].invoice != req.allocations[j].invoice)
    && (req.glEntry.Some? ==> GlEntryOk(req.glEntry.value) && req.glEntry.value.currency == req.currency)
    && (forall i :: 0 <= i < |req.allocations| ==>
          req.allocations[i].invoice in invoices &&
          invoices[req.allocations[i].invoice] == InvoiceRef(req.partner, req.currency))
  }

  function FirstBadAllocation(allocs: seq<AllocationInput>, invoices: map<nat, InvoiceRef>): (r: Option<nat>)
    ensures r.None? <==> forall i :: 0 <= i < |allocs| ==> AllocationFieldsOk(allocs[i], invoices)
    ensures r.Some? ==> r.value < |allocs| && !AllocationFieldsOk(allocs[r.value], invoices)
  {
    if allocs == [] then None
    else if !AllocationFieldsOk(allocs[0], invoices) then Some(0)
    else
      var rest := FirstBadAllocation(allocs[1..], invoices);
      if rest.Some? then Some(rest.value + 1) else None
  }

  function FirstForeignInvoice(allocs: seq<AllocationInput>, invoices: map<nat, InvoiceRef>, partner: nat, currency: nat): (r: Option<nat>)
    requires forall i :: 0 <= i < |allocs| ==> allocs[i].invoice in invoices
    ensures r.None? <==> forall i :: 0 <= i < |allocs| ==> invoices[allocs[i].invoice] == InvoiceRef(partner, currency)
    ensures r.Some? ==> r.value < |allocs| && invoices[allocs[r.value].invoice] != InvoiceRef(partner, currency)
  {
    if allocs == [] then None
    else if invoices[allocs[0].invoice] != InvoiceRef(partner, currency) then Some(0)
    else
      var rest := FirstForeignInvoice(allocs[1..], invoices, partner, currency);
      if rest.Some? then Some(rest.value + 1) else None
  }

  /** validate_allocations: no invoice is named twice, compared by the number of distinct ids. */
  function NoRepeatedInvoice(allocs: seq<AllocationInput>): (b: bool)
    ensures b <==> forall i, j :: 0 <= i < j < |allocs| ==> allocs[i].invoice != allocs[j].invoice
  {
    var ids := InvoiceIds(allocs);
    DistinctIffNoCollapse(ids);
    assert Distinct(ids) <==> forall i, j :: 0 <= i < j < |allocs| ==> allocs[i].invoice != allocs[j].invoice;
    |Elements(ids)| == |ids|
  }

  /** The nested GL entry goes through the journal entry serializer; its refusal is reported as an invalid GL entry. */
  function CheckGlEntry(g: GlEntryInput): (r: Result<(), CreateError>)
    ensures r.Success? <==> GlEntryOk(g)
    ensures r.Success? ==> forall i :: 0 <= i < |g.lines| ==> g.lines[i].amount >= 0
  {
    var e := InvoiceSerializers.ValidateEntry(g.lines);
    if e.Failure? then Failure(InvalidGlEntry(e.error)) else Success(())
  }

  /**
   * PaymentCreateSerializer's validation: the field validators (partner, currency, each
   * allocation, validate_allocations, the nested GL entry) and then validate, which compares
   * every allocated invoice with the payment and the GL entry's currency with the payment's.
   */
  function ValidateCreate(req: PaymentRequest, partners: set<nat>, currencies: set<nat>, invoices: map<nat, InvoiceRef>): (r: Result<PaymentRequest, CreateError>)
    ensures r.Success? <==> RequestValid(req, partners, currencies, invoices)
    ensures r.Success? ==> r.value == req
  {
    if req.partner !in partners then Failure(UnknownPartner)
    else if req.currency !in currencies then Failure(UnknownCurrency)
    else
      var bad := FirstBadAllocation(req.allocations, invoices);
      if bad.Some? then
        var a := req.allocations[bad.value];
        if a.invoice !in invoices then Failure(UnknownInvoice(a.invoice)) else Failure(AllocationTooSmall(a.invoice))
      else if !NoRepeatedInvoice(req.allocations) then Failure(DuplicateInvoice)
      else if req.glEntry.Some? && CheckGlEntry(req.glEntry.value).Failure? then Failure(CheckGlEntry(req.glEntry.value).error)
      else
        var foreign := FirstForeignInvoice(req.allocations, invoices, req.partner, req.currency);
        if foreign.Some? then
          var inv := req.allocations[foreign.value].invoice;
          if invoices[inv].partner != req.partner then Failure(OtherPartner(inv)) else Failure(OtherCurrency(inv))
        else if req.glEntry.Some? && req.glEntry.value.currency != req.currency then Failure(GlCurrencyMismatch)
        else Success(req)
  }

  // ---------------------------------------------------------------------------------------
  // Payment plans.

  datatype InstallmentInput = InstallmentInput(number: int, dueDate: int, amount: int)

  /** The largest accepted difference between the installments and the plan total: 0.01. */
  const PlanTolerance := 1

  datatype PlanError =
    | TotalTooSmall | NumberTooSmall | AmountTooSmall
    | NoInstallments | DuplicateNumbers | NotSequential
    | SumMismatch(installments: int, total: int)
    | StatusNotManual | InstallmentPaid

  function Numbers(xs: seq<InstallmentInput>): (r: seq<int>)
    ensures |r| == |xs| && forall i :: 0 <= i < |xs| ==> r[i] == xs[i].number
  {
    seq(|xs|, i requires 0 <= i < |xs| => xs[i].number)
  }

  function InstallmentAmounts(xs: seq<InstallmentInput>): (r: seq<int>)
    ensures |r| == |xs| && forall i :: 0 <= i < |xs| ==> r[i] == xs[i].amount
  {
    seq(|xs|, i requires 0 <= i < |xs| => xs[i].amount)
  }

  /**
   * PaymentPlanCreateSerializer.validate_installments: at least one installment, no repeated
   * number, and the sorted numbers equal 1..n. For a list without repeats the sorted list equals
   * 1..n exactly when its set of numbers is {1..n}, which is what is compared here.
   */
  function ValidateInstallments(xs: seq<InstallmentInput>): (r: Result<seq<InstallmentInput>, PlanError>)
    ensures xs == [] <==> r == Failure(NoInstallments)
    ensures r.Success? ==> r.value == xs
  {
    var ns := Numbers(xs);
    if xs == [] then Failure(NoInstallments)
    else if |Elements(ns)| != |ns| then Failure(DuplicateNumbers)
    else if Elements(ns) != OneTo(|ns|) then Failure(NotSequential)
    else Success(xs)
  }

  /** Numbers 1 to n without repeats are accepted: n distinct numbers in 1..n are all of 1..n. */
  lemma NumberedOneToNAccepted(xs: seq<InstallmentInput>)
    requires xs != []
    requires forall i, j :: 0 <= i < j < |xs| ==> xs[i].number != xs[j].number
    requires forall i :: 0 <= i < |xs| ==> 1 <= xs[i].number <= |xs|
    ensures ValidateInstallments(xs).Success?
  {
    var ns := Numbers(xs);
    DistinctIffNoCollapse(ns);
    assert Elements(ns) <= OneTo(|ns|);
    SubsetOfSameSize(Elements(ns), OneTo(|ns|));
  }

  /** Accepted installments carry each of the numbers 1 to n exactly once. */
  lemma AcceptedAreNumberedOneToN(xs: seq<InstallmentInput>)
    requires ValidateInstallments(xs).Success?
    ensures forall i, j :: 0 <= i < j < |xs| ==> xs[i].number != xs[j].number
    ensures forall i :: 0 <= i < |xs| ==> 1 <= xs[i].number <= |xs|
    ensures forall k :: 1 <= k <= |xs| ==> k in Numbers(xs)
  {
    var ns := Numbers(xs);
    DistinctIffNoCollapse(ns);
    assert Elements(ns) == OneTo(|ns|);
    forall i | 0 <= i < |xs| ensures 1 <= xs[i].number <= |xs| {
      assert ns[i] in Elements(ns);
    }
  }

  /**
   * The installments are accepted exactly when they are numbered 1 to n, each number once:
   * no number repeats and every number lies between 1 and the count of installments.
   */
  lemma InstallmentNumbering(xs: seq<InstallmentInput>)
    ensures ValidateInstallments(xs).Success? <==>
      && xs != []
      && (forall i, j :: 0 <= i < j < |xs| ==> xs[i].number != xs[j].number)
      && (forall i :: 0 <= i < |xs| ==> 1 <= xs[i].number <= |xs|)
  {
    if ValidateInstallments(xs).Success? {
      AcceptedAreNumberedOneToN(xs);
    } else if xs != [] && (forall i, j :: 0 <= i < j < |xs| ==> xs[i].number != xs[j].number)
                       && (forall i :: 0 <= i < |xs| ==> 1 <= xs[i].number <= |xs|) {
      NumberedOneToNAccepted(xs);
    }
  }

  /** Everything PaymentPlanCreateSerializer demands of a plan. */
  predicate PlanValid(total: int, xs: seq<InstallmentInput>)
  {
    && total >= 1
    && (forall i :: 0 <= i < |xs| ==> xs[i].number >= 1 && xs[i].amount >= 1)
    && ValidateInstallments(xs).Success?
    && Abs(Sum(InstallmentAmounts(xs)) - total) <= PlanTolerance
  }

  /**
   * The plan create validation: the field minimums (total and amounts at least 0.01, numbers at
   * least 1), validate_installments, then validate, which compares the sum of the installment
   * amounts with the total within 0.01.
   */
  function ValidatePlan(total: int, xs: seq<InstallmentInput>): (r: Result<seq<InstallmentInput>, PlanError>)
    ensures r.Success? <==> PlanValid(total, xs)
    ensures r.Success? ==> r.value == xs
  {
    if total < 1 then Failure(TotalTooSmall)
    else if exists i :: 0 <= i < |xs| && xs[i].number < 1 then Failure(NumberTooSmall)
    else if exists i :: 0 <= i < |xs| && xs[i].amount < 1 then Failure(AmountTooSmall)
    else
      var v := ValidateInstallments(xs);
      if v.Failure? then v
      else
        var sum := Sum(InstallmentAmounts(xs));
        if Abs(sum - total) > PlanTolerance then Failure(SumMismatch(sum, total))
        else Success(xs)
  }

  lemma {:induction false} SumAtLeastCount(ys: seq<int>)
    requires forall i :: 0 <= i < |ys| ==> ys[i] >= 1
    ensures Sum(ys) >= |ys|
  {
    if ys != [] {
      SumAtLeastCount(ys[..|ys| - 1]);
    }
  }

  /**
   * An accepted plan has installments numbered 1 to n, and no more of them than its total
   * in cents plus one, since each installment is at least 0.01.
   */
  lemma AcceptedPlanShape(total: int, xs: seq<InstallmentInput>)
    requires ValidatePlan(total, xs).Success?
    ensures |xs| <= total + PlanTolerance
    ensures forall i :: 0 <= i < |xs| ==> 1 <= xs[i].number <= |xs|
  {
    AcceptedAreNumberedOneToN(xs);
    SumAtLeastCount(InstallmentAmounts(xs));
  }

  datatype PlanStatus = PlanPending | Partial | Paid | Overdue | PlanCancelled

  /** PaymentPlanUpdateSerializer.validate_status: a plan status is set by hand only to cancelled. */
  function ValidatePlanStatus(s: PlanStatus): (r: Result<PlanStatus, PlanError>)
    ensures r.Success? <==> s == PlanCancelled
    ensures r.Success? ==> r.value == s
  {
    if s == PlanCancelled then Success(s) else Failure(StatusNotManual)
  }

  /**
   * InstallmentUpdateSerializer.validate: an installment that has received any payment cannot
   * be modified; without an instance (no installment being updated) there is nothing to check.
   */
  function ValidateInstallmentUpdate(paidAmount: Option<int>): (r: Result<(), PlanError>)
    ensures r.Success? <==> paidAmount.None? || paidAmount.value <= 0
  {
    if paidAmount.Some? && paidAmount.value > 0 then Failure(InstallmentPaid) else Success(())
  }

  // ---------------------------------------------------------------------------------------
  // Payment update.

  /**
   * The validated fields of PaymentUpdateSerializer; an absent field is None. The exchange rate
   * and the rejection reason may be given as null, hence the nested Option.
   */
  datatype PaymentUpdate = PaymentUpdate(
    date: Option<int>,
    exchangeRate: Option<Option<int>>,
    status: Option<Payments.Status>,
    rejectionReason: Option<Option<string>>)

  /**
   * PaymentUpdateSerializer.update: every supplied field replaces the stored one and every
   * field not supplied keeps its value. The status choices of the serializer exclude VOIDED.
   * The update goes around the workflow methods, so it does not keep Payment.Valid().
   */
  method UpdatePayment(p: Payments.Payment, d: PaymentUpdate)
    requires d.status != Some(Payments.Voided)
    modifies p
    ensures p.date == (if d.date.Some? then Some(d.date.value) else old(p.date))
    ensures p.exchangeRate == (if d.exchangeRate.Some? then d.exchangeRate.value else old(p.exchangeRate))
    ensures p.status == (if d.status.Some? then d.status.value else old(p.status))
    ensures p.rejectionReason == (if d.rejectionReason.Some? then d.rejectionReason.value else old(p.rejectionReason))
    ensures p.amount == old(p.amount) && p.isPosted == old(p.isPosted) && p.postedDate == old(p.postedDate)
    ensures p.allocations == old(p.allocations)
  {
    if d.date.Some? { p.date := Some(d.date.value); }
    if d.exchangeRate.Some? { p.exchangeRate := d.exchangeRate.value; }
    if d.status.Some? { p.status := d.status.value; }
    if d.rejectionReason.Some? { p.rejectionReason := d.rejectionReason.value; }
  }
}
