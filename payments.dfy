/**
 * Payments: the payment status machine (draft, submitted, approved or rejected, posted, voided),
 * the allocation totals of a payment, and the checks on standard invoice payments and on the
 * allocation of a payment to an invoice. Amounts are in cents.
 */
module Payments {
  import opened Common

  datatype Status = Draft | PendingApproval | Approved | Rejected | Voided

  // ---------------------------------------------------------------------------------------
  // The guards of the workflow, on the status and the posted flag.

  predicate CanSubmit(s: Status, posted: bool) { s == Draft && !posted }
  predicate CanApprove(s: Status, posted: bool) { s == PendingApproval && !posted }
  predicate CanReject(s: Status, posted: bool) { s == PendingApproval && !posted }
  predicate CanRevert(s: Status, posted: bool) { (s == Rejected || s == PendingApproval) && !posted }
  predicate CanPost(s: Status, posted: bool) { s == Approved && !posted }
  predicate CanVoid(s: Status, posted: bool) { posted && s == Approved }
  predicate CanModify(s: Status, posted: bool) { !posted && (s == Draft || s == Rejected) }
  predicate CanDelete(s: Status, posted: bool) { !posted && s == Draft }

  /** Whatever may be deleted may be modified, and only an unposted payment is either. */
  lemma DeleteImpliesModify(s: Status, posted: bool)
    ensures CanDelete(s, posted) ==> CanModify(s, posted)
    ensures posted ==> !CanModify(s, posted) && !CanDelete(s, posted)
    ensures CanModify(s, posted) && !CanDelete(s, posted) <==> s == Rejected && !posted
  {
  }

  /** At most one of post and void applies, and neither to a voided payment. */
  lemma PostVoidExclusive(s: Status, posted: bool)
    ensures !(CanPost(s, posted) && CanVoid(s, posted))
    ensures s == Voided ==> (
      && !CanSubmit(s, posted) && !CanApprove(s, posted) && !CanReject(s, posted)
      && !CanRevert(s, posted) && !CanPost(s, posted) && !CanVoid(s, posted)
      && !CanModify(s, posted) && !CanDelete(s, posted))
  {
  }

  // ---------------------------------------------------------------------------------------
  // Allocations.

  /** A payment allocation to one invoice; discount and write-off are optional. */
  datatype Allocation = Allocation(invoice: nat, allocatedAmount: int, discount: Option<int>, writeOff: Option<int>)

  function OrZero(x: Option<int>): int
  {
    if x.Some? then x.value else 0
  }

  /** PaymentAllocation.total_settlement: what the allocation settles of the invoice. */
  function TotalSettlement(a: Allocation): (t: int)
    ensures t - a.allocatedAmount == OrZero(a.discount) + OrZero(a.writeOff)
    ensures OrZero(a.discount) >= 0 && OrZero(a.writeOff) >= 0 ==> t >= a.allocatedAmount
  {
    var t := a.allocatedAmount;
    var t := if a.discount.Some? && a.discount.value != 0 then t + a.discount.value else t;
    if a.writeOff.Some? && a.writeOff.value != 0 then t + a.writeOff.value else t
  }

  function AllocatedAmounts(allocs: seq<Allocation>): (r: seq<int>)
    ensures |r| == |allocs| && forall i :: 0 <= i < |allocs| ==> r[i] == allocs[i].allocatedAmount
  {
    seq(|allocs|, i requires 0 <= i < |allocs| => allocs[i].allocatedAmount)
  }

  /** get_total_allocated: the sum of the allocated amounts, 0 when there are none. */
  function TotalAllocated(allocs: seq<Allocation>): int
  {
    Sum(AllocatedAmounts(allocs))
  }

  /** get_unallocated_amount. */
  function Unallocated(amount: int, allocs: seq<Allocation>): int
  {
    amount - TotalAllocated(allocs)
  }

  /** is_fully_allocated. */
  predicate FullyAllocated(amount: int, allocs: seq<Allocation>)
  {
    Unallocated(amount, allocs) <= 0
  }

  /** A payment is fully allocated exactly when its allocations cover its amount. */
  lemma FullyAllocatedMeans(amount: int, allocs: seq<Allocation>)
    ensures FullyAllocated(amount, allocs) <==> TotalAllocated(allocs) >= amount
    ensures allocs == [] ==> Unallocated(amount, allocs) == amount
  {
  }

  /** A new allocation lowers the unallocated amount by exactly its allocated amount. */
  lemma AllocateLowersUnallocated(amount: int, allocs: seq<Allocation>, a: Allocation)
    ensures Unallocated(amount, allocs + [a]) == Unallocated(amount, allocs) - a.allocatedAmount
  {
    assert AllocatedAmounts(allocs + [a]) == AllocatedAmounts(allocs) + [a.allocatedAmount];
    SumAppend(AllocatedAmounts(allocs), a.allocatedAmount);
  }

  /** With positive allocations, every allocation only brings the payment closer to fully allocated. */
  lemma {:induction false} TotalAllocatedPositive(allocs: seq<Allocation>)
    requires forall i :: 0 <= i < |allocs| ==> allocs[i].allocatedAmount > 0
    ensures TotalAllocated(allocs) >= |allocs|
  {
    if allocs != [] {
      var init := allocs[..|allocs| - 1];
      TotalAllocatedPositive(init);
      assert allocs == init + [allocs[|allocs| - 1]];
      AllocateLowersUnallocated(0, init, allocs[|allocs| - 1]);
    }
  }

  // ---------------------------------------------------------------------------------------
  // Standard invoice payments and allocation checks.

  datatype Direction = Incoming | Outgoing
  datatype PartnerType = CustomerPartner | SupplierPartner | OtherPartner
  datatype InvoiceKind = ArInvoice | ApInvoice | PlainInvoice

  datatype DirectionError = CustomerNotIncoming | SupplierNotOutgoing

  /** StandardInvoicePayment.clean: customer payments are incoming, supplier payments outgoing. */
  function CheckDirection(partner: PartnerType, d: Direction): (r: Result<(), DirectionError>)
    ensures r.Success? <==> (partner == CustomerPartner ==> d == Incoming) && (partner == SupplierPartner ==> d == Outgoing)
    ensures partner == OtherPartner ==> r.Success?
  {
    if partner == CustomerPartner && d != Incoming then Failure(CustomerNotIncoming)
    else if partner == SupplierPartner && d != Outgoing then Failure(SupplierNotOutgoing)
    else Success(())
  }

  datatype AllocationError = NotPositive | NeedsArInvoice | NeedsApInvoice | ExceedsBalance(settlement: int, balance: int)

  /** The balance an allocation may settle: the invoice's balance due plus its own previous settlement when it is being updated. */
  function AvailableBalance(balanceDue: int, previous: Option<Allocation>): int
  {
    if previous.Some? then balanceDue + TotalSettlement(previous.value) else balanceDue
  }

  /**
   * PaymentAllocation.clean: a positive allocated amount; an incoming payment settles AR invoices
   * and an outgoing one AP invoices (no check without a direction); the total settlement may not
   * exceed the invoice's balance due, to which an update adds back the allocation's stored settlement.
   */
  function CleanAllocation(a: Allocation, direction: Option<Direction>, kind: InvoiceKind,
                           balanceDue: int, previous: Option<Allocation>): (r: Result<(), AllocationError>)
    ensures r.Success? <==>
      && a.allocatedAmount > 0
      && (direction == Some(Incoming) ==> kind == ArInvoice)
      && (direction == Some(Outgoing) ==> kind == ApInvoice)
      && TotalSettlement(a) <= AvailableBalance(balanceDue, previous)
    ensures a.allocatedAmount <= 0 <==> r == Failure(NotPositive)
  {
    if a.allocatedAmount <= 0 then Failure(NotPositive)
    else if direction.Some? && direction.value == Incoming && kind != ArInvoice then Failure(NeedsArInvoice)
    else if direction.Some? && direction.value == Outgoing && kind != ApInvoice then Failure(NeedsApInvoice)
    else
      var balance := AvailableBalance(balanceDue, previous);
      if TotalSettlement(a) > balance then Failure(ExceedsBalance(TotalSettlement(a), balance))
      else Success(())
  }

  /** Re-saving an allocation unchanged passes the balance check whatever the invoice's remaining balance. */
  lemma ResaveUnchanged(a: Allocation, direction: Option<Direction>, kind: InvoiceKind, balanceDue: int)
    requires a.allocatedAmount > 0 && balanceDue >= 0
    requires (direction == Some(Incoming) ==> kind == ArInvoice) && (direction == Some(Outgoing) ==> kind == ApInvoice)
    ensures CleanAllocation(a, direction, kind, balanceDue, Some(a)).Success?
  {
  }

  /** An accepted new allocation never settles more than the invoice's balance, so the balance stays non-negative. */
  lemma NewAllocationWithinBalance(a: Allocation, direction: Option<Direction>, kind: InvoiceKind, balanceDue: int)
    requires CleanAllocation(a, direction, kind, balanceDue, None).Success?
    ensures balanceDue - TotalSettlement(a) >= 0
    ensures OrZero(a.discount) >= 0 && OrZero(a.writeOff) >= 0 ==> a.allocatedAmount <= balanceDue
  {
  }

  // ---------------------------------------------------------------------------------------
  // The payment.

  datatype PaymentError =
    | CannotSubmit(status: Status)
    | Incomplete(amountMissing: bool, dateMissing: bool, noAllocations: bool)
    | CannotApprove(status: Status) | CannotReject(status: Status) | ReasonRequired
    | CannotRevert | RevertPosted
    | NotApproved | AlreadyPosted | AmountNotPositive
    | CannotVoid

  class Payment {
    var amount: int
    var date: Option<int>
    var exchangeRate: Option<int>
    var status: Status
    var rejectionReason: Option<string>
    var isPosted: bool
    var postedDate: Option<int>
    var allocations: seq<Allocation>

    /**
     * The states the workflow keeps: only approved or voided payments are posted, a voided
     * payment was posted, a rejection reason is kept exactly while rejected, and a posted
     * payment has a posting date.
     */
    predicate Valid()
      reads this
    {
      && (isPosted ==> status == Approved || status == Voided)
      && (status == Voided ==> isPosted)
      && (rejectionReason.Some? <==> status == Rejected)
      && (isPosted <==> postedDate.Some?)
    }

    /** A new draft payment, as the manager's create makes it by default. */
    constructor (amount: int, date: Option<int>)
      ensures Valid()
      ensures this.amount == amount && this.date == date && exchangeRate.None? && status == Draft && !isPosted && allocations == []
    {
      this.amount, this.date, exchangeRate := amount, date, None;
      status, rejectionReason, isPosted, postedDate, allocations := Draft, None, false, None, [];
    }

    /**
     * submit_for_approval: from an unposted draft, and only with a positive amount, a date and at
     * least one allocation (every missing one is reported); the payment becomes pending approval.
     */
    method SubmitForApproval() returns (r: Result<(), PaymentError>)
      requires Valid()
      modifies this
      ensures Valid()
      ensures r.Success? <==> CanSubmit(old(status), old(isPosted)) && old(amount) > 0 && old(date).Some? && old(allocations) != []
      ensures r.Success? ==> status == PendingApproval
      ensures r.Failure? ==> status == old(status)
      ensures CanSubmit(old(status), old(isPosted)) && r.Failure? ==>
        r == Failure(Incomplete(old(amount) <= 0, old(date).None?, old(allocations) == []))
      ensures isPosted == old(isPosted) && postedDate == old(postedDate) && rejectionReason == old(rejectionReason)
      ensures amount == old(amount) && date == old(date) && exchangeRate == old(exchangeRate) && allocations == old(allocations)
    {
      if !CanSubmit(status, isPosted) { return Failure(CannotSubmit(status)); }
      var amountMissing := amount <= 0;
      var dateMissing := date.None?;
      var noAllocations := allocations == [];
      if amountMissing || dateMissing || noAllocations {
        return Failure(Incomplete(amountMissing, dateMissing, noAllocations));
      }
      status := PendingApproval;
      r := Success(());
    }

    /** approve: from pending approval, unposted. */
    method Approve() returns (r: Result<(), PaymentError>)
      requires Valid()
      modifies this
      ensures Valid()
      ensures r.Success? <==> CanApprove(old(status), old(isPosted))
      ensures status == (if r.Success? then Approved else old(status))
      ensures isPosted == old(isPosted) && postedDate == old(postedDate) && rejectionReason == old(rejectionReason)
      ensures amount == old(amount) && date == old(date) && exchangeRate == old(exchangeRate) && allocations == old(allocations)
    {
      if !CanApprove(status, isPosted) { return Failure(CannotApprove(status)); }
      status := Approved;
      r := Success(());
    }

    /** reject: from pending approval, unposted, with a non-empty reason that is kept. */
    method Reject(reason: Option<string>) returns (r: Result<(), PaymentError>)
      requires Valid()
      modifies this
      ensures Valid()
      ensures r.Success? <==> CanReject(old(status), old(isPosted)) && reason.Some? && reason.value != []
      ensures r.Success? ==> status == Rejected && rejectionReason == reason
      ensures r.Failure? ==> status == old(status) && rejectionReason == old(rejectionReason)
      ensures CanReject(old(status), old(isPosted)) && (reason.None? || reason.value == []) ==> r == Failure(ReasonRequired)
      ensures isPosted == old(isPosted) && postedDate == old(postedDate)
      ensures amount == old(amount) && date == old(date) && exchangeRate == old(exchangeRate) && allocations == old(allocations)
    {
      if !CanReject(status, isPosted) { return Failure(CannotReject(status)); }
      if reason.None? || reason.value == [] { return Failure(ReasonRequired); }
      status, rejectionReason := Rejected, reason;
      r := Success(());
    }

    /** revert_to_draft: from rejected or pending approval, unposted; the rejection reason is cleared. */
    method RevertToDraft() returns (r: Result<(), PaymentError>)
      requires Valid()
      modifies this
      ensures Valid()
      ensures r.Success? <==> CanRevert(old(status), old(isPosted))
      ensures r.Success? ==> status == Draft && rejectionReason.None?
      ensures r.Failure? ==> status == old(status) && rejectionReason == old(rejectionReason)
      ensures isPosted == old(isPosted) && postedDate == old(postedDate)
      ensures amount == old(amount) && date == old(date) && exchangeRate == old(exchangeRate) && allocations == old(allocations)
    {
      if !(status == Rejected || status == PendingApproval) { return Failure(CannotRevert); }
      if isPosted { return Failure(RevertPosted); }
      status, rejectionReason := Draft, None;
      r := Success(());
    }

    /**
     * post: an approved, unposted payment with a positive amount is marked posted on `today`.
     * The GL entry the base class creates is none, and the payment statuses of the allocated
     * invoices are updated elsewhere.
     */
    method Post(today: int) returns (r: Result<(), PaymentError>)
      requires Valid()
      modifies this
      ensures Valid()
      ensures r.Success? <==> CanPost(old(status), old(isPosted)) && old(amount) > 0
      ensures r.Success? ==> isPosted && postedDate == Some(today)
      ensures r.Failure? ==> isPosted == old(isPosted) && postedDate == old(postedDate)
      ensures old(status) != Approved ==> r == Failure(NotApproved)
      ensures status == old(status) && rejectionReason == old(rejectionReason)
      ensures amount == old(amount) && date == old(date) && exchangeRate == old(exchangeRate) && allocations == old(allocations)
    {
      if status != Approved { return Failure(NotApproved); }
      if isPosted { return Failure(AlreadyPosted); }
      if amount <= 0 { return Failure(AmountNotPositive); }
      isPosted, postedDate := true, Some(today);
      r := Success(());
    }

    /** void: a posted, approved payment becomes voided and stays posted. */
    method Void() returns (r: Result<(), PaymentError>)
      requires Valid()
      modifies this
      ensures Valid()
      ensures r.Success? <==> CanVoid(old(status), old(isPosted))
      ensures status == (if r.Success? then Voided else old(status))
      ensures isPosted == old(isPosted) && postedDate == old(postedDate) && rejectionReason == old(rejectionReason)
      ensures amount == old(amount) && date == old(date) && exchangeRate == old(exchangeRate) && allocations == old(allocations)
    {
      if !CanVoid(status, isPosted) { return Failure(CannotVoid); }
      status := Voided;
      r := Success(());
    }

    /** get_unallocated_amount of this payment. */
    function UnallocatedAmount(): (u: int)
      reads this
      ensures u + TotalAllocated(allocations) == amount
    {
      Unallocated(amount, allocations)
    }
  }
}
