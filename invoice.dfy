/**
 * The invoice serializers: validation of the nested journal entry and items of an AP, AR or
 * one-time-supplier invoice, and the update of a DRAFT invoice that recomputes its totals.
 *
 * Journal line amounts have five decimal places and are held in units of 0.00001; item
 * quantities and unit prices have two and are held in cents; invoice amounts (subtotal, tax,
 * total) are held in units of 0.0001, the scale of a quantity times a unit price.
 */
module InvoiceSerializers {
  import opened Common

  // ---------------------------------------------------------------------------------------
  // Journal entry.

  datatype LineType = Debit | Credit

  datatype Segment = Segment(segmentType: nat, code: string)

  datatype JournalLine = JournalLine(amount: int, kind: LineType, segments: seq<Segment>)

  datatype Journal = Journal(lines: seq<JournalLine>, posted: bool)

  /** The largest accepted difference between debits and credits: 0.01 in units of 0.00001. */
  const Tolerance := 1000

  datatype LinesError = NoLines | TooFewLines | Unbalanced(debits: int, credits: int) | NoSegments | NegativeAmount

  /** The sum of the amounts of the lines of one type. */
  function TypeTotal(lines: seq<JournalLine>, t: LineType): int
  {
    if lines == [] then 0
    else TypeTotal(lines[..|lines| - 1], t) + (if lines[|lines| - 1].kind == t then lines[|lines| - 1].amount else 0)
  }

  lemma {:induction false} TypeTotalConcat(a: seq<JournalLine>, b: seq<JournalLine>, t: LineType)
    ensures TypeTotal(a + b, t) == TypeTotal(a, t) + TypeTotal(b, t)
    decreases |b|
  {
    if b == [] {
      assert a + b == a;
    } else {
      assert (a + b)[..|a + b| - 1] == a + b[..|b| - 1];
      TypeTotalConcat(a, b[..|b| - 1], t);
    }
  }

  lemma {:induction false} TypeTotalNonNegative(lines: seq<JournalLine>, t: LineType)
    requires forall i :: 0 <= i < |lines| ==> lines[i].amount >= 0
    ensures TypeTotal(lines, t) >= 0
  {
    if lines != [] {
      TypeTotalNonNegative(lines[..|lines| - 1], t);
    }
  }

  /** Debits and credits together add up to the sum of all line amounts. */
  lemma {:induction false} TypeTotalsCover(lines: seq<JournalLine>)
    ensures TypeTotal(lines, Debit) + TypeTotal(lines, Credit) == Sum(Amounts(lines))
  {
    if lines != [] {
      TypeTotalsCover(lines[..|lines| - 1]);
      assert Amounts(lines)[..|lines| - 1] == Amounts(lines[..|lines| - 1]);
    }
  }

  function Amounts(lines: seq<JournalLine>): (r: seq<int>)
    ensures |r| == |lines| && forall i :: 0 <= i < |lines| ==> r[i] == lines[i].amount
  {
    seq(|lines|, i requires 0 <= i < |lines| => lines[i].amount)
  }

  /** An entry of at least two lines whose debits and credits differ by at most 0.01. */
  predicate Balanced(lines: seq<JournalLine>)
  {
    |lines| >= 2 && Abs(TypeTotal(lines, Debit) - TypeTotal(lines, Credit)) <= Tolerance
  }

  /** JournalEntrySerializer.validate_lines. */
  function ValidateLines(lines: seq<JournalLine>): (r: Result<seq<JournalLine>, LinesError>)
    ensures r.Success? <==> Balanced(lines)
    ensures r.Success? ==> r.value == lines
    ensures lines == [] <==> r == Failure(NoLines)
    ensures |lines| == 1 <==> r == Failure(TooFewLines)
  {
    if lines == [] then Failure(NoLines)
    else if |lines| < 2 then Failure(TooFewLines)
    else
      var debits := TypeTotal(lines, Debit);
      var credits := TypeTotal(lines, Credit);
      if Abs(debits - credits) > Tolerance then Failure(Unbalanced(debits, credits))
      else Success(lines)
  }

  /** The order of the lines does not matter to validate_lines. */
  lemma LinesOrderIrrelevant(a: seq<JournalLine>, b: seq<JournalLine>)
    ensures ValidateLines(a + b).Success? <==> ValidateLines(b + a).Success?
  {
    TypeTotalConcat(a, b, Debit);
    TypeTotalConcat(a, b, Credit);
    TypeTotalConcat(b, a, Debit);
    TypeTotalConcat(b, a, Credit);
  }

  /** A debit and a credit line are accepted exactly when their amounts differ by at most 0.01. */
  lemma {:induction false} PairAccepted(d: int, c: int, s: seq<Segment>, s': seq<Segment>)
    ensures ValidateLines([JournalLine(d, Debit, s), JournalLine(c, Credit, s')]).Success? <==> -Tolerance <= d - c <= Tolerance
  {
    var l0, l1 := JournalLine(d, Debit, s), JournalLine(c, Credit, s');
    TypeTotalConcat([l0], [l1], Debit);
    TypeTotalConcat([l0], [l1], Credit);
    TypeTotalOne(l0, Debit);
    TypeTotalOne(l0, Credit);
    TypeTotalOne(l1, Debit);
    TypeTotalOne(l1, Credit);
    assert [l0] + [l1] == [l0, l1];
  }

  lemma TypeTotalOne(l: JournalLine, t: LineType)
    ensures TypeTotal([l], t) == if l.kind == t then l.amount else 0
  {
    assert [l][..0] == [];
  }

  /** Adding a debit and a credit of the same amount keeps an entry balanced. */
  lemma AddMatchingPair(lines: seq<JournalLine>, x: int, s: seq<Segment>, s': seq<Segment>)
    requires Balanced(lines)
    ensures Balanced(lines + [JournalLine(x, Debit, s), JournalLine(x, Credit, s')])
  {
    var l0, l1 := JournalLine(x, Debit, s), JournalLine(x, Credit, s');
    TypeTotalConcat(lines, [l0, l1], Debit);
    TypeTotalConcat(lines, [l0, l1], Credit);
    PairAccepted(x, x, s, s');
    assert [l0, l1][..1] == [l0];
    TypeTotalConcat([l0], [l1], Debit);
    TypeTotalConcat([l0], [l1], Credit);
    TypeTotalOne(l0, Debit);
    TypeTotalOne(l0, Credit);
    TypeTotalOne(l1, Debit);
    TypeTotalOne(l1, Credit);
    assert [l0] + [l1] == [l0, l1];
  }

  /** JournalLineSerializer.validate_segments: at least one segment. */
  function ValidateSegments(segments: seq<Segment>): (r: Result<seq<Segment>, LinesError>)
    ensures r.Success? <==> |segments| > 0
    ensures r.Success? ==> r.value == segments
  {
    if segments == [] then Failure(NoSegments) else Success(segments)
  }

  /**
   * A nested journal entry passes when every line's amount is at least 0 and it has segments
   * (the line serializer's field checks), and the lines balance.
   */
  function ValidateEntry(lines: seq<JournalLine>): (r: Result<seq<JournalLine>, LinesError>)
    ensures r.Success? <==>
      && Balanced(lines)
      && (forall i :: 0 <= i < |lines| ==> lines[i].amount >= 0)
      && (forall i :: 0 <= i < |lines| ==> lines[i].segments != [])
    ensures (exists i :: 0 <= i < |lines| && lines[i].amount < 0) ==> r == Failure(NegativeAmount)
  {
    if exists i :: 0 <= i < |lines| && lines[i].amount < 0 then Failure(NegativeAmount)
    else if exists i :: 0 <= i < |lines| && lines[i].segments == [] then Failure(NoSegments)
    else ValidateLines(lines)
  }

  // ---------------------------------------------------------------------------------------
  // Items.

  /** An invoice item; quantity and unit price in cents, both at least 0 by the serializer fields. */
  datatype Item = Item(name: string, description: string, quantity: nat, unitPrice: nat)

  /** InvoiceItemSerializer.get_line_total: quantity times unit price, in units of 0.0001. */
  function LineTotal(i: Item): (t: nat)
    ensures t == 0 <==> i.quantity == 0 || i.unitPrice == 0
    ensures i.quantity >= 1 ==> t >= i.unitPrice
    ensures i.unitPrice >= 1 ==> t >= i.quantity
  {
    MulMonotone(i.quantity, i.unitPrice);
    i.quantity * i.unitPrice
  }

  lemma MulMonotone(a: nat, b: nat)
    ensures a >= 1 ==> a * b >= b
    ensures b >= 1 ==> a * b >= a
    ensures a * b == 0 <==> a == 0 || b == 0
  {
  }

  /** The subtotal of a list of items: the sum of their line totals. */
  function ItemsTotal(items: seq<Item>): nat
  {
    if items == [] then 0 else ItemsTotal(items[..|items| - 1]) + LineTotal(items[|items| - 1])
  }

  lemma {:induction false} ItemsTotalConcat(a: seq<Item>, b: seq<Item>)
    ensures ItemsTotal(a + b) == ItemsTotal(a) + ItemsTotal(b)
    decreases |b|
  {
    if b == [] {
      assert a + b == a;
    } else {
      assert (a + b)[..|a + b| - 1] == a + b[..|b| - 1];
      ItemsTotalConcat(a, b[..|b| - 1]);
    }
  }

  /** The subtotal does not depend on the order of the items. */
  lemma ItemsOrderIrrelevant(a: seq<Item>, b: seq<Item>)
    ensures ItemsTotal(a + b) == ItemsTotal(b + a)
  {
    ItemsTotalConcat(a, b);
    ItemsTotalConcat(b, a);
  }

  /** Every item's line total is part of the subtotal. */
  lemma {:induction false} ItemsTotalBounds(items: seq<Item>, k: nat)
    requires k < |items|
    ensures LineTotal(items[k]) <= ItemsTotal(items)
  {
    if k < |items| - 1 {
      ItemsTotalBounds(items[..|items| - 1], k);
    }
  }

  datatype CreateError = NoItems | NoOneTimeSupplier

  /** validate_items of the create serializers: at least one item. */
  function ValidateItems(items: seq<Item>): (r: Result<seq<Item>, CreateError>)
    ensures r.Success? <==> items != []
    ensures r.Success? ==> r.value == items
  {
    if items == [] then Failure(NoItems) else Success(items)
  }

  /**
   * OneTimeSupplierCreateSerializer.validate: an existing one-time supplier's id or the name of
   * a new one. Python's truthiness makes an id of 0 and an empty name count as missing.
   */
  predicate OneTimeSupplierGiven(supplierId: Option<nat>, supplierName: Option<string>)
  {
    (supplierId.Some? && supplierId.value != 0) || (supplierName.Some? && supplierName.value != [])
  }

  function ValidateOneTimeSupplier(supplierId: Option<nat>, supplierName: Option<string>): (r: Result<(), CreateError>)
    ensures r.Success? <==> OneTimeSupplierGiven(supplierId, supplierName)
    ensures supplierId.None? && supplierName.None? ==> r.Failure?
  {
    if (supplierId.None? || supplierId.value == 0) && (supplierName.None? || supplierName.value == []) then
      Failure(NoOneTimeSupplier)
    else Success(())
  }

  // ---------------------------------------------------------------------------------------
  // Update.

  datatype InvoiceKind = AP | AR | OneTimeSupplier

  /** The contact details of a one-time supplier. */
  datatype Contact = Contact(name: string, email: string, phone: string, taxId: string)

  /**
   * The validated data of an update request. An outer None means the key is absent; a field
   * that allows null has an inner Option. Keys the update serializers do not declare (subtotal,
   * total and the statuses among them) never reach the validated data, so they have no field;
   * the nested journal entry carries its lines only, with no posted flag.
   */
  datatype UpdateData = UpdateData(
    date: Option<int>, currency: Option<nat>, country: Option<Option<nat>>,
    tax: Option<Option<int>>, partner: Option<nat>, oneTimeSupplier: Option<Option<nat>>,
    supplierName: Option<Option<string>>, supplierEmail: Option<string>, supplierPhone: Option<string>,
    supplierTaxId: Option<string>,
    items: Option<seq<Item>>, journal: Option<seq<JournalLine>>)

  datatype UpdateError = InvalidEntry(e: LinesError) | NotDraft(status: string) | PostedToGl | OneTimeSupplierNotFound

  /** validate() of the update serializers: only a DRAFT invoice whose GL entry is not posted. */
  function CheckUpdatable(status: string, journal: Option<Journal>): (r: Result<(), UpdateError>)
    ensures r.Success? <==> status == "DRAFT" && (journal.None? || !journal.value.posted)
    ensures status != "DRAFT" ==> r == Failure(NotDraft(status))
  {
    if status != "DRAFT" then Failure(NotDraft(status))
    else if journal.Some? && journal.value.posted then Failure(PostedToGl)
    else Success(())
  }

  /** A supplied value, or the stored one when the key is absent. */
  function Pick<T>(supplied: Option<T>, stored: T): T
  {
    if supplied.Some? then supplied.value else stored
  }

  /** The `or Decimal("0.00")` of a nullable tax amount. */
  function TaxOrZero(t: Option<int>): int
  {
    if t.Some? then t.value else 0
  }

  /** The running subtotal the update loop accumulates while it recreates the items. */
  method AccumulateSubtotal(items: seq<Item>) returns (subtotal: int)
    ensures subtotal == ItemsTotal(items)
  {
    subtotal := 0;
    var k := 0;
    while k < |items|
      invariant 0 <= k <= |items|
      invariant subtotal == ItemsTotal(items[..k])
    {
      assert items[..k + 1][..k] == items[..k];
      subtotal := subtotal + items[k].quantity * items[k].unitPrice;
      k := k + 1;
    }
    assert items[..k] == items;
  }

  class Invoice {
    var approvalStatus: string
    var paymentStatus: string
    var date: int
    var currency: nat
    var country: Option<nat>
    /** The supplier, customer or one-time supplier of the invoice. */
    var partner: nat
    /** The details of the invoice's one-time supplier. */
    var contact: Contact
    var subtotal: int
    var taxAmount: int
    var total: int
    var items: seq<Item>
    var journal: Option<Journal>

    /** The totals agree with the items and the tax. */
    predicate TotalsAgree()
      reads this
    {
      subtotal == ItemsTotal(items) && total == subtotal + taxAmount
    }

    /**
     * The update of APInvoiceUpdateSerializer, ARInvoiceUpdateSerializer and
     * OneTimeSupplierUpdateSerializer: the nested journal entry is validated, then only a DRAFT
     * invoice not posted to GL is changed. Supplied fields replace stored ones; supplied items
     * replace the items and recompute subtotal and total; the statuses are never changed; a
     * supplied journal entry replaces the invoice's entry by a new, unposted one.
     */
    method Update(kind: InvoiceKind, d: UpdateData) returns (r: Result<(), UpdateError>)
      modifies this
      ensures r.Failure? ==> unchanged(this)
      ensures r.Success? <==>
        && (d.journal.Some? ==> ValidateEntry(d.journal.value).Success?)
        && CheckUpdatable(old(approvalStatus), old(journal)).Success?
        && !(kind == OneTimeSupplier && d.oneTimeSupplier == Some(None))
      ensures r.Success? ==> (
        && date == (if d.date.Some? then d.date.value else old(date))
        && currency == (if d.currency.Some? then d.currency.value else old(currency))
        && country == (if d.country.Some? then d.country.value else old(country))
        && taxAmount == (if d.tax.Some? then TaxOrZero(d.tax.value) else old(taxAmount))
        && items == (if d.items.Some? then d.items.value else old(items))
        && journal == (if d.journal.Some? then Some(Journal(d.journal.value, false)) else old(journal)))
      ensures r.Success? && kind != OneTimeSupplier ==> partner == (if d.partner.Some? then d.partner.value else old(partner))
      ensures r.Success? && kind == OneTimeSupplier && d.oneTimeSupplier.Some? ==>
        partner == d.oneTimeSupplier.value.value && contact == old(contact)
      ensures r.Success? && kind == OneTimeSupplier && d.oneTimeSupplier.None? ==> (
        && partner == old(partner)
        && contact.name == (if d.supplierName.Some? && d.supplierName.value.Some? && d.supplierName.value.value != []
                            then d.supplierName.value.value else old(contact.name))
        && contact.email == (if d.supplierEmail.Some? then d.supplierEmail.value else old(contact.email))
        && contact.phone == (if d.supplierPhone.Some? then d.supplierPhone.value else old(contact.phone))
        && contact.taxId == (if d.supplierTaxId.Some? then d.supplierTaxId.value else old(contact.taxId)))
      ensures approvalStatus == old(approvalStatus) && paymentStatus == old(paymentStatus)
      ensures r.Success? && d.items.Some? ==> subtotal == ItemsTotal(d.items.value) && TotalsAgree()
      ensures r.Success? && d.items.None? ==> subtotal == old(subtotal) && total == old(total)
    {
      if d.journal.Some? {
        var e := ValidateEntry(d.journal.value);
        if e.Failure? { return Failure(InvalidEntry(e.error)); }
      }
      var ok := CheckUpdatable(approvalStatus, journal);
      if ok.Failure? { return Failure(ok.error); }
      if kind == OneTimeSupplier && d.oneTimeSupplier == Some(None) {
        return Failure(OneTimeSupplierNotFound);
      }
      UpdateParty(kind, d);
      UpdateFields(d);
      ReplaceItems(d);
      if d.journal.Some? {
        journal := Some(Journal(d.journal.value, false));
      }
      r := Success(());
    }

    /** The invoice's own party: AP supplier, AR customer, or the one-time supplier and its details. */
    method UpdateParty(kind: InvoiceKind, d: UpdateData)
      requires !(kind == OneTimeSupplier && d.oneTimeSupplier == Some(None))
      modifies this
      ensures kind != OneTimeSupplier ==> partner == (if d.partner.Some? then d.partner.value else old(partner))
      ensures kind != OneTimeSupplier ==> contact == old(contact)
      ensures kind == OneTimeSupplier && d.oneTimeSupplier.Some? ==>
        partner == d.oneTimeSupplier.value.value && contact == old(contact)
      ensures kind == OneTimeSupplier && d.oneTimeSupplier.None? ==> (
        && partner == old(partner)
        && contact.name == (if d.supplierName.Some? && d.supplierName.value.Some? && d.supplierName.value.value != []
                            then d.supplierName.value.value else old(contact.name))
        && contact.email == (if d.supplierEmail.Some? then d.supplierEmail.value else old(contact.email))
        && contact.phone == (if d.supplierPhone.Some? then d.supplierPhone.value else old(contact.phone))
        && contact.taxId == (if d.supplierTaxId.Some? then d.supplierTaxId.value else old(contact.taxId)))
      ensures approvalStatus == old(approvalStatus) && paymentStatus == old(paymentStatus)
      ensures date == old(date) && currency == old(currency) && country == old(country)
      ensures subtotal == old(subtotal) && taxAmount == old(taxAmount) && total == old(total)
      ensures items == old(items) && journal == old(journal)
    {
      if kind == OneTimeSupplier {
        if d.oneTimeSupplier.Some? {
          partner := d.oneTimeSupplier.value.value;
        } else {
          var c := contact;
          if d.supplierName.Some? && d.supplierName.value.Some? && d.supplierName.value.value != [] {
            c := c.(name := d.supplierName.value.value);
          }
          if d.supplierEmail.Some? { c := c.(email := d.supplierEmail.value); }
          if d.supplierPhone.Some? { c := c.(phone := d.supplierPhone.value); }
          if d.supplierTaxId.Some? { c := c.(taxId := d.supplierTaxId.value); }
          contact := c;
        }
      } else if d.partner.Some? {
        partner := d.partner.value;
      }
    }

    /** The parent invoice's date, currency, country and tax amount. */
    method UpdateFields(d: UpdateData)
      modifies this
      ensures date == Pick(d.date, old(date))
      ensures currency == Pick(d.currency, old(currency))
      ensures country == Pick(d.country, old(country))
      ensures taxAmount == (if d.tax.Some? then TaxOrZero(d.tax.value) else old(taxAmount))
      ensures subtotal == old(subtotal) && total == old(total)
      ensures approvalStatus == old(approvalStatus) && paymentStatus == old(paymentStatus)
      ensures partner == old(partner) && contact == old(contact) && items == old(items) && journal == old(journal)
    {
      date, currency, country := Pick(d.date, date), Pick(d.currency, currency), Pick(d.country, country);
      taxAmount := if d.tax.Some? then TaxOrZero(d.tax.value) else taxAmount;
    }

    /** Supplied items replace the old ones, and subtotal and total are recomputed from them. */
    method ReplaceItems(d: UpdateData)
      modifies this
      ensures items == (if d.items.Some? then d.items.value else old(items))
      ensures d.items.Some? ==> subtotal == ItemsTotal(d.items.value) && total == ItemsTotal(d.items.value) + taxAmount
      ensures d.items.None? ==> subtotal == old(subtotal) && total == old(total)
      ensures approvalStatus == old(approvalStatus) && paymentStatus == old(paymentStatus)
      ensures date == old(date) && currency == old(currency) && country == old(country) && taxAmount == old(taxAmount)
      ensures partner == old(partner) && contact == old(contact) && journal == old(journal)
    {
      if d.items.Some? {
        items := d.items.value;
        var s := AccumulateSubtotal(d.items.value);
        subtotal, total := s, s + taxAmount;
      }
    }
  }
}

