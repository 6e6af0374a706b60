/**
 * Goods receiving: goods receipt notes (GRN) against a purchase order, their lines with the
 * PARTIAL and FULLY quantity rules, gift lines, line and header totals and GRN numbering.
 * Quantities are integers in thousandths, prices in cents, tolerances in hundredths of a
 * percent (10% is 1000); a line total is quantity times price (in units of 10^-5) rounded
 * half-even to the cent, as the DecimalField stores it.
 */
module Receiving {
  import opened Common
  import opened Text
  import opened Rounding

  datatype DocumentType = Catalog | NonCatalog | Service

  datatype ReceivingType = Partial | Fully

  /**
   * The purchase order line being received: ordered quantity, quantity received so far,
   * tolerance, and whether the purchase order side counts it as fully received.
   */
  datatype PoLine = PoLine(itemName: string, quantity: int, received: int, tolerance: int, unitPrice: int, fullyReceived: bool)

  /** cumulative <= quantity * (100 + tolerance%) / 100, compared without division. */
  predicate WithinMaxReceivable(p: PoLine, cumulative: int)
  {
    cumulative * 10000 <= p.quantity * (10000 + p.tolerance)
  }

  /** cumulative >= quantity * (100 - tolerance%) / 100, compared without division. */
  predicate WithinMinAcceptable(p: PoLine, cumulative: int)
  {
    cumulative * 10000 >= p.quantity * (10000 - p.tolerance)
  }

  /** A goods receipt line; `poLine` is the index of the source PO line (none for gifts and extras). */
  datatype ReceiptLine = ReceiptLine(
    lineNumber: nat,
    poLine: Option<nat>,
    receivingType: ReceivingType,
    itemName: string,
    ordered: int,
    received: int,
    unitPrice: int,
    lineTotal: int,
    isGift: bool)

  datatype QuantityError =
    | NotPositive
    | ExceedsOrdered(cumulative: int, ordered: int)
    | BelowMinimum(cumulative: int)
    | AboveMaximum(cumulative: int)

  /**
   * The cumulative receipt on a PO line: what it has received, less what this line had
   * saved before (when it is being re-saved), plus the new quantity.
   */
  function CumulativeReceipt(poReceived: int, saved: Option<int>, quantity: int): (c: int)
    ensures saved.None? ==> c == poReceived + quantity
    ensures saved.Some? ==> c - quantity == poReceived - saved.value
  {
    (if saved.Some? then poReceived - saved.value else poReceived) + quantity
  }

  /** The receiving rule: PARTIAL stays within the ordered quantity, FULLY within the tolerance band. */
  predicate WithinRule(t: ReceivingType, p: PoLine, cumulative: int)
  {
    match t
    case Partial => cumulative <= p.quantity
    case Fully => WithinMinAcceptable(p, cumulative) && WithinMaxReceivable(p, cumulative)
  }

  /**
   * validate_quantity: gifts are not checked; other lines need a positive quantity and, when
   * linked to a PO line, a cumulative receipt within their receiving rule.
   */
  method ValidateQuantity(line: ReceiptLine, po: Option<PoLine>, saved: Option<int>) returns (r: Result<(), QuantityError>)
    ensures r.Success? <==>
      line.isGift ||
      (line.received > 0 && (po.None? || WithinRule(line.receivingType, po.value, CumulativeReceipt(po.value.received, saved, line.received))))
    ensures !line.isGift && line.received <= 0 ==> r == Failure(NotPositive)
    ensures r.Failure? && r.error.ExceedsOrdered? ==> line.receivingType == Partial
    ensures r.Failure? && (r.error.BelowMinimum? || r.error.AboveMaximum?) ==> line.receivingType == Fully
  {
    if line.isGift {
      return Success(());
    }
    if line.received <= 0 {
      return Failure(NotPositive);
    }
    if po.Some? {
      var poLine := po.value;
      var previous := poLine.received;
      if saved.Some? {
        previous := previous - saved.value;
      }
      var cumulative := previous + line.received;
      match line.receivingType {
        case Partial =>
          if cumulative > poLine.quantity {
            return Failure(ExceedsOrdered(cumulative, poLine.quantity));
          }
        case Fully =>
          if !WithinMinAcceptable(poLine, cumulative) {
            return Failure(BelowMinimum(cumulative));
          }
          if !WithinMaxReceivable(poLine, cumulative) {
            return Failure(AboveMaximum(cumulative));
          }
      }
    }
    r := Success(());
  }

  /** With 100 ordered and a 10% tolerance, FULLY receiving accepts 90 and 110 but not 89 or 111. */
  lemma ToleranceBand()
    ensures var p := PoLine("item", 100000, 0, 1000, 0, false);
      && WithinRule(Fully, p, 90000) && WithinRule(Fully, p, 110000)
      && !WithinRule(Fully, p, 89000) && !WithinRule(Fully, p, 111000)
      && WithinRule(Partial, p, 100000) && !WithinRule(Partial, p, 100001)
  {
  }

  /** line_total = quantity received times unit price, stored rounded half-even to the cent. */
  function LineTotal(received: int, unitPrice: int): (t: int)
    ensures NearestHalfEven(received * unitPrice, 1000, t)
  {
    RoundHalfEven(received * unitPrice, 1000)
  }

  /** The sum of the line totals (0 for no lines). */
  function LinesTotal(lines: seq<ReceiptLine>): int
  {
    if lines == [] then 0 else LinesTotal(lines[..|lines| - 1]) + lines[|lines| - 1].lineTotal
  }

  lemma {:induction false} LinesTotalNonNegative(lines: seq<ReceiptLine>)
    requires forall i :: 0 <= i < |lines| ==> lines[i].lineTotal >= 0
    ensures LinesTotal(lines) >= 0
  {
    if lines != [] {
      LinesTotalNonNegative(lines[..|lines| - 1]);
    }
  }

  lemma {:induction false} LinesTotalReplace(lines: seq<ReceiptLine>, k: nat, line: ReceiptLine)
    requires k < |lines|
    ensures LinesTotal(lines[k := line]) == LinesTotal(lines) - lines[k].lineTotal + line.lineTotal
    decreases |lines|
  {
    var n := |lines| - 1;
    if k < n {
      LinesTotalReplace(lines[..n], k, line);
      assert lines[k := line][..n] == lines[..n][k := line];
    } else {
      assert lines[k := line][..n] == lines[..n];
    }
  }

  /** A ratio num / den with den > 0, for percentages the code computes by division. */
  datatype Ratio = Ratio(num: int, den: int)

  /** get_receipt_percentage: 0 for gifts or nothing ordered, else received / ordered * 100. */
  function ReceiptPercentage(line: ReceiptLine): (r: Ratio)
    ensures r.den > 0
    ensures line.isGift || line.ordered == 0 ==> r.num == 0
    ensures !line.isGift && line.ordered != 0 ==> r.num * line.ordered == line.received * 100 * r.den
  {
    if line.ordered == 0 || line.isGift then Ratio(0, 1)
    else if line.ordered > 0 then Ratio(line.received * 100, line.ordered)
    else Ratio(-line.received * 100, -line.ordered)
  }

  /** is_partial_receipt: never for gifts; otherwise less received than ordered. */
  function IsPartialReceipt(line: ReceiptLine): (b: bool)
    ensures line.isGift ==> !b
    ensures b ==> line.received < line.ordered
    ensures !line.isGift && line.received < line.ordered ==> b
  {
    if line.isGift then false else line.received < line.ordered
  }

  /**
   * populate_from_po_line: copies the PO line's item, ordered quantity and price; receives the
   * given quantity, or the PO line's remaining quantity when none (or zero) is given.
   */
  function PopulateFromPoLine(line: ReceiptLine, index: nat, p: PoLine, quantity: Option<int>, remaining: int): (l: ReceiptLine)
    ensures l.poLine == Some(index) && l.itemName == p.itemName
    ensures l.ordered == p.quantity && l.unitPrice == p.unitPrice
    ensures l.received == (if quantity.Some? && quantity.value != 0 then quantity.value else remaining)
    ensures l.lineTotal == LineTotal(l.received, l.unitPrice)
    ensures l.lineNumber == line.lineNumber && l.receivingType == line.receivingType && l.isGift == line.isGift
  {
    var received := if quantity.Some? && quantity.value != 0 then quantity.value else remaining;
    line.(poLine := Some(index), itemName := p.itemName, ordered := p.quantity, unitPrice := p.unitPrice,
          received := received, lineTotal := LineTotal(received, p.unitPrice))
  }

  /** The PO completion summary. */
  datatype Completion = Completion(totalLines: nat, fullyReceived: nat, partiallyReceived: nat, pending: int, percentage: Ratio)

  function CountFully(lines: seq<PoLine>): (n: nat)
    ensures n <= |lines|
  {
    if lines == [] then 0 else CountFully(lines[..|lines| - 1]) + (if lines[|lines| - 1].fullyReceived then 1 else 0)
  }

  function CountPartially(lines: seq<PoLine>): (n: nat)
    ensures n <= |lines|
  {
    if lines == [] then 0
    else
      var l := lines[|lines| - 1];
      CountPartially(lines[..|lines| - 1]) + (if l.received > 0 && !l.fullyReceived then 1 else 0)
  }

  /** Fully and partially received lines are disjoint, so the pending count is never negative. */
  lemma {:induction false} CountsPartition(lines: seq<PoLine>)
    ensures CountFully(lines) + CountPartially(lines) <= |lines|
  {
    if lines != [] {
      CountsPartition(lines[..|lines| - 1]);
    }
  }

  /**
   * get_po_completion_status: pending = total - fully - partially received; completion is
   * fully / total * 100, or 0 for a PO without lines.
   */
  function PoCompletionStatus(lines: seq<PoLine>): (c: Completion)
    ensures c.totalLines == |lines| && c.pending >= 0
    ensures c.fullyReceived + c.partiallyReceived + c.pending == c.totalLines
    ensures c.percentage.den > 0
    ensures lines == [] ==> c.percentage.num == 0
    ensures lines != [] ==> c.percentage.num * |lines| == c.fullyReceived * 100 * c.percentage.den
  {
    var total := |lines|;
    var fully := CountFully(lines);
    var partially := CountPartially(lines);
    CountsPartition(lines);
    Completion(total, fully, partially, total - fully - partially,
               if total > 0 then Ratio(fully * 100, total) else Ratio(0, 1))
  }

  /** `GRN-{year}-{number:05d}`, numbered one past the last receipt's id (1 for the first). */
  function GrnNumber(year: nat, lastId: Option<nat>): (s: string)
    ensures |s| >= 11 && s[..4] == "GRN-"
  {
    var next := if lastId.Some? then lastId.value + 1 else 1;
    "GRN-" + NatToString(year) + "-" + ZeroPad(next, 5)
  }

  /**
   * The year of a GRN number reads back: it is the dash-free text after "GRN-" up to the next
   * dash, and it parses back to the year.
   */
  lemma GrnNumberYear(year: nat, lastId: Option<nat>)
    ensures var s, y := GrnNumber(year, lastId), NatToString(year);
      && |s| > 4 + |y| && s[4..4 + |y|] == y && s[4 + |y|] == '-'
      && '-' !in y && ParseNat(y) == Some(year)
  {
    var y := NatToString(year);
    var s := GrnNumber(year, lastId);
    var pad := ZeroPad(if lastId.Some? then lastId.value + 1 else 1, 5);
    assert s == "GRN-" + y + "-" + pad;
    NatToStringValue(year);
    assert s[4..4 + |y|] == y;
    assert s[4 + |y|] == '-';
  }

  /** The number part of a GRN number parses back to the sequence number it was built from. */
  lemma GrnNumberSequence(year: nat, lastId: Option<nat>)
    ensures var s := GrnNumber(year, lastId);
      ParseNat(LastField(s, '-')) == Some(if lastId.Some? then lastId.value + 1 else 1)
  {
    var next := if lastId.Some? then lastId.value + 1 else 1;
    var pad := ZeroPad(next, 5);
    var s := GrnNumber(year, lastId);
    assert s == ("GRN-" + NatToString(year) + "-") + pad;
    DigitsArePlain(pad);
    LastFieldAfter("GRN-" + NatToString(year), '-', pad);
    ZeroPadValue(next, 5);
  }

  datatype GrnError =
    | TypeMismatch(grnType: DocumentType, poType: DocumentType)
    | SupplierMismatch
    | BadQuantity(reason: QuantityError)
    | DuplicateLineNumber(lineNumber: nat)

  /** A stored line other than `k` already has line number `n` (unique per receipt). */
  predicate LineNumberTaken(lines: seq<ReceiptLine>, k: Option<nat>, n: nat)
  {
    exists i :: 0 <= i < |lines| && (k.None? || i != k.value) && lines[i].lineNumber == n
  }

  /** No two lines of a receipt share a line number. */
  predicate DistinctLineNumbers(lines: seq<ReceiptLine>)
  {
    forall i, j :: 0 <= i < j < |lines| ==> lines[i].lineNumber != lines[j].lineNumber
  }

  /** Storing a line whose number no other line has keeps the line numbers distinct. */
  lemma StoreKeepsDistinct(before: seq<ReceiptLine>, k: Option<nat>, stored: ReceiptLine, after: seq<ReceiptLine>)
    requires k.Some? ==> k.value < |before|
    requires !LineNumberTaken(before, k, stored.lineNumber)
    requires after == if k.Some? then before[k.value := stored] else before + [stored]
    ensures DistinctLineNumbers(before) ==> DistinctLineNumbers(after)
  {
    if DistinctLineNumbers(before) {
      forall i, j | 0 <= i < j < |after|
        ensures after[i].lineNumber != after[j].lineNumber
      {
        var x := if k.Some? then k.value else |before|;
        if i == x {
          assert before[j].lineNumber != stored.lineNumber;
        } else if j == x {
          assert before[i].lineNumber != stored.lineNumber;
        }
      }
    }
  }

  /** The purchase order being received: its type, supplier and lines. */
  class PurchaseOrder {
    const poType: DocumentType
    const supplier: nat
    var lines: seq<PoLine>

    constructor (poType: DocumentType, supplier: nat, lines: seq<PoLine>)
      ensures this.poType == poType && this.supplier == supplier && this.lines == lines
    {
      this.poType := poType;
      this.supplier := supplier;
      this.lines := lines;
    }
  }

  class GoodsReceipt {
    const po: PurchaseOrder
    var grnNumber: string
    var year: nat
    var grnType: DocumentType
    var supplier: nat
    var total: int
    var lines: seq<ReceiptLine>

    constructor (po: PurchaseOrder, year: nat, grnType: DocumentType, supplier: nat)
      ensures this.po == po && this.year == year && this.grnType == grnType && this.supplier == supplier
      ensures grnNumber == "" && total == 0 && lines == []
    {
      this.po := po;
      this.year := year;
      this.grnType := grnType;
      this.supplier := supplier;
      grnNumber := "";
      total := 0;
      lines := [];
    }

    /** validate_against_po: the GRN type must be the PO type, then the supplier the PO supplier. */
    function ValidateAgainstPo(): (r: Result<(), GrnError>)
      reads this, po
      ensures r.Success? <==> grnType == po.poType && supplier == po.supplier
      ensures grnType != po.poType ==> r == Failure(TypeMismatch(grnType, po.poType))
    {
      if grnType != po.poType then Failure(TypeMismatch(grnType, po.poType))
      else if supplier != po.supplier then Failure(SupplierMismatch)
      else Success(())
    }

    /** calculate_total: the header total becomes the sum of the line totals. */
    method CalculateTotal() returns (t: int)
      modifies this
      ensures t == total == LinesTotal(lines)
      ensures lines == old(lines) && grnNumber == old(grnNumber) && year == old(year)
      ensures grnType == old(grnType) && supplier == old(supplier)
    {
      total := LinesTotal(lines);
      t := total;
    }

    /**
     * save: numbers the receipt when it has no number, then validates it against its PO
     * (the number stays assigned when that fails), then recomputes the total.
     */
    method Save(lastId: Option<nat>) returns (r: Result<(), GrnError>)
      modifies this
      ensures old(grnNumber) == "" ==> grnNumber == GrnNumber(year, lastId)
      ensures old(grnNumber) != "" ==> grnNumber == old(grnNumber)
      ensures r == ValidateAgainstPo()
      ensures r.Success? ==> total == LinesTotal(lines)
      ensures r.Failure? ==> total == old(total)
      ensures lines == old(lines) && year == old(year) && grnType == old(grnType) && supplier == old(supplier)
    {
      if grnNumber == "" {
        grnNumber := GrnNumber(year, lastId);
      }
      r := ValidateAgainstPo();
      if r.Success? {
        var _ := CalculateTotal();
      }
    }

    /**
     * Saving a line (a new one, or line `k` again): validates the quantity, computes the line
     * total, stores the line unless another line of the receipt has its line number (the unique
     * (goods_receipt, line_number) constraint), records the receipt on its PO line (unless a
     * gift) and recomputes the header total.
     */
    method SaveLine(k: Option<nat>, line: ReceiptLine) returns (r: Result<(), GrnError>)
      requires k.Some? ==> k.value < |lines|
      requires line.poLine.Some? ==> line.poLine.value < |po.lines|
      modifies this, po
      ensures var saved := if k.Some? then Some(old(lines[k.value].received)) else None;
        var p := if line.poLine.Some? then Some(old(po.lines[line.poLine.value])) else None;
        var quantityOk := line.isGift ||
          (line.received > 0 && (p.None? || WithinRule(line.receivingType, p.value, CumulativeReceipt(p.value.received, saved, line.received))));
        && (r.Success? <==> quantityOk && !LineNumberTaken(old(lines), k, line.lineNumber))
        && (r.Failure? && quantityOk ==> r.error == DuplicateLineNumber(line.lineNumber))
      ensures r.Failure? ==> lines == old(lines) && total == old(total) && po.lines == old(po.lines)
      ensures var stored := line.(lineTotal := LineTotal(line.received, line.unitPrice));
        r.Success? ==> lines == (if k.Some? then old(lines)[k.value := stored] else old(lines) + [stored])
      ensures r.Success? ==> total == LinesTotal(lines)
      ensures r.Success? && old(DistinctLineNumbers(lines)) ==> DistinctLineNumbers(lines)
      ensures r.Success? && line.poLine.Some? && !line.isGift ==>
        po.lines == old(po.lines)[line.poLine.value := old(po.lines[line.poLine.value]).(received := old(po.lines[line.poLine.value].received) + line.received)]
      ensures r.Success? && (line.poLine.None? || line.isGift) ==> po.lines == old(po.lines)
      ensures grnNumber == old(grnNumber) && year == old(year) && grnType == old(grnType) && supplier == old(supplier)
    {
      var saved := if k.Some? then Some(lines[k.value].received) else None;
      var p := if line.poLine.Some? then Some(po.lines[line.poLine.value]) else None;
      var check := ValidateQuantity(line, p, saved);
      if check.Failure? {
        return Failure(BadQuantity(check.error));
      }
      if exists i :: 0 <= i < |lines| && (k.None? || i != k.value) && lines[i].lineNumber == line.lineNumber {
        return Failure(DuplicateLineNumber(line.lineNumber));
      }
      var stored := line.(lineTotal := LineTotal(line.received, line.unitPrice));
      ghost var before := lines;
      if k.Some? {
        lines := lines[k.value := stored];
      } else {
        lines := lines + [stored];
      }
      StoreKeepsDistinct(before, k, stored, lines);
      if line.poLine.Some? && !line.isGift {
        var i := line.poLine.value;
        po.lines := po.lines[i := po.lines[i].(received := po.lines[i].received + line.received)];
      }
      total := LinesTotal(lines);
      r := Success(());
    }
  }
}
