/**
 * The purchase order create serializers: the checks on manual PO lines and on lines converted
 * from approved PR items, the header checks that pick one of the two, and the create that
 * records on each PR item how much of it has been converted.
 *
 * Quantities are held in thousandths (the three decimal places of the PO serializer; PR item
 * quantities have two), prices in cents.
 */
module PurchaseOrderSerializers {
  import opened Common
  import PR = PurchaseRequisition

  /** What the conversion reads and writes of a PR item and of its PR. */
  datatype PrItemRow = PrItemRow(
    pr: nat,
    prStatus: PR.PrStatus,
    prType: PR.PrType,
    quantity: int,
    quantityConverted: int,
    convertedToPo: bool)

  datatype ManualLine = ManualLine(lineNumber: int, lineType: PR.PrType, quantity: int, unitPrice: int, sourcePrItem: Option<nat>)

  /** An entry of items_from_pr; an omitted quantity_to_convert is None. */
  datatype FromPrEntry = FromPrEntry(prItem: nat, quantityToConvert: Option<int>, unitPrice: int)

  /** A validated entry: the PR item as it was loaded, and the quantity to convert. */
  datatype Conversion = Conversion(prItem: nat, loaded: PrItemRow, quantity: int, unitPrice: int)

  datatype PoRequest = PoRequest(
    poType: PR.PrType,
    supplier: nat,
    currency: nat,
    items: seq<ManualLine>,
    itemsFromPr: seq<FromPrEntry>)

  /** The validated request: manual lines or conversions of PR items. */
  datatype Validated = Manual(lines: seq<ManualLine>) | FromPr(conversions: seq<Conversion>)

  datatype PoLine = PoLine(lineNumber: int, quantity: int, unitPrice: int, sourcePrItem: Option<nat>)

  datatype PoError =
    | InvalidType | LineNumberTooSmall | QuantityNotPositive | PriceNegative
    | PrItemNotFound(prItem: nat) | PrNotApproved(prItem: nat) | NothingRemaining(prItem: nat)
    | ExceedsRemaining(prItem: nat, requested: int, remaining: int)
    | NoItems | BothItemKinds | UnknownSupplier | UnknownCurrency
    | LineTypeMismatch | PrTypeMismatch

  // ---------------------------------------------------------------------------------------
  // Line checks.

  /** POLineItemCreateSerializer.validate_quantity: a manual line quantity is positive. */
  function ValidateQuantity(q: int): (r: Result<int, PoError>)
    ensures r.Success? <==> q > 0
    ensures r.Success? ==> r.value == q
  {
    if q <= 0 then Failure(QuantityNotPositive) else Success(q)
  }

  /** The field checks of a manual line: choice of type, line number at least 1, a positive quantity, a price of at least 0. */
  function ValidateManualLine(l: ManualLine): (r: Result<ManualLine, PoError>)
    ensures r.Success? <==> l.lineType != PR.Unlisted && l.lineNumber >= 1 && l.quantity > 0 && l.unitPrice >= 0
  {
    if l.lineType == PR.Unlisted then Failure(InvalidType)
    else if l.lineNumber < 1 then Failure(LineNumberTooSmall)
    else if ValidateQuantity(l.quantity).Failure? then Failure(QuantityNotPositive)
    else if l.unitPrice < 0 then Failure(PriceNegative)
    else Success(l)
  }

  /** The error of the first manual line that fails its checks; none when every line passes. */
  function FirstManualError(ls: seq<ManualLine>): (r: Option<PoError>)
    ensures r.None? <==> forall i :: 0 <= i < |ls| ==> ValidateManualLine(ls[i]).Success?
    ensures r.Some? ==> exists i ::
      && 0 <= i < |ls| && ValidateManualLine(ls[i]) == Failure(r.value)
      && forall j :: 0 <= j < i ==> ValidateManualLine(ls[j]).Success?
  {
    if ls == [] then None
    else if ValidateManualLine(ls[0]).Failure? then Some(ValidateManualLine(ls[0]).error)
    else
      var r := FirstManualError(ls[1..]);
      if r.Some? then
        var i :|
          && 0 <= i < |ls[1..]| && ValidateManualLine(ls[1..][i]) == Failure(r.value)
          && forall j :: 0 <= j < i ==> ValidateManualLine(ls[1..][j]).Success?;
        assert ValidateManualLine(ls[i + 1]) == Failure(r.value);
        r
      else r
  }

  /** What remains to be converted of a PR item. */
  function Remaining(row: PrItemRow): int
  {
    row.quantity - row.quantityConverted
  }

  /**
   * POLineItemFromPRSerializer: the field minimums (a given quantity at least 0.001, a price of
   * at least 0), then validate: the PR item exists, its PR is APPROVED, something remains, and a
   * given quantity does not exceed what remains; an omitted quantity becomes all that remains.
   */
  function ValidateFromPr(e: FromPrEntry, rows: map<nat, PrItemRow>): (r: Result<Conversion, PoError>)
    ensures r.Success? <==>
      && (e.quantityToConvert.Some? ==> 1 <= e.quantityToConvert.value)
      && e.unitPrice >= 0
      && e.prItem in rows
      && rows[e.prItem].prStatus == PR.Approved
      && Remaining(rows[e.prItem]) > 0
      && (e.quantityToConvert.Some? ==> e.quantityToConvert.value <= Remaining(rows[e.prItem]))
    ensures r.Success? ==>
      && r.value.prItem == e.prItem && r.value.loaded == rows[e.prItem] && r.value.unitPrice == e.unitPrice
      && 0 < r.value.quantity <= Remaining(rows[e.prItem])
      && (e.quantityToConvert.None? ==> r.value.quantity == Remaining(rows[e.prItem]))
      && (e.quantityToConvert.Some? ==> r.value.quantity == e.quantityToConvert.value)
  {
    if e.quantityToConvert.Some? && e.quantityToConvert.value < 1 then Failure(QuantityNotPositive)
    else if e.unitPrice < 0 then Failure(PriceNegative)
    else if e.prItem !in rows then Failure(PrItemNotFound(e.prItem))
    else
      var row := rows[e.prItem];
      if row.prStatus != PR.Approved then Failure(PrNotApproved(e.prItem))
      else
        var remaining := Remaining(row);
        if remaining <= 0 then Failure(NothingRemaining(e.prItem))
        else if e.quantityToConvert.Some? && e.quantityToConvert.value > remaining then
          Failure(ExceedsRemaining(e.prItem, e.quantityToConvert.value, remaining))
        else
          var q := if e.quantityToConvert.Some? then e.quantityToConvert.value else remaining;
          Success(Conversion(e.prItem, row, q, e.unitPrice))
  }

  // ---------------------------------------------------------------------------------------
  // Recording a conversion on the PR item.

  /** The PR item after `q` more of it is converted: flagged converted once the whole quantity is. */
  function Converted(row: PrItemRow, q: int): (r: PrItemRow)
  {
    var total := row.quantityConverted + q;
    row.(quantityConverted := total, convertedToPo := if total >= row.quantity then true else row.convertedToPo)
  }

  /** The conversion applied to the PR item as it is stored now. */
  function Apply(rows: map<nat, PrItemRow>, c: Conversion): map<nat, PrItemRow>
    requires c.prItem in rows
  {
    rows[c.prItem := Converted(rows[c.prItem], c.quantity)]
  }

  predicate AllKnown(cs: seq<Conversion>, rows: map<nat, PrItemRow>)
  {
    forall i :: 0 <= i < |cs| ==> cs[i].prItem in rows
  }

  /** The conversions applied one after the other. */
  function ApplyAll(rows: map<nat, PrItemRow>, cs: seq<Conversion>): (r: map<nat, PrItemRow>)
    requires AllKnown(cs, rows)
    ensures r.Keys == rows.Keys
    decreases |cs|
  {
    if cs == [] then rows
    else
      var before := ApplyAll(rows, cs[..|cs| - 1]);
      Apply(before, cs[|cs| - 1])
  }

  /** The quantity the conversions take from PR item `id`. */
  function Requested(cs: seq<Conversion>, id: nat): int
  {
    if cs == [] then 0
    else Requested(cs[..|cs| - 1], id) + (if cs[|cs| - 1].prItem == id then cs[|cs| - 1].quantity else 0)
  }

  lemma {:induction false} RequestedNonNegative(cs: seq<Conversion>, id: nat)
    requires forall i :: 0 <= i < |cs| ==> cs[i].quantity > 0
    ensures Requested(cs, id) >= 0
    ensures Requested(cs, id) == 0 <==> forall i :: 0 <= i < |cs| ==> cs[i].prItem != id
  {
    if cs != [] {
      RequestedNonNegative(cs[..|cs| - 1], id);
      assert forall i :: 0 <= i < |cs| - 1 ==> cs[..|cs| - 1][i] == cs[i];
    }
  }

  /**
   * Applying the conversions adds to each PR item exactly the quantity taken from it and keeps
   * everything else of the item; the item is flagged converted when it already was or when the
   * converted quantity has reached the item's quantity (the quantities taken are positive).
   */
  lemma {:induction false} ApplyAllAdds(rows: map<nat, PrItemRow>, cs: seq<Conversion>, id: nat)
    requires AllKnown(cs, rows) && id in rows
    requires forall i :: 0 <= i < |cs| ==> cs[i].quantity > 0
    ensures var row, after := rows[id], ApplyAll(rows, cs)[id];
      && after.quantityConverted == row.quantityConverted + Requested(cs, id)
      && after.(quantityConverted := row.quantityConverted, convertedToPo := row.convertedToPo) == row
      && (after.convertedToPo <==> row.convertedToPo || (Requested(cs, id) > 0 && after.quantityConverted >= row.quantity))
    decreases |cs|
  {
    if cs != [] {
      var init := cs[..|cs| - 1];
      assert AllKnown(init, rows);
      ApplyAllAdds(rows, init, id);
      RequestedNonNegative(init, id);
      assert forall i :: 0 <= i < |init| ==> init[i] == cs[i];
    }
  }

  // ---------------------------------------------------------------------------------------
  // Validation of the request.

  /**
   * items_from_pr as the serializer checks it: every entry on its own against the PR item as
   * stored, so a PR item named twice is checked twice against the same remaining quantity.
   */
  function ValidateEntriesAsWritten(es: seq<FromPrEntry>, rows: map<nat, PrItemRow>): (r: Result<seq<Conversion>, PoError>)
    ensures r.Success? ==> |r.value| == |es| && forall i :: 0 <= i < |es| ==> ValidateFromPr(es[i], rows) == Success(r.value[i])
    decreases |es|
  {
    if es == [] then Success([])
    else
      var prev := ValidateEntriesAsWritten(es[..|es| - 1], rows);
      if prev.Failure? then prev
      else
        var c := ValidateFromPr(es[|es| - 1], rows);
        if c.Failure? then Failure(c.error) else Success(prev.value + [c.value])
  }

  /**
   * items_from_pr as intended: every entry is checked against the PR item as it stands once the
   * earlier entries are converted, so the entries together never take more than remains.
   */
  function ValidateEntries(es: seq<FromPrEntry>, rows: map<nat, PrItemRow>): (r: Result<seq<Conversion>, PoError>)
    ensures r.Success? ==> |r.value| == |es| && AllKnown(r.value, rows)
    ensures r.Success? ==> forall i :: 0 <= i < |es| ==>
      r.value[i].prItem == es[i].prItem && r.value[i].quantity > 0 && r.value[i].unitPrice == es[i].unitPrice &&
      r.value[i].loaded.prType == rows[es[i].prItem].prType
    decreases |es|
  {
    if es == [] then Success([])
    else
      var prev := ValidateEntries(es[..|es| - 1], rows);
      if prev.Failure? then prev
      else
        var c := ValidateFromPr(es[|es| - 1], ApplyAll(rows, prev.value));
        if c.Failure? then Failure(c.error)
        else
          ApplyAllKeepsType(rows, prev.value, es[|es| - 1].prItem);
          Success(prev.value + [c.value])
  }

  /**
   * The corrected check accepts exactly the conversions in which every entry passes against the
   * PR items as the conversions before it leave them.
   */
  predicate Chained(es: seq<FromPrEntry>, rows: map<nat, PrItemRow>, cs: seq<Conversion>)
  {
    && |cs| == |es|
    && forall i :: 0 <= i < |es| ==>
         AllKnown(cs[..i], rows) && ValidateFromPr(es[i], ApplyAll(rows, cs[..i])) == Success(cs[i])
  }

  lemma ValidateEntriesChained(es: seq<FromPrEntry>, rows: map<nat, PrItemRow>, cs: seq<Conversion>)
    ensures ValidateEntries(es, rows) == Success(cs) <==> Chained(es, rows, cs)
  {
    if ValidateEntries(es, rows) == Success(cs) {
      AcceptedIsChained(es, rows, cs);
    }
    if Chained(es, rows, cs) {
      ChainedIsAccepted(es, rows, cs);
    }
  }

  lemma {:induction false} AcceptedIsChained(es: seq<FromPrEntry>, rows: map<nat, PrItemRow>, cs: seq<Conversion>)
    requires ValidateEntries(es, rows) == Success(cs)
    ensures Chained(es, rows, cs)
    decreases |es|
  {
    if es != [] {
      var n := |es| - 1;
      var init := es[..n];
      var prev := ValidateEntries(init, rows).value;
      assert cs == prev + [cs[n]];
      assert cs[..n] == prev;
      AcceptedIsChained(init, rows, prev);
      forall i | 0 <= i < |es|
        ensures AllKnown(cs[..i], rows) && ValidateFromPr(es[i], ApplyAll(rows, cs[..i])) == Success(cs[i])
      {
        if i < n {
          assert init[i] == es[i] && prev[..i] == cs[..i] && prev[i] == cs[i];
        }
      }
    }
  }

  lemma {:induction false} ChainedPrefix(es: seq<FromPrEntry>, rows: map<nat, PrItemRow>, cs: seq<Conversion>, n: nat)
    requires Chained(es, rows, cs) && n <= |es|
    ensures Chained(es[..n], rows, cs[..n])
  {
    forall i | 0 <= i < n
      ensures AllKnown(cs[..n][..i], rows) && ValidateFromPr(es[..n][i], ApplyAll(rows, cs[..n][..i])) == Success(cs[..n][i])
    {
      assert cs[..n][..i] == cs[..i] && es[..n][i] == es[i] && cs[..n][i] == cs[i];
    }
  }

  lemma {:induction false} ChainedIsAccepted(es: seq<FromPrEntry>, rows: map<nat, PrItemRow>, cs: seq<Conversion>)
    requires Chained(es, rows, cs)
    ensures ValidateEntries(es, rows) == Success(cs)
    decreases |es|
  {
    if es != [] {
      var n := |es| - 1;
      var init, prev := es[..n], cs[..n];
      ChainedPrefix(es, rows, cs, n);
      ChainedIsAccepted(init, rows, prev);
      assert ValidateFromPr(es[n], ApplyAll(rows, prev)) == Success(cs[n]);
      ValidateEntriesSnoc(es, rows, prev, cs[n]);
      assert |cs| == |es|;
      LastSplit(cs);
    }
  }

  lemma LastSplit<T>(s: seq<T>)
    requires s != []
    ensures s[..|s| - 1] + [s[|s| - 1]] == s
  {
  }

  /** The last entry, accepted against the rows the earlier ones leave, extends their conversions. */
  lemma ValidateEntriesSnoc(es: seq<FromPrEntry>, rows: map<nat, PrItemRow>, prev: seq<Conversion>, c: Conversion)
    requires es != [] && ValidateEntries(es[..|es| - 1], rows) == Success(prev)
    requires ValidateFromPr(es[|es| - 1], ApplyAll(rows, prev)) == Success(c)
    ensures ValidateEntries(es, rows) == Success(prev + [c])
  {
  }

  /** As written, the check accepts exactly when every entry passes on its own. */
  lemma {:induction false} AsWrittenAcceptsEach(es: seq<FromPrEntry>, rows: map<nat, PrItemRow>)
    ensures ValidateEntriesAsWritten(es, rows).Success? <==> forall i :: 0 <= i < |es| ==> ValidateFromPr(es[i], rows).Success?
    decreases |es|
  {
    if es != [] {
      var init := es[..|es| - 1];
      AsWrittenAcceptsEach(init, rows);
      assert forall i :: 0 <= i < |init| ==> init[i] == es[i];
    }
  }

  lemma {:induction false} ApplyAllKeepsType(rows: map<nat, PrItemRow>, cs: seq<Conversion>, id: nat)
    requires AllKnown(cs, rows) && id in rows
    ensures ApplyAll(rows, cs)[id].prType == rows[id].prType
    decreases |cs|
  {
    if cs != [] {
      assert AllKnown(cs[..|cs| - 1], rows);
      ApplyAllKeepsType(rows, cs[..|cs| - 1], id);
    }
  }

  /**
   * The corrected check keeps every PR item within its quantity: what the accepted entries take
   * from an item, added to what was already converted, is at most the item's quantity.
   */
  lemma {:induction false} ValidatedWithinQuantity(es: seq<FromPrEntry>, rows: map<nat, PrItemRow>, id: nat)
    requires ValidateEntries(es, rows).Success? && id in rows
    ensures var cs := ValidateEntries(es, rows).value;
      Requested(cs, id) > 0 ==> rows[id].quantityConverted + Requested(cs, id) <= rows[id].quantity
    decreases |es|
  {
    if es != [] {
      var cs := ValidateEntries(es, rows).value;
      var init := es[..|es| - 1];
      var prev := ValidateEntries(init, rows).value;
      ValidatedWithinQuantity(init, rows, id);
      assert cs == prev + [cs[|cs| - 1]];
      assert cs[..|cs| - 1] == prev;
      var c := cs[|cs| - 1];
      assert ValidateFromPr(es[|es| - 1], ApplyAll(rows, prev)) == Success(c);
      if c.prItem == id {
        ApplyAllAdds(rows, prev, id);
        RequestedNonNegative(prev, id);
      }
    }
  }

  /**
   * POHeaderCreateSerializer: the nested items are checked first, then validate: exactly one of
   * items and items_from_pr is given, the supplier and currency exist, and every manual line
   * type and every source PR type equals the PO type. The PR entries are checked by the
   * corrected ValidateEntries.
   */
  function ValidateRequest(req: PoRequest, rows: map<nat, PrItemRow>, suppliers: set<nat>, currencies: set<nat>): (r: Result<Validated, PoError>)
    ensures r.Success? <==>
      && req.poType != PR.Unlisted
      && (forall i :: 0 <= i < |req.items| ==> ValidateManualLine(req.items[i]).Success?)
      && ValidateEntries(req.itemsFromPr, rows).Success?
      && (req.items == [] <==> req.itemsFromPr != [])
      && req.supplier in suppliers && req.currency in currencies
      && (forall i :: 0 <= i < |req.items| ==> req.items[i].lineType == req.poType)
      && (forall i :: 0 <= i < |req.itemsFromPr| ==>
            req.itemsFromPr[i].prItem in rows && rows[req.itemsFromPr[i].prItem].prType == req.poType)
    ensures req.poType == PR.Unlisted ==> r.Failure?
    ensures req.poType != PR.Unlisted && FirstManualError(req.items).Some? ==> r == Failure(FirstManualError(req.items).value)
    ensures r.Success? ==> (req.items == [] <==> req.itemsFromPr != [])
    ensures r.Success? ==> req.supplier in suppliers && req.currency in currencies
    ensures r.Success? && req.items != [] ==> (
      && r.value == Manual(req.items)
      && forall i :: 0 <= i < |req.items| ==>
           && req.items[i].lineType == req.poType && req.items[i].lineNumber >= 1
           && req.items[i].quantity > 0 && req.items[i].unitPrice >= 0)
    ensures r.Success? && req.itemsFromPr != [] ==>
      && r.value.FromPr? && ValidateEntries(req.itemsFromPr, rows) == Success(r.value.conversions)
      && forall i :: 0 <= i < |req.itemsFromPr| ==> rows[req.itemsFromPr[i].prItem].prType == req.poType
  {
    if req.poType == PR.Unlisted then Failure(InvalidType)
    else if FirstManualError(req.items).Some? then Failure(FirstManualError(req.items).value)
    else
      var converted := ValidateEntries(req.itemsFromPr, rows);
      if converted.Failure? then Failure(converted.error)
      else if req.items == [] && req.itemsFromPr == [] then Failure(NoItems)
      else if req.items != [] && req.itemsFromPr != [] then Failure(BothItemKinds)
      else if req.supplier !in suppliers then Failure(UnknownSupplier)
      else if req.currency !in currencies then Failure(UnknownCurrency)
      else if exists i :: 0 <= i < |req.items| && req.items[i].lineType != req.poType then Failure(LineTypeMismatch)
      else if exists i :: 0 <= i < |converted.value| && converted.value[i].loaded.prType != req.poType then
        Failure(PrTypeMismatch)
      else if req.items != [] then Success(Manual(req.items))
      else Success(FromPr(converted.value))
  }

  // ---------------------------------------------------------------------------------------
  // Create.

  /** The PO lines of a conversion request: numbered from 1 in request order. */
  function LinesFromPr(cs: seq<Conversion>): (r: seq<PoLine>)
    ensures |r| == |cs|
    ensures forall i :: 0 <= i < |cs| ==> r[i] == PoLine(i + 1, cs[i].quantity, cs[i].unitPrice, Some(cs[i].prItem))
  {
    seq(|cs|, i requires 0 <= i < |cs| => PoLine(i + 1, cs[i].quantity, cs[i].unitPrice, Some(cs[i].prItem)))
  }

  function ManualPoLines(ls: seq<ManualLine>): (r: seq<PoLine>)
    ensures |r| == |ls|
    ensures forall i :: 0 <= i < |ls| ==> r[i] == PoLine(ls[i].lineNumber, ls[i].quantity, ls[i].unitPrice, ls[i].sourcePrItem)
  {
    seq(|ls|, i requires 0 <= i < |ls| => PoLine(ls[i].lineNumber, ls[i].quantity, ls[i].unitPrice, ls[i].sourcePrItem))
  }

  /** The total quantity of the lines drawn from PR item `id`. */
  function LineQuantityFrom(lines: seq<PoLine>, id: nat): int
  {
    if lines == [] then 0
    else LineQuantityFrom(lines[..|lines| - 1], id) + (if lines[|lines| - 1].sourcePrItem == Some(id) then lines[|lines| - 1].quantity else 0)
  }

  /** The lines of a conversion request draw from each PR item exactly what the conversions take. */
  lemma {:induction false} LinesMatchRequested(cs: seq<Conversion>, id: nat)
    ensures LineQuantityFrom(LinesFromPr(cs), id) == Requested(cs, id)
  {
    if cs != [] {
      var init := cs[..|cs| - 1];
      LinesMatchRequested(init, id);
      assert LinesFromPr(cs)[..|cs| - 1] == LinesFromPr(init);
    }
  }

  function SourcePrs(cs: seq<Conversion>): set<nat>
  {
    set i | 0 <= i < |cs| :: cs[i].loaded.pr
  }

  /** One more conversion: one more line, its PR among the sources, and its quantity applied. */
  lemma ConversionStep(rows: map<nat, PrItemRow>, cs: seq<Conversion>, k: nat)
    requires k < |cs| && AllKnown(cs, rows)
    ensures AllKnown(cs[..k], rows) && AllKnown(cs[..k + 1], rows)
    ensures LinesFromPr(cs[..k + 1]) == LinesFromPr(cs[..k]) + [PoLine(k + 1, cs[k].quantity, cs[k].unitPrice, Some(cs[k].prItem))]
    ensures SourcePrs(cs[..k + 1]) == SourcePrs(cs[..k]) + {cs[k].loaded.pr}
    ensures ApplyAll(rows, cs[..k + 1]) == Apply(ApplyAll(rows, cs[..k]), cs[k])
  {
    var next := cs[..k + 1];
    assert next[..k] == cs[..k] && next[k] == cs[k];
    forall x | x in SourcePrs(next)
      ensures x in SourcePrs(cs[..k]) + {cs[k].loaded.pr}
    {
      var i :| 0 <= i < |next| && next[i].loaded.pr == x;
      if i < k {
        assert cs[..k][i] == next[i];
      }
    }
    forall x | x in SourcePrs(cs[..k])
      ensures x in SourcePrs(next)
    {
      var i :| 0 <= i < k && cs[..k][i].loaded.pr == x;
      assert next[i] == cs[..k][i];
    }
  }

  /** The PR items as the database holds them. */
  class PrItemTable {
    var rows: map<nat, PrItemRow>

    constructor (rows: map<nat, PrItemRow>)
      ensures this.rows == rows
    {
      this.rows := rows;
    }

    /**
     * POHeaderCreateSerializer.create as intended: the PO lines in request order (numbered from
     * 1 for conversions), the set of source PRs, and each converted quantity added to the PR
     * item as it is stored at that moment.
     */
    method Create(v: Validated) returns (lines: seq<PoLine>, sourcePrs: set<nat>)
      requires v.FromPr? ==> AllKnown(v.conversions, rows)
      modifies this
      ensures v.Manual? ==> lines == ManualPoLines(v.lines) && sourcePrs == {} && rows == old(rows)
      ensures v.FromPr? ==> lines == LinesFromPr(v.conversions) && sourcePrs == SourcePrs(v.conversions)
      ensures v.FromPr? ==> rows == ApplyAll(old(rows), v.conversions)
    {
      if v.Manual? {
        lines, sourcePrs := ManualPoLines(v.lines), {};
        return;
      }
      var cs := v.conversions;
      lines, sourcePrs := [], {};
      var k := 0;
      while k < |cs|
        invariant 0 <= k <= |cs|
        invariant AllKnown(cs[..k], old(rows))
        invariant rows == ApplyAll(old(rows), cs[..k])
        invariant lines == LinesFromPr(cs[..k])
        invariant sourcePrs == SourcePrs(cs[..k])
      {
        var c := cs[k];
        ConversionStep(old(rows), cs, k);
        lines := lines + [PoLine(k + 1, c.quantity, c.unitPrice, Some(c.prItem))];
        sourcePrs := sourcePrs + {c.loaded.pr};
        rows := rows[c.prItem := Converted(rows[c.prItem], c.quantity)];
        k := k + 1;
      }
      assert cs[..k] == cs;
    }

    /**
     * POHeaderCreateSerializer.create as written: each conversion is saved from the copy of the
     * PR item loaded during validation, so of two entries for one item the later save wins.
     */
    method CreateAsWritten(cs: seq<Conversion>) returns (lines: seq<PoLine>)
      modifies this
      ensures lines == LinesFromPr(cs)
      ensures rows == SaveAllAsWritten(old(rows), cs)
    {
      lines := [];
      var k := 0;
      while k < |cs|
        invariant 0 <= k <= |cs|
        invariant rows == SaveAllAsWritten(old(rows), cs[..k])
        invariant lines == LinesFromPr(cs[..k])
      {
        assert cs[..k + 1][..k] == cs[..k];
        lines := lines + [PoLine(k + 1, cs[k].quantity, cs[k].unitPrice, Some(cs[k].prItem))];
        rows := rows[cs[k].prItem := Converted(cs[k].loaded, cs[k].quantity)];
        k := k + 1;
      }
      assert cs[..k] == cs;
    }
  }

  /** The saves of the create as written, each from the copy loaded at validation. */
  function SaveAllAsWritten(rows: map<nat, PrItemRow>, cs: seq<Conversion>): map<nat, PrItemRow>
    decreases |cs|
  {
    if cs == [] then rows
    else
      var c := cs[|cs| - 1];
      SaveAllAsWritten(rows, cs[..|cs| - 1])[c.prItem := Converted(c.loaded, c.quantity)]
  }

  /**
   * With the corrected check, the create keeps the PR items and the PO in step: each PR item's
   * converted quantity grows by exactly the quantity of the PO lines drawn from it, and never
   * past the item's quantity.
   */
  lemma ConversionTracksLines(es: seq<FromPrEntry>, rows: map<nat, PrItemRow>, id: nat)
    requires ValidateEntries(es, rows).Success? && id in rows
    ensures var cs := ValidateEntries(es, rows).value;
      && ApplyAll(rows, cs)[id].quantityConverted == rows[id].quantityConverted + LineQuantityFrom(LinesFromPr(cs), id)
      && (LineQuantityFrom(LinesFromPr(cs), id) > 0 ==> ApplyAll(rows, cs)[id].quantityConverted <= rows[id].quantity)
  {
    var cs := ValidateEntries(es, rows).value;
    ApplyAllAdds(rows, cs, id);
    LinesMatchRequested(cs, id);
    ValidatedWithinQuantity(es, rows, id);
  }

  /**
   * As written, an entry that the serializer accepts is accepted again when the same PR item is
   * named a second time: both entries are checked against the item as stored.
   */
  lemma RepeatedEntryPassesAsWritten(e: FromPrEntry, rows: map<nat, PrItemRow>)
    requires ValidateFromPr(e, rows).Success?
    ensures var c := ValidateFromPr(e, rows).value;
      ValidateEntriesAsWritten([e, e], rows) == Success([c, c])
  {
    var c := ValidateFromPr(e, rows).value;
    assert [e, e][..1] == [e];
    assert [e][..0] == [];
    assert ValidateEntriesAsWritten([], rows) == Success([]);
    assert [] + [c] == [c];
    assert ValidateEntriesAsWritten([e], rows) == Success([c]);
    assert [c] + [c] == [c, c];
  }

  /**
   * As written, the create then puts the quantity into the PO twice while the PR item records
   * it once: the second save starts again from the copy loaded at validation.
   */
  lemma RepeatedEntrySavedOnceAsWritten(c: Conversion, rows: map<nat, PrItemRow>)
    ensures LineQuantityFrom(LinesFromPr([c, c]), c.prItem) == 2 * c.quantity
    ensures SaveAllAsWritten(rows, [c, c])[c.prItem].quantityConverted == c.loaded.quantityConverted + c.quantity
  {
    LinesMatchRequested([c, c], c.prItem);
    assert [c, c][..1] == [c];
    assert [c][..0] == [];
    assert Requested([c], c.prItem) == c.quantity;
  }

  /** One more entry is checked against the items as the accepted entries leave them. */
  lemma ValidateEntriesStep(es: seq<FromPrEntry>, e: FromPrEntry, rows: map<nat, PrItemRow>)
    requires ValidateEntries(es, rows).Success?
    ensures var cs := ValidateEntries(es, rows).value;
      ValidateFromPr(e, ApplyAll(rows, cs)).Failure? ==>
        ValidateEntries(es + [e], rows) == Failure(ValidateFromPr(e, ApplyAll(rows, cs)).error)
  {
    assert (es + [e])[..|es + [e]| - 1] == es;
  }

  /**
   * The corrected check refuses the second of two entries that each ask for all that remains of
   * one PR item: after the first, nothing remains.
   */
  lemma RepeatedFullEntryRefused(e: FromPrEntry, rows: map<nat, PrItemRow>)
    requires ValidateFromPr(e, rows).Success?
    requires e.quantityToConvert.None? || e.quantityToConvert == Some(Remaining(rows[e.prItem]))
    ensures ValidateEntries([e, e], rows) == Failure(NothingRemaining(e.prItem))
  {
    var c := ValidateFromPr(e, rows).value;
    assert [e][..0] == [];
    assert ValidateEntries([], rows) == Success([]);
    assert ApplyAll(rows, []) == rows;
    assert [] + [c] == [c];
    assert ValidateEntries([e], rows) == Success([c]);
    assert [c][..0] == [];
    assert ApplyAll(rows, [c])[e.prItem].quantityConverted == rows[e.prItem].quantity;
    ValidateEntriesStep([e], e, rows);
    assert [e] + [e] == [e, e];
  }

  // An item of 10 units of an approved Catalog PR, nothing converted yet, asked for all 10 units.
  const ExampleRow := PrItemRow(1, PR.Approved, PR.Catalog, 10000, 0, false)
  const ExampleEntry := FromPrEntry(7, Some(10000), 500)

  /**
   * The example entry is accepted for the item's full 10 units, and so is the same entry with
   * the quantity left out, which takes all that remains.
   */
  lemma ExampleEntryAccepted()
    ensures ValidateFromPr(ExampleEntry, map[7 := ExampleRow]) == Success(Conversion(7, ExampleRow, 10000, 500))
    ensures ValidateFromPr(ExampleEntry.(quantityToConvert := None), map[7 := ExampleRow]) == Success(Conversion(7, ExampleRow, 10000, 500))
    ensures ExampleEntry.quantityToConvert == Some(Remaining(ExampleRow))
  {
  }
}
