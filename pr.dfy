/**
 * Purchase requisitions (PR): numbering per PR type, item and header totals, the status
 * predicates, cancellation, and conversion of items to purchase orders. Quantities are
 * integers in hundredths, prices and totals in cents; an item total is quantity times price
 * rounded half-even to the cent, as the DecimalField stores it.
 */
module PurchaseRequisition {
  import opened Common
  import opened Text
  import opened Rounding

  /** The PR type; `Unlisted` stands for a stored type outside the three choices. */
  datatype PrType = Catalog | NonCatalog | Service | Unlisted

  datatype PrStatus = Draft | PendingApproval | Approved | Rejected | Cancelled | ConvertedToPo

  function Prefix(t: PrType): (p: string)
    ensures |p| >= 2 && p[..2] == "PR"
  {
    match t
    case Catalog => "PR-CAT"
    case NonCatalog => "PR-NC"
    case Service => "PR-SRV"
    case Unlisted => "PR"
  }

  /** The numeric suffix of a PR number: the text after its last "-", when that is plain digits. */
  function Suffix(number: string): Option<nat>
  {
    ParseNat(LastField(number, '-'))
  }

  function FormatNumber(prefix: string, n: nat): (s: string)
    ensures prefix <= s
  {
    prefix + "-" + ZeroPad(n, 6)
  }

  lemma FormatNumberSuffix(prefix: string, n: nat)
    ensures Suffix(FormatNumber(prefix, n)) == Some(n)
  {
    DigitsArePlain(ZeroPad(n, 6));
    LastFieldAfter(prefix, '-', ZeroPad(n, 6));
    ZeroPadValue(n, 6);
  }

  // ---------------------------------------------------------------------------------------
  // Numbering as written: the last number is the greatest in string order.

  /** The number the database returns first when ordering the numbers with `prefix` descending. */
  function GreatestWithPrefix(numbers: seq<string>, prefix: string): (r: Option<string>)
    ensures r.None? <==> forall i :: 0 <= i < |numbers| ==> !(prefix <= numbers[i])
    ensures r.Some? ==> r.value in numbers && prefix <= r.value
  {
    if numbers == [] then None
    else
      var rest := GreatestWithPrefix(numbers[..|numbers| - 1], prefix);
      var last := numbers[|numbers| - 1];
      if prefix <= last && (rest.None? || LexLess(rest.value, last)) then Some(last) else rest
  }

  /** No number with the prefix comes after the one chosen, in string order. */
  lemma {:induction false} GreatestWithPrefixIsGreatest(numbers: seq<string>, prefix: string)
    ensures var r := GreatestWithPrefix(numbers, prefix);
      r.Some? ==> forall i :: 0 <= i < |numbers| && prefix <= numbers[i] ==> !LexLess(r.value, numbers[i])
  {
    if numbers != [] {
      var init := numbers[..|numbers| - 1];
      var rest := GreatestWithPrefix(init, prefix);
      var last := numbers[|numbers| - 1];
      GreatestWithPrefixIsGreatest(init, prefix);
      var r := GreatestWithPrefix(numbers, prefix);
      if r.Some? {
        forall i | 0 <= i < |numbers| && prefix <= numbers[i]
          ensures !LexLess(r.value, numbers[i])
        {
          if i == |numbers| - 1 {
            if r.value == last {
              LexLessIrreflexive(last);
            }
          } else {
            assert numbers[i] == init[i];
            if r.value == last && LexLess(last, numbers[i]) {
              LexLessTransitive(rest.value, last, numbers[i]);
            }
          }
        }
      }
    }
  }

  /** generate_pr_number as written: one past the suffix of the greatest number in string order (1 if none parses). */
  function NextPrNumberAsWritten(numbers: seq<string>, t: PrType): (s: string)
    ensures Prefix(t) <= s
  {
    var last := GreatestWithPrefix(numbers, Prefix(t));
    var n := if last.Some? && Suffix(last.value).Some? then Suffix(last.value).value + 1 else 1;
    FormatNumber(Prefix(t), n)
  }

  /**
   * Past 999999 string order puts "PR-CAT-999999" after "PR-CAT-1000000", so the number
   * generated next is one that already exists.
   */
  lemma PrNumberRepeatsAsWritten()
    ensures var numbers := ["PR-CAT-999999", "PR-CAT-1000000"];
      NextPrNumberAsWritten(numbers, Catalog) == numbers[1]
  {
    var numbers := ["PR-CAT-999999", "PR-CAT-1000000"];
    NineAfterOneMillion();
    assert GreatestWithPrefix(numbers[..1], "PR-CAT") == Some(numbers[0]);
    assert GreatestWithPrefix(numbers, "PR-CAT") == Some(numbers[0]);
    SuffixOfLastSixDigitNumber();
    OneMillionFormatted();
  }

  lemma NineAfterOneMillion()
    ensures !LexLess("PR-CAT-999999", "PR-CAT-1000000")
  {
    var a, b := "PR-CAT-999999", "PR-CAT-1000000";
    assert a[..7] == b[..7];
    LexLessSkip(a, b, 7);
    assert a[7..][0] == '9' && b[7..][0] == '1';
  }

  lemma SuffixOfLastSixDigitNumber()
    ensures Suffix("PR-CAT-999999") == Some(999999)
  {
    assert "PR-CAT-999999" == "PR-CAT" + "-" + "999999";
    DigitsArePlain("999999");
    LastFieldAfter("PR-CAT", '-', "999999");
    NatToStringValue(999999);
    assert NatToString(999999) == "999999";
  }

  lemma OneMillionFormatted()
    ensures FormatNumber("PR-CAT", 1000000) == "PR-CAT-1000000"
  {
    assert NatToString(1000000) == "1000000";
  }

  /** String order past a common prefix of length k is decided by what follows it. */
  lemma {:induction false} LexLessSkip(a: string, b: string, k: nat)
    requires k <= |a| && k <= |b| && a[..k] == b[..k]
    ensures LexLess(a, b) == LexLess(a[k..], b[k..])
  {
    if k > 0 {
      assert a[0] == a[..k][0] && b[0] == b[..k][0];
      assert a[1..][..k - 1] == a[..k][1..] && b[1..][..k - 1] == b[..k][1..];
      LexLessSkip(a[1..], b[1..], k - 1);
      assert a[1..][k - 1..] == a[k..] && b[1..][k - 1..] == b[k..];
    }
  }

  // ---------------------------------------------------------------------------------------
  // Numbering as intended: one past the greatest numeric suffix.

  /** The greatest numeric suffix among the numbers with `prefix` (0 if there is none). */
  function MaxSuffix(numbers: seq<string>, prefix: string): (m: nat)
    ensures forall i :: 0 <= i < |numbers| && prefix <= numbers[i] && Suffix(numbers[i]).Some? ==> Suffix(numbers[i]).value <= m
    ensures m == 0 || exists i :: 0 <= i < |numbers| && prefix <= numbers[i] && Suffix(numbers[i]) == Some(m)
  {
    if numbers == [] then 0
    else
      var rest := MaxSuffix(numbers[..|numbers| - 1], prefix);
      var last := numbers[|numbers| - 1];
      var mine := if prefix <= last && Suffix(last).Some? then Suffix(last).value else 0;
      assert forall i :: 0 <= i < |numbers| - 1 ==> numbers[i] == numbers[..|numbers| - 1][i];
      Max(rest, mine)
  }

  /** The number a new PR of type `t` receives. */
  function NextPrNumber(numbers: seq<string>, t: PrType): (s: string)
    ensures Prefix(t) <= s
  {
    FormatNumber(Prefix(t), MaxSuffix(numbers, Prefix(t)) + 1)
  }

  /** The generated number is new, and its suffix exceeds that of every number of its type. */
  lemma NextPrNumberIsFresh(numbers: seq<string>, t: PrType)
    ensures NextPrNumber(numbers, t) !in numbers
    ensures Suffix(NextPrNumber(numbers, t)).Some?
    ensures forall i :: 0 <= i < |numbers| && Prefix(t) <= numbers[i] && Suffix(numbers[i]).Some? ==>
      Suffix(numbers[i]).value < Suffix(NextPrNumber(numbers, t)).value
  {
    var next := MaxSuffix(numbers, Prefix(t)) + 1;
    FormatNumberSuffix(Prefix(t), next);
  }

  // ---------------------------------------------------------------------------------------
  // Items.

  /** A catalog item; `price` is None for an item without a price attribute. */
  datatype CatalogItem = CatalogItem(name: string, description: string, price: Option<int>)

  /** The price the catalog autofill gives an item: the catalog's, when the item has none and the catalog item has one. */
  function FilledPrice(item: Item): int
  {
    if item.catalogItem.Some? && item.unitPrice == 0 && item.catalogItem.value.price.Some?
    then item.catalogItem.value.price.value
    else item.unitPrice
  }

  datatype Item = Item(
    lineNumber: nat,
    itemName: string,
    description: string,
    catalogItem: Option<CatalogItem>,
    quantity: int,
    unitPrice: int,
    total: int,
    converted: bool)

  /**
   * total_price_per_item = quantity * estimated_unit_price as stored: the product (in units of
   * 10^-4) rounded half-even to the cent.
   */
  function ItemTotal(quantity: int, unitPrice: int): (t: int)
    ensures NearestHalfEven(quantity * unitPrice, 100, t)
  {
    RoundHalfEven(quantity * unitPrice, 100)
  }

  /**
   * Half a cent goes to the even cent: 0.50 at 0.01 stores 0.00 and 1.50 at 0.01 stores 0.02;
   * 2.00 at 10.00 stores exactly 20.00.
   */
  lemma ItemTotalRoundsHalfEven()
    ensures ItemTotal(50, 1) == 0 && ItemTotal(150, 1) == 2 && ItemTotal(200, 1000) == 2000
  {
    assert NearestHalfEven(50, 100, 0);
    RoundingIsUnique(50, 100, 0);
    assert NearestHalfEven(150, 100, 2);
    RoundingIsUnique(150, 100, 2);
    ExactQuotientKept(2000, 100);
  }

  predicate TotalIsCurrent(item: Item)
  {
    item.total == ItemTotal(item.quantity, item.unitPrice)
  }

  /**
   * The catalog autofill: an empty name, an empty description and a zero price come from the
   * catalog item, the price only when the catalog item has one.
   */
  function FillFromCatalog(item: Item): (r: Item)
    ensures r.quantity == item.quantity && r.lineNumber == item.lineNumber && r.total == item.total
    ensures r.converted == item.converted && r.catalogItem == item.catalogItem
    ensures r.unitPrice == FilledPrice(item)
    ensures item.catalogItem.Some? && item.catalogItem.value.price.None? ==> r.unitPrice == item.unitPrice
    ensures r.itemName == (if item.catalogItem.Some? && item.itemName == "" then item.catalogItem.value.name else item.itemName)
    ensures r.description == (if item.catalogItem.Some? && item.description == "" then item.catalogItem.value.description else item.description)
  {
    match item.catalogItem
    case None => item
    case Some(c) =>
      item.(itemName := if item.itemName == "" then c.name else item.itemName,
            description := if item.description == "" then c.description else item.description,
            unitPrice := if item.unitPrice == 0 && c.price.Some? then c.price.value else item.unitPrice)
  }

  /** PRItem.save as written: the total is computed from the price before the catalog autofill. */
  function PrepareItemAsWritten(item: Item): (r: Item)
    ensures r.total == ItemTotal(item.quantity, item.unitPrice)
    ensures item.catalogItem.None? || item.unitPrice != 0 ==> TotalIsCurrent(r)
  {
    FillFromCatalog(item.(total := ItemTotal(item.quantity, item.unitPrice)))
  }

  /** A catalog item saved without a price gets the catalog's price but keeps a total of 0. */
  lemma ItemTotalStaleAsWritten()
    ensures var item := Item(0, "", "", Some(CatalogItem("Paper", "A4", Some(1000))), 200, 0, 0, false);
      var r := PrepareItemAsWritten(item);
      r.unitPrice == 1000 && r.total == 0 && !TotalIsCurrent(r)
  {
  }

  /** PRItem.save as intended: the catalog autofill first, then the total from the final price. */
  function PrepareItem(item: Item): (r: Item)
    ensures TotalIsCurrent(r)
    ensures r.unitPrice == FilledPrice(item)
    ensures r.quantity == item.quantity && r.lineNumber == item.lineNumber && r.converted == item.converted
  {
    var filled := FillFromCatalog(item);
    filled.(total := ItemTotal(filled.quantity, filled.unitPrice))
  }

  function MaxLineNumber(items: seq<Item>): (m: nat)
    ensures forall i :: 0 <= i < |items| ==> items[i].lineNumber <= m
    ensures m == 0 || exists i :: 0 <= i < |items| && items[i].lineNumber == m
  {
    if items == [] then 0
    else
      var rest := MaxLineNumber(items[..|items| - 1]);
      assert forall i :: 0 <= i < |items| - 1 ==> items[i] == items[..|items| - 1][i];
      Max(rest, items[|items| - 1].lineNumber)
  }

  /** A line number that is unset (0) or 1 becomes one past the largest stored; others are kept. */
  function AssignLineNumber(lineNumber: nat, stored: seq<Item>): (n: nat)
    ensures lineNumber > 1 ==> n == lineNumber
    ensures lineNumber <= 1 ==> forall i :: 0 <= i < |stored| ==> stored[i].lineNumber < n
    ensures lineNumber <= 1 ==> n >= 1
  {
    if lineNumber == 0 || lineNumber == 1 then MaxLineNumber(stored) + 1 else lineNumber
  }

  /** Re-saving the only item, numbered 1, renumbers it to 2. */
  lemma ResavedFirstLineMoves()
    ensures var item := Item(1, "Desk", "", None, 100, 5000, 5000, false);
      AssignLineNumber(1, [item]) == 2
  {
  }

  datatype ItemError = NonPositiveQuantity | NegativePrice | CatalogItemRequired

  /** PRItem.clean: a positive quantity, a non-negative price, and a catalog item on Catalog PRs. */
  function CleanItem(item: Item, t: PrType): (r: Result<(), ItemError>)
    ensures r.Success? <==> item.quantity > 0 && item.unitPrice >= 0 && (t == Catalog ==> item.catalogItem.Some?)
    ensures item.quantity <= 0 ==> r == Failure(NonPositiveQuantity)
    ensures item.quantity > 0 && item.unitPrice < 0 ==> r == Failure(NegativePrice)
  {
    if item.quantity <= 0 then Failure(NonPositiveQuantity)
    else if item.unitPrice < 0 then Failure(NegativePrice)
    else if t == Catalog && item.catalogItem.None? then Failure(CatalogItemRequired)
    else Success(())
  }

  /** The sum of the item totals (0 for no items). */
  function ItemsTotal(items: seq<Item>): int
  {
    if items == [] then 0 else ItemsTotal(items[..|items| - 1]) + items[|items| - 1].total
  }

  /** When every total is current, the PR total is the sum of quantity times price. */
  function PricedTotal(items: seq<Item>): int
  {
    if items == [] then 0 else PricedTotal(items[..|items| - 1]) + ItemTotal(items[|items| - 1].quantity, items[|items| - 1].unitPrice)
  }

  lemma {:induction false} ItemsTotalIsPriced(items: seq<Item>)
    requires forall i :: 0 <= i < |items| ==> TotalIsCurrent(items[i])
    ensures ItemsTotal(items) == PricedTotal(items)
  {
    if items != [] {
      ItemsTotalIsPriced(items[..|items| - 1]);
    }
  }

  /** Storing an item whose line number no other item has keeps the line numbers distinct. */
  lemma StoreKeepsDistinct(before: seq<Item>, k: Option<nat>, stored: Item, after: seq<Item>)
    requires k.Some? ==> k.value < |before|
    requires !LineNumberTaken(before, k, stored.lineNumber)
    requires after == if k.Some? then before[k.value := stored] else before + [stored]
    ensures DistinctLineNumbers(before) ==> DistinctLineNumbers(after)
  {
    if DistinctLineNumbers(before) {
      forall i, j | 0 <= i < j < |after|
        ensures after[i].lineNumber != after[j].lineNumber
      {
        var x := if k.Some? then k.value else |before|;
        if i == x {
          assert before[j].lineNumber != stored.lineNumber;
        } else if j == x {
          assert before[i].lineNumber != stored.lineNumber;
        }
      }
    }
  }

  function CountConverted(items: seq<Item>): (n: nat)
    ensures n <= |items|
    ensures n == |items| <==> forall i :: 0 <= i < |items| ==> items[i].converted
    ensures n == 0 <==> forall i :: 0 <= i < |items| ==> !items[i].converted
  {
    if items == [] then 0
    else
      var init := items[..|items| - 1];
      assert forall i :: 0 <= i < |items| - 1 ==> items[i] == init[i];
      CountConverted(init) + (if items[|items| - 1].converted then 1 else 0)
  }

  datatype PrError = CannotCancel(status: PrStatus) | NotApproved | NoItems | DuplicateLineNumber(lineNumber: nat)

  /** Another stored item than `k` already has line number `n` (unique per PR). */
  predicate LineNumberTaken(items: seq<Item>, k: Option<nat>, n: nat)
  {
    exists i :: 0 <= i < |items| && (k.None? || i != k.value) && items[i].lineNumber == n
  }

  /** No two items of a PR share a line number. */
  predicate DistinctLineNumbers(items: seq<Item>)
  {
    forall i, j :: 0 <= i < j < |items| ==> items[i].lineNumber != items[j].lineNumber
  }

  function CancellationNotes(notes: string, reason: string): (r: string)
    ensures reason == [] ==> r == notes
    ensures reason != [] && notes == [] ==> r == "Cancellation Reason: " + reason
    ensures reason != [] && notes != [] ==> r == notes + "\n\nCancellation Reason: " + reason
  {
    if reason == [] then notes
    else if notes == [] then "Cancellation Reason: " + reason
    else notes + "\n\nCancellation Reason: " + reason
  }

  class Requisition {
    var prType: PrType
    var prNumber: string
    var status: PrStatus
    var notes: string
    var total: int
    var items: seq<Item>

    constructor (prType: PrType)
      ensures this.prType == prType && prNumber == "" && status == Draft && notes == "" && total == 0 && items == []
    {
      this.prType := prType;
      prNumber := "";
      status := Draft;
      notes := "";
      total := 0;
      items := [];
    }

    /** Every item total equals its quantity times its price. */
    predicate TotalsCurrent()
      reads this
    {
      forall i :: 0 <= i < |items| ==> TotalIsCurrent(items[i])
    }

    /** generate_pr_number: a PR without a number gets the next one of its type; a numbered PR keeps its own. */
    method GeneratePrNumber(numbers: seq<string>)
      modifies this
      ensures old(prNumber) != "" ==> prNumber == old(prNumber)
      ensures old(prNumber) == "" ==> prNumber == NextPrNumber(numbers, prType) && prNumber !in numbers
      ensures prType == old(prType) && status == old(status) && notes == old(notes)
      ensures total == old(total) && items == old(items)
    {
      if prNumber == "" {
        prNumber := NextPrNumber(numbers, prType);
        NextPrNumberIsFresh(numbers, prType);
      }
    }

    /** calculate_totals: the header total is the sum of the item totals. */
    method CalculateTotals()
      modifies this
      ensures total == ItemsTotal(items)
      ensures TotalsCurrent() ==> total == PricedTotal(items)
      ensures items == old(items) && status == old(status) && notes == old(notes)
      ensures prType == old(prType) && prNumber == old(prNumber)
    {
      total := ItemsTotal(items);
      if TotalsCurrent() {
        ItemsTotalIsPriced(items);
      }
    }

    function IsApproved(): (b: bool)
      reads this
      ensures b <==> status.Approved?
    {
      status == Approved
    }

    function IsRejected(): (b: bool)
      reads this
      ensures b <==> status.Rejected?
    {
      status == Rejected
    }

    function IsCancelled(): (b: bool)
      reads this
      ensures b <==> status.Cancelled?
    {
      status == Cancelled
    }

    /** Only DRAFT and REJECTED PRs can be edited. */
    function CanBeEdited(): (b: bool)
      reads this
      ensures b <==> status.Draft? || status.Rejected?
    {
      status == Draft || status == Rejected
    }

    function CanBeApproved(): (b: bool)
      reads this
      ensures b <==> status.PendingApproval?
    {
      status == PendingApproval
    }

    /** Any PR not already cancelled or converted can be cancelled. */
    function CanBeCancelled(): (b: bool)
      reads this
      ensures b <==> !status.Cancelled? && !status.ConvertedToPo?
    {
      status != Cancelled && status != ConvertedToPo
    }

    /** cancel: refused unless cancellable; sets CANCELLED and records a given reason in the notes. */
    method Cancel(reason: string) returns (r: Result<(), PrError>)
      modifies this
      ensures r.Success? <==> old(CanBeCancelled())
      ensures r.Failure? ==> r.error == CannotCancel(old(status)) && status == old(status) && notes == old(notes)
      ensures r.Success? ==> status == Cancelled && notes == CancellationNotes(old(notes), reason)
      ensures r.Success? ==> IsCancelled() && !CanBeEdited() && !CanBeApproved() && !CanBeCancelled()
      ensures items == old(items) && total == old(total) && prNumber == old(prNumber) && prType == old(prType)
    {
      if !CanBeCancelled() {
        return Failure(CannotCancel(status));
      }
      status := Cancelled;
      notes := CancellationNotes(notes, reason);
      r := Success(());
    }

    /**
     * mark_as_converted_to_po: needs an approved PR with items; the PR becomes CONVERTED_TO_PO
     * only once every item is converted, and otherwise stays APPROVED.
     */
    method MarkAsConvertedToPo() returns (r: Result<(), PrError>)
      modifies this
      ensures !old(status).Approved? ==> r == Failure(NotApproved)
      ensures old(status).Approved? && items == [] ==> r == Failure(NoItems)
      ensures r.Success? <==> old(status).Approved? && items != []
      ensures r.Success? ==> (status.ConvertedToPo? <==> forall i :: 0 <= i < |items| ==> items[i].converted)
      ensures r.Success? ==> status.ConvertedToPo? || status.Approved?
      ensures r.Failure? ==> status == old(status)
      ensures items == old(items) && total == old(total) && notes == old(notes)
      ensures prNumber == old(prNumber) && prType == old(prType)
    {
      if status != Approved {
        return Failure(NotApproved);
      }
      if |items| == 0 {
        return Failure(NoItems);
      }
      if CountConverted(items) == |items| {
        status := ConvertedToPo;
      }
      r := Success(());
    }

    /** Some but not all items converted, on a PR not marked as converted. */
    function IsPartiallyConverted(): (b: bool)
      reads this
      ensures b <==> !status.ConvertedToPo? && (exists i :: 0 <= i < |items| && items[i].converted)
                                           && (exists i :: 0 <= i < |items| && !items[i].converted)
    {
      if status == ConvertedToPo || |items| == 0 then false
      else 0 < CountConverted(items) < |items|
    }

    /** An item can be converted while its PR is approved and the item itself is not yet converted. */
    function CanBeConverted(k: nat): (b: bool)
      requires k < |items|
      reads this
      ensures b <==> status.Approved? && !items[k].converted
    {
      status == Approved && !items[k].converted
    }

    /**
     * PRItem.save for a new item or for item `k` again: totals and catalog autofill (with the
     * corrected total, see Findings), a line number past the stored ones when unset or 1; a line
     * number another item of the PR already has breaks the unique (pr, line_number) constraint
     * and nothing is stored; otherwise the PR total is recomputed.
     */
    method SaveItem(k: Option<nat>, item: Item) returns (r: Result<(), PrError>)
      requires k.Some? ==> k.value < |items|
      modifies this
      ensures var n := AssignLineNumber(PrepareItem(item).lineNumber, old(items));
        && (r.Failure? <==> LineNumberTaken(old(items), k, n))
        && (r.Failure? ==> r.error == DuplicateLineNumber(n) && items == old(items) && total == old(total))
      ensures var p := PrepareItem(item);
        var stored := p.(lineNumber := AssignLineNumber(p.lineNumber, old(items)));
        r.Success? ==> items == if k.Some? then old(items)[k.value := stored] else old(items) + [stored]
      ensures r.Success? ==> total == ItemsTotal(items)
      ensures r.Success? && old(TotalsCurrent()) ==> TotalsCurrent() && total == PricedTotal(items)
      ensures r.Success? && old(DistinctLineNumbers(items)) ==> DistinctLineNumbers(items)
      ensures status == old(status) && notes == old(notes) && prNumber == old(prNumber) && prType == old(prType)
    {
      var p := PrepareItem(item);
      var n := AssignLineNumber(p.lineNumber, items);
      if exists i :: 0 <= i < |items| && (k.None? || i != k.value) && items[i].lineNumber == n {
        return Failure(DuplicateLineNumber(n));
      }
      var stored := p.(lineNumber := n);
      ghost var before := items;
      if k.Some? {
        items := items[k.value := stored];
      } else {
        items := items + [stored];
      }
      StoreKeepsDistinct(before, k, stored, items);
      CalculateTotals();
      r := Success(());
    }

    /** PRItem.delete: removes item `k`, then recomputes the PR total. */
    method DeleteItem(k: nat)
      requires k < |items|
      modifies this
      ensures items == old(items[..k]) + old(items[k + 1..])
      ensures total == ItemsTotal(items)
      ensures old(TotalsCurrent()) ==> TotalsCurrent() && total == PricedTotal(items)
      ensures status == old(status) && notes == old(notes) && prNumber == old(prNumber) && prType == old(prType)
    {
      items := items[..k] + items[k + 1..];
      CalculateTotals();
    }

    /** PRItem.mark_as_converted: only the item's converted flag is written. */
    method MarkItemConverted(k: nat)
      requires k < |items|
      modifies this
      ensures items == old(items)[k := old(items[k]).(converted := true)]
      ensures !CanBeConverted(k)
      ensures total == old(total) && status == old(status) && notes == old(notes)
      ensures prNumber == old(prNumber) && prType == old(prType)
    {
      items := items[k := items[k].(converted := true)];
    }
  }
}
