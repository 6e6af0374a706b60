/**
 * Fixed assets: the values of an asset in one depreciation book, their field validators, the
 * one-book-per-asset rule, and the straight-line monthly depreciation.
 *
 * Amounts are in cents (two decimal places). The depreciation divides a Decimal by the number
 * of months and quantizes the quotient to 0.01 with Decimal's default ROUND_HALF_EVEN. The
 * division itself is rounded to 28 significant digits first; with amounts of at most 15 digits
 * and a 32-bit month count, an exact quotient that is not a tie lies at least 1/(2·months) of a
 * cent from the nearest tie, far more than that first rounding can move it, so the model rounds
 * the exact quotient once.
 */
module FixedAssets {
  import opened Common
  import opened Rounding

  datatype AssetBook = AssetBook(
    asset: nat,
    book: nat,
    cost: int,
    salvageValue: int,
    usefulLifeMonths: int,
    remainingLifeMonths: int,
    isFullyDepreciated: bool)

  datatype BookError = NegativeCost | NegativeSalvage | LifeTooShort | NegativeRemainingLife | BookTaken

  /** The field validators: cost and salvage at least 0, a useful life of at least one month, a remaining life of at least 0. */
  predicate FieldsValid(b: AssetBook)
  {
    b.cost >= 0 && b.salvageValue >= 0 && b.usefulLifeMonths >= 1 && b.remainingLifeMonths >= 0
  }

  function ValidateFields(b: AssetBook): (r: Result<AssetBook, BookError>)
    ensures r.Success? <==> FieldsValid(b)
    ensures r.Success? ==> r.value == b
    ensures b.usefulLifeMonths < 1 && b.cost >= 0 && b.salvageValue >= 0 ==> r == Failure(LifeTooShort)
  {
    if b.cost < 0 then Failure(NegativeCost)
    else if b.salvageValue < 0 then Failure(NegativeSalvage)
    else if b.usefulLifeMonths < 1 then Failure(LifeTooShort)
    else if b.remainingLifeMonths < 0 then Failure(NegativeRemainingLife)
    else Success(b)
  }

  // ---------------------------------------------------------------------------------------
  // Depreciation.

  /**
   * AssetBook.calculate_monthly_depreciation: 0 for a fully depreciated book or a useful life of
   * 0 months; otherwise the depreciable amount (cost less salvage) over the useful life, rounded
   * half-even to the cent.
   */
  function MonthlyDepreciation(b: AssetBook): (m: int)
    ensures b.isFullyDepreciated || b.usefulLifeMonths == 0 ==> m == 0
    ensures !b.isFullyDepreciated && b.usefulLifeMonths != 0 ==>
      NearestHalfEven(b.cost - b.salvageValue, b.usefulLifeMonths, m)
  {
    if b.isFullyDepreciated || b.usefulLifeMonths == 0 then 0
    else RoundHalfEven(b.cost - b.salvageValue, b.usefulLifeMonths)
  }

  /**
   * Over its useful life, a valid book that is not fully depreciated is charged the depreciable
   * amount to within half a cent per month, never a negative charge when salvage does not exceed
   * cost, and exactly the depreciable amount when the months divide it.
   */
  lemma StraightLine(b: AssetBook)
    requires FieldsValid(b) && !b.isFullyDepreciated
    ensures var m, n, life := MonthlyDepreciation(b), b.cost - b.salvageValue, b.usefulLifeMonths;
      && 2 * Abs(m * life - n) <= life
      && (n >= 0 ==> m >= 0)
      && (n % life == 0 ==> m * life == n)
  {
    var m, n, life := MonthlyDepreciation(b), b.cost - b.salvageValue, b.usefulLifeMonths;
    if n % life == 0 {
      assert n == (n / life) * life;
      ExactQuotientKept(n / life, life);
    }
  }

  /** A fully depreciated book is charged nothing more, whatever its values. */
  lemma FullyDepreciatedChargesNothing(b: AssetBook)
    requires b.isFullyDepreciated
    ensures MonthlyDepreciation(b) == 0
  {
  }

  // ---------------------------------------------------------------------------------------
  // One book per asset.

  /** The unique_together rule: no two asset books share an (asset, book) pair. */
  predicate OneBookPerAsset(books: seq<AssetBook>)
  {
    forall i, j :: 0 <= i < j < |books| ==> books[i].asset != books[j].asset || books[i].book != books[j].book
  }

  /**
   * Creating an asset book by full_clean, then save: the field validators, then the
   * (asset, book) pair must be free. A plain save skips the validators.
   */
  function AddBook(books: seq<AssetBook>, b: AssetBook): (r: Result<seq<AssetBook>, BookError>)
    ensures r.Success? <==> FieldsValid(b) && forall i :: 0 <= i < |books| ==> books[i].asset != b.asset || books[i].book != b.book
    ensures r.Success? ==> r.value == books + [b]
  {
    var v := ValidateFields(b);
    if v.Failure? then Failure(v.error)
    else if exists i :: 0 <= i < |books| && books[i].asset == b.asset && books[i].book == b.book then Failure(BookTaken)
    else Success(books + [b])
  }

  /** Adding books one at a time through AddBook keeps one book per asset. */
  lemma {:induction false} AddBookKeepsOnePerAsset(books: seq<AssetBook>, b: AssetBook)
    requires OneBookPerAsset(books) && AddBook(books, b).Success?
    ensures OneBookPerAsset(AddBook(books, b).value)
  {
    var r := AddBook(books, b).value;
    forall i, j | 0 <= i < j < |r| ensures r[i].asset != r[j].asset || r[i].book != r[j].book {
      if j == |books| {
        assert r[i] == books[i] && r[j] == b;
      } else {
        assert r[i] == books[i] && r[j] == books[j];
      }
    }
  }
}
