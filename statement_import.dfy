/**
 * Bank statement import: matching the file's columns to statement fields by alias, parsing
 * amounts written in US or European style, deciding debit or credit for each row, and
 * collecting the valid lines with their totals and date range.
 * A file is a list of column names and rows of cells (`None` for an empty cell); amounts are
 * exact decimals: an integer number of units of 10^-scale, as Python's Decimal keeps them.
 */
module StatementImport {
  import opened Common
  import opened Text

  datatype Field =
    | LineNumber | TransactionDate | ValueDate | Description | ReferenceNumber
    | DebitAmount | CreditAmount | Amount | TransactionType | Balance | PayeePayer

  /** The column names each field is recognised by. */
  function Aliases(f: Field): seq<string>
  {
    match f
    case LineNumber => ["line_number", "line", "line_no", "transaction_no", "trans_no", "#"]
    case TransactionDate => ["transaction_date", "trans_date", "date", "value_date", "posting_date"]
    case ValueDate => ["value_date", "effective_date", "settlement_date"]
    case Description => ["description", "details", "narrative", "particulars", "remarks"]
    case ReferenceNumber => ["reference_number", "reference", "ref", "ref_no", "check_no", "cheque_no"]
    case DebitAmount => ["debit", "debit_amount", "withdrawal", "dr", "payment"]
    case CreditAmount => ["credit", "credit_amount", "deposit", "cr", "receipt"]
    case Amount => ["amount", "transaction_amount", "trans_amount"]
    case TransactionType => ["transaction_type", "type", "trans_type", "dr_cr"]
    case Balance => ["balance", "running_balance", "balance_after", "closing_balance"]
    case PayeePayer => ["payee_payer", "party", "counterparty", "beneficiary", "payee", "payer"]
  }

  /** A column name as compared: lower case, without underscores and spaces. */
  function Normalize(name: string): (r: string)
    ensures '_' !in r && ' ' !in r
  {
    var once := RemoveChar(Lower(name), '_');
    RemoveKeepsAbsent(once, ' ', '_');
    RemoveChar(once, ' ')
  }

  predicate MatchesAny(column: string, aliases: seq<string>)
  {
    exists a :: 0 <= a < |aliases| && Normalize(column) == Normalize(aliases[a])
  }

  /** Whether some alias matches, checked alias by alias. */
  function AnyAliasMatches(column: string, aliases: seq<string>): (b: bool)
    ensures b <==> MatchesAny(column, aliases)
  {
    if aliases == [] then false
    else
      assert forall a :: 0 <= a < |aliases| - 1 ==> aliases[a] == aliases[..|aliases| - 1][a];
      AnyAliasMatches(column, aliases[..|aliases| - 1]) || Normalize(column) == Normalize(aliases[|aliases| - 1])
  }

  /** _find_column: the first column, in file order, that matches any of the aliases. */
  function FindColumn(columns: seq<string>, aliases: seq<string>): (r: Option<nat>)
    ensures r.Some? ==> r.value < |columns| && ColumnMatches(columns, aliases, r.value)
    ensures r.Some? ==> forall k :: 0 <= k < r.value ==> !ColumnMatches(columns, aliases, k)
    ensures r.None? <==> forall k :: 0 <= k < |columns| ==> !ColumnMatches(columns, aliases, k)
  {
    FindFrom(columns, aliases, 0)
  }

  /** Whether column k matches one of the aliases. */
  predicate ColumnMatches(columns: seq<string>, aliases: seq<string>, k: nat)
    requires k < |columns|
  {
    AnyAliasMatches(columns[k], aliases)
  }

  function FindFrom(columns: seq<string>, aliases: seq<string>, i: nat): (r: Option<nat>)
    requires i <= |columns|
    ensures r.Some? ==> i <= r.value < |columns| && ColumnMatches(columns, aliases, r.value)
    ensures r.Some? ==> forall k :: i <= k < r.value ==> !ColumnMatches(columns, aliases, k)
    ensures r.None? ==> forall k :: i <= k < |columns| ==> !ColumnMatches(columns, aliases, k)
    decreases |columns| - i
  {
    if i == |columns| then None
    else if ColumnMatches(columns, aliases, i) then Some(i)
    else FindFrom(columns, aliases, i + 1)
  }

  lemma LowerConcat(a: string, b: string)
    ensures Lower(a + b) == Lower(a) + Lower(b)
  {
    var l, r := Lower(a + b), Lower(a) + Lower(b);
    forall i | 0 <= i < |l|
      ensures l[i] == r[i]
    {
      if i < |a| {
        assert (a + b)[i] == a[i];
      } else {
        assert (a + b)[i] == b[i - |a|];
      }
    }
  }

  /** Header names are compared piece by piece: normalising a concatenation normalises each part. */
  lemma NormalizeConcat(a: string, b: string)
    ensures Normalize(a + b) == Normalize(a) + Normalize(b)
  {
    LowerConcat(a, b);
    RemoveCharConcat(Lower(a), Lower(b), '_');
    RemoveCharConcat(RemoveChar(Lower(a), '_'), RemoveChar(Lower(b), '_'), ' ');
  }

  /** An underscore or a space inside a header is ignored: "Trans Date" matches "trans_date". */
  lemma SeparatorIgnored(a: string, c: char, b: string)
    requires c == '_' || c == ' '
    ensures Normalize(a + [c] + b) == Normalize(a + b)
  {
    NormalizeConcat(a + [c], b);
    NormalizeConcat(a, [c]);
    NormalizeConcat(a, b);
    assert Lower([c]) == [c];
    assert RemoveChar([c], '_') == (if c == '_' then [] else [c]) by {
      assert [c][..0] == [];
    }
    assert RemoveChar(RemoveChar([c], '_'), ' ') == [] by {
      assert [c][..0] == [];
    }
    assert Normalize(a + [c]) == Normalize(a);
  }

  /** Letter case in a header is ignored: "DEBIT" matches "debit". */
  lemma CaseIgnored(s: string)
    ensures Normalize(Upper(s)) == Normalize(s)
  {
    var l, r := Lower(Upper(s)), Lower(s);
    forall i | 0 <= i < |s|
      ensures l[i] == r[i]
    {
      assert Upper(s)[i] == UpperChar(s[i]);
    }
    assert l == r;
  }

  // ---------------------------------------------------------------------------------------
  // Amounts.

  predicate IsCurrencySymbol(c: char)
  {
    c == '$' || c == '€' || c == '£'
  }

  function RemoveCurrency(s: string): string
  {
    RemoveChar(RemoveChar(RemoveChar(s, '$'), '€'), '£')
  }

  /**
   * The separator rule: with both "," and "." the later one is the decimal point; a single
   * "," followed by exactly two characters is a decimal point; any other "," groups thousands.
   */
  function NormalizeSeparators(s: string): (r: string)
    ensures ',' !in r
    ensures ',' in s && '.' in s && LastIndexOf(s, ',') < LastIndexOf(s, '.') ==> r == RemoveChar(s, ',')
    ensures ',' in s && '.' in s && LastIndexOf(s, ',') > LastIndexOf(s, '.') ==> r == ReplaceChar(RemoveChar(s, '.'), ',', '.')
    ensures ',' !in s ==> r == s
  {
    if ',' in s && '.' in s then
      if LastIndexOf(s, ',') > LastIndexOf(s, '.') then ReplaceChar(RemoveChar(s, '.'), ',', '.') else RemoveChar(s, ',')
    else if ',' in s then
      if CountChar(s, ',') == 1 && |LastField(s, ',')| == 2 then ReplaceChar(s, ',', '.') else RemoveChar(s, ',')
    else s
  }

  /** A Python Decimal: `units` times 10^-scale; the scale is kept, as Decimal keeps trailing zeros. */
  datatype Dec = Dec(units: int, scale: nat)

  const Zero := Dec(0, 0)

  function Negate(d: Dec): (r: Dec)
    ensures r.scale == d.scale && r.units == -d.units
  {
    Dec(-d.units, d.scale)
  }

  /** Decimal addition: exact, at the finer of the two scales. */
  function Add(a: Dec, b: Dec): (r: Dec)
    ensures r.scale == Max(a.scale, b.scale)
    ensures r.units == a.units * Pow10(r.scale - a.scale) + b.units * Pow10(r.scale - b.scale)
  {
    var s := Max(a.scale, b.scale);
    Dec(a.units * Pow10(s - a.scale) + b.units * Pow10(s - b.scale), s)
  }

  /**
   * Python's `Decimal(s)` for plain decimal literals: optional sign, digits with at most one
   * decimal point, at least one digit; surrounding whitespace is ignored.
   */
  function DecimalLiteral(s: string): (r: Option<Dec>)
  {
    var t := Strip(s);
    var negative := t != [] && t[0] == '-';
    var body := if t != [] && (t[0] == '-' || t[0] == '+') then t[1..] else t;
    var magnitude := Magnitude(body);
    if magnitude.Some? && negative then Some(Negate(magnitude.value)) else magnitude
  }

  /** The unsigned part of a decimal literal: digits with at most one decimal point, at least one digit. */
  function Magnitude(body: string): (r: Option<Dec>)
  {
    if '.' !in body then
      if body != [] && AllDigits(body) then Some(Dec(DigitsValue(body), 0)) else None
    else if CountChar(body, '.') == 1 then
      var k := LastIndexOf(body, '.');
      var whole, fraction := body[..k], body[k + 1..];
      if AllDigits(whole) && AllDigits(fraction) && |whole| + |fraction| > 0
      then Some(Dec(DigitsValue(whole + fraction), |fraction|))
      else None
    else None
  }

  /** What remains of a cell once currency symbols, surrounding whitespace and parentheses are removed. */
  datatype Unwrapped = Unwrapped(negative: bool, inner: string)

  function Unwrap(s: string): Unwrapped
  {
    var t := Strip(RemoveCurrency(s));
    if t != [] && t[0] == '(' && t[|t| - 1] == ')' then Unwrapped(true, Strip(t[1..|t| - 1])) else Unwrapped(false, t)
  }

  /** _parse_decimal: `None` for an empty cell or text that is not a number. */
  function ParseDecimal(cell: Option<string>): (r: Option<Dec>)
    ensures cell.None? || cell.value == "" ==> r.None?
    ensures r.Some? ==> DecimalLiteral(NormalizeSeparators(Unwrap(cell.value).inner)).Some?
  {
    if cell.None? || cell.value == "" then None
    else
      var u := Unwrap(cell.value);
      var d := DecimalLiteral(NormalizeSeparators(u.inner));
      if d.Some? && u.negative then Some(Negate(d.value)) else d
  }

  /** An amount in parentheses is the negated amount. */
  lemma ParenthesesNegate(x: string)
    requires x != [] && !IsSpace(x[0]) && !IsSpace(x[|x| - 1])
    requires forall i :: 0 <= i < |x| ==> !IsCurrencySymbol(x[i])
    requires !(x[0] == '(' && x[|x| - 1] == ')')
    ensures var p := ParseDecimal(Some(x));
      ParseDecimal(Some("(" + x + ")")) == if p.Some? then Some(Negate(p.value)) else None
  {
    UnwrapPlain(x);
    UnwrapParentheses(x);
    ParseUnwrapped(x, x);
    ParseUnwrapped("(" + x + ")", x);
  }

  /** ParseDecimal reads what Unwrap leaves, negated when it was in parentheses. */
  lemma ParseUnwrapped(s: string, inner: string)
    requires s != [] && Unwrap(s).inner == inner
    ensures var d := DecimalLiteral(NormalizeSeparators(inner));
      ParseDecimal(Some(s)) == if d.Some? && Unwrap(s).negative then Some(Negate(d.value)) else d
  {
  }

  lemma UnwrapPlain(x: string)
    requires x != [] && !IsSpace(x[0]) && !IsSpace(x[|x| - 1])
    requires forall i :: 0 <= i < |x| ==> !IsCurrencySymbol(x[i])
    requires !(x[0] == '(' && x[|x| - 1] == ')')
    ensures Unwrap(x) == Unwrapped(false, x)
  {
    NoCurrency(x);
    StripUnchanged(x);
  }

  lemma UnwrapParentheses(x: string)
    requires x != [] && !IsSpace(x[0]) && !IsSpace(x[|x| - 1])
    requires forall i :: 0 <= i < |x| ==> !IsCurrencySymbol(x[i])
    ensures Unwrap("(" + x + ")") == Unwrapped(true, x)
  {
    var w := "(" + x + ")";
    assert |w| == |x| + 2 && w[0] == '(' && w[|w| - 1] == ')' && w[1..|w| - 1] == x;
    ParenthesesKeepCurrency(x);
    StripUnchanged(w);
    StripUnchanged(x);
  }

  /** Parentheses add no currency symbol to remove. */
  lemma ParenthesesKeepCurrency(x: string)
    requires forall i :: 0 <= i < |x| ==> !IsCurrencySymbol(x[i])
    ensures RemoveCurrency("(" + x + ")") == "(" + x + ")"
  {
    var w := "(" + x + ")";
    forall i | 0 <= i < |w|
      ensures !IsCurrencySymbol(w[i])
    {
      if 0 < i < |w| - 1 {
        assert w[i] == x[i - 1];
      }
    }
    NoCurrency(w);
  }

  lemma NoCurrency(s: string)
    requires forall i :: 0 <= i < |s| ==> !IsCurrencySymbol(s[i])
    ensures RemoveCurrency(s) == s
  {
    RemoveAbsent(s, '$');
    RemoveAbsent(s, '€');
    RemoveAbsent(s, '£');
  }

  /** Digits and separators only: no whitespace, currency or parentheses to unwrap. */
  predicate NumberChars(s: string)
  {
    forall i :: 0 <= i < |s| ==> IsDigit(s[i]) || s[i] == ',' || s[i] == '.'
  }

  lemma PlainNumber(s: string)
    requires NumberChars(s) && s != [] && IsDigit(s[0])
    ensures ParseDecimal(Some(s)) == DecimalLiteral(NormalizeSeparators(s))
  {
    UnwrapPlain(s);
    ParseUnwrapped(s, s);
  }

  /** In "a,b.f" the comma comes first: it is dropped. */
  lemma NormalizeUs(a: string, b: string, f: string)
    requires AllDigits(a) && AllDigits(b) && AllDigits(f)
    ensures NormalizeSeparators(a + "," + b + "." + f) == (a + b) + "." + f
  {
    var s := a + "," + b + "." + f;
    var tail := b + "." + f;
    DigitsArePlain(a);
    DigitsArePlain(b);
    DigitsArePlain(f);
    assert ',' !in tail;
    assert s == a + [','] + tail;
    LastIndexOfSplit(a, ',', tail);
    assert s == (a + "," + b) + ['.'] + f;
    LastIndexOfSplit(a + "," + b, '.', f);
    RemoveSingle(a, ',', tail);
    assert a + tail == (a + b) + "." + f;
  }

  /** In "a.b,f" the dot comes first: it is dropped and the comma becomes the point. */
  lemma NormalizeEuropean(a: string, b: string, f: string)
    requires AllDigits(a) && AllDigits(b) && AllDigits(f)
    ensures NormalizeSeparators(a + "." + b + "," + f) == (a + b) + "." + f
  {
    var s := a + "." + b + "," + f;
    var tail := b + "," + f;
    DigitsArePlain(a);
    DigitsArePlain(b);
    DigitsArePlain(f);
    assert '.' !in tail;
    assert s == a + ['.'] + tail;
    LastIndexOfSplit(a, '.', tail);
    assert s == (a + "." + b) + [','] + f;
    LastIndexOfSplit(a + "." + b, ',', f);
    RemoveSingle(a, '.', tail);
    var joined := a + tail;
    assert joined == (a + b) + "," + f;
    ReplaceAtSplit(a + b, f);
  }

  /** Replacing the one comma in digits + "," + digits by a dot. */
  lemma ReplaceAtSplit(w: string, f: string)
    requires AllDigits(w) && AllDigits(f)
    ensures ReplaceChar(w + "," + f, ',', '.') == w + "." + f
  {
    var s := w + "," + f;
    var r := ReplaceChar(s, ',', '.');
    forall i | 0 <= i < |s|
      ensures r[i] == (w + "." + f)[i]
    {
      if i < |w| {
        assert s[i] == w[i];
      } else if i > |w| {
        assert s[i] == f[i - |w| - 1];
      }
    }
  }

  /** A lone comma before exactly two digits becomes the point. */
  lemma NormalizeLoneDecimal(a: string, f: string)
    requires AllDigits(a) && AllDigits(f) && |f| == 2
    ensures NormalizeSeparators(a + "," + f) == a + "." + f
  {
    var s := a + "," + f;
    DigitsArePlain(a);
    DigitsArePlain(f);
    assert s[|a|] == ',';
    assert '.' !in s;
    CountConcat(a + ",", f, ',');
    CountConcat(a, ",", ',');
    assert s == a + [','] + f;
    LastFieldAfter(a, ',', f);
    ReplaceAtSplit(a, f);
  }

  /** Any other lone comma is dropped. */
  lemma NormalizeLoneThousands(a: string, b: string)
    requires AllDigits(a) && AllDigits(b) && |b| != 2
    ensures NormalizeSeparators(a + "," + b) == a + b
  {
    var s := a + "," + b;
    DigitsArePlain(a);
    DigitsArePlain(b);
    assert s[|a|] == ',';
    assert '.' !in s;
    assert s == a + [','] + b;
    LastFieldAfter(a, ',', b);
    RemoveSingle(a, ',', b);
  }

  lemma DigitsConcat(a: string, b: string)
    requires AllDigits(a) && AllDigits(b)
    ensures AllDigits(a + b)
  {
  }

  /** The literal left once a grouping separator is dropped from a + sep + b + "." + f. */
  lemma JoinedLiteral(a: string, b: string, f: string)
    requires AllDigits(a) && AllDigits(b) && AllDigits(f) && a != []
    ensures DecimalLiteral((a + b) + "." + f) == Some(Dec(DigitsValue(a + b + f), |f|))
  {
    DigitsConcat(a, b);
    JoinedDigitsLiteral(a, b, f);
  }

  lemma JoinedDigitsLiteral(a: string, b: string, f: string)
    requires AllDigits(a + b) && AllDigits(f) && a != []
    ensures DecimalLiteral((a + b) + "." + f) == Some(Dec(DigitsValue(a + b + f), |f|))
  {
    LiteralValue(a + b, f);
  }

  /** US grouping "a,b.f" (as in 1,000.00): the comma is dropped and the dot is the decimal point. */
  lemma UsGrouping(a: string, b: string, f: string)
    requires AllDigits(a) && AllDigits(b) && AllDigits(f) && a != []
    ensures ParseDecimal(Some(a + "," + b + "." + f)) == Some(Dec(DigitsValue(a + b + f), |f|))
  {
    var s := a + "," + b + "." + f;
    assert NumberChars(s);
    assert s[0] == a[0];
    PlainNumber(s);
    NormalizeUs(a, b, f);
    JoinedLiteral(a, b, f);
  }

  /** European grouping "a.b,f" (as in 1.234,56): the dot is dropped and the comma is the decimal point. */
  lemma EuropeanGrouping(a: string, b: string, f: string)
    requires AllDigits(a) && AllDigits(b) && AllDigits(f) && a != []
    ensures ParseDecimal(Some(a + "." + b + "," + f)) == Some(Dec(DigitsValue(a + b + f), |f|))
  {
    var s := a + "." + b + "," + f;
    assert NumberChars(s);
    assert s[0] == a[0];
    PlainNumber(s);
    NormalizeEuropean(a, b, f);
    JoinedLiteral(a, b, f);
  }

  /** A lone comma followed by exactly two digits (as in 1234,56) is the decimal point. */
  lemma LoneCommaDecimal(a: string, f: string)
    requires AllDigits(a) && AllDigits(f) && a != [] && |f| == 2
    ensures ParseDecimal(Some(a + "," + f)) == Some(Dec(DigitsValue(a + f), 2))
  {
    var s := a + "," + f;
    assert NumberChars(s);
    assert s[0] == a[0];
    PlainNumber(s);
    NormalizeLoneDecimal(a, f);
    CentsLiteral(a, f);
  }

  lemma CentsLiteral(a: string, f: string)
    requires AllDigits(a) && AllDigits(f) && a != [] && |f| == 2
    ensures DecimalLiteral(a + "." + f) == Some(Dec(DigitsValue(a + f), 2))
  {
    LiteralValue(a, f);
  }

  /** Any other lone comma (as in 1,234) separates thousands and is dropped. */
  lemma LoneCommaThousands(a: string, b: string)
    requires AllDigits(a) && AllDigits(b) && a != [] && |b| != 2
    ensures ParseDecimal(Some(a + "," + b)) == Some(Dec(DigitsValue(a + b), 0))
  {
    var s := a + "," + b;
    assert NumberChars(s);
    assert s[0] == a[0];
    PlainNumber(s);
    NormalizeLoneThousands(a, b);
    DigitsConcat(a, b);
    WholeNumber(a + b);
  }

  /** A plain digit string is a whole number at scale 0. */
  lemma WholeNumber(d: string)
    requires AllDigits(d) && d != []
    ensures DecimalLiteral(d) == Some(Dec(DigitsValue(d), 0))
  {
    DigitsArePlain(d);
    StripUnchanged(d);
  }

  /** A US-grouped amount in parentheses (as in (1,000.00)) is the negated amount. */
  lemma NegativeGrouped(a: string, b: string, f: string)
    requires AllDigits(a) && AllDigits(b) && AllDigits(f) && a != []
    ensures ParseDecimal(Some("(" + a + "," + b + "." + f + ")")) == Some(Negate(Dec(DigitsValue(a + b + f), |f|)))
  {
    var x := a + "," + b + "." + f;
    assert NumberChars(x);
    assert x[0] == a[0];
    ParenthesisedNumber(x);
    Enclose(a, b, f);
    UsGrouping(a, b, f);
  }

  lemma Enclose(a: string, b: string, f: string)
    ensures "(" + a + "," + b + "." + f + ")" == "(" + (a + "," + b + "." + f) + ")"
  {
  }

  lemma ParenthesisedNumber(x: string)
    requires NumberChars(x) && x != [] && IsDigit(x[0])
    ensures var p := ParseDecimal(Some(x));
      ParseDecimal(Some("(" + x + ")")) == if p.Some? then Some(Negate(p.value)) else None
  {
    NumberCharsPlain(x);
    ParenthesesNegate(x);
  }

  lemma NumberCharsPlain(x: string)
    requires NumberChars(x)
    ensures forall i :: 0 <= i < |x| ==> !IsCurrencySymbol(x[i]) && !IsSpace(x[i])
  {
  }

  /** The literal whole.fraction is the digits of both parts, scaled by the number of fraction digits. */
  lemma LiteralValue(whole: string, fraction: string)
    requires AllDigits(whole) && AllDigits(fraction) && whole != []
    ensures DecimalLiteral(whole + "." + fraction) == Some(Dec(DigitsValue(whole + fraction), |fraction|))
  {
    var s := whole + "." + fraction;
    DigitsArePlain(whole);
    DigitsArePlain(fraction);
    assert s[0] == whole[0];
    assert s[|s| - 1] == if fraction == [] then '.' else fraction[|fraction| - 1];
    StripUnchanged(s);
    CountSplit(whole, fraction);
    assert s[|whole|] == '.';
    assert s[..|whole|] == whole && s[|whole| + 1..] == fraction;
    DigitsConcat(whole, fraction);
  }

  lemma CountSplit(whole: string, fraction: string)
    requires '.' !in whole && '.' !in fraction
    ensures CountChar(whole + "." + fraction, '.') == 1
    ensures LastIndexOf(whole + "." + fraction, '.') == |whole|
  {
    CountConcat(whole + ".", fraction, '.');
    CountConcat(whole, ".", '.');
  }

  // ---------------------------------------------------------------------------------------
  // Line numbers.

  /** Python's `int(s)` on text: surrounding whitespace ignored, an optional sign, then digits; `None` where it raises. */
  function IntLiteral(s: string): (r: Option<int>)
  {
    SignedNumber(Strip(s))
  }

  /** An optional sign and then at least one digit, with nothing around them. */
  function SignedNumber(t: string): (r: Option<int>)
  {
    var signed := t != [] && (t[0] == '-' || t[0] == '+');
    var magnitude := ParseNat(if signed then t[1..] else t);
    if magnitude.None? then None
    else if signed && t[0] == '-' then Some(-(magnitude.value as int))
    else Some(magnitude.value as int)
  }

  /** Digits alone read as their value. */
  lemma PlainDigits(d: string)
    requires AllDigits(d) && d != []
    ensures IntLiteral(d) == Some(DigitsValue(d) as int)
  {
    DigitsArePlain(d);
    StripUnchanged(d);
  }

  /** Text made of a sign and digits is its own strip. */
  lemma SignedText(t: string)
    requires |t| >= 2 && (t[0] == '+' || t[0] == '-') && AllDigits(t[1..])
    ensures IntLiteral(t) == SignedNumber(t)
  {
    var d := t[1..];
    assert t[|t| - 1] == d[|d| - 1] && IsDigit(d[|d| - 1]);
    StripUnchanged(t);
  }

  /** A plus sign before digits changes nothing. */
  lemma PlusDigits(d: string)
    requires AllDigits(d) && d != []
    ensures IntLiteral("+" + d) == Some(DigitsValue(d) as int)
  {
    var t := "+" + d;
    assert t[0] == '+' && t[1..] == d;
    assert SignedNumber(t) == Some(DigitsValue(d) as int);
    SignedText(t);
  }

  /** A minus sign before digits negates their value. */
  lemma MinusDigits(d: string)
    requires AllDigits(d) && d != []
    ensures IntLiteral("-" + d) == Some(-(DigitsValue(d) as int))
  {
    var t := "-" + d;
    assert t[0] == '-' && t[1..] == d;
    assert SignedNumber(t) == Some(-(DigitsValue(d) as int));
    SignedText(t);
  }

  /** `int` reads back what `str` writes. */
  lemma IntLiteralReadsBack(n: nat)
    ensures IntLiteral(NatToString(n)) == Some(n as int)
  {
    NatToStringValue(n);
    PlainDigits(NatToString(n));
  }

  /** Text that is not a whole number makes `int` raise: a word, or a decimal fraction. */
  lemma IntLiteralRefuses()
    ensures IntLiteral("abc") == None
    ensures IntLiteral("1.5") == None
    ensures IntLiteral("") == None && IntLiteral("-") == None
  {
    assert !IsDigit("abc"[0]);
    assert !IsDigit("1.5"[1]);
    StripUnchanged("abc");
    StripUnchanged("1.5");
    StripUnchanged("-");
  }

  /** A whole number with a sign reads as that number. */
  lemma IntLiteralSigned()
    ensures IntLiteral("+7") == Some(7)
    ensures IntLiteral("-12") == Some(-12)
  {
    assert "+" + "7" == "+7" && "-" + "12" == "-12";
    assert DigitsValue("7") == 7;
    PlusDigits("7");
    TwelveDigits();
    MinusDigits("12");
  }

  /** Whitespace on both sides of a number is ignored by `int`. */
  lemma IntLiteralIgnoresSpace(a: char, t: string, b: char)
    requires IsSpace(a) && IsSpace(b)
    requires t != [] && !IsSpace(t[0]) && !IsSpace(t[|t| - 1])
    ensures IntLiteral([a] + t + [b]) == IntLiteral(t)
  {
    var s := [a] + t + [b];
    assert s[1..|s| - 1] == t;
    StripsTo(s, t);
    StripUnchanged(t);
  }

  /** Digits between a no-break space and a newline read as their value, as in Python. */
  lemma IntLiteralSpaced(d: string)
    requires AllDigits(d) && d != []
    ensures IntLiteral(['\U{A0}'] + d + ['\n']) == Some(DigitsValue(d) as int)
  {
    assert IsDigit(d[0]) && IsDigit(d[|d| - 1]);
    IntLiteralIgnoresSpace('\U{A0}', d, '\n');
    PlainDigits(d);
  }

  /** One whitespace character on each side of `d` is stripped. */
  lemma StripsTo(s: string, d: string)
    requires |s| == |d| + 2 && d != [] && s[1..|s| - 1] == d
    requires IsSpace(s[0]) && IsSpace(s[|s| - 1]) && !IsSpace(d[0]) && !IsSpace(d[|d| - 1])
    ensures Strip(s) == d
  {
    var t := s[1..];
    assert TrimStart(s) == TrimStart(t);
    assert t[0] == d[0];
    assert TrimStart(t) == t;
    assert t[..|t| - 1] == d;
    assert TrimEnd(t) == TrimEnd(d);
    assert d[|d| - 1] == d[|d| - 1];
  }

  lemma TwelveDigits()
    ensures AllDigits("12") && DigitsValue("12") == 12
  {
    assert "12"[..1] == "1";
  }

  // ---------------------------------------------------------------------------------------
  // Debit or credit.

  datatype TxType = Debit | Credit

  /** A row's cells, read field by field; string fields are stripped, absent ones empty. */
  datatype RowData = RowData(
    lineNumber: Option<int>,
    transactionDate: Option<int>,
    valueDate: Option<int>,
    description: string,
    reference: string,
    debit: Option<Dec>,
    credit: Option<Dec>,
    amount: Option<Dec>,
    transactionType: string,
    balance: Option<Dec>,
    payee: string)

  /** A decimal's truth value in Python: present and nonzero. */
  predicate Truthy(x: Option<Dec>)
  {
    x.Some? && x.value.units != 0
  }

  /** Python's `x or y`. */
  function OrElse(x: Option<Dec>, y: Option<Dec>): (r: Option<Dec>)
    ensures Truthy(x) ==> r == x
    ensures !Truthy(x) ==> r == y
  {
    if Truthy(x) then x else y
  }

  predicate SaysDebit(t: string)
  {
    Contains(t, "DEBIT") || Contains(t, "DR") || Contains(t, "WITHDRAWAL")
  }

  predicate SaysCredit(t: string)
  {
    Contains(t, "CREDIT") || Contains(t, "CR") || Contains(t, "DEPOSIT")
  }

  /** The explicit type column decides when it names a debit or a credit. */
  predicate TypeColumnDecides(row: RowData)
  {
    row.transactionType != "" && (SaysDebit(Upper(row.transactionType)) || SaysCredit(Upper(row.transactionType)))
  }

  /**
   * _determine_transaction_type: the type column first, then a nonzero debit, then a nonzero
   * credit, then the sign of the amount (a negative amount is a debit of its absolute value).
   */
  function DetermineTransactionType(row: RowData): (r: (Option<TxType>, Option<Dec>))
    ensures TypeColumnDecides(row) ==> r.0.Some?
    ensures TypeColumnDecides(row) ==> (r.0 == Some(Debit) <==> SaysDebit(Upper(row.transactionType)))
    ensures TypeColumnDecides(row) && r.0 == Some(Debit) ==> r.1 == OrElse(row.amount, row.debit)
    ensures TypeColumnDecides(row) && r.0 == Some(Credit) ==> r.1 == OrElse(row.amount, row.credit)
    ensures !TypeColumnDecides(row) && Truthy(row.debit) ==> r == (Some(Debit), row.debit)
    ensures !TypeColumnDecides(row) && !Truthy(row.debit) && Truthy(row.credit) ==> r == (Some(Credit), row.credit)
    ensures !TypeColumnDecides(row) && !Truthy(row.debit) && !Truthy(row.credit) ==>
      (r.0.Some? <==> Truthy(row.amount)) &&
      (Truthy(row.amount) ==>
         r.1.Some? && r.1.value.units > 0 && (if r.0 == Some(Debit) then Negate(r.1.value) else r.1.value) == row.amount.value)
  {
    var t := Upper(row.transactionType);
    if row.transactionType != "" && SaysDebit(t) then (Some(Debit), OrElse(row.amount, row.debit))
    else if row.transactionType != "" && SaysCredit(t) then (Some(Credit), OrElse(row.amount, row.credit))
    else if Truthy(row.debit) then (Some(Debit), row.debit)
    else if Truthy(row.credit) then (Some(Credit), row.credit)
    else if Truthy(row.amount) then
      if row.amount.value.units < 0 then (Some(Debit), Some(Negate(row.amount.value))) else (Some(Credit), row.amount)
    else (None, None)
  }

  // ---------------------------------------------------------------------------------------
  // Rows and lines.

  datatype Line = Line(
    rowNumber: nat,
    lineNumber: Option<int>,
    transactionDate: int,
    valueDate: int,
    txType: TxType,
    amount: Dec,
    balance: Option<Dec>,
    reference: string,
    description: string,
    payee: string)

  /** A row is skipped, refused with its errors, or read as a line; on a bad line number `int` raises. */
  datatype Outcome = Skipped | Invalid(errors: seq<string>) | Valid(line: Line) | Raises

  /** The column found for each field, looked up once per file. */
  datatype ColumnMap = ColumnMap(
    lineNumber: Option<nat>, transactionDate: Option<nat>, valueDate: Option<nat>,
    description: Option<nat>, reference: Option<nat>, debit: Option<nat>, credit: Option<nat>,
    amount: Option<nat>, transactionType: Option<nat>, balance: Option<nat>, payee: Option<nat>)

  /** Every field is mapped to the first column that matches one of its aliases, or to none. */
  function MapColumns(columns: seq<string>): (m: ColumnMap)
    ensures m.lineNumber == FindColumn(columns, Aliases(LineNumber))
    ensures m.transactionDate == FindColumn(columns, Aliases(TransactionDate))
    ensures m.valueDate == FindColumn(columns, Aliases(ValueDate))
    ensures m.description == FindColumn(columns, Aliases(Description))
    ensures m.reference == FindColumn(columns, Aliases(ReferenceNumber))
    ensures m.debit == FindColumn(columns, Aliases(DebitAmount))
    ensures m.credit == FindColumn(columns, Aliases(CreditAmount))
    ensures m.amount == FindColumn(columns, Aliases(Amount))
    ensures m.transactionType == FindColumn(columns, Aliases(TransactionType))
    ensures m.balance == FindColumn(columns, Aliases(Balance))
    ensures m.payee == FindColumn(columns, Aliases(PayeePayer))
    ensures Within(m, |columns|)
  {
    ColumnMap(
      FindColumn(columns, Aliases(LineNumber)), FindColumn(columns, Aliases(TransactionDate)), FindColumn(columns, Aliases(ValueDate)),
      FindColumn(columns, Aliases(Description)), FindColumn(columns, Aliases(ReferenceNumber)), FindColumn(columns, Aliases(DebitAmount)),
      FindColumn(columns, Aliases(CreditAmount)), FindColumn(columns, Aliases(Amount)), FindColumn(columns, Aliases(TransactionType)),
      FindColumn(columns, Aliases(Balance)), FindColumn(columns, Aliases(PayeePayer)))
  }

  predicate Fits(k: Option<nat>, n: nat)
  {
    k.None? || k.value < n
  }

  predicate Within(m: ColumnMap, n: nat)
  {
    Fits(m.lineNumber, n) && Fits(m.transactionDate, n) && Fits(m.valueDate, n) && Fits(m.description, n)
    && Fits(m.reference, n) && Fits(m.debit, n) && Fits(m.credit, n) && Fits(m.amount, n)
    && Fits(m.transactionType, n) && Fits(m.balance, n) && Fits(m.payee, n)
  }

  /** The cell in a field's column; `None` when the field has no column or the cell is empty. */
  function CellOf(row: seq<Option<string>>, k: Option<nat>): Option<string>
    requires Fits(k, |row|)
  {
    if k.Some? then row[k.value] else None
  }

  function TextOf(cell: Option<string>): string
  {
    if cell.Some? then Strip(cell.value) else ""
  }

  function DateOf(cell: Option<string>, parseDate: string -> Option<int>): Option<int>
  {
    if cell.Some? then parseDate(cell.value) else None
  }

  /** The row's fields: dates through `parseDate`, amounts through ParseDecimal, text stripped. */
  function ReadRow(m: ColumnMap, row: seq<Option<string>>, parseDate: string -> Option<int>): RowData
    requires Within(m, |row|)
  {
    var lineCell := CellOf(row, m.lineNumber);
    RowData(
      if lineCell.Some? then IntLiteral(lineCell.value) else None,
      DateOf(CellOf(row, m.transactionDate), parseDate),
      DateOf(CellOf(row, m.valueDate), parseDate),
      TextOf(CellOf(row, m.description)),
      TextOf(CellOf(row, m.reference)),
      ParseDecimal(CellOf(row, m.debit)),
      ParseDecimal(CellOf(row, m.credit)),
      ParseDecimal(CellOf(row, m.amount)),
      TextOf(CellOf(row, m.transactionType)),
      ParseDecimal(CellOf(row, m.balance)),
      TextOf(CellOf(row, m.payee)))
  }

  function DataErrors(data: RowData): seq<string>
  {
    (if data.transactionDate.None? then ["Missing or invalid transaction date"] else [])
    + (if data.description == "" then ["Missing description"] else [])
  }

  /** The row has a line-number cell that `int` refuses. */
  predicate LineNumberUnreadable(m: ColumnMap, row: seq<Option<string>>)
    requires Within(m, |row|)
  {
    var cell := CellOf(row, m.lineNumber);
    cell.Some? && IntLiteral(cell.value).None?
  }

  /** Whether the row would be skipped: it has no debit or credit type, or no nonzero amount. */
  predicate Uninformative(data: RowData)
  {
    var (t, amount) := DetermineTransactionType(data);
    t.None? || !Truthy(amount)
  }

  /**
   * How a row's outcome follows from its cells: it raises exactly when its line number is
   * unreadable; otherwise it is skipped exactly when it is uninformative, invalid (with the
   * date and description errors) exactly when it is informative but has errors, and a line
   * carrying the row's own fields otherwise.
   */
  predicate Explains(o: Outcome, m: ColumnMap, row: seq<Option<string>>, index: nat, parseDate: string -> Option<int>)
    requires Within(m, |row|)
  {
    var data := ReadRow(m, row, parseDate);
    var (t, amount) := DetermineTransactionType(data);
    && (o.Raises? <==> LineNumberUnreadable(m, row))
    && (o.Skipped? <==> !LineNumberUnreadable(m, row) && Uninformative(data))
    && (o.Invalid? <==> !LineNumberUnreadable(m, row) && !Uninformative(data) && DataErrors(data) != [])
    && (o.Invalid? ==> o.errors == DataErrors(data))
    && (o.Valid? ==>
          && t.Some? && amount.Some? && data.transactionDate.Some? && data.description != ""
          && o.line.rowNumber == index + 2 && o.line.lineNumber == data.lineNumber
          && o.line.txType == t.value && o.line.amount == amount.value
          && o.line.transactionDate == data.transactionDate.value
          && o.line.valueDate == (if data.valueDate.Some? then data.valueDate.value else data.transactionDate.value)
          && o.line.balance == data.balance && o.line.reference == data.reference
          && o.line.description == data.description && o.line.payee == data.payee)
  }

  /**
   * One row's fate: raising when its line number is not a whole number (before anything else
   * is looked at), skipped when it has no type or no nonzero amount (even if it also has
   * errors), invalid when its date or description is missing, otherwise a line.
   */
  function RowOutcome(m: ColumnMap, row: seq<Option<string>>, index: nat, parseDate: string -> Option<int>): (o: Outcome)
    requires Within(m, |row|)
    ensures o.Raises? <==> LineNumberUnreadable(m, row)
    ensures Explains(o, m, row, index, parseDate)
    ensures o.Invalid? ==> o.errors != []
    ensures o.Valid? ==> o.line.amount.units != 0 && o.line.description != "" && o.line.rowNumber == index + 2
  {
    var data := ReadRow(m, row, parseDate);
    var (t, amount) := DetermineTransactionType(data);
    if LineNumberUnreadable(m, row) then Raises
    else if t.None? || !Truthy(amount) then Skipped
    else if DataErrors(data) != [] then Invalid(DataErrors(data))
    else
      var date := data.transactionDate.value;
      Valid(Line(index + 2, data.lineNumber, date, if data.valueDate.Some? then data.valueDate.value else date,
                 t.value, amount.value, data.balance, data.reference, data.description, data.payee))
  }

  predicate RowsFit(m: ColumnMap, rows: seq<seq<Option<string>>>)
  {
    forall i :: 0 <= i < |rows| ==> Within(m, |rows[i]|)
  }

  /** What RowOutcome promises of the row at `index`. */
  predicate WellFormed(o: Outcome, index: nat)
  {
    (o.Invalid? ==> o.errors != [])
    && (o.Valid? ==> o.line.amount.units != 0 && o.line.description != "" && o.line.rowNumber == index + 2)
  }

  /** The outcomes of the first n rows, in order. */
  function Outcomes(m: ColumnMap, rows: seq<seq<Option<string>>>, n: nat, parseDate: string -> Option<int>): (os: seq<Outcome>)
    requires RowsFit(m, rows) && n <= |rows|
    ensures |os| == n
    ensures forall i :: 0 <= i < n ==> WellFormed(os[i], i)
  {
    if n == 0 then []
    else
      var init := Outcomes(m, rows, n - 1, parseDate);
      var o := RowOutcome(m, rows[n - 1], n - 1, parseDate);
      assert forall i :: 0 <= i < n - 1 ==> (init + [o])[i] == init[i];
      init + [o]
  }

  /** The lines of the valid outcomes, in order. */
  function ValidLines(os: seq<Outcome>): seq<Line>
  {
    if os == [] then []
    else ValidLines(os[..|os| - 1]) + (if os[|os| - 1].Valid? then [os[|os| - 1].line] else [])
  }

  /** The number of invalid outcomes. */
  function InvalidRows(os: seq<Outcome>): nat
  {
    if os == [] then 0
    else InvalidRows(os[..|os| - 1]) + (if os[|os| - 1].Invalid? then 1 else 0)
  }

  /** The sum of the amounts of the lines of one type. */
  function TypeTotal(lines: seq<Line>, t: TxType): Dec
  {
    if lines == [] then Zero
    else if lines[|lines| - 1].txType == t then Add(TypeTotal(lines[..|lines| - 1], t), lines[|lines| - 1].amount)
    else TypeTotal(lines[..|lines| - 1], t)
  }

  function MinDate(lines: seq<Line>): (d: int)
    requires lines != []
    ensures forall i :: 0 <= i < |lines| ==> d <= lines[i].transactionDate
    ensures exists i :: 0 <= i < |lines| && d == lines[i].transactionDate
  {
    if |lines| == 1 then lines[0].transactionDate
    else
      var init := lines[..|lines| - 1];
      assert forall i :: 0 <= i < |init| ==> init[i] == lines[i];
      Min(MinDate(init), lines[|lines| - 1].transactionDate)
  }

  function MaxDate(lines: seq<Line>): (d: int)
    requires lines != []
    ensures forall i :: 0 <= i < |lines| ==> lines[i].transactionDate <= d
    ensures exists i :: 0 <= i < |lines| && d == lines[i].transactionDate
  {
    if |lines| == 1 then lines[0].transactionDate
    else
      var init := lines[..|lines| - 1];
      assert forall i :: 0 <= i < |init| ==> init[i] == lines[i];
      Max(MaxDate(init), lines[|lines| - 1].transactionDate)
  }

  datatype StatementInfo = StatementInfo(fromDate: int, toDate: int, count: nat, totalDebits: Dec, totalCredits: Dec)

  datatype Parsed = Parsed(
    info: Option<StatementInfo>,
    lines: seq<Line>,
    totalRows: nat,
    validRows: nat,
    errorRows: nat,
    totalDebits: Dec,
    totalCredits: Dec)

  datatype ImportError =
    | FileError(message: string)
    | MissingColumns(fields: seq<Field>)
    | RowError(row: nat, message: string)

  /** The required fields without a matching column, in the order date, description. */
  function MissingRequired(m: ColumnMap): (r: seq<Field>)
    ensures r == [] <==> m.transactionDate.Some? && m.description.Some?
    ensures 1 <= |r| <= 2 || r == []
  {
    (if m.transactionDate.None? then [TransactionDate] else [])
    + (if m.description.None? then [Description] else [])
  }

  /** The errors the outcomes record: each invalid row's messages, tagged with its spreadsheet row number. */
  function RowErrors(os: seq<Outcome>): seq<ImportError>
  {
    if os == [] then []
    else
      var o := os[|os| - 1];
      RowErrors(os[..|os| - 1]) + (if o.Invalid? then Tagged(|os| + 1, o.errors) else [])
  }

  function Tagged(row: nat, messages: seq<string>): (r: seq<ImportError>)
    ensures |r| == |messages|
    ensures forall i :: 0 <= i < |r| ==> r[i] == RowError(row, messages[i])
  {
    if messages == [] then [] else [RowError(row, messages[0])] + Tagged(row, messages[1..])
  }

  /** On a rectangular file every column the map names exists in every row. */
  lemma MapColumnsFit(columns: seq<string>, rows: seq<seq<Option<string>>>)
    requires forall i :: 0 <= i < |rows| ==> |rows[i]| == |columns|
    ensures RowsFit(MapColumns(columns), rows)
  {
  }

  /** For each row, whether `int` refuses its line number. */
  function UnreadableFlags(m: ColumnMap, rows: seq<seq<Option<string>>>): (f: seq<bool>)
    requires RowsFit(m, rows)
    ensures |f| == |rows|
    ensures forall k :: 0 <= k < |rows| ==> f[k] == LineNumberUnreadable(m, rows[k])
  {
    seq(|rows|, k requires 0 <= k < |rows| => LineNumberUnreadable(m, rows[k]))
  }

  /** The first position, from `i` on, whose flag is set. */
  function FirstSet(flags: seq<bool>, i: nat): (r: Option<nat>)
    requires i <= |flags|
    ensures r.Some? ==> i <= r.value < |flags| && flags[r.value]
    ensures r.Some? ==> forall k :: i <= k < r.value ==> !flags[k]
    ensures r.None? <==> forall k :: i <= k < |flags| ==> !flags[k]
    decreases |flags| - i
  {
    if i == |flags| then None
    else if flags[i] then Some(i)
    else FirstSet(flags, i + 1)
  }

  /** The first row, from `i` on, whose line number `int` refuses. */
  function FirstUnreadable(m: ColumnMap, rows: seq<seq<Option<string>>>, i: nat): (r: Option<nat>)
    requires RowsFit(m, rows) && i <= |rows|
    ensures r.Some? ==> i <= r.value < |rows| && LineNumberUnreadable(m, rows[r.value])
    ensures r.Some? ==> forall k :: i <= k < r.value ==> !LineNumberUnreadable(m, rows[k])
    ensures r.None? <==> forall k :: i <= k < |rows| ==> !LineNumberUnreadable(m, rows[k])
  {
    FirstSet(UnreadableFlags(m, rows), i)
  }

  /** How many rows parse_data gets through: all of them, or those before the row that raises. */
  function RowsRead(m: ColumnMap, rows: seq<seq<Option<string>>>): (n: nat)
    requires RowsFit(m, rows)
    ensures n <= |rows|
  {
    var stop := FirstUnreadable(m, rows, 0);
    if stop.Some? then stop.value else |rows|
  }

  /**
   * The row loop of parse_data: every row's outcome in order, keeping the valid lines, counting
   * the invalid rows, collecting their errors and totalling debits and credits, until a row
   * whose line number `int` refuses raises (`raised` is that row's index).
   */
  method ReadRows(m: ColumnMap, rows: seq<seq<Option<string>>>, parseDate: string -> Option<int>)
    returns (lines: seq<Line>, invalid: nat, errors: seq<ImportError>, debits: Dec, credits: Dec, raised: Option<nat>)
    requires RowsFit(m, rows)
    ensures raised == FirstUnreadable(m, rows, 0)
    ensures lines == ValidLines(Outcomes(m, rows, RowsRead(m, rows), parseDate))
    ensures invalid == InvalidRows(Outcomes(m, rows, RowsRead(m, rows), parseDate))
    ensures errors == RowErrors(Outcomes(m, rows, RowsRead(m, rows), parseDate))
    ensures debits == TypeTotal(lines, Debit) && credits == TypeTotal(lines, Credit)
  {
    lines, invalid, errors := [], 0, [];
    debits, credits := Zero, Zero;
    var i := 0;
    ghost var os: seq<Outcome> := [];
    while i < |rows|
      invariant 0 <= i <= |rows|
      invariant FirstUnreadable(m, rows, i) == FirstUnreadable(m, rows, 0)
      invariant os == Outcomes(m, rows, i, parseDate)
      invariant lines == ValidLines(os)
      invariant invalid == InvalidRows(os)
      invariant errors == RowErrors(os)
      invariant debits == TypeTotal(lines, Debit) && credits == TypeTotal(lines, Credit)
    {
      if LineNumberUnreadable(m, rows[i]) {
        assert RowsRead(m, rows) == i;
        raised := Some(i);
        return;
      }
      var o := RowOutcome(m, rows[i], i, parseDate);
      NextRow(m, rows, i, parseDate, os);
      lines, invalid, errors, debits, credits := Tally(lines, invalid, errors, debits, credits, o, i + 2);
      os := os + [o];
      i := i + 1;
    }
    assert RowsRead(m, rows) == |rows|;
    raised := None;
  }

  /** A row that does not raise adds its outcome's share and leaves the first raising row where it was. */
  lemma NextRow(m: ColumnMap, rows: seq<seq<Option<string>>>, i: nat, parseDate: string -> Option<int>, os: seq<Outcome>)
    requires RowsFit(m, rows) && i < |rows| && os == Outcomes(m, rows, i, parseDate)
    requires !LineNumberUnreadable(m, rows[i])
    ensures var o := RowOutcome(m, rows[i], i, parseDate);
      && Outcomes(m, rows, i + 1, parseDate) == os + [o]
      && FirstUnreadable(m, rows, i + 1) == FirstUnreadable(m, rows, i)
      && ValidLines(os + [o]) == ValidLines(os) + (if o.Valid? then [o.line] else [])
      && InvalidRows(os + [o]) == InvalidRows(os) + (if o.Invalid? then 1 else 0)
      && RowErrors(os + [o]) == RowErrors(os) + (if o.Invalid? then Tagged(i + 2, o.errors) else [])
  {
    AppendOutcome(os, RowOutcome(m, rows[i], i, parseDate));
  }

  /** One row's share: a line is kept and added to its type's total; an invalid row is counted and its errors tagged with its row number. */
  method Tally(lines: seq<Line>, invalid: nat, errors: seq<ImportError>, debits: Dec, credits: Dec, o: Outcome, rowNumber: nat)
    returns (lines': seq<Line>, invalid': nat, errors': seq<ImportError>, debits': Dec, credits': Dec)
    requires debits == TypeTotal(lines, Debit) && credits == TypeTotal(lines, Credit)
    ensures lines' == lines + (if o.Valid? then [o.line] else [])
    ensures invalid' == invalid + (if o.Invalid? then 1 else 0)
    ensures errors' == errors + (if o.Invalid? then Tagged(rowNumber, o.errors) else [])
    ensures debits' == TypeTotal(lines', Debit) && credits' == TypeTotal(lines', Credit)
  {
    lines', invalid', errors', debits', credits' := lines, invalid, errors, debits, credits;
    match o {
      case Skipped =>
      case Raises =>
      case Invalid(messages) =>
        invalid' := invalid + 1;
        errors' := errors + Tagged(rowNumber, messages);
      case Valid(line) =>
        AppendLine(lines, line, Debit);
        AppendLine(lines, line, Credit);
        lines' := lines + [line];
        if line.txType == Debit {
          debits' := Add(debits, line.amount);
        } else {
          credits' := Add(credits, line.amount);
        }
    }
  }

  /** A bank statement importer over one file; `errors` collects what the file is refused for. */
  class StatementImporter {
    const columns: seq<string>
    const rows: seq<seq<Option<string>>>
    const cmap: ColumnMap
    var errors: seq<ImportError>

    /** Every row has a cell for each column the map names. */
    predicate Valid()
    {
      RowsFit(cmap, rows)
    }

    constructor (columns: seq<string>, rows: seq<seq<Option<string>>>)
      requires forall i :: 0 <= i < |rows| ==> |rows[i]| == |columns|
      ensures this.columns == columns && this.rows == rows && errors == []
      ensures cmap == MapColumns(columns)
      ensures Valid()
    {
      MapColumnsFit(columns, rows);
      this.columns := columns;
      this.rows := rows;
      cmap := MapColumns(columns);
      errors := [];
    }

    /**
     * parse_data: refuses a file without a date or description column; otherwise reads every
     * row, keeps the valid lines, counts and reports invalid rows, and totals debits and credits.
     * A line-number cell that `int` refuses raises: the errors of the rows before it stay
     * recorded and the failure carries that row's spreadsheet number.
     */
    method ParseData(parseDate: string -> Option<int>) returns (r: Result<Parsed, nat>)
      requires Valid()
      modifies this
      ensures MissingRequired(cmap) != [] ==>
        errors == old(errors) + [MissingColumns(MissingRequired(cmap))] && r == Success(Parsed(None, [], 0, 0, 0, Zero, Zero))
      ensures MissingRequired(cmap) == [] ==>
        var os := Outcomes(cmap, rows, RowsRead(cmap, rows), parseDate);
        && errors == old(errors) + RowErrors(os)
        && (r.Failure? <==> FirstUnreadable(cmap, rows, 0).Some?)
        && (r.Failure? ==> r.error == FirstUnreadable(cmap, rows, 0).value + 2)
      ensures MissingRequired(cmap) == [] && r.Success? ==>
        var os := Outcomes(cmap, rows, |rows|, parseDate);
        var p := r.value;
        && p.lines == ValidLines(os)
        && p.totalRows == |rows| && p.validRows == |p.lines| && p.errorRows == InvalidRows(os)
        && p.totalDebits == TypeTotal(p.lines, Debit) && p.totalCredits == TypeTotal(p.lines, Credit)
        && (p.lines == [] <==> p.info.None?)
        && (p.info.Some? ==> p.info.value == StatementInfo(MinDate(p.lines), MaxDate(p.lines), |p.lines|, p.totalDebits, p.totalCredits))
    {
      var missing := MissingRequired(cmap);
      if missing != [] {
        errors := errors + [MissingColumns(missing)];
        return Success(Parsed(None, [], 0, 0, 0, Zero, Zero));
      }
      var lines, invalid, rowErrors, debits, credits, raised := ReadRows(cmap, rows, parseDate);
      errors := errors + rowErrors;
      if raised.Some? {
        return Failure(raised.value + 2);
      }
      var info := if lines != [] then Some(StatementInfo(MinDate(lines), MaxDate(lines), |lines|, debits, credits)) else None;
      r := Success(Parsed(info, lines, |rows|, |lines|, invalid, debits, credits));
    }

    /**
     * preview_import: a file that cannot be read fails with its reading error; a row that
     * makes parse_data raise makes the preview raise too (`raised` is its spreadsheet row);
     * otherwise the preview shows the first ten lines and succeeds exactly when no error was recorded.
     */
    method PreviewImport(readError: Option<string>, parseDate: string -> Option<int>)
      returns (success: bool, preview: seq<Line>, p: Option<Parsed>, raised: Option<nat>)
      requires Valid()
      modifies this
      ensures readError.Some? ==>
        !success && errors == old(errors) + [FileError(readError.value)] && p.None? && raised.None? && preview == []
      ensures readError.None? ==>
        (raised.Some? <==> MissingRequired(cmap) == [] && FirstUnreadable(cmap, rows, 0).Some?)
      ensures raised.Some? ==> raised.value == FirstUnreadable(cmap, rows, 0).value + 2 && !success && p.None? && preview == []
      ensures readError.None? && raised.None? ==>
        p.Some? && preview == p.value.lines[..Min(10, |p.value.lines|)] && (success <==> errors == [])
      ensures |preview| <= 10
    {
      if readError.Some? {
        errors := errors + [FileError(readError.value)];
        return false, [], None, None;
      }
      var parsed := ParseData(parseDate);
      if parsed.Failure? {
        return false, [], None, Some(parsed.error);
      }
      p := Some(parsed.value);
      preview := parsed.value.lines[..Min(10, |parsed.value.lines|)];
      success := errors == [];
      raised := None;
    }
  }

  /** Appending one outcome extends the lines, the invalid count and the errors by that outcome's share. */
  lemma AppendOutcome(os: seq<Outcome>, o: Outcome)
    ensures ValidLines(os + [o]) == ValidLines(os) + (if o.Valid? then [o.line] else [])
    ensures InvalidRows(os + [o]) == InvalidRows(os) + (if o.Invalid? then 1 else 0)
    ensures RowErrors(os + [o]) == RowErrors(os) + (if o.Invalid? then Tagged(|os| + 2, o.errors) else [])
  {
    assert (os + [o])[..|os|] == os;
  }

  /** Appending a line adds its amount to the total of its own type only. */
  lemma AppendLine(lines: seq<Line>, line: Line, t: TxType)
    ensures TypeTotal(lines + [line], t) == if line.txType == t then Add(TypeTotal(lines, t), line.amount) else TypeTotal(lines, t)
  {
    assert (lines + [line])[..|lines|] == lines;
  }

  /** Each line has a nonzero amount, a description, and a spreadsheet row number among the first n rows. */
  predicate LinesWellFormed(lines: seq<Line>, n: nat)
  {
    forall k :: 0 <= k < |lines| ==> lines[k].amount.units != 0 && lines[k].description != "" && 2 <= lines[k].rowNumber < n + 2
  }

  /** The valid lines of well-formed outcomes are well formed. */
  lemma {:induction false} ValidLinesWellFormed(os: seq<Outcome>)
    requires forall i :: 0 <= i < |os| ==> WellFormed(os[i], i)
    ensures LinesWellFormed(ValidLines(os), |os|)
  {
    if os != [] {
      var init := os[..|os| - 1];
      assert forall i :: 0 <= i < |init| ==> init[i] == os[i];
      ValidLinesWellFormed(init);
      var o := os[|os| - 1];
      assert WellFormed(o, |os| - 1);
      var prev, lines := ValidLines(init), ValidLines(os);
      assert lines == prev + (if o.Valid? then [o.line] else []);
      forall k | 0 <= k < |lines|
        ensures lines[k].amount.units != 0 && lines[k].description != "" && 2 <= lines[k].rowNumber < |os| + 2
      {
        if k < |prev| {
          assert lines[k] == prev[k];
        } else {
          assert lines[k] == o.line;
        }
      }
    }
  }
}
