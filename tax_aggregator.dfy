/**
 * The upload processing of the dashboard (app.py:236-260): find the `Amount`
 * column, parse it after removing thousands separators, take GST from the
 * first tax-like column or from the selected rate, add a per-row total and
 * reduce the three columns to three sums.
 *
 * pandas semantics that matter to the sums are modelled explicitly: a blank
 * Amount cell becomes NaN, NaN propagates through `*` and `+`, and
 * `Series.sum()` skips NaN. Numbers are exact reals, not binary floats.
 */
module TaxAggregator {
  import opened Wrappers

  // ---------------------------------------------------------------------
  // The uploaded table
  // ---------------------------------------------------------------------

  /** A cell as the spreadsheet reader hands it over. */
  datatype Cell = Number(value: real) | Text(text: string) | Blank

  /** Column names and rows of cells, in file order. */
  datatype Upload = Upload(columns: seq<string>, rows: seq<seq<Cell>>)

  /** A short row reads as blank in its missing columns. */
  function CellAt(row: seq<Cell>, j: nat): Cell
  {
    if j < |row| then row[j] else Blank
  }

  /** A float column value: a number or pandas' NaN. */
  datatype Num = Val(v: real) | NaN

  function Add(a: Num, b: Num): Num
  {
    if a.Val? && b.Val? then Val(a.v + b.v) else NaN
  }

  /** `Series.sum()`: NaN entries are skipped and the empty sum is 0. */
  function SumSkipNaN(xs: seq<Num>): real
  {
    if xs == [] then 0.0
    else SumSkipNaN(xs[..|xs| - 1]) + (if xs[|xs| - 1].Val? then xs[|xs| - 1].v else 0.0)
  }

  // ---------------------------------------------------------------------
  // Column lookup
  // ---------------------------------------------------------------------

  /** The position of the first column with exactly this name. */
  function IndexOf(columns: seq<string>, name: string): (r: Option<nat>)
    ensures r.Some? ==> r.value < |columns| && columns[r.value] == name
                        && forall j :: 0 <= j < r.value ==> columns[j] != name
    ensures r.None? <==> name !in columns
  {
    if columns == [] then None
    else if columns[0] == name then Some(0)
    else match IndexOf(columns[1..], name)
      case None => None
      case Some(k) => Some(k + 1)
  }

  function LowerChar(c: char): char
  {
    if 'A' <= c <= 'Z' then (c as int - 'A' as int + 'a' as int) as char else c
  }

  /** `str.lower()`, on ASCII letters. */
  function Lower(s: string): (r: string)
    ensures |r| == |s|
    ensures forall i :: 0 <= i < |s| ==> r[i] == LowerChar(s[i])
  {
    if s == [] then [] else [LowerChar(s[0])] + Lower(s[1..])
  }

  /** A column whose lower-cased name is "gst" or "tax" supplies the GST. */
  predicate IsTaxName(name: string)
  {
    Lower(name) == "gst" || Lower(name) == "tax"
  }

  /** The first tax-like column, `gst_cols[0]`. */
  function FirstTaxColumn(columns: seq<string>): (r: Option<nat>)
    ensures r.Some? ==> r.value < |columns| && IsTaxName(columns[r.value])
                        && forall j :: 0 <= j < r.value ==> !IsTaxName(columns[j])
    ensures r.None? <==> forall j :: 0 <= j < |columns| ==> !IsTaxName(columns[j])
  {
    if columns == [] then None
    else if IsTaxName(columns[0]) then Some(0)
    else match FirstTaxColumn(columns[1..])
      case None => None
      case Some(k) => Some(k + 1)
  }

  lemma TaxNames()
    ensures IsTaxName("GST") && IsTaxName("gst") && IsTaxName("Tax") && IsTaxName("TAX")
    ensures !IsTaxName("Amount") && !IsTaxName("GST Rate")
  {
    assert Lower("GST") == "gst";
    assert Lower("gst") == "gst";
    assert Lower("Tax") == "tax";
    assert Lower("TAX") == "tax";
    assert Lower("Amount")[0] == 'a';
  }

  // ---------------------------------------------------------------------
  // Number parsing
  // ---------------------------------------------------------------------

  /** `str.replace(",", "")`: every comma removed, everything else kept in order. */
  function StripCommas(s: string): (r: string)
    ensures ',' !in r
    ensures forall c :: c != ',' ==> multiset(r)[c] == multiset(s)[c]
    ensures ',' !in s ==> r == s
  {
    if s == [] then []
    else
      assert s == [s[0]] + s[1..];
      (if s[0] == ',' then [] else [s[0]]) + StripCommas(s[1..])
  }

  predicate IsDigit(c: char)
  {
    '0' <= c <= '9'
  }

  predicate AllDigits(s: string)
  {
    forall i :: 0 <= i < |s| ==> IsDigit(s[i])
  }

  function DigitValue(c: char): nat
    requires IsDigit(c)
  {
    c as int - '0' as int
  }

  /** The value of a string of decimal digits, most significant first. */
  function DigitsValue(s: string): nat
    requires AllDigits(s)
  {
    if s == [] then 0 else 10 * DigitsValue(s[..|s| - 1]) + DigitValue(s[|s| - 1])
  }

  function Pow10(n: nat): (r: nat)
    ensures r >= 1
  {
    if n == 0 then 1 else 10 * Pow10(n - 1)
  }

  /** The position of the first '.', or |s| when there is none. */
  function DotIndex(s: string): (k: nat)
    ensures k <= |s|
    ensures forall j :: 0 <= j < k ==> s[j] != '.'
    ensures k < |s| ==> s[k] == '.'
  {
    if s == [] then 0 else if s[0] == '.' then 0 else 1 + DotIndex(s[1..])
  }

  /** Digits with at most one '.', and at least one digit: "12", "12.5", "12.", ".5". */
  function ParseUnsigned(s: string): Option<real>
  {
    var k := DotIndex(s);
    var whole := s[..k];
    var frac := if k < |s| then s[k + 1..] else [];
    if AllDigits(whole) && AllDigits(frac) && |whole| + |frac| > 0
    then Some(DigitsValue(whole) as real + DigitsValue(frac) as real / Pow10(|frac|) as real)
    else None
  }

  /** `float(s)` on plain decimal notation with an optional sign. */
  function ParseDecimal(s: string): Option<real>
  {
    if |s| > 0 && s[0] == '-' then
      match ParseUnsigned(s[1..])
      case None => None
      case Some(v) => Some(-v)
    else if |s| > 0 && s[0] == '+' then ParseUnsigned(s[1..])
    else ParseUnsigned(s)
  }

  /** Plain digits read as the integer they spell. */
  lemma IntegerTextParsed(s: string)
    requires s != [] && AllDigits(s)
    ensures ParseDecimal(s) == Some(DigitsValue(s) as real)
  {
    UnsignedDigitsParsed(s);
    UnsignedParsedBare(s, DigitsValue(s) as real);
  }

  /** A minus sign followed by plain digits reads as the negated integer. */
  lemma NegativeIntegerTextParsed(m: string)
    requires |m| > 1 && m[0] == '-' && AllDigits(m[1..])
    ensures ParseDecimal(m) == Some(-(DigitsValue(m[1..]) as real))
  {
    UnsignedDigitsParsed(m[1..]);
  }

  /** Text that starts with a digit is read as unsigned. */
  lemma UnsignedParsedBare(s: string, v: real)
    requires s != [] && IsDigit(s[0]) && ParseUnsigned(s) == Some(v)
    ensures ParseDecimal(s) == Some(v)
  {
  }

  lemma UnsignedDigitsParsed(s: string)
    requires s != [] && AllDigits(s)
    ensures ParseUnsigned(s) == Some(DigitsValue(s) as real)
  {
    NoDotInDigits(s);
    assert s[..|s|] == s;
  }

  lemma {:induction false} NoDotInDigits(s: string)
    requires AllDigits(s)
    ensures DotIndex(s) == |s|
  {
    if s != [] {
      NoDotInDigits(s[1..]);
    }
  }

  /** A comma anywhere makes `float` fail. */
  lemma CommaRejected(s: string)
    requires ',' in s
    ensures ParseDecimal(s) == None
  {
    var i :| 0 <= i < |s| && s[i] == ',';
    var t := if |s| > 0 && (s[0] == '-' || s[0] == '+') then s[1..] else s;
    assert ',' in t by {
      if t != s { assert i > 0 && t[i - 1] == ','; }
    }
    CommaBlocksUnsigned(t);
  }

  lemma CommaBlocksUnsigned(t: string)
    requires ',' in t
    ensures ParseUnsigned(t) == None
  {
    var k := DotIndex(t);
    var i :| 0 <= i < |t| && t[i] == ',';
    if i < k {
      assert !IsDigit(t[..k][i]);
    } else {
      assert k < |t| && i > k;
      assert !IsDigit(t[k + 1..][i - k - 1]);
    }
  }

  // ---------------------------------------------------------------------
  // Column conversions
  // ---------------------------------------------------------------------

  /**
   * One Amount cell through `astype(str).str.replace(",", "").astype(float)`:
   * a number stays itself, text is parsed once its commas are gone (None is
   * the ValueError), and a blank cell becomes `blank`. As written, a blank
   * cell prints as "nan" and reads back as NaN.
   */
  function AmountValue(c: Cell, blank: Num): Option<Num>
  {
    match c
    case Number(v) => Some(Val(v))
    case Blank => Some(blank)
    case Text(t) =>
      match ParseDecimal(StripCommas(t))
      case None => None
      case Some(v) => Some(Val(v))
  }

  /**
   * One GST-column cell through `pd.to_numeric(errors="coerce").fillna(0)`.
   * Text is read by `ParseDecimal`, so text it rejects coerces to 0.
   */
  function GstValue(c: Cell): real
  {
    match c
    case Number(v) => v
    case Blank => 0.0
    case Text(t) =>
      match ParseDecimal(t)
      case None => 0.0
      case Some(v) => v
  }

  /** The whole Amount column, or the index of the first row whose cell does not parse. */
  function ParseAmounts(rows: seq<seq<Cell>>, col: nat, blank: Num): (r: Result<seq<Num>, nat>)
    ensures r.Ok? ==> |r.value| == |rows|
                      && forall i :: 0 <= i < |rows| ==> AmountValue(CellAt(rows[i], col), blank) == Some(r.value[i])
    ensures r.Err? ==> r.error < |rows| && AmountValue(CellAt(rows[r.error], col), blank) == None
                       && forall i :: 0 <= i < r.error ==> AmountValue(CellAt(rows[i], col), blank).Some?
  {
    if rows == [] then Ok([])
    else match AmountValue(CellAt(rows[0], col), blank)
      case None => Err(0)
      case Some(x) =>
        match ParseAmounts(rows[1..], col, blank)
        case Err(k) => Err(k + 1)
        case Ok(xs) => Ok([x] + xs)
  }

  /** The rates offered by the GST Rate selector. */
  type Rate = r: int | r == 5 || r == 12 || r == 18 || r == 28 witness 5

  /** The GST on `x` at the selected rate: `x * rate / 100`. */
  function GstAt(x: real, rate: Rate): real
  {
    x * rate as real / 100.0
  }

  /** `df["Amount"] * rate / 100` on one value; NaN stays NaN. */
  function ApplyRate(a: Num, rate: Rate): Num
  {
    match a
    case NaN => NaN
    case Val(v) => Val(GstAt(v, rate))
  }

  /** The GST on a sum is the sum of the GSTs. */
  lemma GstAtAdds(x: real, y: real, rate: Rate)
    ensures GstAt(x + y, rate) == GstAt(x, rate) + GstAt(y, rate)
  {
  }

  /** An amount plus its GST is the amount * (100 + rate) / 100. */
  lemma GstInclusive(x: real, rate: Rate)
    ensures x + GstAt(x, rate) == x * (100 + rate) as real / 100.0
  {
  }

  // ---------------------------------------------------------------------
  // The aggregator
  // ---------------------------------------------------------------------

  datatype TaxError =
    | MissingAmountColumn   // "File must contain 'Amount' column"
    | BadAmount(row: nat)   // `astype(float)` raises on this row

  /** The three sums shown, saved and reported. */
  datatype Totals = Totals(totalAmount: real, totalGst: real, grandTotal: real)
  {
    function Plus(other: Totals): Totals
    {
      Totals(totalAmount + other.totalAmount, totalGst + other.totalGst, grandTotal + other.grandTotal)
    }
  }

  const ZeroTotals := Totals(0.0, 0.0, 0.0)

  /** The three derived columns of the working table, and their sums. */
  datatype Processed = Processed(amount: seq<Num>, gst: seq<Num>, total: seq<Num>, totals: Totals)

  /** The GST column: from the first tax-like column when there is one, else from the rate. */
  function GstColumn(up: Upload, amounts: seq<Num>, rate: Rate): (g: seq<Num>)
    requires |amounts| == |up.rows|
    ensures |g| == |amounts|
  {
    match FirstTaxColumn(up.columns)
    case Some(t) => seq(|up.rows|, i requires 0 <= i < |up.rows| => Val(GstValue(CellAt(up.rows[i], t))))
    case None => seq(|amounts|, i requires 0 <= i < |amounts| => ApplyRate(amounts[i], rate))
  }

  /** Element-wise `+` of two columns. */
  function AddColumns(a: seq<Num>, g: seq<Num>): (t: seq<Num>)
    requires |a| == |g|
    ensures |t| == |a|
  {
    seq(|a|, i requires 0 <= i < |a| => Add(a[i], g[i]))
  }

  /** The processing of app.py:236-260, with blank Amount cells read as `blank`. */
  function ProcessWith(up: Upload, rate: Rate, blank: Num): Result<Processed, TaxError>
  {
    match IndexOf(up.columns, "Amount")
    case None => Err(MissingAmountColumn)
    case Some(a) =>
      match ParseAmounts(up.rows, a, blank)
      case Err(k) => Err(BadAmount(k))
      case Ok(amounts) =>
        var gsts := GstColumn(up, amounts, rate);
        var totals := AddColumns(amounts, gsts);
        Ok(Processed(amounts, gsts, totals, Totals(SumSkipNaN(amounts), SumSkipNaN(gsts), SumSkipNaN(totals))))
  }

  /** The processing as the source writes it: a blank Amount cell is NaN. */
  function ProcessAsWritten(up: Upload, rate: Rate): Result<Processed, TaxError>
  {
    ProcessWith(up, rate, NaN)
  }

  /** The processing with a blank Amount cell read as 0, as the GST column already does. */
  function Process(up: Upload, rate: Rate): Result<Processed, TaxError>
  {
    ProcessWith(up, rate, Val(0.0))
  }

  // ---------------------------------------------------------------------
  // Properties
  // ---------------------------------------------------------------------

  /** Processing aborts before any row is read exactly when no column is named `Amount`. */
  lemma MissingAmountAborts(up: Upload, rate: Rate, blank: Num)
    ensures ProcessWith(up, rate, blank) == Err(MissingAmountColumn) <==> "Amount" !in up.columns
  {
  }

  /**
   * Otherwise processing fails exactly when some Amount cell does not parse,
   * and then it names the first such row.
   */
  lemma BadAmountAborts(up: Upload, rate: Rate, blank: Num, a: nat)
    requires IndexOf(up.columns, "Amount") == Some(a)
    ensures ProcessWith(up, rate, blank).Err? <==>
              exists i :: 0 <= i < |up.rows| && AmountValue(CellAt(up.rows[i], a), blank) == None
    ensures ProcessWith(up, rate, blank).Err? ==>
              var k := ProcessWith(up, rate, blank).error.row;
              && ProcessWith(up, rate, blank).error.BadAmount?
              && k < |up.rows| && AmountValue(CellAt(up.rows[k], a), blank) == None
              && forall i :: 0 <= i < k ==> AmountValue(CellAt(up.rows[i], a), blank).Some?
  {
  }

  /**
   * On success every row has its parsed amount, its GST (from the first
   * tax-like column, or amount * rate / 100) and total = amount + GST, and the
   * three totals are the NaN-skipping sums of the three columns.
   */
  lemma ProcessedRows(up: Upload, rate: Rate, blank: Num, a: nat)
    requires IndexOf(up.columns, "Amount") == Some(a)
    requires ProcessWith(up, rate, blank).Ok?
    ensures var p := ProcessWith(up, rate, blank).value;
      && |p.amount| == |p.gst| == |p.total| == |up.rows|
      && (forall i :: 0 <= i < |up.rows| ==> AmountValue(CellAt(up.rows[i], a), blank) == Some(p.amount[i]))
      && (forall i :: 0 <= i < |up.rows| ==> p.total[i] == Add(p.amount[i], p.gst[i]))
      && (FirstTaxColumn(up.columns).Some? ==>
            forall i :: 0 <= i < |up.rows| ==>
              p.gst[i] == Val(GstValue(CellAt(up.rows[i], FirstTaxColumn(up.columns).value))))
      && (FirstTaxColumn(up.columns).None? ==>
            forall i :: 0 <= i < |up.rows| ==> p.gst[i] == ApplyRate(p.amount[i], rate))
      && p.totals == Totals(SumSkipNaN(p.amount), SumSkipNaN(p.gst), SumSkipNaN(p.total))
  {
    var amounts := ParseAmounts(up.rows, a, blank).value;
    var g := GstColumn(up, amounts, rate);
    var t := AddColumns(amounts, g);
    assert ProcessWith(up, rate, blank).value
        == Processed(amounts, g, t, Totals(SumSkipNaN(amounts), SumSkipNaN(g), SumSkipNaN(t)));
  }

  /** A column of row rates sums to the rate applied to the amount column's sum. */
  lemma {:induction false} RateSum(a: seq<Num>, g: seq<Num>, rate: Rate)
    requires |g| == |a|
    requires forall i :: 0 <= i < |a| ==> g[i] == ApplyRate(a[i], rate)
    ensures SumSkipNaN(g) == GstAt(SumSkipNaN(a), rate)
  {
    if a != [] {
      var n := |a| - 1;
      RateSum(a[..n], g[..n], rate);
      GstAtAdds(SumSkipNaN(a[..n]), if a[n].Val? then a[n].v else 0.0, rate);
    }
  }

  /** When no column is tax-like, total GST is total amount * rate / 100. */
  lemma RateGst(up: Upload, rate: Rate, blank: Num)
    requires FirstTaxColumn(up.columns).None?
    requires ProcessWith(up, rate, blank).Ok?
    ensures var t := ProcessWith(up, rate, blank).value.totals;
      t.totalGst == GstAt(t.totalAmount, rate)
  {
    var p := ProcessWith(up, rate, blank).value;
    ProcessedSums(up, rate, blank);
    RateColumnSum(up, p.amount, rate);
  }

  /** The first two totals are the sums of the amount column and of its GST column. */
  lemma ProcessedSums(up: Upload, rate: Rate, blank: Num)
    requires ProcessWith(up, rate, blank).Ok?
    ensures var p := ProcessWith(up, rate, blank).value;
      && |p.amount| == |up.rows|
      && p.totals.totalAmount == SumSkipNaN(p.amount)
      && p.totals.totalGst == SumSkipNaN(GstColumn(up, p.amount, rate))
  {
  }

  /** Without a tax-like column the GST column sums to the amount sum * rate / 100. */
  lemma RateColumnSum(up: Upload, amounts: seq<Num>, rate: Rate)
    requires FirstTaxColumn(up.columns).None?
    requires |amounts| == |up.rows|
    ensures SumSkipNaN(GstColumn(up, amounts, rate)) == GstAt(SumSkipNaN(amounts), rate)
  {
    var g := GstColumn(up, amounts, rate);
    assert forall i :: 0 <= i < |amounts| ==> g[i] == ApplyRate(amounts[i], rate);
    RateSum(amounts, g, rate);
  }

  /**
   * When no column is tax-like, total GST is total amount * rate / 100 and
   * the grand total is total amount * (100 + rate) / 100.
   */
  lemma RateTotals(up: Upload, rate: Rate, blank: Num)
    requires FirstTaxColumn(up.columns).None?
    requires ProcessWith(up, rate, blank).Ok?
    ensures var t := ProcessWith(up, rate, blank).value.totals;
      && t.totalGst == GstAt(t.totalAmount, rate)
      && t.grandTotal == t.totalAmount * (100 + rate) as real / 100.0
  {
    RateGst(up, rate, blank);
    GrandTotalWithRate(up, rate, blank);
    GstInclusive(ProcessWith(up, rate, blank).value.totals.totalAmount, rate);
  }

  /** Summing the element-wise sum is the sum of the sums, when both columns are NaN in the same rows. */
  lemma {:induction false} SumOfAddColumns(a: seq<Num>, g: seq<Num>)
    requires |a| == |g|
    requires forall i :: 0 <= i < |a| ==> a[i].NaN? == g[i].NaN?
    ensures SumSkipNaN(AddColumns(a, g)) == SumSkipNaN(a) + SumSkipNaN(g)
  {
    if a != [] {
      var n := |a| - 1;
      assert AddColumns(a, g)[..n] == AddColumns(a[..n], g[..n]);
      SumOfAddColumns(a[..n], g[..n]);
    }
  }

  /** gt == ta + tg whenever the GST comes from the rate. */
  lemma GrandTotalWithRate(up: Upload, rate: Rate, blank: Num)
    requires FirstTaxColumn(up.columns).None?
    requires ProcessWith(up, rate, blank).Ok?
    ensures var t := ProcessWith(up, rate, blank).value.totals;
      t.grandTotal == t.totalAmount + t.totalGst
  {
    var p := ProcessWith(up, rate, blank).value;
    SumOfAddColumns(p.amount, p.gst);
  }

  /** gt == ta + tg whenever no Amount value is NaN, whatever the GST source. */
  lemma GrandTotalWithoutNaN(up: Upload, rate: Rate, blank: Num)
    requires ProcessWith(up, rate, blank).Ok?
    requires forall i :: 0 <= i < |ProcessWith(up, rate, blank).value.amount| ==>
               ProcessWith(up, rate, blank).value.amount[i].Val?
    ensures var t := ProcessWith(up, rate, blank).value.totals;
      t.grandTotal == t.totalAmount + t.totalGst
  {
    var p := ProcessWith(up, rate, blank).value;
    SumOfAddColumns(p.amount, p.gst);
  }

  /**
   * As written, a blank Amount cell beside a GST column breaks gt == ta + tg:
   * the row's total is NaN and dropped from gt, while its GST stays in tg.
   */
  lemma BlankAmountBreaksGrandTotal()
    ensures var up := Upload(["Amount", "GST"], [[Blank, Number(5.0)]]);
      && ProcessAsWritten(up, 18).Ok?
      && ProcessAsWritten(up, 18).value.totals == Totals(0.0, 5.0, 0.0)
  {
    var up := Upload(["Amount", "GST"], [[Blank, Number(5.0)]]);
    assert IndexOf(up.columns, "Amount") == Some(0);
    assert IsTaxName("GST") by { TaxNames(); }
    assert !IsTaxName("Amount") by { TaxNames(); }
    assert FirstTaxColumn(up.columns) == Some(1);
    var p := ProcessAsWritten(up, 18).value;
    assert p.amount == [NaN];
    assert p.gst == [Val(5.0)];
    assert p.total == [NaN];
  }

  /** With blank Amount cells read as 0, gt == ta + tg for every upload that processes. */
  lemma GrandTotal(up: Upload, rate: Rate)
    requires Process(up, rate).Ok?
    ensures var t := Process(up, rate).value.totals;
      t.grandTotal == t.totalAmount + t.totalGst
  {
    var a :| IndexOf(up.columns, "Amount") == Some(a);
    ProcessedRows(up, rate, Val(0.0), a);
    GrandTotalWithoutNaN(up, rate, Val(0.0));
  }

  /** No cell of the `Amount` column is blank (trivially so when there is no such column). */
  predicate NoBlankAmount(up: Upload)
  {
    match IndexOf(up.columns, "Amount")
    case None => true
    case Some(a) => forall i :: 0 <= i < |up.rows| ==> !CellAt(up.rows[i], a).Blank?
  }

  /**
   * How blank cells are read never decides whether the Amount column parses,
   * nor which row fails; without blank cells it changes nothing at all.
   */
  lemma {:induction false} ParseAmountsBlankReading(rows: seq<seq<Cell>>, col: nat, b1: Num, b2: Num)
    ensures ParseAmounts(rows, col, b1).Err? == ParseAmounts(rows, col, b2).Err?
    ensures ParseAmounts(rows, col, b1).Err? ==> ParseAmounts(rows, col, b1).error == ParseAmounts(rows, col, b2).error
    ensures (forall i :: 0 <= i < |rows| ==> !CellAt(rows[i], col).Blank?) ==>
              ParseAmounts(rows, col, b1) == ParseAmounts(rows, col, b2)
  {
    if rows != [] {
      ParseAmountsBlankReading(rows[1..], col, b1, b2);
      assert forall i :: 0 <= i < |rows[1..]| ==> rows[1..][i] == rows[i + 1];
    }
  }

  /**
   * The corrected processing fails exactly when the as-written one does, with
   * the same error, and the two agree on every upload without a blank amount.
   */
  lemma CorrectionOnlyTouchesBlankAmounts(up: Upload, rate: Rate)
    ensures Process(up, rate).Err? == ProcessAsWritten(up, rate).Err?
    ensures Process(up, rate).Err? ==> Process(up, rate).error == ProcessAsWritten(up, rate).error
    ensures NoBlankAmount(up) ==> Process(up, rate) == ProcessAsWritten(up, rate)
  {
    match IndexOf(up.columns, "Amount")
    case None =>
    case Some(a) =>
      ParseAmountsBlankReading(up.rows, a, Val(0.0), NaN);
  }

  /** Thousands separators are removed from amounts: "1,000" reads as 1000. */
  lemma ThousandsSeparatorStripped()
    ensures AmountValue(Text("1,000"), NaN) == Some(Val(1000.0))
  {
    assert ',' !in "000";
    OneSeparatorStripped('1', "000");
    assert "1,000" == ['1', ','] + "000";
    assert "1000" == ['1'] + "000";
    ThousandParsed();
  }

  lemma ThousandParsed()
    ensures ParseDecimal("1000") == Some(1000.0)
  {
    assert AllDigits("1000");
    IntegerTextParsed("1000");
    assert DigitsValue("1000") == 1000 by {
      assert "1000"[..3] == "100" && "100"[..2] == "10" && "10"[..1] == "1";
    }
  }

  /** "2,500.50" reads as 2500.50. */
  lemma DecimalAmountParsed()
    ensures AmountValue(Text("2,500.50"), NaN) == Some(Val(2500.5))
  {
    StripDecimalExample();
    ParseDecimalExample();
  }

  lemma StripDecimalExample()
    ensures StripCommas("2,500.50") == "2500.50"
  {
    assert ',' !in "500.50";
    OneSeparatorStripped('2', "500.50");
    assert "2,500.50" == ['2', ','] + "500.50";
    assert "2500.50" == ['2'] + "500.50";
  }

  /** One leading digit, a separator, then separator-free text. */
  lemma OneSeparatorStripped(d: char, rest: string)
    requires d != ',' && ',' !in rest
    ensures StripCommas([d, ','] + rest) == [d] + rest
  {
    var s := [d, ','] + rest;
    var t := [','] + rest;
    assert s[0] == d && s[1..] == t;
    assert t[0] == ',' && t[1..] == rest;
    assert StripCommas(t) == StripCommas(rest) == rest;
    assert StripCommas(s) == [d] + StripCommas(t);
  }

  lemma ParseDecimalExample()
    ensures ParseDecimal("2500.50") == Some(2500.5)
  {
    assert DotIndex("2500.50") == 4;
    assert "2500.50"[..4] == "2500" && "2500.50"[5..] == "50";
    assert DigitsValue("2500") == 2500 by {
      assert "2500"[..3] == "250" && "250"[..2] == "25" && "25"[..1] == "2";
    }
    assert DigitsValue("50") == 50 by { assert "50"[..1] == "5"; }
  }

  /** The GST column is not stripped of commas: "1,000" there coerces to 0. */
  lemma GstCommaCoercedToZero()
    ensures GstValue(Text("1,000")) == 0.0
  {
    CommaRejected("1,000");
  }

  /**
   * Two text amounts with separators and an 18% rate: 1,000 and 2,500.50 give
   * total amount 3500.50, total GST 630.09 and grand total 4130.59.
   */
  lemma TwoRowExample()
    ensures var up := Upload(["Amount"], [[Text("1,000")], [Text("2,500.50")]]);
      && ProcessAsWritten(up, 18).Ok?
      && ProcessAsWritten(up, 18).value.totals == Totals(3500.5, 630.09, 4130.59)
  {
    ThousandsSeparatorStripped();
    DecimalAmountParsed();
    TwoRowTotals("1,000", "2,500.50");
  }

  lemma TwoRowTotals(t1: string, t2: string)
    requires AmountValue(Text(t1), NaN) == Some(Val(1000.0))
    requires AmountValue(Text(t2), NaN) == Some(Val(2500.5))
    ensures var up := Upload(["Amount"], [[Text(t1)], [Text(t2)]]);
      && ProcessAsWritten(up, 18).Ok?
      && ProcessAsWritten(up, 18).value.totals == Totals(3500.5, 630.09, 4130.59)
  {
    var up := Upload(["Amount"], [[Text(t1)], [Text(t2)]]);
    TwoRowAmounts(t1, t2);
    AmountOnlyColumns();
    var amounts := [Val(1000.0), Val(2500.5)];
    var g := GstColumn(up, amounts, 18);
    assert g == [Val(180.0), Val(450.09)];
    TwoRowSums();
  }

  /** Both example cells parse in the Amount column. */
  lemma TwoRowAmounts(t1: string, t2: string)
    requires AmountValue(Text(t1), NaN) == Some(Val(1000.0))
    requires AmountValue(Text(t2), NaN) == Some(Val(2500.5))
    ensures ParseAmounts([[Text(t1)], [Text(t2)]], 0, NaN).Ok?
    ensures ParseAmounts([[Text(t1)], [Text(t2)]], 0, NaN).value == [Val(1000.0), Val(2500.5)]
  {
  }

  /** A table whose only column is `Amount` takes its GST from the rate. */
  lemma AmountOnlyColumns()
    ensures IndexOf(["Amount"], "Amount") == Some(0) && FirstTaxColumn(["Amount"]) == None
  {
    TaxNames();
  }

  /** The three sums of the example, computed exactly. */
  lemma TwoRowSums()
    ensures SumSkipNaN([Val(1000.0), Val(2500.5)]) == 3500.5
    ensures SumSkipNaN([Val(180.0), Val(450.09)]) == 630.09
    ensures SumSkipNaN(AddColumns([Val(1000.0), Val(2500.5)], [Val(180.0), Val(450.09)])) == 4130.59
  {
    assert [Val(1000.0), Val(2500.5)][..1] == [Val(1000.0)];
    assert [Val(180.0), Val(450.09)][..1] == [Val(180.0)];
    var t := AddColumns([Val(1000.0), Val(2500.5)], [Val(180.0), Val(450.09)]);
    assert t == [Val(1180.0), Val(2950.59)];
    assert t[..1] == [Val(1180.0)];
  }
}
