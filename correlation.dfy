/**
  Per-token correlation between the quoted price and the output amount, and
  the six-way wording of a coefficient in the correlation table.

  The coefficient itself (numpy's `corrcoef`) is floating-point statistics;
  the model takes it as a given function `pearson` of the two columns and
  proves what the scripts do around it: which tokens get a row, in which
  order, and which label each coefficient gets.
*/
module Correlation {
  import opened Quotes

  datatype CorrelationRow = CorrelationRow(token: string, correlation: Coefficient)

  /** One pass of the per-token loop body: a row only when the token has
      more than two quotes. */
  function CorrelationFor(
    qs: seq<Quote>, pearson: (seq<real>, seq<real>) -> Coefficient, token: string): (r: Option<CorrelationRow>)
    ensures r.Some? ==> r.value.token == token
  {
    var tokenData := TokenRows(qs, token);
    if |tokenData| > 2 then
      Some(CorrelationRow(token, pearson(Prices(tokenData), Amounts(tokenData))))
    else
      None
  }

  /** The loop body's result for each of `ts`, in order. */
  function CorrelationResults(
    qs: seq<Quote>, pearson: (seq<real>, seq<real>) -> Coefficient, ts: seq<string>): (opts: seq<Option<CorrelationRow>>)
    ensures |opts| == |ts|
    ensures forall i :: 0 <= i < |ts| ==> opts[i] == CorrelationFor(qs, pearson, ts[i])
  {
    seq(|ts|, i requires 0 <= i < |ts| => CorrelationFor(qs, pearson, ts[i]))
  }

  /** The rows collected over `df['symbol'].unique()`. */
  function CorrelationRows(qs: seq<Quote>, pearson: (seq<real>, seq<real>) -> Coefficient): seq<CorrelationRow> {
    Present(CorrelationResults(qs, pearson, Tokens(qs)))
  }

  /** Every collected row is about a token with more than two quotes and
      carries the coefficient of that token's own price and amount columns. */
  lemma CorrelationRowsSound(qs: seq<Quote>, pearson: (seq<real>, seq<real>) -> Coefficient)
    ensures forall r :: r in CorrelationRows(qs, pearson) ==>
      |TokenRows(qs, r.token)| > 2
      && r.correlation == pearson(Prices(TokenRows(qs, r.token)), Amounts(TokenRows(qs, r.token)))
  {
    var opts := CorrelationResults(qs, pearson, Tokens(qs));
    PresentMembers(opts);
    forall r | r in CorrelationRows(qs, pearson) ensures CorrelationFor(qs, pearson, r.token) == Some(r) {
      var i :| 0 <= i < |opts| && opts[i] == Some(r);
    }
  }

  /** Every token with more than two quotes has a row. */
  lemma CorrelationRowsComplete(qs: seq<Quote>, pearson: (seq<real>, seq<real>) -> Coefficient)
    ensures forall t :: |TokenRows(qs, t)| > 2 ==> exists r :: r in CorrelationRows(qs, pearson) && r.token == t
  {
    var tokens := Tokens(qs);
    var opts := CorrelationResults(qs, pearson, tokens);
    PresentMembers(opts);
    forall t | |TokenRows(qs, t)| > 2
      ensures CorrelationFor(qs, pearson, t).value in CorrelationRows(qs, pearson)
    {
      assert TokenRows(qs, t)[0] in TokenRows(qs, t);
      assert t in tokens;
      var i :| 0 <= i < |tokens| && tokens[i] == t;
      assert opts[i] == CorrelationFor(qs, pearson, t);
    }
  }

  /** The rows follow the first appearance of their tokens, so no token has
      two rows. */
  lemma CorrelationRowsOrdered(qs: seq<Quote>, pearson: (seq<real>, seq<real>) -> Coefficient)
    ensures var rows := CorrelationRows(qs, pearson);
      forall i, j :: 0 <= i < j < |rows| ==> FirstIndex(qs, rows[i].token) < FirstIndex(qs, rows[j].token)
  {
    var tokens := Tokens(qs);
    var opts := CorrelationResults(qs, pearson, tokens);
    var rows := Present(opts);
    var ks := PresentAt(opts);
    TokensInFirstAppearanceOrder(qs);
    forall i, j | 0 <= i < j < |rows|
      ensures FirstIndex(qs, rows[i].token) < FirstIndex(qs, rows[j].token)
    {
      assert opts[ks[i]] == Some(rows[i]) && opts[ks[j]] == Some(rows[j]);
    }
  }

  /** The loop of `save_correlation_analysis` (and of the summary script):
      one row per token with more than two quotes, in first-appearance
      order. */
  method CorrelationAnalysis(qs: seq<Quote>, pearson: (seq<real>, seq<real>) -> Coefficient)
    returns (rows: seq<CorrelationRow>)
    ensures forall r :: r in rows ==>
      |TokenRows(qs, r.token)| > 2
      && r.correlation == pearson(Prices(TokenRows(qs, r.token)), Amounts(TokenRows(qs, r.token)))
    ensures forall t :: |TokenRows(qs, t)| > 2 ==> exists r :: r in rows && r.token == t
    ensures forall i, j :: 0 <= i < j < |rows| ==> FirstIndex(qs, rows[i].token) < FirstIndex(qs, rows[j].token)
  {
    var tokens := Tokens(qs);
    rows := CollectRows(tokens, t => CorrelationFor(qs, pearson, t));
    assert Results(tokens, t => CorrelationFor(qs, pearson, t)) == CorrelationResults(qs, pearson, tokens);
    CorrelationRowsSound(qs, pearson);
    CorrelationRowsComplete(qs, pearson);
    CorrelationRowsOrdered(qs, pearson);
  }

  /** The six labels of the correlation table, from the top of the ladder
      down. */
  datatype Interpretation =
    | VeryStrongPositive
    | StrongPositive
    | Positive
    | Negative
    | StrongNegative
    | VeryStrongNegative
  {
    function Text(): string {
      match this
      case VeryStrongPositive => "Very strong positive correlation"
      case StrongPositive => "Strong positive correlation"
      case Positive => "Positive correlation"
      case Negative => "Negative correlation"
      case StrongNegative => "Strong negative correlation"
      case VeryStrongNegative => "Very strong negative correlation"
    }

    /** Position on the ladder: 5 for the top label, 0 for the bottom one. */
    function Level(): nat {
      match this
      case VeryStrongPositive => 5
      case StrongPositive => 4
      case Positive => 3
      case Negative => 2
      case StrongNegative => 1
      case VeryStrongNegative => 0
    }
  }

  /** The if/elif ladder with strict thresholds 0.9, 0.5, 0, -0.5, -0.9. A
      NaN coefficient fails every test and falls to the bottom label. */
  function Interpret(c: Coefficient): (i: Interpretation)
    ensures c.NaN? ==> i == VeryStrongNegative
    ensures c.Num? ==> (i == VeryStrongPositive <==> 0.9 < c.value)
    ensures c.Num? ==> (i == StrongPositive <==> 0.5 < c.value <= 0.9)
    ensures c.Num? ==> (i == Positive <==> 0.0 < c.value <= 0.5)
    ensures c.Num? ==> (i == Negative <==> -0.5 < c.value <= 0.0)
    ensures c.Num? ==> (i == StrongNegative <==> -0.9 < c.value <= -0.5)
    ensures c.Num? ==> (i == VeryStrongNegative <==> c.value <= -0.9)
  {
    if Greater(c, 0.9) then VeryStrongPositive
    else if Greater(c, 0.5) then StrongPositive
    else if Greater(c, 0.0) then Positive
    else if Greater(c, -0.5) then Negative
    else if Greater(c, -0.9) then StrongNegative
    else VeryStrongNegative
  }

  /** A larger coefficient never gets a lower label. */
  lemma InterpretMonotone(a: real, b: real)
    requires a <= b
    ensures Interpret(Num(a)).Level() <= Interpret(Num(b)).Level()
  {
  }

  /** Zero is not "positive": the third test is strict. */
  lemma InterpretZero()
    ensures Interpret(Num(0.0)) == Negative
    ensures Interpret(Num(0.0)).Text() == "Negative correlation"
  {
  }

  /** One line of the Markdown correlation table. */
  datatype TableLine = TableLine(token: string, correlation: Coefficient, interpretation: string)

  /** The loop that renders the correlation table: one line per row, in row
      order, each with its row's label. */
  method CorrelationTable(rows: seq<CorrelationRow>) returns (table: seq<TableLine>)
    ensures |table| == |rows|
    ensures forall i :: 0 <= i < |rows| ==>
      table[i].token == rows[i].token
      && table[i].correlation == rows[i].correlation
      && table[i].interpretation == Interpret(rows[i].correlation).Text()
  {
    table := [];
    for i := 0 to |rows|
      invariant |table| == i
      invariant forall k :: 0 <= k < i ==>
        table[k].token == rows[k].token
        && table[k].correlation == rows[k].correlation
        && table[k].interpretation == Interpret(rows[k].correlation).Text()
    {
      var row := rows[i];
      var interpretation := Interpret(row.correlation).Text();
      table := table + [TableLine(row.token, row.correlation, interpretation)];
    }
  }
}
