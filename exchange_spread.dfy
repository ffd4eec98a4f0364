/**
  The inter-exchange price spread of the exchange comparison: for each token,
  the mean price on KyberSwap against the mean price on Universal Assets, as
  a percentage of the smaller mean, for the tokens quoted on both.
*/
module ExchangeSpread {
  import opened Quotes

  const KyberSwap := "KyberSwap"
  const UniversalAssets := "Universal Assets"

  function Min(a: real, b: real): real {
    if a <= b then a else b
  }

  function Max(a: real, b: real): real {
    if a <= b then b else a
  }

  function Sum(xs: seq<real>): real {
    if xs == [] then 0.0 else Sum(xs[..|xs| - 1]) + xs[|xs| - 1]
  }

  /** `Series.mean()`: NaN (here `None`) for an empty column. */
  function Mean(xs: seq<real>): (m: Option<real>)
    ensures m.None? <==> xs == []
    ensures m.Some? ==> m.value * (|xs| as real) == Sum(xs)
  {
    if xs == [] then None else Some(Sum(xs) / (|xs| as real))
  }

  /** A sum of values between `lo` and `hi` lies between `|xs| * lo` and
      `|xs| * hi`. */
  lemma {:induction false} SumBounds(xs: seq<real>, lo: real, hi: real)
    requires forall i :: 0 <= i < |xs| ==> lo <= xs[i] <= hi
    ensures (|xs| as real) * lo <= Sum(xs) <= (|xs| as real) * hi
  {
    if xs != [] {
      SumBounds(xs[..|xs| - 1], lo, hi);
    }
  }

  /** A sum of positive values is positive. */
  lemma {:induction false} SumPositive(xs: seq<real>)
    requires xs != []
    requires forall i :: 0 <= i < |xs| ==> xs[i] > 0.0
    ensures Sum(xs) > 0.0
  {
    var init := xs[..|xs| - 1];
    if init != [] {
      SumPositive(init);
    }
  }

  /** The mean lies between any bounds of the values. */
  lemma MeanBounds(xs: seq<real>, lo: real, hi: real)
    requires xs != []
    requires forall i :: 0 <= i < |xs| ==> lo <= xs[i] <= hi
    ensures lo <= Mean(xs).value <= hi
  {
    SumBounds(xs, lo, hi);
    var n := |xs| as real;
    assert Mean(xs).value == Sum(xs) / n;
    assert lo == lo * n / n && hi == hi * n / n;
  }

  /** The mean of positive values is positive. */
  lemma MeanPositive(xs: seq<real>)
    requires xs != []
    requires forall i :: 0 <= i < |xs| ==> xs[i] > 0.0
    ensures Mean(xs).value > 0.0
  {
    SumPositive(xs);
    assert Mean(xs).value == Sum(xs) / (|xs| as real);
  }

  /** The token has a quote on the exchange. */
  predicate QuotedOn(qs: seq<Quote>, token: string, exchange: string) {
    exists q :: q in qs && q.symbol == token && q.exchangeName == exchange
  }

  /** `token_data[token_data['exchange_name'] == exchange]['price_per_token'].mean()`:
      the mean over every row of the token on the exchange (repetitions
      included), defined exactly when there is such a row, and then
      positive. */
  function MeanPrice(qs: seq<Quote>, token: string, exchange: string): (m: Option<real>)
    requires PositivePrices(qs)
    ensures m == Mean(Prices(ExchangeRows(TokenRows(qs, token), exchange)))
    ensures m.Some? <==> QuotedOn(qs, token, exchange)
    ensures m.Some? ==> m.value > 0.0
  {
    var rows := ExchangeRows(TokenRows(qs, token), exchange);
    var ps := Prices(rows);
    assert forall q :: q in qs && q.symbol == token && q.exchangeName == exchange ==> q in rows;
    if ps == [] then
      None
    else
      assert rows[0] in rows;
      assert forall i :: 0 <= i < |ps| ==> rows[i] in rows;
      MeanPositive(ps);
      Mean(ps)
  }

  /** The mean price lies between any bounds of the token's prices on the
      exchange. */
  lemma MeanPriceBounds(qs: seq<Quote>, token: string, exchange: string, lo: real, hi: real)
    requires PositivePrices(qs)
    requires QuotedOn(qs, token, exchange)
    requires forall q :: q in qs && q.symbol == token && q.exchangeName == exchange ==> lo <= q.price <= hi
    ensures lo <= MeanPrice(qs, token, exchange).value <= hi
  {
    var rows := ExchangeRows(TokenRows(qs, token), exchange);
    var ps := Prices(rows);
    assert MeanPrice(qs, token, exchange) == Mean(ps);
    assert forall i :: 0 <= i < |ps| ==> rows[i] in rows;
    MeanBounds(ps, lo, hi);
  }

  /** When every quote of the token on the exchange has the same price, that
      price is the mean. */
  lemma MeanPriceOfEqualPrices(qs: seq<Quote>, token: string, exchange: string, p: real)
    requires PositivePrices(qs)
    requires QuotedOn(qs, token, exchange)
    requires forall q :: q in qs && q.symbol == token && q.exchangeName == exchange ==> q.price == p
    ensures MeanPrice(qs, token, exchange) == Some(p)
  {
    MeanPriceBounds(qs, token, exchange, p, p);
  }

  /** `abs(k - u) / min(k, u) * 100`: by how many percent the larger mean
      exceeds the smaller one. Symmetric in its arguments, never negative,
      and zero exactly when the means agree. */
  function InterExchangeSpread(kyberAvg: real, universalAvg: real): (s: real)
    requires kyberAvg > 0.0 && universalAvg > 0.0
    ensures s == (Max(kyberAvg, universalAvg) / Min(kyberAvg, universalAvg) - 1.0) * 100.0
    ensures s >= 0.0
    ensures s == 0.0 <==> kyberAvg == universalAvg
  {
    var lo, hi := Min(kyberAvg, universalAvg), Max(kyberAvg, universalAvg);
    assert Abs(kyberAvg - universalAvg) == hi - lo;
    assert (hi - lo) / lo == hi / lo - lo / lo;
    assert lo / lo == 1.0;
    Abs(kyberAvg - universalAvg) / Min(kyberAvg, universalAvg) * 100.0
  }

  /** Swapping the two exchanges gives the same spread. */
  lemma InterExchangeSpreadSymmetric(k: real, u: real)
    requires k > 0.0 && u > 0.0
    ensures InterExchangeSpread(k, u) == InterExchangeSpread(u, k)
  {
  }

  datatype SpreadRow = SpreadRow(token: string, spread: real)

  /** One pass of the per-token loop body: a row only when both means are
      defined (neither is NaN). */
  function SpreadFor(qs: seq<Quote>, token: string): (r: Option<SpreadRow>)
    requires PositivePrices(qs)
    ensures r.Some? ==> r.value.token == token
  {
    var kyberAvg := MeanPrice(qs, token, KyberSwap);
    var universalAvg := MeanPrice(qs, token, UniversalAssets);
    if kyberAvg.Some? && universalAvg.Some? then
      Some(SpreadRow(token, InterExchangeSpread(kyberAvg.value, universalAvg.value)))
    else
      None
  }

  /** The loop body's result for each of `ts`, in order. */
  function SpreadResults(qs: seq<Quote>, ts: seq<string>): (opts: seq<Option<SpreadRow>>)
    requires PositivePrices(qs)
    ensures |opts| == |ts|
    ensures forall i :: 0 <= i < |ts| ==> opts[i] == SpreadFor(qs, ts[i])
  {
    seq(|ts|, i requires 0 <= i < |ts| => SpreadFor(qs, ts[i]))
  }

  /** The `price_spreads` rows collected over `df['symbol'].unique()`. */
  function SpreadRows(qs: seq<Quote>): seq<SpreadRow>
    requires PositivePrices(qs)
  {
    Present(SpreadResults(qs, Tokens(qs)))
  }

  /** Every row is about a token quoted on both exchanges and carries the
      spread between its two mean prices, which is never negative. */
  lemma SpreadRowsSound(qs: seq<Quote>)
    requires PositivePrices(qs)
    ensures forall r :: r in SpreadRows(qs) ==>
      && QuotedOn(qs, r.token, KyberSwap)
      && QuotedOn(qs, r.token, UniversalAssets)
      && r.spread >= 0.0
      && r.spread == InterExchangeSpread(
           MeanPrice(qs, r.token, KyberSwap).value, MeanPrice(qs, r.token, UniversalAssets).value)
  {
    var opts := SpreadResults(qs, Tokens(qs));
    PresentMembers(opts);
    forall r | r in SpreadRows(qs) ensures SpreadFor(qs, r.token) == Some(r) {
      var i :| 0 <= i < |opts| && opts[i] == Some(r);
    }
  }

  /** Every token quoted on both exchanges has a row. */
  lemma SpreadRowsComplete(qs: seq<Quote>)
    requires PositivePrices(qs)
    ensures forall t :: QuotedOn(qs, t, KyberSwap) && QuotedOn(qs, t, UniversalAssets) ==>
      exists r :: r in SpreadRows(qs) && r.token == t
  {
    var tokens := Tokens(qs);
    var opts := SpreadResults(qs, tokens);
    PresentMembers(opts);
    forall t | QuotedOn(qs, t, KyberSwap) && QuotedOn(qs, t, UniversalAssets)
      ensures SpreadFor(qs, t).value in SpreadRows(qs)
    {
      assert t in tokens;
      var i :| 0 <= i < |tokens| && tokens[i] == t;
      assert opts[i] == SpreadFor(qs, t);
    }
  }

  /** The rows follow the first appearance of their tokens, so no token has
      two rows. */
  lemma SpreadRowsOrdered(qs: seq<Quote>)
    requires PositivePrices(qs)
    ensures var rows := SpreadRows(qs);
      forall i, j :: 0 <= i < j < |rows| ==> FirstIndex(qs, rows[i].token) < FirstIndex(qs, rows[j].token)
  {
    var tokens := Tokens(qs);
    var opts := SpreadResults(qs, tokens);
    var rows := Present(opts);
    var ks := PresentAt(opts);
    TokensInFirstAppearanceOrder(qs);
    forall i, j | 0 <= i < j < |rows|
      ensures FirstIndex(qs, rows[i].token) < FirstIndex(qs, rows[j].token)
    {
      assert opts[ks[i]] == Some(rows[i]) && opts[ks[j]] == Some(rows[j]);
    }
  }

  /** The spread loop of `save_exchange_comparison` (and of the summary
      script). */
  method ExchangeSpreads(qs: seq<Quote>) returns (rows: seq<SpreadRow>)
    requires PositivePrices(qs)
    ensures forall r :: r in rows ==>
      && QuotedOn(qs, r.token, KyberSwap)
      && QuotedOn(qs, r.token, UniversalAssets)
      && r.spread >= 0.0
      && r.spread == InterExchangeSpread(
           MeanPrice(qs, r.token, KyberSwap).value, MeanPrice(qs, r.token, UniversalAssets).value)
    ensures forall t :: QuotedOn(qs, t, KyberSwap) && QuotedOn(qs, t, UniversalAssets) ==>
      exists r :: r in rows && r.token == t
    ensures forall i, j :: 0 <= i < j < |rows| ==> FirstIndex(qs, rows[i].token) < FirstIndex(qs, rows[j].token)
  {
    var tokens := Tokens(qs);
    rows := CollectRows(tokens, t => SpreadFor(qs, t));
    assert Results(tokens, t => SpreadFor(qs, t)) == SpreadResults(qs, tokens);
    SpreadRowsSound(qs);
    SpreadRowsComplete(qs);
    SpreadRowsOrdered(qs);
  }
}
