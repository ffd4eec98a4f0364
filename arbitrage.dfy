/**
  Cross-exchange arbitrage detection: for every token that is quoted on both
  sides, the lowest SELL quote (where one buys) against the highest BUY quote
  (where one sells), the percentage spread between them, the ranking by
  spread and the numbered Markdown table built from it.

  The two field names follow the scripts: `buyPrice` is the lowest SELL-side
  price and `sellPrice` the highest BUY-side price.
*/
module Arbitrage {
  import opened Quotes

  datatype Opportunity = Opportunity(
    token: string,
    buyExchange: string,
    sellExchange: string,
    buyPrice: real,
    sellPrice: real,
    spreadPercent: real)

  /** What `pd.DataFrame(arbitrage_data).sort_values('spread_percent', ...)`
      yields: the ranked rows, or pandas' KeyError when no row was collected
      (an empty frame has no `spread_percent` column). */
  datatype Ranking = Ranked(opportunities: seq<Opportunity>) | KeyError(column: string)

  predicate HasQuote(qs: seq<Quote>, token: string, quoteType: string) {
    exists q :: q in qs && q.symbol == token && q.quoteType == quoteType
  }

  /** The token has at least one BUY and at least one SELL quote. */
  predicate TwoSided(qs: seq<Quote>, token: string) {
    HasQuote(qs, token, BuyType) && HasQuote(qs, token, SellType)
  }

  /** `price` is the lowest SELL price of `token`, quoted on `exchange`. */
  predicate IsLowestSell(qs: seq<Quote>, token: string, price: real, exchange: string) {
    && (exists q :: q in qs && q.symbol == token && q.quoteType == SellType
                    && q.price == price && q.exchangeName == exchange)
    && (forall q :: q in qs && q.symbol == token && q.quoteType == SellType ==> price <= q.price)
  }

  /** `price` is the highest BUY price of `token`, quoted on `exchange`. */
  predicate IsHighestBuy(qs: seq<Quote>, token: string, price: real, exchange: string) {
    && (exists q :: q in qs && q.symbol == token && q.quoteType == BuyType
                    && q.price == price && q.exchangeName == exchange)
    && (forall q :: q in qs && q.symbol == token && q.quoteType == BuyType ==> q.price <= price)
  }

  /** `Series.idxmax()` over the rows' prices: the first row holding the
      highest price. */
  function IdxMax(rows: seq<Quote>): (k: nat)
    requires |rows| > 0
    ensures k < |rows|
    ensures forall j :: 0 <= j < |rows| ==> rows[j].price <= rows[k].price
    ensures forall j :: 0 <= j < k ==> rows[j].price < rows[k].price
  {
    if |rows| == 1 then 0
    else
      var k := IdxMax(rows[..|rows| - 1]);
      if rows[|rows| - 1].price > rows[k].price then |rows| - 1 else k
  }

  /** `Series.idxmin()` over the rows' prices: the first row holding the
      lowest price. */
  function IdxMin(rows: seq<Quote>): (k: nat)
    requires |rows| > 0
    ensures k < |rows|
    ensures forall j :: 0 <= j < |rows| ==> rows[k].price <= rows[j].price
    ensures forall j :: 0 <= j < k ==> rows[k].price < rows[j].price
  {
    if |rows| == 1 then 0
    else
      var k := IdxMin(rows[..|rows| - 1]);
      if rows[|rows| - 1].price < rows[k].price then |rows| - 1 else k
  }

  /** `(sell - buy) / buy * 100`. With a positive buy price its sign is the
      sign of `sell - buy`: negative spreads are results, not errors. */
  function SpreadPercent(buyPrice: real, sellPrice: real): (s: real)
    requires buyPrice != 0.0
    ensures s * buyPrice == (sellPrice - buyPrice) * 100.0
    ensures buyPrice > 0.0 ==> (s > 0.0 <==> sellPrice > buyPrice)
    ensures buyPrice > 0.0 ==> (s == 0.0 <==> sellPrice == buyPrice)
    ensures buyPrice > 0.0 ==> (s < 0.0 <==> sellPrice < buyPrice)
  {
    (sellPrice - buyPrice) / buyPrice * 100.0
  }

  /** One pass of the per-token loop body: the token's opportunity, or
      nothing when it lacks a BUY or a SELL quote. */
  function OpportunityFor(qs: seq<Quote>, token: string): (o: Option<Opportunity>)
    requires PositivePrices(qs)
    ensures o.Some? <==> TwoSided(qs, token)
    ensures o.Some? ==> o.value.token == token
    ensures o.Some? ==> IsLowestSell(qs, token, o.value.buyPrice, o.value.buyExchange)
    ensures o.Some? ==> IsHighestBuy(qs, token, o.value.sellPrice, o.value.sellExchange)
    ensures o.Some? ==> o.value.buyPrice > 0.0
                        && o.value.spreadPercent == SpreadPercent(o.value.buyPrice, o.value.sellPrice)
  {
    var tokenData := TokenRows(qs, token);
    var buyOrders := QuoteTypeRows(tokenData, BuyType);
    var sellOrders := QuoteTypeRows(tokenData, SellType);
    if |buyOrders| > 0 && |sellOrders| > 0 then
      var highestBuy := buyOrders[IdxMax(buyOrders)];
      var lowestSell := sellOrders[IdxMin(sellOrders)];
      assert highestBuy in buyOrders && highestBuy in tokenData;
      assert lowestSell in sellOrders && lowestSell in tokenData;
      assert forall q :: q in qs && q.symbol == token && q.quoteType == SellType ==> q in sellOrders;
      assert forall q :: q in qs && q.symbol == token && q.quoteType == BuyType ==> q in buyOrders;
      Some(Opportunity(
        token,
        lowestSell.exchangeName,
        highestBuy.exchangeName,
        lowestSell.price,
        highestBuy.price,
        SpreadPercent(lowestSell.price, highestBuy.price)))
    else
      assert !HasQuote(qs, token, BuyType) || !HasQuote(qs, token, SellType) by {
        if HasQuote(qs, token, BuyType) {
          var q :| q in qs && q.symbol == token && q.quoteType == BuyType;
          assert q in buyOrders;
        }
        if HasQuote(qs, token, SellType) {
          var q :| q in qs && q.symbol == token && q.quoteType == SellType;
          assert q in sellOrders;
        }
      }
      None
  }

  /** Non-increasing in `spreadPercent`. */
  predicate SortedBySpread(os: seq<Opportunity>) {
    forall i, j :: 0 <= i < j < |os| ==> os[i].spreadPercent >= os[j].spreadPercent
  }

  /** No token has two rows. */
  predicate DistinctTokens(os: seq<Opportunity>) {
    forall i, j :: 0 <= i < j < |os| ==> os[i].token != os[j].token
  }

  /** Puts `o` in front of the first row whose spread is not above its own. */
  function InsertBySpread(o: Opportunity, os: seq<Opportunity>): (r: seq<Opportunity>)
    ensures |r| == |os| + 1
  {
    if os == [] || o.spreadPercent >= os[0].spreadPercent then [o] + os
    else [os[0]] + InsertBySpread(o, os[1..])
  }

  /** `sort_values('spread_percent', ascending=False)` as an insertion sort. */
  function SortBySpread(os: seq<Opportunity>): (r: seq<Opportunity>)
    ensures |r| == |os|
  {
    if os == [] then [] else InsertBySpread(os[0], SortBySpread(os[1..]))
  }

  lemma {:induction false} InsertPermutes(o: Opportunity, os: seq<Opportunity>)
    ensures multiset(InsertBySpread(o, os)) == multiset(os) + multiset{o}
  {
    if os != [] && o.spreadPercent < os[0].spreadPercent {
      InsertPermutes(o, os[1..]);
      assert os == [os[0]] + os[1..];
    }
  }

  lemma InsertMembers(o: Opportunity, os: seq<Opportunity>)
    ensures forall x :: x in InsertBySpread(o, os) <==> x == o || x in os
  {
    InsertPermutes(o, os);
    forall x ensures x in InsertBySpread(o, os) <==> x in multiset(InsertBySpread(o, os)) {}
  }

  lemma {:induction false} InsertSorted(o: Opportunity, os: seq<Opportunity>)
    requires SortedBySpread(os)
    ensures SortedBySpread(InsertBySpread(o, os))
  {
    if os != [] && o.spreadPercent < os[0].spreadPercent {
      var rest := InsertBySpread(o, os[1..]);
      InsertSorted(o, os[1..]);
      InsertMembers(o, os[1..]);
      forall k | 0 <= k < |rest| ensures os[0].spreadPercent >= rest[k].spreadPercent {
        assert rest[k] in rest;
      }
    }
  }

  lemma {:induction false} InsertDistinct(o: Opportunity, os: seq<Opportunity>)
    requires DistinctTokens(os)
    requires forall x :: x in os ==> x.token != o.token
    ensures DistinctTokens(InsertBySpread(o, os))
  {
    if os != [] && o.spreadPercent < os[0].spreadPercent {
      var rest := InsertBySpread(o, os[1..]);
      InsertDistinct(o, os[1..]);
      InsertMembers(o, os[1..]);
      forall k | 0 <= k < |rest| ensures os[0].token != rest[k].token {
        assert rest[k] in rest;
      }
    }
  }

  /** Ranking keeps exactly the rows it is given. */
  lemma {:induction false} SortPermutes(os: seq<Opportunity>)
    ensures multiset(SortBySpread(os)) == multiset(os)
  {
    if os != [] {
      SortPermutes(os[1..]);
      InsertPermutes(os[0], SortBySpread(os[1..]));
      assert os == [os[0]] + os[1..];
    }
  }

  /** Ranking puts the highest spread first. The order among equal spreads is
      not promised, as pandas' default (unstable) sort does not promise it. */
  lemma {:induction false} SortSorted(os: seq<Opportunity>)
    ensures SortedBySpread(SortBySpread(os))
  {
    if os != [] {
      SortSorted(os[1..]);
      InsertSorted(os[0], SortBySpread(os[1..]));
    }
  }

  /** Ranking rows with one row per token keeps one row per token. */
  lemma {:induction false} SortDistinct(os: seq<Opportunity>)
    requires DistinctTokens(os)
    ensures DistinctTokens(SortBySpread(os))
  {
    if os != [] {
      var rest := SortBySpread(os[1..]);
      SortDistinct(os[1..]);
      SortPermutes(os[1..]);
      forall x | x in rest ensures x in os[1..] {
        assert x in multiset(rest);
      }
      InsertDistinct(os[0], rest);
    }
  }

  /** The per-token results of the loop body over `ts`, one per token. */
  function PerToken(qs: seq<Quote>, ts: seq<string>): (opts: seq<Option<Opportunity>>)
    requires PositivePrices(qs)
    ensures |opts| == |ts|
    ensures forall i :: 0 <= i < |ts| ==> opts[i] == OpportunityFor(qs, ts[i])
  {
    seq(|ts|, i requires 0 <= i < |ts| => OpportunityFor(qs, ts[i]))
  }

  /** `arbitrage_data` after the loop over `df['symbol'].unique()`. */
  function ArbitrageData(qs: seq<Quote>): seq<Opportunity>
    requires PositivePrices(qs)
  {
    Present(PerToken(qs, Tokens(qs)))
  }

  /** Every collected row is its token's opportunity. */
  lemma ArbitrageDataSound(qs: seq<Quote>)
    requires PositivePrices(qs)
    ensures forall o :: o in ArbitrageData(qs) ==> OpportunityFor(qs, o.token) == Some(o)
  {
    var opts := PerToken(qs, Tokens(qs));
    PresentMembers(opts);
    forall o | o in ArbitrageData(qs) ensures OpportunityFor(qs, o.token) == Some(o) {
      var i :| 0 <= i < |opts| && opts[i] == Some(o);
    }
  }

  /** Every two-sided token has its opportunity collected, and no other token
      has a row: a one-sided token is skipped, not given a zero row. */
  lemma ArbitrageDataComplete(qs: seq<Quote>)
    requires PositivePrices(qs)
    ensures forall t :: TwoSided(qs, t) ==> OpportunityFor(qs, t).value in ArbitrageData(qs)
    ensures forall o :: o in ArbitrageData(qs) ==> TwoSided(qs, o.token)
  {
    ArbitrageDataSound(qs);
    var tokens := Tokens(qs);
    var opts := PerToken(qs, tokens);
    PresentMembers(opts);
    forall t | TwoSided(qs, t) ensures OpportunityFor(qs, t).value in ArbitrageData(qs) {
      var q :| q in qs && q.symbol == t && q.quoteType == BuyType;
      assert t in tokens;
      var i :| 0 <= i < |tokens| && tokens[i] == t;
      assert opts[i] == OpportunityFor(qs, t);
    }
  }

  /** At most one row per token: rows follow the tokens' first appearance. */
  lemma ArbitrageDataDistinct(qs: seq<Quote>)
    requires PositivePrices(qs)
    ensures DistinctTokens(ArbitrageData(qs))
  {
    var tokens := Tokens(qs);
    var opts := PerToken(qs, tokens);
    var collected := Present(opts);
    var ks := PresentAt(opts);
    TokensInFirstAppearanceOrder(qs);
    forall i, j | 0 <= i < j < |collected| ensures collected[i].token != collected[j].token {
      assert opts[ks[i]] == Some(collected[i]) && opts[ks[j]] == Some(collected[j]);
      assert FirstIndex(qs, tokens[ks[i]]) < FirstIndex(qs, tokens[ks[j]]);
    }
  }

  /** What ranking the collected rows yields: nothing exactly when no token
      is two-sided; otherwise the rows sorted by spread, one per token, each
      the token's opportunity, and every two-sided token present. */
  lemma RankingOfCollected(qs: seq<Quote>)
    requires PositivePrices(qs)
    ensures |ArbitrageData(qs)| == 0 <==> forall t :: !TwoSided(qs, t)
    ensures var ranked := SortBySpread(ArbitrageData(qs));
      && SortedBySpread(ranked)
      && DistinctTokens(ranked)
      && (forall o :: o in ranked ==> OpportunityFor(qs, o.token) == Some(o))
      && (forall t :: TwoSided(qs, t) ==> exists o :: o in ranked && o.token == t)
  {
    var collected := ArbitrageData(qs);
    ArbitrageDataSound(qs);
    ArbitrageDataComplete(qs);
    ArbitrageDataDistinct(qs);
    if |collected| > 0 {
      assert collected[0] in collected;
    }
    var ranked := SortBySpread(collected);
    SortSorted(collected);
    SortPermutes(collected);
    SortDistinct(collected);
    assert forall x :: x in ranked <==> x in collected by {
      forall x ensures x in ranked <==> x in collected {
        assert x in ranked <==> x in multiset(ranked);
      }
    }
  }

  /** `save_arbitrage_opportunities`: collect one opportunity per two-sided
      token, then rank them by spread. */
  method ArbitrageOpportunities(qs: seq<Quote>) returns (ranking: Ranking)
    requires PositivePrices(qs)
    ensures ranking.KeyError? <==> forall t :: !TwoSided(qs, t)
    ensures ranking.KeyError? ==> ranking.column == "spread_percent"
    ensures ranking.Ranked? ==> SortedBySpread(ranking.opportunities)
    ensures ranking.Ranked? ==> DistinctTokens(ranking.opportunities)
    ensures ranking.Ranked? ==>
      forall o :: o in ranking.opportunities ==> OpportunityFor(qs, o.token) == Some(o)
    ensures ranking.Ranked? ==>
      forall t :: TwoSided(qs, t) ==> exists o :: o in ranking.opportunities && o.token == t
  {
    var arbitrageData := CollectRows(Tokens(qs), t => OpportunityFor(qs, t));
    assert Results(Tokens(qs), t => OpportunityFor(qs, t)) == PerToken(qs, Tokens(qs));
    assert arbitrageData == ArbitrageData(qs);
    RankingOfCollected(qs);
    if |arbitrageData| == 0 {
      ranking := KeyError("spread_percent");
    } else {
      ranking := Ranked(SortBySpread(arbitrageData));
    }
  }

  /** One line of the ranked Markdown table: its rank and the cells it shows. */
  datatype RankedRow = RankedRow(
    rank: nat,
    token: string,
    spreadPercent: real,
    buyAt: string,
    sellAt: string,
    buyPrice: real,
    sellPrice: real)

  /** `for i, (_, row) in enumerate(arb_df.iterrows(), 1)`: one table line per
      ranked opportunity, numbered from 1 in ranking order. */
  method RankTable(ranked: seq<Opportunity>) returns (table: seq<RankedRow>)
    ensures |table| == |ranked|
    ensures forall i :: 0 <= i < |ranked| ==> table[i].rank == i + 1
    ensures forall i :: 0 <= i < |ranked| ==>
      var o := ranked[i];
      table[i].token == o.token && table[i].spreadPercent == o.spreadPercent
      && table[i].buyAt == o.buyExchange && table[i].sellAt == o.sellExchange
      && table[i].buyPrice == o.buyPrice && table[i].sellPrice == o.sellPrice
    ensures SortedBySpread(ranked) ==>
      forall i, j :: 0 <= i < j < |table| ==> table[i].spreadPercent >= table[j].spreadPercent
  {
    table := [];
    for i := 0 to |ranked|
      invariant |table| == i
      invariant forall k :: 0 <= k < i ==> table[k] == RankedRow(
        k + 1, ranked[k].token, ranked[k].spreadPercent, ranked[k].buyExchange,
        ranked[k].sellExchange, ranked[k].buyPrice, ranked[k].sellPrice)
    {
      var row := ranked[i];
      table := table + [RankedRow(i + 1, row.token, row.spreadPercent, row.buyExchange,
                                  row.sellExchange, row.buyPrice, row.sellPrice)];
    }
  }
}
