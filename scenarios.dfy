/**
  Worked examples of the kernel on small tables.
*/
module Scenarios {
  import opened Quotes
  import opened Arbitrage
  import opened Correlation

  /** Two SELL quotes (100 and 90) and one BUY quote (120): one buys at the
      lower SELL price, sells at the BUY price, and the spread is
      (120 - 90) / 90 * 100 = 100/3 percent. */
  lemma LowestSellAgainstHighestBuy()
    ensures var qs := [
        Quote("T1", "KyberSwap", "SELL", 100.0, 1.0),
        Quote("T1", "Universal Assets", "SELL", 90.0, 1.0),
        Quote("T1", "KyberSwap", "BUY", 120.0, 1.0)];
      && PositivePrices(qs)
      && OpportunityFor(qs, "T1")
         == Some(Opportunity("T1", "Universal Assets", "KyberSwap", 90.0, 120.0, 100.0 / 3.0))
  {
    var qs := [
      Quote("T1", "KyberSwap", "SELL", 100.0, 1.0),
      Quote("T1", "Universal Assets", "SELL", 90.0, 1.0),
      Quote("T1", "KyberSwap", "BUY", 120.0, 1.0)];
    assert TokenRows(qs, "T1") == qs;
    assert QuoteTypeRows(qs, BuyType) == [qs[2]];
    assert QuoteTypeRows(qs, SellType) == [qs[0], qs[1]];
  }

  /** A token with only a BUY quote gets no opportunity; when it is the only
      token, nothing is collected and the ranking step meets an empty frame. */
  lemma OneSidedTokenSkipped()
    ensures var qs := [Quote("T2", "KyberSwap", "BUY", 50.0, 1.0)];
      && PositivePrices(qs)
      && OpportunityFor(qs, "T2") == None
      && ArbitrageData(qs) == []
  {
    var qs := [Quote("T2", "KyberSwap", "BUY", 50.0, 1.0)];
    assert forall t :: !HasQuote(qs, t, SellType);
    RankingOfCollected(qs);
  }

  /** Two quotes at the same price: an opportunity with a zero spread, but no
      correlation row, whatever the coefficient function. */
  lemma TwoQuotesNoCorrelation(pearson: (seq<real>, seq<real>) -> Coefficient)
    ensures var qs := [
        Quote("T3", "KyberSwap", "SELL", 10.0, 5.0),
        Quote("T3", "Universal Assets", "BUY", 10.0, 5.0)];
      && PositivePrices(qs)
      && OpportunityFor(qs, "T3").Some?
      && OpportunityFor(qs, "T3").value.spreadPercent == 0.0
      && CorrelationFor(qs, pearson, "T3") == None
  {
    var qs := [
      Quote("T3", "KyberSwap", "SELL", 10.0, 5.0),
      Quote("T3", "Universal Assets", "BUY", 10.0, 5.0)];
    assert TokenRows(qs, "T3") == qs;
    assert qs[0] in qs && qs[1] in qs;
    assert TwoSided(qs, "T3");
  }
}
