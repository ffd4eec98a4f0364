/**
  The quotes table the analysis scripts load (one row per quote: token symbol,
  exchange, BUY/SELL side, price per token, formatted output amount), and the
  row selections the kernel builds on: `df[df['symbol'] == token]`,
  `rows[rows['quote_type'] == side]`, `rows[rows['exchange_name'] == name]`
  and `df['symbol'].unique()`.
*/
module Quotes {

  /** One row of the quotes table. `quoteType` is kept as the text the table
      holds ("BUY" or "SELL"); a row with any other text is in neither side. */
  datatype Quote = Quote(
    symbol: string,
    exchangeName: string,
    quoteType: string,
    price: real,
    outputAmount: real)

  datatype Option<T> = None | Some(value: T)

  /** A correlation coefficient as numpy and pandas return it: a number, or
      NaN when one of the two columns has zero variance. */
  datatype Coefficient = Num(value: real) | NaN

  const BuyType := "BUY"
  const SellType := "SELL"

  /** Every quote has a positive price. The table is read from a view that
      leaves out zero prices (`price_per_token != 0`); that no price is
      negative is an assumption. Prices are divisors below. */
  predicate PositivePrices(qs: seq<Quote>) {
    forall q :: q in qs ==> q.price > 0.0
  }

  function Abs(x: real): real {
    if x < 0.0 then -x else x
  }

  /** `c > t` on a float: false whenever `c` is NaN. */
  predicate Greater(c: Coefficient, t: real) {
    c.Num? && c.value > t
  }

  /** `abs(c) > t` on a float: false whenever `c` is NaN. */
  predicate AbsGreater(c: Coefficient, t: real) {
    c.Num? && Abs(c.value) > t
  }

  predicate HasSymbol(qs: seq<Quote>, token: string) {
    exists q :: q in qs && q.symbol == token
  }

  /** A boolean-mask selection `rows[mask]`: the rows that pass `keep`, each
      as often as the table holds it, in table order. */
  function Select(qs: seq<Quote>, keep: Quote -> bool): (rows: seq<Quote>)
    ensures forall q {:trigger q in rows} :: q in rows <==> q in qs && keep(q)
    ensures |rows| <= |qs|
  {
    if qs == [] then []
    else
      (if keep(qs[0]) then [qs[0]] else []) + Select(qs[1..], keep)
  }

  /** A selection keeps every copy of a row that passes and none of a row
      that does not: a passing row occurs in the selection exactly as often
      as in the table. */
  lemma {:induction false} SelectCount(qs: seq<Quote>, keep: Quote -> bool, q: Quote)
    ensures multiset(Select(qs, keep))[q] == if keep(q) then multiset(qs)[q] else 0
  {
    if qs != [] {
      assert qs == [qs[0]] + qs[1..];
      SelectCount(qs[1..], keep, q);
    }
  }

  /** A selection keeps the table's order: selecting from two stretches of
      rows one after the other is selecting from each and concatenating. */
  lemma {:induction false} SelectAppend(a: seq<Quote>, b: seq<Quote>, keep: Quote -> bool)
    ensures Select(a + b, keep) == Select(a, keep) + Select(b, keep)
  {
    if a == [] {
      assert a + b == b;
    } else {
      var head := if keep(a[0]) then [a[0]] else [];
      assert (a + b)[0] == a[0] && (a + b)[1..] == a[1..] + b;
      assert Select(a + b, keep) == head + Select(a[1..] + b, keep);
      SelectAppend(a[1..], b, keep);
      assert Select(a, keep) == head + Select(a[1..], keep);
    }
  }

  /** `df[df['symbol'] == token]`: the token's rows, each as often as the
      table holds it, in table order (see `SelectAppend`). */
  function TokenRows(qs: seq<Quote>, token: string): (rows: seq<Quote>)
    ensures forall q {:trigger q in rows} :: q in rows <==> q in qs && q.symbol == token
    ensures forall q {:trigger multiset(rows)[q]} :: multiset(rows)[q] == if q.symbol == token then multiset(qs)[q] else 0
    ensures |rows| <= |qs|
  {
    var keep := (q: Quote) => q.symbol == token;
    assert forall q :: multiset(Select(qs, keep))[q] == if q.symbol == token then multiset(qs)[q] else 0 by {
      forall q {
        SelectCount(qs, keep, q);
      }
    }
    Select(qs, keep)
  }

  /** `rows[rows['quote_type'] == quoteType]`. */
  function QuoteTypeRows(qs: seq<Quote>, quoteType: string): (rows: seq<Quote>)
    ensures forall q {:trigger q in rows} :: q in rows <==> q in qs && q.quoteType == quoteType
    ensures forall q {:trigger multiset(rows)[q]} :: multiset(rows)[q] == if q.quoteType == quoteType then multiset(qs)[q] else 0
    ensures |rows| <= |qs|
  {
    var keep := (q: Quote) => q.quoteType == quoteType;
    assert forall q :: multiset(Select(qs, keep))[q] == if q.quoteType == quoteType then multiset(qs)[q] else 0 by {
      forall q {
        SelectCount(qs, keep, q);
      }
    }
    Select(qs, keep)
  }

  /** `rows[rows['exchange_name'] == exchange]`. */
  function ExchangeRows(qs: seq<Quote>, exchange: string): (rows: seq<Quote>)
    ensures forall q {:trigger q in rows} :: q in rows <==> q in qs && q.exchangeName == exchange
    ensures forall q {:trigger multiset(rows)[q]} :: multiset(rows)[q] == if q.exchangeName == exchange then multiset(qs)[q] else 0
    ensures |rows| <= |qs|
  {
    var keep := (q: Quote) => q.exchangeName == exchange;
    assert forall q :: multiset(Select(qs, keep))[q] == if q.exchangeName == exchange then multiset(qs)[q] else 0 by {
      forall q {
        SelectCount(qs, keep, q);
      }
    }
    Select(qs, keep)
  }

  /** The `price_per_token` column of some rows. */
  function Prices(rows: seq<Quote>): (ps: seq<real>)
    ensures |ps| == |rows|
    ensures forall i :: 0 <= i < |rows| ==> ps[i] == rows[i].price
  {
    seq(|rows|, i requires 0 <= i < |rows| => rows[i].price)
  }

  /** The `output_amount_formatted` column of some rows. */
  function Amounts(rows: seq<Quote>): (xs: seq<real>)
    ensures |xs| == |rows|
    ensures forall i :: 0 <= i < |rows| ==> xs[i] == rows[i].outputAmount
  {
    seq(|rows|, i requires 0 <= i < |rows| => rows[i].outputAmount)
  }

  /** Position of the first row of `token`, or `|qs|` when it has none. */
  function FirstIndex(qs: seq<Quote>, token: string): (k: nat)
    ensures k <= |qs|
    ensures k < |qs| <==> HasSymbol(qs, token)
    ensures k < |qs| ==> qs[k].symbol == token
    ensures forall j :: 0 <= j < k ==> qs[j].symbol != token
  {
    if qs == [] then 0
    else if qs[0].symbol == token then 0
    else
      assert forall q :: q in qs && q != qs[0] ==> q in qs[1..];
      1 + FirstIndex(qs[1..], token)
  }

  /** Appending a row adds its symbol and no other, moves no token's first
      position, and a token that is new in the appended row first appears
      there. */
  lemma FirstIndexAppend(qs: seq<Quote>, q: Quote)
    ensures forall t :: HasSymbol(qs + [q], t) <==> HasSymbol(qs, t) || t == q.symbol
    ensures forall t :: HasSymbol(qs, t) ==> FirstIndex(qs + [q], t) == FirstIndex(qs, t)
    ensures !HasSymbol(qs, q.symbol) ==> FirstIndex(qs + [q], q.symbol) == |qs|
  {
    var ext := qs + [q];
    assert q in ext;
    forall t | HasSymbol(qs, t)
      ensures FirstIndex(ext, t) == FirstIndex(qs, t)
    {
      assert ext[FirstIndex(qs, t)] == qs[FirstIndex(qs, t)];
    }
  }

  /** `df['symbol'].unique()`: each symbol of the table once. */
  function Tokens(qs: seq<Quote>): (ts: seq<string>)
    ensures forall t :: t in ts <==> HasSymbol(qs, t)
  {
    if qs == [] then []
    else
      var prefix := qs[..|qs| - 1];
      var last := qs[|qs| - 1];
      assert qs == prefix + [last];
      var earlier := Tokens(prefix);
      FirstIndexAppend(prefix, last);
      if last.symbol in earlier then earlier else earlier + [last.symbol]
  }

  /** `unique()` lists the symbols in the order of their first appearance
      (and so lists each one once). */
  lemma {:induction false} TokensInFirstAppearanceOrder(qs: seq<Quote>)
    ensures InFirstAppearanceOrder(qs, Tokens(qs))
  {
    if qs != [] {
      var prefix := qs[..|qs| - 1];
      var last := qs[|qs| - 1];
      assert qs == prefix + [last];
      var earlier := Tokens(prefix);
      TokensInFirstAppearanceOrder(prefix);
      FirstIndexAppend(prefix, last);
      forall k | 0 <= k < |earlier|
        ensures FirstIndex(qs, earlier[k]) == FirstIndex(prefix, earlier[k]) < |prefix|
      {
        assert earlier[k] in earlier;
      }
      if last.symbol !in earlier {
        IncreasingSnoc(qs, earlier, last.symbol);
      }
    }
  }

  /** The tokens are listed by strictly increasing first position. */
  predicate InFirstAppearanceOrder(qs: seq<Quote>, ts: seq<string>) {
    forall i, j :: 0 <= i < j < |ts| ==> FirstIndex(qs, ts[i]) < FirstIndex(qs, ts[j])
  }

  lemma IncreasingSnoc(qs: seq<Quote>, ts: seq<string>, t: string)
    requires InFirstAppearanceOrder(qs, ts)
    requires forall k :: 0 <= k < |ts| ==> FirstIndex(qs, ts[k]) < FirstIndex(qs, t)
    ensures InFirstAppearanceOrder(qs, ts + [t])
  {
    var ext := ts + [t];
    forall i, j | 0 <= i < j < |ext| ensures FirstIndex(qs, ext[i]) < FirstIndex(qs, ext[j]) {
      assert ext[i] == ts[i];
      if j < |ts| {
        assert ext[j] == ts[j];
      }
    }
  }

  /** The values of the present entries, in order: what a loop accumulates
      when its body appends a row for some elements and skips the others. */
  function Present<T>(opts: seq<Option<T>>): (xs: seq<T>)
    ensures |xs| <= |opts|
  {
    if opts == [] then []
    else
      var init := Present(opts[..|opts| - 1]);
      match opts[|opts| - 1]
      case Some(x) => init + [x]
      case None => init
  }

  /** The loop body's result for each token, in order. */
  function Results<T>(ts: seq<string>, step: string -> Option<T>): (opts: seq<Option<T>>)
    ensures |opts| == |ts|
    ensures forall i :: 0 <= i < |ts| ==> opts[i] == step(ts[i])
  {
    seq(|ts|, i requires 0 <= i < |ts| => step(ts[i]))
  }

  /** The per-token loops: visit `tokens` in order and append the row `step`
      yields, skipping the tokens for which it yields none. */
  method CollectRows<T>(tokens: seq<string>, step: string -> Option<T>) returns (rows: seq<T>)
    ensures rows == Present(Results(tokens, step))
  {
    rows := [];
    ghost var results := Results(tokens, step);
    for i := 0 to |tokens|
      invariant rows == Present(results[..i])
    {
      assert results[..i + 1] == results[..i] + [results[i]];
      match step(tokens[i])
      case Some(row) =>
        rows := rows + [row];
      case None =>
    }
    assert results[..|tokens|] == results;
  }

  lemma {:induction false} PresentMembers<T>(opts: seq<Option<T>>)
    ensures forall x :: x in Present(opts) <==> Some(x) in opts
  {
    if opts != [] {
      var init := opts[..|opts| - 1];
      PresentMembers(init);
      assert opts == init + [opts[|opts| - 1]];
    }
  }

  /** The positions of the present entries, in order: the `k`-th row a
      loop keeps is the value at the `k`-th such position. */
  function PresentAt<T>(opts: seq<Option<T>>): (ks: seq<nat>)
    ensures |ks| == |Present(opts)|
    ensures forall k :: 0 <= k < |ks| ==> ks[k] < |opts| && opts[ks[k]] == Some(Present(opts)[k])
    ensures forall k, l :: 0 <= k < l < |ks| ==> ks[k] < ks[l]
    ensures forall i :: 0 <= i < |opts| && opts[i].Some? ==> i in ks
  {
    if opts == [] then []
    else
      var n := |opts| - 1;
      var init := PresentAt(opts[..n]);
      match opts[n]
      case Some(_) => init + [n]
      case None => init
  }
}
