/**
  The price-range histogram of the data overview: five boolean masks over
  `price_per_token` with boundaries 0.001, 1, 100 and 10000, and the number
  of rows each one selects.
*/
module PriceRanges {
  import opened Quotes

  datatype PriceRange = VeryLow | Low | Medium | High | VeryHigh

  /** The mask the scripts write for each range. */
  predicate InRange(p: real, r: PriceRange): (b: bool)
    ensures b ==> (p < 1.0 <==> r == VeryLow || r == Low)
    ensures b ==> (p >= 100.0 <==> r == High || r == VeryHigh)
  {
    match r
    case VeryLow => p < 0.001
    case Low => p >= 0.001 && p < 1.0
    case Medium => p >= 1.0 && p < 100.0
    case High => p >= 100.0 && p < 10000.0
    case VeryHigh => p >= 10000.0
  }

  /** The masks are pairwise disjoint and together cover every price: each
      price lies in exactly one range. */
  function RangeOf(p: real): (r: PriceRange)
    ensures InRange(p, r)
    ensures forall other :: InRange(p, other) ==> other == r
  {
    if p < 0.001 then VeryLow
    else if p < 1.0 then Low
    else if p < 100.0 then Medium
    else if p < 10000.0 then High
    else VeryHigh
  }

  /** `len(df[mask])`: how many rows the range's mask selects. */
  function CountInRange(qs: seq<Quote>, r: PriceRange): (n: nat)
    ensures n <= |qs|
  {
    if qs == [] then 0
    else (if InRange(qs[0].price, r) then 1 else 0) + CountInRange(qs[1..], r)
  }

  /** The `price_ranges` dictionary, one count per bar. */
  datatype RangeCounts = RangeCounts(veryLow: nat, low: nat, medium: nat, high: nat, veryHigh: nat) {
    function Total(): nat {
      veryLow + low + medium + high + veryHigh
    }
  }

  /** Every row is counted in exactly one range, so the five counts add up to
      the number of rows. */
  lemma {:induction false} CountsPartition(qs: seq<Quote>)
    ensures CountInRange(qs, VeryLow) + CountInRange(qs, Low) + CountInRange(qs, Medium)
      + CountInRange(qs, High) + CountInRange(qs, VeryHigh) == |qs|
  {
    if qs != [] {
      CountsPartition(qs[1..]);
      var r := RangeOf(qs[0].price);
      assert forall other :: InRange(qs[0].price, other) <==> other == r;
    }
  }

  /** The counts of the data overview's price-range chart. */
  function PriceRangeCounts(qs: seq<Quote>): (counts: RangeCounts)
    ensures counts.Total() == |qs|
    ensures counts.veryLow == CountInRange(qs, VeryLow) && counts.low == CountInRange(qs, Low)
      && counts.medium == CountInRange(qs, Medium) && counts.high == CountInRange(qs, High)
      && counts.veryHigh == CountInRange(qs, VeryHigh)
  {
    CountsPartition(qs);
    RangeCounts(
      CountInRange(qs, VeryLow),
      CountInRange(qs, Low),
      CountInRange(qs, Medium),
      CountInRange(qs, High),
      CountInRange(qs, VeryHigh))
  }
}
