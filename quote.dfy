/** The fee-quote arithmetic of the calculator: a discount rate chosen by the
    number of selected courses, then subtotal, discount, amount after
    discount, 15% VAT and total. Amounts are exact reals; the rates are the
    two-decimal constants of the source, which `real` literals denote exactly. */
module Quote {

  /** The fixed VAT rate applied after the discount. */
  const VatRate: real := 0.15

  /** The highest discount rate, reached at four courses. */
  const MaxDiscountRate: real := 0.15

  /** `getDiscount`: a step function of the number of selected courses alone. */
  function DiscountRate(count: int): (rate: real)
    ensures 0.0 <= rate <= MaxDiscountRate
    ensures count <= 1 <==> rate == 0.0
  {
    if count >= 4 then 0.15
    else if count == 3 then 0.10
    else if count == 2 then 0.05
    else 0.0
  }

  /** The price breakdown that the calculator displays. */
  datatype Breakdown = Breakdown(
    subtotal: real,
    rate: real,
    discountAmount: real,
    afterDiscount: real,
    vat: real,
    total: real)

  predicate AllNonNegative(fees: seq<real>) {
    forall i :: 0 <= i < |fees| ==> fees[i] >= 0.0
  }

  /** `fees.reduce((sum, fee) => sum + fee, 0)`: a left fold from zero. */
  function Sum(fees: seq<real>): (r: real)
  {
    if fees == [] then 0.0 else Sum(fees[..|fees| - 1]) + fees[|fees| - 1]
  }

  /** The straight-line part of `calculateTotal`, step by step as the source
      performs it, from the subtotal and the number of courses. */
  function Price(subtotal: real, count: int): (q: Breakdown)
    ensures q.subtotal == subtotal && q.rate == DiscountRate(count)
    ensures q.discountAmount + q.afterDiscount == subtotal
    ensures q.total == q.afterDiscount * (1.0 + VatRate)
  {
    var rate := DiscountRate(count);
    var discountAmount := subtotal * rate;
    var afterDiscount := subtotal - discountAmount;
    var vat := afterDiscount * VatRate;
    Breakdown(subtotal, rate, discountAmount, afterDiscount, vat, afterDiscount + vat)
  }

  /** The calculation part of `calculateTotal`: the fees are summed and
      counted, and nothing else about them is used. */
  function ComputeQuote(fees: seq<real>): (q: Breakdown)
    ensures q.subtotal == Sum(fees) && q.rate == DiscountRate(|fees|)
    ensures fees == [] ==> q.total == 0.0
  {
    Price(Sum(fees), |fees|)
  }

  /** The discount table: no discount for fewer than two courses, then 5%, 10%
      and 15% for two, three and four courses, and 15% for any larger count. */
  lemma DiscountRateTable(count: int)
    ensures count <= 1 ==> DiscountRate(count) == 0.0
    ensures count == 2 ==> DiscountRate(count) == 0.05
    ensures count == 3 ==> DiscountRate(count) == 0.10
    ensures count >= 4 ==> DiscountRate(count) == 0.15
  {
  }

  /** An independent closed form of the step function: five percentage points
      per course beyond the first, capped at four courses. */
  lemma DiscountRateClosedForm(count: int)
    ensures var capped := if count < 1 then 1 else if count > 4 then 4 else count;
            DiscountRate(count) == 0.05 * (capped - 1) as real
  {
  }

  /** More courses never earn a smaller discount. */
  lemma DiscountRateMonotonic(m: int, n: int)
    requires m <= n
    ensures DiscountRate(m) <= DiscountRate(n)
  {
  }

  /** The rate depends on the number of fees only, never on their amounts. */
  lemma RateDependsOnCountOnly(a: seq<real>, b: seq<real>)
    requires |a| == |b|
    ensures ComputeQuote(a).rate == ComputeQuote(b).rate
  {
  }

  /** Summing a concatenation is summing the parts. */
  lemma {:induction false} SumAppend(a: seq<real>, b: seq<real>)
    ensures Sum(a + b) == Sum(a) + Sum(b)
  {
    if b == [] {
      assert a + b == a;
    } else {
      var init := b[..|b| - 1];
      assert (a + b)[..|a + b| - 1] == a + init;
      SumAppend(a, init);
    }
  }

  /** Non-negative fees have a non-negative sum; no fees sum to zero. */
  lemma {:induction false} SumNonNegative(fees: seq<real>)
    requires AllNonNegative(fees)
    ensures Sum(fees) >= 0.0
    ensures fees == [] ==> Sum(fees) == 0.0
  {
    if fees != [] {
      SumNonNegative(fees[..|fees| - 1]);
    }
  }

  /** Fees that are each at most `bound` sum to at most `bound` per fee. */
  lemma {:induction false} SumAtMost(fees: seq<real>, bound: real)
    requires forall i :: 0 <= i < |fees| ==> fees[i] <= bound
    ensures Sum(fees) <= bound * |fees| as real
  {
    if fees != [] {
      var init := fees[..|fees| - 1];
      SumAtMost(init, bound);
      StepBound(Sum(init), fees[|fees| - 1], bound, |init| as real);
    }
  }

  /** One more summand of at most `b` adds at most `b`; kept apart so that
      the solver multiplies without sequences in sight. */
  lemma StepBound(x: real, last: real, b: real, n: real)
    requires x <= b * n && last <= b
    ensures x + last <= b * (n + 1.0)
  {
  }

  /** Taking the fee at `j` out of the list takes it out of the sum. */
  lemma SumRemove(fees: seq<real>, j: int)
    requires 0 <= j < |fees|
    ensures Sum(fees) == Sum(fees[..j] + fees[j + 1..]) + fees[j]
  {
    var l, r := fees[..j], fees[j + 1..];
    assert fees == l + [fees[j]] + r;
    SumAppend(l + [fees[j]], r);
    assert (l + [fees[j]])[..|l|] == l;
    assert Sum(l + [fees[j]]) == Sum(l) + fees[j];
    SumAppend(l, r);
  }

  /** The sum does not depend on the order of the fees. */
  lemma {:induction false} SumPermutation(a: seq<real>, b: seq<real>)
    requires multiset(a) == multiset(b)
    ensures Sum(a) == Sum(b)
    decreases |a|
  {
    if a == [] {
      assert |b| == |multiset(b)| == 0;
    } else {
      var n := |a| - 1;
      var x := a[n];
      assert a == a[..n] + [x];
      assert x in multiset(b);
      var j :| 0 <= j < |b| && b[j] == x;
      var rest := b[..j] + b[j + 1..];
      assert b == b[..j] + [x] + b[j + 1..];
      assert multiset(rest) == multiset(b) - multiset{x};
      assert multiset(a[..n]) == multiset(a) - multiset{x};
      SumPermutation(a[..n], rest);
      SumRemove(b, j);
    }
  }

  /** The quote is a function of the multiset of selected fees: neither the
      order in which the courses are listed nor anything but their fees
      matters. */
  lemma QuoteDependsOnFeeMultiset(a: seq<real>, b: seq<real>)
    requires multiset(a) == multiset(b)
    ensures ComputeQuote(a) == ComputeQuote(b)
  {
    SumPermutation(a, b);
    assert |a| == |multiset(a)| == |multiset(b)| == |b|;
  }

  /** The closed form of the straight-line computation:
      total = subtotal * (1 - rate) * 1.15. */
  lemma PriceClosedForm(subtotal: real, count: int)
    ensures var q := Price(subtotal, count);
      && q.subtotal == subtotal
      && q.rate == DiscountRate(count)
      && q.afterDiscount == subtotal * (1.0 - q.rate)
      && q.vat == q.afterDiscount * 0.15
      && q.total == subtotal * (1.0 - q.rate) * 1.15
  {
  }

  /** The stepwise computation over the selected fees equals the closed form
      total = sum(fees) * (1 - rate(|fees|)) * 1.15. */
  lemma QuoteClosedForm(fees: seq<real>)
    ensures var q := ComputeQuote(fees);
      && q.subtotal == Sum(fees)
      && q.rate == DiscountRate(|fees|)
      && q.afterDiscount == q.subtotal * (1.0 - q.rate)
      && q.vat == q.afterDiscount * 0.15
      && q.total == q.subtotal * (1.0 - q.rate) * 1.15
  {
    var subtotal, count := Sum(fees), |fees|;
    PriceClosedForm(subtotal, count);
    assert ComputeQuote(fees) == Price(subtotal, count);
  }

  /** For non-negative fees the discount never exceeds the subtotal, VAT is
      never negative, and the total lies between 85% and 115% of the
      subtotal (97.75% to 115% exactly). */
  lemma QuoteBounds(fees: seq<real>)
    requires AllNonNegative(fees)
    ensures var q := ComputeQuote(fees);
      && 0.0 <= q.discountAmount <= q.subtotal
      && 0.0 <= q.afterDiscount <= q.subtotal
      && q.vat >= 0.0
      && q.total >= q.afterDiscount
      && q.subtotal * 0.9775 <= q.total <= q.subtotal * 1.15
  {
    QuoteClosedForm(fees);
    SumNonNegative(fees);
    DiscountRateTable(|fees|);
  }

  /** Nothing selected: every amount is zero. */
  lemma EmptyQuote()
    ensures ComputeQuote([]) == Breakdown(0.0, 0.0, 0.0, 0.0, 0.0, 0.0)
  {
  }

  /** Two courses at R1500 and R750. */
  lemma QuoteTwoCourses()
    ensures ComputeQuote([1500.0, 750.0])
         == Breakdown(2250.0, 0.05, 112.5, 2137.5, 320.625, 2458.125)
  {
    assert [1500.0, 750.0][..1] == [1500.0];
    assert Sum([1500.0]) == 1500.0 by { assert [1500.0][..0] == []; }
  }

  /** Four courses, three at R1500 and one at R750: the rate is capped at 15%. */
  lemma QuoteFourCourses()
    ensures ComputeQuote([1500.0, 1500.0, 1500.0, 750.0])
         == Breakdown(5250.0, 0.15, 787.5, 4462.5, 669.375, 5131.875)
  {
    var f := [1500.0, 1500.0, 1500.0, 750.0];
    assert Sum([1500.0]) == 1500.0 by { assert [1500.0][..0] == []; }
    assert Sum([1500.0, 1500.0]) == 3000.0 by { assert [1500.0, 1500.0][..1] == [1500.0]; }
    assert Sum(f[..3]) == 4500.0 by { assert f[..3][..2] == [1500.0, 1500.0]; }
    assert Sum(f) == 5250.0;
  }

  /** Adding a fee that leaves the rate where it was raises the total by that
      fee, discounted and taxed. */
  lemma AddFeeSameRate(fees: seq<real>, fee: real)
    requires DiscountRate(|fees| + 1) == DiscountRate(|fees|)
    ensures ComputeQuote(fees + [fee]).total
         == ComputeQuote(fees).total + fee * (1.0 - DiscountRate(|fees|)) * 1.15
  {
    assert (fees + [fee])[..|fees|] == fees;
  }

  /** Adding a fee that is more than a fifth of the largest fee already
      selected always raises the total, even where it moves the discount up a
      step. */
  lemma AddComparableFeeRaisesTotal(fees: seq<real>, fee: real, largest: real)
    requires 0.0 <= largest < 5.0 * fee
    requires AllNonNegative(fees)
    requires forall i :: 0 <= i < |fees| ==> fees[i] <= largest
    ensures ComputeQuote(fees + [fee]).total > ComputeQuote(fees).total
  {
    var n := |fees|;
    var s := Sum(fees);
    assert (fees + [fee])[..n] == fees;
    assert Sum(fees + [fee]) == s + fee;
    SumAtMost(fees, largest);
    SumNonNegative(fees);
    if n == 1 {
      assert s <= largest;
    } else if n == 2 {
      assert s <= 2.0 * largest;
    } else if n == 3 {
      assert s <= 3.0 * largest;
    }
  }

  /** Without a bound on the fees, one more course can lower the total by far
      more than its own fee: R10000 alone costs 11500, with a course of R1
      added about 10926. */
  lemma AddCheapFeeCanLowerTotal()
    ensures ComputeQuote([10000.0, 1.0]).total < ComputeQuote([10000.0]).total - 1.0
  {
    assert [10000.0, 1.0][..1] == [10000.0];
    assert [10000.0][..0] == [];
  }
}
