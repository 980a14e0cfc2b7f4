/**
 saleor/checkout/base_calculations.py: spreading a checkout discount over the lines.
 Money is counted in whole minor units, so a quantized amount is an integer.
 */
module DiscountPropagation {
  import opened Wrappers


  function Sum(s: seq<int>): int {
    if s == [] then 0 else s[0] + Sum(s[1..])
  }

  /** `q` is a nearest integer to num / den; at a tie either neighbour is one. */
  predicate Nearest(q: int, num: int, den: int) {
    -den <= 2 * q * den - 2 * num <= den
  }

  /** How the share of a line in the discount is quantized: a function of line total, discount and total price. */
  type Quantizing = (nat, nat, nat) -> int

  /**
   All that is used of the rounding: the quantized share min(line * discount / total, line) is a nearest integer.
   The quotient has 28 digits, so ties may fall either way.
   */
  ghost predicate HalfUnit(quantize: Quantizing) {
    forall line: nat, discount: nat, total: nat | total > 0 :: ShareQuantized(quantize, line, discount, total)
  }

  ghost predicate ShareQuantized(quantize: Quantizing, line: nat, discount: nat, total: nat) {
    if discount <= total then Nearest(quantize(line, discount, total), line * discount, total)
    else quantize(line, discount, total) == line
  }

  function Total(lines: seq<nat>): (t: nat) {
    if lines == [] then 0 else lines[0] + Total(lines[1..])
  }

  /** Discounts of the lines before the last. */
  function Discounts(quantize: Quantizing, lines: seq<nat>, discount: nat, total: nat): (ds: seq<int>)
    ensures |ds| == |lines|
  {
    if lines == [] then [] else [quantize(lines[0], discount, total)] + Discounts(quantize, lines[1..], discount, total)
  }

  function Reduced(lines: seq<nat>, ds: seq<int>): (ps: seq<int>)
    requires |ds| == |lines|
    ensures |ps| == |lines|
  {
    if lines == [] then [] else [Max(lines[0] - ds[0], 0)] + Reduced(lines[1..], ds[1..])
  }

  /** The part of the discount left for the last line. */
  function Remaining(quantize: Quantizing, lines: seq<nat>, discount: nat): int
    requires |lines| >= 1
  {
    discount - Sum(Discounts(quantize, lines[..|lines| - 1], discount, Total(lines)))
  }

  /** The prices of two or more lines: rounded shares first, the rest of the discount on the last line. */
  function Spread(quantize: Quantizing, lines: seq<nat>, discount: nat): (ps: seq<int>)
    requires |lines| > 1
    ensures |ps| == |lines|
  {
    var n := |lines|;
    Reduced(lines[..n - 1], Discounts(quantize, lines[..n - 1], discount, Total(lines)))
    + [Max(lines[n - 1] - Remaining(quantize, lines, discount), 0)]
  }

  /** Line prices with the discount spread over them. */
  function Propagated(quantize: Quantizing, lines: seq<nat>, discount: nat): (ps: seq<int>)
    ensures |ps| == |lines|
  {
    if |lines| == 0 then []
    else if |lines| == 1 then [Max(lines[0] - discount, 0)]
    else if Total(lines) == 0 then seq(|lines|, _ => 0)
    else Spread(quantize, lines, discount)
  }

  lemma {:induction false} ReducedAt(lines: seq<nat>, ds: seq<int>, i: nat)
    requires |ds| == |lines| && i < |lines|
    ensures Reduced(lines, ds)[i] == Max(lines[i] - ds[i], 0)
  {
    if i > 0 {
      ReducedAt(lines[1..], ds[1..], i - 1);
    }
  }

  lemma {:induction false} DiscountsAt(quantize: Quantizing, lines: seq<nat>, discount: nat, total: nat, i: nat)
    requires i < |lines|
    ensures Discounts(quantize, lines, discount, total)[i] == quantize(lines[i], discount, total)
  {
    if i > 0 {
      DiscountsAt(quantize, lines[1..], discount, total, i - 1);
    }
  }

  lemma {:induction false} SumSnoc(s: seq<int>, x: int)
    ensures Sum(s + [x]) == Sum(s) + x
  {
    if s == [] {
      assert s + [x] == [x];
      assert [x][1..] == [];
    } else {
      SumSnoc(s[1..], x);
      assert (s + [x])[1..] == s[1..] + [x];
    }
  }

  lemma {:induction false} TotalSnoc(s: seq<nat>, x: nat)
    ensures Total(s + [x]) == Total(s) + x
  {
    if s == [] {
      assert s + [x] == [x];
      assert [x][1..] == [];
    } else {
      TotalSnoc(s[1..], x);
      assert (s + [x])[1..] == s[1..] + [x];
    }
  }

  lemma {:induction false} DiscountsSnoc(quantize: Quantizing, s: seq<nat>, x: nat, discount: nat, total: nat)
    ensures Discounts(quantize, s + [x], discount, total) == Discounts(quantize, s, discount, total) + [quantize(x, discount, total)]
  {
    if s == [] {
      assert s + [x] == [x];
      assert [x][1..] == [];
    } else {
      DiscountsSnoc(quantize, s[1..], x, discount, total);
      assert (s + [x])[1..] == s[1..] + [x];
    }
  }

  /** The generator as it runs: the remaining discount shrinks line by line and the last line takes what is left. */
  method PropagateDiscount(quantize: Quantizing, lines: seq<nat>, discount: nat) returns (prices: seq<int>)
    ensures prices == Propagated(quantize, lines, discount)
  {
    var n := |lines|;
    prices := [];
    if n == 1 {
      prices := [Max(lines[0] - discount, 0)];
    } else if n > 1 {
      var total := Total(lines);
      var remaining: int := discount;
      var i := 0;
      assert lines[..n - 1] + [lines[n - 1]] == lines;
      while i < n
        invariant 0 <= i <= n && |prices| == i
        invariant total == 0 ==> forall j | 0 <= j < i :: prices[j] == 0
        invariant total > 0 && i < n ==> remaining == discount - Sum(Discounts(quantize, lines[..i], discount, total))
        invariant total > 0 ==> forall j | 0 <= j < i && j < n - 1 :: prices[j] == Max(lines[j] - quantize(lines[j], discount, total), 0)
        invariant total > 0 && i == n ==> prices[n - 1] == Max(lines[n - 1] - Remaining(quantize, lines, discount), 0)
      {
        if total == 0 {
          prices := prices + [0];
        } else if i < n - 1 {
          var d := quantize(lines[i], discount, total);
          prices := prices + [Max(lines[i] - d, 0)];
          remaining := remaining - d;
          assert lines[..i + 1] == lines[..i] + [lines[i]];
          DiscountsSnoc(quantize, lines[..i], lines[i], discount, total);
          SumSnoc(Discounts(quantize, lines[..i], discount, total), d);
        } else {
          prices := prices + [Max(lines[i] - remaining, 0)];
        }
        i := i + 1;
      }
      PricesAre(quantize, lines, discount, prices);
    }
  }

  lemma {:induction false} PricesAre(quantize: Quantizing, lines: seq<nat>, discount: nat, prices: seq<int>)
    requires |lines| > 1 && |prices| == |lines|
    requires Total(lines) == 0 ==> forall j | 0 <= j < |lines| :: prices[j] == 0
    requires Total(lines) > 0 ==> forall j | 0 <= j < |lines| - 1 :: prices[j] == Max(lines[j] - quantize(lines[j], discount, Total(lines)), 0)
    requires Total(lines) > 0 ==> prices[|lines| - 1] == Max(lines[|lines| - 1] - Remaining(quantize, lines, discount), 0)
    ensures prices == Propagated(quantize, lines, discount)
  {
    var n, total := |lines|, Total(lines);
    forall j | 0 <= j < n
      ensures prices[j] == Propagated(quantize, lines, discount)[j]
    {
      if total > 0 && j < n - 1 {
        ReducedAt(lines[..n - 1], Discounts(quantize, lines[..n - 1], discount, total), j);
        DiscountsAt(quantize, lines[..n - 1], discount, total, j);
      }
    }
  }

  // ---- what the quantized shares add up to

  /** A quantized share never exceeds its line. */
  lemma {:induction false} ShareWithinLine(quantize: Quantizing, line: nat, discount: nat, total: nat)
    requires HalfUnit(quantize) && total > 0
    ensures 0 <= quantize(line, discount, total) <= line
  {
    var q := quantize(line, discount, total);
    assert ShareQuantized(quantize, line, discount, total);
    if discount <= total {
      Scaled(line, discount, total);
      NearestBetween(q, line, line * discount, total);
    }
  }

  lemma {:induction false} Scaled(line: nat, discount: nat, total: nat)
    requires discount <= total
    ensures 0 <= line * discount <= line * total
  {
  }

  lemma {:induction false} NearestBetween(q: int, line: nat, num: int, den: int)
    requires den > 0 && Nearest(q, num, den) && 0 <= num <= line * den
    ensures 0 <= q <= line
  {
    if q < 0 {
      MulLe(q, -1, den);
    } else if q > line {
      MulLe(line + 1, q, den);
    }
  }

  lemma {:induction false} MulLe(a: int, b: int, c: int)
    requires a <= b && c >= 0
    ensures a * c <= b * c
  {
  }

  /** The rounding errors of k lines add up to at most k half units. */
  lemma {:induction false} ErrorsAddUp(quantize: Quantizing, lines: seq<nat>, discount: nat, total: nat)
    requires HalfUnit(quantize) && 0 < total && discount <= total
    ensures var d := Sum(Discounts(quantize, lines, discount, total));
            -(|lines| * total) <= 2 * total * d - 2 * discount * Total(lines) <= |lines| * total
  {
    if lines != [] {
      var q, rest := quantize(lines[0], discount, total), lines[1..];
      ErrorsAddUp(quantize, rest, discount, total);
      assert ShareQuantized(quantize, lines[0], discount, total);
      var ds := Discounts(quantize, rest, discount, total);
      assert ([q] + ds)[1..] == ds;
      ErrorStep(total, discount, q, Sum(ds), lines[0], Total(rest), |rest|);
    }
  }

  lemma {:induction false} ErrorStep(total: int, discount: int, q: int, d: int, line: int, lines: int, k: int)
    requires -total <= 2 * q * total - 2 * (line * discount) <= total
    requires -(k * total) <= 2 * total * d - 2 * discount * lines <= k * total
    ensures -((k + 1) * total) <= 2 * total * (q + d) - 2 * discount * (line + lines) <= (k + 1) * total
  {
    assert 2 * total * (q + d) == 2 * q * total + 2 * total * d;
    assert 2 * discount * (line + lines) == 2 * (line * discount) + 2 * discount * lines;
    assert (k + 1) * total == k * total + total;
  }

  lemma {:induction false} WholeShares(quantize: Quantizing, lines: seq<nat>, discount: nat, total: nat)
    requires HalfUnit(quantize) && 0 < total < discount
    ensures Sum(Discounts(quantize, lines, discount, total)) == Total(lines)
  {
    if lines != [] {
      WholeShares(quantize, lines[1..], discount, total);
      assert ShareQuantized(quantize, lines[0], discount, total);
      var ds := Discounts(quantize, lines[1..], discount, total);
      assert ([lines[0] as int] + ds)[1..] == ds;
    }
  }

  lemma {:induction false} ReducedSum(quantize: Quantizing, lines: seq<nat>, discount: nat, total: nat)
    requires HalfUnit(quantize) && total > 0
    ensures var ds := Discounts(quantize, lines, discount, total);
            && Sum(Reduced(lines, ds)) == Total(lines) - Sum(ds)
            && (forall i | 0 <= i < |lines| :: 0 <= Reduced(lines, ds)[i] <= lines[i])
  {
    if lines != [] {
      ReducedSum(quantize, lines[1..], discount, total);
      ShareWithinLine(quantize, lines[0], discount, total);
      var ds := Discounts(quantize, lines, discount, total);
      assert ds[1..] == Discounts(quantize, lines[1..], discount, total);
      var rs := Reduced(lines[1..], ds[1..]);
      assert ([Max(lines[0] - ds[0], 0)] + rs)[1..] == rs;
    }
  }

  lemma {:induction false} SplitLast(lines: seq<nat>)
    requires |lines| >= 1
    ensures Total(lines) == Total(lines[..|lines| - 1]) + lines[|lines| - 1]
  {
    TotalSnoc(lines[..|lines| - 1], lines[|lines| - 1]);
    assert lines[..|lines| - 1] + [lines[|lines| - 1]] == lines;
  }

  /** The discount left for the last line misses its exact share by at most (n - 1) half units, to either side. */
  lemma {:induction false} RemainingBounds(quantize: Quantizing, lines: seq<nat>, discount: nat)
    requires HalfUnit(quantize) && Total(lines) > 0
    ensures var n, r, last := |lines|, Remaining(quantize, lines, discount), lines[|lines| - 1];
            && -(n - 1) <= 2 * r
            && (discount <= Total(lines) ==> 2 * (r - last) <= n - 1)
            && (discount > Total(lines) ==> r - last == discount - Total(lines))
  {
    var n, total, front, last := |lines|, Total(lines), lines[..|lines| - 1], lines[|lines| - 1];
    SplitLast(lines);
    if discount <= total {
      ErrorsAddUp(quantize, front, discount, total);
      LastShare(total, discount, Sum(Discounts(quantize, front, discount, total)), Total(front), last, n - 1);
    } else {
      WholeShares(quantize, front, discount, total);
    }
  }

  lemma {:induction false} LastShare(total: int, discount: int, d: int, front: int, last: int, k: int)
    requires 0 < total == front + last && 0 <= discount <= total && 0 <= last
    requires -(k * total) <= 2 * total * d - 2 * discount * front <= k * total
    ensures -k <= 2 * (discount - d)
    ensures 2 * (discount - d - last) <= k
  {
    assert 2 * discount * front == 2 * discount * total - 2 * discount * last;
    assert discount * last >= 0;
    var r := discount - d;
    assert 2 * total * r == 2 * total * discount - 2 * total * d;
    assert 2 * total * r >= -(k * total) + 2 * discount * last;
    assert discount * last <= total * last by { MulLe(discount, total, last); }
    assert 2 * total * r <= k * total + 2 * discount * last;
    assert total * (2 * r + k) >= 0;
    assert total * (2 * r - 2 * last - k) <= 0;
  }

  /** Sum of the propagated prices, as it comes out of the loop. */
  lemma {:induction false} PropagatedSum(quantize: Quantizing, lines: seq<nat>, discount: nat)
    requires HalfUnit(quantize) && |lines| > 1 && Total(lines) > 0
    ensures Sum(Propagated(quantize, lines, discount)) ==
            Total(lines) - discount + Max(0, Remaining(quantize, lines, discount) - lines[|lines| - 1])
  {
    var n, total := |lines|, Total(lines);
    var front := lines[..n - 1];
    var ds := Discounts(quantize, front, discount, total);
    SplitLast(lines);
    ReducedSum(quantize, front, discount, total);
    SumSnoc(Reduced(front, ds), Max(lines[n - 1] - Remaining(quantize, lines, discount), 0));
  }

  lemma {:induction false} PropagatedEach(quantize: Quantizing, lines: seq<nat>, discount: nat, i: nat)
    requires HalfUnit(quantize) && |lines| > 1 && Total(lines) > 0 && i < |lines|
    ensures 0 <= Propagated(quantize, lines, discount)[i]
    ensures i < |lines| - 1 ==> Propagated(quantize, lines, discount)[i] <= lines[i]
  {
    var front := lines[..|lines| - 1];
    ReducedSum(quantize, front, discount, Total(lines));
    if i < |lines| - 1 {
      var rs := Reduced(front, Discounts(quantize, front, discount, Total(lines)));
      assert Propagated(quantize, lines, discount)[i] == rs[i] && front[i] == lines[i];
    }
  }

  /**
   The equation and the bound: prices are not negative, they add up to the total less the discount plus what the last
   line is clipped by, and so to at least max(0, total - discount) and at most (n - 1) half units more; no line but the
   last exceeds its base price, and the last by at most (n - 1) half units.
   */
  lemma {:induction false} PropagationBounds(quantize: Quantizing, lines: seq<nat>, discount: nat)
    requires HalfUnit(quantize) && |lines| > 1 && Total(lines) > 0
    ensures var n, ps, total := |lines|, Propagated(quantize, lines, discount), Total(lines);
            && Sum(ps) == total - discount + Max(0, Remaining(quantize, lines, discount) - lines[n - 1])
            && Max(0, total - discount) <= Sum(ps)
            && 2 * Sum(ps) <= 2 * Max(0, total - discount) + (n - 1)
            && (forall i | 0 <= i < n :: 0 <= ps[i])
            && (forall i | 0 <= i < n - 1 :: ps[i] <= lines[i])
            && 2 * (ps[n - 1] - lines[n - 1]) <= n - 1
  {
    var ps := Propagated(quantize, lines, discount);
    PropagatedSum(quantize, lines, discount);
    RemainingBounds(quantize, lines, discount);
    forall i | 0 <= i < |lines|
      ensures 0 <= ps[i] && (i < |lines| - 1 ==> ps[i] <= lines[i])
    {
      PropagatedEach(quantize, lines, discount, i);
    }
  }

  lemma {:induction false} SumOfZeros(n: nat)
    ensures Sum(seq(n, _ => 0)) == 0
  {
    if n > 0 {
      SumOfZeros(n - 1);
      assert seq(n, _ => 0)[1..] == seq(n - 1, _ => 0);
    }
  }

  /**
   The discounts add up to exactly the discount amount, as the generator promises, if and only if the discount is at
   most the total and, where there are two lines or more with something to pay, the last line takes what is left.
   */
  lemma {:induction false} DiscountsExact(quantize: Quantizing, lines: seq<nat>, discount: nat)
    requires HalfUnit(quantize)
    ensures Total(lines) - Sum(Propagated(quantize, lines, discount)) == discount <==>
            discount <= Total(lines) &&
            (|lines| > 1 && Total(lines) > 0 ==> Remaining(quantize, lines, discount) <= lines[|lines| - 1])
  {
    if |lines| == 1 {
      assert lines[1..] == [];
      assert [Max(lines[0] - discount, 0)][1..] == [];
    } else if |lines| > 1 && Total(lines) == 0 {
      SumOfZeros(|lines|);
    } else if |lines| > 1 {
      PropagationBounds(quantize, lines, discount);
      RemainingBounds(quantize, lines, discount);
    }
  }

  /** The last line costs more than its base price exactly if the lines before it took more than the whole discount. */
  lemma {:induction false} LastRaisedExactly(quantize: Quantizing, lines: seq<nat>, discount: nat)
    requires HalfUnit(quantize)
    ensures |lines| > 0 ==>
              (Propagated(quantize, lines, discount)[|lines| - 1] > lines[|lines| - 1] <==>
               |lines| > 1 && Total(lines) > 0 && Remaining(quantize, lines, discount) < 0)
  {
  }

  /** Every line but the last pays, to half a unit, its exact share of what is left of the total. */
  lemma {:induction false} ProportionalPrice(quantize: Quantizing, lines: seq<nat>, discount: nat, i: nat)
    requires HalfUnit(quantize) && i < |lines| - 1 && 0 < Total(lines) && discount <= Total(lines)
    ensures Nearest(Propagated(quantize, lines, discount)[i], lines[i] * (Total(lines) - discount), Total(lines))
  {
    var n, total := |lines|, Total(lines);
    var front := lines[..n - 1];
    var q := quantize(lines[i], discount, total);
    ReducedAt(front, Discounts(quantize, front, discount, total), i);
    DiscountsAt(quantize, front, discount, total, i);
    ShareWithinLine(quantize, lines[i], discount, total);
    assert Propagated(quantize, lines, discount)[i] == lines[i] - q;
    assert ShareQuantized(quantize, lines[i], discount, total);
    NearestComplement(q, lines[i], discount, total);
  }

  lemma {:induction false} NearestComplement(q: int, line: int, discount: int, total: int)
    requires Nearest(q, line * discount, total)
    ensures Nearest(line - q, line * (total - discount), total)
  {
    assert 2 * (line - q) * total == 2 * (line * total) - 2 * q * total;
    assert line * (total - discount) == line * total - line * discount;
  }

  // ---- the two failing families, with ties rounded to even

  function HalfEven(line: nat, discount: nat, total: nat): int {
    if total == 0 || discount > total then line
    else
      var q, rem := line * discount / total, line * discount % total;
      if 2 * rem < total || (2 * rem == total && q % 2 == 0) then q else q + 1
  }

  lemma {:induction false} HalfEvenIsHalfUnit()
    ensures HalfUnit(HalfEven)
  {
    forall line: nat, discount: nat, total: nat | total > 0
      ensures ShareQuantized(HalfEven, line, discount, total)
    {
      if discount <= total {
        var q := line * discount / total;
        QuotientAndRest(line * discount, total);
        NearestNext(q, line * discount, total);
      }
    }
  }

  lemma {:induction false} QuotientAndRest(num: nat, total: nat)
    requires total > 0
    ensures num == (num / total) * total + num % total && num % total < total
  {
  }

  /** Below the half the quotient is nearest, above it the next number. */
  lemma {:induction false} NearestNext(q: nat, num: nat, total: nat)
    requires q * total <= num < q * total + total
    ensures 2 * (num - q * total) <= total ==> Nearest(q, num, total)
    ensures 2 * (num - q * total) >= total ==> Nearest(q + 1, num, total)
  {
    var p := q * total;
    assert 2 * q * total == 2 * p;
    assert 2 * (q + 1) * total == 2 * p + 2 * total;
  }

  lemma {:induction false} HalfEvenOnes()
    ensures HalfEven(1, 2, 4) == 0 && HalfEven(1, 3, 5) == 1
  {
  }

  /** Four lines of one unit and a discount of two: the first three round to nothing and the last is clipped at zero. */
  lemma {:induction false} ClippedLast()
    ensures HalfUnit(HalfEven) && Propagated(HalfEven, [1, 1, 1, 1], 2) == [1, 1, 1, 0]
  {
    HalfEvenIsHalfUnit();
    PropagatedOnesByTwo();
  }

  lemma {:induction false} PropagatedOnesByTwo()
    ensures Propagated(HalfEven, [1, 1, 1, 1], 2) == [1, 1, 1, 0]
  {
    var lines: seq<nat> := [1, 1, 1, 1];
    HalfEvenOnes();
    assert lines[..3] == [1, 1, 1] && lines[1..] == [1, 1, 1] && [1, 1, 1][1..] == [1, 1] && [1, 1][1..] == [1] && [1][1..] == [];
    assert Total([1]) == 1 && Total([1, 1]) == 2 && Total([1, 1, 1]) == 3 && Total(lines) == 4;
    assert Discounts(HalfEven, [1], 2, 4) == [0] && Discounts(HalfEven, [1, 1], 2, 4) == [0, 0] && Discounts(HalfEven, [1, 1, 1], 2, 4) == [0, 0, 0];
    assert [0, 0, 0][1..] == [0, 0] && [0, 0][1..] == [0] && [0][1..] == [];
    assert Sum([0]) == 0 && Sum([0, 0]) == 0 && Sum([0, 0, 0]) == 0;
    assert Reduced([1], [0]) == [1] && Reduced([1, 1], [0, 0]) == [1, 1] && Reduced([1, 1, 1], [0, 0, 0]) == [1, 1, 1];
  }

  /** Five lines of one unit and a discount of three: the last line costs more than its base price. */
  lemma {:induction false} RaisedLast()
    ensures HalfUnit(HalfEven) && Propagated(HalfEven, [1, 1, 1, 1, 1], 3) == [0, 0, 0, 0, 2]
    ensures Total([1, 1, 1, 1, 1]) - Sum(Propagated(HalfEven, [1, 1, 1, 1, 1], 3)) == 3
  {
    HalfEvenIsHalfUnit();
    PropagatedOnesByThree();
    FiveOnes();
  }

  lemma {:induction false} FiveOnes()
    ensures Total([1, 1, 1, 1, 1]) == 5 && Sum([0, 0, 0, 0, 2]) == 2
  {
    var ones: seq<nat> := [1, 1, 1, 1, 1];
    assert ones[1..] == [1, 1, 1, 1] && [1, 1, 1, 1][1..] == [1, 1, 1] && [1, 1, 1][1..] == [1, 1] && [1, 1][1..] == [1] && [1][1..] == [];
    assert Total([1]) == 1 && Total([1, 1]) == 2 && Total([1, 1, 1]) == 3 && Total([1, 1, 1, 1]) == 4;
    assert [0, 0, 0, 0, 2][1..] == [0, 0, 0, 2] && [0, 0, 0, 2][1..] == [0, 0, 2] && [0, 0, 2][1..] == [0, 2] && [0, 2][1..] == [2] && [2][1..] == [];
    assert Sum([2]) == 2 && Sum([0, 2]) == 2 && Sum([0, 0, 2]) == 2 && Sum([0, 0, 0, 2]) == 2;
  }

  lemma {:induction false} PropagatedOnesByThree()
    ensures Propagated(HalfEven, [1, 1, 1, 1, 1], 3) == [0, 0, 0, 0, 2]
  {
    var lines: seq<nat> := [1, 1, 1, 1, 1];
    HalfEvenOnes();
    assert lines[..4] == [1, 1, 1, 1] && lines[1..] == [1, 1, 1, 1];
    assert [1, 1, 1, 1][1..] == [1, 1, 1] && [1, 1, 1][1..] == [1, 1] && [1, 1][1..] == [1] && [1][1..] == [];
    assert Total([1]) == 1 && Total([1, 1]) == 2 && Total([1, 1, 1]) == 3 && Total([1, 1, 1, 1]) == 4 && Total(lines) == 5;
    assert Discounts(HalfEven, [1], 3, 5) == [1] && Discounts(HalfEven, [1, 1], 3, 5) == [1, 1];
    assert Discounts(HalfEven, [1, 1, 1], 3, 5) == [1, 1, 1] && Discounts(HalfEven, [1, 1, 1, 1], 3, 5) == [1, 1, 1, 1];
    assert Sum([1]) == 1 && Sum([1, 1]) == 2 && Sum([1, 1, 1]) == 3 && Sum([1, 1, 1, 1]) == 4;
    assert Reduced([1], [1]) == [0] && Reduced([1, 1], [1, 1]) == [0, 0];
    assert Reduced([1, 1, 1], [1, 1, 1]) == [0, 0, 0] && Reduced([1, 1, 1, 1], [1, 1, 1, 1]) == [0, 0, 0, 0];
  }
}
