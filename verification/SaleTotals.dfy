/** Totals of a sale in cents: prices include tax, a discount is spread over the whole, everything is rounded. */
module SaleTotals {
  import opened Wrappers

  datatype SaleLine = SaleLine(unitPrice: nat, quantity: nat, taxBps: nat)

  /** The nearest integer to p / q, halves up. */
  function Round(p: nat, q: nat): int
    requires q > 0
  {
    (2 * p + q) / (2 * q)
  }

  function WithTax(line: SaleLine): nat {
    line.unitPrice * line.quantity
  }

  function BeforeTax(line: SaleLine): int {
    Round(WithTax(line) * 10000, 10000 + line.taxBps)
  }

  function TotalWithTax(lines: seq<SaleLine>): nat {
    if lines == [] then 0 else TotalWithTax(lines[..|lines| - 1]) + WithTax(lines[|lines| - 1])
  }

  function TotalBeforeTax(lines: seq<SaleLine>): int {
    if lines == [] then 0 else TotalBeforeTax(lines[..|lines| - 1]) + BeforeTax(lines[|lines| - 1])
  }

  datatype Totals = Totals(ttc: int, ht: int, tax: int)

  function SaleTotals(lines: seq<SaleLine>, discount: nat): Totals {
    LinesAreBounded(lines);
    var gross := TotalWithTax(lines);
    var ttc := Max(0, gross - discount);
    var ht := if gross > 0 then Round(TotalBeforeTax(lines) * ttc, gross) else TotalBeforeTax(lines);
    Totals(ttc, ht, ttc - ht)
  }

  // ---------------------------------------------------------------- rounding

  lemma RoundIsNearest(p: nat, q: nat)
    requires q > 0
    ensures 2 * p - q < 2 * (q * Round(p, q)) <= 2 * p + q
    ensures Round(p, q) >= 0
  {
    var n, d := 2 * p + q, 2 * q;
    assert n == d * (n / d) + n % d;
    assert 2 * (q * (n / d)) == d * (n / d);
  }

  lemma Scales(q: nat, a: int, b: int)
    requires q > 0 && a <= b
    ensures q * a <= q * b
  {
    assert q * b - q * a == q * (b - a);
  }

  lemma NoGreater(q: nat, a: int, b: int)
    requires q > 0 && q * a < q * b + q
    ensures a <= b
  {
    assert q * (b + 1) == q * b + q;
    if b + 1 <= a {
      Scales(q, b + 1, a);
    }
  }

  /** Nearness pins the rounded value down. */
  lemma NearestIsUnique(p: nat, q: nat, r: int)
    requires q > 0 && 2 * p - q < 2 * (q * r) <= 2 * p + q
    ensures Round(p, q) == r
  {
    RoundIsNearest(p, q);
    NoGreater(q, Round(p, q), r);
    NoGreater(q, r, Round(p, q));
  }

  lemma RoundGrows(p: nat, p': nat, q: nat)
    requires q > 0 && p <= p'
    ensures Round(p, q) <= Round(p', q)
  {
    RoundIsNearest(p, q);
    RoundIsNearest(p', q);
    NoGreater(q, Round(p, q), Round(p', q));
  }

  lemma RoundOfMultiple(k: nat, q: nat)
    requires q > 0
    ensures k * q >= 0 && Round(k * q, q) == k
  {
    NearestIsUnique(k * q, q, k);
  }

  lemma LineIsBounded(line: SaleLine)
    ensures 0 <= BeforeTax(line) <= WithTax(line)
  {
    var p, q := WithTax(line) * 10000, 10000 + line.taxBps;
    RoundIsNearest(p, q);
    assert WithTax(line) * q == p + WithTax(line) * line.taxBps;
    RoundOfMultiple(WithTax(line), q);
    RoundGrows(p, WithTax(line) * q, q);
  }

  lemma {:induction false} LinesAreBounded(lines: seq<SaleLine>)
    ensures 0 <= TotalBeforeTax(lines) <= TotalWithTax(lines)
    decreases |lines|
  {
    if lines != [] {
      LinesAreBounded(lines[..|lines| - 1]);
      LineIsBounded(lines[|lines| - 1]);
    }
  }

  // ---------------------------------------------------------------- what the totals satisfy

  /** One more line adds its price times its quantity, and the nearest cent to that without tax. */
  lemma OneMoreLine(lines: seq<SaleLine>, line: SaleLine)
    ensures TotalWithTax([]) == 0 == TotalBeforeTax([])
    ensures TotalWithTax(lines + [line]) == TotalWithTax(lines) + line.unitPrice * line.quantity
    ensures var ht, rate := TotalBeforeTax(lines + [line]) - TotalBeforeTax(lines), 10000 + line.taxBps;
            var exact := line.unitPrice * line.quantity * 10000;
            2 * exact - rate < 2 * (rate * ht) <= 2 * exact + rate
  {
    assert (lines + [line])[..|lines|] == lines;
    RoundIsNearest(WithTax(line) * 10000, 10000 + line.taxBps);
  }

  /** The customer pays the total less the discount, and never less than nothing; the pre-tax amount is the nearest cent
      to the same share of the lines' own, and tax is the rest. */
  lemma PaidIsExact(lines: seq<SaleLine>, discount: nat)
    ensures var gross, net, t := TotalWithTax(lines), TotalBeforeTax(lines), SaleTotals(lines, discount);
            && t.ttc == (if discount <= gross then gross - discount else 0)
            && t.ht + t.tax == t.ttc
            && (gross == 0 ==> t.ht == net)
            && (gross > 0 ==> 2 * (net * t.ttc) - gross < 2 * (gross * t.ht) <= 2 * (net * t.ttc) + gross)
  {
    var gross, net, t := TotalWithTax(lines), TotalBeforeTax(lines), SaleTotals(lines, discount);
    LinesAreBounded(lines);
    if gross > 0 {
      RoundIsNearest(net * t.ttc, gross);
    }
  }

  lemma Products(a: int, b: int, x: int, y: int)
    requires 0 <= a <= b && 0 <= x <= y
    ensures 0 <= a * x <= b * y
  {
    assert b * y - a * x == b * (y - x) + (b - a) * x;
  }

  /** The pre-tax total stays between nothing and the price paid, and the tax makes up the difference. */
  lemma TotalsAddUp(lines: seq<SaleLine>, discount: nat)
    ensures var t := SaleTotals(lines, discount);
            0 <= t.ht <= t.ttc && 0 <= t.tax && t.ht + t.tax == t.ttc
  {
    LinesAreBounded(lines);
    var gross, ht := TotalWithTax(lines), TotalBeforeTax(lines);
    var ttc := Max(0, gross - discount);
    if gross > 0 {
      Products(ht, gross, ttc, ttc);
      RoundIsNearest(ht * ttc, gross);
      RoundOfMultiple(ttc, gross);
      assert gross * ttc == ttc * gross;
      RoundGrows(ht * ttc, ttc * gross, gross);
    }
  }

  /** Without a discount the pre-tax total is the sum of the lines, to the cent. */
  lemma NoDiscountIsExact(lines: seq<SaleLine>)
    ensures SaleTotals(lines, 0).ht == TotalBeforeTax(lines)
    ensures SaleTotals(lines, 0).ttc == TotalWithTax(lines)
  {
    LinesAreBounded(lines);
    if TotalWithTax(lines) > 0 {
      RoundOfMultiple(TotalBeforeTax(lines), TotalWithTax(lines));
    }
  }

  /** A larger discount never raises the pre-tax total. */
  lemma DiscountLowers(lines: seq<SaleLine>, d: nat, e: nat)
    requires d <= e
    ensures SaleTotals(lines, e).ht <= SaleTotals(lines, d).ht
    ensures SaleTotals(lines, e).ttc <= SaleTotals(lines, d).ttc
  {
    LinesAreBounded(lines);
    var gross, ht := TotalWithTax(lines), TotalBeforeTax(lines);
    var x, y := Max(0, gross - e), Max(0, gross - d);
    if gross > 0 {
      Products(ht, ht, x, y);
      Products(ht, ht, 0, x);
      RoundGrows(ht * x, ht * y, gross);
    }
  }

  // ---------------------------------------------------------------- distance to the exact value

  function ExactLine(line: SaleLine): real {
    (WithTax(line) * 10000) as real / (10000 + line.taxBps) as real
  }

  function ExactBeforeTax(lines: seq<SaleLine>): real {
    if lines == [] then 0.0 else ExactBeforeTax(lines[..|lines| - 1]) + ExactLine(lines[|lines| - 1])
  }

  function Distance(a: real, b: real): real {
    if a <= b then b - a else a - b
  }

  lemma PositiveProduct(a: real, b: real)
    requires a > 0.0 && b > 0.0
    ensures a * b > 0.0
  {
  }

  lemma Cancel(q: real, x: real, bound: real)
    requires q > 0.0 && q * x <= q * bound
    ensures x <= bound
  {
    assert q * (x - bound) == q * x - q * bound;
    if x > bound {
      PositiveProduct(q, x - bound);
    }
  }

  lemma RealQuotient(p: int, q: int, r: int)
    requires q > 0 && 2 * p - q <= 2 * (q * r) <= 2 * p + q
    ensures Distance(r as real, p as real / q as real) <= 0.5
  {
    var x, y, z := p as real / q as real, r as real, q as real;
    assert z * x == p as real;
    assert (q * r) as real == z * y;
    assert z * (x - 0.5) == z * x - z * 0.5;
    assert z * (x + 0.5) == z * x + z * 0.5;
    Cancel(z, y, x + 0.5);
    Cancel(z, x - 0.5, y);
  }

  lemma {:induction false} LinesAreNear(lines: seq<SaleLine>)
    ensures Distance(TotalBeforeTax(lines) as real, ExactBeforeTax(lines)) <= |lines| as real * 0.5
    decreases |lines|
  {
    if lines != [] {
      var last := lines[|lines| - 1];
      LinesAreNear(lines[..|lines| - 1]);
      RoundIsNearest(WithTax(last) * 10000, 10000 + last.taxBps);
      RealQuotient(WithTax(last) * 10000, 10000 + last.taxBps, BeforeTax(last));
      assert |lines| as real == |lines[..|lines| - 1]| as real + 1.0;
    }
  }

  /** The bound for n lines when a share of their price is paid. */
  function Tolerance(n: nat, share: real): real {
    0.5 + Times(n as real * 0.5, share)
  }

  function Times(a: real, b: real): real {
    a * b
  }

  lemma ScaledDistance(a: real, b: real, r: real, bound: real)
    requires r >= 0.0 && Distance(a, b) <= bound
    ensures Distance(Times(a, r), Times(b, r)) <= Times(bound, r)
  {
    assert a * r - b * r == (a - b) * r;
    if a <= b {
      assert (b - a) * r <= bound * r;
    } else {
      assert (a - b) * r <= bound * r;
    }
  }

  lemma Triangle(a: real, b: real, c: real, x: real, y: real)
    requires Distance(a, b) <= x && Distance(b, c) <= y
    ensures Distance(a, c) <= x + y
  {
  }

  lemma NearAfterScaling(rounded: real, ht: real, exact: real, r: real, n: nat)
    requires 0.0 <= r && Distance(rounded, Times(ht, r)) <= 0.5 && Distance(ht, exact) <= n as real * 0.5
    ensures Distance(rounded, Times(exact, r)) <= Tolerance(n, r)
  {
    ScaledDistance(ht, exact, r, n as real * 0.5);
    Triangle(rounded, Times(ht, r), Times(exact, r), 0.5, Times(n as real * 0.5, r));
  }

  lemma ShareIsFraction(paid: nat, gross: nat)
    requires paid <= gross && gross > 0
    ensures 0.0 <= Share(paid, gross) <= 1.0
  {
  }

  lemma ShareOfProduct(ht: nat, ttc: nat, gross: nat)
    requires gross > 0
    ensures Share(ht * ttc, gross) == Times(ht as real, Share(ttc, gross))
  {
    var x, y, z := ht as real, ttc as real, gross as real;
    assert (ht * ttc) as real == x * y;
    assert x * y / z == x * (y / z);
  }

  lemma RoundedShare(ht: nat, ttc: nat, gross: nat)
    requires ttc <= gross && gross > 0
    ensures ht * ttc >= 0 && 0.0 <= Share(ttc, gross) <= 1.0
    ensures Distance(Round(ht * ttc, gross) as real, Times(ht as real, Share(ttc, gross))) <= 0.5
  {
    var p: nat := ht * ttc;
    ShareIsFraction(ttc, gross);
    ShareOfProduct(ht, ttc, gross);
    RoundIsNearest(p, gross);
    RealQuotient(p, gross, Round(p, gross));
    assert Distance(Round(p, gross) as real, Share(p, gross)) <= 0.5;
  }

  function Share(paid: int, gross: int): real
    requires gross > 0
  {
    paid as real / gross as real
  }

  lemma TotalIsRounded(lines: seq<SaleLine>, discount: nat) returns (ht: nat, ttc: nat, gross: nat)
    requires TotalWithTax(lines) > 0
    ensures ht == TotalBeforeTax(lines) && ttc == SaleTotals(lines, discount).ttc && gross == TotalWithTax(lines)
    ensures ttc <= gross && gross > 0 && ht * ttc >= 0 && SaleTotals(lines, discount).ht == Round(ht * ttc, gross)
  {
    LinesAreBounded(lines);
    ht, ttc, gross := TotalBeforeTax(lines), Max(0, TotalWithTax(lines) - discount), TotalWithTax(lines);
  }

  /** The rounded pre-tax total of n lines is within 1/2 + n * r / 2 cents of the exact one, r being the share of the
      price that is left to pay. */
  lemma RoundingIsBounded(lines: seq<SaleLine>, discount: nat)
    requires TotalWithTax(lines) > 0
    ensures var t := SaleTotals(lines, discount);
            var r := Share(t.ttc, TotalWithTax(lines));
            && 0.0 <= r <= 1.0
            && Distance(t.ht as real, Times(ExactBeforeTax(lines), r)) <= Tolerance(|lines|, r)
  {
    var ht, ttc, gross := TotalIsRounded(lines, discount);
    LinesAreNear(lines);
    RoundedShare(ht, ttc, gross);
    NearAfterScaling(Round(ht * ttc, gross) as real, ht as real, ExactBeforeTax(lines), Share(ttc, gross), |lines|);
  }
}
