/** What has to be produced for the open orders: stock is handed out to their lines, earliest due first. */
module Allocation {
  import opened Wrappers
  import opened Orders

  /** One open order's demand for one article; a missing due date comes last. */
  datatype Demand = Demand(order: nat, status: Status, due: Option<int>, createdAt: int, article: nat, quantity: nat)

  predicate IsVisible(status: Status) {
    status in {PaiementAVerifier, Nouvelle, Preparee}
  }

  predicate IsAllocated(status: Status) {
    status in {PaiementEnAttente, PaiementAVerifier, Nouvelle, Preparee}
  }

  predicate DueBefore(a: Option<int>, b: Option<int>) {
    a.Some? && (b.None? || a.value < b.value)
  }

  predicate Precedes(a: Demand, b: Demand) {
    if a.due != b.due then DueBefore(a.due, b.due)
    else if a.createdAt != b.createdAt then a.createdAt < b.createdAt
    else a.order < b.order
  }

  // ---------------------------------------------------------------- sums that do not depend on an order

  function Sum<T>(s: seq<T>, f: T -> int): int {
    if s == [] then 0 else Sum(s[..|s| - 1], f) + f(s[|s| - 1])
  }

  lemma {:induction false} SumWithout<T>(s: seq<T>, i: nat, f: T -> int)
    requires i < |s|
    ensures Sum(s, f) == Sum(s[..i] + s[i + 1..], f) + f(s[i])
    decreases |s|
  {
    var last := |s| - 1;
    if i < last {
      var front := s[..last];
      SumWithout(front, i, f);
      assert (s[..i] + s[i + 1..])[..last - 1] == front[..i] + front[i + 1..];
    } else {
      assert s[..i] + s[i + 1..] == s[..last];
    }
  }

  lemma {:induction false} SumOfBoth<T>(a: seq<T>, b: seq<T>, f: T -> int)
    ensures Sum(a + b, f) == Sum(a, f) + Sum(b, f)
    decreases |b|
  {
    if b == [] {
      assert a + b == a;
    } else {
      SumOfBoth(a, b[..|b| - 1], f);
      assert (a + b)[..|a + b| - 1] == a + b[..|b| - 1];
    }
  }

  lemma SumOfSingle<T>(s: seq<T>, f: T -> int)
    requires |s| <= 1
    ensures Sum(s, f) == if s == [] then 0 else f(s[0])
  {
    if s != [] {
      assert Sum(s[..0], f) == 0;
    }
  }

  lemma RemovedFromBoth<T>(a: seq<T>, i: nat, b: seq<T>, j: nat)
    requires i < |a| && j < |b| && a[i] == b[j] && multiset(a) == multiset(b)
    ensures multiset(a[..i] + a[i + 1..]) == multiset(b[..j] + b[j + 1..])
  {
    Removed(a, i);
    Removed(b, j);
  }

  lemma Removed<T>(s: seq<T>, i: nat)
    requires i < |s|
    ensures multiset(s[..i] + s[i + 1..]) == multiset(s) - multiset{s[i]}
  {
    assert s == s[..i] + [s[i]] + s[i + 1..];
  }

  lemma {:induction false} SumOfPermutation<T>(a: seq<T>, b: seq<T>, f: T -> int)
    requires multiset(a) == multiset(b)
    ensures Sum(a, f) == Sum(b, f)
    decreases |a|
  {
    if a == [] {
      assert |multiset(b)| == 0;
    } else {
      var last := |a| - 1;
      assert a[last] in multiset(b);
      var j :| 0 <= j < |b| && b[j] == a[last];
      RemovedFromBoth(a, last, b, j);
      assert a[..last] + a[last + 1..] == a[..last];
      SumWithout(b, j, f);
      SumOfPermutation(a[..last], b[..j] + b[j + 1..], f);
    }
  }

  function Quantity(): Demand -> int {
    (d: Demand) => d.quantity
  }

  function QuantityAhead(x: Demand): Demand -> int {
    (d: Demand) => if Precedes(d, x) then d.quantity else 0
  }

  function Open(demands: seq<Demand>): int {
    Sum(demands, Quantity())
  }

  /** What the demands that come first ask for. */
  function Ahead(demands: seq<Demand>, x: Demand): int {
    Sum(demands, QuantityAhead(x))
  }

  /** The part of a demand the available units do not reach. Stock already counts every open order as taken. */
  function ToProduce(demands: seq<Demand>, stock: int, x: Demand): int {
    x.quantity - Min(Max(0, stock + Open(demands) - Ahead(demands, x)), x.quantity)
  }

  function ProductionOf(demands: seq<Demand>, stock: int): Demand -> int {
    (d: Demand) => ToProduce(demands, stock, d)
  }

  // ---------------------------------------------------------------- due order

  predicate InDueOrder(s: seq<Demand>) {
    forall i, j :: 0 <= i < j < |s| ==> Precedes(s[i], s[j])
  }

  predicate OneDemandPerOrder(s: seq<Demand>) {
    forall i, j :: 0 <= i < j < |s| ==> s[i].order != s[j].order
  }

  function Insert(s: seq<Demand>, d: Demand): (r: seq<Demand>)
    ensures multiset(r) == multiset(s) + multiset{d}
  {
    if s == [] || Precedes(s[|s| - 1], d) then s + [d]
    else
      assert s == s[..|s| - 1] + [s[|s| - 1]];
      Insert(s[..|s| - 1], d) + [s[|s| - 1]]
  }

  function Sorted(s: seq<Demand>): (r: seq<Demand>)
    ensures multiset(r) == multiset(s)
  {
    if s == [] then []
    else
      assert s == s[..|s| - 1] + [s[|s| - 1]];
      Insert(Sorted(s[..|s| - 1]), s[|s| - 1])
  }

  lemma {:induction false} InsertKeepsOrder(s: seq<Demand>, d: Demand)
    requires InDueOrder(s) && forall i :: 0 <= i < |s| ==> s[i].order != d.order
    ensures InDueOrder(Insert(s, d))
    decreases |s|
  {
    if s != [] && !Precedes(s[|s| - 1], d) {
      var front, last := s[..|s| - 1], s[|s| - 1];
      InsertKeepsOrder(front, d);
      var r := Insert(front, d);
      forall i | 0 <= i < |r| ensures Precedes(r[i], last) {
        assert r[i] in multiset(r);
        assert r[i] == d || r[i] in front;
      }
    }
  }

  lemma {:induction false} SortedIsInDueOrder(s: seq<Demand>)
    requires OneDemandPerOrder(s)
    ensures InDueOrder(Sorted(s))
    decreases |s|
  {
    if s != [] {
      var front, last := s[..|s| - 1], s[|s| - 1];
      SortedIsInDueOrder(front);
      var r := Sorted(front);
      forall i | 0 <= i < |r| ensures r[i].order != last.order {
        assert r[i] in multiset(r);
        assert r[i] in front;
      }
      InsertKeepsOrder(r, last);
    }
  }

  /** In due order, what comes first is what stands before. */
  lemma {:induction false} AheadIsPrefix(s: seq<Demand>, n: nat, k: nat)
    requires InDueOrder(s) && k < |s| && n <= |s|
    ensures Ahead(s[..n], s[k]) == Open(s[..if n <= k then n else k])
  {
    if n > 0 {
      AheadIsPrefix(s, n - 1, k);
      assert s[..n][..n - 1] == s[..n - 1];
      if n - 1 > k {
        assert Precedes(s[k], s[n - 1]) && !Precedes(s[n - 1], s[k]);
      } else if n - 1 < k {
        assert Precedes(s[n - 1], s[k]);
      }
    }
  }

  /** The allocation seen along the due order: each line takes what the lines before it left. */
  lemma AlongDueOrder(demands: seq<Demand>, s: seq<Demand>, stock: int, k: nat)
    requires InDueOrder(s) && k < |s| && multiset(s) == multiset(demands)
    ensures ToProduce(demands, stock, s[k])
            == s[k].quantity - Min(Max(0, stock + Open(demands) - Open(s[..k])), s[k].quantity)
  {
    SumOfPermutation(demands, s, QuantityAhead(s[k]));
    AheadIsPrefix(s, |s|, k);
    assert s[..|s|] == s;
  }

  /** What a loop along the due order does with the units it has left. */
  lemma LeftAlongDueOrder(demands: seq<Demand>, s: seq<Demand>, stock: int, k: nat, left: int)
    requires InDueOrder(s) && k < |s| && multiset(s) == multiset(demands)
    requires Max(0, left) == Max(0, stock + Open(demands) - Open(s[..k]))
    ensures Max(0, s[k].quantity - Min(Max(0, left), s[k].quantity)) == ToProduce(demands, stock, s[k])
    ensures Max(0, left - s[k].quantity) == Max(0, stock + Open(demands) - Open(s[..k + 1]))
  {
    AlongDueOrder(demands, s, stock, k);
    assert s[..k + 1][..k] == s[..k];
  }

  // ---------------------------------------------------------------- what the allocation is good for

  function Covered(s: seq<Demand>, available: int, i: nat): int
    requires i < |s|
  {
    Min(Max(0, available - Open(s[..i])), s[i].quantity)
  }

  function CoveredTotal(s: seq<Demand>, available: int, k: nat): int
    requires k <= |s|
  {
    if k == 0 then 0 else CoveredTotal(s, available, k - 1) + Covered(s, available, k - 1)
  }

  lemma {:induction false} CoverIsGreedy(s: seq<Demand>, available: int, k: nat)
    requires k <= |s|
    ensures CoveredTotal(s, available, k) == Min(Max(0, available), Open(s[..k]))
    ensures Open(s[..k]) >= 0
  {
    if k > 0 {
      CoverIsGreedy(s, available, k - 1);
      assert s[..k][..k - 1] == s[..k - 1];
    }
  }

  lemma {:induction false} ProductionAlongDueOrder(demands: seq<Demand>, s: seq<Demand>, stock: int, k: nat)
    requires InDueOrder(s) && k <= |s| && multiset(s) == multiset(demands)
    ensures Sum(s[..k], ProductionOf(demands, stock))
            == Open(s[..k]) - CoveredTotal(s, stock + Open(demands), k)
  {
    if k > 0 {
      ProductionAlongDueOrder(demands, s, stock, k - 1);
      AlongDueOrder(demands, s, stock, k - 1);
      assert s[..k][..k - 1] == s[..k - 1];
    }
  }

  /** Over all its open lines, an article needs what its stock is short of, and never more than is open. */
  lemma TotalToProduce(demands: seq<Demand>, stock: int)
    requires OneDemandPerOrder(demands)
    ensures Sum(demands, ProductionOf(demands, stock)) == Min(Open(demands), Max(0, -stock))
  {
    var s := Sorted(demands);
    SortedIsInDueOrder(demands);
    SumOfPermutation(demands, s, ProductionOf(demands, stock));
    SumOfPermutation(demands, s, Quantity());
    ProductionAlongDueOrder(demands, s, stock, |s|);
    CoverIsGreedy(s, stock + Open(demands), |s|);
    assert s[..|s|] == s;
  }

  /** Covered lines come first: a line that gets anything comes after lines that get everything, so at most one line
      is partly covered. */
  lemma CoveredLinesAreAPrefix(demands: seq<Demand>, stock: int, i: nat, j: nat)
    requires i < |demands| && j < |demands| && Precedes(demands[i], demands[j])
    requires ToProduce(demands, stock, demands[j]) < demands[j].quantity
    ensures ToProduce(demands, stock, demands[i]) == 0
  {
    AheadGrows(demands, demands[i], demands[j], |demands|);
    assert demands[..|demands|] == demands;
    SumHas(demands, i, demands[i], demands[j], |demands|);
  }

  /** The nearer due date, an order without one last; then the older order, then the smaller number. */
  predicate IsDueFirst(a: Demand, b: Demand) {
    || (a.due.Some? && b.due.None?)
    || (a.due.Some? && b.due.Some? && a.due.value < b.due.value)
    || (a.due == b.due && a.createdAt < b.createdAt)
    || (a.due == b.due && a.createdAt == b.createdAt && a.order < b.order)
  }

  /** Units go to the line due first: another one gets some only when nothing of that line is left to produce. */
  lemma DueFirstIsServedFirst(demands: seq<Demand>, stock: int, i: nat, j: nat)
    requires i < |demands| && j < |demands| && IsDueFirst(demands[i], demands[j])
    requires ToProduce(demands, stock, demands[j]) < demands[j].quantity
    ensures ToProduce(demands, stock, demands[i]) == 0
  {
    CoveredLinesAreAPrefix(demands, stock, i, j);
  }

  lemma PrecedesIsTransitive(a: Demand, b: Demand, c: Demand)
    requires Precedes(a, b) && Precedes(b, c)
    ensures Precedes(a, c)
  {
  }

  lemma {:induction false} AheadGrows(demands: seq<Demand>, x: Demand, y: Demand, n: nat)
    requires Precedes(x, y) && n <= |demands|
    ensures Ahead(demands[..n], x) <= Ahead(demands[..n], y)
  {
    if n > 0 {
      AheadGrows(demands, x, y, n - 1);
      assert demands[..n][..n - 1] == demands[..n - 1];
      if Precedes(demands[n - 1], x) {
        PrecedesIsTransitive(demands[n - 1], x, y);
      }
    }
  }

  /** A line that precedes another is among what is ahead of it. */
  lemma {:induction false} SumHas(demands: seq<Demand>, i: nat, x: Demand, y: Demand, n: nat)
    requires i < |demands| && n <= |demands| && demands[i] == x && Precedes(x, y)
    ensures i < n ==> Ahead(demands[..n], x) + x.quantity <= Ahead(demands[..n], y)
  {
    if n > 0 {
      assert demands[..n][..n - 1] == demands[..n - 1];
      if i < n - 1 {
        SumHas(demands, i, x, y, n - 1);
        if Precedes(demands[n - 1], x) {
          PrecedesIsTransitive(demands[n - 1], x, y);
        }
      } else {
        AheadGrows(demands, x, y, n - 1);
      }
    }
  }

  function HandedOut(h: seq<nat>, k: nat): nat
    requires k <= |h|
  {
    if k == 0 then 0 else HandedOut(h, k - 1) + h[k - 1]
  }

  lemma {:induction false} HandOutIsBounded(s: seq<Demand>, h: seq<nat>, k: nat)
    requires |h| == |s| && k <= |s| && forall i :: 0 <= i < |s| ==> h[i] <= s[i].quantity
    ensures HandedOut(h, k) <= Open(s[..k])
    ensures forall n :: k <= n <= |s| ==> HandedOut(h, k) <= HandedOut(h, n)
    decreases |s| - k, k
  {
    HandOutFits(s, h, k);
    if k < |s| {
      HandOutIsBounded(s, h, k + 1);
    }
  }

  lemma {:induction false} HandOutFits(s: seq<Demand>, h: seq<nat>, k: nat)
    requires |h| == |s| && k <= |s| && forall i :: 0 <= i < |s| ==> h[i] <= s[i].quantity
    ensures HandedOut(h, k) <= Open(s[..k])
  {
    if k > 0 {
      HandOutFits(s, h, k - 1);
      assert s[..k][..k - 1] == s[..k - 1];
    }
  }

  /** No other way to hand out the available units covers more of the first k lines, whatever k. */
  lemma NoHandOutDoesBetter(s: seq<Demand>, available: int, h: seq<nat>, k: nat)
    requires |h| == |s| && k <= |s|
    requires forall i :: 0 <= i < |s| ==> h[i] <= s[i].quantity
    requires HandedOut(h, |h|) <= Max(0, available)
    ensures HandedOut(h, k) <= CoveredTotal(s, available, k)
  {
    HandOutIsBounded(s, h, k);
    CoverIsGreedy(s, available, k);
  }

  /** The order in which the lines are read makes no difference. */
  lemma ReadingOrderIsIrrelevant(a: seq<Demand>, b: seq<Demand>, stock: int, x: Demand)
    requires multiset(a) == multiset(b)
    ensures ToProduce(a, stock, x) == ToProduce(b, stock, x)
  {
    SumOfPermutation(a, b, Quantity());
    SumOfPermutation(a, b, QuantityAhead(x));
  }
}
