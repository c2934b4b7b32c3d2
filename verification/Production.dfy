/** The two implementations of the production needs: the service's allocation and annotation of order lines, and the
    back office's aggregation by article and day, from annotated lines or from scratch. */
module Production {
  import opened Wrappers
  import opened Orders
  import opened Allocation

  datatype OrderLine = OrderLine(article: nat, quantity: nat)

  datatype OpenOrder = OpenOrder(id: nat, status: Status, due: Option<int>, createdAt: int, lines: seq<OrderLine>)

  function DemandOf(o: OpenOrder, line: OrderLine): Demand {
    Demand(o.id, o.status, o.due, o.createdAt, line.article, line.quantity)
  }

  function DemandsOf(o: OpenOrder, lines: seq<OrderLine>, article: nat): seq<Demand> {
    if lines == [] then []
    else
      var last := |lines| - 1;
      DemandsOf(o, lines[..last], article)
      + if lines[last].article == article then [DemandOf(o, lines[last])] else []
  }

  function DemandsOfOrder(o: OpenOrder, article: nat): seq<Demand> {
    if IsAllocated(o.status) then DemandsOf(o, o.lines, article) else []
  }

  /** The open lines for an article, in the order the orders and their lines are read. */
  function Demands(orders: seq<OpenOrder>, article: nat): seq<Demand> {
    if orders == [] then []
    else
      var last := |orders| - 1;
      Demands(orders[..last], article) + DemandsOfOrder(orders[last], article)
  }

  /** Orders have their own ids and one line per article. */
  predicate IsDistinct(orders: seq<OpenOrder>) {
    && (forall i, j :: 0 <= i < j < |orders| ==> orders[i].id != orders[j].id)
    && (forall i :: 0 <= i < |orders| ==> OneLinePerArticle(orders[i].lines))
  }

  predicate OneLinePerArticle(lines: seq<OrderLine>) {
    forall j, k :: 0 <= j < k < |lines| ==> lines[j].article != lines[k].article
  }

  function StockOf(stocks: map<nat, int>, article: nat): int {
    if article in stocks then stocks[article] else 0
  }

  type Allocated = map<(nat, nat), nat>

  function Produced(m: Allocated, order: nat, article: nat): nat {
    if (order, article) in m then m[(order, article)] else 0
  }

  /** What the service owes an open line: nothing to an order that is not paid yet. */
  function Expected(demands: seq<Demand>, stock: int, x: Demand): nat {
    if IsVisible(x.status) then ToProduce(demands, stock, x) else 0
  }

  ghost predicate IsAllocationOf(m: Allocated, demands: seq<Demand>, stock: int, article: nat) {
    && (forall i :: 0 <= i < |demands| ==>
          Produced(m, demands[i].order, article) == Expected(demands, stock, demands[i]))
    && (forall o :: (o, article) in m ==> exists i :: 0 <= i < |demands| && demands[i].order == o)
  }

  lemma {:induction false} DemandsOfOne(o: OpenOrder, lines: seq<OrderLine>, article: nat)
    requires OneLinePerArticle(lines)
    ensures |DemandsOf(o, lines, article)| <= 1
    ensures forall x :: x in DemandsOf(o, lines, article) ==> x.order == o.id && x.article == article
    ensures (forall k :: 0 <= k < |lines| ==> lines[k].article != article) ==> DemandsOf(o, lines, article) == []
  {
    if lines != [] {
      DemandsOfOne(o, lines[..|lines| - 1], article);
    }
  }

  lemma {:induction false} DemandsAreDistinct(orders: seq<OpenOrder>, article: nat)
    requires IsDistinct(orders)
    ensures OneDemandPerOrder(Demands(orders, article))
    ensures forall x :: x in Demands(orders, article) ==> x.article == article
    ensures forall x :: x in Demands(orders, article) ==> exists i :: 0 <= i < |orders| && orders[i].id == x.order
  {
    if orders != [] {
      var front, last := orders[..|orders| - 1], orders[|orders| - 1];
      DemandsAreDistinct(front, article);
      DemandsOfOne(last, last.lines, article);
      var ds := Demands(front, article);
      forall x | x in Demands(orders, article) ensures exists i :: 0 <= i < |orders| && orders[i].id == x.order {
        if x in ds {
          var i :| 0 <= i < |front| && front[i].id == x.order;
          assert orders[i].id == x.order;
        } else {
          assert orders[|orders| - 1].id == x.order;
        }
      }
      forall i | 0 <= i < |ds| ensures ds[i].order != last.id {
        assert ds[i] in ds;
        var k :| 0 <= k < |front| && front[k].id == ds[i].order;
        assert orders[k].id != orders[|orders| - 1].id;
      }
    }
  }

  // ---------------------------------------------------------------- the service

  function LinesAt(open: map<nat, seq<Demand>>, article: nat): seq<Demand> {
    if article in open then open[article] else []
  }

  function DemandAt(o: OpenOrder, j: nat, article: nat): seq<Demand>
    requires j < |o.lines|
  {
    if o.lines[j].article == article then [DemandOf(o, o.lines[j])] else []
  }

  function WithLine(open: map<nat, seq<Demand>>, d: Demand): map<nat, seq<Demand>> {
    open[d.article := LinesAt(open, d.article) + [d]]
  }

  ghost predicate Extends(open: map<nat, seq<Demand>>, before: map<nat, seq<Demand>>, o: OpenOrder, n: nat)
    requires n <= |o.lines|
  {
    forall a :: LinesAt(open, a) == LinesAt(before, a) + DemandsOf(o, o.lines[..n], a)
  }

  lemma Associative<T>(a: seq<T>, b: seq<T>, c: seq<T>)
    ensures a + b + c == a + (b + c)
  {
  }

  lemma OneMoreDemand(o: OpenOrder, n: nat, article: nat)
    requires n < |o.lines|
    ensures DemandsOf(o, o.lines[..n + 1], article) == DemandsOf(o, o.lines[..n], article) + DemandAt(o, n, article)
  {
    assert o.lines[..n + 1][..n] == o.lines[..n];
  }

  lemma LineExtends(open: map<nat, seq<Demand>>, before: map<nat, seq<Demand>>, o: OpenOrder, n: nat)
    requires n < |o.lines| && Extends(open, before, o, n)
    ensures Extends(WithLine(open, DemandOf(o, o.lines[n])), before, o, n + 1)
  {
    var more := WithLine(open, DemandOf(o, o.lines[n]));
    forall a ensures LinesAt(more, a) == LinesAt(before, a) + DemandsOf(o, o.lines[..n + 1], a) {
      OneMoreDemand(o, n, a);
      Associative(LinesAt(before, a), DemandsOf(o, o.lines[..n], a), DemandAt(o, n, a));
      assert LinesAt(more, a) == LinesAt(open, a) + DemandAt(o, n, a);
    }
  }

  method GroupOrder(o: OpenOrder, before: map<nat, seq<Demand>>) returns (open: map<nat, seq<Demand>>)
    ensures forall a :: LinesAt(open, a) == LinesAt(before, a) + DemandsOf(o, o.lines, a)
  {
    open := before;
    for j := 0 to |o.lines|
      invariant Extends(open, before, o, j)
    {
      LineExtends(open, before, o, j);
      open := WithLine(open, DemandOf(o, o.lines[j]));
    }
    assert o.lines[..|o.lines|] == o.lines;
  }

  method GroupOpenLines(orders: seq<OpenOrder>) returns (open: map<nat, seq<Demand>>)
    ensures forall a :: LinesAt(open, a) == Demands(orders, a)
  {
    open := map[];
    for i := 0 to |orders|
      invariant forall a :: LinesAt(open, a) == Demands(orders[..i], a)
    {
      assert orders[..i + 1][..i] == orders[..i];
      if IsAllocated(orders[i].status) {
        open := GroupOrder(orders[i], open);
      }
    }
    assert orders[..|orders|] == orders;
  }

  method TotalQuantity(lines: seq<Demand>) returns (total: int)
    ensures total == Open(lines)
  {
    total := 0;
    for i := 0 to |lines|
      invariant total == Open(lines[..i])
    {
      assert lines[..i + 1][..i] == lines[..i];
      total := total + lines[i].quantity;
    }
    assert lines[..|lines|] == lines;
  }

  /** Hands the stock of one article to its lines, earliest due first. */
  method AllocateArticle(stock: int, openLines: seq<Demand>, article: nat, m: Allocated) returns (r: Allocated)
    requires OneDemandPerOrder(openLines)
    requires forall o :: (o, article) !in m
    ensures IsAllocationOf(r, openLines, stock, article)
    ensures forall o: nat, a: nat :: a != article ==>
              ((o, a) in r <==> (o, a) in m) && Produced(r, o, a) == Produced(m, o, a)
  {
    var total := TotalQuantity(openLines);
    var remaining := stock + total;
    var s := Sorted(openLines);
    SortedIsInDueOrder(openLines);
    r := m;
    for k := 0 to |s|
      invariant Max(0, remaining) == Max(0, stock + Open(openLines) - Open(s[..k]))
      invariant forall i :: 0 <= i < k ==> Produced(r, s[i].order, article) == Expected(openLines, stock, s[i])
      invariant forall o :: (o, article) in r ==> exists i :: 0 <= i < k && s[i].order == o
      invariant forall o: nat, a: nat :: a != article ==>
                  ((o, a) in r <==> (o, a) in m) && Produced(r, o, a) == Produced(m, o, a)
    {
      LeftAlongDueOrder(openLines, s, stock, k, remaining);
      DueOrderIsDistinct(openLines, s);
      assert s[..k + 1][..k] == s[..k];
      var line := s[k];
      var covered := Min(Max(0, remaining), line.quantity);
      var quantity := Max(0, line.quantity - covered);
      if quantity > 0 && IsVisible(line.status) {
        r := r[(line.order, article) := quantity];
      }
      remaining := Max(0, remaining - line.quantity);
    }
    SamePermutation(r, openLines, s, stock, article);
  }

  lemma DueOrderIsDistinct(demands: seq<Demand>, s: seq<Demand>)
    requires OneDemandPerOrder(demands) && multiset(s) == multiset(demands)
    ensures OneDemandPerOrder(s)
    decreases |s|
  {
    forall i, j | 0 <= i < j < |s| ensures s[i].order != s[j].order {
      if s[i].order == s[j].order {
        assert s[i] in multiset(demands) && s[j] in multiset(demands);
        var p :| 0 <= p < |demands| && demands[p] == s[i];
        var q :| 0 <= q < |demands| && demands[q] == s[j];
        assert p == q;
        TwiceInside(s, i, j);
        OnceInside(demands, p);
        assert false;
      }
    }
  }

  lemma TwiceInside<T>(s: seq<T>, i: nat, j: nat)
    requires i < j < |s| && s[i] == s[j]
    ensures multiset(s)[s[i]] >= 2
  {
    assert s == s[..i] + [s[i]] + s[i + 1..j] + [s[j]] + s[j + 1..];
  }

  lemma OnceInside(s: seq<Demand>, i: nat)
    requires OneDemandPerOrder(s) && i < |s|
    ensures multiset(s)[s[i]] == 1
  {
    assert s == s[..i] + [s[i]] + s[i + 1..];
    assert s[i] !in s[..i] && s[i] !in s[i + 1..];
  }

  lemma SamePermutation(m: Allocated, demands: seq<Demand>, s: seq<Demand>, stock: int, article: nat)
    requires multiset(s) == multiset(demands)
    requires forall i :: 0 <= i < |s| ==> Produced(m, s[i].order, article) == Expected(demands, stock, s[i])
    requires forall o :: (o, article) in m ==> exists i :: 0 <= i < |s| && s[i].order == o
    ensures IsAllocationOf(m, demands, stock, article)
  {
    forall i | 0 <= i < |demands|
      ensures Produced(m, demands[i].order, article) == Expected(demands, stock, demands[i])
    {
      assert demands[i] in multiset(s);
    }
    forall o | (o, article) in m ensures exists i :: 0 <= i < |demands| && demands[i].order == o {
      var k :| 0 <= k < |s| && s[k].order == o;
      assert s[k] in multiset(demands);
    }
  }

  /** Every open line gets exactly what the allocation owes it, and no other line gets anything. */
  method AllocateProductionQuantities(stocks: map<nat, int>, orders: seq<OpenOrder>) returns (m: Allocated)
    requires IsDistinct(orders)
    ensures forall a :: IsAllocationOf(m, Demands(orders, a), StockOf(stocks, a), a)
  {
    var open := GroupOpenLines(orders);
    m := map[];
    var left := open.Keys;
    forall a | a !in left ensures Demands(orders, a) == [] {
      assert LinesAt(open, a) == [];
    }
    while left != {}
      invariant left <= open.Keys
      invariant forall a :: a !in left ==> IsAllocationOf(m, Demands(orders, a), StockOf(stocks, a), a)
      invariant forall a: nat, o: nat :: a in left ==> (o, a) !in m
      decreases |left|
    {
      var article :| article in left;
      DemandsAreDistinct(orders, article);
      var before := m;
      assert open[article] == LinesAt(open, article);
      m := AllocateArticle(StockOf(stocks, article), open[article], article, m);
      forall a | a !in left ensures IsAllocationOf(m, Demands(orders, a), StockOf(stocks, a), a) {
        assert IsAllocationOf(before, Demands(orders, a), StockOf(stocks, a), a);
      }
      left := left - {article};
    }
  }

  lemma {:induction false} DemandsOfBoth(a: seq<OpenOrder>, b: seq<OpenOrder>, article: nat)
    ensures Demands(a + b, article) == Demands(a, article) + Demands(b, article)
    decreases |b|
  {
    if b == [] {
      assert a + b == a;
    } else {
      var front, last := b[..|b| - 1], b[|b| - 1];
      DemandsOfBoth(a, front, article);
      assert (a + b)[..|a + b| - 1] == a + front && (a + b)[|a + b| - 1] == last;
      assert Demands(a + b, article) == Demands(a + front, article) + DemandsOfOrder(last, article);
      assert Demands(b, article) == Demands(front, article) + DemandsOfOrder(last, article);
    }
  }

  lemma DemandsOfSingle(o: OpenOrder, article: nat)
    ensures Demands([o], article) == DemandsOfOrder(o, article)
  {
    assert [o][..0] == [];
    assert Demands([], article) == [];
  }

  lemma DemandsWithout(orders: seq<OpenOrder>, i: nat, article: nat)
    requires i < |orders|
    ensures multiset(Demands(orders, article))
            == multiset(Demands(orders[..i] + orders[i + 1..], article)) + multiset(DemandsOfOrder(orders[i], article))
  {
    var a, b := orders[..i], orders[i + 1..];
    assert orders == a + ([orders[i]] + b);
    DemandsOfBoth(a, [orders[i]] + b, article);
    DemandsOfBoth([orders[i]], b, article);
    DemandsOfBoth(a, b, article);
    DemandsOfSingle(orders[i], article);
  }

  lemma {:induction false} DemandsOfPermutation(a: seq<OpenOrder>, b: seq<OpenOrder>, article: nat)
    requires multiset(a) == multiset(b)
    ensures multiset(Demands(a, article)) == multiset(Demands(b, article))
    decreases |a|
  {
    if a == [] {
      assert |multiset(b)| == 0;
    } else {
      var last := |a| - 1;
      assert a[last] in multiset(b);
      var j :| 0 <= j < |b| && b[j] == a[last];
      RemovedFromBoth(a, last, b, j);
      assert a[..last] + a[last + 1..] == a[..last];
      DemandsWithout(a, last, article);
      DemandsWithout(b, j, article);
      DemandsOfPermutation(a[..last], b[..j] + b[j + 1..], article);
    }
  }

  lemma {:induction false} SameDemands(a: seq<Demand>, b: seq<Demand>, o: nat)
    requires multiset(a) == multiset(b) && exists i :: 0 <= i < |a| && a[i].order == o
    ensures exists i, j :: 0 <= i < |a| && 0 <= j < |b| && a[i] == b[j] && a[i].order == o
  {
    var i :| 0 <= i < |a| && a[i].order == o;
    assert a[i] in multiset(b);
  }

  /** The map does not depend on the order in which the orders are fetched: it gives every order the same of every
      article. */
  lemma FetchOrderIsIrrelevant(a: seq<OpenOrder>, b: seq<OpenOrder>, stocks: map<nat, int>, m: Allocated, n: Allocated,
                               o: nat, article: nat)
    requires multiset(a) == multiset(b)
    requires IsAllocationOf(m, Demands(a, article), StockOf(stocks, article), article)
    requires IsAllocationOf(n, Demands(b, article), StockOf(stocks, article), article)
    ensures Produced(m, o, article) == Produced(n, o, article)
  {
    var ds, es, stock := Demands(a, article), Demands(b, article), StockOf(stocks, article);
    DemandsOfPermutation(a, b, article);
    if exists i :: 0 <= i < |ds| && ds[i].order == o {
      SameDemands(ds, es, o);
      var i, j :| 0 <= i < |ds| && 0 <= j < |es| && ds[i] == es[j] && ds[i].order == o;
      ReadingOrderIsIrrelevant(ds, es, stock, ds[i]);
      assert Produced(m, ds[i].order, article) == Expected(ds, stock, ds[i]);
      assert Produced(n, es[j].order, article) == Expected(es, stock, es[j]);
    } else {
      assert (o, article) !in m;
      if (o, article) in n {
        SameDemands(es, ds, o);
      }
    }
  }

  // ---------------------------------------------------------------- sums over the lines of the orders

  function OverLines(o: OpenOrder, lines: seq<OrderLine>, g: (OpenOrder, OrderLine) -> int): int {
    if lines == [] then 0 else OverLines(o, lines[..|lines| - 1], g) + g(o, lines[|lines| - 1])
  }

  function OverOrders(orders: seq<OpenOrder>, g: (OpenOrder, OrderLine) -> int): int {
    if orders == [] then 0
    else OverOrders(orders[..|orders| - 1], g) + OverLines(orders[|orders| - 1], orders[|orders| - 1].lines, g)
  }

  lemma {:induction false} SameOverLines(o: OpenOrder, p: OpenOrder, lines: seq<OrderLine>,
                                         g: (OpenOrder, OrderLine) -> int, h: (OpenOrder, OrderLine) -> int)
    requires forall j :: 0 <= j < |lines| ==> g(o, lines[j]) == h(p, lines[j])
    ensures OverLines(o, lines, g) == OverLines(p, lines, h)
    decreases |lines|
  {
    if lines != [] {
      SameOverLines(o, p, lines[..|lines| - 1], g, h);
    }
  }

  lemma {:induction false} SameOverOrders(orders: seq<OpenOrder>, others: seq<OpenOrder>,
                                          g: (OpenOrder, OrderLine) -> int, h: (OpenOrder, OrderLine) -> int)
    requires |others| == |orders| && forall i :: 0 <= i < |orders| ==> others[i].lines == orders[i].lines
    requires forall i, j :: 0 <= i < |orders| && 0 <= j < |orders[i].lines| ==>
               g(orders[i], orders[i].lines[j]) == h(others[i], orders[i].lines[j])
    ensures OverOrders(orders, g) == OverOrders(others, h)
    decreases |orders|
  {
    if orders != [] {
      var last := |orders| - 1;
      SameOverOrders(orders[..last], others[..last], g, h);
      SameOverLines(orders[last], others[last], orders[last].lines, g, h);
    }
  }

  lemma {:induction false} PositiveOverLines(o: OpenOrder, lines: seq<OrderLine>, g: (OpenOrder, OrderLine) -> int)
    requires forall j :: 0 <= j < |lines| ==> g(o, lines[j]) >= 0
    ensures OverLines(o, lines, g) >= 0
    ensures OverLines(o, lines, g) > 0 <==> exists j :: 0 <= j < |lines| && g(o, lines[j]) > 0
    decreases |lines|
  {
    if lines != [] {
      var last := |lines| - 1;
      PositiveOverLines(o, lines[..last], g);
      if j :| 0 <= j < last && g(o, lines[..last][j]) > 0 {
        assert g(o, lines[j]) > 0;
      }
      if j :| 0 <= j < |lines| && g(o, lines[j]) > 0 {
        assert j < last ==> g(o, lines[..last][j]) > 0;
      }
    }
  }

  /** Something not negative adds up to more than nothing exactly when one line has some. */
  lemma {:induction false} PositiveOverOrders(orders: seq<OpenOrder>, g: (OpenOrder, OrderLine) -> int)
    requires forall i, j :: 0 <= i < |orders| && 0 <= j < |orders[i].lines| ==> g(orders[i], orders[i].lines[j]) >= 0
    ensures OverOrders(orders, g) >= 0
    ensures OverOrders(orders, g) > 0 <==>
              exists i, j :: 0 <= i < |orders| && 0 <= j < |orders[i].lines| && g(orders[i], orders[i].lines[j]) > 0
    decreases |orders|
  {
    if orders != [] {
      var last := |orders| - 1;
      var front := orders[..last];
      PositiveOverOrders(front, g);
      PositiveOverLines(orders[last], orders[last].lines, g);
      if i, j :| 0 <= i < last && 0 <= j < |front[i].lines| && g(front[i], front[i].lines[j]) > 0 {
        assert g(orders[i], orders[i].lines[j]) > 0;
      }
      if i, j :| 0 <= i < |orders| && 0 <= j < |orders[i].lines| && g(orders[i], orders[i].lines[j]) > 0 {
        assert i < last ==> g(front[i], front[i].lines[j]) > 0;
      }
    }
  }

  lemma {:induction false} HiddenLinesAddNothing(o: OpenOrder, lines: seq<OrderLine>,
                                                 g: (OpenOrder, OrderLine) -> int)
    requires forall line :: g(o, line) == 0
    ensures OverLines(o, lines, g) == 0
    decreases |lines|
  {
    if lines != [] {
      HiddenLinesAddNothing(o, lines[..|lines| - 1], g);
    }
  }

  function IfDemanded(article: nat, h: Demand -> int): (OpenOrder, OrderLine) -> int {
    (o: OpenOrder, line: OrderLine) =>
      if IsAllocated(o.status) && line.article == article then h(DemandOf(o, line)) else 0
  }

  lemma {:induction false} DemandsOfLines(o: OpenOrder, lines: seq<OrderLine>, article: nat, h: Demand -> int)
    requires IsAllocated(o.status)
    ensures Sum(DemandsOf(o, lines, article), h) == OverLines(o, lines, IfDemanded(article, h))
    decreases |lines|
  {
    if lines != [] {
      var front, last := lines[..|lines| - 1], lines[|lines| - 1];
      var own := if last.article == article then [DemandOf(o, last)] else [];
      DemandsOfLines(o, front, article, h);
      SumOfBoth(DemandsOf(o, front, article), own, h);
      SumOfSingle(own, h);
    }
  }

  lemma {:induction false} DemandsOverOrders(open: seq<OpenOrder>, article: nat, h: Demand -> int)
    ensures Sum(Demands(open, article), h) == OverOrders(open, IfDemanded(article, h))
    decreases |open|
  {
    if open != [] {
      var front, last := open[..|open| - 1], open[|open| - 1];
      DemandsOverOrders(front, article, h);
      SumOfBoth(Demands(front, article), DemandsOfOrder(last, article), h);
      if IsAllocated(last.status) {
        DemandsOfLines(last, last.lines, article, h);
      } else {
        HiddenLinesAddNothing(last, last.lines, IfDemanded(article, h));
      }
    }
  }

  // ---------------------------------------------------------------- what the service finds

  /** An order that holds on to stock: not paid yet, to be checked, confirmed or prepared. */
  predicate IsOpenOrder(o: OpenOrder) {
    o.status == PaiementEnAttente || o.status == PaiementAVerifier || o.status == Nouvelle || o.status == Preparee
  }

  function OpenQuantity(article: nat): (OpenOrder, OrderLine) -> int {
    (o: OpenOrder, line: OrderLine) => if IsOpenOrder(o) && line.article == article then line.quantity else 0
  }

  /** The nearer pickup date first, none last; then the older order, then the smaller number. */
  predicate IsServedBefore(o: OpenOrder, p: OpenOrder) {
    || (o.due.Some? && p.due.None?)
    || (o.due.Some? && p.due.Some? && o.due.value < p.due.value)
    || (o.due == p.due && (o.createdAt < p.createdAt || (o.createdAt == p.createdAt && o.id < p.id)))
  }

  function QuantityBefore(p: OpenOrder, article: nat): (OpenOrder, OrderLine) -> int {
    (o: OpenOrder, line: OrderLine) =>
      if IsOpenOrder(o) && line.article == article && IsServedBefore(o, p) then line.quantity else 0
  }

  lemma OpenIsOverOrders(orders: seq<OpenOrder>, article: nat)
    ensures Open(Demands(orders, article)) == OverOrders(orders, OpenQuantity(article))
  {
    DemandsOverOrders(orders, article, Quantity());
    forall i, j | 0 <= i < |orders| && 0 <= j < |orders[i].lines|
      ensures IfDemanded(article, Quantity())(orders[i], orders[i].lines[j])
              == OpenQuantity(article)(orders[i], orders[i].lines[j])
    {
      assert Quantity()(DemandOf(orders[i], orders[i].lines[j])) == orders[i].lines[j].quantity;
    }
    SameOverOrders(orders, orders, IfDemanded(article, Quantity()), OpenQuantity(article));
  }

  lemma AheadIsOverOrders(orders: seq<OpenOrder>, p: OpenOrder, line: OrderLine)
    ensures Ahead(Demands(orders, line.article), DemandOf(p, line))
            == OverOrders(orders, QuantityBefore(p, line.article))
  {
    var f := QuantityAhead(DemandOf(p, line));
    DemandsOverOrders(orders, line.article, f);
    forall i, j | 0 <= i < |orders| && 0 <= j < |orders[i].lines|
      ensures IfDemanded(line.article, f)(orders[i], orders[i].lines[j])
              == QuantityBefore(p, line.article)(orders[i], orders[i].lines[j])
    {
      var x := DemandOf(orders[i], orders[i].lines[j]);
      assert f(x) == if Precedes(x, DemandOf(p, line)) then x.quantity else 0;
    }
    SameOverOrders(orders, orders, IfDemanded(line.article, f), QuantityBefore(p, line.article));
  }

  lemma {:induction false} LineIsADemand(o: OpenOrder, lines: seq<OrderLine>, j: nat)
    requires j < |lines|
    ensures DemandOf(o, lines[j]) in DemandsOf(o, lines, lines[j].article)
    decreases |lines|
  {
    if j < |lines| - 1 {
      LineIsADemand(o, lines[..|lines| - 1], j);
    }
  }

  lemma {:induction false} OpenLineIsADemand(orders: seq<OpenOrder>, i: nat, j: nat)
    requires i < |orders| && IsAllocated(orders[i].status) && j < |orders[i].lines|
    ensures DemandOf(orders[i], orders[i].lines[j]) in Demands(orders, orders[i].lines[j].article)
    decreases |orders|
  {
    if i < |orders| - 1 {
      OpenLineIsADemand(orders[..|orders| - 1], i, j);
    } else {
      LineIsADemand(orders[i], orders[i].lines, j);
    }
  }

  /** What the service has to have produced for a line of an order to be prepared: what the stock, with all open orders
      put back and those served before taken out, does not cover. An order that is not paid yet holds its share but
      gets nothing produced. */
  lemma ServiceOwesExactly(orders: seq<OpenOrder>, stocks: map<nat, int>, m: Allocated, i: nat, j: nat)
    requires i < |orders| && j < |orders[i].lines| && IsOpenOrder(orders[i])
    requires var a := orders[i].lines[j].article; IsAllocationOf(m, Demands(orders, a), StockOf(stocks, a), a)
    ensures var o, line := orders[i], orders[i].lines[j];
            var a := line.article;
            var stock := if a in stocks then stocks[a] else 0;
            var free := stock + OverOrders(orders, OpenQuantity(a)) - OverOrders(orders, QuantityBefore(o, a));
            (if (o.id, a) in m then m[(o.id, a)] else 0)
            == if o.status == PaiementEnAttente then 0
               else if free <= 0 then line.quantity
               else if free < line.quantity then line.quantity - free
               else 0
  {
    var o, line := orders[i], orders[i].lines[j];
    var ds := Demands(orders, line.article);
    OpenIsOverOrders(orders, line.article);
    AheadIsOverOrders(orders, o, line);
    OpenLineIsADemand(orders, i, j);
    var k :| 0 <= k < |ds| && ds[k] == DemandOf(o, line);
    assert Produced(m, ds[k].order, line.article) == Expected(ds, StockOf(stocks, line.article), ds[k]);
  }
}
