/** When the service, which orders open lines by instant, and the back office, which orders them by day, find the same
    production needs. */
module Agreement {
  import opened Wrappers
  import opened Orders
  import opened Allocation
  import opened Production
  import opened BackOffice

  // ---------------------------------------------------------------- days instead of instants

  function AtDay(offset: int -> int, x: Demand): Demand {
    x.(due := DayKey(offset, x.due))
  }

  function AtDays(offset: int -> int, s: seq<Demand>): (r: seq<Demand>)
    ensures |r| == |s| && forall i :: 0 <= i < |s| ==> r[i] == AtDay(offset, s[i])
  {
    if s == [] then [] else AtDays(offset, s[..|s| - 1]) + [AtDay(offset, s[|s| - 1])]
  }

  ghost predicate AreMidnights(s: seq<Demand>) {
    forall x :: x in s ==> IsMidnight(x.due)
  }

  /** Midnights and their days come in the same order. */
  lemma DaysKeepOrder(offset: int -> int, a: Demand, b: Demand)
    requires IsOffset(offset) && IsMidnight(a.due) && IsMidnight(b.due)
    ensures Precedes(AtDay(offset, a), AtDay(offset, b)) <==> Precedes(a, b)
  {
    if a.due.Some? {
      DayOfMidnight(offset, a.due.value);
    }
    if b.due.Some? {
      DayOfMidnight(offset, b.due.value);
    }
  }

  lemma DayOfMidnight(offset: int -> int, t: int)
    requires IsOffset(offset) && t % DAY == 0
    ensures (t + offset(t)) / DAY * DAY == t
  {
    assert 0 <= offset(t) < DAY;
  }

  /** The demands that precede `x` by instants and those that precede it by days are the same. */
  ghost predicate KeepsAhead(offset: int -> int, s: seq<Demand>, x: Demand) {
    forall i :: 0 <= i < |s| ==> (Precedes(AtDay(offset, s[i]), AtDay(offset, x)) <==> Precedes(s[i], x))
  }

  /** Days put the demands in the order their instants put them in. */
  ghost predicate KeepsOrder(offset: int -> int, s: seq<Demand>) {
    forall i :: 0 <= i < |s| ==> KeepsAhead(offset, s, s[i])
  }

  lemma MidnightsKeepOrder(offset: int -> int, s: seq<Demand>)
    requires IsOffset(offset) && AreMidnights(s)
    ensures KeepsOrder(offset, s)
  {
    forall i | 0 <= i < |s| ensures KeepsAhead(offset, s, s[i]) {
      forall j | 0 <= j < |s|
        ensures Precedes(AtDay(offset, s[j]), AtDay(offset, s[i])) <==> Precedes(s[j], s[i])
      {
        DaysKeepOrder(offset, s[j], s[i]);
      }
    }
  }

  lemma {:induction false} SameOpen(offset: int -> int, s: seq<Demand>)
    ensures Open(AtDays(offset, s)) == Open(s)
    decreases |s|
  {
    if s != [] {
      SameOpen(offset, s[..|s| - 1]);
      assert AtDays(offset, s)[..|s| - 1] == AtDays(offset, s[..|s| - 1]);
    }
  }

  lemma {:induction false} SameAhead(offset: int -> int, s: seq<Demand>, x: Demand)
    requires KeepsAhead(offset, s, x)
    ensures Ahead(AtDays(offset, s), AtDay(offset, x)) == Ahead(s, x)
    decreases |s|
  {
    if s != [] {
      var front := s[..|s| - 1];
      SameAhead(offset, front, x);
      assert AtDays(offset, s)[..|s| - 1] == AtDays(offset, front);
    }
  }

  /** What is owed to a demand by instants is what is owed to it by days. */
  predicate OwesAlike(offset: int -> int, s: seq<Demand>, stock: int, x: Demand) {
    ToProduce(s, stock, x) == ToProduce(AtDays(offset, s), stock, AtDay(offset, x))
  }

  ghost predicate OwesAlikeAlways(offset: int -> int, s: seq<Demand>) {
    forall stock, i :: 0 <= i < |s| ==> OwesAlike(offset, s, stock, s[i])
  }

  /** The open quantity ahead of the demand by days is the one ahead of it by instants. */
  predicate SameQuantityAhead(offset: int -> int, s: seq<Demand>, x: Demand) {
    Ahead(AtDays(offset, s), AtDay(offset, x)) == Ahead(s, x)
  }

  lemma AlwaysAlikeIsSameAhead(offset: int -> int, s: seq<Demand>, x: Demand)
    requires x.quantity > 0 && forall stock :: OwesAlike(offset, s, stock, x)
    ensures SameQuantityAhead(offset, s, x)
  {
    SameOpen(offset, s);
    var byInstant, byDay := Ahead(s, x), Ahead(AtDays(offset, s), AtDay(offset, x));
    assert OwesAlike(offset, s, Min(byInstant, byDay) + 1 - Open(s), x);
  }

  /** What is ahead tells the order: less is ahead of an earlier line. */
  lemma AheadTellsOrder(s: seq<Demand>, i: nat, j: nat)
    requires i < |s| && j < |s| && i != j && s[i].order != s[j].order
    requires s[i].quantity > 0 && s[j].quantity > 0
    ensures Precedes(s[i], s[j]) <==> Ahead(s, s[i]) < Ahead(s, s[j])
  {
    assert s[..|s|] == s;
    if Precedes(s[i], s[j]) {
      SumHas(s, i, s[i], s[j], |s|);
    } else {
      SumHas(s, j, s[j], s[i], |s|);
    }
  }

  /** The service, by instants, and the back office, by days, owe every open line of an article the same, whatever the
      stock, exactly when days keep the order of the lines. */
  lemma DaysOweAlikeExactly(offset: int -> int, s: seq<Demand>)
    requires OneDemandPerOrder(s) && forall i :: 0 <= i < |s| ==> s[i].quantity > 0
    ensures OwesAlikeAlways(offset, s) <==> KeepsOrder(offset, s)
  {
    if KeepsOrder(offset, s) {
      KeptOrderOwesAlike(offset, s);
    } else if OwesAlikeAlways(offset, s) {
      var days := AtDays(offset, s);
      forall i | 0 <= i < |s| ensures KeepsAhead(offset, s, s[i]) {
        AlwaysAlikeIsSameAhead(offset, s, s[i]);
        forall j | 0 <= j < |s| && j != i
          ensures Precedes(AtDay(offset, s[j]), AtDay(offset, s[i])) <==> Precedes(s[j], s[i])
        {
          AlwaysAlikeIsSameAhead(offset, s, s[j]);
          AheadTellsOrder(s, j, i);
          AheadTellsOrder(days, j, i);
        }
      }
    }
  }

  lemma KeptOrderOwesAlike(offset: int -> int, s: seq<Demand>)
    requires KeepsOrder(offset, s)
    ensures OwesAlikeAlways(offset, s)
  {
    SameOpen(offset, s);
    forall stock, i | 0 <= i < |s| ensures OwesAlike(offset, s, stock, s[i]) {
      SameAhead(offset, s, s[i]);
    }
  }

  lemma {:induction false} AtDaysOfBoth(offset: int -> int, a: seq<Demand>, b: seq<Demand>)
    ensures AtDays(offset, a + b) == AtDays(offset, a) + AtDays(offset, b)
    decreases |b|
  {
    if b == [] {
      assert a + b == a;
    } else {
      var front, last := b[..|b| - 1], b[|b| - 1];
      AtDaysOfBoth(offset, a, front);
      assert (a + b)[..|a + b| - 1] == a + front && (a + b)[|a + b| - 1] == last;
    }
  }

  function OrderAtDay(offset: int -> int, o: OpenOrder): OpenOrder {
    o.(due := DayKey(offset, o.due))
  }

  lemma {:induction false} LinesAtDays(offset: int -> int, o: OpenOrder, lines: seq<OrderLine>, article: nat)
    ensures DemandsOf(OrderAtDay(offset, o), lines, article) == AtDays(offset, DemandsOf(o, lines, article))
    decreases |lines|
  {
    if lines != [] {
      var front, last := lines[..|lines| - 1], lines[|lines| - 1];
      LinesAtDays(offset, o, front, article);
      AtDaysOfBoth(offset, DemandsOf(o, front, article),
                   if last.article == article then [DemandOf(o, last)] else []);
      assert AtDays(offset, [DemandOf(o, last)]) == [AtDay(offset, DemandOf(o, last))];
    }
  }

  lemma {:induction false} DemandsAtDays(orders: seq<OpenOrder>, offset: int -> int, article: nat)
    ensures Demands(ByDay(orders, offset), article) == AtDays(offset, Demands(orders, article))
    decreases |orders|
  {
    var days := ByDay(orders, offset);
    if orders != [] {
      var front, last := orders[..|orders| - 1], orders[|orders| - 1];
      DemandsAtDays(front, offset, article);
      assert days[..|days| - 1] == ByDay(front, offset) && days[|days| - 1] == OrderAtDay(offset, last);
      LinesAtDays(offset, last, last.lines, article);
      AtDaysOfBoth(offset, Demands(front, article), DemandsOfOrder(last, article));
    }
  }

  ghost predicate DueAtMidnight(orders: seq<OpenOrder>) {
    forall i :: 0 <= i < |orders| ==> IsMidnight(orders[i].due)
  }

  lemma {:induction false} DemandsAreMidnights(orders: seq<OpenOrder>, article: nat)
    requires DueAtMidnight(orders)
    ensures AreMidnights(Demands(orders, article))
    decreases |orders|
  {
    if orders != [] {
      DemandsAreMidnights(orders[..|orders| - 1], article);
      LinesShareDue(orders[|orders| - 1], orders[|orders| - 1].lines, article);
    }
  }

  lemma {:induction false} LinesShareDue(o: OpenOrder, lines: seq<OrderLine>, article: nat)
    ensures forall x :: x in DemandsOf(o, lines, article) ==> x.due == o.due
    decreases |lines|
  {
    if lines != [] {
      LinesShareDue(o, lines[..|lines| - 1], article);
    }
  }

  // ---------------------------------------------------------------- lines and demands

  /** The two ways owe every visible line the same. */
  ghost predicate LinesOweAlike(orders: seq<OpenOrder>, stocks: map<nat, int>, offset: int -> int) {
    forall i, j :: 0 <= i < |orders| && 0 <= j < |orders[i].lines| && IsVisible(orders[i].status) ==>
      LineOwesAlike(orders, stocks, offset, orders[i], orders[i].lines[j])
  }

  ghost predicate LineOwesAlike(orders: seq<OpenOrder>, stocks: map<nat, int>, offset: int -> int, o: OpenOrder,
                                line: OrderLine) {
    OwesAlike(offset, Demands(orders, line.article), StockOf(stocks, line.article), DemandOf(o, line))
  }

  lemma LineIsAllocated(orders: seq<OpenOrder>, stocks: map<nat, int>, m: Allocated, i: nat, j: nat)
    requires i < |orders| && j < |orders[i].lines| && IsVisible(orders[i].status)
    requires var a := orders[i].lines[j].article; IsAllocationOf(m, Demands(orders, a), StockOf(stocks, a), a)
    ensures var a := orders[i].lines[j].article;
            Produced(m, orders[i].id, a)
            == ToProduce(Demands(orders, a), StockOf(stocks, a), DemandOf(orders[i], orders[i].lines[j]))
  {
    var a, x := orders[i].lines[j].article, DemandOf(orders[i], orders[i].lines[j]);
    var ds := Demands(orders, a);
    OpenLineIsADemand(orders, i, j);
    var k :| 0 <= k < |ds| && ds[k] == x;
    assert Produced(m, ds[k].order, a) == Expected(ds, StockOf(stocks, a), ds[k]);
  }

  // ---------------------------------------------------------------- needs tell what each line is owed

  /** Needs that say the same of every visible line are the same. */
  lemma SameOwedSameNeeds(m: Needs, n: Needs, orders: seq<OpenOrder>, stocks: map<nat, int>,
                          owed: (OpenOrder, OrderLine) -> int, other: (OpenOrder, OrderLine) -> int,
                          offset: int -> int)
    requires AreNeedsOf(m, orders, stocks, owed, offset) && AreNeedsOf(n, orders, stocks, other, offset)
    requires forall i, j :: 0 <= i < |orders| && 0 <= j < |orders[i].lines| && IsVisible(orders[i].status) ==>
               owed(orders[i], orders[i].lines[j]) == other(orders[i], orders[i].lines[j])
    ensures m == n
  {
    forall article: nat, day
      ensures (article, day) in m <==> (article, day) in n
      ensures (article, day) in m ==> m[(article, day)] == n[(article, day)]
    {
      SameNeedAt(m, n, orders, stocks, owed, other, offset, article, day);
    }
    forall key ensures (key in m <==> key in n) && (key in m ==> m[key] == n[key]) {
      assert key == (key.0, key.1);
    }
  }

  lemma SameNeedAt(m: Needs, n: Needs, orders: seq<OpenOrder>, stocks: map<nat, int>,
                   owed: (OpenOrder, OrderLine) -> int, other: (OpenOrder, OrderLine) -> int, offset: int -> int,
                   article: nat, day: Option<int>)
    requires NeedSays(m, orders, stocks, owed, offset, article, day)
    requires NeedSays(n, orders, stocks, other, offset, article, day)
    requires forall i, j :: 0 <= i < |orders| && 0 <= j < |orders[i].lines| && IsVisible(orders[i].status) ==>
               owed(orders[i], orders[i].lines[j]) == other(orders[i], orders[i].lines[j])
    ensures (article, day) in m <==> (article, day) in n
    ensures (article, day) in m ==> m[(article, day)] == n[(article, day)]
  {
    forall i, j | 0 <= i < |orders| && 0 <= j < |orders[i].lines|
      ensures LineAdds(orders[i], orders[i].lines[j], owed, offset, article, day)
              <==> LineAdds(orders[i], orders[i].lines[j], other, offset, article, day)
    {
    }
    SameOverOrders(orders, orders, OwedIfAdded(owed, offset, article, day), OwedIfAdded(other, offset, article, day));
    SameOverOrders(orders, orders, OrderedIfAdded(owed, offset, article, day),
                   OrderedIfAdded(other, offset, article, day));
    forall order: nat
      ensures OverOrders(orders, OwedTo(owed, offset, article, day, order))
              == OverOrders(orders, OwedTo(other, offset, article, day, order))
    {
      SameOverOrders(orders, orders, OwedTo(owed, offset, article, day, order),
                     OwedTo(other, offset, article, day, order));
    }
    if (article, day) in m {
      assert m[(article, day)].byOrder == n[(article, day)].byOrder;
    }
  }

  lemma {:induction false} OnlyLine(o: OpenOrder, lines: seq<OrderLine>, g: (OpenOrder, OrderLine) -> int, j: nat)
    requires j < |lines| && forall k :: 0 <= k < |lines| && k != j ==> g(o, lines[k]) == 0
    ensures OverLines(o, lines, g) == g(o, lines[j])
    decreases |lines|
  {
    var last := |lines| - 1;
    if j < last {
      OnlyLine(o, lines[..last], g, j);
    } else {
      SameOverLines(o, o, lines[..last], g, (o: OpenOrder, line: OrderLine) => 0);
      NothingOverLines(o, lines[..last]);
    }
  }

  lemma {:induction false} NothingOverLines(o: OpenOrder, lines: seq<OrderLine>)
    ensures OverLines(o, lines, (o: OpenOrder, line: OrderLine) => 0) == 0
  {
    HiddenLinesAddNothing(o, lines, (o: OpenOrder, line: OrderLine) => 0);
  }

  lemma {:induction false} NoOrder(orders: seq<OpenOrder>, g: (OpenOrder, OrderLine) -> int)
    requires forall i, j :: 0 <= i < |orders| && 0 <= j < |orders[i].lines| ==> g(orders[i], orders[i].lines[j]) == 0
    ensures OverOrders(orders, g) == 0
  {
    PositiveOverOrders(orders, g);
  }

  lemma {:induction false} OnlyOrder(orders: seq<OpenOrder>, g: (OpenOrder, OrderLine) -> int, i: nat, j: nat)
    requires i < |orders| && j < |orders[i].lines|
    requires forall k, l :: 0 <= k < |orders| && 0 <= l < |orders[k].lines| && (k != i || l != j) ==>
               g(orders[k], orders[k].lines[l]) == 0
    ensures OverOrders(orders, g) == g(orders[i], orders[i].lines[j])
    decreases |orders|
  {
    var last := |orders| - 1;
    if i < last {
      OnlyOrder(orders[..last], g, i, j);
      NoLine(orders[last], orders[last].lines, g);
    } else {
      NoOrder(orders[..last], g);
      OnlyLine(orders[last], orders[last].lines, g, j);
    }
  }

  lemma NoLine(o: OpenOrder, lines: seq<OrderLine>, g: (OpenOrder, OrderLine) -> int)
    requires forall l :: 0 <= l < |lines| ==> g(o, lines[l]) == 0
    ensures OverLines(o, lines, g) == 0
  {
    PositiveOverLines(o, lines, g);
  }

  /** Needs tell for every visible line what it is owed. */
  lemma NeedsTellOwed(m: Needs, orders: seq<OpenOrder>, stocks: map<nat, int>,
                      owed: (OpenOrder, OrderLine) -> int, offset: int -> int, i: nat, j: nat)
    requires IsDistinct(orders) && AreNeedsOf(m, orders, stocks, owed, offset)
    requires i < |orders| && j < |orders[i].lines| && IsVisible(orders[i].status)
    ensures var key := (orders[i].lines[j].article, DayKey(offset, orders[i].due));
            Max(0, owed(orders[i], orders[i].lines[j]))
            == if key in m then ForOrder(m[key].byOrder, orders[i].id) else 0
  {
    var o, line := orders[i], orders[i].lines[j];
    var article, day := line.article, DayKey(offset, o.due);
    assert NeedSays(m, orders, stocks, owed, offset, article, day);
    assert OneLinePerArticle(o.lines);
    OnlyOrder(orders, OwedTo(owed, offset, article, day, o.id), i, j);
    if owed(o, line) > 0 {
      assert LineAdds(o, line, owed, offset, article, day);
    }
  }

  // ---------------------------------------------------------------- the two programs

  lemma LineOwesAlikeExactly(orders: seq<OpenOrder>, stocks: map<nat, int>, m: Allocated, offset: int -> int, i: nat,
                             j: nat)
    requires i < |orders| && j < |orders[i].lines| && IsVisible(orders[i].status)
    requires var a := orders[i].lines[j].article; IsAllocationOf(m, Demands(orders, a), StockOf(stocks, a), a)
    ensures var owed, other := OwedByService(m), OwedByDay(orders, stocks, offset);
            var o, line := orders[i], orders[i].lines[j];
            && owed(o, line) >= 0 && other(o, line) >= 0
            && (LineOwesAlike(orders, stocks, offset, o, line) <==> owed(o, line) == other(o, line))
  {
    LineIsAllocated(orders, stocks, m, i, j);
    DemandsAtDays(orders, offset, orders[i].lines[j].article);
  }

  /** Given every open order, with one line per article, the back office finds the same needs whether it aggregates
      what the service annotated or computes afresh, exactly when both owe every visible line the same. */
  lemma NeedsAgreeExactly(orders: seq<OpenOrder>, stocks: map<nat, int>, m: Allocated, offset: int -> int,
                          articles: seq<nat>)
    requires IsDistinct(orders)
    requires forall a :: IsAllocationOf(m, Demands(orders, a), StockOf(stocks, a), a)
    requires AreArticlesOf(articles, ByDay(orders, offset))
    ensures Aggregate(Annotated(orders, stocks, m, offset))
            == Aggregate(Recomputed(ByDay(orders, offset), stocks, articles))
            <==> LinesOweAlike(orders, stocks, offset)
  {
    var annotated := Aggregate(Annotated(orders, stocks, m, offset));
    var recomputed := Aggregate(Recomputed(ByDay(orders, offset), stocks, articles));
    var owed, other := OwedByService(m), OwedByDay(orders, stocks, offset);
    AnnotatedNeedsSay(orders, stocks, m, offset);
    RecomputedNeedsSay(orders, stocks, offset, articles);
    forall i, j | 0 <= i < |orders| && 0 <= j < |orders[i].lines| && IsVisible(orders[i].status)
      ensures LineOwesAlike(orders, stocks, offset, orders[i], orders[i].lines[j])
              <==> owed(orders[i], orders[i].lines[j]) == other(orders[i], orders[i].lines[j])
      ensures annotated == recomputed ==> owed(orders[i], orders[i].lines[j]) == other(orders[i], orders[i].lines[j])
    {
      LineOwesAlikeExactly(orders, stocks, m, offset, i, j);
      if annotated == recomputed {
        NeedsTellOwed(annotated, orders, stocks, owed, offset, i, j);
        NeedsTellOwed(recomputed, orders, stocks, other, offset, i, j);
      }
    }
    if LinesOweAlike(orders, stocks, offset) {
      SameOwedSameNeeds(annotated, recomputed, orders, stocks, owed, other, offset);
    }
  }

  // ---------------------------------------------------------------- the two programs, whatever the stock

  /** The article's allocation in the service, as a sum over its demands: at most one of them is the order's. */
  function Owes(demands: seq<Demand>, stock: int, order: nat): Demand -> int {
    (x: Demand) => if x.order == order then Expected(demands, stock, x) else 0
  }

  lemma {:induction false} OwesNothing(all: seq<Demand>, stock: int, s: seq<Demand>, order: nat)
    requires forall i :: 0 <= i < |s| ==> s[i].order != order
    ensures Sum(s, Owes(all, stock, order)) == 0
    decreases |s|
  {
    if s != [] {
      OwesNothing(all, stock, s[..|s| - 1], order);
    }
  }

  lemma OwesOnce(all: seq<Demand>, stock: int, k: nat)
    requires OneDemandPerOrder(all) && k < |all|
    ensures Sum(all, Owes(all, stock, all[k].order)) == Expected(all, stock, all[k])
  {
    SumWithout(all, k, Owes(all, stock, all[k].order));
    var rest := all[..k] + all[k + 1..];
    forall i | 0 <= i < |rest| ensures rest[i].order != all[k].order {
      assert rest[i] == all[if i < k then i else i + 1];
    }
    OwesNothing(all, stock, rest, all[k].order);
  }

  ghost predicate IsAllocation(m: Allocated, orders: seq<OpenOrder>, stocks: map<nat, int>) {
    forall a :: IsAllocationOf(m, Demands(orders, a), StockOf(stocks, a), a)
  }

  function AllocatedTo(orders: seq<OpenOrder>, stocks: map<nat, int>, order: nat, article: nat): nat {
    var demands := Demands(orders, article);
    Max(0, Sum(demands, Owes(demands, StockOf(stocks, article), order)))
  }

  lemma {:induction false} LinesOfDemands(o: OpenOrder, lines: seq<OrderLine>, a: nat, x: Demand)
    requires x in DemandsOf(o, lines, a)
    ensures exists j :: 0 <= j < |lines| && lines[j].article == a && x == DemandOf(o, lines[j])
    decreases |lines|
  {
    var front, last := lines[..|lines| - 1], lines[|lines| - 1];
    if x in DemandsOf(o, front, a) {
      LinesOfDemands(o, front, a, x);
      var j :| 0 <= j < |front| && front[j].article == a && x == DemandOf(o, front[j]);
      assert lines[j] == front[j];
    }
  }

  predicate IsLineOf(orders: seq<OpenOrder>, i: nat, j: nat) {
    i < |orders| && j < |orders[i].lines| && IsAllocated(orders[i].status)
  }

  lemma {:induction false} DemandsAreLines(orders: seq<OpenOrder>, a: nat, x: Demand)
    requires x in Demands(orders, a)
    ensures exists i: nat, j: nat ::
              IsLineOf(orders, i, j) && orders[i].lines[j].article == a && orders[i].id == x.order
    decreases |orders|
  {
    var front, last := orders[..|orders| - 1], orders[|orders| - 1];
    if x in Demands(front, a) {
      DemandsAreLines(front, a, x);
      var i: nat, j: nat :| IsLineOf(front, i, j) && front[i].lines[j].article == a && front[i].id == x.order;
      assert IsLineOf(orders, i, j);
    } else {
      LinesOfDemands(last, last.lines, a, x);
      var j :| 0 <= j < |last.lines| && last.lines[j].article == a && x == DemandOf(last, last.lines[j]);
      assert IsLineOf(orders, |orders| - 1, j);
    }
  }

  /** The open lines, as an order and an article. */
  function Lines(orders: seq<OpenOrder>): (r: set<(nat, nat)>)
    ensures forall o: nat, a: nat :: (o, a) in r <==>
              exists i: nat, j: nat ::
                IsLineOf(orders, i, j) && orders[i].id == o && orders[i].lines[j].article == a
  {
    set i, j | 0 <= i < |orders| && 0 <= j < |orders[i].lines| && IsLineOf(orders, i, j) ::
      (orders[i].id, orders[i].lines[j].article)
  }

  predicate HasOrder(demands: seq<Demand>, o: nat) {
    exists k :: 0 <= k < |demands| && demands[k].order == o
  }

  lemma LinesAreDemands(orders: seq<OpenOrder>, o: nat, a: nat)
    ensures (o, a) in Lines(orders) <==> HasOrder(Demands(orders, a), o)
  {
    var ds := Demands(orders, a);
    if (o, a) in Lines(orders) {
      var i: nat, j: nat :| IsLineOf(orders, i, j) && orders[i].id == o && orders[i].lines[j].article == a;
      OpenLineIsADemand(orders, i, j);
      var k :| 0 <= k < |ds| && ds[k] == DemandOf(orders[i], orders[i].lines[j]);
      assert ds[k].order == o;
    }
    if k :| 0 <= k < |ds| && ds[k].order == o {
      DemandsAreLines(orders, a, ds[k]);
    }
  }

  function AllocationMap(orders: seq<OpenOrder>, stocks: map<nat, int>): Allocated {
    map k | k in Lines(orders) :: AllocatedTo(orders, stocks, k.0, k.1)
  }

  /** Whatever the stock there is an allocation, which is what the service's program finds. */
  lemma AllocationExists(orders: seq<OpenOrder>, stocks: map<nat, int>)
    requires IsDistinct(orders)
    ensures IsAllocation(AllocationMap(orders, stocks), orders, stocks)
  {
    var m := AllocationMap(orders, stocks);
    forall a: nat ensures IsAllocationOf(m, Demands(orders, a), StockOf(stocks, a), a) {
      var ds := Demands(orders, a);
      DemandsAreDistinct(orders, a);
      forall k | 0 <= k < |ds| ensures Produced(m, ds[k].order, a) == Expected(ds, StockOf(stocks, a), ds[k]) {
        LinesAreDemands(orders, ds[k].order, a);
        OwesOnce(ds, StockOf(stocks, a), k);
      }
      forall o | (o, a) in m ensures exists k :: 0 <= k < |ds| && ds[k].order == o {
        LinesAreDemands(orders, o, a);
      }
    }
  }

  lemma {:induction false} Listed(keys: set<nat>) returns (articles: seq<nat>)
    ensures forall i, j :: 0 <= i < j < |articles| ==> articles[i] != articles[j]
    ensures forall a: nat :: a in articles <==> a in keys
    decreases |keys|
  {
    if keys == {} {
      articles := [];
    } else {
      var a :| a in keys;
      var rest := Listed(keys - {a});
      articles := rest + [a];
    }
  }

  lemma ArticlesOf(open: seq<OpenOrder>) returns (articles: seq<nat>)
    ensures AreArticlesOf(articles, open)
  {
    var keys := set line | line in Lines(open) :: line.1;
    forall a | a in keys ensures Demands(open, a) != [] {
      var o :| (o, a) in Lines(open);
      LinesAreDemands(open, o, a);
    }
    articles := Listed(keys);
    forall a: nat | Demands(open, a) != [] ensures a in keys {
      var o := Demands(open, a)[0].order;
      LinesAreDemands(open, o, a);
      assert (o, a) in Lines(open);
    }
  }

  /** Whatever the programs compute from this stock is the same. */
  ghost predicate NeedsAgree(orders: seq<OpenOrder>, stocks: map<nat, int>, offset: int -> int) {
    forall m, articles :: IsAllocation(m, orders, stocks) && AreArticlesOf(articles, ByDay(orders, offset)) ==>
      Aggregate(Annotated(orders, stocks, m, offset))
      == Aggregate(Recomputed(ByDay(orders, offset), stocks, articles))
  }

  lemma NeedsAgreeOnStock(orders: seq<OpenOrder>, stocks: map<nat, int>, offset: int -> int)
    requires IsDistinct(orders)
    ensures NeedsAgree(orders, stocks, offset) <==> LinesOweAlike(orders, stocks, offset)
  {
    var m := AllocationMap(orders, stocks);
    AllocationExists(orders, stocks);
    var articles := ArticlesOf(ByDay(orders, offset));
    NeedsAgreeExactly(orders, stocks, m, offset, articles);
    if LinesOweAlike(orders, stocks, offset) {
      forall n, others | IsAllocation(n, orders, stocks) && AreArticlesOf(others, ByDay(orders, offset))
        ensures Aggregate(Annotated(orders, stocks, n, offset))
                == Aggregate(Recomputed(ByDay(orders, offset), stocks, others))
      {
        NeedsAgreeExactly(orders, stocks, n, offset, others);
      }
    }
  }

  /** As much is ahead of every visible line by days as by instants. */
  predicate VisibleKeepAhead(orders: seq<OpenOrder>, offset: int -> int) {
    forall i, j :: 0 <= i < |orders| && 0 <= j < |orders[i].lines| && IsVisible(orders[i].status) ==>
      LineKeepsAhead(orders, offset, orders[i], orders[i].lines[j])
  }

  predicate LineKeepsAhead(orders: seq<OpenOrder>, offset: int -> int, o: OpenOrder, line: OrderLine) {
    SameQuantityAhead(offset, Demands(orders, line.article), DemandOf(o, line))
  }

  lemma SameAheadIsAlike(orders: seq<OpenOrder>, stocks: map<nat, int>, offset: int -> int)
    requires VisibleKeepAhead(orders, offset)
    ensures LinesOweAlike(orders, stocks, offset)
  {
    forall i, j | 0 <= i < |orders| && 0 <= j < |orders[i].lines| && IsVisible(orders[i].status)
      ensures LineOwesAlike(orders, stocks, offset, orders[i], orders[i].lines[j])
    {
      assert LineKeepsAhead(orders, offset, orders[i], orders[i].lines[j]);
      SameOpen(offset, Demands(orders, orders[i].lines[j].article));
    }
  }

  lemma AlikeIsSameAhead(orders: seq<OpenOrder>, offset: int -> int, i: nat, j: nat)
    requires forall stocks :: LinesOweAlike(orders, stocks, offset)
    requires i < |orders| && j < |orders[i].lines| && IsVisible(orders[i].status) && orders[i].lines[j].quantity > 0
    ensures LineKeepsAhead(orders, offset, orders[i], orders[i].lines[j])
  {
    var a, x := orders[i].lines[j].article, DemandOf(orders[i], orders[i].lines[j]);
    forall stock ensures OwesAlike(offset, Demands(orders, a), stock, x) {
      var stocks := map[a := stock];
      assert LinesOweAlike(orders, stocks, offset);
      assert LineOwesAlike(orders, stocks, offset, orders[i], orders[i].lines[j]);
    }
    AlwaysAlikeIsSameAhead(offset, Demands(orders, a), x);
  }

  /** The two programs find the same needs whatever the stock exactly when, for every visible line, as much is ahead of
      it by days as by instants. Lines nobody sees may change places as long as that holds. */
  lemma NeedsAgreeForEveryStock(orders: seq<OpenOrder>, offset: int -> int)
    requires IsDistinct(orders)
    requires forall i, j :: 0 <= i < |orders| && 0 <= j < |orders[i].lines| ==> orders[i].lines[j].quantity > 0
    ensures (forall stocks :: NeedsAgree(orders, stocks, offset)) <==> VisibleKeepAhead(orders, offset)
  {
    if VisibleKeepAhead(orders, offset) {
      forall stocks ensures NeedsAgree(orders, stocks, offset) {
        SameAheadIsAlike(orders, stocks, offset);
        NeedsAgreeOnStock(orders, stocks, offset);
      }
    } else if forall stocks :: NeedsAgree(orders, stocks, offset) {
      forall stocks ensures LinesOweAlike(orders, stocks, offset) {
        NeedsAgreeOnStock(orders, stocks, offset);
      }
      forall i, j | 0 <= i < |orders| && 0 <= j < |orders[i].lines| && IsVisible(orders[i].status)
        ensures LineKeepsAhead(orders, offset, orders[i], orders[i].lines[j])
      {
        AlikeIsSameAhead(orders, offset, i, j);
      }
    }
  }

  lemma KeptOrderIsAlike(orders: seq<OpenOrder>, stocks: map<nat, int>, offset: int -> int)
    requires forall a :: KeepsOrder(offset, Demands(orders, a))
    ensures LinesOweAlike(orders, stocks, offset)
  {
    forall i, j | 0 <= i < |orders| && 0 <= j < |orders[i].lines| && IsVisible(orders[i].status)
      ensures LineOwesAlike(orders, stocks, offset, orders[i], orders[i].lines[j])
    {
      var a, x := orders[i].lines[j].article, DemandOf(orders[i], orders[i].lines[j]);
      var ds := Demands(orders, a);
      OpenLineIsADemand(orders, i, j);
      KeptOrderOwesAlike(offset, ds);
      var k :| 0 <= k < |ds| && ds[k] == x;
      assert OwesAlike(offset, ds, StockOf(stocks, a), ds[k]);
    }
  }

  lemma MidnightsAreAlike(orders: seq<OpenOrder>, stocks: map<nat, int>, offset: int -> int)
    requires IsOffset(offset) && DueAtMidnight(orders)
    ensures LinesOweAlike(orders, stocks, offset)
  {
    forall a ensures KeepsOrder(offset, Demands(orders, a)) {
      DemandsAreMidnights(orders, a);
      MidnightsKeepOrder(offset, Demands(orders, a));
    }
    KeptOrderIsAlike(orders, stocks, offset);
  }

  /** Pickup dates are stored at midnight, so both ways find the same needs for every article, day and order. */
  lemma BothWaysAgree(orders: seq<OpenOrder>, stocks: map<nat, int>, m: Allocated, offset: int -> int,
                      articles: seq<nat>)
    requires IsDistinct(orders) && IsOffset(offset) && DueAtMidnight(orders)
    requires forall a :: IsAllocationOf(m, Demands(orders, a), StockOf(stocks, a), a)
    requires AreArticlesOf(articles, ByDay(orders, offset))
    ensures Aggregate(Annotated(orders, stocks, m, offset))
            == Aggregate(Recomputed(ByDay(orders, offset), stocks, articles))
  {
    MidnightsAreAlike(orders, stocks, offset);
    NeedsAgreeExactly(orders, stocks, m, offset, articles);
  }

  const LATE := OpenOrder(1, Nouvelle, Some(20), 0, [OrderLine(0, 1)])
  const EARLY := OpenOrder(2, Nouvelle, Some(10), 1, [OrderLine(0, 1)])

  lemma TwoDemands()
    ensures Demands([LATE, EARLY], 0) == [DemandOf(LATE, LATE.lines[0]), DemandOf(EARLY, EARLY.lines[0])]
  {
    assert [LATE, EARLY] == [LATE] + [EARLY];
    DemandsOfBoth([LATE], [EARLY], 0);
    DemandsOfSingle(LATE, 0);
    DemandsOfSingle(EARLY, 0);
    assert LATE.lines[..0] == [] == EARLY.lines[..0];
  }

  /** Hours would matter: of two orders for one day, with one unit for both, the service would serve the earlier hour
      and the back office the older order. */
  lemma HoursOfOneDayMatter(m: Allocated, offset: int -> int, articles: seq<nat>)
    requires DayKey(offset, LATE.due) == DayKey(offset, EARLY.due)
    requires forall a :: IsAllocationOf(m, Demands([LATE, EARLY], a), StockOf(map[0 := -1], a), a)
    requires AreArticlesOf(articles, ByDay([LATE, EARLY], offset))
    ensures Aggregate(Annotated([LATE, EARLY], map[0 := -1], m, offset))
            != Aggregate(Recomputed(ByDay([LATE, EARLY], offset), map[0 := -1], articles))
  {
    var orders, stocks := [LATE, EARLY], map[0 := -1];
    NeedsAgreeExactly(orders, stocks, m, offset, articles);
    TwoDemands();
    LateOwesOtherwise(offset);
    assert !LineOwesAlike(orders, stocks, offset, orders[0], orders[0].lines[0]);
  }

  lemma LateOwesOtherwise(offset: int -> int)
    requires DayKey(offset, LATE.due) == DayKey(offset, EARLY.due)
    ensures var x, y := DemandOf(LATE, LATE.lines[0]), DemandOf(EARLY, EARLY.lines[0]);
            !OwesAlike(offset, [x, y], -1, x)
  {
    var x, y := DemandOf(LATE, LATE.lines[0]), DemandOf(EARLY, EARLY.lines[0]);
    assert AtDays(offset, [x, y]) == [AtDay(offset, x), AtDay(offset, y)];
    TwoSums(x, y, Quantity());
    TwoSums(x, y, QuantityAhead(x));
    TwoSums(AtDay(offset, x), AtDay(offset, y), Quantity());
    TwoSums(AtDay(offset, x), AtDay(offset, y), QuantityAhead(AtDay(offset, x)));
  }

  lemma TwoSums(x: Demand, y: Demand, f: Demand -> int)
    ensures Sum([x, y], f) == f(x) + f(y)
  {
    assert [x, y][..1] == [x] && [x][..0] == [];
    assert Sum([], f) == 0 && Sum([x], f) == f(x);
  }

  /** The three steps together, as the two programs run them. */
  method NeedsBothWays(orders: seq<OpenOrder>, stocks: map<nat, int>, offset: int -> int)
    returns (annotated: Needs, recomputed: Needs)
    requires IsDistinct(orders)
    ensures annotated == recomputed <==> LinesOweAlike(orders, stocks, offset)
    ensures IsOffset(offset) && DueAtMidnight(orders) ==> annotated == recomputed
  {
    var m := AllocateProductionQuantities(stocks, orders);
    annotated := GetExplicitProductionNeeds(orders, stocks, m, offset);
    recomputed := GetProductionNeeds(orders, stocks, offset);
    ghost var articles :| AreArticlesOf(articles, ByDay(orders, offset))
                          && recomputed == Aggregate(Recomputed(ByDay(orders, offset), stocks, articles));
    NeedsAgreeExactly(orders, stocks, m, offset, articles);
    if IsOffset(offset) && DueAtMidnight(orders) {
      MidnightsAreAlike(orders, stocks, offset);
    }
  }
}
