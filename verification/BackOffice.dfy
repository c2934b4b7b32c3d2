/** The back office's production needs by article and day: aggregated from the lines the service annotated, or
    recomputed from the open orders. */
module BackOffice {
  import opened Wrappers
  import opened Orders
  import opened Allocation
  import opened Production

  const DAY := 86_400_000

  /** Milliseconds to add to an instant for local time: less than a day, and never negative in Paris. */
  ghost predicate IsOffset(offset: int -> int) {
    forall t :: 0 <= offset(t) < DAY
  }

  /** The local day of an instant; a missing date keeps its own key. */
  function DayKey(offset: int -> int, due: Option<int>): Option<int> {
    if due.None? then None else Some((due.value + offset(due.value)) / DAY)
  }

  predicate IsMidnight(due: Option<int>) {
    due.Some? ==> due.value % DAY == 0
  }

  // ---------------------------------------------------------------- aggregation

  datatype Need = Need(stock: int, ordered: nat, toProduce: nat, byOrder: map<nat, nat>)

  /** What one line adds to the need of its article and day. */
  datatype Contribution = Contribution(
    article: nat, day: Option<int>, stock: int, order: nat, quantity: nat, produce: nat)

  type Needs = map<(nat, Option<int>), Need>

  function Key(c: Contribution): (nat, Option<int>) {
    (c.article, c.day)
  }

  function ForOrder(byOrder: map<nat, nat>, order: nat): nat {
    if order in byOrder then byOrder[order] else 0
  }

  function Increase(need: Need, c: Contribution): Need {
    Need(Min(need.stock, c.stock), need.ordered + c.quantity, need.toProduce + c.produce,
         need.byOrder[c.order := ForOrder(need.byOrder, c.order) + c.produce])
  }

  function NeedAt(m: Needs, key: (nat, Option<int>), stock: int): Need {
    if key in m then m[key] else Need(stock, 0, 0, map[])
  }

  function Add(m: Needs, c: Contribution): Needs {
    m[Key(c) := Increase(NeedAt(m, Key(c), c.stock), c)]
  }

  function Aggregate(cs: seq<Contribution>): Needs {
    if cs == [] then map[] else Add(Aggregate(cs[..|cs| - 1]), cs[|cs| - 1])
  }

  lemma IncreasesCommute(need: Need, c: Contribution, d: Contribution)
    ensures Increase(Increase(need, c), d) == Increase(Increase(need, d), c)
  {
    assert Increase(Increase(need, c), d).byOrder == Increase(Increase(need, d), c).byOrder;
  }

  lemma AddsCommute(m: Needs, c: Contribution, d: Contribution)
    ensures Add(Add(m, c), d) == Add(Add(m, d), c)
  {
    if Key(c) == Key(d) {
      var k := Key(c);
      if k in m {
        IncreasesCommute(m[k], c, d);
      } else {
        FirstIncreasesCommute(c, d);
      }
      assert Add(Add(m, c), d) == m[k := Add(Add(m, c), d)[k]];
      assert Add(Add(m, d), c) == m[k := Add(Add(m, d), c)[k]];
    } else {
      assert Add(Add(m, c), d) == Add(Add(m, d), c);
    }
  }

  lemma FirstIncreasesCommute(c: Contribution, d: Contribution)
    ensures Increase(Increase(Need(c.stock, 0, 0, map[]), c), d) == Increase(Increase(Need(d.stock, 0, 0, map[]), d), c)
  {
    assert Increase(Increase(Need(c.stock, 0, 0, map[]), c), d).byOrder
           == Increase(Increase(Need(d.stock, 0, 0, map[]), d), c).byOrder;
  }

  lemma {:induction false} AggregateWithout(cs: seq<Contribution>, i: nat)
    requires i < |cs|
    ensures Aggregate(cs) == Add(Aggregate(cs[..i] + cs[i + 1..]), cs[i])
    decreases |cs|
  {
    var last := |cs| - 1;
    var rest := cs[..i] + cs[i + 1..];
    if i < last {
      var front := cs[..last];
      var fewer := front[..i] + front[i + 1..];
      AggregateWithout(front, i);
      assert rest == fewer + [cs[last]];
      assert rest[..|fewer|] == fewer;
      AddsCommute(Aggregate(fewer), cs[i], cs[last]);
    } else {
      assert rest == cs[..last];
    }
  }

  lemma {:induction false} AggregateOfPermutation(a: seq<Contribution>, b: seq<Contribution>)
    requires multiset(a) == multiset(b)
    ensures Aggregate(a) == Aggregate(b)
    decreases |a|
  {
    if a == [] {
      assert |multiset(b)| == 0;
    } else {
      var last := |a| - 1;
      assert a[last] in multiset(b);
      var j :| 0 <= j < |b| && b[j] == a[last];
      RemovedFromBoth(a, last, b, j);
      assert a[..last] + a[last + 1..] == a[..last];
      AggregateWithout(b, j);
      AggregateOfPermutation(a[..last], b[..j] + b[j + 1..]);
    }
  }

  // ---------------------------------------------------------------- from annotated lines

  /** What one line of a visible order adds, once the service has said how much of it is to be produced. */
  function FromLine(o: OpenOrder, line: OrderLine, stocks: map<nat, int>, m: Allocated, offset: int -> int)
    : seq<Contribution>
  {
    var produce := Produced(m, o.id, line.article);
    if produce > 0 then
      [Contribution(line.article, DayKey(offset, o.due), StockOf(stocks, line.article), o.id, line.quantity, produce)]
    else []
  }

  function FromLines(o: OpenOrder, lines: seq<OrderLine>, stocks: map<nat, int>, m: Allocated, offset: int -> int)
    : seq<Contribution>
  {
    if lines == [] then []
    else
      FromLines(o, lines[..|lines| - 1], stocks, m, offset) + FromLine(o, lines[|lines| - 1], stocks, m, offset)
  }

  function Annotated(orders: seq<OpenOrder>, stocks: map<nat, int>, m: Allocated, offset: int -> int)
    : seq<Contribution>
  {
    if orders == [] then []
    else
      var last := orders[|orders| - 1];
      Annotated(orders[..|orders| - 1], stocks, m, offset) + FromOrder(last, stocks, m, offset)
  }

  function FromOrder(o: OpenOrder, stocks: map<nat, int>, m: Allocated, offset: int -> int): seq<Contribution> {
    if IsVisible(o.status) then FromLines(o, o.lines, stocks, m, offset) else []
  }

  lemma AggregateExtends(before: seq<Contribution>, some: seq<Contribution>, more: seq<Contribution>)
    requires |more| <= 1
    ensures Aggregate(before + (some + more))
            == if more == [] then Aggregate(before + some) else Add(Aggregate(before + some), more[0])
  {
    var all := before + (some + more);
    if more == [] {
      assert all == before + some;
    } else {
      assert all[..|all| - 1] == before + some && all[|all| - 1] == more[0];
    }
  }

  lemma NextLine(before: seq<Contribution>, o: OpenOrder, j: nat, stocks: map<nat, int>, m: Allocated,
                 offset: int -> int)
    requires j < |o.lines|
    ensures var so := Aggregate(before + FromLines(o, o.lines[..j], stocks, m, offset));
            var more := FromLine(o, o.lines[j], stocks, m, offset);
            Aggregate(before + FromLines(o, o.lines[..j + 1], stocks, m, offset))
            == if more == [] then so else Add(so, more[0])
  {
    assert o.lines[..j + 1][..j] == o.lines[..j];
    AggregateExtends(before, FromLines(o, o.lines[..j], stocks, m, offset), FromLine(o, o.lines[j], stocks, m, offset));
  }

  method GetExplicitProductionNeeds(orders: seq<OpenOrder>, stocks: map<nat, int>, m: Allocated, offset: int -> int)
    returns (needs: Needs)
    ensures needs == Aggregate(Annotated(orders, stocks, m, offset))
    ensures AreNeedsOf(needs, orders, stocks, OwedByService(m), offset)
  {
    needs := map[];
    for i := 0 to |orders|
      invariant needs == Aggregate(Annotated(orders[..i], stocks, m, offset))
    {
      assert orders[..i + 1][..i] == orders[..i];
      if IsVisible(orders[i].status) {
        needs := AddLines(orders[i], stocks, m, offset, Annotated(orders[..i], stocks, m, offset), needs);
      }
      ghost var so := Annotated(orders[..i], stocks, m, offset);
      assert Annotated(orders[..i + 1], stocks, m, offset) == so + FromOrder(orders[i], stocks, m, offset);
      assert so + [] == so;
    }
    assert orders[..|orders|] == orders;
    AnnotatedNeedsSay(orders, stocks, m, offset);
  }

  method AddLines(o: OpenOrder, stocks: map<nat, int>, m: Allocated, offset: int -> int,
                  ghost before: seq<Contribution>, needs: Needs) returns (r: Needs)
    requires needs == Aggregate(before)
    ensures r == Aggregate(before + FromLines(o, o.lines, stocks, m, offset))
  {
    r := needs;
    assert before + [] == before;
    for j := 0 to |o.lines|
      invariant r == Aggregate(before + FromLines(o, o.lines[..j], stocks, m, offset))
    {
      NextLine(before, o, j, stocks, m, offset);
      r := AddLine(o, o.lines[j], stocks, m, offset, r);
    }
    assert o.lines[..|o.lines|] == o.lines;
  }

  method AddLine(o: OpenOrder, line: OrderLine, stocks: map<nat, int>, m: Allocated, offset: int -> int, needs: Needs)
    returns (r: Needs)
    ensures var more := FromLine(o, line, stocks, m, offset);
            r == if more == [] then needs else Add(needs, more[0])
  {
    var produce := Produced(m, o.id, line.article);
    if produce <= 0 {
      return needs;
    }
    r := Add(needs, Contribution(line.article, DayKey(offset, o.due), StockOf(stocks, line.article), o.id,
                                 line.quantity, produce));
  }

  // ---------------------------------------------------------------- from scratch

  /** The back office compares due dates by day. */
  function ByDay(orders: seq<OpenOrder>, offset: int -> int): (r: seq<OpenOrder>)
    ensures |r| == |orders|
  {
    seq(|orders|, i requires 0 <= i < |orders| => orders[i].(due := DayKey(offset, orders[i].due)))
  }

  function FromDemand(all: seq<Demand>, stock: int, x: Demand): seq<Contribution> {
    if IsVisible(x.status) && ToProduce(all, stock, x) > 0 then
      [Contribution(x.article, x.due, stock, x.order, x.quantity, ToProduce(all, stock, x))]
    else []
  }

  /** What the demands `s` for one article add, when `all` are open. */
  function FromDemands(all: seq<Demand>, stock: int, s: seq<Demand>): seq<Contribution> {
    if s == [] then [] else FromDemands(all, stock, s[..|s| - 1]) + FromDemand(all, stock, s[|s| - 1])
  }

  function Recomputed(open: seq<OpenOrder>, stocks: map<nat, int>, articles: seq<nat>): seq<Contribution> {
    if articles == [] then []
    else
      Recomputed(open, stocks, articles[..|articles| - 1]) + FromArticle(open, stocks, articles[|articles| - 1])
  }

  function FromArticle(open: seq<OpenOrder>, stocks: map<nat, int>, article: nat): seq<Contribution> {
    FromDemands(Demands(open, article), StockOf(stocks, article), Sorted(Demands(open, article)))
  }

  /** The articles of the open lines, each once. */
  ghost predicate AreArticlesOf(articles: seq<nat>, open: seq<OpenOrder>) {
    && (forall i, j :: 0 <= i < j < |articles| ==> articles[i] != articles[j])
    && (forall a: nat :: a in articles <==> Demands(open, a) != [])
  }

  lemma NextDemand(before: seq<Contribution>, all: seq<Demand>, stock: int, s: seq<Demand>, k: nat)
    requires k < |s|
    ensures var so := Aggregate(before + FromDemands(all, stock, s[..k]));
            var more := FromDemand(all, stock, s[k]);
            Aggregate(before + FromDemands(all, stock, s[..k + 1])) == if more == [] then so else Add(so, more[0])
  {
    assert s[..k + 1][..k] == s[..k];
    AggregateExtends(before, FromDemands(all, stock, s[..k]), FromDemand(all, stock, s[k]));
  }

  method RecomputeArticle(stock: int, all: seq<Demand>, ghost before: seq<Contribution>, needs: Needs)
    returns (r: Needs)
    requires OneDemandPerOrder(all) && needs == Aggregate(before)
    ensures r == Aggregate(before + FromDemands(all, stock, Sorted(all)))
  {
    var total := TotalQuantity(all);
    var remaining := stock + total;
    var s := Sorted(all);
    SortedIsInDueOrder(all);
    r := needs;
    assert before + [] == before;
    for k := 0 to |s|
      invariant Max(0, remaining) == Max(0, stock + Open(all) - Open(s[..k]))
      invariant r == Aggregate(before + FromDemands(all, stock, s[..k]))
    {
      LeftAlongDueOrder(all, s, stock, k, remaining);
      assert s[..k + 1][..k] == s[..k];
      var line := s[k];
      var covered := Min(Max(0, remaining), line.quantity);
      var quantity := Max(0, line.quantity - covered);
      remaining := Max(0, remaining - line.quantity);
      NextDemand(before, all, stock, s, k);
      r := AddDemand(line, quantity, stock, all, r);
    }
    assert s[..|s|] == s;
  }

  method AddDemand(line: Demand, quantity: nat, stock: int, ghost all: seq<Demand>, needs: Needs) returns (r: Needs)
    requires quantity == ToProduce(all, stock, line)
    ensures var more := FromDemand(all, stock, line);
            r == if more == [] then needs else Add(needs, more[0])
  {
    if quantity <= 0 || !IsVisible(line.status) {
      return needs;
    }
    r := Add(needs, Contribution(line.article, line.due, stock, line.order, line.quantity, quantity));
  }

  /** The articles dealt with, and a set that holds the others. */
  ghost predicate AreSplit(articles: seq<nat>, left: set<nat>, open: seq<OpenOrder>) {
    && (forall i, j :: 0 <= i < j < |articles| ==> articles[i] != articles[j])
    && (forall a: nat :: a in articles ==> a !in left && Demands(open, a) != [])
    && (forall a: nat :: Demands(open, a) != [] ==> a in articles || a in left)
  }

  lemma SplitMoves(articles: seq<nat>, left: set<nat>, open: seq<OpenOrder>, article: nat)
    requires AreSplit(articles, left, open) && article in left
    ensures AreSplit(if Demands(open, article) == [] then articles else articles + [article], left - {article}, open)
  {
  }

  lemma OneMoreArticle(open: seq<OpenOrder>, stocks: map<nat, int>, articles: seq<nat>, article: nat)
    ensures var all := Demands(open, article);
            Recomputed(open, stocks, articles + [article])
            == Recomputed(open, stocks, articles) + FromDemands(all, StockOf(stocks, article), Sorted(all))
  {
    assert (articles + [article])[..|articles|] == articles;
  }

  lemma ByDayIsDistinct(orders: seq<OpenOrder>, offset: int -> int)
    requires IsDistinct(orders)
    ensures IsDistinct(ByDay(orders, offset))
  {
    var r := ByDay(orders, offset);
    forall i | 0 <= i < |r| ensures OneLinePerArticle(r[i].lines) {
      assert OneLinePerArticle(orders[i].lines);
    }
  }

  method GetProductionNeeds(orders: seq<OpenOrder>, stocks: map<nat, int>, offset: int -> int)
    returns (needs: Needs)
    requires IsDistinct(orders)
    ensures exists articles ::
              AreArticlesOf(articles, ByDay(orders, offset))
              && needs == Aggregate(Recomputed(ByDay(orders, offset), stocks, articles))
    ensures AreNeedsOf(needs, orders, stocks, OwedByDay(orders, stocks, offset), offset)
  {
    ghost var articles;
    var open := ByDay(orders, offset);
    ByDayIsDistinct(orders, offset);
    needs, articles := RecomputeArticles(open, stocks);
    RecomputedNeedsSay(orders, stocks, offset, articles);
  }

  lemma AllAreLeft(lines: map<nat, seq<Demand>>, open: seq<OpenOrder>)
    requires forall a: nat :: LinesAt(lines, a) == Demands(open, a)
    ensures AreSplit([], lines.Keys, open)
  {
    forall a: nat | Demands(open, a) != [] ensures a in lines {
      assert LinesAt(lines, a) != [];
    }
  }

  method RecomputeArticles(open: seq<OpenOrder>, stocks: map<nat, int>) returns (needs: Needs, ghost articles: seq<nat>)
    requires IsDistinct(open)
    ensures AreArticlesOf(articles, open) && needs == Aggregate(Recomputed(open, stocks, articles))
  {
    var lines := GroupOpenLines(open);
    var left := lines.Keys;
    needs, articles := map[], [];
    AllAreLeft(lines, open);
    while left != {}
      invariant left <= lines.Keys
      invariant AreSplit(articles, left, open)
      invariant needs == Aggregate(Recomputed(open, stocks, articles))
      decreases |left|
    {
      var article :| article in left;
      SplitMoves(articles, left, open, article);
      left := left - {article};
      var all := lines[article];
      assert all == LinesAt(lines, article);
      if all != [] {
        DemandsAreDistinct(open, article);
        needs := RecomputeArticle(StockOf(stocks, article), all, Recomputed(open, stocks, articles), needs);
        OneMoreArticle(open, stocks, articles, article);
        articles := articles + [article];
      }
    }
    assert AreArticlesOf(articles, open);
  }

  // ---------------------------------------------------------------- what contributions add up to

  function Producing(article: nat, day: Option<int>): Contribution -> int {
    (c: Contribution) => if c.article == article && c.day == day then c.produce else 0
  }

  function ProducingFor(article: nat, day: Option<int>, order: nat): Contribution -> int {
    (c: Contribution) => if c.article == article && c.day == day && c.order == order then c.produce else 0
  }

  function Ordering(article: nat, day: Option<int>): Contribution -> int {
    (c: Contribution) => if c.article == article && c.day == day then c.quantity else 0
  }

  /** Lines that add nothing are left out, and an article has one stock. */
  predicate AreWellStocked(cs: seq<Contribution>, stocks: map<nat, int>) {
    forall k :: 0 <= k < |cs| ==> cs[k].produce > 0 && cs[k].stock == StockOf(stocks, cs[k].article)
  }

  lemma {:induction false} AggregateSays(cs: seq<Contribution>, stocks: map<nat, int>, article: nat, day: Option<int>)
    requires AreWellStocked(cs, stocks)
    ensures Sum(cs, Producing(article, day)) >= 0
    ensures (article, day) in Aggregate(cs) <==> Sum(cs, Producing(article, day)) > 0
    ensures (article, day) in Aggregate(cs) ==>
              var need := Aggregate(cs)[(article, day)];
              && need.toProduce == Sum(cs, Producing(article, day))
              && need.ordered == Sum(cs, Ordering(article, day))
              && need.stock == StockOf(stocks, article)
    ensures (article, day) !in Aggregate(cs) ==> Sum(cs, Ordering(article, day)) == 0
    decreases |cs|
  {
    if cs != [] {
      AggregateSays(cs[..|cs| - 1], stocks, article, day);
    }
  }

  /** The stock of a need is the least its lines came with. */
  lemma {:induction false} LeastStockIsKept(cs: seq<Contribution>, article: nat, day: Option<int>)
    ensures (article, day) in Aggregate(cs) ==>
              var stock := Aggregate(cs)[(article, day)].stock;
              && (forall k :: 0 <= k < |cs| && cs[k].article == article && cs[k].day == day ==> stock <= cs[k].stock)
              && (exists k :: 0 <= k < |cs| && cs[k].article == article && cs[k].day == day && stock == cs[k].stock)
    ensures (article, day) !in Aggregate(cs) ==>
              forall k :: 0 <= k < |cs| ==> cs[k].article != article || cs[k].day != day
    decreases |cs|
  {
    if cs != [] {
      var front, last := cs[..|cs| - 1], cs[|cs| - 1];
      LeastStockIsKept(front, article, day);
      if (article, day) in Aggregate(cs) {
        var stock := Aggregate(cs)[(article, day)].stock;
        if last.article == article && last.day == day && stock == last.stock {
          assert cs[|cs| - 1].stock == stock;
        } else {
          var k :| 0 <= k < |front| && front[k].article == article && front[k].day == day && stock == front[k].stock;
          assert cs[k] == front[k];
        }
      }
    }
  }

  lemma {:induction false} AggregateSaysFor(cs: seq<Contribution>, stocks: map<nat, int>, article: nat,
                                            day: Option<int>, order: nat)
    requires AreWellStocked(cs, stocks)
    ensures Sum(cs, ProducingFor(article, day, order)) >= 0
    ensures if (article, day) in Aggregate(cs) then
              var byOrder := Aggregate(cs)[(article, day)].byOrder;
              && (order in byOrder <==> Sum(cs, ProducingFor(article, day, order)) > 0)
              && (order in byOrder ==> byOrder[order] == Sum(cs, ProducingFor(article, day, order)))
            else Sum(cs, ProducingFor(article, day, order)) == 0
    decreases |cs|
  {
    if cs != [] {
      AggregateSaysFor(cs[..|cs| - 1], stocks, article, day, order);
    }
  }

  // ---------------------------------------------------------------- what the needs say

  /** The line of an order to be prepared, due on this day, of this article, with something to produce. */
  predicate LineAdds(o: OpenOrder, line: OrderLine, owed: (OpenOrder, OrderLine) -> int, offset: int -> int,
                     article: nat, day: Option<int>)
  {
    && (o.status == PaiementAVerifier || o.status == Nouvelle || o.status == Preparee)
    && line.article == article && DayKey(offset, o.due) == day
    && owed(o, line) > 0
  }

  function OwedIfAdded(owed: (OpenOrder, OrderLine) -> int, offset: int -> int, article: nat, day: Option<int>)
    : (OpenOrder, OrderLine) -> int
  {
    (o: OpenOrder, line: OrderLine) => if LineAdds(o, line, owed, offset, article, day) then owed(o, line) else 0
  }

  function OwedTo(owed: (OpenOrder, OrderLine) -> int, offset: int -> int, article: nat, day: Option<int>, order: nat)
    : (OpenOrder, OrderLine) -> int
  {
    (o: OpenOrder, line: OrderLine) =>
      if o.id == order && LineAdds(o, line, owed, offset, article, day) then owed(o, line) else 0
  }

  function OrderedIfAdded(owed: (OpenOrder, OrderLine) -> int, offset: int -> int, article: nat, day: Option<int>)
    : (OpenOrder, OrderLine) -> int
  {
    (o: OpenOrder, line: OrderLine) => if LineAdds(o, line, owed, offset, article, day) then line.quantity else 0
  }

  ghost predicate SomeLineAdds(orders: seq<OpenOrder>, owed: (OpenOrder, OrderLine) -> int, offset: int -> int,
                               article: nat, day: Option<int>)
  {
    exists i, j :: 0 <= i < |orders| && 0 <= j < |orders[i].lines|
                   && LineAdds(orders[i], orders[i].lines[j], owed, offset, article, day)
  }

  /** The need of an article and day exists when some line adds to it. It then adds up what those lines are owed, in all
      and by order, and what they ordered, next to the article's stock. */
  ghost predicate NeedSays(needs: Needs, orders: seq<OpenOrder>, stocks: map<nat, int>,
                           owed: (OpenOrder, OrderLine) -> int, offset: int -> int, article: nat, day: Option<int>)
  {
    && ((article, day) in needs <==> SomeLineAdds(orders, owed, offset, article, day))
    && ((article, day) in needs ==>
          var need := needs[(article, day)];
          && need.toProduce == OverOrders(orders, OwedIfAdded(owed, offset, article, day))
          && need.ordered == OverOrders(orders, OrderedIfAdded(owed, offset, article, day))
          && need.stock == (if article in stocks then stocks[article] else 0)
          && forall order: nat ::
               var part := OverOrders(orders, OwedTo(owed, offset, article, day, order));
               (order in need.byOrder <==> part > 0) && (order in need.byOrder ==> need.byOrder[order] == part))
  }

  ghost predicate AreNeedsOf(needs: Needs, orders: seq<OpenOrder>, stocks: map<nat, int>,
                             owed: (OpenOrder, OrderLine) -> int, offset: int -> int)
  {
    forall article, day :: NeedSays(needs, orders, stocks, owed, offset, article, day)
  }

  /** Contributions that add up, whatever is added up of them, to what the lines do. */
  lemma AggregateSaysLines(cs: seq<Contribution>, orders: seq<OpenOrder>, stocks: map<nat, int>,
                           owed: (OpenOrder, OrderLine) -> int, offset: int -> int, article: nat, day: Option<int>)
    requires AreWellStocked(cs, stocks)
    requires Sum(cs, Producing(article, day)) == OverOrders(orders, OwedIfAdded(owed, offset, article, day))
    requires Sum(cs, Ordering(article, day)) == OverOrders(orders, OrderedIfAdded(owed, offset, article, day))
    requires forall order: nat ::
               Sum(cs, ProducingFor(article, day, order))
               == OverOrders(orders, OwedTo(owed, offset, article, day, order))
    ensures NeedSays(Aggregate(cs), orders, stocks, owed, offset, article, day)
  {
    var g := OwedIfAdded(owed, offset, article, day);
    AggregateSays(cs, stocks, article, day);
    PositiveOverOrders(orders, g);
    if SomeLineAdds(orders, owed, offset, article, day) {
      var i, j :| 0 <= i < |orders| && 0 <= j < |orders[i].lines|
                  && LineAdds(orders[i], orders[i].lines[j], owed, offset, article, day);
      assert g(orders[i], orders[i].lines[j]) > 0;
    }
    forall order: nat
      ensures (article, day) in Aggregate(cs) ==>
                var byOrder := Aggregate(cs)[(article, day)].byOrder;
                var part := OverOrders(orders, OwedTo(owed, offset, article, day, order));
                (order in byOrder <==> part > 0) && (order in byOrder ==> byOrder[order] == part)
    {
      AggregateSaysFor(cs, stocks, article, day, order);
    }
  }

  // ---------------------------------------------------------------- what the annotated needs say

  function OwedByService(m: Allocated): (OpenOrder, OrderLine) -> int {
    (o: OpenOrder, line: OrderLine) => Produced(m, o.id, line.article)
  }

  lemma {:induction false} LinesSumUp(o: OpenOrder, lines: seq<OrderLine>, stocks: map<nat, int>, m: Allocated,
                                      offset: int -> int, f: Contribution -> int, g: (OpenOrder, OrderLine) -> int)
    requires forall line :: g(o, line) == Sum(FromLine(o, line, stocks, m, offset), f)
    ensures Sum(FromLines(o, lines, stocks, m, offset), f) == OverLines(o, lines, g)
    decreases |lines|
  {
    if lines != [] {
      var front, last := lines[..|lines| - 1], lines[|lines| - 1];
      LinesSumUp(o, front, stocks, m, offset, f, g);
      SumOfBoth(FromLines(o, front, stocks, m, offset), FromLine(o, last, stocks, m, offset), f);
    }
  }

  lemma {:induction false} AnnotatedSumsUp(orders: seq<OpenOrder>, stocks: map<nat, int>, m: Allocated,
                                           offset: int -> int, f: Contribution -> int,
                                           g: (OpenOrder, OrderLine) -> int)
    requires forall o, line ::
               g(o, line) == if IsVisible(o.status) then Sum(FromLine(o, line, stocks, m, offset), f) else 0
    ensures Sum(Annotated(orders, stocks, m, offset), f) == OverOrders(orders, g)
    decreases |orders|
  {
    if orders != [] {
      var front, last := orders[..|orders| - 1], orders[|orders| - 1];
      AnnotatedSumsUp(front, stocks, m, offset, f, g);
      SumOfBoth(Annotated(front, stocks, m, offset), FromOrder(last, stocks, m, offset), f);
      if IsVisible(last.status) {
        LinesSumUp(last, last.lines, stocks, m, offset, f, g);
      } else {
        HiddenLinesAddNothing(last, last.lines, g);
      }
    }
  }

  lemma {:induction false} LinesAreWellStocked(o: OpenOrder, lines: seq<OrderLine>, stocks: map<nat, int>,
                                               m: Allocated, offset: int -> int)
    ensures AreWellStocked(FromLines(o, lines, stocks, m, offset), stocks)
    decreases |lines|
  {
    if lines != [] {
      LinesAreWellStocked(o, lines[..|lines| - 1], stocks, m, offset);
    }
  }

  lemma {:induction false} AnnotatedAreWellStocked(orders: seq<OpenOrder>, stocks: map<nat, int>, m: Allocated,
                                                   offset: int -> int)
    ensures AreWellStocked(Annotated(orders, stocks, m, offset), stocks)
    decreases |orders|
  {
    if orders != [] {
      var last := orders[|orders| - 1];
      AnnotatedAreWellStocked(orders[..|orders| - 1], stocks, m, offset);
      LinesAreWellStocked(last, last.lines, stocks, m, offset);
    }
  }

  lemma LineSumsUp(o: OpenOrder, line: OrderLine, stocks: map<nat, int>, m: Allocated, offset: int -> int,
                   f: Contribution -> int)
    ensures var produce := Produced(m, o.id, line.article);
            Sum(FromLine(o, line, stocks, m, offset), f)
            == if produce > 0 then
                 f(Contribution(line.article, DayKey(offset, o.due), StockOf(stocks, line.article), o.id,
                                line.quantity, produce))
               else 0
  {
    SumOfSingle(FromLine(o, line, stocks, m, offset), f);
  }

  /** What is added up of the annotated contributions is added up of the lines. */
  lemma AnnotatedOverOrders(orders: seq<OpenOrder>, stocks: map<nat, int>, m: Allocated, offset: int -> int,
                            f: Contribution -> int, g: (OpenOrder, OrderLine) -> int)
    requires forall o: OpenOrder, line: OrderLine ::
               var produce := Produced(m, o.id, line.article);
               g(o, line) ==
               if IsVisible(o.status) && produce > 0 then
                 f(Contribution(line.article, DayKey(offset, o.due), StockOf(stocks, line.article), o.id,
                                line.quantity, produce))
               else 0
    ensures Sum(Annotated(orders, stocks, m, offset), f) == OverOrders(orders, g)
  {
    forall o: OpenOrder, line: OrderLine
      ensures g(o, line) == if IsVisible(o.status) then Sum(FromLine(o, line, stocks, m, offset), f) else 0
    {
      LineSumsUp(o, line, stocks, m, offset, f);
    }
    AnnotatedSumsUp(orders, stocks, m, offset, f, g);
  }

  lemma AddedByService(m: Allocated, stocks: map<nat, int>, offset: int -> int, article: nat, day: Option<int>,
                       order: nat, o: OpenOrder, line: OrderLine)
    ensures var owed, produce := OwedByService(m), Produced(m, o.id, line.article);
            var c := Contribution(line.article, DayKey(offset, o.due), StockOf(stocks, line.article), o.id,
                                  line.quantity, produce);
            var adds := IsVisible(o.status) && produce > 0;
            && OwedIfAdded(owed, offset, article, day)(o, line) == (if adds then Producing(article, day)(c) else 0)
            && OrderedIfAdded(owed, offset, article, day)(o, line) == (if adds then Ordering(article, day)(c) else 0)
            && OwedTo(owed, offset, article, day, order)(o, line)
               == (if adds then ProducingFor(article, day, order)(c) else 0)
  {
    assert OwedByService(m)(o, line) == Produced(m, o.id, line.article);
  }

  lemma AnnotatedSumsSay(orders: seq<OpenOrder>, stocks: map<nat, int>, m: Allocated, offset: int -> int,
                         article: nat, day: Option<int>, order: nat)
    ensures var cs, owed := Annotated(orders, stocks, m, offset), OwedByService(m);
            && Sum(cs, Producing(article, day)) == OverOrders(orders, OwedIfAdded(owed, offset, article, day))
            && Sum(cs, Ordering(article, day)) == OverOrders(orders, OrderedIfAdded(owed, offset, article, day))
            && Sum(cs, ProducingFor(article, day, order))
               == OverOrders(orders, OwedTo(owed, offset, article, day, order))
  {
    var owed := OwedByService(m);
    forall o: OpenOrder, line: OrderLine
      ensures var produce := Produced(m, o.id, line.article);
              var c := Contribution(line.article, DayKey(offset, o.due), StockOf(stocks, line.article), o.id,
                                    line.quantity, produce);
              var adds := IsVisible(o.status) && produce > 0;
              && OwedIfAdded(owed, offset, article, day)(o, line) == (if adds then Producing(article, day)(c) else 0)
              && OrderedIfAdded(owed, offset, article, day)(o, line) == (if adds then Ordering(article, day)(c) else 0)
              && OwedTo(owed, offset, article, day, order)(o, line)
                 == (if adds then ProducingFor(article, day, order)(c) else 0)
    {
      AddedByService(m, stocks, offset, article, day, order, o, line);
    }
    AnnotatedOverOrders(orders, stocks, m, offset, Producing(article, day), OwedIfAdded(owed, offset, article, day));
    AnnotatedOverOrders(orders, stocks, m, offset, Ordering(article, day), OrderedIfAdded(owed, offset, article, day));
    AnnotatedOverOrders(orders, stocks, m, offset, ProducingFor(article, day, order),
                        OwedTo(owed, offset, article, day, order));
  }

  /** The needs aggregated from annotated lines say what the service owes. */
  lemma AnnotatedNeedsSay(orders: seq<OpenOrder>, stocks: map<nat, int>, m: Allocated, offset: int -> int)
    ensures AreNeedsOf(Aggregate(Annotated(orders, stocks, m, offset)), orders, stocks, OwedByService(m), offset)
  {
    var cs, owed := Annotated(orders, stocks, m, offset), OwedByService(m);
    AnnotatedAreWellStocked(orders, stocks, m, offset);
    forall article, day ensures NeedSays(Aggregate(cs), orders, stocks, owed, offset, article, day) {
      AnnotatedSumsSay(orders, stocks, m, offset, article, day, 0);
      forall order: nat
        ensures Sum(cs, ProducingFor(article, day, order))
                == OverOrders(orders, OwedTo(owed, offset, article, day, order))
      {
        AnnotatedSumsSay(orders, stocks, m, offset, article, day, order);
      }
      AggregateSaysLines(cs, orders, stocks, owed, offset, article, day);
    }
  }

  // ---------------------------------------------------------------- what the recomputed needs say

  /** What a line is owed when due dates are compared by day. */
  function OwedByDay(orders: seq<OpenOrder>, stocks: map<nat, int>, offset: int -> int): (OpenOrder, OrderLine) -> int {
    (o: OpenOrder, line: OrderLine) =>
      ToProduce(Demands(ByDay(orders, offset), line.article), StockOf(stocks, line.article),
                DemandOf(o.(due := DayKey(offset, o.due)), line))
  }

  function PartOf(all: seq<Demand>, stock: int, f: Contribution -> int): Demand -> int {
    (x: Demand) =>
      if IsVisible(x.status) && ToProduce(all, stock, x) > 0
      then f(Contribution(x.article, x.due, stock, x.order, x.quantity, ToProduce(all, stock, x))) else 0
  }

  lemma {:induction false} DemandsSumUp(all: seq<Demand>, stock: int, s: seq<Demand>, f: Contribution -> int)
    ensures Sum(FromDemands(all, stock, s), f) == Sum(s, PartOf(all, stock, f))
    decreases |s|
  {
    if s != [] {
      var front, last := s[..|s| - 1], s[|s| - 1];
      DemandsSumUp(all, stock, front, f);
      SumOfBoth(FromDemands(all, stock, front), FromDemand(all, stock, last), f);
      SumOfSingle(FromDemand(all, stock, last), f);
    }
  }

  lemma {:induction false} NothingSumsUp(s: seq<Demand>, f: Demand -> int)
    requires forall k :: 0 <= k < |s| ==> f(s[k]) == 0
    ensures Sum(s, f) == 0
    decreases |s|
  {
    if s != [] {
      NothingSumsUp(s[..|s| - 1], f);
    }
  }

  /** Only contributions of one article count. */
  ghost predicate IsOfArticle(f: Contribution -> int, article: nat) {
    forall c: Contribution :: c.article != article ==> f(c) == 0
  }

  lemma ArticleSumsUp(open: seq<OpenOrder>, stocks: map<nat, int>, article: nat, a: nat, f: Contribution -> int)
    requires IsDistinct(open) && IsOfArticle(f, a)
    ensures var all := Demands(open, a);
            Sum(FromArticle(open, stocks, article), f)
            == if article == a then Sum(all, PartOf(all, StockOf(stocks, a), f)) else 0
  {
    var ds, stock := Demands(open, article), StockOf(stocks, article);
    DemandsSumUp(ds, stock, Sorted(ds), f);
    SumOfPermutation(Sorted(ds), ds, PartOf(ds, stock, f));
    if article != a {
      DemandsAreDistinct(open, article);
      forall k | 0 <= k < |ds| ensures PartOf(ds, stock, f)(ds[k]) == 0 {
        assert ds[k] in ds;
      }
      NothingSumsUp(ds, PartOf(ds, stock, f));
    }
  }

  lemma {:induction false} RecomputedSumsUp(open: seq<OpenOrder>, stocks: map<nat, int>, articles: seq<nat>, a: nat,
                                            f: Contribution -> int)
    requires IsDistinct(open) && IsOfArticle(f, a)
    requires forall i, j :: 0 <= i < j < |articles| ==> articles[i] != articles[j]
    ensures var all := Demands(open, a);
            Sum(Recomputed(open, stocks, articles), f)
            == if a in articles then Sum(all, PartOf(all, StockOf(stocks, a), f)) else 0
    decreases |articles|
  {
    if articles != [] {
      var front, last := articles[..|articles| - 1], articles[|articles| - 1];
      RecomputedSumsUp(open, stocks, front, a, f);
      ArticleSumsUp(open, stocks, last, a, f);
      SumOfBoth(Recomputed(open, stocks, front), FromArticle(open, stocks, last), f);
      assert last !in front;
    }
  }

  lemma {:induction false} DemandsAreWellStocked(all: seq<Demand>, stocks: map<nat, int>, article: nat, s: seq<Demand>)
    requires forall x :: x in s ==> x.article == article
    ensures AreWellStocked(FromDemands(all, StockOf(stocks, article), s), stocks)
    decreases |s|
  {
    if s != [] {
      DemandsAreWellStocked(all, stocks, article, s[..|s| - 1]);
      assert s[|s| - 1] in s;
    }
  }

  lemma {:induction false} RecomputedAreWellStocked(open: seq<OpenOrder>, stocks: map<nat, int>, articles: seq<nat>)
    requires IsDistinct(open)
    ensures AreWellStocked(Recomputed(open, stocks, articles), stocks)
    decreases |articles|
  {
    if articles != [] {
      var article := articles[|articles| - 1];
      var ds := Demands(open, article);
      RecomputedAreWellStocked(open, stocks, articles[..|articles| - 1]);
      DemandsAreDistinct(open, article);
      forall x | x in Sorted(ds) ensures x.article == article {
        assert x in multiset(Sorted(ds));
        assert x in ds;
      }
      DemandsAreWellStocked(ds, stocks, article, Sorted(ds));
    }
  }

  /** What is added up of the recomputed contributions of an article is added up of its lines. */
  lemma RecomputedOverOrders(orders: seq<OpenOrder>, stocks: map<nat, int>, offset: int -> int, articles: seq<nat>,
                             a: nat, f: Contribution -> int, g: (OpenOrder, OrderLine) -> int)
    requires IsDistinct(orders) && AreArticlesOf(articles, ByDay(orders, offset)) && IsOfArticle(f, a)
    requires forall o: OpenOrder, line: OrderLine ::
               var produce := OwedByDay(orders, stocks, offset)(o, line);
               g(o, line) ==
               if IsVisible(o.status) && line.article == a && produce > 0 then
                 f(Contribution(a, DayKey(offset, o.due), StockOf(stocks, a), o.id, line.quantity, produce))
               else 0
    ensures Sum(Recomputed(ByDay(orders, offset), stocks, articles), f) == OverOrders(orders, g)
  {
    var open := ByDay(orders, offset);
    var all := Demands(open, a);
    var h := PartOf(all, StockOf(stocks, a), f);
    ByDayIsDistinct(orders, offset);
    RecomputedSumsUp(open, stocks, articles, a, f);
    DemandsOverOrders(open, a, h);
    forall i, j | 0 <= i < |orders| && 0 <= j < |orders[i].lines|
      ensures g(orders[i], orders[i].lines[j]) == IfDemanded(a, h)(open[i], orders[i].lines[j])
    {
      assert open[i] == orders[i].(due := DayKey(offset, orders[i].due));
      LineByDay(orders, stocks, offset, a, f, orders[i], orders[i].lines[j]);
    }
    SameOverOrders(orders, open, g, IfDemanded(a, h));
    NoDemandNoSum(open, articles, a, h);
  }

  lemma NoDemandNoSum(open: seq<OpenOrder>, articles: seq<nat>, a: nat, h: Demand -> int)
    requires AreArticlesOf(articles, open)
    ensures a !in articles ==> Sum(Demands(open, a), h) == 0
  {
  }

  lemma LineByDay(orders: seq<OpenOrder>, stocks: map<nat, int>, offset: int -> int, a: nat, f: Contribution -> int,
                  o: OpenOrder, line: OrderLine)
    ensures var all := Demands(ByDay(orders, offset), a);
            var produce := OwedByDay(orders, stocks, offset)(o, line);
            IfDemanded(a, PartOf(all, StockOf(stocks, a), f))(o.(due := DayKey(offset, o.due)), line)
            == if IsVisible(o.status) && line.article == a && produce > 0 then
                 f(Contribution(a, DayKey(offset, o.due), StockOf(stocks, a), o.id, line.quantity, produce))
               else 0
  {
    var all := Demands(ByDay(orders, offset), a);
    var h := PartOf(all, StockOf(stocks, a), f);
    var p := o.(due := DayKey(offset, o.due));
    var x := DemandOf(p, line);
    assert IfDemanded(a, h)(p, line) == if IsAllocated(p.status) && line.article == a then h(x) else 0;
    if line.article == a {
      var produce := ToProduce(all, StockOf(stocks, a), x);
      assert OwedByDay(orders, stocks, offset)(o, line) == produce;
      assert h(x) == if IsVisible(x.status) && produce > 0
                     then f(Contribution(x.article, x.due, StockOf(stocks, a), x.order, x.quantity, produce)) else 0;
    }
  }

  /** The recomputed needs say what is owed by days. */
  lemma RecomputedNeedsSay(orders: seq<OpenOrder>, stocks: map<nat, int>, offset: int -> int, articles: seq<nat>)
    requires IsDistinct(orders) && AreArticlesOf(articles, ByDay(orders, offset))
    ensures AreNeedsOf(Aggregate(Recomputed(ByDay(orders, offset), stocks, articles)), orders, stocks,
                       OwedByDay(orders, stocks, offset), offset)
  {
    var cs, owed := Recomputed(ByDay(orders, offset), stocks, articles), OwedByDay(orders, stocks, offset);
    ByDayIsDistinct(orders, offset);
    RecomputedAreWellStocked(ByDay(orders, offset), stocks, articles);
    forall article, day
      ensures NeedSays(Aggregate(cs), orders, stocks, owed, offset, article, day)
    {
      RecomputedOverOrders(orders, stocks, offset, articles, article, Producing(article, day),
                           OwedIfAdded(owed, offset, article, day));
      RecomputedOverOrders(orders, stocks, offset, articles, article, Ordering(article, day),
                           OrderedIfAdded(owed, offset, article, day));
      forall order: nat
        ensures Sum(cs, ProducingFor(article, day, order))
                == OverOrders(orders, OwedTo(owed, offset, article, day, order))
      {
        RecomputedOverOrders(orders, stocks, offset, articles, article, ProducingFor(article, day, order),
                             OwedTo(owed, offset, article, day, order));
      }
      AggregateSaysLines(cs, orders, stocks, owed, offset, article, day);
    }
  }
}
