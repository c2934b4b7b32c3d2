/** What sales and productions take from the lots: every line and every ingredient as if it were alone. */
module Draws {
  import opened Wrappers
  import opened Orders
  import opened Lots
  import opened Requests
  import opened Capacity
  import opened Ledger
  import opened Transactions

  // ---------------------------------------------------------------- withdrawals in a row

  datatype Draw = Draw(item: Item, quantity: real, kind: Kind)

  /** The states a transaction goes through, withdrawal after withdrawal. */
  ghost predicate IsTraceOf(trace: seq<State>, draws: seq<Draw>, today: int) {
    && |trace| == |draws| + 1
    && forall i :: 0 <= i < |draws| ==>
         && draws[i].item in trace[i].stock && draws[i].quantity >= 0.0
         && trace[i + 1] == Withdraw(trace[i], draws[i].item, draws[i].quantity, draws[i].kind, today)
  }

  predicate AreDistinct(draws: seq<Draw>) {
    forall i, j :: 0 <= i < j < |draws| ==> draws[i].item != draws[j].item
  }

  ghost predicate SameItems(a: seq<Lot>, b: seq<Lot>) {
    |a| == |b| && forall l: LotId :: l < |a| ==> b[l].item == a[l].item
  }

  lemma TraceGrows(trace: seq<State>, draws: seq<Draw>, today: int, draw: Draw, last: State)
    requires IsTraceOf(trace, draws, today)
    requires draw.item in trace[|draws|].stock && draw.quantity >= 0.0
    requires last == Withdraw(trace[|draws|], draw.item, draw.quantity, draw.kind, today)
    ensures IsTraceOf(trace + [last], draws + [draw], today)
  {
  }

  lemma OneDraw(s: State, draw: Draw, today: int, other: Item)
    requires draw.item in s.stock && draw.quantity >= 0.0
    ensures var r := Withdraw(s, draw.item, draw.quantity, draw.kind, today);
            && SameItems(s.lots, r.lots)
            && (other != draw.item ==> SameLots(s.lots, r.lots, other, |s.lots|))
            && IsDrawn(s.lots, r.lots, draw.item, draw.quantity, today)
            && r.movements == s.movements + [Movement(draw.item, -draw.quantity, draw.kind, None)]
  {
    WithdrawIsExact(s, draw.item, draw.quantity, draw.kind, today);
  }

  lemma {:induction false} TraceKeepsItems(trace: seq<State>, draws: seq<Draw>, today: int, n: nat)
    requires IsTraceOf(trace, draws, today) && n <= |draws|
    ensures SameItems(trace[0].lots, trace[n].lots)
  {
    if n > 0 {
      TraceKeepsItems(trace, draws, today, n - 1);
      OneDraw(trace[n - 1], draws[n - 1], today, draws[n - 1].item);
    }
  }

  lemma {:induction false} TraceLeavesItem(trace: seq<State>, draws: seq<Draw>, today: int, n: nat, item: Item)
    requires IsTraceOf(trace, draws, today) && n <= |draws| && forall k :: 0 <= k < n ==> draws[k].item != item
    ensures |trace[n].lots| == |trace[0].lots| && SameLots(trace[0].lots, trace[n].lots, item, |trace[0].lots|)
  {
    if n > 0 {
      TraceLeavesItem(trace, draws, today, n - 1, item);
      OneDraw(trace[n - 1], draws[n - 1], today, item);
    }
  }

  /** Withdrawals of different items do not disturb each other. */
  lemma {:induction false} TraceDraws(trace: seq<State>, draws: seq<Draw>, today: int, n: nat, k: nat)
    requires IsTraceOf(trace, draws, today) && AreDistinct(draws) && k < n <= |draws|
    ensures IsDrawn(trace[0].lots, trace[n].lots, draws[k].item, draws[k].quantity, today)
  {
    TraceKeepsItems(trace, draws, today, n - 1);
    TraceKeepsItems(trace, draws, today, n);
    OneDraw(trace[n - 1], draws[n - 1], today, draws[k].item);
    if k < n - 1 {
      TraceDraws(trace, draws, today, n - 1, k);
      DrawnInContext(trace[0].lots, trace[n - 1].lots, trace[0].lots, trace[n].lots, draws[k].item, draws[k].quantity,
                     today);
    } else {
      TraceLeavesItem(trace, draws, today, n - 1, draws[k].item);
      DrawnInContext(trace[n - 1].lots, trace[n].lots, trace[0].lots, trace[n].lots, draws[k].item,
                     draws[k].quantity, today);
    }
  }

  function Recorded(draw: Draw): Movement {
    Movement(draw.item, -draw.quantity, draw.kind, None)
  }

  function AllRecorded(draws: seq<Draw>): (r: seq<Movement>)
    ensures |r| == |draws|
  {
    seq(|draws|, k requires 0 <= k < |draws| => Recorded(draws[k]))
  }

  /** Each withdrawal leaves its movement, in order. */
  lemma {:induction false} TraceIsRecorded(trace: seq<State>, draws: seq<Draw>, today: int, n: nat)
    requires IsTraceOf(trace, draws, today) && n <= |draws|
    ensures trace[n].movements == trace[0].movements + AllRecorded(draws[..n])
  {
    if n > 0 {
      TraceIsRecorded(trace, draws, today, n - 1);
      OneDraw(trace[n - 1], draws[n - 1], today, draws[n - 1].item);
      assert AllRecorded(draws[..n]) == AllRecorded(draws[..n - 1]) + [Recorded(draws[n - 1])];
    }
  }

  ghost predicate AreDrawn(before: seq<Lot>, after: seq<Lot>, draws: seq<Draw>, today: int) {
    forall k :: 0 <= k < |draws| ==> IsDrawn(before, after, draws[k].item, draws[k].quantity, today)
  }

  lemma TraceTells(trace: seq<State>, draws: seq<Draw>, today: int)
    requires IsTraceOf(trace, draws, today) && AreDistinct(draws)
    ensures SameItems(trace[0].lots, trace[|draws|].lots)
    ensures AreDrawn(trace[0].lots, trace[|draws|].lots, draws, today)
    ensures trace[|draws|].movements == trace[0].movements + AllRecorded(draws)
  {
    TraceKeepsItems(trace, draws, today, |draws|);
    TraceIsRecorded(trace, draws, today, |draws|);
    assert draws[..|draws|] == draws;
    forall k | 0 <= k < |draws|
      ensures IsDrawn(trace[0].lots, trace[|draws|].lots, draws[k].item, draws[k].quantity, today)
    {
      TraceDraws(trace, draws, today, |draws|, k);
    }
  }

  // ---------------------------------------------------------------- sales

  function SaleDraw(line: Line): Draw {
    Draw(Article(line.article), line.quantity as real, Vente)
  }

  function SaleDraws(lines: seq<Line>): (r: seq<Draw>)
    ensures |r| == |lines|
  {
    seq(|lines|, k requires 0 <= k < |lines| => SaleDraw(lines[k]))
  }

  lemma {:induction false} SaleTrace(s: State, lines: seq<Line>, today: int, all: seq<Line>) returns (trace: seq<State>)
    requires lines <= all && KnownArticles(s, all)
    ensures IsTraceOf(trace, SaleDraws(lines), today)
    ensures trace[0] == s && trace[|lines|] == SellUpTo(s, all, |lines|, today)
    decreases |lines|
  {
    if lines == [] {
      trace := [s];
    } else {
      var n := |lines| - 1;
      var earlier := SaleTrace(s, lines[..n], today, all);
      var last := SellUpTo(s, all, n + 1, today);
      TraceGrows(earlier, SaleDraws(lines[..n]), today, SaleDraw(lines[n]), last);
      assert SaleDraws(lines) == SaleDraws(lines[..n]) + [SaleDraw(lines[n])];
      trace := earlier + [last];
    }
  }

  /** An accepted sale draws for each line on the lots of its article, first expired first, as far as they reach, and
      leaves its movements in the order of the lines. */
  lemma SaleDrawsExactly(s: State, requests: seq<Request>, today: int)
    requires CanSell(s, requests, today)
    ensures var r, draws := Sell(s, requests, today), SaleDraws(Aggregate(requests));
            && |r.lots| == |s.lots|
            && AreDrawn(s.lots, r.lots, draws, today)
            && r.movements == s.movements + AllRecorded(draws)
  {
    var lines := Aggregate(requests);
    var trace := SaleTrace(s, lines, today, lines);
    AggregateGathers(requests);
    TraceTells(trace, SaleDraws(lines), today);
  }

  // ---------------------------------------------------------------- productions

  function IngredientDraw(ingredient: Ingredient, count: nat): Draw {
    Draw(Matiere(ingredient.mp), ingredient.quantity * count as real, Production)
  }

  function RecipeDraws(recipe: seq<Ingredient>, count: nat): (r: seq<Draw>)
    ensures |r| == |recipe|
  {
    seq(|recipe|, k requires 0 <= k < |recipe| => IngredientDraw(recipe[k], count))
  }

  lemma {:induction false} ProductionTrace(s: State, recipe: seq<Ingredient>, count: nat, today: int,
                                           all: seq<Ingredient>)
    returns (trace: seq<State>)
    requires recipe <= all && Known(s.stock, all)
    requires forall i :: 0 <= i < |all| ==> all[i].quantity >= 0.0
    ensures IsTraceOf(trace, RecipeDraws(recipe, count), today)
    ensures trace[0] == s && trace[|recipe|] == ConsumeUpTo(s, all, count, |recipe|, today)
    decreases |recipe|
  {
    if recipe == [] {
      trace := [s];
    } else {
      var n := |recipe| - 1;
      var earlier := ProductionTrace(s, recipe[..n], count, today, all);
      var last := ConsumeUpTo(s, all, count, n + 1, today);
      NeedsAreNotNegative(recipe[n], count);
      TraceGrows(earlier, RecipeDraws(recipe[..n], count), today, IngredientDraw(recipe[n], count), last);
      assert RecipeDraws(recipe, count) == RecipeDraws(recipe[..n], count) + [IngredientDraw(recipe[n], count)];
      trace := earlier + [last];
    }
  }

  lemma NeedsAreNotNegative(ingredient: Ingredient, count: nat)
    requires ingredient.quantity >= 0.0
    ensures Need(ingredient, count) == ingredient.quantity * count as real >= 0.0
  {
  }

  lemma DepositKeepsDrawn(before: seq<Lot>, after: seq<Lot>, more: seq<Lot>, draws: seq<Draw>, today: int)
    requires |before| == |after| && SameItems(before, after) && AreDrawn(before, after, draws, today)
    ensures AreDrawn(before, after + more, draws, today)
  {
    forall k | 0 <= k < |draws| ensures IsDrawn(before, after + more, draws[k].item, draws[k].quantity, today) {
      DrawnInContext(before, after, before, after + more, draws[k].item, draws[k].quantity, today);
    }
  }

  /** An accepted production draws on the lots of each raw material for what the recipe asks of it; what is produced
      goes to a lot of its own if it is dated. */
  lemma ProductionDrawsExactly(s: State, article: nat, recipe: seq<Ingredient>, count: nat, expiresAt: Option<int>,
                               now: int, today: int)
    requires MayProduce(s, article, recipe, count, today)
    ensures var r, draws := Produce(s, article, recipe, count, expiresAt, now, today), RecipeDraws(recipe, count);
            && AreDrawn(s.lots, r.lots, draws, today)
            && |s.lots| <= |r.lots|
            && r.lots[|s.lots|..] ==
               (if expiresAt.None? then []
                else [Lot(Article(article), count as real, count as real, expiresAt, now)])
            && r.movements ==
               s.movements + AllRecorded(draws) + [Movement(Article(article), count as real, Production, None)]
  {
    var trace := ProductionTrace(s, recipe, count, today, recipe);
    var consumed := ConsumeUpTo(s, recipe, count, |recipe|, today);
    var more :=
      if expiresAt.Some? then [Lot(Article(article), count as real, count as real, expiresAt, now)] else [];
    TraceTells(trace, RecipeDraws(recipe, count), today);
    DepositIsExact(consumed, Article(article), count as real, Production, expiresAt, now);
    DepositKeepsDrawn(s.lots, consumed.lots, more, RecipeDraws(recipe, count), today);
    assert consumed.lots + [] == consumed.lots;
    assert Produce(s, article, recipe, count, expiresAt, now, today).lots == consumed.lots + more;
  }
}
