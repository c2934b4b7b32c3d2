/** The rows that stock movements, lots and order reservations share, what each transaction does to them,
    and the accounts every transaction keeps. */
module Ledger {
  import opened Wrappers
  import opened Orders
  import opened Lots
  import Requests

  datatype Kind = Vente | Production | Reception | Ajustement | Perte | ForOrder

  /** Only the delta of a movement is kept; an order movement names its order, as its reference does. */
  datatype Movement = Movement(item: Item, delta: real, kind: Kind, order: Option<nat>)

  /** How much of a lot feeds an order line. */
  datatype Allocation = Allocation(order: nat, line: nat, lot: LotId, quantity: real, restored: bool)

  /** Orders, lots and allocations are identified by their position. `taken` is a history variable:
      what sales, productions, adjustments and losses took from each lot. */
  datatype State = State(
    stock: map<Item, real>,
    lots: seq<Lot>,
    movements: seq<Movement>,
    orders: seq<Order>,
    allocations: seq<Allocation>,
    releases: set<nat>,
    taken: seq<real>)

  const EMPTY := State(map[], [], [], [], [], {}, [])

  // ---------------------------------------------------------------- single movements

  function AddTakes(taken: seq<real>, takes: seq<Take>): (r: seq<real>)
    ensures |r| == |taken|
  {
    seq(|taken|, l requires 0 <= l < |taken| => taken[l] + TakenFrom(takes, l))
  }

  /** A sale, production or downward adjustment of q units. */
  function Withdraw(s: State, item: Item, q: real, kind: Kind, today: int): (r: State)
    requires item in s.stock
    ensures r == s.(stock := s.stock[item := s.stock[item] - q], lots := r.lots, taken := r.taken,
                    movements := r.movements)
  {
    var takes := FefoPlan(s.lots, item, q, today);
    s.(stock := s.stock[item := s.stock[item] - q],
       lots := AfterTakes(s.lots, takes),
       taken := AddTakes(s.taken, takes),
       movements := s.movements + [Movement(item, -q, kind, None)])
  }

  /** A production, reception or upward adjustment of q units; it opens a lot only when it is dated. */
  function Deposit(s: State, item: Item, q: real, kind: Kind, expiresAt: Option<int>, now: int): (r: State)
    requires item in s.stock
    ensures r == s.(stock := s.stock[item := s.stock[item] + q], lots := r.lots, taken := r.taken,
                    movements := r.movements)
  {
    s.(stock := s.stock[item := s.stock[item] + q],
       lots := s.lots + if expiresAt.Some? then [Lot(item, q, q, expiresAt, now)] else [],
       taken := s.taken + if expiresAt.Some? then [0.0] else [],
       movements := s.movements + [Movement(item, q, kind, None)])
  }

  /** An expired lot passed to loss. */
  function WriteOff(s: State, l: LotId): State
    requires l < |s.lots| && |s.taken| == |s.lots| && s.lots[l].item in s.stock
  {
    var lost := s.lots[l].remaining;
    var item := s.lots[l].item;
    s.(stock := s.stock[item := s.stock[item] - lost],
       lots := s.lots[l := s.lots[l].(remaining := 0.0)],
       taken := s.taken[l := s.taken[l] + lost],
       movements := s.movements + [Movement(item, -lost, Perte, None)])
  }

  // ---------------------------------------------------------------- reservations

  function AllocationsFor(o: nat, k: nat, takes: seq<Take>): (r: seq<Allocation>)
    ensures |r| == |takes|
  {
    seq(|takes|, t requires 0 <= t < |takes| => Allocation(o, k, takes[t].lot, takes[t].quantity, false))
  }

  predicate HasLine(s: State, o: nat, k: nat) {
    && o < |s.orders|
    && k < |s.orders[o].lines|
    && Article(s.orders[o].lines[k].article) in s.stock
  }

  /** Line k of order o takes its quantity out of stock; the lots give what they can, the rest is pre-ordered. */
  function ReserveLine(s: State, o: nat, k: nat, today: int): (r: State)
    requires HasLine(s, o, k)
    ensures r == s.(stock := r.stock, lots := r.lots, movements := r.movements, orders := r.orders,
                    allocations := r.allocations)
  {
    var order := s.orders[o];
    var line := order.lines[k];
    var item, q := Article(line.article), line.quantity as real;
    var takes := FefoPlan(s.lots, item, q, today);
    var preordered := MaxReal(0.0, q - SumTakes(takes));
    s.(stock := s.stock[item := s.stock[item] - q],
       lots := AfterTakes(s.lots, takes),
       movements := s.movements + [Movement(item, -q, ForOrder, Some(o))],
       orders := s.orders[o := order.(lines := order.lines[k := line.(preordered := preordered)])],
       allocations := s.allocations + AllocationsFor(o, k, takes))
  }

  /** What line k of order o still holds on a lot. */
  function HeldByLine(allocations: seq<Allocation>, o: nat, k: nat, l: LotId): real {
    if allocations == [] then 0.0
    else
      var a := allocations[|allocations| - 1];
      HeldByLine(allocations[..|allocations| - 1], o, k, l)
      + if OpenFor(a, o, k) && a.lot == l then a.quantity else 0.0
  }

  predicate OpenFor(a: Allocation, o: nat, k: nat) {
    a.order == o && a.line == k && !a.restored
  }

  function LotsGivenBack(lots: seq<Lot>, allocations: seq<Allocation>, o: nat, k: nat): (r: seq<Lot>)
    ensures |r| == |lots|
  {
    seq(|lots|, l requires 0 <= l < |lots| =>
      lots[l].(remaining := lots[l].remaining + HeldByLine(allocations, o, k, l)))
  }

  function MarkRestored(allocations: seq<Allocation>, o: nat, k: nat): (r: seq<Allocation>)
    ensures |r| == |allocations|
  {
    seq(|allocations|, i requires 0 <= i < |allocations| =>
      if OpenFor(allocations[i], o, k) then allocations[i].(restored := true) else allocations[i])
  }

  /** Line k of order o gives its quantity back to the stock and every open allocation back to its lot. */
  function ReleaseLine(s: State, o: nat, k: nat): (r: State)
    requires HasLine(s, o, k)
    ensures r == s.(stock := r.stock, lots := r.lots, movements := r.movements, allocations := r.allocations)
  {
    var line := s.orders[o].lines[k];
    var item, q := Article(line.article), line.quantity as real;
    s.(stock := s.stock[item := s.stock[item] + q],
       lots := LotsGivenBack(s.lots, s.allocations, o, k),
       movements := s.movements + [Movement(item, q, ForOrder, Some(o))],
       allocations := MarkRestored(s.allocations, o, k))
  }

  predicate HasLines(s: State, o: nat) {
    && o < |s.orders|
    && forall k :: 0 <= k < |s.orders[o].lines| ==> Article(s.orders[o].lines[k].article) in s.stock
  }

  function ReserveUpTo(s: State, o: nat, n: nat, today: int): (r: State)
    requires HasLines(s, o) && n <= |s.orders[o].lines|
    ensures HasLines(r, o) && |r.orders| == |s.orders| && |r.orders[o].lines| == |s.orders[o].lines|
    ensures r.stock.Keys == s.stock.Keys && r.releases == s.releases && r.taken == s.taken
  {
    if n == 0 then s else ReserveLine(ReserveUpTo(s, o, n - 1, today), o, n - 1, today)
  }

  function ReleaseUpTo(s: State, o: nat, n: nat): (r: State)
    requires HasLines(s, o) && n <= |s.orders[o].lines|
    ensures r.stock.Keys == s.stock.Keys && r.orders == s.orders && r.releases == s.releases && r.taken == s.taken
  {
    if n == 0 then s else ReleaseLine(ReleaseUpTo(s, o, n - 1), o, n - 1)
  }

  predicate SameLines(a: seq<Line>, b: seq<Line>) {
    && |a| == |b|
    && forall k :: 0 <= k < |a| ==> a[k].article == b[k].article && a[k].quantity == b[k].quantity
  }

  /** Same row up to the pre-ordered quantities. */
  predicate SameOrder(a: Order, b: Order) {
    b == a.(lines := b.lines)
  }

  lemma ReserveLineFrame(s: State, o: nat, k: nat, today: int, i: nat)
    requires HasLine(s, o, k) && i < |s.orders|
    ensures var r := ReserveLine(s, o, k, today);
            && SameOrder(s.orders[i], r.orders[i])
            && (i != o ==> r.orders[i] == s.orders[i])
            && r.releases == s.releases
  {
  }

  /** The states a reservation goes through, line after line. */
  ghost predicate IsTrace(trace: seq<State>, o: nat, today: int) {
    forall i :: 0 <= i < |trace| - 1 ==> HasLine(trace[i], o, i) && trace[i + 1] == ReserveLine(trace[i], o, i, today)
  }

  lemma TraceExtends(trace: seq<State>, o: nat, today: int, last: State)
    requires trace != [] && IsTrace(trace, o, today) && HasLine(trace[|trace| - 1], o, |trace| - 1)
    requires last == ReserveLine(trace[|trace| - 1], o, |trace| - 1, today)
    ensures IsTrace(trace + [last], o, today)
  {
  }

  lemma {:induction false} TraceOf(s: State, o: nat, n: nat, today: int) returns (trace: seq<State>)
    requires HasLines(s, o) && n <= |s.orders[o].lines|
    ensures |trace| == n + 1 && IsTrace(trace, o, today)
    ensures trace[0] == s && trace[n] == ReserveUpTo(s, o, n, today)
  {
    if n == 0 {
      trace := [s];
    } else {
      var earlier := TraceOf(s, o, n - 1, today);
      var last := ReserveLine(earlier[n - 1], o, n - 1, today);
      trace := earlier + [last];
      assert last == ReserveUpTo(s, o, n, today);
      TraceExtends(earlier, o, today, last);
    }
  }

  lemma {:induction false} TraceFrame(trace: seq<State>, o: nat, today: int, n: nat, i: nat)
    requires n < |trace| && IsTrace(trace, o, today) && i < |trace[0].orders|
    ensures i < |trace[n].orders| && SameOrder(trace[0].orders[i], trace[n].orders[i])
    ensures i != o ==> trace[n].orders[i] == trace[0].orders[i]
    ensures trace[n].releases == trace[0].releases
  {
    if n > 0 {
      TraceFrame(trace, o, today, n - 1, i);
      ReserveLineFrame(trace[n - 1], o, n - 1, today, i);
    }
  }

  /** A reservation writes nothing of its order but the pre-ordered quantities, and nothing of the others. */
  lemma ReserveFrame(s: State, o: nat, n: nat, today: int, i: nat)
    requires HasLines(s, o) && n <= |s.orders[o].lines| && i < |s.orders|
    ensures var r := ReserveUpTo(s, o, n, today);
            && SameOrder(s.orders[i], r.orders[i])
            && (i != o ==> r.orders[i] == s.orders[i])
            && r.releases == s.releases
  {
    var trace := TraceOf(s, o, n, today);
    TraceFrame(trace, o, today, n, i);
  }

  // ---------------------------------------------------------------- sums the accounts are made of

  function SumDeltas(movements: seq<Movement>, item: Item): real {
    if movements == [] then 0.0
    else
      var m := movements[|movements| - 1];
      SumDeltas(movements[..|movements| - 1], item) + if m.item == item then m.delta else 0.0
  }

  function OrderDelta(movements: seq<Movement>, o: nat, article: nat): real {
    if movements == [] then 0.0
    else
      var m := movements[|movements| - 1];
      OrderDelta(movements[..|movements| - 1], o, article)
      + if m.order == Some(o) && m.item == Article(article) then m.delta else 0.0
  }

  function LineQuantity(lines: seq<Line>, lo: nat, hi: nat, article: nat): real
    requires hi <= |lines|
    decreases hi
  {
    if hi <= lo then 0.0
    else
      LineQuantity(lines, lo, hi - 1, article)
      + if lines[hi - 1].article == article then lines[hi - 1].quantity as real else 0.0
  }

  /** Everything orders still hold on a lot. */
  function Unrestored(allocations: seq<Allocation>, l: LotId): real {
    if allocations == [] then 0.0
    else
      var a := allocations[|allocations| - 1];
      Unrestored(allocations[..|allocations| - 1], l) + if !a.restored && a.lot == l then a.quantity else 0.0
  }

  /** What the lots gave to line k of order o, restored since or not. */
  function Allocated(allocations: seq<Allocation>, o: nat, k: nat): real {
    if allocations == [] then 0.0
    else
      var a := allocations[|allocations| - 1];
      Allocated(allocations[..|allocations| - 1], o, k) + if a.order == o && a.line == k then a.quantity else 0.0
  }

  lemma AppendMovement(movements: seq<Movement>, m: Movement)
    ensures forall item :: SumDeltas(movements + [m], item) ==
              SumDeltas(movements, item) + if m.item == item then m.delta else 0.0
    ensures forall o: nat, a: nat :: OrderDelta(movements + [m], o, a) ==
              OrderDelta(movements, o, a) + if m.order == Some(o) && m.item == Article(a) then m.delta else 0.0
  {
    assert (movements + [m])[..|movements|] == movements;
  }

  lemma {:induction false} AppendAllocations(
      allocations: seq<Allocation>, o: nat, k: nat, takes: seq<Take>, n: nat, l: LotId, i: nat, j: nat)
    requires n <= |takes|
    ensures var more := allocations + AllocationsFor(o, k, takes)[..n];
            && Unrestored(more, l) == Unrestored(allocations, l) + TakenFrom(takes[..n], l)
            && Allocated(more, i, j) ==
               Allocated(allocations, i, j) + if i == o && j == k then SumTakes(takes[..n]) else 0.0
  {
    var added := AllocationsFor(o, k, takes);
    if n == 0 {
      assert allocations + added[..0] == allocations;
    } else {
      AppendAllocations(allocations, o, k, takes, n - 1, l, i, j);
      assert allocations + added[..n] == (allocations + added[..n - 1]) + [added[n - 1]];
      assert takes[..n] == takes[..n - 1] + [takes[n - 1]];
      TakenFromAppend(takes[..n - 1], takes[n - 1], l);
      SumTakesAppend(takes[..n - 1], takes[n - 1]);
    }
  }

  lemma {:induction false} SumTakesAppend(takes: seq<Take>, t: Take)
    ensures SumTakes(takes + [t]) == SumTakes(takes) + t.quantity
  {
    if takes == [] {
      assert takes + [t] == [t];
    } else {
      assert (takes + [t])[1..] == takes[1..] + [t];
      SumTakesAppend(takes[1..], t);
    }
  }

  lemma {:induction false} RestoringALine(allocations: seq<Allocation>, o: nat, k: nat, l: LotId, i: nat, j: nat)
    ensures var after := MarkRestored(allocations, o, k);
            && Unrestored(after, l) == Unrestored(allocations, l) - HeldByLine(allocations, o, k, l)
            && Allocated(after, i, j) == Allocated(allocations, i, j)
  {
    if allocations != [] {
      var n := |allocations| - 1;
      RestoringALine(allocations[..n], o, k, l, i, j);
      assert MarkRestored(allocations, o, k)[..n] == MarkRestored(allocations[..n], o, k);
    }
  }

  lemma {:induction false} HoldingsAreNonNegative(allocations: seq<Allocation>, o: nat, k: nat, l: LotId)
    requires forall a :: a in allocations ==> a.quantity > 0.0
    ensures 0.0 <= HeldByLine(allocations, o, k, l) <= Unrestored(allocations, l)
  {
    if allocations != [] {
      var n := |allocations| - 1;
      assert allocations[n] in allocations;
      HoldingsAreNonNegative(allocations[..n], o, k, l);
    }
  }

  lemma {:induction false} SameLinesSameQuantity(a: seq<Line>, b: seq<Line>, lo: nat, hi: nat, article: nat)
    requires SameLines(a, b) && hi <= |a|
    ensures LineQuantity(a, lo, hi, article) == LineQuantity(b, lo, hi, article)
  {
    if lo < hi {
      SameLinesSameQuantity(a, b, lo, hi - 1, article);
    }
  }

  lemma {:induction false} PeelFirstLine(lines: seq<Line>, lo: nat, hi: nat, article: nat)
    requires lo < hi <= |lines|
    ensures LineQuantity(lines, lo, hi, article) ==
              LineQuantity(lines, lo + 1, hi, article)
              + if lines[lo].article == article then lines[lo].quantity as real else 0.0
  {
    if lo + 1 < hi {
      PeelFirstLine(lines, lo, hi - 1, article);
    }
  }

  // ---------------------------------------------------------------- the accounts

  /** While a transaction works through the lines of one order, only lines lo..hi of it are outstanding. */
  datatype Focus = Everywhere | Inside(order: nat, lo: nat, hi: nat)

  ghost predicate InFocus(f: Focus, i: nat) {
    f.Inside? && f.order == i
  }

  ghost function FirstOutstanding(f: Focus, i: nat): nat {
    if InFocus(f, i) then f.lo else 0
  }

  ghost function EndOutstanding(s: State, f: Focus, i: nat): nat
    requires i < |s.orders|
  {
    if InFocus(f, i) then f.hi
    else if s.orders[i].status == Annulee then 0
    else |s.orders[i].lines|
  }

  ghost predicate FocusFits(s: State, f: Focus) {
    f.Inside? ==> f.order < |s.orders| && f.lo <= f.hi <= |s.orders[f.order].lines|
  }

  /** References between rows. */
  ghost predicate WellFormed(s: State) {
    && |s.taken| == |s.lots|
    && (forall l :: 0 <= l < |s.lots| ==> s.lots[l].item in s.stock)
    && (forall m :: m in s.movements ==> m.item in s.stock && (m.order.Some? ==> m.order.value < |s.orders|))
    && (forall i :: 0 <= i < |s.orders| ==> HasLines(s, i))
    && (forall a :: a in s.allocations ==> WellFormedAllocation(s, a))
  }

  ghost predicate WellFormedAllocation(s: State, a: Allocation) {
    && a.order < |s.orders|
    && a.line < |s.orders[a.order].lines|
    && a.lot < |s.lots|
    && s.lots[a.lot].item == Article(s.orders[a.order].lines[a.line].article)
    && a.quantity > 0.0
  }

  /** An item's stock is the sum of its recorded movements. */
  ghost predicate StockIsRecorded(s: State) {
    forall item :: item in s.stock ==> s.stock[item] == SumDeltas(s.movements, item)
  }

  /** An order's movements amount to minus what it has outstanding: nothing once it is cancelled. */
  ghost predicate OrdersBalance(s: State, f: Focus)
    requires FocusFits(s, f)
  {
    forall i: nat, a: nat :: i < |s.orders| ==>
      OrderDelta(s.movements, i, a) ==
        -LineQuantity(s.orders[i].lines, FirstOutstanding(f, i), EndOutstanding(s, f, i), a)
  }

  /** Everything that ever left a lot is either still held by an order or was taken for good. */
  ghost predicate LotBalances(s: State, l: LotId)
    requires l < |s.lots| && |s.taken| == |s.lots|
  {
    && s.lots[l].remaining + Unrestored(s.allocations, l) + s.taken[l] == s.lots[l].initial
    && s.lots[l].remaining >= 0.0
    && s.taken[l] >= 0.0
  }

  ghost predicate LotsBalance(s: State)
    requires |s.taken| == |s.lots|
  {
    forall l: LotId :: l < |s.lots| ==> LotBalances(s, l)
  }

  /** Only outstanding lines hold lots. */
  ghost predicate HoldingsAreOutstanding(s: State, f: Focus)
    requires WellFormed(s)
  {
    forall a :: a in s.allocations && !a.restored ==>
      FirstOutstanding(f, a.order) <= a.line < EndOutstanding(s, f, a.order)
  }

  /** Every reserved line is split exactly between lots and pre-order. */
  ghost predicate LinesAreSplit(s: State, f: Focus)
    requires FocusFits(s, f)
  {
    forall i: nat, k: nat :: i < |s.orders| && k < (if InFocus(f, i) then f.hi else |s.orders[i].lines|) ==>
      LineIsSplit(s, i, k)
  }

  ghost predicate LineIsSplit(s: State, i: nat, k: nat)
    requires i < |s.orders| && k < |s.orders[i].lines|
  {
    && Allocated(s.allocations, i, k) + s.orders[i].lines[k].preordered == s.orders[i].lines[k].quantity as real
    && s.orders[i].lines[k].preordered >= 0.0
  }

  ghost predicate NothingBeyond(s: State, f: Focus)
    requires WellFormed(s)
  {
    f.Inside? ==> forall a :: a in s.allocations && a.order == f.order ==> a.line < f.hi
  }

  ghost predicate Accounts(s: State, f: Focus)
    requires FocusFits(s, f)
  {
    && WellFormed(s)
    && StockIsRecorded(s)
    && OrdersBalance(s, f)
    && LotsBalance(s)
    && HoldingsAreOutstanding(s, f)
    && LinesAreSplit(s, f)
    && NothingBeyond(s, f)
  }

  /** The accounts hold. They stand under a quantifier so that a proof unfolds them only where it names them. */
  ghost predicate Balanced(s: State, f: Focus) {
    FocusFits(s, f) && forall g :: g == f ==> Accounts(s, g)
  }

  /** Histories are faithful, a release row exists exactly for a cancelled order, raw materials are never owed. */
  ghost predicate IsSettled(s: State) {
    && (forall i: nat :: i < |s.orders| ==> Faithful(s.orders[i]))
    && (forall i: nat :: i in s.releases <==> i < |s.orders| && s.orders[i].status == Annulee)
    && (forall item :: item in s.stock && item.Matiere? ==> s.stock[item] >= 0.0)
  }

  /** IsSettled, under a quantifier for the same reason. */
  ghost predicate Settled(s: State) {
    forall v :: v == s ==> IsSettled(v)
  }

  ghost predicate Sound(s: State) {
    Balanced(s, Everywhere) && Settled(s)
  }

  // ---------------------------------------------------------------- each movement keeps the accounts

  lemma TakesKeepLots(s: State, item: Item, q: real, today: int)
    requires WellFormed(s) && LotsBalance(s)
    ensures var takes := FefoPlan(s.lots, item, q, today);
            forall l: LotId :: l < |s.lots| ==> 0.0 <= TakenFrom(takes, l) <= s.lots[l].remaining
  {
    var takes := FefoPlan(s.lots, item, q, today);
    forall l: LotId | l < |s.lots| ensures 0.0 <= TakenFrom(takes, l) <= s.lots[l].remaining {
      assert LotBalances(s, l);
      TakesStayWithin(s.lots, item, q, today, l);
    }
  }

  /** What a row refers to: it means the same in `r` when orders keep their lines, lots their items, and allocations
      are what they were. */
  lemma RowsKeepMeaning(s: State, r: State, f: Focus)
    requires Balanced(s, f) && r.allocations == s.allocations && s.stock.Keys <= r.stock.Keys
    requires |s.orders| <= |r.orders|
    requires forall i :: 0 <= i < |s.orders| ==> r.orders[i].lines == s.orders[i].lines
    requires |s.lots| <= |r.lots| && forall l :: 0 <= l < |s.lots| ==> r.lots[l].item == s.lots[l].item
    ensures forall i :: 0 <= i < |s.orders| ==> HasLines(r, i)
    ensures forall a :: a in r.allocations ==> WellFormedAllocation(s, a) && WellFormedAllocation(r, a)
    ensures forall i: nat, k: nat ::
              i < |s.orders| && k < (if InFocus(f, i) then f.hi else |s.orders[i].lines|) ==> LineIsSplit(r, i, k)
    ensures r.lots == s.lots && r.taken == s.taken ==> |r.taken| == |r.lots| && LotsBalance(r)
  {
    assert Accounts(s, f);
    forall i | 0 <= i < |s.orders| ensures HasLines(r, i) {
      assert HasLines(s, i);
    }
    forall a | a in r.allocations ensures WellFormedAllocation(s, a) && WellFormedAllocation(r, a) {
      assert WellFormedAllocation(s, a);
    }
    forall i: nat, k: nat | i < |s.orders| && k < (if InFocus(f, i) then f.hi else |s.orders[i].lines|)
      ensures LineIsSplit(r, i, k)
    {
      assert LineIsSplit(s, i, k);
    }
    if r.lots == s.lots && r.taken == s.taken {
      forall l: LotId | l < |r.lots| ensures LotBalances(r, l) {
        assert LotBalances(s, l);
      }
    }
  }

  lemma WithdrawKeepsRows(s: State, item: Item, q: real, kind: Kind, today: int)
    requires Balanced(s, Everywhere) && item in s.stock
    ensures var r := Withdraw(s, item, q, kind, today);
            WellFormed(r) && LotsBalance(r) && LinesAreSplit(r, Everywhere)
  {
    assert Accounts(s, Everywhere);
    var r := Withdraw(s, item, q, kind, today);
    TakesKeepLots(s, item, q, today);
    RowsKeepMeaning(s, r, Everywhere);
    forall l: LotId | l < |r.lots| ensures LotBalances(r, l) {
      assert LotBalances(s, l);
    }
  }

  /** A movement of its own moves the item's stock by its delta and no order's account. */
  lemma OwnMovementIsRecorded(s: State, r: State, item: Item, delta: real, kind: Kind)
    requires Balanced(s, Everywhere) && item in s.stock
    requires r.stock == s.stock[item := s.stock[item] + delta] && r.orders == s.orders
    requires r.movements == s.movements + [Movement(item, delta, kind, None)]
    ensures StockIsRecorded(r) && OrdersBalance(r, Everywhere)
  {
    assert Accounts(s, Everywhere);
    AppendMovement(s.movements, Movement(item, delta, kind, None));
  }

  lemma WithdrawKeepsAccounts(s: State, item: Item, q: real, kind: Kind, today: int)
    requires Balanced(s, Everywhere) && item in s.stock
    ensures Balanced(Withdraw(s, item, q, kind, today), Everywhere)
  {
    OwnMovementIsRecorded(s, Withdraw(s, item, q, kind, today), item, -q, kind);
    WithdrawKeepsRows(s, item, q, kind, today);
    assert Accounts(s, Everywhere);
  }

  lemma DepositKeepsRows(s: State, item: Item, q: real, kind: Kind, expiresAt: Option<int>, now: int)
    requires Balanced(s, Everywhere) && item in s.stock
    ensures WellFormed(Deposit(s, item, q, kind, expiresAt, now))
  {
    assert Accounts(s, Everywhere);
    RowsKeepMeaning(s, Deposit(s, item, q, kind, expiresAt, now), Everywhere);
  }

  lemma DepositKeepsLots(s: State, item: Item, q: real, kind: Kind, expiresAt: Option<int>, now: int)
    requires Balanced(s, Everywhere) && item in s.stock && q >= 0.0
    ensures WellFormed(Deposit(s, item, q, kind, expiresAt, now))
    ensures LotsBalance(Deposit(s, item, q, kind, expiresAt, now))
  {
    DepositKeepsRows(s, item, q, kind, expiresAt, now);
    assert Accounts(s, Everywhere);
    var r := Deposit(s, item, q, kind, expiresAt, now);
    forall l: LotId | l < |r.lots| ensures LotBalances(r, l) {
      if l < |s.lots| {
        assert LotBalances(s, l);
      } else {
        NothingHeldOutside(s.allocations, l);
      }
    }
  }

  lemma DepositKeepsAccounts(s: State, item: Item, q: real, kind: Kind, expiresAt: Option<int>, now: int)
    requires Balanced(s, Everywhere) && item in s.stock && q >= 0.0
    ensures Balanced(Deposit(s, item, q, kind, expiresAt, now), Everywhere)
  {
    assert Accounts(s, Everywhere);
    var r := Deposit(s, item, q, kind, expiresAt, now);
    AppendMovement(s.movements, Movement(item, q, kind, None));
    DepositKeepsLots(s, item, q, kind, expiresAt, now);
    RowsKeepMeaning(s, r, Everywhere);
  }

  lemma {:induction false} NothingHeldOutside(allocations: seq<Allocation>, l: LotId)
    requires forall a :: a in allocations ==> a.lot != l
    ensures Unrestored(allocations, l) == 0.0
  {
    if allocations != [] {
      assert allocations[|allocations| - 1] in allocations;
      NothingHeldOutside(allocations[..|allocations| - 1], l);
    }
  }

  lemma WriteOffKeepsAccounts(s: State, lost: LotId)
    requires Balanced(s, Everywhere) && lost < |s.lots| && WellFormed(s)
    ensures Balanced(WriteOff(s, lost), Everywhere)
  {
    assert Accounts(s, Everywhere);
    var r := WriteOff(s, lost);
    AppendMovement(s.movements, Movement(s.lots[lost].item, -s.lots[lost].remaining, Perte, None));
    RowsKeepMeaning(s, r, Everywhere);
    forall l: LotId | l < |r.lots| ensures LotBalances(r, l) {
      assert LotBalances(s, l);
    }
  }

  // ---------------------------------------------------------------- reserving and releasing line by line

  lemma ReserveLineKeepsOrder(s: State, o: nat, k: nat, today: int, i: nat, a: nat)
    requires HasLine(s, o, k) && i < |s.orders|
    requires i == o ==> OrderDelta(s.movements, o, a) == -LineQuantity(s.orders[o].lines, 0, k, a)
    ensures var r := ReserveLine(s, o, k, today);
            && (i == o ==> OrderDelta(r.movements, o, a) == -LineQuantity(r.orders[o].lines, 0, k + 1, a))
            && (i != o ==> OrderDelta(r.movements, i, a) == OrderDelta(s.movements, i, a) && r.orders[i] == s.orders[i])
  {
    var line := s.orders[o].lines[k];
    var r := ReserveLine(s, o, k, today);
    AppendMovement(s.movements, Movement(Article(line.article), -(line.quantity as real), ForOrder, Some(o)));
    if i == o {
      SameLinesSameQuantity(s.orders[o].lines, r.orders[o].lines, 0, k, a);
    }
  }

  lemma ReserveLineKeepsOrders(s: State, o: nat, k: nat, today: int)
    requires HasLine(s, o, k) && Balanced(s, Inside(o, 0, k))
    ensures FocusFits(ReserveLine(s, o, k, today), Inside(o, 0, k + 1))
    ensures OrdersBalance(ReserveLine(s, o, k, today), Inside(o, 0, k + 1))
  {
    assert Accounts(s, Inside(o, 0, k));
    var r := ReserveLine(s, o, k, today);
    var f := Inside(o, 0, k + 1);
    forall i: nat, a: nat | i < |r.orders|
      ensures OrderDelta(r.movements, i, a) ==
                -LineQuantity(r.orders[i].lines, FirstOutstanding(f, i), EndOutstanding(r, f, i), a)
    {
      ReserveLineKeepsOrder(s, o, k, today, i, a);
    }
  }

  lemma ReserveLineKeepsStock(s: State, o: nat, k: nat, today: int)
    requires HasLine(s, o, k) && Balanced(s, Inside(o, 0, k))
    ensures StockIsRecorded(ReserveLine(s, o, k, today))
  {
    assert Accounts(s, Inside(o, 0, k));
    var line := s.orders[o].lines[k];
    AppendMovement(s.movements, Movement(Article(line.article), -(line.quantity as real), ForOrder, Some(o)));
  }

  lemma ReserveLineKeepsAccounts(s: State, o: nat, k: nat, today: int)
    requires HasLine(s, o, k) && Balanced(s, Inside(o, 0, k))
    ensures Balanced(ReserveLine(s, o, k, today), Inside(o, 0, k + 1))
  {
    ReservedRowsAreWellFormed(s, o, k, today);
    ReserveLineKeepsStock(s, o, k, today);
    ReserveLineKeepsOrders(s, o, k, today);
    ReserveLineKeepsLots(s, o, k, today);
    ReserveLineSplits(s, o, k, today);
  }

  lemma ReservedRowsAreWellFormed(s: State, o: nat, k: nat, today: int)
    requires HasLine(s, o, k) && Balanced(s, Inside(o, 0, k))
    ensures var r := ReserveLine(s, o, k, today);
            WellFormed(r) && HoldingsAreOutstanding(r, Inside(o, 0, k + 1)) && NothingBeyond(r, Inside(o, 0, k + 1))
  {
    assert Accounts(s, Inside(o, 0, k));
    var r := ReserveLine(s, o, k, today);
    var item := Article(s.orders[o].lines[k].article);
    forall a | a in r.allocations ensures WellFormedAllocation(r, a) {
      if a in s.allocations {
        assert WellFormedAllocation(s, a);
      } else {
        var t := Take(a.lot, a.quantity);
        assert a == Allocation(o, k, t.lot, t.quantity, false);
        FefoTakesFromItem(s.lots, item, s.orders[o].lines[k].quantity as real, today, t);
      }
    }
    forall i | 0 <= i < |r.orders| ensures HasLines(r, i) {
      assert HasLines(s, i);
    }
  }

  lemma ReserveLineKeepsLots(s: State, o: nat, k: nat, today: int)
    requires HasLine(s, o, k) && Balanced(s, Inside(o, 0, k))
    ensures WellFormed(ReserveLine(s, o, k, today)) && LotsBalance(ReserveLine(s, o, k, today))
  {
    assert Accounts(s, Inside(o, 0, k));
    var line := s.orders[o].lines[k];
    var item, q := Article(line.article), line.quantity as real;
    var takes := FefoPlan(s.lots, item, q, today);
    var r := ReserveLine(s, o, k, today);
    TakesKeepLots(s, item, q, today);
    ReservedRowsAreWellFormed(s, o, k, today);
    assert takes[..|takes|] == takes && AllocationsFor(o, k, takes)[..|takes|] == AllocationsFor(o, k, takes);
    forall l: LotId | l < |r.lots| ensures LotBalances(r, l) {
      assert LotBalances(s, l);
      AppendAllocations(s.allocations, o, k, takes, |takes|, l, o, k);
    }
  }

  lemma ReserveLineSplits(s: State, o: nat, k: nat, today: int)
    requires HasLine(s, o, k) && Balanced(s, Inside(o, 0, k))
    ensures LinesAreSplit(ReserveLine(s, o, k, today), Inside(o, 0, k + 1))
  {
    var r := ReserveLine(s, o, k, today);
    forall i: nat, j: nat | i < |r.orders| && j < (if i == o then k + 1 else |r.orders[i].lines|)
      ensures LineIsSplit(r, i, j)
    {
      LineStaysSplit(s, o, k, today, i, j);
    }
  }

  lemma LineStaysSplit(s: State, o: nat, k: nat, today: int, i: nat, j: nat)
    requires HasLine(s, o, k) && Balanced(s, Inside(o, 0, k))
    requires i < |s.orders| && j < (if i == o then k + 1 else |s.orders[i].lines|)
    ensures LineIsSplit(ReserveLine(s, o, k, today), i, j)
  {
    assert Accounts(s, Inside(o, 0, k));
    var line := s.orders[o].lines[k];
    var item, q := Article(line.article), line.quantity as real;
    var takes := FefoPlan(s.lots, item, q, today);
    assert takes[..|takes|] == takes && AllocationsFor(o, k, takes)[..|takes|] == AllocationsFor(o, k, takes);
    AppendAllocations(s.allocations, o, k, takes, |takes|, 0, i, j);
    if i == o && j == k {
      PlanTakesWhatThereIs(s.lots, FefoOrder(s.lots, item, today), 0, q);
      NothingAllocatedYet(s.allocations, o, k);
    } else {
      assert LineIsSplit(s, i, j);
    }
  }

  lemma {:induction false} NothingAllocatedYet(allocations: seq<Allocation>, o: nat, k: nat)
    requires forall a :: a in allocations && a.order == o ==> a.line < k
    ensures Allocated(allocations, o, k) == 0.0
  {
    if allocations != [] {
      assert allocations[|allocations| - 1] in allocations;
      NothingAllocatedYet(allocations[..|allocations| - 1], o, k);
    }
  }

  lemma ReleaseLineKeepsOrders(s: State, o: nat, k: nat, n: nat)
    requires HasLine(s, o, k) && Balanced(s, Inside(o, k, n)) && k < n && n == |s.orders[o].lines|
    ensures StockIsRecorded(ReleaseLine(s, o, k))
    ensures FocusFits(ReleaseLine(s, o, k), Inside(o, k + 1, n))
    ensures OrdersBalance(ReleaseLine(s, o, k), Inside(o, k + 1, n))
  {
    assert Accounts(s, Inside(o, k, n));
    var line := s.orders[o].lines[k];
    var r := ReleaseLine(s, o, k);
    var g := Inside(o, k + 1, n);
    AppendMovement(s.movements, Movement(Article(line.article), line.quantity as real, ForOrder, Some(o)));
    forall i: nat, a: nat | i < |r.orders|
      ensures OrderDelta(r.movements, i, a) ==
                -LineQuantity(r.orders[i].lines, FirstOutstanding(g, i), EndOutstanding(r, g, i), a)
    {
      if i == o {
        PeelFirstLine(s.orders[o].lines, k, n, a);
      }
    }
  }

  lemma ReleaseLineKeepsAccounts(s: State, o: nat, k: nat, n: nat)
    requires HasLine(s, o, k) && Balanced(s, Inside(o, k, n)) && k < n && n == |s.orders[o].lines|
    ensures Balanced(ReleaseLine(s, o, k), Inside(o, k + 1, n))
  {
    ReleasedRowsAreWellFormed(s, o, k, n);
    ReleaseLineKeepsOrders(s, o, k, n);
    ReleaseLineKeepsLots(s, o, k, n);
  }

  lemma ReleaseLineKeepsLots(s: State, o: nat, k: nat, n: nat)
    requires HasLine(s, o, k) && Balanced(s, Inside(o, k, n)) && k < n && n == |s.orders[o].lines|
    ensures WellFormed(ReleaseLine(s, o, k))
    ensures LotsBalance(ReleaseLine(s, o, k)) && LinesAreSplit(ReleaseLine(s, o, k), Inside(o, k + 1, n))
  {
    assert Accounts(s, Inside(o, k, n));
    ReleasedRowsAreWellFormed(s, o, k, n);
    var r := ReleaseLine(s, o, k);
    forall l: LotId | l < |r.lots| ensures LotBalances(r, l) {
      assert LotBalances(s, l);
      RestoringALine(s.allocations, o, k, l, 0, 0);
      HoldingsAreNonNegative(s.allocations, o, k, l);
    }
    forall i: nat, j: nat | i < |r.orders| && j < |r.orders[i].lines| ensures LineIsSplit(r, i, j) {
      assert LineIsSplit(s, i, j);
      RestoringALine(s.allocations, o, k, 0, i, j);
    }
  }

  lemma ReleasedRowsAreWellFormed(s: State, o: nat, k: nat, n: nat)
    requires HasLine(s, o, k) && Balanced(s, Inside(o, k, n)) && k < n && n == |s.orders[o].lines|
    ensures var r := ReleaseLine(s, o, k);
            WellFormed(r) && HoldingsAreOutstanding(r, Inside(o, k + 1, n)) && NothingBeyond(r, Inside(o, k + 1, n))
  {
    assert Accounts(s, Inside(o, k, n));
    var r := ReleaseLine(s, o, k);
    var f, g := Inside(o, k, n), Inside(o, k + 1, n);
    forall a | a in r.allocations
      ensures WellFormedAllocation(r, a)
      ensures !a.restored ==> FirstOutstanding(g, a.order) <= a.line < EndOutstanding(r, g, a.order)
    {
      var i :| 0 <= i < |r.allocations| && r.allocations[i] == a;
      assert s.allocations[i] in s.allocations;
      assert WellFormedAllocation(s, s.allocations[i]);
    }
    forall i | 0 <= i < |r.orders| ensures HasLines(r, i) {
      assert HasLines(s, i);
    }
  }

  lemma ReserveOneMoreLine(s: State, o: nat, n: nat, today: int)
    requires HasLines(s, o) && 0 < n <= |s.orders[o].lines|
    requires Balanced(ReserveUpTo(s, o, n - 1, today), Inside(o, 0, n - 1))
    ensures Balanced(ReserveUpTo(s, o, n, today), Inside(o, 0, n))
  {
    ReserveLineKeepsAccounts(ReserveUpTo(s, o, n - 1, today), o, n - 1, today);
  }

  lemma {:induction false} ReserveKeepsAccounts(s: State, o: nat, n: nat, today: int)
    requires HasLines(s, o) && n <= |s.orders[o].lines| && Balanced(s, Inside(o, 0, 0))
    ensures Balanced(ReserveUpTo(s, o, n, today), Inside(o, 0, n))
  {
    if n > 0 {
      ReserveKeepsAccounts(s, o, n - 1, today);
      ReserveOneMoreLine(s, o, n, today);
    }
  }

  lemma ReleaseOneMoreLine(s: State, o: nat, n: nat)
    requires HasLines(s, o) && 0 < n <= |s.orders[o].lines|
    requires Balanced(ReleaseUpTo(s, o, n - 1), Inside(o, n - 1, |s.orders[o].lines|))
    ensures Balanced(ReleaseUpTo(s, o, n), Inside(o, n, |s.orders[o].lines|))
  {
    ReleaseLineKeepsAccounts(ReleaseUpTo(s, o, n - 1), o, n - 1, |s.orders[o].lines|);
  }

  lemma {:induction false} ReleaseKeepsAccounts(s: State, o: nat, n: nat)
    requires HasLines(s, o) && n <= |s.orders[o].lines| && Balanced(s, Inside(o, 0, |s.orders[o].lines|))
    ensures Balanced(ReleaseUpTo(s, o, n), Inside(o, n, |s.orders[o].lines|))
  {
    if n > 0 {
      ReleaseKeepsAccounts(s, o, n - 1);
      ReleaseOneMoreLine(s, o, n);
    }
  }

  // ---------------------------------------------------------------- what each write leaves

  /** Units that go out come off the stock, with their movement, and off the lots as far as these reach. */
  lemma WithdrawIsExact(s: State, item: Item, q: real, kind: Kind, today: int)
    requires item in s.stock && q >= 0.0
    ensures var r := Withdraw(s, item, q, kind, today);
            && r.stock == s.stock[item := s.stock[item] - q]
            && r.movements == s.movements + [Movement(item, -q, kind, None)]
            && |r.lots| == |s.lots| && IsDrawn(s.lots, r.lots, item, q, today) && OthersStay(s.lots, r.lots, {item})
            && r.orders == s.orders && r.allocations == s.allocations && r.releases == s.releases
  {
    FefoIsDrawn(s.lots, item, q, today);
  }

  /** Units that come in go to the stock, with their movement, and to a new lot if they are dated. */
  lemma DepositIsExact(s: State, item: Item, q: real, kind: Kind, expiresAt: Option<int>, now: int)
    requires item in s.stock
    ensures var r := Deposit(s, item, q, kind, expiresAt, now);
            && r.stock == s.stock[item := s.stock[item] + q]
            && r.movements == s.movements + [Movement(item, q, kind, None)]
            && (expiresAt.None? ==> r.lots == s.lots)
            && (expiresAt.Some? ==> r.lots == s.lots + [Lot(item, q, q, expiresAt, now)])
            && r.orders == s.orders && r.allocations == s.allocations && r.releases == s.releases
  {
  }

  /** A lot passed to loss is lost whole. */
  lemma WriteOffIsExact(s: State, l: LotId)
    requires l < |s.lots| && |s.taken| == |s.lots| && s.lots[l].item in s.stock
    ensures var r, item, lost := WriteOff(s, l), s.lots[l].item, s.lots[l].remaining;
            && r.lots == s.lots[l := s.lots[l].(remaining := 0.0)]
            && r.stock == s.stock[item := s.stock[item] - lost]
            && r.movements == s.movements + [Movement(item, -lost, Perte, None)]
            && r.taken[l] == s.taken[l] + lost
            && r.orders == s.orders && r.allocations == s.allocations && r.releases == s.releases
  {
  }

  /** A reserved line takes what it ordered out of the stock and what it can get from the lots; the rest is ordered
      ahead. */
  lemma ReserveLineIsExact(s: State, o: nat, k: nat, today: int)
    requires HasLine(s, o, k)
    ensures var r, line := ReserveLine(s, o, k, today), s.orders[o].lines[k];
            var item, q := Article(line.article), line.quantity as real;
            && r.stock == s.stock[item := s.stock[item] - q]
            && r.movements == s.movements + [Movement(item, -q, ForOrder, Some(o))]
            && |r.lots| == |s.lots| && IsDrawn(s.lots, r.lots, item, q, today) && OthersStay(s.lots, r.lots, {item})
            && r.orders == s.orders[o := s.orders[o].(lines := s.orders[o].lines[k := r.orders[o].lines[k]])]
            && r.orders[o].lines[k] ==
               line.(preordered := q - (Held(s.lots, item, |s.lots|) - Held(r.lots, item, |s.lots|)))
            && r.releases == s.releases
  {
    var line := s.orders[o].lines[k];
    FefoIsDrawn(s.lots, Article(line.article), line.quantity as real, today);
  }

  /** A line got from the lots of its article what they could give at that time, and orders the rest ahead. */
  ghost predicate LineIsServed(s: State, r: State, o: nat, k: nat, today: int)
    requires o < |s.orders| && k < |s.orders[o].lines|
  {
    var line := s.orders[o].lines[k];
    var item, q := Article(line.article), line.quantity as real;
    && |r.lots| == |s.lots| && o < |r.orders| && k < |r.orders[o].lines|
    && IsDrawn(s.lots, r.lots, item, q, today)
    && r.orders[o].lines[k] == line.(preordered := q - (Held(s.lots, item, |s.lots|) - Held(r.lots, item, |s.lots|)))
  }

  /** The same lots and lines, but for what the lots hold and what is ordered ahead. */
  ghost predicate SameShape(s: State, r: State, o: nat)
    requires o < |s.orders|
  {
    && |r.lots| == |s.lots| && (forall l: LotId :: l < |s.lots| ==> r.lots[l].item == s.lots[l].item)
    && |r.orders| == |s.orders| && SameLines(s.orders[o].lines, r.orders[o].lines)
  }

  /** A line that has not been reached, and the lots of its article. */
  ghost predicate IsUntouched(s: State, r: State, o: nat, k: nat)
    requires o < |s.orders| && k < |s.orders[o].lines|
  {
    && |r.lots| == |s.lots| && o < |r.orders| && k < |r.orders[o].lines|
    && r.orders[o].lines[k] == s.orders[o].lines[k]
    && SameLots(s.lots, r.lots, Article(s.orders[o].lines[k].article), |s.lots|)
  }

  lemma LineKeepsShape(s: State, o: nat, k: nat, today: int)
    requires HasLine(s, o, k)
    ensures SameShape(s, ReserveLine(s, o, k, today), o)
  {
    ReserveLineIsExact(s, o, k, today);
  }

  lemma LineLeavesOthers(s: State, o: nat, k: nat, today: int, j: nat)
    requires HasLine(s, o, k) && j < |s.orders[o].lines| && j != k
    requires s.orders[o].lines[j].article != s.orders[o].lines[k].article
    ensures IsUntouched(s, ReserveLine(s, o, k, today), o, j)
  {
    ReserveLineIsExact(s, o, k, today);
    LineKeepsShape(s, o, k, today);
  }

  lemma NextLineLeaves(s: State, before: State, o: nat, m: nat, today: int, k: nat)
    requires o < |s.orders| && SameShape(s, before, o) && HasLine(before, o, m)
    requires m < k < |s.orders[o].lines| && s.orders[o].lines[m].article != s.orders[o].lines[k].article
    requires IsUntouched(s, before, o, k)
    ensures IsUntouched(s, ReserveLine(before, o, m, today), o, k)
  {
    LineLeavesOthers(before, o, m, today, k);
    UntouchedByBoth(s, before, ReserveLine(before, o, m, today), o, k);
  }

  lemma UntouchedByBoth(s: State, before: State, after: State, o: nat, k: nat)
    requires o < |s.orders| && k < |s.orders[o].lines| && IsUntouched(s, before, o, k)
    requires o < |before.orders| && k < |before.orders[o].lines| && IsUntouched(before, after, o, k)
    ensures IsUntouched(s, after, o, k)
  {
  }

  lemma ServedInContext(s: State, before: State, after: State, o: nat, k: nat, today: int)
    requires o < |s.orders| && k < |s.orders[o].lines| && IsUntouched(s, before, o, k) && SameShape(s, after, o)
    requires LineIsServed(before, after, o, k, today)
    ensures LineIsServed(s, after, o, k, today)
  {
    var line := s.orders[o].lines[k];
    DrawnInContext(before.lots, after.lots, s.lots, after.lots, Article(line.article), line.quantity as real, today);
    SameHeld(s.lots, before.lots, Article(line.article), |s.lots|);
  }

  lemma ServedStaysServed(s: State, before: State, after: State, o: nat, k: nat, today: int)
    requires o < |s.orders| && k < |s.orders[o].lines| && LineIsServed(s, before, o, k, today)
    requires SameShape(s, before, o) && SameShape(s, after, o) && IsUntouched(before, after, o, k)
    ensures LineIsServed(s, after, o, k, today)
  {
    var line := s.orders[o].lines[k];
    DrawnInContext(s.lots, before.lots, s.lots, after.lots, Article(line.article), line.quantity as real, today);
    SameHeld(before.lots, after.lots, Article(line.article), |s.lots|);
  }

  lemma {:induction false} TraceKeepsShape(trace: seq<State>, o: nat, today: int, n: nat)
    requires n < |trace| && IsTrace(trace, o, today) && o < |trace[0].orders|
    ensures SameShape(trace[0], trace[n], o)
  {
    if n > 0 {
      TraceKeepsShape(trace, o, today, n - 1);
      LineKeepsShape(trace[n - 1], o, n - 1, today);
    }
  }

  lemma {:induction false} TraceLeavesLater(trace: seq<State>, o: nat, today: int, n: nat, k: nat)
    requires n < |trace| && IsTrace(trace, o, today) && o < |trace[0].orders|
    requires n <= k < |trace[0].orders[o].lines|
    requires forall j :: 0 <= j < n ==> trace[0].orders[o].lines[j].article != trace[0].orders[o].lines[k].article
    ensures IsUntouched(trace[0], trace[n], o, k)
  {
    if n > 0 {
      TraceLeavesLater(trace, o, today, n - 1, k);
      TraceKeepsShape(trace, o, today, n - 1);
      NextLineLeaves(trace[0], trace[n - 1], o, n - 1, today, k);
    }
  }

  lemma {:induction false} TraceServes(trace: seq<State>, o: nat, today: int, n: nat, k: nat)
    requires n < |trace| && IsTrace(trace, o, today) && o < |trace[0].orders|
    requires k < n <= |trace[0].orders[o].lines| && Requests.OneLinePerArticle(trace[0].orders[o].lines)
    ensures LineIsServed(trace[0], trace[n], o, k, today)
  {
    if k < n - 1 {
      TraceKeepsShape(trace, o, today, n - 1);
      TraceKeepsShape(trace, o, today, n);
      TraceServes(trace, o, today, n - 1, k);
      LineLeavesOthers(trace[n - 1], o, n - 1, today, k);
      ServedStaysServed(trace[0], trace[n - 1], trace[n], o, k, today);
    } else {
      LastIsServed(trace, o, today, k);
    }
  }

  lemma LastIsServed(trace: seq<State>, o: nat, today: int, k: nat)
    requires k + 1 < |trace| && IsTrace(trace, o, today) && o < |trace[0].orders|
    requires k < |trace[0].orders[o].lines| && Requests.OneLinePerArticle(trace[0].orders[o].lines)
    ensures LineIsServed(trace[0], trace[k + 1], o, k, today)
  {
    TraceKeepsShape(trace, o, today, k);
    TraceKeepsShape(trace, o, today, k + 1);
    TraceLeavesLater(trace, o, today, k, k);
    LineServesItself(trace[0], trace[k], o, k, today);
    ServedInContext(trace[0], trace[k], trace[k + 1], o, k, today);
  }

  lemma LineServesItself(s: State, before: State, o: nat, k: nat, today: int)
    requires o < |s.orders| && k < |s.orders[o].lines| && IsUntouched(s, before, o, k) && HasLine(before, o, k)
    ensures LineIsServed(before, ReserveLine(before, o, k, today), o, k, today)
  {
    ReserveLineIsExact(before, o, k, today);
  }

  /** A reservation serves each of its lines as if it were alone. */
  lemma ReservationIsExact(s: State, o: nat, n: nat, today: int, k: nat)
    requires HasLines(s, o) && k < n <= |s.orders[o].lines| && Requests.OneLinePerArticle(s.orders[o].lines)
    ensures LineIsServed(s, ReserveUpTo(s, o, n, today), o, k, today)
  {
    var trace := TraceOf(s, o, n, today);
    TraceServes(trace, o, today, n, k);
  }
}
