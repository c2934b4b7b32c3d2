/** Checkouts and stock together: the orders of the Stripe machine are those of the stock machine without their lines,
    and each of its writes to an order is one transaction there. */
module Projection {
  import opened Wrappers
  import Gateway
  import opened Orders
  import opened Requests
  import opened Ledger
  import opened Transactions
  import Runs
  import C = Checkout
  import CheckoutRuns

  function Bare(o: Order): Order {
    o.(lines := [])
  }

  ghost predicate AreBare(orders: seq<Order>, full: seq<Order>) {
    |orders| == |full| && forall i :: 0 <= i < |orders| ==> orders[i] == Bare(full[i])
  }

  /** The orders, less their lines; under a quantifier so that a proof unfolds it only where it names it. */
  ghost predicate Shown(orders: seq<Order>, s: State) {
    forall full :: full == s.orders ==> AreBare(orders, full)
  }

  lemma OneOrderShows(orders: seq<Order>, s: State, o: nat, order: Order, full: Order, r: State)
    requires Shown(orders, s) && o < |s.orders| && order == Bare(full) && r.orders == s.orders[o := full]
    ensures o < |orders| && Shown(orders[o := order], r)
  {
    assert AreBare(orders, s.orders);
  }

  // ---------------------------------------------------------------- what a step writes

  /** The transaction a step of the Stripe machine runs on orders and stock, if any. */
  function Written(w: C.World, step: C.Step, requests: seq<Request>, today: int): Option<Step> {
    match step
    case PlaceOrderStep(direct, _) => Some(PlaceOrderStep(direct, requests, w.clock, today))
    case CreationFailsStep(o) => if C.InPhase(w, o, C.Creating) then Some(ReleaseStep(o, UNPAID_RELEASE)) else None
    case NoUrlStep(o) =>
      if C.HasSession(w, o) && !w.sessions[w.checkouts[o].session].payable
      then Some(ReleaseStep(o, UNPAID_RELEASE)) else None
    case PersistStep(o) =>
      if C.HasSession(w, o) && w.sessions[w.checkouts[o].session].payable
      then Some(AttachSessionStep(o, w.checkouts[o].session)) else None
    case CancelUnpersistedStep(o) =>
      if o in w.checkouts && w.checkouts[o].Cancelling? then Some(ReleaseStep(o, UNPAID_RELEASE)) else None
    case CleanupEndsStep(worker) =>
      if worker in w.cleanups && w.cleanups[worker].Reported? && Gateway.Neutralised(w.cleanups[worker].report) then
        var phase := w.cleanups[worker];
        Some(ReleaseStep(phase.order, AbandonedRelease(phase.cutoff, phase.session)))
      else None
    case StaffCancelsStep(o) => Some(ChangeStatusStep(o, Annulee, w.clock))
    case StaffMovesStep(o, next) => if next != Annulee then Some(ChangeStatusStep(o, next, w.clock)) else None
    case ApplyStep(h) => if C.Holds(w, h) then WrittenByDelivery(w, h) else None
    case _ => None
  }

  function WrittenByDelivery(w: C.World, h: nat): Option<Step>
    requires C.Holds(w, h)
  {
    if !w.handlers[h].phase.ToApply? || w.handlers[h].phase.order >= |w.orders| || |w.totals| != |w.orders| then None
    else
      var o := w.handlers[h].phase.order;
      match w.events[w.handlers[h].event]
      case CompletedEvent(payload) =>
        if C.Anomaly(payload, o, w.orders[o], w.totals[o]).None?
        then Some(ConfirmStep(o, payload.session, w.clock)) else None
      case ExpiredEvent(_) => Some(ReleaseStep(o, UNPAID_RELEASE))
  }

  function ApplyAny(s: State, step: Option<Step>): State {
    if step.Some? then Apply(s, step.value) else s
  }

  lemma HasItsLines(s: State, o: nat)
    requires Sound(s) && o < |s.orders|
    ensures HasLines(s, o)
  {
    assert Accounts(s, Everywhere);
  }

  lemma BareOf(orders: seq<Order>, s: State, o: nat)
    requires Shown(orders, s) && (o < |orders| || o < |s.orders|)
    ensures o < |orders| == |s.orders| && orders[o] == Bare(s.orders[o])
  {
    assert AreBare(orders, s.orders);
  }

  lemma ReleaseWrites(s: State, o: nat, options: ReleaseOptions)
    requires Sound(s) && IsReleasePath(options)
    ensures Release(s, o, options).orders ==
            if o < |s.orders| && Releases(s.orders[o], options) then s.orders[o := Record(s.orders[o], Annulee)]
            else s.orders
  {
    if o < |s.orders| {
      HasItsLines(s, o);
    }
  }

  lemma ReleasedShows(w: C.World, s: State, r: State, o: nat, options: ReleaseOptions)
    requires Shown(w.orders, s)
    requires r.orders ==
             if o < |s.orders| && Releases(s.orders[o], options) then s.orders[o := Record(s.orders[o], Annulee)]
             else s.orders
    ensures Shown(C.ReleaseOrder(w, o, options).orders, r)
  {
    if o < |w.orders| || o < |s.orders| {
      BareOf(w.orders, s, o);
      if Releases(s.orders[o], options) {
        OneOrderShows(w.orders, s, o, Record(w.orders[o], Annulee), Record(s.orders[o], Annulee), r);
      }
    }
  }

  lemma ReleaseShows(w: C.World, s: State, o: nat, options: ReleaseOptions)
    requires Shown(w.orders, s) && Sound(s) && IsReleasePath(options)
    ensures Shown(C.ReleaseOrder(w, o, options).orders, Release(s, o, options))
  {
    ReleaseWrites(s, o, options);
    ReleasedShows(w, s, Release(s, o, options), o, options);
  }

  lemma {:induction false} ReserveShows(orders: seq<Order>, s: State, o: nat, n: nat, today: int)
    requires Shown(orders, s) && HasLines(s, o) && n <= |s.orders[o].lines|
    ensures Shown(orders, ReserveUpTo(s, o, n, today))
  {
    if n > 0 {
      var before := ReserveUpTo(s, o, n - 1, today);
      ReserveShows(orders, s, o, n - 1, today);
      assert ReserveUpTo(s, o, n, today) == ReserveLine(before, o, n - 1, today);
      ReserveLineShows(orders, before, o, n - 1, today);
    }
  }

  lemma ReserveLineShows(orders: seq<Order>, s: State, o: nat, k: nat, today: int)
    requires Shown(orders, s) && HasLine(s, o, k)
    ensures Shown(orders, ReserveLine(s, o, k, today))
  {
    assert AreBare(orders, s.orders);
    assert AreBare(orders, ReserveLine(s, o, k, today).orders);
  }

  lemma PlaceShows(w: C.World, s: State, direct: bool, totalCents: nat, requests: seq<Request>, today: int)
    requires Shown(w.orders, s) && CanPlace(s, requests)
    ensures Shown(C.PlaceOrder(w, direct, totalCents).orders, PlaceOrder(s, direct, requests, w.clock, today))
  {
    var lines := Aggregate(requests);
    var placed := s.(orders := s.orders + [NewOrder(direct, lines, w.clock)]);
    assert Shown(w.orders + [NewOrder(direct, [], w.clock)], placed) by {
      assert AreBare(w.orders, s.orders);
      assert AreBare(w.orders + [NewOrder(direct, [], w.clock)], placed.orders);
    }
    ReserveShows(w.orders + [NewOrder(direct, [], w.clock)], placed, |s.orders|, |lines|, today);
  }

  lemma StaffCancelShows(w: C.World, s: State, o: nat)
    requires Shown(w.orders, s) && Sound(s)
    ensures Shown(C.StaffCancels(w, o).orders, ChangeStatus(s, o, Annulee, w.clock))
  {
    ReleaseShows(w, s, o, STAFF_CANCEL);
  }

  lemma StaffMoveShows(w: C.World, s: State, o: nat, next: Status)
    requires Shown(w.orders, s) && next != Annulee
    ensures Shown(C.StaffMoves(w, o, next).orders, ChangeStatus(s, o, next, w.clock))
  {
    assert AreBare(w.orders, s.orders);
    if o < |s.orders| && Transition(s.orders[o], next, w.clock).Ok? {
      OneOrderShows(w.orders, s, o, Transition(w.orders[o], next, w.clock).value,
                    Transition(s.orders[o], next, w.clock).value, ChangeStatus(s, o, next, w.clock));
    }
  }

  lemma CleanupShows(w: C.World, s: State, worker: nat)
    requires Shown(w.orders, s) && Sound(s)
    ensures Shown(C.CleanupEnds(w, worker).orders, ApplyAny(s, Written(w, C.CleanupEndsStep(worker), [], 0)))
  {
    if worker in w.cleanups && w.cleanups[worker].Reported? {
      var phase := w.cleanups[worker];
      var idle := w.(cleanups := w.cleanups - {worker});
      ReleaseShows(idle, s, phase.order, AbandonedRelease(phase.cutoff, phase.session));
    }
  }

  lemma BareConfirms(o: Order, session: SessionId, now: int)
    requires o.status == PaiementEnAttente
    ensures ConfirmPaid(Bare(o), session, now) == Bare(ConfirmPaid(o, session, now))
  {
  }

  lemma ConfirmShows(w: C.World, s: State, payload: C.Payload, o: nat)
    requires Shown(w.orders, s) && o < |w.orders| == |w.totals|
    ensures Shown(C.ConfirmSession(w, payload, o).orders,
                  if C.Anomaly(payload, o, w.orders[o], w.totals[o]).None?
                  then ConfirmOrder(s, o, payload.session, w.clock) else s)
  {
    BareOf(w.orders, s, o);
    if C.Anomaly(payload, o, w.orders[o], w.totals[o]).None? && s.orders[o].status == PaiementEnAttente {
      BareConfirms(s.orders[o], payload.session, w.clock);
      OneOrderShows(w.orders, s, o, ConfirmPaid(w.orders[o], payload.session, w.clock),
                    ConfirmPaid(s.orders[o], payload.session, w.clock), ConfirmOrder(s, o, payload.session, w.clock));
    }
  }

  lemma DeliveryShows(w: C.World, s: State, h: nat)
    requires Shown(w.orders, s) && Sound(s)
    ensures Shown(C.ApplyEvent(w, h).orders, ApplyAny(s, Written(w, C.ApplyStep(h), [], 0)))
  {
    if C.Holds(w, h) && w.handlers[h].phase.ToApply? && w.handlers[h].phase.order < |w.orders| == |w.totals| {
      var marked := C.SetPhase(w, h, C.ToMark);
      match w.events[w.handlers[h].event]
      case CompletedEvent(payload) => ConfirmShows(marked, s, payload, w.handlers[h].phase.order);
      case ExpiredEvent(_) => ReleaseShows(marked, s, w.handlers[h].phase.order, UNPAID_RELEASE);
    }
  }

  /** The three ways in which a checkout ends without offering its session. */
  lemma FailureShows(w: C.World, s: State, o: nat)
    requires Shown(w.orders, s) && Sound(s)
    ensures Shown(C.CreationFails(w, o).orders, ApplyAny(s, Written(w, C.CreationFailsStep(o), [], 0)))
    ensures Shown(C.NoUrl(w, o).orders, ApplyAny(s, Written(w, C.NoUrlStep(o), [], 0)))
  {
    if o in w.checkouts {
      ReleaseShows(w.(checkouts := w.checkouts[o := C.Finished]), s, o, UNPAID_RELEASE);
    }
  }

  lemma CancelShows(w: C.World, s: State, o: nat)
    requires Shown(w.orders, s) && Sound(s)
    ensures Shown(C.CancelUnpersisted(w, o).orders, ApplyAny(s, Written(w, C.CancelUnpersistedStep(o), [], 0)))
  {
    assert AreBare(w.orders, s.orders);
    if o in w.checkouts && w.checkouts[o].Cancelling? {
      ReleaseShows(w.(checkouts := w.checkouts[o := C.Finished]), s, o, UNPAID_RELEASE);
    }
  }

  lemma PersistShows(w: C.World, s: State, o: nat)
    requires Shown(w.orders, s)
    ensures Shown(C.Persist(w, o).orders, ApplyAny(s, Written(w, C.PersistStep(o), [], 0)))
  {
    assert AreBare(w.orders, s.orders);
    if C.HasSession(w, o) && w.sessions[w.checkouts[o].session].payable {
      var session := w.checkouts[o].session;
      OneOrderShows(w.orders, s, o, w.orders[o].(sessionId := Some(session)),
                    s.orders[o].(sessionId := Some(session)), AttachSession(s, o, session));
    }
  }

  lemma CheckoutShows(w: C.World, s: State, step: C.Step, requests: seq<Request>, today: int)
    requires Shown(w.orders, s) && Sound(s) && C.BeforePayment(step) && C.WritesOrders(step)
    requires step.PlaceOrderStep? ==> CanPlace(s, requests)
    ensures Shown(C.Next(w, step).orders, ApplyAny(s, Written(w, step, requests, today)))
  {
    match step
    case PlaceOrderStep(direct, totalCents) => PlaceShows(w, s, direct, totalCents, requests, today);
    case CreationFailsStep(o) => FailureShows(w, s, o);
    case NoUrlStep(o) => FailureShows(w, s, o);
    case PersistStep(o) => PersistShows(w, s, o);
    case CancelUnpersistedStep(o) => CancelShows(w, s, o);
    case CleanupEndsStep(worker) => CleanupShows(w, s, worker);
  }

  /** Every step of the Stripe machine, seen on orders and stock, is one transaction or none. */
  lemma StepShows(w: C.World, s: State, step: C.Step, requests: seq<Request>, today: int)
    requires Shown(w.orders, s) && Sound(s)
    requires step.PlaceOrderStep? ==> CanPlace(s, requests)
    ensures Shown(C.Next(w, step).orders, ApplyAny(s, Written(w, step, requests, today)))
  {
    if !C.WritesOrders(step) {
      assert C.Next(w, step).orders == w.orders;
    } else if C.BeforePayment(step) {
      CheckoutShows(w, s, step, requests, today);
    } else {
      match step
      case StaffCancelsStep(o) => StaffCancelShows(w, s, o);
      case StaffMovesStep(o, next) =>
        if next != Annulee {
          StaffMoveShows(w, s, o, next);
        }
      case ApplyStep(h) => DeliveryShows(w, s, h);
    }
  }

  // ---------------------------------------------------------------- both machines in one run

  /** Sales, productions, adjustments and losses, which leave orders alone. */
  predicate IsStockStep(step: Step) {
    step.AddItemStep? || step.SellStep? || step.AdjustStep? || step.ProduceStep? || step.LoseStep?
  }

  datatype Both = Both(w: C.World, s: State)

  datatype BothStep = Stock(step: Step) | Order(inner: C.Step, requests: seq<Request>, today: int)

  /** An order is placed on both sides or, when its articles are not known, on neither. */
  function NextOfBoth(b: Both, step: BothStep): Both {
    match step
    case Stock(inner) => if IsStockStep(inner) then b.(s := Apply(b.s, inner)) else b
    case Order(inner, requests, today) =>
      if inner.PlaceOrderStep? && !CanPlace(b.s, requests) then b
      else Both(C.Next(b.w, inner), ApplyAny(b.s, Written(b.w, inner, requests, today)))
  }

  function RunOfBoth(steps: seq<BothStep>): Both {
    if steps == [] then Both(C.INITIAL, EMPTY)
    else NextOfBoth(RunOfBoth(steps[..|steps| - 1]), steps[|steps| - 1])
  }

  lemma StockStepShows(orders: seq<Order>, s: State, step: Step)
    requires Shown(orders, s) && IsStockStep(step)
    ensures Shown(orders, Apply(s, step))
  {
  }

  lemma StockRunGrows(steps: seq<Step>, step: Step)
    ensures Runs.Run(steps + [step]) == Apply(Runs.Run(steps), step)
  {
    var all := steps + [step];
    assert all[..|all| - 1] == steps;
  }

  ghost predicate IsRunOfEach(b: Both, checkout: seq<C.Step>, stock: seq<Step>) {
    b.w == C.Run(checkout) && b.s == Runs.Run(stock) && Shown(b.w.orders, b.s)
  }

  lemma OrderStepRuns(b: Both, inner: C.Step, requests: seq<Request>, today: int, checkout: seq<C.Step>,
                      stock: seq<Step>)
    returns (more: seq<Step>)
    requires IsRunOfEach(b, checkout, stock) && (inner.PlaceOrderStep? ==> CanPlace(b.s, requests))
    ensures IsRunOfEach(Both(C.Next(b.w, inner), ApplyAny(b.s, Written(b.w, inner, requests, today))),
                        checkout + [inner], more)
  {
    var written := Written(b.w, inner, requests, today);
    Runs.EveryRunIsSound(stock);
    StepShows(b.w, b.s, inner, requests, today);
    CheckoutRuns.OneMore(checkout, inner);
    more := stock;
    if written.Some? {
      StockRunGrows(stock, written.value);
      more := stock + [written.value];
    }
  }

  lemma StockStepRuns(b: Both, inner: Step, checkout: seq<C.Step>, stock: seq<Step>)
    requires IsRunOfEach(b, checkout, stock) && IsStockStep(inner)
    ensures IsRunOfEach(b.(s := Apply(b.s, inner)), checkout, stock + [inner])
  {
    StockStepShows(b.w.orders, b.s, inner);
    StockRunGrows(stock, inner);
  }

  /** A run of both machines is a run of each, and they show the same orders throughout. */
  lemma {:induction false} BothRun(steps: seq<BothStep>) returns (checkout: seq<C.Step>, stock: seq<Step>)
    ensures IsRunOfEach(RunOfBoth(steps), checkout, stock)
  {
    if steps == [] {
      checkout, stock := [], [];
    } else {
      var b := RunOfBoth(steps[..|steps| - 1]);
      checkout, stock := BothRun(steps[..|steps| - 1]);
      match steps[|steps| - 1]
      case Stock(inner) =>
        if IsStockStep(inner) {
          StockStepRuns(b, inner, checkout, stock);
          stock := stock + [inner];
        }
      case Order(inner, requests, today) =>
        if !inner.PlaceOrderStep? || CanPlace(b.s, requests) {
          stock := OrderStepRuns(b, inner, requests, today, checkout, stock);
          checkout := checkout + [inner];
        }
    }
  }

  /** A paid order has taken exactly its lines until staff cancel it, and then has given them back, once. */
  ghost predicate KeepsItsStock(w: C.World, s: State, o: nat) {
    && o < |s.orders|
    && (forall a: nat :: OrderDelta(s.movements, o, a) ==
          if o in w.staffCancelled then 0.0 else -LineQuantity(s.orders[o].lines, 0, |s.orders[o].lines|, a))
    && (o in w.staffCancelled ==> forall a :: a in s.allocations && a.order == o ==> a.restored)
  }

  lemma ShownOrdersKeepStock(checkout: seq<C.Step>, stock: seq<Step>, session: SessionId)
    requires session in C.Run(checkout).sessions && C.Run(checkout).sessions[session].state == C.Paid
    requires Shown(C.Run(checkout).orders, Runs.Run(stock))
    ensures KeepsItsStock(C.Run(checkout), Runs.Run(stock), C.Run(checkout).sessions[session].order)
  {
    var o := C.Run(checkout).sessions[session].order;
    CheckoutRuns.PaidOrdersSurvive(checkout, session);
    BareOf(C.Run(checkout).orders, Runs.Run(stock), o);
    Runs.OrdersAreGivenBackOnce(stock, o);
  }

  /** Whatever cleanups, webhooks, sales and losses do around it, a paid order keeps the stock it took exactly until
      staff cancel it. */
  lemma PaidOrdersKeepTheirStock(steps: seq<BothStep>, session: SessionId)
    requires session in RunOfBoth(steps).w.sessions && RunOfBoth(steps).w.sessions[session].state == C.Paid
    ensures var b := RunOfBoth(steps);
            KeepsItsStock(b.w, b.s, b.w.sessions[session].order)
  {
    var checkout, stock := BothRun(steps);
    ShownOrdersKeepStock(checkout, stock, session);
  }
}
