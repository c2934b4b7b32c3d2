/** Webhook deliveries over whole runs: no paid session is lost, and each effect happens once. */
module Deliveries {
  import opened Wrappers
  import opened Orders
  import opened Checkout
  import CheckoutRuns
  import Recon = Reconciliation

  // ---------------------------------------------------------------- orders advance

  /** Faithful, under a quantifier so that a proof unfolds it only where it names it. */
  ghost predicate HasPath(o: Order) {
    forall v :: v == o ==> Faithful(v)
  }

  ghost predicate OrderAdvances(before: Order, after: Order) {
    && (HasPath(before) ==> HasPath(after))
    && (before.confirmedAt.Some? ==> after.confirmedAt == before.confirmedAt)
    && (before.sessionId.Some? ==> after.sessionId.Some?)
  }

  ghost predicate OrdersAdvance(before: seq<Order>, after: seq<Order>) {
    && |before| <= |after|
    && (forall o :: 0 <= o < |before| ==> OrderAdvances(before[o], after[o]))
    && (forall o :: |before| <= o < |after| ==> HasPath(after[o]))
  }

  ghost predicate Advances(w: World, r: World) {
    forall orders :: orders == r.orders ==> OrdersAdvance(w.orders, orders)
  }

  lemma SameOrdersAdvance(w: World, r: World)
    requires r.orders == w.orders
    ensures Advances(w, r)
  {
    assert OrdersAdvance(w.orders, r.orders);
  }

  lemma SetOrderAdvances(w: World, r: World, o: nat, order: Order)
    requires o < |w.orders| && OrderAdvances(w.orders[o], order) && r.orders == w.orders[o := order]
    ensures Advances(w, r)
  {
    assert OrdersAdvance(w.orders, r.orders);
  }

  lemma ReleaseAdvances(w: World, r: World, o: nat, options: ReleaseOptions)
    requires options.releasable <= STAFF_CANCEL.releasable
    requires r.orders == w.orders || r.orders == ReleaseOrder(w, o, options).orders
    ensures Advances(w, r)
  {
    if o < |w.orders| && Releases(w.orders[o], options) && r.orders != w.orders {
      CancelledKeepsPath(w.orders[o]);
      SetOrderAdvances(w, r, o, Record(w.orders[o], Annulee));
    } else {
      SameOrdersAdvance(w, r);
    }
  }

  lemma CancelledKeepsPath(o: Order)
    requires CanTransition(o.status, Annulee)
    ensures OrderAdvances(o, Record(o, Annulee))
  {
    if HasPath(o) {
      assert Faithful(o);
      CancelStaysFaithful(o);
    }
  }

  lemma ConfirmedKeepsPath(o: Order, session: SessionId, now: int)
    requires o.status == PaiementEnAttente
    ensures OrderAdvances(o, Orders.ConfirmPaid(o, session, now))
  {
    if HasPath(o) {
      assert Faithful(o);
      ConfirmPaidStaysFaithful(o, session, now);
    }
  }

  lemma MovedKeepsPath(o: Order, next: Status, now: int)
    requires Transition(o, next, now).Ok?
    ensures OrderAdvances(o, Transition(o, next, now).value)
  {
    if HasPath(o) {
      assert Faithful(o);
      TransitionStaysFaithful(o, next, now);
    }
  }

  lemma AttachedKeepsPath(o: Order, session: SessionId)
    ensures OrderAdvances(o, o.(sessionId := Some(session)))
  {
    if HasPath(o) {
      assert Faithful(o);
    }
  }

  lemma PlacedAdvances(w: World, direct: bool, totalCents: nat)
    ensures Advances(w, PlaceOrder(w, direct, totalCents))
  {
    NewOrderIsFaithful(direct, [], w.clock);
    assert HasPath(NewOrder(direct, [], w.clock));
    assert OrdersAdvance(w.orders, PlaceOrder(w, direct, totalCents).orders);
  }

  lemma PersistAdvances(w: World, o: nat)
    ensures Advances(w, Persist(w, o))
  {
    if HasSession(w, o) && w.sessions[w.checkouts[o].session].payable {
      var s := w.checkouts[o].session;
      AttachedKeepsPath(w.orders[o], s);
      SetOrderAdvances(w, Persist(w, o), o, w.orders[o].(sessionId := Some(s)));
    } else {
      SameOrdersAdvance(w, w);
    }
  }

  lemma CleanupAdvances(w: World, worker: nat)
    ensures Advances(w, CleanupEnds(w, worker))
  {
    if worker in w.cleanups && w.cleanups[worker].Reported? {
      var phase := w.cleanups[worker];
      ReleaseAdvances(w, CleanupEnds(w, worker), phase.order, AbandonedRelease(phase.cutoff, phase.session));
    } else {
      SameOrdersAdvance(w, CleanupEnds(w, worker));
    }
  }

  lemma StaffMoveAdvances(w: World, o: nat, next: Status)
    ensures Advances(w, StaffMoves(w, o, next))
  {
    if o < |w.orders| && next != Annulee && Transition(w.orders[o], next, w.clock).Ok? {
      MovedKeepsPath(w.orders[o], next, w.clock);
      SetOrderAdvances(w, StaffMoves(w, o, next), o, Transition(w.orders[o], next, w.clock).value);
    } else {
      SameOrdersAdvance(w, w);
    }
  }

  lemma ConfirmAdvances(w: World, payload: Payload, o: nat)
    requires o < |w.orders| && |w.totals| == |w.orders|
    ensures Advances(w, ConfirmSession(w, payload, o))
  {
    var r := ConfirmSession(w, payload, o);
    if Anomaly(payload, o, w.orders[o], w.totals[o]).None? && w.orders[o].status == PaiementEnAttente {
      ConfirmedKeepsPath(w.orders[o], payload.session, w.clock);
      SetOrderAdvances(w, r, o, Orders.ConfirmPaid(w.orders[o], payload.session, w.clock));
    } else {
      SameOrdersAdvance(w, r);
    }
  }

  lemma ApplyAdvances(w: World, h: nat)
    ensures Advances(w, ApplyEvent(w, h))
  {
    if Holds(w, h) && w.handlers[h].phase.ToApply? && w.handlers[h].phase.order < |w.orders| == |w.totals| {
      var o := w.handlers[h].phase.order;
      var marked := SetPhase(w, h, ToMark);
      match w.events[w.handlers[h].event]
      case CompletedEvent(payload) => ConfirmAdvances(marked, payload, o);
      case ExpiredEvent(_) => ReleaseAdvances(marked, ReleaseOrder(marked, o, UNPAID_RELEASE), o, UNPAID_RELEASE);
    } else {
      SameOrdersAdvance(w, w);
    }
  }

  lemma StepAdvancesOrders(w: World, step: Step)
    ensures Advances(w, Next(w, step))
  {
    if !WritesOrders(step) {
      SameOrdersAdvance(w, Next(w, step));
    } else {
      WriteAdvancesOrders(w, step);
    }
  }

  lemma WriteAdvancesOrders(w: World, step: Step)
    requires WritesOrders(step)
    ensures Advances(w, Next(w, step))
  {
    if BeforePayment(step) {
      CheckoutAdvancesOrders(w, step);
    } else {
      match step
      case StaffCancelsStep(o) => ReleaseAdvances(w, StaffCancels(w, o), o, STAFF_CANCEL);
      case StaffMovesStep(o, next) => StaffMoveAdvances(w, o, next);
      case ApplyStep(h) => ApplyAdvances(w, h);
    }
  }

  lemma CheckoutAdvancesOrders(w: World, step: Step)
    requires WritesOrders(step) && BeforePayment(step)
    ensures Advances(w, Next(w, step))
  {
    if FirstSteps(step) {
      FirstAdvancesOrders(w, step);
    } else {
      match step
      case CancelUnpersistedStep(o) => ReleaseAdvances(w, CancelUnpersisted(w, o), o, UNPAID_RELEASE);
      case CleanupEndsStep(worker) => CleanupAdvances(w, worker);
    }
  }

  lemma FirstAdvancesOrders(w: World, step: Step)
    requires WritesOrders(step) && FirstSteps(step)
    ensures Advances(w, Next(w, step))
  {
    match step
    case PlaceOrderStep(direct, totalCents) => PlacedAdvances(w, direct, totalCents);
    case CreationFailsStep(o) => ReleaseAdvances(w, CreationFails(w, o), o, UNPAID_RELEASE);
    case NoUrlStep(o) => ReleaseAdvances(w, NoUrl(w, o), o, UNPAID_RELEASE);
    case PersistStep(o) => PersistAdvances(w, o);
  }

  // ---------------------------------------------------------------- the queue evolves

  /** RowsEvolve, under a quantifier so that a proof unfolds it only where it names it. */
  ghost predicate RowsGoOn(w: World, r: World) {
    forall rows :: rows == r.rows ==> Recon.RowsEvolve(w.rows, rows)
  }

  ghost predicate QueueEvolves(w: World, r: World) {
    Recon.Sound(QueueOf(r)) && RowsGoOn(w, r)
  }

  lemma SameQueueEvolves(w: World, r: World)
    requires Recon.Sound(QueueOf(w)) && r.rows == w.rows && r.inHand == w.inHand
    ensures QueueEvolves(w, r)
  {
    var q, t := QueueOf(w), QueueOf(r);
    assert Recon.Consistent(q);
    forall worker ensures Recon.HandIsSound(t, worker) {
      assert Recon.HandIsSound(q, worker);
    }
  }

  lemma FilingEvolves(w: World, r: World, order: Option<nat>, session: Recon.SessionRef, operation: Recon.Operation,
                      status: Recon.RowStatus, attempts: nat)
    requires Recon.Sound(QueueOf(w)) && (status == Recon.Pending || status == Recon.ManualReview)
    requires r.rows == FileReport(w, order, session, operation, status, attempts).rows && r.inHand == w.inHand
    ensures QueueEvolves(w, r)
    ensures RowIsFiled(w.rows, r.rows, session, operation)
  {
    var report := Recon.Report(order, session, operation, status, attempts);
    var q := QueueOf(w).(rows := r.rows);
    Recon.ReportKeepsSound(QueueOf(w), report);
    assert Recon.Consistent(QueueOf(w));
    Recon.UpsertIsSound(w.rows, report, w.clock);
    var i: nat :| Recon.IsReportedAt(w.rows, r.rows, report, w.clock, i);
    SameQueueEvolves(w.(rows := q.rows, inHand := q.inHand, clock := q.clock), r);
  }

  /** The row is new, or was written again. */
  predicate IsWritten(before: seq<Recon.Row>, after: seq<Recon.Row>, i: nat)
    requires i < |after|
  {
    i < |before| ==> before[i].version < after[i].version
  }

  /** The queue has been given an unresolved row for the session. */
  ghost predicate RowIsFiled(before: seq<Recon.Row>, after: seq<Recon.Row>, session: Recon.SessionRef,
                             operation: Recon.Operation) {
    exists i :: 0 <= i < |after| && Recon.Active(after[i], session, operation) && IsWritten(before, after, i)
  }

  /** A row of the session that asks staff for a review, rather than a worker for an expiration. */
  predicate IsReview(row: Recon.Row, session: Recon.SessionRef) {
    row.session == session && row.operation != Recon.ExpireCheckoutSession
  }

  /** The queue has been given an unresolved review row for the session. */
  ghost predicate ReviewIsFiled(before: seq<Recon.Row>, after: seq<Recon.Row>, session: Recon.SessionRef) {
    exists i ::
      && 0 <= i < |after|
      && IsReview(after[i], session) && after[i].status != Recon.Resolved
      && IsWritten(before, after, i)
  }

  lemma ReviewFiled(before: seq<Recon.Row>, after: seq<Recon.Row>, session: Recon.SessionRef,
                    operation: Recon.Operation)
    requires RowIsFiled(before, after, session, operation) && operation != Recon.ExpireCheckoutSession
    ensures ReviewIsFiled(before, after, session)
  {
    var i :| 0 <= i < |after| && Recon.Active(after[i], session, operation) && IsWritten(before, after, i);
    assert IsReview(after[i], session);
  }

  lemma CleanupEvolves(w: World, worker: nat)
    requires Recon.Sound(QueueOf(w))
    ensures QueueEvolves(w, CleanupEnds(w, worker))
  {
    SameQueueEvolves(w, w);
    if worker in w.cleanups {
      var r := CleanupEnds(w, worker);
      match w.cleanups[worker]
      case NoSession(o) =>
        FileCleanupEvolves(w, r, worker, o, None, Recon.MissingSessionOf(o), Recon.ReviewMissingSession, 0);
      case Preflighted(_, _, _) =>
      case Reported(o, s, _, report) =>
        if Gateway.Neutralised(report) {
          SameQueueEvolves(w, r);
        } else if report == Gateway.WasPaid {
          FileCleanupEvolves(w, r, worker, o, Some(s), Recon.Session(s), Recon.ReviewPaidPending, 0);
        } else {
          FileCleanupEvolves(w, r, worker, o, Some(s), Recon.Session(s), Recon.ExpireCheckoutSession, 1);
        }
    }
  }

  lemma FileCleanupEvolves(w: World, r: World, worker: nat, o: nat, expected: Option<SessionId>,
                           session: Recon.SessionRef, operation: Recon.Operation, attempts: nat)
    requires Recon.Sound(QueueOf(w))
    requires r == FileCleanup(w.(cleanups := w.cleanups - {worker}), o, expected, session, operation, attempts)
    ensures QueueEvolves(w, r)
  {
    if o >= |w.orders| || (expected.Some? && w.orders[o].sessionId != expected) || w.orders[o].status == Nouvelle {
      SameQueueEvolves(w, r);
    } else {
      var actual := if operation == Recon.ReviewPaidPending && w.orders[o].status == Annulee
                    then Recon.ReviewPaidCancelled else operation;
      FilingEvolves(w, r, Some(o), session, actual, Recon.Pending, attempts);
    }
  }

  /** What a cleanup asks of the queue when the session of its order may still be paid. */
  function Asked(report: Gateway.ExpireReport, status: Status): Recon.Operation {
    if report != Gateway.WasPaid then Recon.ExpireCheckoutSession
    else if status == Annulee then Recon.ReviewPaidCancelled
    else Recon.ReviewPaidPending
  }

  /** A cleanup whose session may still be paid cancels nothing; it leaves an unresolved row for the session unless the
      order was confirmed or got another session meanwhile. */
  lemma BlockedCleanupIsFiled(w: World, worker: nat)
    requires Recon.Sound(QueueOf(w)) && worker in w.cleanups && w.cleanups[worker].Reported?
    requires !Gateway.Neutralised(w.cleanups[worker].report)
    ensures var phase := w.cleanups[worker];
            var r := CleanupEnds(w, worker);
            && r.orders == w.orders
            && if phase.order < |w.orders| && w.orders[phase.order].sessionId == Some(phase.session)
                  && w.orders[phase.order].status != Nouvelle
               then RowIsFiled(w.rows, r.rows, Recon.Session(phase.session),
                               Asked(phase.report, w.orders[phase.order].status))
               else r.rows == w.rows
  {
    var phase := w.cleanups[worker];
    var r := CleanupEnds(w, worker);
    if phase.order < |w.orders| && w.orders[phase.order].sessionId == Some(phase.session)
       && w.orders[phase.order].status != Nouvelle
    {
      FilingEvolves(w, r, Some(phase.order), Recon.Session(phase.session),
                    Asked(phase.report, w.orders[phase.order].status), Recon.Pending,
                    if phase.report == Gateway.WasPaid then 0 else 1);
    }
  }

  lemma CancelUnpersistedEvolves(w: World, o: nat)
    requires Recon.Sound(QueueOf(w))
    ensures QueueEvolves(w, CancelUnpersisted(w, o))
  {
    var r := CancelUnpersisted(w, o);
    if r.rows == w.rows {
      SameQueueEvolves(w, r);
    } else {
      FilingEvolves(w, r, Some(o), Recon.Session(w.checkouts[o].session), Recon.ExpireCheckoutSession, Recon.Pending,
                    1);
    }
  }

  lemma ResolveSessionEvolves(w: World, r: World, payload: Payload)
    requires Recon.Sound(QueueOf(w))
    requires r.rows == ResolveSession(w, payload).0.rows && r.inHand == w.inHand
    ensures QueueEvolves(w, r)
    ensures ResolveSession(w, payload).1.None? ==> ReviewIsFiled(w.rows, r.rows, Recon.Session(payload.session))
  {
    var matches := Matches(w.orders, payload, |w.orders|);
    var session := Recon.Session(payload.session);
    if |matches| == 0 {
      FilingEvolves(w, r, None, session, Recon.ReviewUnmatchedSession, Recon.ManualReview, 0);
      ReviewFiled(w.rows, r.rows, session, Recon.ReviewUnmatchedSession);
    } else if |matches| == 1 {
      SameQueueEvolves(w, r);
    } else {
      FilingEvolves(w, r, Some(matches[0]), session, Recon.ReviewAttachmentConflict, Recon.Pending, 0);
      ReviewFiled(w.rows, r.rows, session, Recon.ReviewAttachmentConflict);
    }
  }

  lemma ConfirmSessionEvolves(w: World, payload: Payload, o: nat)
    requires Recon.Sound(QueueOf(w)) && o < |w.orders| && |w.totals| == |w.orders|
    ensures var r := ConfirmSession(w, payload, o);
            && QueueEvolves(w, r)
            && (Anomaly(payload, o, w.orders[o], w.totals[o]).Some? ==>
                  ReviewIsFiled(w.rows, r.rows, Recon.Session(payload.session)))
  {
    var anomaly := Anomaly(payload, o, w.orders[o], w.totals[o]);
    var r := ConfirmSession(w, payload, o);
    if anomaly.Some? {
      FilingEvolves(w, r, Some(o), Recon.Session(payload.session), anomaly.value, Recon.Pending, 0);
      ReviewFiled(w.rows, r.rows, Recon.Session(payload.session), anomaly.value);
    } else {
      SameQueueEvolves(w, r);
    }
  }

  lemma ApplyEvolves(w: World, h: nat)
    requires Recon.Sound(QueueOf(w))
    ensures QueueEvolves(w, ApplyEvent(w, h))
  {
    var r := ApplyEvent(w, h);
    if Holds(w, h) && w.handlers[h].phase.ToApply? && w.handlers[h].phase.order < |w.orders| == |w.totals|
       && w.events[w.handlers[h].event].CompletedEvent?
    {
      ConfirmSessionEvolves(SetPhase(w, h, ToMark), PayloadOf(w, h), w.handlers[h].phase.order);
    } else {
      SameQueueEvolves(w, r);
    }
  }

  lemma StepEvolvesQueue(w: World, step: Step)
    requires Recon.Sound(QueueOf(w))
    ensures QueueEvolves(w, Next(w, step))
  {
    if !WritesRows(step) {
      SameQueueEvolves(w, Next(w, step));
    } else {
      WriteEvolvesQueue(w, step);
    }
  }

  lemma WriteEvolvesQueue(w: World, step: Step)
    requires Recon.Sound(QueueOf(w)) && WritesRows(step)
    ensures QueueEvolves(w, Next(w, step))
  {
    match step
    case CancelUnpersistedStep(o) => CancelUnpersistedEvolves(w, o);
    case CleanupEndsStep(worker) => CleanupEvolves(w, worker);
    case ResolveStep(h) =>
      if Holds(w, h) && w.handlers[h].phase == ToResolve {
        ResolveSessionEvolves(w, Resolve(w, h), PayloadOf(w, h));
      } else {
        SameQueueEvolves(w, w);
      }
    case ApplyStep(h) => ApplyEvolves(w, h);
    case QueueStep(settings, inner) => Recon.StepKeepsSound(settings, QueueOf(w), inner);
  }

  // ---------------------------------------------------------------- claims

  ghost predicate TokenFits(w: World, h: Handler) {
    && h.event in w.eventRows
    && h.token <= w.eventRows[h.event].startedAt
    && (w.eventRows[h.event].status == FailedOnce ==> h.token < w.eventRows[h.event].startedAt)
  }

  ghost predicate RowFits(w: World, e: nat) {
    e in w.events && e in w.eventRows && w.eventRows[e].startedAt <= w.clock
  }

  /** No two deliveries of one event under way carry the same token. */
  ghost predicate TokensAreFit(w: World) {
    && (forall h :: h in w.handlers ==> TokenFits(w, w.handlers[h]))
    && (forall e :: e in w.eventRows ==> RowFits(w, e))
    && (forall h, k :: h in w.handlers && k in w.handlers && h != k && w.handlers[h].event == w.handlers[k].event ==>
          w.handlers[h].token != w.handlers[k].token)
  }

  /** TokensAreFit, under a quantifier so that a proof unfolds it only where it names it. */
  ghost predicate TokensFit(w: World) {
    forall v :: v == w ==> TokensAreFit(v)
  }

  /** What a step may do to the row of an event: nothing once it is processed. */
  ghost predicate RowsAdvance(w: World, r: World) {
    forall e :: e in w.eventRows ==>
      && e in r.eventRows
      && w.eventRows[e].startedAt <= r.eventRows[e].startedAt
      && (w.eventRows[e].status == Processed ==> r.eventRows[e] == w.eventRows[e])
  }

  lemma QuietStepKeepsTokens(w: World, r: World)
    requires TokensFit(w) && w.clock <= r.clock && r.eventRows == w.eventRows
    requires forall e :: e in w.events ==> e in r.events
    requires SameTokens(w, r)
    ensures TokensFit(r) && RowsAdvance(w, r)
  {
    assert TokensAreFit(w);
    forall h | h in r.handlers ensures TokenFits(r, r.handlers[h]) {
      assert TokenFits(w, w.handlers[h]);
    }
    forall e | e in r.eventRows ensures RowFits(r, e) {
      assert RowFits(w, e);
    }
  }

  lemma DeliverKeepsTokens(w: World, h: nat, e: nat, timeout: nat)
    requires TokensFit(w)
    ensures TokensFit(Deliver(w, h, e, timeout))
  {
    assert TokensAreFit(w);
    var r := Deliver(w, h, e, timeout);
    forall k | k in r.handlers ensures TokenFits(r, r.handlers[k]) {
      if k in w.handlers {
        assert TokenFits(w, w.handlers[k]);
      }
      assert e in w.eventRows ==> RowFits(w, e);
    }
    forall i | i in r.eventRows ensures RowFits(r, i) {
      assert i in w.eventRows ==> RowFits(w, i);
    }
    forall k, l | k in r.handlers && l in r.handlers && k != l && r.handlers[k].event == r.handlers[l].event
      ensures r.handlers[k].token != r.handlers[l].token
    {
      assert k in w.handlers ==> TokenFits(w, w.handlers[k]);
      assert l in w.handlers ==> TokenFits(w, w.handlers[l]);
      assert e in w.eventRows ==> RowFits(w, e);
    }
  }

  lemma DeliverAdvancesRows(w: World, h: nat, e: nat, timeout: nat)
    requires TokensFit(w)
    ensures RowsAdvance(w, Deliver(w, h, e, timeout))
  {
    assert TokensAreFit(w);
    assert e in w.eventRows ==> RowFits(w, e);
  }

  lemma MarkAdvancesRows(w: World, h: nat, status: EventStatus)
    ensures RowsAdvance(w, Mark(w, h, status))
  {
  }

  lemma MarkKeepsTokens(w: World, h: nat, status: EventStatus)
    requires TokensFit(w)
    ensures TokensFit(Mark(w, h, status))
  {
    assert TokensAreFit(w);
    var r := Mark(w, h, status);
    assert forall k :: k in r.handlers ==> k in w.handlers && k != h && r.handlers[k] == w.handlers[k];
    forall k | k in r.handlers ensures TokenFits(r, r.handlers[k]) {
      assert TokenFits(w, w.handlers[k]);
    }
    forall e | e in r.eventRows ensures RowFits(r, e) {
      assert RowFits(w, e);
    }
  }

  lemma ClaimStepKeepsTokens(w: World, step: Step)
    requires TokensFit(w) && WritesClaims(step)
    ensures TokensFit(Next(w, step))
    ensures RowsAdvance(w, Next(w, step))
  {
    match step
    case DeliverStep(h, e, timeout) =>
      DeliverKeepsTokens(w, h, e, timeout);
      DeliverAdvancesRows(w, h, e, timeout);
    case MarkProcessedStep(h) =>
      MarkKeepsTokens(w, h, Processed);
      MarkAdvancesRows(w, h, Processed);
    case MarkFailedStep(h) =>
      MarkKeepsTokens(w, h, FailedOnce);
      MarkAdvancesRows(w, h, FailedOnce);
  }

  lemma StepKeepsTokens(w: World, step: Step)
    requires TokensFit(w)
    ensures TokensFit(Next(w, step))
    ensures RowsAdvance(w, Next(w, step))
  {
    if WritesClaims(step) {
      ClaimStepKeepsTokens(w, step);
    } else {
      QuietStepKeepsTokens(w, Next(w, step));
    }
  }

  /** Whatever run led here, at most one delivery can mark an event; one whose event was taken over leaves the event
      as it is. */
  lemma OneHolderPerEvent(w: World, h: nat, k: nat, status: EventStatus)
    requires Fit(w)
    requires h in w.handlers && k in w.handlers && h != k && w.handlers[h].event == w.handlers[k].event
    ensures !(HoldsToken(w, h) && HoldsToken(w, k))
    ensures w.handlers[h].token < w.handlers[k].token ==> Mark(w, h, status).eventRows == w.eventRows
  {
    assert IsFit(w) && TokensAreFit(w);
    assert TokenFits(w, w.handlers[h]) && TokenFits(w, w.handlers[k]);
  }

  /** Once processed, an event stays so, and no later delivery of it is let in. */
  lemma {:induction false} ProcessedIsForGood(steps: seq<Step>, n: nat, e: nat)
    requires n <= |steps| && e in Run(steps[..n]).eventRows && Run(steps[..n]).eventRows[e].status == Processed
    ensures var w := Run(steps);
            && e in w.eventRows && w.eventRows[e] == Run(steps[..n]).eventRows[e]
            && forall h: nat, timeout: nat :: Deliver(w, h, e, timeout) == w
    decreases |steps|
  {
    if n == |steps| {
      assert steps[..n] == steps;
    } else {
      var earlier := steps[..|steps| - 1];
      assert earlier[..n] == steps[..n];
      ProcessedIsForGood(earlier, n, e);
      EveryRunIsFit(earlier);
      assert IsFit(Run(earlier));
      StepKeepsTokens(Run(earlier), steps[|steps| - 1]);
    }
  }

  lemma LetIn(w: World, e: nat, h: nat, timeout: nat)
    requires timeout > 0 && e in w.events && e in w.eventRows && w.eventRows[e].status != Processed
    requires h !in w.handlers
    ensures var r := Deliver(w, h, e, timeout);
            && (h in r.handlers <==> HoldsToken(r, h))
            && (h in r.handlers <==>
                  w.eventRows[e].status == FailedOnce || w.clock > w.eventRows[e].startedAt + timeout)
  {
  }

  /** An event that is not processed is let in again after a failure, or once its holder has been silent for longer
      than the timeout: never sooner. */
  lemma UnprocessedIsClaimable(w: World, e: nat, h: nat, timeout: nat)
    requires TokensFit(w)
    requires timeout > 0 && e in w.eventRows && w.eventRows[e].status != Processed && h !in w.handlers
    ensures var late := w.(clock := Max(w.clock, w.eventRows[e].startedAt + timeout + 1));
            HoldsToken(Deliver(late, h, e, timeout), h)
    ensures h in Deliver(w, h, e, timeout).handlers <==>
              w.eventRows[e].status == FailedOnce || w.clock > w.eventRows[e].startedAt + timeout
  {
    assert TokensAreFit(w);
    assert RowFits(w, e);
    LetIn(w, e, h, timeout);
    LetIn(w.(clock := Max(w.clock, w.eventRows[e].startedAt + timeout + 1)), e, h, timeout);
  }

  // ---------------------------------------------------------------- confirmations

  ghost predicate AreConfirmedOnce(w: World) {
    && (forall o :: 0 <= o < |w.orders| ==> HasPath(w.orders[o]))
    && (forall o :: o in w.confirmed ==> o < |w.orders| && w.orders[o].confirmedAt.Some?)
    && (forall i, j :: 0 <= i < j < |w.confirmed| ==> w.confirmed[i] != w.confirmed[j])
  }

  /** AreConfirmedOnce, under a quantifier so that a proof unfolds it only where it names it. */
  ghost predicate ConfirmedOnce(w: World) {
    forall v :: v == w ==> AreConfirmedOnce(v)
  }

  /** An order that waits for its payment has never been confirmed. */
  lemma WaitingIsUnconfirmed(o: Order)
    requires HasPath(o) && o.status == PaiementEnAttente
    ensures o.confirmedAt.None?
  {
    assert Faithful(o);
    var last := |o.history| - 1;
    assert last > 0 ==> LegalStep(o.history[last - 1], o.history[last]);
  }

  lemma NouvelleIsConfirmed(o: Order)
    requires HasPath(o) && o.status == Nouvelle
    ensures o.confirmedAt.Some?
  {
    assert Faithful(o);
    assert o.history[|o.history| - 1].next == Nouvelle;
  }

  lemma SameConfirmedStayOnce(w: World, r: World)
    requires ConfirmedOnce(w) && Advances(w, r) && r.confirmed == w.confirmed
    ensures ConfirmedOnce(r)
  {
    assert AreConfirmedOnce(w);
    assert OrdersAdvance(w.orders, r.orders);
    forall o | 0 <= o < |r.orders| ensures HasPath(r.orders[o]) {
      assert o < |w.orders| ==> OrderAdvances(w.orders[o], r.orders[o]);
    }
    forall o | o in r.confirmed ensures o < |r.orders| && r.orders[o].confirmedAt.Some? {
      assert OrderAdvances(w.orders[o], r.orders[o]);
    }
  }

  lemma ConfirmSessionStaysOnce(w: World, payload: Payload, o: nat)
    requires ConfirmedOnce(w) && o < |w.orders| && |w.totals| == |w.orders|
    ensures ConfirmedOnce(ConfirmSession(w, payload, o))
  {
    assert AreConfirmedOnce(w);
    var r := ConfirmSession(w, payload, o);
    ConfirmAdvances(w, payload, o);
    SameConfirmedStayOnce(w, r.(confirmed := w.confirmed));
    assert AreConfirmedOnce(r.(confirmed := w.confirmed));
    if Anomaly(payload, o, w.orders[o], w.totals[o]).None? && w.orders[o].status == PaiementEnAttente {
      WaitingIsUnconfirmed(w.orders[o]);
    }
  }

  lemma StepKeepsConfirmedOnce(w: World, step: Step)
    requires ConfirmedOnce(w)
    ensures ConfirmedOnce(Next(w, step))
  {
    StepAdvancesOrders(w, step);
    if step.ApplyStep? {
      ApplyStaysOnce(w, step.handler);
    } else {
      SameConfirmedStayOnce(w, Next(w, step));
    }
  }

  lemma ApplyStaysOnce(w: World, h: nat)
    requires ConfirmedOnce(w)
    ensures ConfirmedOnce(ApplyEvent(w, h))
  {
    ApplyAdvances(w, h);
    if Holds(w, h) && w.handlers[h].phase.ToApply? && w.handlers[h].phase.order < |w.orders| == |w.totals|
       && w.events[w.handlers[h].event].CompletedEvent?
    {
      var marked := SetPhase(w, h, ToMark);
      SameOrdersAdvance(w, marked);
      SameConfirmedStayOnce(w, marked);
      ConfirmSessionStaysOnce(marked, PayloadOf(w, h), w.handlers[h].phase.order);
    } else {
      SameConfirmedStayOnce(w, ApplyEvent(w, h));
    }
  }

  /** Over any deliveries and takeovers an order is confirmed by a webhook, and so e-mailed, at most once; its history
      stays faithful and a confirmed order never waits for its payment again. */
  lemma EachOrderIsConfirmedOnce(steps: seq<Step>, i: nat, j: nat)
    requires i < j < |Run(steps).confirmed|
    ensures var w := Run(steps);
            && w.confirmed[i] != w.confirmed[j]
            && w.confirmed[i] < |w.orders|
            && Faithful(w.orders[w.confirmed[i]])
            && w.orders[w.confirmed[i]].status != PaiementEnAttente
  {
    EveryRunIsFit(steps);
    var w := Run(steps);
    assert IsFit(w);
    assert AreConfirmedOnce(w);
    assert w.confirmed[i] in w.confirmed;
    var o := w.orders[w.confirmed[i]];
    assert HasPath(o) && Faithful(o);
    if o.status == PaiementEnAttente {
      WaitingIsUnconfirmed(o);
    }
  }

  // ---------------------------------------------------------------- deliveries know their order

  predicate NamesOrder(payload: Payload, o: nat) {
    payload.metadata == Names(o) || payload.clientRef == Names(o)
  }

  /** The order a delivery is about to act on was attached to its session, and still is or holds another one. */
  ghost predicate TargetFits(w: World, h: Handler) {
    h.phase.ToApply? && h.event in w.events ==>
      && h.phase.order < |w.orders|
      && (NamesOrder(w.events[h.event].payload, h.phase.order) || w.orders[h.phase.order].sessionId.Some?)
  }

  ghost predicate TargetsAreFit(w: World) {
    forall h :: h in w.handlers ==> TargetFits(w, w.handlers[h])
  }

  /** TargetsAreFit, under a quantifier so that a proof unfolds it only where it names it. */
  ghost predicate TargetsFit(w: World) {
    forall v :: v == w ==> TargetsAreFit(v)
  }

  /** Deliveries go on as they were, or have nothing to apply. */
  ghost predicate NothingNewToApply(w: World, r: World) {
    forall h :: h in r.handlers ==>
      (h in w.handlers && r.handlers[h] == w.handlers[h] && w.handlers[h].event in w.events)
      || TargetFits(r, r.handlers[h])
  }

  lemma TargetsStay(w: World, r: World)
    requires TargetsFit(w) && Advances(w, r) && EventsStay(w, r) && NothingNewToApply(w, r)
    ensures TargetsFit(r)
  {
    assert TargetsAreFit(w) && OrdersAdvance(w.orders, r.orders);
    forall h | h in r.handlers ensures TargetFits(r, r.handlers[h]) {
      if h in w.handlers && r.handlers[h] == w.handlers[h] && w.handlers[h].event in w.events {
        assert TargetFits(w, w.handlers[h]);
        assert w.handlers[h].phase.ToApply? ==>
            OrderAdvances(w.orders[w.handlers[h].phase.order], r.orders[w.handlers[h].phase.order]);
      }
    }
  }

  /** Sound queue, faithful orders, claims with their events, deliveries that know their order. */
  ghost predicate IsFit(w: World) {
    CheckoutRuns.Sound(w) && Recon.Sound(QueueOf(w)) && ConfirmedOnce(w) && TokensFit(w) && TargetsFit(w)
  }

  /** IsFit, under a quantifier so that a proof unfolds it only where it names it. */
  ghost predicate Fit(w: World) {
    forall v :: v == w ==> IsFit(v)
  }

  lemma HandlersHaveEvents(w: World)
    requires CheckoutRuns.Sound(w)
    ensures |w.totals| == |w.orders| && forall h :: h in w.handlers ==> w.handlers[h].event in w.events
  {
    assert CheckoutRuns.Consistent(w);
    forall h | h in w.handlers ensures w.handlers[h].event in w.events {
      assert CheckoutRuns.HandlerFits(w, w.handlers[h]);
    }
  }

  lemma ResolveKeepsTargets(w: World, h: nat)
    requires Fit(w)
    ensures TargetsFit(Resolve(w, h))
  {
    assert IsFit(w);
    if Holds(w, h) && w.handlers[h].phase == ToResolve {
      HandlersHaveEvents(w);
      SameOrdersAdvance(w, Resolve(w, h));
      CheckoutRuns.ResolvedSessionIsSound(w, PayloadOf(w, h));
      TargetsStay(w, Resolve(w, h));
    }
  }

  lemma ApplyKeepsTargets(w: World, h: nat)
    requires Fit(w)
    ensures TargetsFit(ApplyEvent(w, h))
  {
    assert IsFit(w);
    HandlersHaveEvents(w);
    ApplyAdvances(w, h);
    TargetsStay(w, ApplyEvent(w, h));
  }

  lemma DeliverKeepsTargets(w: World, h: nat, e: nat, timeout: nat)
    requires Fit(w)
    ensures TargetsFit(Deliver(w, h, e, timeout))
  {
    assert IsFit(w);
    HandlersHaveEvents(w);
    SameOrdersAdvance(w, Deliver(w, h, e, timeout));
    TargetsStay(w, Deliver(w, h, e, timeout));
  }

  lemma MarkKeepsTargets(w: World, h: nat, status: EventStatus)
    requires Fit(w)
    ensures TargetsFit(Mark(w, h, status))
  {
    assert IsFit(w);
    HandlersHaveEvents(w);
    SameOrdersAdvance(w, Mark(w, h, status));
    TargetsStay(w, Mark(w, h, status));
  }

  lemma ClaimStepKeepsTargets(w: World, step: Step)
    requires Fit(w) && WritesClaims(step)
    ensures TargetsFit(Next(w, step))
  {
    assert IsFit(w);
    match step
    case DeliverStep(h, e, timeout) => DeliverKeepsTargets(w, h, e, timeout);
    case MarkProcessedStep(h) => MarkKeepsTargets(w, h, Processed);
    case MarkFailedStep(h) => MarkKeepsTargets(w, h, FailedOnce);
  }

  lemma StepKeepsTargets(w: World, step: Step)
    requires Fit(w)
    ensures TargetsFit(Next(w, step))
  {
    if step.ResolveStep? {
      ResolveKeepsTargets(w, step.handler);
    } else if step.ApplyStep? {
      ApplyKeepsTargets(w, step.handler);
    } else if WritesClaims(step) {
      ClaimStepKeepsTargets(w, step);
    } else {
      assert IsFit(w);
      HandlersHaveEvents(w);
      StepAdvancesOrders(w, step);
      TargetsStay(w, Next(w, step));
    }
  }

  lemma StepKeepsFit(w: World, step: Step)
    requires Fit(w)
    ensures Fit(Next(w, step))
  {
    assert IsFit(w);
    CheckoutRuns.StepKeepsSound(w, step);
    StepEvolvesQueue(w, step);
    StepKeepsConfirmedOnce(w, step);
    StepKeepsTokens(w, step);
    StepKeepsTargets(w, step);
  }

  lemma {:induction false} EveryRunIsFit(steps: seq<Step>)
    ensures Fit(Run(steps))
  {
    if steps != [] {
      EveryRunIsFit(steps[..|steps| - 1]);
      StepKeepsFit(Run(steps[..|steps| - 1]), steps[|steps| - 1]);
    } else {
      CheckoutRuns.EveryRunIsSound([]);
      assert Recon.Consistent(QueueOf(INITIAL));
    }
  }

  // ---------------------------------------------------------------- no paid session is lost

  /** The order is attached to the session, is the only one the session names, and has just been confirmed. */
  ghost predicate IsConfirmedFor(w: World, payload: Payload, o: nat) {
    && o < |w.orders|
    && Attached(w.orders[o], o, payload)
    && w.orders[o].status == Nouvelle
    && forall i: nat :: NamesOrder(payload, i) ==> i == o
  }

  /** What handling a completed event does: it leaves its order confirmed, or files an unresolved review row. */
  ghost predicate Handles(w: World, r: World, payload: Payload) {
    ReviewIsFiled(w.rows, r.rows, Recon.Session(payload.session)) || exists o: nat :: IsConfirmedFor(r, payload, o)
  }

  /** A completed event applied to the order it was resolved to leaves that order Nouvelle, or an unresolved review
      row for the session. */
  lemma ConfirmSessionSettles(w: World, payload: Payload, o: nat)
    requires Recon.Sound(QueueOf(w)) && o < |w.orders| == |w.totals|
    requires NamesOrder(payload, o) || w.orders[o].sessionId.Some?
    ensures var r := ConfirmSession(w, payload, o);
            ReviewIsFiled(w.rows, r.rows, Recon.Session(payload.session)) || IsConfirmedFor(r, payload, o)
    ensures Handles(w, ConfirmSession(w, payload, o), payload)
  {
    ConfirmSessionEvolves(w, payload, o);
    if Anomaly(payload, o, w.orders[o], w.totals[o]).None? {
      assert IsConfirmedFor(ConfirmSession(w, payload, o), payload, o);
    }
  }

  /** A delivery of a completed event that has nothing left but the mark. */
  ghost predicate IsDone(w: World, h: nat) {
    h in w.handlers && w.handlers[h].phase == ToMark && w.handlers[h].event in w.events
    && w.events[w.handlers[h].event].CompletedEvent?
  }

  predicate IsProcessed(w: World, e: nat) {
    e in w.events && w.events[e].CompletedEvent? && e in w.eventRows && w.eventRows[e].status == Processed
  }

  /** A step that finishes a delivery handles its event; a step that marks an event ends a finished delivery. */
  ghost predicate Finishes(w: World, r: World) {
    && (forall h :: IsDone(r, h) ==>
          if IsDone(w, h) then r.handlers[h] == w.handlers[h]
          else Handles(w, r, r.events[r.handlers[h].event].payload))
    && (forall e :: IsProcessed(r, e) ==>
          || IsProcessed(w, e)
          || exists h :: IsDone(w, h) && w.handlers[h].event == e)
  }

  lemma ResolveFinishes(w: World, h: nat)
    requires Fit(w)
    ensures Finishes(w, Resolve(w, h))
  {
    assert IsFit(w);
    if Holds(w, h) && w.handlers[h].phase == ToResolve {
      ResolveSessionEvolves(w, Resolve(w, h), PayloadOf(w, h));
    }
  }

  predicate AppliesCompleted(w: World, h: nat) {
    Holds(w, h) && w.handlers[h].phase.ToApply? && w.events[w.handlers[h].event].CompletedEvent?
  }

  lemma PaymentFinishes(w: World, h: nat)
    requires Fit(w) && AppliesCompleted(w, h)
    ensures Finishes(w, ApplyEvent(w, h))
  {
    assert IsFit(w);
    assert TargetsAreFit(w);
    HandlersHaveEvents(w);
    assert TargetFits(w, w.handlers[h]);
    ConfirmSessionSettles(SetPhase(w, h, ToMark), PayloadOf(w, h), w.handlers[h].phase.order);
  }

  lemma ApplyFinishes(w: World, h: nat)
    requires Fit(w)
    ensures Finishes(w, ApplyEvent(w, h))
  {
    if AppliesCompleted(w, h) {
      PaymentFinishes(w, h);
    } else {
      assert FinishesNothing(w, ApplyEvent(w, h));
      NothingFinishes(w, ApplyEvent(w, h));
    }
  }

  lemma MarkFinishes(w: World, h: nat, status: EventStatus)
    requires status == Processed ==> h in w.handlers && w.handlers[h].phase == ToMark
    ensures Finishes(w, Mark(w, h, status))
  {
    var r := Mark(w, h, status);
    forall e | IsProcessed(r, e) && !IsProcessed(w, e) ensures exists k :: IsDone(w, k) && w.handlers[k].event == e {
      assert IsDone(w, h);
    }
  }

  lemma MarkStepFinishes(w: World, step: Step)
    requires step.MarkProcessedStep? || step.MarkFailedStep?
    ensures Finishes(w, Next(w, step))
  {
    match step
    case MarkProcessedStep(h) =>
      if h in w.handlers && w.handlers[h].phase == ToMark {
        MarkFinishes(w, h, Processed);
      } else {
        assert Next(w, step) == w;
      }
    case MarkFailedStep(h) => MarkFinishes(w, h, FailedOnce);
  }

  lemma StepFinishes(w: World, step: Step)
    requires Fit(w)
    ensures Finishes(w, Next(w, step))
  {
    if step.ResolveStep? {
      ResolveFinishes(w, step.handler);
    } else if step.ApplyStep? {
      ApplyFinishes(w, step.handler);
    } else if step.MarkProcessedStep? || step.MarkFailedStep? {
      MarkStepFinishes(w, step);
    } else {
      OthersFinish(w, step);
    }
  }

  /** A step that neither finishes a delivery nor marks an event. */
  ghost predicate FinishesNothing(w: World, r: World) {
    && (forall h :: IsDone(r, h) ==> h in w.handlers && r.handlers[h] == w.handlers[h])
    && (forall e :: e in r.eventRows && r.eventRows[e].status == Processed ==>
          e in w.eventRows && w.eventRows[e].status == Processed)
  }

  lemma NothingFinishes(w: World, r: World)
    requires Fit(w) && FinishesNothing(w, r) && EventsStay(w, r)
    ensures Finishes(w, r)
  {
    assert IsFit(w);
    assert TokensAreFit(w);
    HandlersHaveEvents(w);
    forall e | IsProcessed(r, e) ensures IsProcessed(w, e) {
      assert RowFits(w, e);
    }
  }

  lemma OthersFinish(w: World, step: Step)
    requires Fit(w) && !step.ResolveStep? && !step.ApplyStep? && !step.MarkProcessedStep? && !step.MarkFailedStep?
    ensures Finishes(w, Next(w, step))
  {
    if BeforePayment(step) {
      NothingFinishes(w, BeforePaymentEffect(w, step));
    } else {
      assert FinishesNothing(w, OtherEffect(w, step));
      NothingFinishes(w, OtherEffect(w, step));
    }
  }

  /** The last step of `before` finished the delivery `h` of the event `e`. */
  ghost predicate JustFinished(before: seq<Step>, h: nat, e: nat) {
    && before != []
    && !IsDone(Run(before[..|before| - 1]), h)
    && IsDone(Run(before), h)
    && Run(before).handlers[h].event == e
  }

  /** It finished it by leaving the payment's order confirmed or by filing a review row. */
  ghost predicate HandledBy(before: seq<Step>, h: nat, e: nat) {
    JustFinished(before, h, e)
    && Handles(Run(before[..|before| - 1]), Run(before), Run(before).events[e].payload)
  }

  ghost predicate HandledFor(steps: seq<Step>, e: nat) {
    exists before: seq<Step>, h :: before <= steps && HandledBy(before, h, e) && SameEvent(Run(before), Run(steps), e)
  }

  ghost predicate SameEvent(w: World, r: World, e: nat) {
    e in w.events && e in r.events && w.events[e] == r.events[e]
  }

  lemma HandledBefore(steps: seq<Step>, step: Step, e: nat)
    requires HandledFor(steps, e)
    ensures HandledFor(steps + [step], e)
  {
    var before: seq<Step>, h :| before <= steps && HandledBy(before, h, e) && SameEvent(Run(before), Run(steps), e);
    CheckoutRuns.OneMore(steps, step);
    assert before <= steps + [step];
    assert SameEvent(Run(before), Run(steps + [step]), e);
  }

  ghost predicate DoneAreHandled(steps: seq<Step>) {
    forall h :: IsDone(Run(steps), h) ==> HandledFor(steps, Run(steps).handlers[h].event)
  }

  ghost predicate ProcessedAreHandled(steps: seq<Step>) {
    forall e :: IsProcessed(Run(steps), e) ==> HandledFor(steps, e)
  }

  lemma HandledAtLast(steps: seq<Step>, step: Step, h: nat)
    requires !IsDone(Run(steps), h) && IsDone(Run(steps + [step]), h)
    requires var r := Run(steps + [step]); Handles(Run(steps), r, r.events[r.handlers[h].event].payload)
    ensures HandledFor(steps + [step], Run(steps + [step]).handlers[h].event)
  {
    var all := steps + [step];
    assert all[..|all| - 1] == steps;
    assert all <= all && HandledBy(all, h, Run(all).handlers[h].event);
    assert SameEvent(Run(all), Run(all), Run(all).handlers[h].event);
  }

  lemma StepKeepsHandled(steps: seq<Step>, step: Step)
    requires DoneAreHandled(steps) && ProcessedAreHandled(steps)
    ensures DoneAreHandled(steps + [step]) && ProcessedAreHandled(steps + [step])
  {
    var w, r := Run(steps), Run(steps + [step]);
    CheckoutRuns.OneMore(steps, step);
    EveryRunIsFit(steps);
    StepFinishes(w, step);
    forall h | IsDone(r, h) ensures HandledFor(steps + [step], r.handlers[h].event) {
      if IsDone(w, h) {
        HandledBefore(steps, step, w.handlers[h].event);
      } else {
        HandledAtLast(steps, step, h);
      }
    }
    forall e | IsProcessed(r, e) ensures HandledFor(steps + [step], e) {
      if !IsProcessed(w, e) {
        var h :| IsDone(w, h) && w.handlers[h].event == e;
      }
      HandledBefore(steps, step, e);
    }
  }

  lemma {:induction false} EveryRunIsHandled(steps: seq<Step>)
    ensures DoneAreHandled(steps) && ProcessedAreHandled(steps)
  {
    if steps != [] {
      var earlier, last := steps[..|steps| - 1], steps[|steps| - 1];
      EveryRunIsHandled(earlier);
      StepKeepsHandled(earlier, last);
      assert earlier + [last] == steps;
    }
  }

  // ---------------------------------------------------------------- and what handled it lasts

  predicate ResolvesRow(step: Step, i: nat) {
    step.QueueStep? && step.step.ResolveStep? && step.step.id == i
  }

  ghost predicate StaffResolved(steps: seq<Step>, n: nat, i: nat) {
    exists m :: n <= m < |steps| && ResolvesRow(steps[m], i)
  }

  ghost predicate IsOpen(w: World, i: nat) {
    i < |w.rows| && w.rows[i].status != Recon.Resolved
  }

  lemma FilingKeepsOpen(w: World, order: Option<nat>, session: Recon.SessionRef, operation: Recon.Operation,
                        status: Recon.RowStatus, attempts: nat, i: nat)
    requires IsOpen(w, i) && status != Recon.Resolved
    ensures IsOpen(FileReport(w, order, session, operation, status, attempts), i)
  {
  }

  lemma CancelKeepsOpen(w: World, o: nat, i: nat)
    requires IsOpen(w, i)
    ensures IsOpen(CancelUnpersisted(w, o), i)
  {
    if CancelUnpersisted(w, o).rows != w.rows {
      FilingKeepsOpen(w, Some(o), Recon.Session(w.checkouts[o].session), Recon.ExpireCheckoutSession, Recon.Pending, 1,
                      i);
    }
  }

  lemma FileCleanupKeepsOpen(w: World, o: nat, expected: Option<SessionId>, session: Recon.SessionRef,
                             operation: Recon.Operation, attempts: nat, i: nat)
    requires IsOpen(w, i)
    ensures IsOpen(FileCleanup(w, o, expected, session, operation, attempts), i)
  {
    FilingKeepsOpen(w, Some(o), session, operation, Recon.Pending, attempts, i);
    FilingKeepsOpen(w, Some(o), session, Recon.ReviewPaidCancelled, Recon.Pending, attempts, i);
  }

  lemma CleanupKeepsOpen(w: World, worker: nat, i: nat)
    requires IsOpen(w, i)
    ensures IsOpen(CleanupEnds(w, worker), i)
  {
    if worker in w.cleanups {
      var idle := w.(cleanups := w.cleanups - {worker});
      match w.cleanups[worker]
      case NoSession(o) =>
        FileCleanupKeepsOpen(idle, o, None, Recon.MissingSessionOf(o), Recon.ReviewMissingSession, 0, i);
      case Preflighted(_, _, _) =>
      case Reported(o, s, _, _) =>
        FileCleanupKeepsOpen(idle, o, Some(s), Recon.Session(s), Recon.ReviewPaidPending, 0, i);
        FileCleanupKeepsOpen(idle, o, Some(s), Recon.Session(s), Recon.ExpireCheckoutSession, 1, i);
    }
  }

  lemma ResolveKeepsOpen(w: World, h: nat, i: nat)
    requires IsOpen(w, i)
    ensures IsOpen(Resolve(w, h), i)
  {
  }

  lemma ConfirmKeepsOpen(w: World, payload: Payload, o: nat, i: nat)
    requires IsOpen(w, i) && o < |w.orders| == |w.totals|
    ensures IsOpen(ConfirmSession(w, payload, o), i)
  {
    var anomaly := Anomaly(payload, o, w.orders[o], w.totals[o]);
    if anomaly.Some? {
      FilingKeepsOpen(w, Some(o), Recon.Session(payload.session), anomaly.value, Recon.Pending, 0, i);
    }
  }

  lemma ApplyKeepsOpen(w: World, h: nat, i: nat)
    requires IsOpen(w, i)
    ensures IsOpen(ApplyEvent(w, h), i)
  {
    if Holds(w, h) && w.handlers[h].phase.ToApply? && w.handlers[h].phase.order < |w.orders| == |w.totals| {
      ConfirmKeepsOpen(SetPhase(w, h, ToMark), PayloadOf(w, h), w.handlers[h].phase.order, i);
    }
  }

  lemma FilingStepKeepsOpen(w: World, step: Step, i: nat)
    requires WritesRows(step) && !step.QueueStep? && IsOpen(w, i)
    ensures IsOpen(Next(w, step), i)
  {
    match step
    case CancelUnpersistedStep(o) => CancelKeepsOpen(w, o, i);
    case CleanupEndsStep(worker) => CleanupKeepsOpen(w, worker, i);
    case ResolveStep(h) => ResolveKeepsOpen(w, h, i);
    case ApplyStep(h) => ApplyKeepsOpen(w, h, i);
  }

  /** Only staff resolve a review row. */
  lemma ReviewNeedsStaff(w: World, step: Step, i: nat)
    requires Recon.Sound(QueueOf(w)) && i < |w.rows|
    requires w.rows[i].operation != Recon.ExpireCheckoutSession && w.rows[i].status != Recon.Resolved
    ensures i < |Next(w, step).rows|
    ensures Next(w, step).rows[i].session == w.rows[i].session
    ensures Next(w, step).rows[i].operation == w.rows[i].operation
    ensures Next(w, step).rows[i].status == Recon.Resolved ==> ResolvesRow(step, i)
  {
    StepEvolvesQueue(w, step);
    assert Recon.RowsEvolve(w.rows, Next(w, step).rows);
    assert Recon.RowEvolves(w.rows[i], Next(w, step).rows[i]);
    if step.QueueStep? {
      if Next(w, step).rows[i].status == Recon.Resolved {
        Recon.ReviewNeedsStaff(step.settings, QueueOf(w), step.step, i);
      }
    } else if WritesRows(step) {
      FilingStepKeepsOpen(w, step, i);
    }
  }

  /** The row is there, and whoever resolved it since was staff. */
  ghost predicate ReviewIsKept(steps: seq<Step>, n: nat, session: Recon.SessionRef, i: nat) {
    && i < |Run(steps).rows|
    && IsReview(Run(steps).rows[i], session)
    && (Run(steps).rows[i].status == Recon.Resolved ==> StaffResolved(steps, n, i))
  }

  lemma StaffResolvedBefore(steps: seq<Step>, n: nat, i: nat, step: Step)
    requires StaffResolved(steps, n, i) || (n <= |steps| && ResolvesRow(step, i))
    ensures StaffResolved(steps + [step], n, i)
  {
    if StaffResolved(steps, n, i) {
      var m :| n <= m < |steps| && ResolvesRow(steps[m], i);
      assert ResolvesRow((steps + [step])[m], i);
    } else {
      assert ResolvesRow((steps + [step])[|steps|], i);
    }
  }

  lemma ReviewGoesOn(steps: seq<Step>, n: nat, session: Recon.SessionRef, i: nat, step: Step)
    requires n <= |steps| && ReviewIsKept(steps, n, session, i)
    ensures ReviewIsKept(steps + [step], n, session, i)
  {
    var w := Run(steps);
    CheckoutRuns.OneMore(steps, step);
    EveryRunIsFit(steps);
    assert IsFit(w);
    if w.rows[i].status == Recon.Resolved {
      StepEvolvesQueue(w, step);
      assert Recon.RowsEvolve(w.rows, Next(w, step).rows) && Recon.RowEvolves(w.rows[i], Next(w, step).rows[i]);
      StaffResolvedBefore(steps, n, i, step);
    } else {
      ReviewNeedsStaff(w, step, i);
      if ResolvesRow(step, i) {
        StaffResolvedBefore(steps, n, i, step);
      }
    }
  }

  lemma LastOfBoth(before: seq<Step>, after: seq<Step>)
    ensures after == [] ==> before + after == before
    ensures after != [] ==> before + after == before + after[..|after| - 1] + [after[|after| - 1]]
  {
  }

  lemma {:induction false} ReviewsAreKept(before: seq<Step>, after: seq<Step>, session: Recon.SessionRef, i: nat)
    requires i < |Run(before).rows| && IsReview(Run(before).rows[i], session)
    requires Run(before).rows[i].status != Recon.Resolved
    ensures ReviewIsKept(before + after, |before|, session, i)
    decreases |after|
  {
    LastOfBoth(before, after);
    if after == [] {
      assert ReviewIsKept(before, |before|, session, i);
    } else {
      var k := |after| - 1;
      ReviewsAreKept(before, after[..k], session, i);
      ReviewGoesOn(before + after[..k], |before|, session, i, after[k]);
    }
  }

  predicate IsConfirmed(w: World, o: nat) {
    o < |w.orders| && w.orders[o].confirmedAt.Some?
  }

  lemma ConfirmationGoesOn(steps: seq<Step>, o: nat, step: Step)
    requires IsConfirmed(Run(steps), o)
    ensures IsConfirmed(Run(steps + [step]), o)
  {
    var w := Run(steps);
    CheckoutRuns.OneMore(steps, step);
    StepAdvancesOrders(w, step);
    assert OrdersAdvance(w.orders, Next(w, step).orders);
    assert OrderAdvances(w.orders[o], Next(w, step).orders[o]);
  }

  lemma {:induction false} ConfirmationsAreKept(before: seq<Step>, after: seq<Step>, o: nat)
    requires IsConfirmed(Run(before), o)
    ensures IsConfirmed(Run(before + after), o)
    decreases |after|
  {
    LastOfBoth(before, after);
    if after != [] {
      var k := |after| - 1;
      ConfirmationsAreKept(before, after[..k], o);
      ConfirmationGoesOn(before + after[..k], o, after[k]);
    }
  }

  /** The order that was confirmed for the session at the end of `before` still tells so. */
  ghost predicate ConfirmationIsKept(before: seq<Step>, steps: seq<Step>, payload: Payload, o: nat) {
    && IsConfirmedFor(Run(before), payload, o)
    && o < |Run(steps).orders|
    && Visits(Run(steps).orders[o].history, Nouvelle)
  }

  /** A review row filed by the last step of `before` is still there, and whoever resolved it since was staff. */
  ghost predicate FiledReviewIsKept(before: seq<Step>, steps: seq<Step>, session: Recon.SessionRef, i: nat) {
    && before != []
    && IsOpen(Run(before), i)
    && IsReview(Run(before).rows[i], session)
    && IsWritten(Run(before[..|before| - 1]).rows, Run(before).rows, i)
    && ReviewIsKept(steps, |before|, session, i)
  }

  ghost predicate PaymentIsKept(before: seq<Step>, steps: seq<Step>, payload: Payload) {
    || (exists o: nat :: ConfirmationIsKept(before, steps, payload, o))
    || (exists i: nat :: FiledReviewIsKept(before, steps, Recon.Session(payload.session), i))
  }

  lemma ReviewLasts(before: seq<Step>, after: seq<Step>, payload: Payload)
    requires before != []
    requires ReviewIsFiled(Run(before[..|before| - 1]).rows, Run(before).rows, Recon.Session(payload.session))
    ensures PaymentIsKept(before, before + after, payload)
  {
    var w, rows, session := Run(before[..|before| - 1]), Run(before).rows, Recon.Session(payload.session);
    var i: nat :|
      i < |rows| && IsReview(rows[i], session) && rows[i].status != Recon.Resolved && IsWritten(w.rows, rows, i);
    ReviewsAreKept(before, after, session, i);
    assert FiledReviewIsKept(before, before + after, session, i);
  }

  lemma ConfirmationLasts(before: seq<Step>, after: seq<Step>, payload: Payload, o: nat)
    requires IsConfirmedFor(Run(before), payload, o)
    ensures PaymentIsKept(before, before + after, payload)
  {
    EveryRunIsFit(before);
    EveryRunIsFit(before + after);
    ConfirmedIsTold(Run(before), o);
    ConfirmationsAreKept(before, after, o);
    ConfirmedIsTold(Run(before + after), o);
    assert ConfirmationIsKept(before, before + after, payload, o);
  }

  lemma ConfirmedIsTold(w: World, o: nat)
    requires Fit(w) && o < |w.orders|
    ensures w.orders[o].status == Nouvelle ==> IsConfirmed(w, o)
    ensures IsConfirmed(w, o) <==> Visits(w.orders[o].history, Nouvelle)
  {
    assert IsFit(w);
    assert AreConfirmedOnce(w);
    assert HasPath(w.orders[o]) && Faithful(w.orders[o]);
    if w.orders[o].status == Nouvelle {
      NouvelleIsConfirmed(w.orders[o]);
    }
  }

  /** Whatever happens after an event was handled, the order it confirmed has Nouvelle in its history, or the review row
      it filed is still there and only staff may have resolved it. */
  lemma HandledPaymentsLast(before: seq<Step>, after: seq<Step>, payload: Payload)
    requires before != [] && Handles(Run(before[..|before| - 1]), Run(before), payload)
    ensures PaymentIsKept(before, before + after, payload)
  {
    if ReviewIsFiled(Run(before[..|before| - 1]).rows, Run(before).rows, Recon.Session(payload.session)) {
      ReviewLasts(before, after, payload);
    } else {
      var o: nat :| IsConfirmedFor(Run(before), payload, o);
      ConfirmationLasts(before, after, payload, o);
    }
  }

  /** The step that finished a delivery of the event settled its payment, and what settled it has lasted. */
  ghost predicate PaymentIsSettled(before: seq<Step>, h: nat, steps: seq<Step>, e: nat)
    requires e in Run(steps).events
  {
    before <= steps && HandledBy(before, h, e) && PaymentIsKept(before, steps, Run(steps).events[e].payload)
  }

  /** No paid session is lost: in every run a completed event that was processed had a delivery that, as it finished,
      left the order attached to its session confirmed or filed a review row. That order has Nouvelle in its history
      ever since, and that row is there until staff resolve it. */
  lemma ProcessedPaymentsAreNotLost(steps: seq<Step>, e: nat)
    requires IsProcessed(Run(steps), e)
    ensures exists before: seq<Step>, h :: PaymentIsSettled(before, h, steps, e)
  {
    EveryRunIsHandled(steps);
    var before: seq<Step>, h :| before <= steps && HandledBy(before, h, e) && SameEvent(Run(before), Run(steps), e);
    var after := steps[|before|..];
    HandledPaymentsLast(before, after, Run(before).events[e].payload);
    assert before + after == steps;
    assert PaymentIsSettled(before, h, steps, e);
  }
}
