/** What becomes of every session: one that was never offered is expired or filed, one that was paid is not lost. */
module Payments {
  import opened Wrappers
  import opened Gateway
  import opened Orders
  import opened Checkout
  import CheckoutRuns
  import opened Deliveries
  import Recon = Reconciliation

  // ---------------------------------------------------------------- sessions of failed checkouts

  predicate IsExpiration(row: Recon.Row, s: SessionId) {
    row.session == Recon.Session(s) && row.operation == Recon.ExpireCheckoutSession
  }

  /** A row that asks a worker to expire the session: open, or dealt with since. */
  ghost predicate IsInQueue(rows: seq<Recon.Row>, s: SessionId) {
    exists i :: 0 <= i < |rows| && IsExpiration(rows[i], s)
  }

  /** The order of a checkout that ended without offering its session was confirmed by somebody, or is cancelled; and
      then a session with an address has lapsed or is filed. */
  ghost predicate IsFiled(w: World, s: SessionId)
    requires s in w.sessions
  {
    var o := w.sessions[s].order;
    !w.sessions[s].offered && o in w.checkouts && w.checkouts[o] == Finished ==>
      && o < |w.orders|
      && (|| w.orders[o].confirmedAt.Some?
          || (w.orders[o].status == Annulee
              && (w.sessions[s].payable ==> w.sessions[s].state == Lapsed || IsInQueue(w.rows, s))))
  }

  ghost predicate CallIsRemembered(w: World, o: nat)
    requires o in w.checkouts
  {
    w.checkouts[o].Cancelling? && Neutralised(w.checkouts[o].report) ==>
      w.checkouts[o].session in w.sessions && w.sessions[w.checkouts[o].session].state == Lapsed
  }

  ghost predicate AreFiled(w: World) {
    && (forall o :: o in w.checkouts ==> CallIsRemembered(w, o))
    && (forall s :: s in w.sessions ==> IsFiled(w, s))
  }

  /** AreFiled, under a quantifier so that a proof unfolds it only where it names it. */
  ghost predicate Traced(w: World) {
    forall v :: v == w ==> AreFiled(v)
  }

  // ---------------------------------------------------------------- steps that leave checkouts alone

  /** Sessions stay what they are, and stay lapsed once they are. */
  ghost predicate SessionsStay(w: World, r: World) {
    && r.sessions.Keys == w.sessions.Keys
    && forall s :: s in w.sessions ==>
         && r.sessions[s] == w.sessions[s].(state := r.sessions[s].state)
         && (w.sessions[s].state == Lapsed ==> r.sessions[s].state == Lapsed)
  }

  ghost predicate CancelledStay(w: World, r: World) {
    |w.orders| <= |r.orders|
    && forall o :: 0 <= o < |w.orders| && w.orders[o].status == Annulee ==> r.orders[o].status == Annulee
  }

  lemma StaysInQueue(w: World, r: World, s: SessionId)
    requires RowsGoOn(w, r) && IsInQueue(w.rows, s)
    ensures IsInQueue(r.rows, s)
  {
    assert Recon.RowsEvolve(w.rows, r.rows);
    var i :| 0 <= i < |w.rows| && IsExpiration(w.rows[i], s);
    assert Recon.RowEvolves(w.rows[i], r.rows[i]);
  }

  lemma StaysFiled(w: World, r: World, s: SessionId)
    requires s in w.sessions && IsFiled(w, s) && RowsGoOn(w, r) && SessionsStay(w, r) && CancelledStay(w, r)
    requires Advances(w, r)
    requires w.sessions[s].order in r.checkouts && r.checkouts[w.sessions[s].order] == Finished ==>
               w.sessions[s].order in w.checkouts && w.checkouts[w.sessions[s].order] == Finished
    ensures IsFiled(r, s)
  {
    var o := w.sessions[s].order;
    if o < |w.orders| {
      assert OrdersAdvance(w.orders, r.orders) && OrderAdvances(w.orders[o], r.orders[o]);
    }
    if IsInQueue(w.rows, s) {
      StaysInQueue(w, r, s);
    }
  }

  lemma QuietIsTraced(w: World, r: World)
    requires Traced(w) && RowsGoOn(w, r) && SessionsStay(w, r) && CancelledStay(w, r) && Advances(w, r)
    requires r.checkouts == w.checkouts
    ensures Traced(r)
  {
    assert AreFiled(w);
    forall o | o in r.checkouts ensures CallIsRemembered(r, o) {
      assert CallIsRemembered(w, o);
    }
    forall s | s in r.sessions ensures IsFiled(r, s) {
      StaysFiled(w, r, s);
    }
  }

  lemma ExpireCallKeepsSessions(w: World, s: SessionId, report: Gateway.ExpireReport, after: SessionState)
    requires Truthful(w, s, report, after)
    ensures SessionsStay(w, AfterExpireCall(w, s, after))
    ensures s in w.sessions && Neutralised(report) ==> AfterExpireCall(w, s, after).sessions[s].state == Lapsed
  {
  }

  predicate TouchesCheckout(step: Step) {
    step.PlaceOrderStep? || step.CreateSessionStep? || step.CreationFailsStep? || step.NoUrlStep? || step.PersistStep?
    || step.PersistFailsStep? || step.ExpireUnpersistedStep? || step.CancelUnpersistedStep?
  }

  /** Only sessions, the queue and orders that were not cancelled move. */
  ghost predicate CheckoutsStay(w: World, r: World) {
    SessionsStay(w, r) && CancelledStay(w, r) && r.checkouts == w.checkouts
  }

  lemma SessionEndsAlone(w: World, s: SessionId, after: SessionState)
    requires s in w.sessions && w.sessions[s].state == Open
    ensures CheckoutsStay(w, AfterExpireCall(w, s, after))
  {
  }

  lemma SessionsEndAlone(w: World, s: SessionId)
    ensures CheckoutsStay(w, Pay(w, s)) && CheckoutsStay(w, Lapse(w, s))
  {
    if s in w.sessions && w.sessions[s].state == Open {
      SessionEndsAlone(w, s, Paid);
      SessionEndsAlone(w, s, Lapsed);
    }
  }

  lemma CleanupCallsAlone(w: World, worker: nat, report: Gateway.ExpireReport, after: SessionState)
    ensures CheckoutsStay(w, CleanupExpires(w, worker, report, after))
  {
    if worker in w.cleanups && w.cleanups[worker].Preflighted?
       && Truthful(w, w.cleanups[worker].session, report, after)
    {
      var called := AfterExpireCall(w, w.cleanups[worker].session, after);
      ExpireCallKeepsSessions(w, w.cleanups[worker].session, report, after);
      assert CheckoutsStay(w, called);
      assert CleanupExpires(w, worker, report, after).sessions == called.sessions;
    }
  }

  lemma CleanupEndsAlone(w: World, worker: nat)
    ensures CheckoutsStay(w, CleanupEnds(w, worker))
  {
  }

  lemma CleanupMoves(w: World, step: Step)
    requires BeforePayment(step) && !TouchesCheckout(step)
    ensures CheckoutsStay(w, Next(w, step))
  {
    match step
    case CustomerPays(s) => SessionsEndAlone(w, s);
    case SessionLapses(s) => SessionsEndAlone(w, s);
    case PreflightStep(worker, o, cutoff) =>
    case CleanupExpiresStep(worker, report, after) => CleanupCallsAlone(w, worker, report, after);
    case CleanupEndsStep(worker) => CleanupEndsAlone(w, worker);
  }

  lemma OthersMove(w: World, step: Step)
    requires !BeforePayment(step)
    ensures CancelledStay(w, Next(w, step))
  {
    if step.StaffMovesStep? {
      StaffMovesOn(w, step.order, step.next);
    } else if step.StaffCancelsStep? {
      StaffCancelsOn(w, step.order);
    } else if step.ApplyStep? {
      ApplyMovesOn(w, step.handler);
    } else {
      assert OtherEffect(w, step).orders == w.orders;
    }
  }

  lemma StaffCancelsOn(w: World, o: nat)
    ensures CancelledStay(w, StaffCancels(w, o))
  {
  }

  lemma StaffMovesOn(w: World, o: nat, next: Status)
    ensures CancelledStay(w, StaffMoves(w, o, next))
  {
  }

  lemma ApplyMovesOn(w: World, h: nat)
    ensures CancelledStay(w, ApplyEvent(w, h))
  {
  }

  // ---------------------------------------------------------------- steps of a checkout

  lemma PlaceOrderIsTraced(w: World, direct: bool, totalCents: nat)
    requires Traced(w) && |w.orders| !in w.checkouts
    ensures Traced(PlaceOrder(w, direct, totalCents))
  {
    assert AreFiled(w);
    var r := PlaceOrder(w, direct, totalCents);
    forall i | i in r.checkouts ensures CallIsRemembered(r, i) {
      assert i in w.checkouts ==> CallIsRemembered(w, i);
    }
    forall s | s in r.sessions ensures IsFiled(r, s) {
      assert IsFiled(w, s);
    }
  }

  lemma CreateSessionIsTraced(w: World, o: nat, s: SessionId, payable: bool)
    requires Traced(w)
    ensures Traced(CreateSession(w, o, s, payable))
  {
    if InPhase(w, o, Creating) && s !in w.sessions {
      assert AreFiled(w);
      var r := CreateSession(w, o, s, payable);
      forall i | i in r.checkouts ensures CallIsRemembered(r, i) {
        assert CallIsRemembered(w, i);
      }
      forall t | t in r.sessions ensures IsFiled(r, t) {
        assert t in w.sessions ==> IsFiled(w, t);
      }
    }
  }

  /** A checkout moves on; what becomes of its own session is for the caller to tell. */
  lemma CheckoutMoveIsTraced(w: World, r: World, o: nat)
    requires Traced(w) && CheckoutRuns.Sound(w) && o in w.checkouts && o in r.checkouts
    requires r.checkouts == w.checkouts[o := r.checkouts[o]] && r.rows == w.rows
    requires |r.orders| == |w.orders| && forall i :: 0 <= i < |w.orders| && i != o ==> r.orders[i] == w.orders[i]
    requires r.sessions.Keys == w.sessions.Keys
    requires forall s :: s in w.sessions ==>
               && r.sessions[s].order == w.sessions[s].order
               && (w.sessions[s].order != o ==> r.sessions[s] == w.sessions[s])
    requires CallIsRemembered(r, o)
    requires forall s :: s in r.sessions && r.sessions[s].order == o ==> IsFiled(r, s)
    ensures Traced(r)
  {
    assert AreFiled(w);
    forall i | i in r.checkouts ensures CallIsRemembered(r, i) {
      if i != o {
        assert CallIsRemembered(w, i);
        CheckoutRuns.CheckoutFits(w, i);
      }
    }
    forall s | s in r.sessions ensures IsFiled(r, s) {
      assert IsFiled(w, s);
    }
  }

  lemma CreationFailureIsTraced(w: World, o: nat)
    requires Traced(w) && CheckoutRuns.Sound(w)
    ensures Traced(CreationFails(w, o))
  {
    if InPhase(w, o, Creating) {
      assert CheckoutRuns.Consistent(w);
      assert forall s :: s in w.sessions ==> CheckoutRuns.SessionFits(w, w.sessions[s]);
      CheckoutMoveIsTraced(w, CreationFails(w, o), o);
    }
  }

  lemma NoUrlIsTraced(w: World, o: nat)
    requires Traced(w) && IsFit(w)
    ensures Traced(NoUrl(w, o))
  {
    if HasSession(w, o) && !w.sessions[w.checkouts[o].session].payable {
      var r := NoUrl(w, o);
      forall t | t in w.sessions && w.sessions[t].order == o ensures t == w.checkouts[o].session {
        OnlySessionOf(w, o, t);
      }
      if r.orders[o].status != Annulee {
        LiveOrderIsConfirmed(w, o);
      }
      CheckoutMoveIsTraced(w, r, o);
    }
  }

  lemma PersistIsTraced(w: World, o: nat)
    requires Traced(w) && CheckoutRuns.Sound(w)
    ensures Traced(Persist(w, o))
    ensures Traced(PersistFails(w, o))
  {
    if HasSession(w, o) && w.sessions[w.checkouts[o].session].payable {
      forall t | t in w.sessions && w.sessions[t].order == o ensures t == w.checkouts[o].session {
        OnlySessionOf(w, o, t);
      }
      CheckoutRuns.CheckoutFits(w, o);
      CheckoutMoveIsTraced(w, Persist(w, o), o);
      CheckoutMoveIsTraced(w, PersistFails(w, o), o);
    }
  }

  lemma CalledIsTraced(w: World, o: nat, report: Gateway.ExpireReport, after: SessionState, r: World)
    requires Traced(w) && CheckoutRuns.Sound(w) && o in w.checkouts && w.checkouts[o].Unpersisted?
    requires Truthful(w, w.checkouts[o].session, report, after)
    requires r == AfterExpireCall(w, w.checkouts[o].session, after).(
                    checkouts := w.checkouts[o := Cancelling(w.checkouts[o].session, report)])
    ensures Traced(r)
  {
    CheckoutRuns.CheckoutFits(w, o);
    ExpireCallKeepsSessions(w, w.checkouts[o].session, report, after);
    assert CallIsRemembered(r, o);
    CheckoutMoveIsTraced(w, r, o);
  }

  lemma ExpireUnpersistedIsTraced(w: World, o: nat, report: Gateway.ExpireReport, after: SessionState)
    requires Traced(w) && CheckoutRuns.Sound(w)
    ensures Traced(ExpireUnpersisted(w, o, report, after))
  {
    if o in w.checkouts && w.checkouts[o].Unpersisted? && Truthful(w, w.checkouts[o].session, report, after) {
      CalledIsTraced(w, o, report, after, ExpireUnpersisted(w, o, report, after));
    }
  }

  /** The end of a failed checkout cancels its order, if nobody confirmed it meanwhile, and leaves an unresolved row to
      expire its session unless Stripe reported that it had lapsed. */
  lemma CancelFiles(w: World, o: nat)
    requires Recon.Sound(QueueOf(w)) && o in w.checkouts && w.checkouts[o].Cancelling? && o < |w.orders|
    ensures var r := CancelUnpersisted(w, o);
            && RowsGoOn(w, r)
            && r.orders[o].status ==
               (if w.orders[o].status == PaiementEnAttente then Annulee else w.orders[o].status)
            && (r.orders[o].status == Annulee && !Neutralised(w.checkouts[o].report) ==>
                  RowIsFiled(w.rows, r.rows, Recon.Session(w.checkouts[o].session),
                             Recon.ExpireCheckoutSession))
  {
    var r := CancelUnpersisted(w, o);
    var phase := w.checkouts[o];
    CancelUnpersistedEvolves(w, o);
    if !Neutralised(phase.report) && w.orders[o].status in {PaiementEnAttente, Annulee} {
      FilingEvolves(w, r, Some(o), Recon.Session(phase.session), Recon.ExpireCheckoutSession, Recon.Pending, 1);
    }
  }

  /** An order that neither waits for its payment nor is cancelled was confirmed. */
  lemma LiveIsConfirmed(o: Order)
    requires HasPath(o) && o.status != PaiementEnAttente && o.status != Annulee
    ensures o.confirmedAt.Some?
  {
    assert Faithful(o);
    var last := |o.history| - 1;
    assert last > 0 ==> LegalStep(o.history[last - 1], o.history[last]);
    EligibleVisitsNouvelle(o.history);
  }

  lemma CancelledIsFiled(w: World, o: nat, s: SessionId)
    requires Traced(w) && IsFit(w) && s in w.sessions
    requires o in w.checkouts && w.checkouts[o].Cancelling? && o < |w.orders|
    ensures IsFiled(CancelUnpersisted(w, o), s)
  {
    if w.sessions[s].order == o {
      OwnSessionIsFiled(w, o, s);
    } else {
      assert AreFiled(w);
      CancelFiles(w, o);
      StepAdvancesOrders(w, CancelUnpersistedStep(o));
      assert Next(w, CancelUnpersistedStep(o)) == CancelUnpersisted(w, o);
      StaysFiled(w, CancelUnpersisted(w, o), s);
    }
  }

  lemma OwnSessionIsFiled(w: World, o: nat, s: SessionId)
    requires Traced(w) && IsFit(w) && s in w.sessions && w.sessions[s].order == o
    requires o in w.checkouts && w.checkouts[o].Cancelling? && o < |w.orders|
    ensures IsFiled(CancelUnpersisted(w, o), s)
  {
    assert AreFiled(w);
    assert CallIsRemembered(w, o);
    CancelFiles(w, o);
    OnlySessionOf(w, o, s);
    if CancelUnpersisted(w, o).orders[o].status != Annulee {
      LiveOrderIsConfirmed(w, o);
    }
  }

  lemma LiveOrderIsConfirmed(w: World, o: nat)
    requires ConfirmedOnce(w) && o < |w.orders|
    requires w.orders[o].status != PaiementEnAttente && w.orders[o].status != Annulee
    ensures w.orders[o].confirmedAt.Some?
  {
    assert AreConfirmedOnce(w) && HasPath(w.orders[o]);
    LiveIsConfirmed(w.orders[o]);
  }

  lemma CancelUnpersistedIsTraced(w: World, o: nat)
    requires Traced(w) && IsFit(w)
    ensures Traced(CancelUnpersisted(w, o))
  {
    if o in w.checkouts && w.checkouts[o].Cancelling? && o < |w.orders| {
      assert AreFiled(w);
      var r := CancelUnpersisted(w, o);
      forall i | i in r.checkouts ensures CallIsRemembered(r, i) {
        assert CallIsRemembered(w, i);
      }
      forall s | s in r.sessions ensures IsFiled(r, s) {
        CancelledIsFiled(w, o, s);
      }
    }
  }

  lemma OnlySessionOf(w: World, o: nat, s: SessionId)
    requires CheckoutRuns.Sound(w) && o in w.checkouts && (w.checkouts[o].Created? || w.checkouts[o].Cancelling?)
    requires s in w.sessions && w.sessions[s].order == o
    ensures w.checkouts[o].session == s
  {
    CheckoutRuns.CheckoutFits(w, o);
    assert CheckoutRuns.Consistent(w);
  }

  // ---------------------------------------------------------------- runs

  lemma CheckoutStepIsTraced(w: World, step: Step)
    requires Traced(w) && IsFit(w) && TouchesCheckout(step)
    ensures Traced(Next(w, step))
  {
    match step
    case PlaceOrderStep(direct, totalCents) =>
      if |w.orders| in w.checkouts {
        CheckoutRuns.CheckoutFits(w, |w.orders|);
      }
      PlaceOrderIsTraced(w, direct, totalCents);
    case CreateSessionStep(o, s, payable) => CreateSessionIsTraced(w, o, s, payable);
    case CreationFailsStep(o) => CreationFailureIsTraced(w, o);
    case NoUrlStep(o) => NoUrlIsTraced(w, o);
    case PersistStep(o) => PersistIsTraced(w, o);
    case PersistFailsStep(o) => PersistIsTraced(w, o);
    case ExpireUnpersistedStep(o, report, after) => ExpireUnpersistedIsTraced(w, o, report, after);
    case CancelUnpersistedStep(o) => CancelUnpersistedIsTraced(w, o);
  }

  lemma StepKeepsTraced(w: World, step: Step)
    requires Traced(w) && IsFit(w)
    ensures Traced(Next(w, step))
  {
    if TouchesCheckout(step) {
      CheckoutStepIsTraced(w, step);
    } else {
      StepEvolvesQueue(w, step);
      StepAdvancesOrders(w, step);
      if BeforePayment(step) {
        CleanupMoves(w, step);
      } else {
        OthersMove(w, step);
        assert SessionsStay(w, OtherEffect(w, step));
      }
      QuietIsTraced(w, Next(w, step));
    }
  }

  lemma {:induction false} EveryRunIsTraced(steps: seq<Step>)
    ensures Traced(Run(steps))
  {
    if steps != [] {
      var earlier := Run(steps[..|steps| - 1]);
      EveryRunIsTraced(steps[..|steps| - 1]);
      EveryRunIsFit(steps[..|steps| - 1]);
      assert IsFit(earlier);
      StepKeepsTraced(earlier, steps[|steps| - 1]);
    }
  }

  // ---------------------------------------------------------------- only sessions with an address are expired

  ghost predicate ExpirationsArePayable(w: World) {
    forall i, s :: 0 <= i < |w.rows| && IsExpiration(w.rows[i], s) ==> CheckoutRuns.IsPayable(w, s)
  }

  /** ExpirationsArePayable, under a quantifier so that a proof unfolds it only where it names it. */
  ghost predicate Addressed(w: World) {
    forall v :: v == w ==> ExpirationsArePayable(v)
  }

  lemma SameRowsAreAddressed(w: World, r: World)
    requires Addressed(w) && RowsGoOn(w, r) && |r.rows| == |w.rows|
    requires forall s :: CheckoutRuns.IsPayable(w, s) ==> CheckoutRuns.IsPayable(r, s)
    ensures Addressed(r)
  {
    assert ExpirationsArePayable(w);
    assert Recon.RowsEvolve(w.rows, r.rows);
    forall i, s | 0 <= i < |r.rows| && IsExpiration(r.rows[i], s) ensures CheckoutRuns.IsPayable(r, s) {
      assert Recon.RowEvolves(w.rows[i], r.rows[i]);
      assert IsExpiration(w.rows[i], s);
    }
  }

  lemma FilingIsAddressed(w: World, order: Option<nat>, session: Recon.SessionRef, operation: Recon.Operation,
                          status: Recon.RowStatus, attempts: nat)
    requires Addressed(w)
    requires operation == Recon.ExpireCheckoutSession && session.Session? ==> CheckoutRuns.IsPayable(w, session.id)
    ensures Addressed(FileReport(w, order, session, operation, status, attempts))
  {
    assert ExpirationsArePayable(w);
    var r := FileReport(w, order, session, operation, status, attempts);
    forall i, s | 0 <= i < |r.rows| && IsExpiration(r.rows[i], s) ensures CheckoutRuns.IsPayable(r, s) {
      if i < |w.rows| {
        assert IsExpiration(w.rows[i], s);
        assert CheckoutRuns.IsPayable(w, s);
      }
    }
  }

  lemma SameQueueIsAddressed(w: World, r: World)
    requires Addressed(w) && r.rows == w.rows
    requires forall s :: CheckoutRuns.IsPayable(w, s) ==> CheckoutRuns.IsPayable(r, s)
    ensures Addressed(r)
  {
    assert ExpirationsArePayable(w);
  }

  lemma CancelIsAddressed(w: World, o: nat)
    requires Addressed(w) && CheckoutRuns.Sound(w)
    ensures Addressed(CancelUnpersisted(w, o))
  {
    if o in w.checkouts && w.checkouts[o].Cancelling? && o < |w.orders| {
      CheckoutRuns.CheckoutFits(w, o);
      var released := ReleaseOrder(w.(checkouts := w.checkouts[o := Finished]), o, UNPAID_RELEASE);
      SameQueueIsAddressed(w, released);
      FilingIsAddressed(released, Some(o), Recon.Session(w.checkouts[o].session), Recon.ExpireCheckoutSession,
                        Recon.Pending, 1);
    }
  }

  lemma FileCleanupIsAddressed(w: World, o: nat, expected: Option<SessionId>, session: Recon.SessionRef,
                               operation: Recon.Operation, attempts: nat)
    requires Addressed(w)
    requires operation == Recon.ExpireCheckoutSession && session.Session? ==> CheckoutRuns.IsPayable(w, session.id)
    ensures Addressed(FileCleanup(w, o, expected, session, operation, attempts))
  {
    FilingIsAddressed(w, Some(o), session, operation, Recon.Pending, attempts);
    FilingIsAddressed(w, Some(o), session, Recon.ReviewPaidCancelled, Recon.Pending, attempts);
  }

  lemma CleanupIsAddressed(w: World, worker: nat)
    requires Addressed(w) && CheckoutRuns.Sound(w)
    ensures Addressed(CleanupEnds(w, worker))
  {
    if worker in w.cleanups {
      var idle := w.(cleanups := w.cleanups - {worker});
      SameQueueIsAddressed(w, idle);
      CheckoutRuns.CleanupsAreFit(w);
      assert CheckoutRuns.CleanupFits(w, w.cleanups[worker]);
      match w.cleanups[worker]
      case NoSession(o) =>
        FileCleanupIsAddressed(idle, o, None, Recon.MissingSessionOf(o), Recon.ReviewMissingSession, 0);
      case Preflighted(_, _, _) =>
      case Reported(o, s, cutoff, report) =>
        FileCleanupIsAddressed(idle, o, Some(s), Recon.Session(s), Recon.ReviewPaidPending, 0);
        FileCleanupIsAddressed(idle, o, Some(s), Recon.Session(s), Recon.ExpireCheckoutSession, 1);
        SameQueueIsAddressed(idle, ReleaseOrder(idle, o, AbandonedRelease(cutoff, s)));
    }
  }

  lemma ResolveIsAddressed(w: World, h: nat)
    requires Addressed(w)
    ensures Addressed(Resolve(w, h))
  {
    if Holds(w, h) && w.handlers[h].phase == ToResolve {
      var payload := PayloadOf(w, h);
      var session := Recon.Session(payload.session);
      var matches := Matches(w.orders, payload, |w.orders|);
      FilingIsAddressed(w, None, session, Recon.ReviewUnmatchedSession, Recon.ManualReview, 0);
      if |matches| > 0 {
        FilingIsAddressed(w, Some(matches[0]), session, Recon.ReviewAttachmentConflict, Recon.Pending, 0);
      }
      SameQueueIsAddressed(ResolveSession(w, payload).0, Resolve(w, h));
    }
  }

  lemma ApplyIsAddressed(w: World, h: nat)
    requires Addressed(w)
    ensures Addressed(ApplyEvent(w, h))
  {
    if Holds(w, h) && w.handlers[h].phase.ToApply? && w.handlers[h].phase.order < |w.orders| == |w.totals| {
      var marked, o := SetPhase(w, h, ToMark), w.handlers[h].phase.order;
      SameQueueIsAddressed(w, marked);
      match w.events[w.handlers[h].event]
      case CompletedEvent(payload) =>
        var anomaly := Anomaly(payload, o, w.orders[o], w.totals[o]);
        if anomaly.Some? {
          FilingIsAddressed(marked, Some(o), Recon.Session(payload.session), anomaly.value, Recon.Pending, 0);
        } else {
          SameQueueIsAddressed(marked, ConfirmSession(marked, payload, o));
        }
      case ExpiredEvent(_) => SameQueueIsAddressed(marked, ApplyEvent(w, h));
    }
  }

  lemma QueueStepIsAddressed(w: World, settings: Recon.Settings, step: Recon.Step)
    requires Addressed(w) && Recon.Sound(QueueOf(w))
    ensures Addressed(WorkQueue(w, settings, step))
  {
    if !step.ReportStep? {
      Recon.StepKeepsSound(settings, QueueOf(w), step);
      SameRowsAreAddressed(w, WorkQueue(w, settings, step));
    }
  }

  lemma SessionsStayPayable(w: World, step: Step)
    ensures forall s :: CheckoutRuns.IsPayable(w, s) ==> CheckoutRuns.IsPayable(Next(w, step), s)
  {
    if step.CreateSessionStep? || step.PersistStep? || step.ExpireUnpersistedStep? || step.CustomerPays?
       || step.SessionLapses? || step.CleanupExpiresStep? {
      CallsKeepPayable(w, step);
    } else {
      assert Next(w, step).sessions == w.sessions;
    }
  }

  lemma CallsKeepPayable(w: World, step: Step)
    requires step.CreateSessionStep? || step.PersistStep? || step.ExpireUnpersistedStep? || step.CustomerPays?
             || step.SessionLapses? || step.CleanupExpiresStep?
    ensures forall s :: CheckoutRuns.IsPayable(w, s) ==> CheckoutRuns.IsPayable(Next(w, step), s)
  {
  }

  lemma StepIsAddressed(w: World, step: Step)
    requires Addressed(w) && IsFit(w)
    ensures Addressed(Next(w, step))
  {
    if !WritesRows(step) {
      SessionsStayPayable(w, step);
      SameQueueIsAddressed(w, Next(w, step));
    } else {
      match step
      case CancelUnpersistedStep(o) => CancelIsAddressed(w, o);
      case CleanupEndsStep(worker) => CleanupIsAddressed(w, worker);
      case ResolveStep(h) => ResolveIsAddressed(w, h);
      case ApplyStep(h) => ApplyIsAddressed(w, h);
      case QueueStep(settings, inner) => QueueStepIsAddressed(w, settings, inner);
    }
  }

  lemma {:induction false} EveryRunIsAddressed(steps: seq<Step>)
    ensures Addressed(Run(steps))
  {
    if steps != [] {
      var earlier := Run(steps[..|steps| - 1]);
      EveryRunIsAddressed(steps[..|steps| - 1]);
      EveryRunIsFit(steps[..|steps| - 1]);
      assert IsFit(earlier);
      StepIsAddressed(earlier, steps[|steps| - 1]);
    }
  }

  /** In every run a checkout that ended without handing out its session left the order cancelled, or confirmed by
      somebody else. As long as its session is open, such a cancelled order has it filed for expiration exactly when the
      session has an address: one without is left to lapse by itself. */
  lemma FailedCheckoutsAreFiled(steps: seq<Step>, s: SessionId)
    requires s in Run(steps).sessions && !Run(steps).sessions[s].offered
    requires var w := Run(steps); w.sessions[s].order in w.checkouts && w.checkouts[w.sessions[s].order] == Finished
    ensures var w := Run(steps);
            var o := w.sessions[s].order;
            && o < |w.orders|
            && w.sessions[s].state != Paid
            && (|| Visits(w.orders[o].history, Nouvelle)
                || (w.orders[o].status == Annulee
                    && (w.sessions[s].state == Open ==> (IsInQueue(w.rows, s) <==> w.sessions[s].payable))))
  {
    EveryRunIsTraced(steps);
    EveryRunIsFit(steps);
    EveryRunIsAddressed(steps);
    var w := Run(steps);
    assert AreFiled(w) && IsFiled(w, s);
    UnpaidUnlessOffered(w, s);
    if IsInQueue(w.rows, s) {
      QueuedIsPayable(w, s);
    }
    ConfirmedIsTold(w, w.sessions[s].order);
  }

  lemma UnpaidUnlessOffered(w: World, s: SessionId)
    requires Fit(w) && s in w.sessions
    ensures w.sessions[s].order < |w.orders| && (w.sessions[s].state == Paid ==> w.sessions[s].offered)
  {
    assert IsFit(w);
    assert CheckoutRuns.Consistent(w) && CheckoutRuns.SessionFits(w, w.sessions[s]);
  }

  lemma QueuedIsPayable(w: World, s: SessionId)
    requires Addressed(w) && IsInQueue(w.rows, s)
    ensures CheckoutRuns.IsPayable(w, s)
  {
    assert ExpirationsArePayable(w);
    var i :| 0 <= i < |w.rows| && IsExpiration(w.rows[i], s);
  }

  /** The order the session was opened for was confirmed when the event was handled, or a review row tells of it. */
  ghost predicate OwnOrderIsSettled(before: seq<Step>, steps: seq<Step>, payload: Payload, o: nat) {
    || ConfirmationIsKept(before, steps, payload, o)
    || exists i: nat :: FiledReviewIsKept(before, steps, Recon.Session(payload.session), i)
  }

  lemma NamedOrderIsSettled(before: seq<Step>, steps: seq<Step>, payload: Payload, o: nat)
    requires PaymentIsKept(before, steps, payload) && NamesOrder(payload, o)
    ensures OwnOrderIsSettled(before, steps, payload, o)
  {
    if i: nat :| ConfirmationIsKept(before, steps, payload, i) {
      assert IsConfirmedFor(Run(before), payload, i) && i == o;
    }
  }

  /** A paid session whose completed event was processed: its order is cancelled exactly when staff cancelled it. When
      the event was handled an order attached to the session was confirmed, and it was the session's own if the event
      names that one, or a review row was filed, which tells of the payment until staff resolve it. */
  lemma NoPaymentIsCancelledSilently(steps: seq<Step>, e: nat)
    requires IsProcessed(Run(steps), e)
    requires var s := Run(steps).events[e].payload.session;
             s in Run(steps).sessions && Run(steps).sessions[s].state == Paid
    ensures var w := Run(steps);
            var payload := w.events[e].payload;
            var o := w.sessions[payload.session].order;
            && o < |w.orders|
            && (w.orders[o].status == Annulee <==> o in w.staffCancelled)
            && exists before: seq<Step>, h ::
                 && PaymentIsSettled(before, h, steps, e)
                 && (NamesOrder(payload, o) ==> OwnOrderIsSettled(before, steps, payload, o))
  {
    var payload := Run(steps).events[e].payload;
    var o := Run(steps).sessions[payload.session].order;
    CheckoutRuns.PaidOrdersSurvive(steps, payload.session);
    ProcessedPaymentsAreNotLost(steps, e);
    var before: seq<Step>, h :| PaymentIsSettled(before, h, steps, e);
    if NamesOrder(payload, o) {
      NamedOrderIsSettled(before, steps, payload, o);
    }
  }
}
