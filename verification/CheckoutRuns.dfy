/** What every run of checkouts, cleanups, staff and deliveries keeps: a paid order is cancelled by staff only. */
module CheckoutRuns {
  import opened Wrappers
  import opened Gateway
  import opened Orders
  import opened Checkout
  import Recon = Reconciliation

  // ---------------------------------------------------------------- paid sessions and cancelled orders

  /** A session that can no longer be paid: it lapsed, or its checkout has ended, or will end, without offering it. */
  predicate Dead(w: World, s: StripeSession) {
    s.state == Lapsed || (!s.offered && s.order in w.checkouts && !w.checkouts[s.order].Created?)
  }

  ghost predicate NoLiveSession(w: World, o: nat) {
    && (o in w.checkouts ==> w.checkouts[o] != Creating)
    && forall s :: s in w.sessions && w.sessions[s].order == o ==> Dead(w, w.sessions[s])
  }

  ghost predicate SessionFits(w: World, s: StripeSession) {
    && s.order < |w.orders|
    && s.order in w.checkouts
    && w.checkouts[s.order] != Creating
    && (s.offered ==> w.checkouts[s.order] == Finished)
    && (s.state == Paid ==> s.offered)
  }

  ghost predicate SessionsFit(w: World) {
    && (forall s :: s in w.sessions ==> SessionFits(w, w.sessions[s]))
    && (forall s, t :: s in w.sessions && t in w.sessions && w.sessions[s].order == w.sessions[t].order ==> s == t)
  }

  predicate IsPayable(w: World, s: SessionId) {
    s in w.sessions && w.sessions[s].payable
  }

  ghost predicate PendingAreLinked(w: World) {
    forall o :: 0 <= o < |w.orders| && w.orders[o].status == PaiementEnAttente && w.orders[o].sessionId.Some? ==>
      var s := w.orders[o].sessionId.value;
      IsPayable(w, s) && w.sessions[s].order == o
  }

  /** Cancelled, but not by staff. */
  predicate CancelledUnasked(w: World, o: nat) {
    o < |w.orders| && w.orders[o].status == Annulee && o !in w.staffCancelled
  }

  ghost predicate CancelledAreDead(w: World) {
    && (forall o: nat :: CancelledUnasked(w, o) ==> NoLiveSession(w, o))
    && (forall o :: o in w.staffCancelled ==> o < |w.orders| && w.orders[o].status == Annulee)
  }

  ghost predicate PhaseFits(w: World, o: nat, phase: CheckoutPhase) {
    match phase
    case Creating => true
    case Finished => true
    case Created(s) => s in w.sessions && w.sessions[s].order == o
    case Unpersisted(s) => IsPayable(w, s) && w.sessions[s].order == o
    case Cancelling(s, _) => IsPayable(w, s) && w.sessions[s].order == o
  }

  ghost predicate CheckoutsFit(w: World) {
    forall o :: o in w.checkouts ==> o < |w.orders| && PhaseFits(w, o, w.checkouts[o])
  }

  ghost predicate Lapsing(w: World, s: SessionId) {
    s in w.sessions && w.sessions[s].state == Lapsed
  }

  ghost predicate CleanupFits(w: World, phase: CleanupPhase) {
    match phase
    case NoSession(_) => true
    case Preflighted(_, s, _) => IsPayable(w, s)
    case Reported(_, s, _, report) => IsPayable(w, s) && (Neutralised(report) ==> Lapsing(w, s))
  }

  ghost predicate CleanupsFit(w: World) {
    forall k :: k in w.cleanups ==> CleanupFits(w, w.cleanups[k])
  }

  ghost predicate EventsFit(w: World) {
    forall e :: e in w.events && w.events[e].ExpiredEvent? ==> Genuine(w, w.events[e].payload)
  }

  ghost predicate Genuine(w: World, p: Payload) {
    Lapsing(w, p.session) && p.metadata == p.clientRef == Names(w.sessions[p.session].order)
  }

  ghost predicate HandlersFit(w: World) {
    forall h :: h in w.handlers ==> HandlerFits(w, w.handlers[h])
  }

  ghost predicate HandlerFits(w: World, h: Handler) {
    && h.event in w.events
    && (h.phase.ToApply? && w.events[h.event].ExpiredEvent? ==> Targets(w, w.events[h.event].payload, h.phase.order))
  }

  ghost predicate Targets(w: World, p: Payload, o: nat) {
    p.session in w.sessions && w.sessions[p.session].order == o
  }

  ghost predicate Core(w: World) {
    && |w.totals| == |w.orders|
    && SessionsFit(w)
    && PendingAreLinked(w)
    && CancelledAreDead(w)
    && CheckoutsFit(w)
  }

  ghost predicate Consistent(w: World) {
    Core(w) && CleanupsFit(w) && EventsFit(w) && HandlersFit(w)
  }

  /** Consistent, under a quantifier so that a proof unfolds it only where it names it. */
  ghost predicate Sound(w: World) {
    forall v :: v == w ==> Consistent(v)
  }

  // ---------------------------------------------------------------- changes that keep a world sound

  /** Sessions are only added, keep their order and address, and stay lapsed once they are. */
  ghost predicate SessionsAdvance(w: World, r: World) {
    forall s :: s in w.sessions ==>
      && s in r.sessions
      && r.sessions[s].order == w.sessions[s].order
      && r.sessions[s].payable == w.sessions[s].payable
      && (w.sessions[s].state == Lapsed ==> r.sessions[s].state == Lapsed)
  }

  /** Deliveries and cleanups under way stay as they are, end, or start afresh. */
  ghost predicate OthersGoOn(w: World, r: World) {
    && SessionsAdvance(w, r)
    && r.events == w.events
    && (forall k :: k in r.cleanups ==> (k in w.cleanups && r.cleanups[k] == w.cleanups[k]) || r.cleanups[k].NoSession?)
    && (forall h :: h in r.handlers ==>
          || (h in w.handlers && r.handlers[h] == w.handlers[h])
          || (!r.handlers[h].phase.ToApply? && r.handlers[h].event in r.events))
  }

  lemma OthersStayFit(w: World, r: World)
    requires Sound(w) && OthersGoOn(w, r)
    ensures CleanupsFit(r) && EventsFit(r) && HandlersFit(r)
  {
    assert Consistent(w);
    forall k | k in r.cleanups ensures CleanupFits(r, r.cleanups[k]) {
      assert k in w.cleanups ==> CleanupFits(w, w.cleanups[k]);
    }
    forall e | e in r.events && r.events[e].ExpiredEvent? ensures Genuine(r, r.events[e].payload) {
      assert Genuine(w, w.events[e].payload);
    }
    forall h | h in r.handlers ensures HandlerFits(r, r.handlers[h]) {
      if h in w.handlers {
        assert HandlerFits(w, w.handlers[h]);
      }
    }
  }

  lemma CoreIsKept(w: World, r: World)
    requires Sound(w)
    requires r.orders == w.orders && r.totals == w.totals && r.sessions == w.sessions && r.checkouts == w.checkouts
    requires r.staffCancelled == w.staffCancelled
    ensures Core(r)
  {
    assert Consistent(w);
    forall o: nat | CancelledUnasked(r, o) ensures NoLiveSession(r, o) {
      assert NoLiveSession(w, o);
    }
    forall o | o in r.checkouts ensures o < |r.orders| && PhaseFits(r, o, r.checkouts[o]) {
      assert PhaseFits(w, o, w.checkouts[o]);
    }
  }

  /** Rows of the queue, marks, clocks and confirmations play no part. */
  lemma OtherChangeIsSound(w: World, r: World)
    requires Sound(w) && OthersGoOn(w, r)
    requires r.orders == w.orders && r.totals == w.totals && r.sessions == w.sessions && r.checkouts == w.checkouts
    requires r.staffCancelled == w.staffCancelled
    ensures Sound(r)
  {
    OthersStayFit(w, r);
    CoreIsKept(w, r);
  }

  lemma FilingIsSound(w: World, order: Option<nat>, session: Recon.SessionRef, operation: Recon.Operation,
                      status: Recon.RowStatus, attempts: nat)
    requires Sound(w)
    ensures Sound(FileReport(w, order, session, operation, status, attempts))
  {
    OtherChangeIsSound(w, FileReport(w, order, session, operation, status, attempts));
  }

  /** Orders may change as long as a waiting one stays linked and a cancelled one is dead or excused. */
  lemma OrderChangeIsSound(w: World, r: World)
    requires Sound(w)
    requires r == w.(orders := r.orders, staffCancelled := r.staffCancelled, confirmed := r.confirmed)
    requires |w.orders| == |r.orders| && w.staffCancelled <= r.staffCancelled
    requires forall o ::
               0 <= o < |r.orders| && r.orders[o].status == PaiementEnAttente && r.orders[o].sessionId.Some? ==>
               var s := r.orders[o].sessionId.value;
               IsPayable(w, s) && w.sessions[s].order == o
    requires forall o: nat :: CancelledUnasked(r, o) ==> NoLiveSession(w, o)
    requires forall o :: o in r.staffCancelled ==> o < |r.orders| && r.orders[o].status == Annulee
    ensures Sound(r)
  {
    assert Consistent(w);
    OthersStayFit(w, r);
    forall o: nat | CancelledUnasked(r, o) ensures NoLiveSession(r, o) {
      assert NoLiveSession(w, o);
    }
    forall o | o in r.checkouts ensures o < |r.orders| && PhaseFits(r, o, r.checkouts[o]) {
      assert PhaseFits(w, o, w.checkouts[o]);
    }
  }

  lemma ReleaseIsSound(w: World, o: nat, options: ReleaseOptions)
    requires Sound(w)
    requires o < |w.orders| && Releases(w.orders[o], options) ==> o in w.staffCancelled || NoLiveSession(w, o)
    ensures Sound(ReleaseOrder(w, o, options))
  {
    assert Consistent(w);
    if o < |w.orders| && Releases(w.orders[o], options) {
      OrderChangeIsSound(w, ReleaseOrder(w, o, options));
    }
  }

  /** A checkout that has called Stripe moves on. */
  lemma PhaseChangeIsSound(w: World, r: World, o: nat, phase: CheckoutPhase)
    requires Sound(w) && o in w.checkouts && w.checkouts[o] != Finished && !phase.Creating? && !phase.Created?
    requires r == w.(checkouts := w.checkouts[o := phase])
    requires PhaseFits(r, o, phase)
    ensures Sound(r)
  {
    assert Consistent(w);
    OthersStayFit(w, r);
    forall i: nat | CancelledUnasked(r, i) ensures NoLiveSession(r, i) {
      assert NoLiveSession(w, i);
    }
    forall i | i in r.checkouts ensures i < |r.orders| && PhaseFits(r, i, r.checkouts[i]) {
      assert PhaseFits(w, i, w.checkouts[i]);
    }
  }

  lemma SessionChangeKeepsDead(w: World, s: SessionId, after: SessionState)
    requires Sound(w) && s in w.sessions
    requires after == w.sessions[s].state || w.sessions[s].state == Open
    ensures CancelledAreDead(AfterExpireCall(w, s, after))
    ensures CheckoutsFit(AfterExpireCall(w, s, after))
  {
    assert Consistent(w);
    var r := AfterExpireCall(w, s, after);
    forall i: nat | CancelledUnasked(r, i) ensures NoLiveSession(r, i) {
      assert NoLiveSession(w, i);
    }
    forall i | i in r.checkouts ensures i < |r.orders| && PhaseFits(r, i, r.checkouts[i]) {
      assert PhaseFits(w, i, w.checkouts[i]);
    }
  }

  lemma SessionChangeKeepsLinks(w: World, s: SessionId, after: SessionState)
    requires Sound(w) && s in w.sessions
    requires after == Paid ==> w.sessions[s].offered
    ensures SessionsFit(AfterExpireCall(w, s, after))
    ensures PendingAreLinked(AfterExpireCall(w, s, after))
  {
    assert Consistent(w);
    var r := AfterExpireCall(w, s, after);
    assert forall t :: t in r.sessions ==> t in w.sessions && r.sessions[t].order == w.sessions[t].order
                                           && r.sessions[t].offered == w.sessions[t].offered
                                           && r.sessions[t].payable == w.sessions[t].payable;
  }

  /** A session leaves Open, or stays as it is. */
  lemma SessionChangeIsSound(w: World, s: SessionId, after: SessionState)
    requires Sound(w) && s in w.sessions
    requires after == w.sessions[s].state || w.sessions[s].state == Open
    requires after == Paid ==> w.sessions[s].offered
    ensures Sound(AfterExpireCall(w, s, after))
  {
    SessionChangeKeepsDead(w, s, after);
    SessionChangeKeepsLinks(w, s, after);
    OthersStayFit(w, AfterExpireCall(w, s, after));
    assert Consistent(w);
  }

  lemma ExpireCallIsSound(w: World, s: SessionId, report: ExpireReport, after: SessionState)
    requires Sound(w) && Truthful(w, s, report, after)
    ensures Sound(AfterExpireCall(w, s, after))
    ensures Neutralised(report) ==> Lapsing(AfterExpireCall(w, s, after), s)
  {
    assert Consistent(w);
    if s in w.sessions {
      SessionChangeIsSound(w, s, after);
    }
  }

  // ---------------------------------------------------------------- each step keeps a world sound

  lemma CheckoutFits(w: World, o: nat)
    requires Sound(w) && o in w.checkouts
    ensures o < |w.orders| && PhaseFits(w, o, w.checkouts[o])
  {
    assert Consistent(w);
  }

  lemma NewOrderIsSound(w: World, order: Order, totalCents: nat)
    requires Sound(w) && order.status != Annulee && order.sessionId.None?
    ensures Sound(w.(orders := w.orders + [order], totals := w.totals + [totalCents]))
  {
    assert Consistent(w);
    var r := w.(orders := w.orders + [order], totals := w.totals + [totalCents]);
    OthersStayFit(w, r);
    forall o: nat | CancelledUnasked(r, o) ensures NoLiveSession(r, o) {
      assert NoLiveSession(w, o);
    }
    forall o | o in r.checkouts ensures o < |r.orders| && PhaseFits(r, o, r.checkouts[o]) {
      assert PhaseFits(w, o, w.checkouts[o]);
    }
  }

  lemma StartedCheckoutIsSound(w: World, o: nat)
    requires Sound(w) && o !in w.checkouts && o < |w.orders| && w.orders[o].status != Annulee
    ensures Sound(w.(checkouts := w.checkouts[o := Creating]))
  {
    assert Consistent(w);
    var r := w.(checkouts := w.checkouts[o := Creating]);
    OthersStayFit(w, r);
    forall i: nat | CancelledUnasked(r, i) ensures NoLiveSession(r, i) {
      assert NoLiveSession(w, i);
    }
    forall i | i in r.checkouts ensures i < |r.orders| && PhaseFits(r, i, r.checkouts[i]) {
      if i != o {
        assert PhaseFits(w, i, w.checkouts[i]);
      }
    }
  }

  lemma PlaceOrderIsSound(w: World, direct: bool, totalCents: nat)
    requires Sound(w)
    ensures Sound(PlaceOrder(w, direct, totalCents))
  {
    var order := NewOrder(direct, [], w.clock);
    NewOrderIsSound(w, order, totalCents);
    if !direct {
      if |w.orders| in w.checkouts {
        CheckoutFits(w, |w.orders|);
      }
      StartedCheckoutIsSound(w.(orders := w.orders + [order], totals := w.totals + [totalCents]), |w.orders|);
    }
  }

  lemma CreateSessionKeepsDead(w: World, o: nat, s: SessionId, payable: bool)
    requires Sound(w) && InPhase(w, o, Creating) && s !in w.sessions
    ensures CancelledAreDead(CreateSession(w, o, s, payable))
    ensures CheckoutsFit(CreateSession(w, o, s, payable))
  {
    assert Consistent(w);
    var r := CreateSession(w, o, s, payable);
    forall i: nat | CancelledUnasked(r, i) ensures NoLiveSession(r, i) {
      assert NoLiveSession(w, i);
    }
    forall i | i in r.checkouts ensures i < |r.orders| && PhaseFits(r, i, r.checkouts[i]) {
      assert PhaseFits(w, i, w.checkouts[i]);
    }
  }

  lemma CreateSessionKeepsLinks(w: World, o: nat, s: SessionId, payable: bool)
    requires Sound(w) && InPhase(w, o, Creating) && s !in w.sessions
    ensures SessionsFit(CreateSession(w, o, s, payable))
    ensures PendingAreLinked(CreateSession(w, o, s, payable))
  {
    assert Consistent(w);
  }

  lemma CreateSessionIsSound(w: World, o: nat, s: SessionId, payable: bool)
    requires Sound(w)
    ensures Sound(CreateSession(w, o, s, payable))
  {
    if InPhase(w, o, Creating) && s !in w.sessions {
      CreateSessionKeepsDead(w, o, s, payable);
      CreateSessionKeepsLinks(w, o, s, payable);
      OthersStayFit(w, CreateSession(w, o, s, payable));
      assert Consistent(w);
    }
  }

  /** A checkout that ends without offering its session releases its order. */
  lemma CheckoutEndsSoundly(w: World, o: nat)
    requires Sound(w) && o in w.checkouts && w.checkouts[o] != Finished
    ensures Sound(ReleaseOrder(w.(checkouts := w.checkouts[o := Finished]), o, UNPAID_RELEASE))
  {
    var ended := w.(checkouts := w.checkouts[o := Finished]);
    PhaseChangeIsSound(w, ended, o, Finished);
    assert Consistent(w);
    ReleaseIsSound(ended, o, UNPAID_RELEASE);
  }

  lemma CheckoutFailuresAreSound(w: World, o: nat)
    requires Sound(w)
    ensures Sound(CreationFails(w, o))
    ensures Sound(NoUrl(w, o))
  {
    assert Consistent(w);
    if InPhase(w, o, Creating) {
      CheckoutEndsSoundly(w, o);
    }
    if HasSession(w, o) && !w.sessions[w.checkouts[o].session].payable {
      assert PhaseFits(w, o, w.checkouts[o]);
      CheckoutEndsSoundly(w, o);
    }
  }

  lemma PersistIsSound(w: World, o: nat)
    requires Sound(w)
    ensures Sound(Persist(w, o))
    ensures Sound(PersistFails(w, o))
  {
    if HasSession(w, o) && w.sessions[w.checkouts[o].session].payable {
      CheckoutFits(w, o);
      PhaseChangeIsSound(w, PersistFails(w, o), o, Unpersisted(w.checkouts[o].session));
      PersistKeepsDead(w, o);
      PersistKeepsLinks(w, o);
      OthersStayFit(w, Persist(w, o));
      assert Consistent(w);
    }
  }

  /** The session of an order cancelled meanwhile, if not by staff, has lapsed before it is offered. */
  lemma PersistKeepsDead(w: World, o: nat)
    requires Sound(w) && HasSession(w, o) && w.sessions[w.checkouts[o].session].payable
    ensures CancelledAreDead(Persist(w, o))
    ensures CheckoutsFit(Persist(w, o))
  {
    assert Consistent(w);
    var r := Persist(w, o);
    assert PhaseFits(w, o, w.checkouts[o]);
    forall i: nat | CancelledUnasked(r, i) ensures NoLiveSession(r, i) {
      assert NoLiveSession(w, i);
      forall s | s in r.sessions && r.sessions[s].order == i ensures Dead(r, r.sessions[s]) {
        assert Dead(w, w.sessions[s]);
      }
    }
    forall i | i in r.checkouts ensures i < |r.orders| && PhaseFits(r, i, r.checkouts[i]) {
      assert PhaseFits(w, i, w.checkouts[i]);
    }
  }

  lemma PersistKeepsLinks(w: World, o: nat)
    requires Sound(w) && HasSession(w, o) && w.sessions[w.checkouts[o].session].payable
    ensures SessionsFit(Persist(w, o))
    ensures PendingAreLinked(Persist(w, o))
  {
    assert Consistent(w);
    var r := Persist(w, o);
    assert PhaseFits(w, o, w.checkouts[o]);
    forall s | s in r.sessions ensures SessionFits(r, r.sessions[s]) {
      assert SessionFits(w, w.sessions[s]);
    }
  }

  lemma ExpireUnpersistedIsSound(w: World, o: nat, report: ExpireReport, after: SessionState)
    requires Sound(w)
    ensures Sound(ExpireUnpersisted(w, o, report, after))
  {
    if o in w.checkouts && w.checkouts[o].Unpersisted? && Truthful(w, w.checkouts[o].session, report, after) {
      var s := w.checkouts[o].session;
      var called := AfterExpireCall(w, s, after);
      CheckoutFits(w, o);
      ExpireCallIsSound(w, s, report, after);
      CheckoutFits(called, o);
      PhaseChangeIsSound(called, ExpireUnpersisted(w, o, report, after), o, Cancelling(s, report));
    }
  }

  lemma CancelUnpersistedIsSound(w: World, o: nat)
    requires Sound(w)
    ensures Sound(CancelUnpersisted(w, o))
  {
    if o in w.checkouts && w.checkouts[o].Cancelling? && o < |w.orders| {
      CheckoutFits(w, o);
      CheckoutEndsSoundly(w, o);
      FilingIsSound(ReleaseOrder(w.(checkouts := w.checkouts[o := Finished]), o, UNPAID_RELEASE), Some(o),
                    Recon.Session(w.checkouts[o].session), Recon.ExpireCheckoutSession, Recon.Pending, 1);
    }
  }

  lemma PreflightIsSound(w: World, worker: nat, o: nat, cutoff: int)
    requires Sound(w)
    ensures Sound(Preflight(w, worker, o, cutoff))
  {
    var r := Preflight(w, worker, o, cutoff);
    if r != w {
      assert Consistent(w);
      AddedCleanupIsSound(w, worker, r.cleanups[worker]);
    }
  }

  lemma CleanupExpiresIsSound(w: World, worker: nat, report: ExpireReport, after: SessionState)
    requires Sound(w)
    ensures Sound(CleanupExpires(w, worker, report, after))
  {
    if worker in w.cleanups && w.cleanups[worker].Preflighted?
       && Truthful(w, w.cleanups[worker].session, report, after)
    {
      var phase := w.cleanups[worker];
      CleanupsAreFit(w);
      assert CleanupFits(w, phase);
      ExpireCallIsSound(w, phase.session, report, after);
      AddedCleanupIsSound(AfterExpireCall(w, phase.session, after), worker,
                          Reported(phase.order, phase.session, phase.cutoff, report));
    }
  }

  lemma AddedCleanupIsSound(w: World, worker: nat, phase: CleanupPhase)
    requires Sound(w)
    requires CleanupFits(w, phase)
    ensures Sound(w.(cleanups := w.cleanups[worker := phase]))
  {
    var none, r := w.(cleanups := map[]), w.(cleanups := w.cleanups[worker := phase]);
    OtherChangeIsSound(w, none);
    CleanupsAreFit(w);
    forall k | k in r.cleanups ensures CleanupFits(r, r.cleanups[k]) {
      assert CleanupFits(w, if k == worker then phase else w.cleanups[k]);
    }
    CleanupChangeIsSound(none, r);
  }

  lemma CleanupsAreFit(w: World)
    requires Sound(w)
    ensures CleanupsFit(w)
  {
    assert Consistent(w);
  }

  lemma CleanupChangeIsSound(w: World, r: World)
    requires Sound(w) && CleanupsFit(r) && r == w.(cleanups := r.cleanups)
    ensures Sound(r)
  {
    assert Consistent(w);
    OthersStayFit(w, r.(cleanups := map[]));
    assert EventsFit(r) by {
      assert EventsFit(r.(cleanups := map[]));
      forall e | e in r.events && r.events[e].ExpiredEvent? ensures Genuine(r, r.events[e].payload) {
        assert Genuine(r.(cleanups := map[]), r.events[e].payload);
      }
    }
    CoreIsKept(w, r);
  }

  lemma FilingCleanupIsSound(w: World, o: nat, expected: Option<SessionId>, session: Recon.SessionRef,
                             operation: Recon.Operation, attempts: nat)
    requires Sound(w)
    ensures Sound(FileCleanup(w, o, expected, session, operation, attempts))
  {
    FilingIsSound(w, Some(o), session, operation, Recon.Pending, attempts);
    FilingIsSound(w, Some(o), session, Recon.ReviewPaidCancelled, Recon.Pending, attempts);
  }

  ghost predicate IsLapsedSessionOf(w: World, s: SessionId, o: nat) {
    Lapsing(w, s) && w.sessions[s].order == o
  }

  /** Sessions are opened once per order, so an order whose session lapsed has nothing left to pay. */
  lemma LapsedLeavesNothingToPay(w: World, s: SessionId)
    requires Sound(w) && Lapsing(w, s)
    ensures NoLiveSession(w, w.sessions[s].order)
  {
    assert Consistent(w);
  }

  lemma WaitingIsLinked(w: World, o: nat)
    requires Sound(w) && o < |w.orders| && w.orders[o].status == PaiementEnAttente && w.orders[o].sessionId.Some?
    ensures Targets(w, Payload(w.orders[o].sessionId.value, false, false, None, Absent, Absent), o)
  {
    assert Consistent(w);
  }

  /** An abandoned order is cancelled only when the session it still holds has lapsed. */
  lemma CleanupEndsIsSound(w: World, worker: nat)
    requires Sound(w)
    ensures Sound(CleanupEnds(w, worker))
    ensures forall o :: 0 <= o < |w.orders| && CleanupEnds(w, worker).orders[o] != w.orders[o] ==>
              && w.orders[o].status == PaiementEnAttente
              && CleanupEnds(w, worker).orders[o] == Record(w.orders[o], Annulee)
              && w.orders[o].sessionId.Some? && IsLapsedSessionOf(w, w.orders[o].sessionId.value, o)
  {
    if worker in w.cleanups {
      var idle := w.(cleanups := w.cleanups - {worker});
      OtherChangeIsSound(w, idle);
      match w.cleanups[worker]
      case NoSession(o) =>
        FilingCleanupIsSound(idle, o, None, Recon.MissingSessionOf(o), Recon.ReviewMissingSession, 0);
      case Preflighted(_, _, _) =>
      case Reported(o, s, cutoff, report) =>
        if Neutralised(report) {
          CleanupsAreFit(w);
          assert CleanupFits(w, w.cleanups[worker]);
          LapsedLeavesNothingToPay(idle, s);
          var options := AbandonedRelease(cutoff, s);
          if o < |w.orders| && Releases(w.orders[o], options) {
            WaitingIsLinked(idle, o);
            assert IsLapsedSessionOf(w, s, o);
          }
          ReleaseIsSound(idle, o, options);
        } else {
          FilingCleanupIsSound(idle, o, Some(s), Recon.Session(s), Recon.ReviewPaidPending, 0);
          FilingCleanupIsSound(idle, o, Some(s), Recon.Session(s), Recon.ExpireCheckoutSession, 1);
        }
    }
  }

  /** Once its session has been expired, an order that still waits, is still old enough and still holds that session is
      cancelled, and any other is left alone. */
  lemma CleanupReleasesExactly(w: World, worker: nat)
    requires worker in w.cleanups && w.cleanups[worker].Reported? && w.cleanups[worker].order < |w.orders|
    requires w.cleanups[worker].report == Expired || w.cleanups[worker].report == WasExpired
    ensures var phase := w.cleanups[worker];
            var o := w.orders[phase.order];
            var r := CleanupEnds(w, worker);
            && worker !in r.cleanups
            && r.orders ==
               if o.status == PaiementEnAttente && o.createdAt < phase.cutoff && o.sessionId == Some(phase.session)
               then w.orders[phase.order := o.(status := Annulee, history := r.orders[phase.order].history)]
               else w.orders
  {
    var phase := w.cleanups[worker];
    ReleasesExactly(w.orders[phase.order], phase.cutoff, phase.session);
  }

  /** Which review each anomaly asks for: a payment that is not what the order asks, then a session or a reference that
      belongs elsewhere, then a cancelled order, then one that is past its confirmation. */
  lemma AnomaliesAreExact(payload: Payload, id: nat, o: Order, totalCents: nat)
    ensures var misfit := !payload.isPaid || !payload.isEur || payload.amount != Some(totalCents);
            var elsewhere :=
              || (o.sessionId.Some? && o.sessionId.value != payload.session)
              || (payload.metadata != Absent && payload.metadata != Names(id))
              || (payload.clientRef != Absent && payload.clientRef != Names(id));
            var anomaly := Anomaly(payload, id, o, totalCents);
            && (anomaly == Some(Recon.ReviewPaymentMismatch) <==>
                  misfit || (!elsewhere && (o.status == PaiementAVerifier || o.status == Preparee
                                            || o.status == Traitee)))
            && (anomaly == Some(Recon.ReviewAttachmentConflict) <==> !misfit && elsewhere)
            && (anomaly == Some(Recon.ReviewPaidCancelled) <==> !misfit && !elsewhere && o.status == Annulee)
            && (anomaly.None? <==>
                  !misfit && !elsewhere && (o.status == PaiementEnAttente || o.status == Nouvelle))
  {
  }

  lemma StaffCancelIsSound(w: World, o: nat)
    requires Sound(w)
    ensures Sound(StaffCancels(w, o))
  {
    if o < |w.orders| && Releases(w.orders[o], STAFF_CANCEL) {
      assert Consistent(w);
      OrderChangeIsSound(w, StaffCancels(w, o));
    }
  }

  lemma StaffMoveIsSound(w: World, o: nat, next: Status)
    requires Sound(w)
    ensures Sound(StaffMoves(w, o, next))
  {
    if o < |w.orders| && next != Annulee && Transition(w.orders[o], next, w.clock).Ok? {
      assert Consistent(w);
      OrderChangeIsSound(w, StaffMoves(w, o, next));
    }
  }

  lemma SessionEndsSoundly(w: World, s: SessionId)
    requires Sound(w)
    ensures Sound(Pay(w, s))
    ensures Sound(Lapse(w, s))
  {
    if s in w.sessions && w.sessions[s].state == Open {
      SessionChangeIsSound(w, s, Lapsed);
      if w.sessions[s].offered {
        SessionChangeIsSound(w, s, Paid);
      }
    }
  }

  lemma NewEventIsSound(w: World, e: nat, event: Event)
    requires Sound(w) && e !in w.events
    requires event.ExpiredEvent? ==> Genuine(w, event.payload)
    ensures Sound(w.(events := w.events[e := event]))
  {
    var r := w.(events := w.events[e := event]);
    CoreIsKept(w, r);
    OthersStayFit(w, w);
    assert EventsFit(r) by {
      forall i | i in r.events && r.events[i].ExpiredEvent? ensures Genuine(r, r.events[i].payload) {
        if i != e {
          assert Genuine(w, w.events[i].payload);
        }
      }
    }
    assert HandlersFit(r) by {
      forall h | h in r.handlers ensures HandlerFits(r, r.handlers[h]) {
        assert HandlerFits(w, w.handlers[h]);
      }
    }
    assert CleanupsFit(r) by {
      forall k | k in r.cleanups ensures CleanupFits(r, r.cleanups[k]) {
        assert CleanupFits(w, w.cleanups[k]);
      }
    }
  }

  lemma DeliverIsSound(w: World, h: nat, e: nat, timeout: nat)
    requires Sound(w)
    ensures Sound(Deliver(w, h, e, timeout))
  {
    OtherChangeIsSound(w, Deliver(w, h, e, timeout));
  }

  lemma NextPhaseIsSound(w: World, h: nat, phase: HandlerPhase)
    requires Sound(w) && h in w.handlers
    requires HandlerFits(w, w.handlers[h].(phase := phase))
    ensures Sound(SetPhase(w, h, phase))
  {
    var r := SetPhase(w, h, phase);
    CoreIsKept(w, r);
    OthersStayFit(w, w);
    assert HandlersFit(r) by {
      forall k | k in r.handlers ensures HandlerFits(r, r.handlers[k]) {
        assert HandlerFits(w, if k == h then w.handlers[h].(phase := phase) else w.handlers[k]);
      }
    }
    assert EventsFit(r) by {
      forall i | i in r.events && r.events[i].ExpiredEvent? ensures Genuine(r, r.events[i].payload) {
        assert Genuine(w, w.events[i].payload);
      }
    }
    assert CleanupsFit(r) by {
      forall k | k in r.cleanups ensures CleanupFits(r, r.cleanups[k]) {
        assert CleanupFits(w, w.cleanups[k]);
      }
    }
  }

  lemma GenuineEventFits(w: World, h: nat)
    requires Sound(w) && h in w.handlers
    ensures HandlerFits(w, w.handlers[h])
    ensures w.events[w.handlers[h].event].ExpiredEvent? ==>
              Genuine(w, PayloadOf(w, h)) && w.sessions[PayloadOf(w, h).session].order < |w.orders|
  {
    assert Consistent(w);
  }

  lemma ResolvedSessionIsSound(w: World, payload: Payload)
    requires Sound(w)
    ensures var r := ResolveSession(w, payload);
            && Sound(r.0)
            && r.0 == w.(rows := r.0.rows)
            && (r.1.Some? ==>
                  && r.1.value < |w.orders| && Attached(w.orders[r.1.value], r.1.value, payload)
                  && forall id: nat ::
                       id < |w.orders| && Attached(w.orders[id], id, payload) ==> id == r.1.value)
  {
    var matches := Matches(w.orders, payload, |w.orders|);
    var session := Recon.Session(payload.session);
    FilingIsSound(w, None, session, Recon.ReviewUnmatchedSession, Recon.ManualReview, 0);
    if |matches| > 0 {
      assert matches[0] in matches;
      FilingIsSound(w, Some(matches[0]), session, Recon.ReviewAttachmentConflict, Recon.Pending, 0);
    }
  }

  lemma ResolveIsSound(w: World, h: nat)
    requires Sound(w)
    ensures Sound(Resolve(w, h))
  {
    if Holds(w, h) && w.handlers[h].phase == ToResolve {
      var payload := PayloadOf(w, h);
      var r := ResolveSession(w, payload);
      ResolvedSessionIsSound(w, payload);
      GenuineEventFits(w, h);
      if w.events[w.handlers[h].event].ExpiredEvent? {
        var o := w.sessions[payload.session].order;
        assert Attached(w.orders[o], o, payload);
      }
      NextPhaseIsSound(r.0, h, if r.1.Some? then ToApply(r.1.value) else ToMark);
    }
  }

  lemma ConfirmSessionIsSound(w: World, payload: Payload, o: nat)
    requires Sound(w) && o < |w.orders| && |w.totals| == |w.orders|
    ensures Sound(ConfirmSession(w, payload, o))
  {
    assert Consistent(w);
    var anomaly := Anomaly(payload, o, w.orders[o], w.totals[o]);
    if anomaly.Some? {
      FilingIsSound(w, Some(o), Recon.Session(payload.session), anomaly.value, Recon.Pending, 0);
    } else if w.orders[o].status == PaiementEnAttente {
      OrderChangeIsSound(w, ConfirmSession(w, payload, o));
    }
  }

  /** A delivery cancels an order only on the expiry event of its own session, which has lapsed. */
  lemma ApplyEventIsSound(w: World, h: nat)
    requires Sound(w)
    ensures Sound(ApplyEvent(w, h))
    ensures forall o: nat ::
              o < |w.orders| && w.orders[o].status != Annulee && ApplyEvent(w, h).orders[o].status == Annulee ==>
              && Holds(w, h) && w.events[w.handlers[h].event].ExpiredEvent?
              && IsLapsedSessionOf(w, PayloadOf(w, h).session, o)
  {
    if Holds(w, h) && w.handlers[h].phase.ToApply? {
      var o := w.handlers[h].phase.order;
      if o < |w.orders| && |w.totals| == |w.orders| {
        GenuineEventFits(w, h);
        NextPhaseIsSound(w, h, ToMark);
        var marked := SetPhase(w, h, ToMark);
        match w.events[w.handlers[h].event]
        case CompletedEvent(payload) => ConfirmSessionIsSound(marked, payload, o);
        case ExpiredEvent(payload) =>
          LapsedLeavesNothingToPay(marked, payload.session);
          ReleaseIsSound(marked, o, UNPAID_RELEASE);
      }
    }
  }

  lemma EndedHandlerIsSound(w: World, h: nat)
    requires Sound(w)
    ensures Sound(w.(handlers := w.handlers - {h}))
  {
    OtherChangeIsSound(w, w.(handlers := w.handlers - {h}));
  }

  lemma MarkIsSound(w: World, h: nat, status: EventStatus)
    requires Sound(w)
    ensures Sound(Mark(w, h, status))
  {
    var ended := w.(handlers := w.handlers - {h});
    EndedHandlerIsSound(w, h);
    OtherChangeIsSound(ended, ended.(eventRows := Mark(w, h, status).eventRows));
  }

  lemma FirstStepKeepsSound(w: World, step: Step)
    requires Sound(w) && FirstSteps(step)
    ensures Sound(Next(w, step))
  {
    match step
    case PlaceOrderStep(direct, totalCents) => PlaceOrderIsSound(w, direct, totalCents);
    case CreateSessionStep(o, s, payable) => CreateSessionIsSound(w, o, s, payable);
    case CreationFailsStep(o) => CheckoutFailuresAreSound(w, o);
    case NoUrlStep(o) => CheckoutFailuresAreSound(w, o);
    case PersistStep(o) => PersistIsSound(w, o);
    case PersistFailsStep(o) => PersistIsSound(w, o);
  }

  lemma CheckoutStepKeepsSound(w: World, step: Step)
    requires Sound(w) && BeforePayment(step) && !FirstSteps(step)
    ensures Sound(Next(w, step))
  {
    match step
    case ExpireUnpersistedStep(o, report, after) => ExpireUnpersistedIsSound(w, o, report, after);
    case CancelUnpersistedStep(o) => CancelUnpersistedIsSound(w, o);
    case CustomerPays(s) => SessionEndsSoundly(w, s);
    case SessionLapses(s) => SessionEndsSoundly(w, s);
    case PreflightStep(worker, o, cutoff) => PreflightIsSound(w, worker, o, cutoff);
    case CleanupExpiresStep(worker, report, after) => CleanupExpiresIsSound(w, worker, report, after);
    case CleanupEndsStep(worker) => CleanupEndsIsSound(w, worker);
  }

  lemma WorkIsSound(w: World, settings: Recon.Settings, step: Recon.Step)
    requires Sound(w)
    ensures Sound(WorkQueue(w, settings, step))
  {
    OtherChangeIsSound(w, WorkQueue(w, settings, step));
  }

  lemma OtherStepKeepsSound(w: World, step: Step)
    requires Sound(w) && !BeforePayment(step)
    ensures Sound(Next(w, step))
  {
    match step
    case Wait(until) => OtherChangeIsSound(w, w.(clock := Max(w.clock, until)));
    case StaffCancelsStep(o) => StaffCancelIsSound(w, o);
    case StaffMovesStep(o, next) => StaffMoveIsSound(w, o, next);
    case StripeEmitsCompleted(e, payload) =>
      if e !in w.events {
        NewEventIsSound(w, e, CompletedEvent(payload));
      }
    case StripeEmitsExpired(e, s, isPaid) =>
      if e !in w.events && Lapsing(w, s) {
        var o := w.sessions[s].order;
        NewEventIsSound(w, e, ExpiredEvent(Payload(s, isPaid, true, None, Names(o), Names(o))));
      }
    case DeliverStep(h, e, timeout) => DeliverIsSound(w, h, e, timeout);
    case ResolveStep(h) => ResolveIsSound(w, h);
    case ApplyStep(h) => ApplyEventIsSound(w, h);
    case MarkProcessedStep(h) => MarkIsSound(w, h, Processed);
    case MarkFailedStep(h) => MarkIsSound(w, h, FailedOnce);
    case HandlerDies(h) => EndedHandlerIsSound(w, h);
    case QueueStep(settings, inner) => WorkIsSound(w, settings, inner);
  }

  lemma StepKeepsSound(w: World, step: Step)
    requires Sound(w)
    ensures Sound(Next(w, step))
  {
    if FirstSteps(step) {
      FirstStepKeepsSound(w, step);
    } else if BeforePayment(step) {
      CheckoutStepKeepsSound(w, step);
    } else {
      OtherStepKeepsSound(w, step);
    }
  }

  lemma {:induction false} EveryRunIsSound(steps: seq<Step>)
    ensures Sound(Run(steps))
  {
    if steps != [] {
      EveryRunIsSound(steps[..|steps| - 1]);
      StepKeepsSound(Run(steps[..|steps| - 1]), steps[|steps| - 1]);
    } else {
      assert Consistent(INITIAL);
    }
  }

  /** Whatever checkouts, cleanups, expirations and deliveries do, an order whose session was paid is cancelled exactly
      when staff cancelled it. */
  lemma PaidOrdersSurvive(steps: seq<Step>, s: SessionId)
    requires s in Run(steps).sessions && Run(steps).sessions[s].state == Paid
    ensures var w := Run(steps);
            var o := w.sessions[s].order;
            o < |w.orders| && (w.orders[o].status == Annulee <==> o in w.staffCancelled)
  {
    EveryRunIsSound(steps);
    var w := Run(steps);
    assert Consistent(w);
    var o := w.sessions[s].order;
    assert SessionFits(w, w.sessions[s]);
    assert !Dead(w, w.sessions[s]) && !NoLiveSession(w, o);
  }

  lemma OneMore(steps: seq<Step>, step: Step)
    ensures Run(steps + [step]) == Next(Run(steps), step)
  {
    var all := steps + [step];
    assert all[..|all| - 1] == steps;
  }

  /** An order waiting for its confirmation, whose session was offered and paid. */
  ghost predicate PaidAndWaiting(w: World, s: SessionId) {
    && w.orders == [NewOrder(false, [], 0).(sessionId := Some(s))]
    && w.sessions == map[s := StripeSession(0, true, true, Paid)]
  }

  lemma CheckoutAndPayment(s: SessionId)
    ensures PaidAndWaiting(Pay(Persist(CreateSession(PlaceOrder(INITIAL, false, 100), 0, s, true), 0), s), s)
  {
    var placed := PlaceOrder(INITIAL, false, 100);
    assert placed.orders == [NewOrder(false, [], 0)] && placed.checkouts == map[0 := Creating];
    var created := CreateSession(placed, 0, s, true);
    assert created.sessions == map[s := StripeSession(0, true, false, Open)];
    var persisted := Persist(created, 0);
    assert persisted.sessions == map[s := StripeSession(0, true, true, Open)];
  }

  lemma OpensAndPays(s: SessionId)
    ensures Next(INITIAL, PlaceOrderStep(false, 100)) == PlaceOrder(INITIAL, false, 100)
    ensures forall w :: Next(w, CreateSessionStep(0, s, true)) == CreateSession(w, 0, s, true)
    ensures forall w :: Next(w, PersistStep(0)) == Persist(w, 0)
    ensures forall w :: Next(w, CustomerPays(s)) == Pay(w, s)
    ensures forall w :: Next(w, StaffCancelsStep(0)) == StaffCancels(w, 0)
  {
  }

  lemma TwoMore(steps: seq<Step>, a: Step, b: Step)
    ensures Run(steps + [a] + [b]) == Next(Next(Run(steps), a), b)
  {
    OneMore(steps, a);
    OneMore(steps + [a], b);
  }

  lemma ReachPaidAndWaiting(s: SessionId) returns (steps: seq<Step>)
    ensures PaidAndWaiting(Run(steps), s)
  {
    TwoMore([], PlaceOrderStep(false, 100), CreateSessionStep(0, s, true));
    steps := [] + [PlaceOrderStep(false, 100)] + [CreateSessionStep(0, s, true)];
    TwoMore(steps, PersistStep(0), CustomerPays(s));
    steps := steps + [PersistStep(0)] + [CustomerPays(s)];
    OpensAndPays(s);
    CheckoutAndPayment(s);
  }

  lemma StaffCancelsWaiting(w: World, s: SessionId)
    requires PaidAndWaiting(w, s)
    ensures var r := StaffCancels(w, 0);
            && r.sessions == w.sessions
            && |r.orders| == 1 && r.orders[0].status == Annulee && r.orders[0].sessionId == Some(s)
  {
  }

  /** The exception is real: until a webhook confirms the payment, staff may cancel a paid order. */
  lemma StaffMayCancelAPaidOrder(s: SessionId) returns (steps: seq<Step>)
    ensures var w := Run(steps);
            s in w.sessions && w.sessions[s] == StripeSession(0, true, true, Paid)
            && |w.orders| == 1 && w.orders[0].status == Annulee && w.orders[0].sessionId == Some(s)
  {
    steps := ReachPaidAndWaiting(s);
    OpensAndPays(s);
    StaffCancelsWaiting(Run(steps), s);
    OneMore(steps, StaffCancelsStep(0));
    steps := steps + [StaffCancelsStep(0)];
  }
}
