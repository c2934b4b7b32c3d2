/** What each step of checkouts, cleanups, staff, Stripe and deliveries writes, and when it writes nothing. */
module CheckoutSteps {
  import opened Wrappers
  import opened Gateway
  import opened Orders
  import opened Checkout
  import Recon = Reconciliation

  /** The order cancelled if it still waits for its payment, and nothing else. */
  ghost predicate IsGivenUp(before: seq<Order>, after: seq<Order>, o: nat) {
    after ==
    if o < |before| && before[o].status == PaiementEnAttente
    then before[o := Order(Annulee, before[o].lines, before[o].createdAt, before[o].sessionId, before[o].confirmedAt,
                           before[o].history + [HistoryEntry(Some(PaiementEnAttente), Annulee)])]
    else before
  }

  // ---------------------------------------------------------------- checkouts

  lemma GivingUp(w: World, o: nat)
    ensures IsGivenUp(w.orders, ReleaseOrder(w, o, UNPAID_RELEASE).orders, o)
  {
    if o < |w.orders| {
      ReleasesExactly(w.orders[o], 0, 0);
    }
  }

  /** A checkout starts with its order, which waits for the payment; a direct order has none. */
  lemma PlacingStartsCheckout(w: World, direct: bool, totalCents: nat)
    ensures var r := PlaceOrder(w, direct, totalCents);
            && r.orders == w.orders + [NewOrder(direct, [], w.clock)]
            && r.totals == w.totals + [totalCents]
            && r.checkouts == (if direct then w.checkouts else w.checkouts[|w.orders| := Creating])
  {
  }

  /** A checkout that asks for its session gets one that is open and not offered yet, or gives its order up. */
  lemma CreationIsExact(w: World, o: nat, s: SessionId, payable: bool)
    requires o < |w.orders|
    ensures o in w.checkouts && w.checkouts[o] == Creating && s !in w.sessions ==>
              CreateSession(w, o, s, payable)
              == w.(sessions := w.sessions[s := StripeSession(o, payable, false, Open)],
                    checkouts := w.checkouts[o := Created(s)])
    ensures o !in w.checkouts || w.checkouts[o] != Creating || s in w.sessions ==> CreateSession(w, o, s, payable) == w
    ensures var r := CreationFails(w, o);
            if o in w.checkouts && w.checkouts[o] == Creating
            then IsGivenUp(w.orders, r.orders, o) && r.checkouts == w.checkouts[o := Finished]
            else r == w
  {
    GivingUp(w, o);
  }

  /** The checkout of this order has a session, with or without an address. */
  predicate HasCreated(w: World, o: nat, s: SessionId, payable: bool) {
    o < |w.orders| && o in w.checkouts && w.checkouts[o] == Created(s) && s in w.sessions
    && w.sessions[s].payable == payable
  }

  /** A session without an address makes the checkout give its order up. One with an address is noted on the order and
      offered, or, when that note cannot be saved, kept back. */
  lemma CreatedIsExact(w: World, o: nat, s: SessionId)
    ensures HasCreated(w, o, s, false) ==>
              && IsGivenUp(w.orders, NoUrl(w, o).orders, o)
              && NoUrl(w, o).checkouts == w.checkouts[o := Finished]
              && Persist(w, o) == w == PersistFails(w, o)
    ensures HasCreated(w, o, s, true) ==>
              && NoUrl(w, o) == w
              && Persist(w, o) ==
                 w.(orders := w.orders[o := w.orders[o].(sessionId := Some(s))],
                    sessions := w.sessions[s := w.sessions[s].(offered := true)],
                    checkouts := w.checkouts[o := Finished])
              && PersistFails(w, o) == w.(checkouts := w.checkouts[o := Unpersisted(s)])
    ensures o !in w.checkouts || !w.checkouts[o].Created? ==>
              NoUrl(w, o) == w == Persist(w, o) == PersistFails(w, o)
  {
    GivingUp(w.(checkouts := w.checkouts[o := Finished]), o);
  }

  /** What Stripe answers when asked to expire a session, and what becomes of it: an open one lapses, or the call fails
      and it may have lapsed all the same; a paid or lapsed one stays what it is; one that is not there is unknown. */
  lemma AnswersAreTruthful(w: World, s: SessionId, report: ExpireReport, after: SessionState)
    ensures s !in w.sessions ==>
              (Truthful(w, s, report, after) <==> report == Unknown || report.ExpireFailed?)
    ensures s in w.sessions && w.sessions[s].state == Open ==>
              (Truthful(w, s, report, after) <==>
                 (report == Expired && after == Lapsed)
                 || (report.ExpireFailed? && (after == Open || after == Lapsed)))
    ensures s in w.sessions && w.sessions[s].state == Lapsed ==>
              (Truthful(w, s, report, after) <==> after == Lapsed && (report == WasExpired || report.ExpireFailed?))
    ensures s in w.sessions && w.sessions[s].state == Paid ==>
              (Truthful(w, s, report, after) <==> after == Paid && (report == WasPaid || report.ExpireFailed?))
  {
  }

  /** A session kept back is expired at Stripe; then the order is given up, and the session filed for another attempt
      unless it lapsed or the order was confirmed meanwhile. */
  lemma KeptBackIsExact(w: World, o: nat, report: ExpireReport, after: SessionState)
    requires o < |w.orders| && o in w.checkouts
    ensures var r := ExpireUnpersisted(w, o, report, after);
            if w.checkouts[o].Unpersisted? && Truthful(w, w.checkouts[o].session, report, after) then
              var s := w.checkouts[o].session;
              && r.checkouts == w.checkouts[o := Cancelling(s, report)]
              && r.sessions == (if s in w.sessions then w.sessions[s := w.sessions[s].(state := after)] else w.sessions)
              && r == w.(checkouts := r.checkouts, sessions := r.sessions)
            else r == w
    ensures var r, phase := CancelUnpersisted(w, o), w.checkouts[o];
            if phase.Cancelling? then
              && IsGivenUp(w.orders, r.orders, o)
              && r.checkouts == w.checkouts[o := Finished]
              && r.rows ==
                 (if phase.report == Expired || phase.report == WasExpired
                     || (w.orders[o].status != PaiementEnAttente && w.orders[o].status != Annulee)
                  then w.rows
                  else
                    Recon.Upsert(w.rows, Recon.Report(Some(o), Recon.Session(phase.session),
                                                      Recon.ExpireCheckoutSession, Recon.Pending, 1), w.clock))
            else r == w
  {
    GivingUp(w.(checkouts := w.checkouts[o := Finished]), o);
  }

  // ---------------------------------------------------------------- customers and Stripe

  /** A customer pays an open session that was offered; an open session lapses; both are final. */
  lemma SessionsEndExactly(w: World, s: SessionId)
    ensures Pay(w, s) ==
            if s in w.sessions && w.sessions[s].offered && w.sessions[s].state == Open
            then w.(sessions := w.sessions[s := w.sessions[s].(state := Paid)]) else w
    ensures Lapse(w, s) ==
            if s in w.sessions && w.sessions[s].state == Open
            then w.(sessions := w.sessions[s := w.sessions[s].(state := Lapsed)]) else w
  {
  }

  // ---------------------------------------------------------------- the cleanup

  /** The cleanup takes up an order that waits for its payment since before the cutoff, with the session it holds. */
  lemma PreflightIsExact(w: World, worker: nat, o: nat, cutoff: int)
    ensures Preflight(w, worker, o, cutoff) ==
            if worker !in w.cleanups && o < |w.orders| && w.orders[o].status == PaiementEnAttente
               && w.orders[o].createdAt < cutoff
            then w.(cleanups := w.cleanups[worker :=
                      if w.orders[o].sessionId.Some? then Preflighted(o, w.orders[o].sessionId.value, cutoff)
                      else NoSession(o)])
            else w
  {
  }

  /** It then has the session expired, and keeps Stripe's answer. */
  lemma CleanupCallIsExact(w: World, worker: nat, report: ExpireReport, after: SessionState)
    requires worker in w.cleanups
    ensures var r, phase := CleanupExpires(w, worker, report, after), w.cleanups[worker];
            if phase.Preflighted? && Truthful(w, phase.session, report, after) then
              var s := phase.session;
              && r.cleanups == w.cleanups[worker := Reported(phase.order, s, phase.cutoff, report)]
              && r.sessions == (if s in w.sessions then w.sessions[s := w.sessions[s].(state := after)] else w.sessions)
              && r == w.(cleanups := r.cleanups, sessions := r.sessions)
            else r == w
  {
  }

  /** What the cleanup files when it must not cancel the order: nothing once the order is confirmed or holds another
      session, else what it found; a paid session of an order cancelled meanwhile is told apart. */
  ghost predicate IsLeftToQueue(w: World, r: World, o: nat, session: Option<SessionId>, operation: Recon.Operation,
                                attempts: nat)
  {
    r.rows ==
    if o >= |w.orders| || w.orders[o].status == Nouvelle || (session.Some? && w.orders[o].sessionId != session)
    then w.rows
    else
      Recon.Upsert(w.rows, Recon.Report(
                     Some(o), if session.Some? then Recon.Session(session.value) else Recon.MissingSessionOf(o),
                     if operation == Recon.ReviewPaidPending && w.orders[o].status == Annulee
                     then Recon.ReviewPaidCancelled else operation,
                     Recon.Pending, attempts), w.clock)
  }

  /** An order that never got a session is left to a human, a paid one too, and one whose session could not be expired
      to the workers. */
  lemma BlockedCleanupIsExact(w: World, worker: nat)
    requires worker in w.cleanups && !w.cleanups[worker].Preflighted?
    requires w.cleanups[worker].Reported? ==>
               w.cleanups[worker].report != Expired && w.cleanups[worker].report != WasExpired
    ensures var r, phase := CleanupEnds(w, worker), w.cleanups[worker];
            && r.orders == w.orders && r.cleanups == w.cleanups - {worker}
            && match phase
               case NoSession(o) => IsLeftToQueue(w, r, o, None, Recon.ReviewMissingSession, 0)
               case Preflighted(_, _, _) => true
               case Reported(o, s, _, report) =>
                 if report == WasPaid then IsLeftToQueue(w, r, o, Some(s), Recon.ReviewPaidPending, 0)
                 else IsLeftToQueue(w, r, o, Some(s), Recon.ExpireCheckoutSession, 1)
  {
  }

  // ---------------------------------------------------------------- staff

  /** Staff cancel an order that is not over. */
  lemma StaffCancelIsExact(w: World, o: nat)
    ensures StaffCancels(w, o) ==
            if o < |w.orders| && w.orders[o].status != Traitee && w.orders[o].status != Annulee
            then w.(orders := w.orders[o := Record(w.orders[o], Annulee)], staffCancelled := w.staffCancelled + {o})
            else w
  {
    if o < |w.orders| {
      ReleasesExactly(w.orders[o], 0, 0);
    }
  }

  /** Staff move an order along the table; a cancellation is not a move. */
  lemma StaffMoveIsExact(w: World, o: nat, next: Status)
    ensures StaffMoves(w, o, next) ==
            if o < |w.orders| && next != Annulee && CanTransition(w.orders[o].status, next)
            then w.(orders := w.orders[o := Transition(w.orders[o], next, w.clock).value]) else w
  {
  }

  // ---------------------------------------------------------------- deliveries

  /** The orders a session is attached to. */
  ghost predicate IsAttached(w: World, payload: Payload, o: nat) {
    && o < |w.orders|
    && (|| (w.orders[o].sessionId.Some? && w.orders[o].sessionId.value == payload.session)
        || (payload.metadata.Names? && payload.metadata.order == o)
        || (payload.clientRef.Names? && payload.clientRef.order == o))
  }

  lemma {:induction false} MatchesAscend(orders: seq<Order>, payload: Payload, n: nat)
    requires n <= |orders|
    ensures forall i, j :: 0 <= i < j < |Matches(orders, payload, n)| ==>
              Matches(orders, payload, n)[i] < Matches(orders, payload, n)[j]
  {
    if n > 0 {
      MatchesAscend(orders, payload, n - 1);
      var earlier := Matches(orders, payload, n - 1);
      forall i | 0 <= i < |earlier| ensures earlier[i] < n - 1 {
        assert earlier[i] in earlier;
      }
    }
  }

  lemma AttachedAreMatches(w: World, payload: Payload)
    ensures forall i: nat :: i in Matches(w.orders, payload, |w.orders|) <==> IsAttached(w, payload, i)
  {
  }

  lemma FirstIsIn(s: seq<nat>)
    requires s != []
    ensures s[0] in s
  {
  }

  /** A session is resolved, without a trace, exactly when one order is attached to it. */
  lemma ResolutionIsExact(w: World, payload: Payload, o: nat)
    ensures ResolveSession(w, payload) == (w, Some(o)) <==>
              IsAttached(w, payload, o) && forall i: nat :: IsAttached(w, payload, i) ==> i == o
  {
    var matches := Matches(w.orders, payload, |w.orders|);
    AttachedAreMatches(w, payload);
    MatchesAscend(w.orders, payload, |w.orders|);
    if |matches| == 1 {
      OnlyIsIn(matches);
    } else if |matches| > 1 {
      assert matches[0] in matches && matches[1] in matches;
    }
  }

  lemma OnlyIsIn(s: seq<nat>)
    requires |s| == 1
    ensures forall i: nat :: i in s <==> i == s[0]
  {
  }

  /** One that no order is attached to is left to a human. */
  lemma UnmatchedIsExact(w: World, payload: Payload)
    requires forall i: nat :: !IsAttached(w, payload, i)
    ensures ResolveSession(w, payload) ==
            (w.(rows := Recon.Upsert(w.rows, Recon.Report(None, Recon.Session(payload.session),
                                                          Recon.ReviewUnmatchedSession, Recon.ManualReview, 0),
                                     w.clock)), None)
  {
    var matches := Matches(w.orders, payload, |w.orders|);
    AttachedAreMatches(w, payload);
    if matches != [] {
      FirstIsIn(matches);
    }
  }

  /** One with several orders is filed with the first of them. */
  lemma ConflictIsExact(w: World, payload: Payload, o: nat, i: nat)
    requires IsAttached(w, payload, o) && IsAttached(w, payload, i) && o < i
    requires forall j: nat :: j < o ==> !IsAttached(w, payload, j)
    ensures ResolveSession(w, payload) ==
            (w.(rows := Recon.Upsert(w.rows, Recon.Report(Some(o), Recon.Session(payload.session),
                                                          Recon.ReviewAttachmentConflict, Recon.Pending, 0),
                                     w.clock)), None)
  {
    var matches := Matches(w.orders, payload, |w.orders|);
    AttachedAreMatches(w, payload);
    MatchesAscend(w.orders, payload, |w.orders|);
    assert o in matches && i in matches;
    assert matches[0] in matches && matches[0] == o;
    assert |matches| > 1;
  }

  /** A payment whose order has nothing against it confirms a waiting order and leaves a confirmed one alone; otherwise
      the anomaly is filed. */
  lemma ConfirmationIsExact(w: World, payload: Payload, o: nat)
    requires o < |w.orders| == |w.totals|
    ensures var anomaly := Anomaly(payload, o, w.orders[o], w.totals[o]);
            ConfirmSession(w, payload, o) ==
            if anomaly.Some? then
              w.(rows := Recon.Upsert(w.rows, Recon.Report(Some(o), Recon.Session(payload.session), anomaly.value,
                                                           Recon.Pending, 0), w.clock))
            else if w.orders[o].status == PaiementEnAttente then
              w.(orders := w.orders[o := ConfirmPaid(w.orders[o], payload.session, w.clock)],
                 confirmed := w.confirmed + [o])
            else w
  {
  }

  /** A delivery goes on from the resolution to the order it found, or straight to its end. */
  lemma DeliveryGoesOn(w: World, h: nat)
    requires h in w.handlers && w.handlers[h].event in w.events
    ensures var handler, payload := w.handlers[h], w.events[w.handlers[h].event].payload;
            var found := ResolveSession(w, payload);
            Resolve(w, h) ==
            if handler.phase == ToResolve then
              found.0.(handlers := w.handlers[h := Handler(handler.event, handler.token,
                                                           if found.1.Some? then ToApply(found.1.value) else ToMark)])
            else w
  {
  }

  /** An expiry event gives its order up, a completed one confirms it or reports why not. */
  lemma DeliveryIsExact(w: World, h: nat)
    requires h in w.handlers && w.handlers[h].event in w.events
    ensures var handler, event := w.handlers[h], w.events[w.handlers[h].event];
            handler.phase.ToApply? && handler.phase.order < |w.orders| == |w.totals| ==>
              var o := handler.phase.order;
              var r := ApplyEvent(w, h);
              && r.handlers == w.handlers[h := Handler(handler.event, handler.token, ToMark)]
              && (event.ExpiredEvent? ==> IsGivenUp(w.orders, r.orders, o) && r.rows == w.rows)
              && (event.CompletedEvent? ==>
                    var confirmed := ConfirmSession(w, event.payload, o);
                    r.orders == confirmed.orders && r.rows == confirmed.rows && r.confirmed == confirmed.confirmed)
    ensures !w.handlers[h].phase.ToApply? ==> ApplyEvent(w, h) == w
  {
    if w.handlers[h].phase.ToApply? {
      GivingUp(SetPhase(w, h, ToMark), w.handlers[h].phase.order);
    }
  }

  /** A mark is written when the event is still in progress since the delivery's own claim; the delivery ends anyway. */
  lemma MarkIsExact(w: World, h: nat, status: EventStatus)
    requires h in w.handlers
    ensures var e, token, r := w.handlers[h].event, w.handlers[h].token, Mark(w, h, status);
            && r.handlers == w.handlers - {h}
            && r.eventRows ==
               (if e in w.eventRows && w.eventRows[e].status == Processing && w.eventRows[e].startedAt == token
                then w.eventRows[e := EventRow(status, token)] else w.eventRows)
  {
  }

  /** A delivery ends by marking its event once it is done with it. */
  lemma EndsAreExact(w: World, h: nat)
    requires h in w.handlers
    ensures var e, token := w.handlers[h].event, w.handlers[h].token;
            var isHeld := e in w.eventRows && w.eventRows[e] == EventRow(Processing, token);
            var r := Next(w, MarkProcessedStep(h));
            if w.handlers[h].phase != ToMark then r == w
            else
              && r.handlers == w.handlers - {h}
              && r.eventRows == if isHeld then w.eventRows[e := EventRow(Processed, token)] else w.eventRows
  {
  }

  /** One that fails says so of its event, whatever it was about; one that dies says nothing. */
  lemma FailuresAreExact(w: World, h: nat)
    requires h in w.handlers
    ensures var e, token := w.handlers[h].event, w.handlers[h].token;
            var isHeld := e in w.eventRows && w.eventRows[e] == EventRow(Processing, token);
            var r := Next(w, MarkFailedStep(h));
            && r.handlers == w.handlers - {h}
            && r.eventRows == (if isHeld then w.eventRows[e := EventRow(FailedOnce, token)] else w.eventRows)
    ensures Next(w, HandlerDies(h)) == w.(handlers := w.handlers - {h})
  {
  }

  /** Time only goes on, and the queue is worked on as its own runs say, on the same rows at the same time. */
  lemma OthersAreExact(w: World, until: int, settings: Recon.Settings, inner: Recon.Step)
    ensures Next(w, Wait(until)) == if until > w.clock then w.(clock := until) else w
    ensures var r := Next(w, QueueStep(settings, inner));
            && r == w.(rows := r.rows, inHand := r.inHand, clock := r.clock)
            && (!inner.ReportStep? ==>
                  Recon.World(r.rows, r.inHand, r.clock)
                  == Recon.Next(settings, Recon.World(w.rows, w.inHand, w.clock), inner))
            && (inner.ReportStep? ==> r == w)
  {
  }

  /** An event is let in when it is new, when it failed, or when its holder has been silent for longer than the timeout;
      the delivery holds the time of its claim. */
  lemma ClaimIsExact(w: World, h: nat, e: nat, timeout: nat)
    ensures Deliver(w, h, e, timeout) ==
            if && timeout > 0 && e in w.events && h !in w.handlers
               && (|| e !in w.eventRows || w.eventRows[e].status == FailedOnce
                   || (w.eventRows[e].status == Processing && w.eventRows[e].startedAt + timeout < w.clock))
            then w.(eventRows := w.eventRows[e := EventRow(Processing, w.clock)],
                    handlers := w.handlers[h := Handler(e, w.clock, ToResolve)])
            else w
  {
  }

  /** Stripe tells of the end of a session once it has lapsed, under a new event that names its order. */
  lemma ExpiryIsAnnounced(w: World, e: nat, s: SessionId, isPaid: bool)
    ensures EmitExpired(w, e, s, isPaid) ==
            if e !in w.events && s in w.sessions && w.sessions[s].state == Lapsed then
              var o := w.sessions[s].order;
              w.(events := w.events[e := ExpiredEvent(Payload(s, isPaid, true, None, Names(o), Names(o)))])
            else w
  {
  }
}
