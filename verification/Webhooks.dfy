/** The webhook service over its tables. Each private operation is one transaction; `HandleStripeWebhook` is a whole
    delivery that nobody interrupts, and the runs of Deliveries interleave its parts. */
module Webhooks {
  import opened Wrappers
  import opened Orders
  import opened Checkout
  import opened Deliveries
  import Recon = Reconciliation

  /** The token of a claim, or why there is none; the program answers an event in progress with an error. */
  datatype Claim = Claimed(token: int) | Duplicate | InProgress

  /** The four steps of an undisturbed delivery. */
  ghost function Delivered(w: World, h: nat, e: nat, timeout: nat): World {
    var applied := ApplyEvent(Resolve(Deliver(w, h, e, timeout), h), h);
    if h in applied.handlers && applied.handlers[h].phase == ToMark then Mark(applied, h, Processed) else applied
  }

  lemma DeliveredByFourSteps(w: World, h: nat, e: nat, timeout: nat)
    ensures Delivered(w, h, e, timeout) ==
            Next(Next(Next(Next(w, DeliverStep(h, e, timeout)), ResolveStep(h)), ApplyStep(h)), MarkProcessedStep(h))
  {
    var claimed := Deliver(w, h, e, timeout);
    DeliverySteps(w, h, e, timeout);
    HandlingSteps(claimed, h);
    HandlingSteps(Resolve(claimed, h), h);
    DeliverySteps(ApplyEvent(Resolve(claimed, h), h), h, e, timeout);
  }

  lemma DeliverySteps(w: World, h: nat, e: nat, timeout: nat)
    ensures Next(w, DeliverStep(h, e, timeout)) == Deliver(w, h, e, timeout)
    ensures Next(w, MarkProcessedStep(h)) ==
            if h in w.handlers && w.handlers[h].phase == ToMark then Mark(w, h, Processed) else w
  {
  }

  lemma HandlingSteps(w: World, h: nat)
    ensures Next(w, ResolveStep(h)) == Resolve(w, h)
    ensures Next(w, ApplyStep(h)) == ApplyEvent(w, h)
  {
  }

  /** The delivery's steps once its event is claimed, with the handler it leaves at the end removed. */
  ghost function Handle(w: World, event: Event): (r: World)
    requires |w.totals| == |w.orders|
    ensures r == w.(orders := r.orders, rows := r.rows, confirmed := r.confirmed)
  {
    var r := ResolveSession(w, event.payload);
    if r.1.None? || r.1.value >= |w.orders| then r.0
    else
      match event
      case CompletedEvent(payload) => ConfirmSession(r.0, payload, r.1.value)
      case ExpiredEvent(_) => ReleaseOrder(r.0, r.1.value, UNPAID_RELEASE)
  }

  /** Whatever a completed event carries, handling it confirms its order or leaves an unresolved review row. */
  lemma HandlingSettles(w: World, payload: Payload)
    requires Recon.Sound(QueueOf(w)) && |w.totals| == |w.orders|
    ensures Handles(w, Handle(w, CompletedEvent(payload)), payload)
  {
    var matches := Matches(w.orders, payload, |w.orders|);
    ResolveSessionEvolves(w, ResolveSession(w, payload).0, payload);
    if |matches| == 1 {
      assert matches[0] in matches;
      ConfirmSessionSettles(w, payload, matches[0]);
    }
  }

  /** The worlds differ at most in what claims events, checkouts, cleanups and sessions. */
  ghost predicate SameBooks(w: World, v: World) {
    w.orders == v.orders && w.totals == v.totals && w.rows == v.rows && w.confirmed == v.confirmed && w.clock == v.clock
  }

  lemma ConfirmingReadsBooks(w: World, v: World, payload: Payload, o: nat)
    requires o < |w.orders| == |w.totals| && SameBooks(w, v)
    ensures SameBooks(ConfirmSession(w, payload, o), ConfirmSession(v, payload, o))
  {
  }

  lemma ReleasingReadsBooks(w: World, v: World, o: nat, options: ReleaseOptions)
    requires SameBooks(w, v)
    ensures SameBooks(ReleaseOrder(w, o, options), ReleaseOrder(v, o, options))
  {
  }

  lemma FilingReadsBooks(w: World, v: World, order: Option<nat>, session: Recon.SessionRef, operation: Recon.Operation,
                         status: Recon.RowStatus)
    requires SameBooks(w, v)
    ensures SameBooks(FileReport(w, order, session, operation, status, 0),
                      FileReport(v, order, session, operation, status, 0))
  {
  }

  lemma ResolvingReadsBooks(w: World, v: World, payload: Payload)
    requires SameBooks(w, v)
    ensures SameBooks(ResolveSession(w, payload).0, ResolveSession(v, payload).0)
    ensures ResolveSession(w, payload).1 == ResolveSession(v, payload).1
  {
    var matches, session := Matches(w.orders, payload, |w.orders|), Recon.Session(payload.session);
    if |matches| == 0 {
      FilingReadsBooks(w, v, None, session, Recon.ReviewUnmatchedSession, Recon.ManualReview);
    } else if |matches| > 1 {
      FilingReadsBooks(w, v, Some(matches[0]), session, Recon.ReviewAttachmentConflict, Recon.Pending);
    }
  }

  lemma ResolvedOrder(w: World, payload: Payload)
    requires ResolveSession(w, payload).1.Some?
    ensures ResolveSession(w, payload).1.value < |w.orders| && ResolveSession(w, payload).0 == w
  {
    var matches := Matches(w.orders, payload, |w.orders|);
    assert matches[0] in matches;
  }

  lemma HandlingReadsBooks(w: World, v: World, event: Event)
    requires |w.totals| == |w.orders| && SameBooks(w, v)
    ensures SameBooks(Handle(w, event), Handle(v, event))
  {
    ResolvingReadsBooks(w, v, event.payload);
    var order := ResolveSession(w, event.payload).1;
    if order.Some? {
      ResolvedOrder(w, event.payload);
      ResolvedOrder(v, event.payload);
      ConfirmingReadsBooks(w, v, event.payload, order.value);
      ReleasingReadsBooks(w, v, order.value, UNPAID_RELEASE);
    }
  }

  lemma ResolveThenApply(w: World, h: nat)
    requires |w.totals| == |w.orders| && Holds(w, h) && w.handlers[h].phase == ToResolve
    ensures SameBooks(ApplyEvent(Resolve(w, h), h), Handle(w, w.events[w.handlers[h].event]))
    ensures var r := ApplyEvent(Resolve(w, h), h);
            && r.handlers == w.handlers[h := w.handlers[h].(phase := ToMark)]
            && r == w.(orders := r.orders, rows := r.rows, confirmed := r.confirmed, handlers := r.handlers)
  {
    var event := w.events[w.handlers[h].event];
    var order := ResolveSession(w, event.payload).1;
    if order.Some? {
      ResolvedOrder(w, event.payload);
      var marked := SetPhase(w, h, ToMark);
      assert SetPhase(Resolve(w, h), h, ToMark).handlers == marked.handlers;
      ConfirmingReadsBooks(w, marked, event.payload, order.value);
      ReleasingReadsBooks(w, marked, order.value, UNPAID_RELEASE);
    }
  }

  lemma ClaimThenHandle(w: World, h: nat, e: nat, timeout: nat)
    requires |w.totals| == |w.orders| && timeout > 0 && e in w.events && h !in w.handlers
    requires ClaimResult(w, e, timeout).Some?
    ensures var r := ApplyEvent(Resolve(Deliver(w, h, e, timeout), h), h);
            && SameBooks(r, Handle(w, w.events[e]))
            && r == w.(orders := r.orders, rows := r.rows, confirmed := r.confirmed, handlers := r.handlers,
                       eventRows := r.eventRows)
            && r.eventRows == w.eventRows[e := EventRow(Processing, w.clock)]
            && r.handlers == w.handlers[h := Handler(e, w.clock, ToMark)]
  {
    ResolveThenApply(Deliver(w, h, e, timeout), h);
    HandlingReadsBooks(w, Deliver(w, h, e, timeout), w.events[e]);
  }

  /** Four steps in a row: an event that is let in is handled and marked, any other changes nothing. */
  lemma DeliveryHandles(w: World, h: nat, e: nat, timeout: nat)
    requires |w.totals| == |w.orders| && timeout > 0 && e in w.events && h !in w.handlers
    ensures ClaimResult(w, e, timeout).None? ==> Delivered(w, h, e, timeout) == w
    ensures ClaimResult(w, e, timeout).Some? ==>
              var r := Delivered(w, h, e, timeout);
              && SameBooks(r, Handle(w, w.events[e]))
              && r == w.(orders := r.orders, rows := r.rows, confirmed := r.confirmed, eventRows := r.eventRows)
              && r.eventRows == w.eventRows[e := EventRow(Processed, w.clock)]
  {
    if ClaimResult(w, e, timeout).Some? {
      ClaimThenHandle(w, h, e, timeout);
      var applied := ApplyEvent(Resolve(Deliver(w, h, e, timeout), h), h);
      MarkEnds(applied, h);
      assert applied.handlers - {h} == w.handlers;
    }
  }

  /** The same, on tables with nothing under way that are given one event. */
  lemma LoneDelivery(w: World, given: World, e: nat, timeout: nat)
    requires |w.totals| == |w.orders| && timeout > 0 && w.handlers == map[]
    requires given == w.(events := given.events) && e in given.events
    ensures ClaimResult(w, e, timeout).None? ==> Delivered(given, 0, e, timeout) == given
    ensures ClaimResult(w, e, timeout).Some? ==>
              var claimed := w.(eventRows := w.eventRows[e := EventRow(Processing, w.clock)]);
              Delivered(given, 0, e, timeout) ==
              Handle(claimed, given.events[e]).(
                events := given.events, eventRows := claimed.eventRows[e := EventRow(Processed, w.clock)])
  {
    DeliveryHandles(given, 0, e, timeout);
    if ClaimResult(w, e, timeout).Some? {
      var claimed := w.(eventRows := w.eventRows[e := EventRow(Processing, w.clock)]);
      HandlingReadsBooks(given, claimed, given.events[e]);
      assert claimed.eventRows[e := EventRow(Processed, w.clock)] == w.eventRows[e := EventRow(Processed, w.clock)];
    }
  }

  lemma MarkEnds(w: World, h: nat)
    requires HoldsToken(w, h)
    ensures var e := w.handlers[h].event;
            Mark(w, h, Processed) ==
            w.(handlers := w.handlers - {h}, eventRows := w.eventRows[e := EventRow(Processed, w.handlers[h].token)])
  {
  }

  lemma SameOrdersAndRows(v: World, w: World, r: World, payload: Payload)
    requires Handles(v, w, payload) && r.orders == w.orders && r.rows == w.rows
    ensures Handles(v, r, payload)
  {
    if !ReviewIsFiled(v.rows, w.rows, Recon.Session(payload.session)) {
      var o: nat :| IsConfirmedFor(w, payload, o);
      assert IsConfirmedFor(r, payload, o);
    }
  }

  class Tables {
    var orders: seq<Order>
    var totals: seq<nat>
    var eventRows: map<nat, EventRow>
    var rows: seq<Recon.Row>
    ghost var confirmed: seq<nat>

    constructor (orders: seq<Order>, totals: seq<nat>)
      requires |orders| == |totals|
      ensures this.orders == orders && this.totals == totals && eventRows == map[] && rows == [] && confirmed == []
    {
      this.orders, this.totals, eventRows, rows, confirmed := orders, totals, map[], [], [];
    }

    /** The tables at an instant, seen as a world with nothing under way. */
    ghost function View(now: int): World
      reads this
    {
      INITIAL.(orders := orders, totals := totals, eventRows := eventRows, rows := rows, clock := now,
               confirmed := confirmed)
    }

    method CreateActiveReconciliation(order: Option<nat>, session: Recon.SessionRef, operation: Recon.Operation,
                                      status: Recon.RowStatus, attempts: nat, now: int)
      modifies this`rows
      ensures View(now) == FileReport(old(View(now)), order, session, operation, status, attempts)
    {
      rows := Recon.Upsert(rows, Recon.Report(order, session, operation, status, attempts), now);
    }

    /** Lets one delivery process the event at a time, and none once it is processed. */
    method ClaimStripeWebhookEvent(e: nat, now: int, timeout: nat) returns (claim: Claim)
      modifies this`eventRows
      ensures claim.Duplicate? <==> e in old(eventRows) && old(eventRows)[e].status == Processed
      ensures claim.InProgress? <==>
                e in old(eventRows) && old(eventRows)[e].status == Processing
                && old(eventRows)[e].startedAt >= now - timeout
      ensures claim.Claimed? ==> claim.token == now
      ensures eventRows == if claim.Claimed? then old(eventRows)[e := EventRow(Processing, now)] else old(eventRows)
    {
      if e !in eventRows {
        claim := Claimed(now);
      } else if eventRows[e].status == Processed {
        claim := Duplicate;
      } else {
        var staleBefore := now - timeout;
        if eventRows[e].status == FailedOnce || eventRows[e].startedAt < staleBefore {
          claim := Claimed(now);
        } else {
          claim := InProgress;
        }
      }
      if claim.Claimed? {
        eventRows := eventRows[e := EventRow(Processing, now)];
      }
    }

    /** Marks the event if the token still is the claim's. */
    method MarkStripeWebhookEvent(e: nat, token: int, status: EventStatus) returns (marked: bool)
      modifies this`eventRows
      ensures marked == (e in old(eventRows) && old(eventRows)[e] == EventRow(Processing, token))
      ensures eventRows == if marked then old(eventRows)[e := EventRow(status, token)] else old(eventRows)
    {
      marked := e in eventRows && eventRows[e].status == Processing && eventRows[e].startedAt == token;
      if marked {
        eventRows := eventRows[e := eventRows[e].(status := status)];
      }
    }

    method ResolveCommandeForCheckoutSession(payload: Payload, now: int) returns (order: Option<nat>)
      modifies this`rows
      ensures (View(now), order) == ResolveSession(old(View(now)), payload)
    {
      var matched := [];
      for id := 0 to |orders|
        invariant matched == Matches(orders, payload, id)
        invariant rows == old(rows)
      {
        if Attached(orders[id], id, payload) {
          matched := matched + [id];
        }
      }
      var session := Recon.Session(payload.session);
      order := None;
      if |matched| == 0 {
        CreateActiveReconciliation(None, session, Recon.ReviewUnmatchedSession, Recon.ManualReview, 0, now);
      } else if |matched| == 1 {
        order := Some(matched[0]);
      } else {
        CreateActiveReconciliation(Some(matched[0]), session, Recon.ReviewAttachmentConflict, Recon.Pending, 0, now);
      }
    }

    /** The confirmation transaction of a resolved order; the result says whether an e-mail is due. */
    method ConfirmPaidCommande(payload: Payload, o: nat, now: int) returns (confirms: bool)
      requires o < |orders| == |totals|
      modifies this
      ensures View(now) == ConfirmSession(old(View(now)), payload, o)
      ensures confirmed == if confirms then old(confirmed) + [o] else old(confirmed)
    {
      var locked := orders[o];
      var anomaly := Anomaly(payload, o, locked, totals[o]);
      confirms := false;
      if anomaly.Some? {
        CreateActiveReconciliation(Some(o), Recon.Session(payload.session), anomaly.value, Recon.Pending, 0, now);
        return;
      }
      if locked.status != PaiementEnAttente {
        return;
      }
      orders := orders[o := Orders.ConfirmPaid(locked, payload.session, now)];
      confirmed := confirmed + [o];
      confirms := true;
    }

    /** The order of an expired session is released if it still waits for its payment. */
    method ExpirePendingCommande(payload: Payload, now: int)
      requires |orders| == |totals|
      modifies this
      ensures View(now) == Handle(old(View(now)), ExpiredEvent(payload))
    {
      var order := ResolveCommandeForCheckoutSession(payload, now);
      if order.Some? && order.value < |orders| && Releases(orders[order.value], UNPAID_RELEASE) {
        orders := orders[order.value := Record(orders[order.value], Annulee)];
      }
    }

    method ProcessEvent(event: Event, now: int)
      requires |orders| == |totals|
      modifies this
      ensures View(now) == Handle(old(View(now)), event)
      ensures event.CompletedEvent? && Recon.Sound(QueueOf(old(View(now)))) ==>
                Handles(old(View(now)), View(now), event.payload)
    {
      ghost var before := View(now);
      if event.CompletedEvent? {
        var order := ResolveCommandeForCheckoutSession(event.payload, now);
        if order.Some? && order.value < |orders| {
          var confirms := ConfirmPaidCommande(event.payload, order.value, now);
        }
      } else {
        ExpirePendingCommande(event.payload, now);
      }
      if event.CompletedEvent? && Recon.Sound(QueueOf(before)) {
        HandlingSettles(before, event.payload);
      }
    }

    /** A whole delivery does what the four steps of a run do in a row. Whatever the event carries, a completed one
        that is let in leaves its order confirmed or an unresolved review row, and any that is let in ends up
        processed. */
    method HandleStripeWebhook(e: nat, event: Event, now: int, timeout: nat) returns (claim: Claim)
      requires |orders| == |totals| && timeout > 0
      modifies this
      ensures claim.Claimed? <==> ClaimResult(old(View(now)), e, timeout).Some?
      ensures !claim.Claimed? ==> View(now) == old(View(now))
      ensures claim.Claimed? ==> e in eventRows && eventRows[e] == EventRow(Processed, now)
      ensures claim.Claimed? && event.CompletedEvent? && Recon.Sound(QueueOf(old(View(now)))) ==>
                Handles(old(View(now)), View(now), event.payload)
      ensures View(now).(events := map[e := event]) ==
              Delivered(old(View(now)).(events := map[e := event]), 0, e, timeout)
    {
      LoneDelivery(View(now), View(now).(events := map[e := event]), e, timeout);
      claim := ClaimStripeWebhookEvent(e, now, timeout);
      if !claim.Claimed? {
        return;
      }
      ProcessEvent(event, now);
      ghost var handled := View(now);
      var marked := MarkStripeWebhookEvent(e, claim.token, Processed);
      if Handles(old(View(now)), handled, event.payload) {
        SameOrdersAndRows(old(View(now)), handled, View(now), event.payload);
      }
    }
  }
}
