/** Orders against Stripe: checkouts, the abandoned-order cleanup, staff and webhook deliveries, in any interleaving.
    Each database transaction and each Stripe call is one step; a step that is not enabled changes nothing. */
module Checkout {
  import opened Wrappers
  import opened Gateway
  import opened Orders
  import Recon = Reconciliation

  // ---------------------------------------------------------------- Stripe

  /** A session leaves Open once and for all. */
  datatype SessionState = Open | Lapsed | Paid

  /** A payable session has a payment address. `offered` records that the checkout handed that address out, without
      which nobody can pay. */
  datatype StripeSession = StripeSession(order: nat, payable: bool, offered: bool, state: SessionState)

  /** A reference to an order in a session: absent, unreadable, or a number. */
  datatype OrderRef = Absent | Malformed | Names(order: nat)

  datatype Payload = Payload(
    session: SessionId, isPaid: bool, isEur: bool, amount: Option<nat>, metadata: OrderRef, clientRef: OrderRef)

  datatype Event = CompletedEvent(payload: Payload) | ExpiredEvent(payload: Payload)

  // ---------------------------------------------------------------- resolving and validating a session

  predicate Attached(o: Order, id: nat, payload: Payload) {
    || o.sessionId == Some(payload.session)
    || payload.metadata == Names(id)
    || payload.clientRef == Names(id)
  }

  /** The orders a session may belong to: those that carry its id and those it names. */
  function Matches(orders: seq<Order>, payload: Payload, n: nat): (r: seq<nat>)
    requires n <= |orders|
    ensures forall id: nat :: id in r <==> id < n && Attached(orders[id], id, payload)
  {
    if n == 0 then []
    else
      Matches(orders, payload, n - 1) + if Attached(orders[n - 1], n - 1, payload) then [n - 1] else []
  }

  /** What a payment validation finds wrong, as the operation it asks for. */
  function Anomaly(payload: Payload, id: nat, o: Order, totalCents: nat): (r: Option<Recon.Operation>)
    ensures r.None? <==>
              && payload.isPaid && payload.isEur && payload.amount == Some(totalCents)
              && (o.sessionId.None? || o.sessionId == Some(payload.session))
              && (payload.metadata == Absent || payload.metadata == Names(id))
              && (payload.clientRef == Absent || payload.clientRef == Names(id))
              && (o.status == PaiementEnAttente || o.status == Nouvelle)
    ensures r == Some(Recon.ReviewPaidCancelled) ==> o.status == Annulee
    ensures r != Some(Recon.ExpireCheckoutSession)
  {
    if !payload.isPaid || !payload.isEur || payload.amount != Some(totalCents) then
      Some(Recon.ReviewPaymentMismatch)
    else if o.sessionId.Some? && o.sessionId != Some(payload.session) then Some(Recon.ReviewAttachmentConflict)
    else if payload.metadata.Malformed? || payload.clientRef.Malformed? then Some(Recon.ReviewAttachmentConflict)
    else if payload.metadata.Names? && payload.metadata.order != id then Some(Recon.ReviewAttachmentConflict)
    else if payload.clientRef.Names? && payload.clientRef.order != id then Some(Recon.ReviewAttachmentConflict)
    else if o.status == Annulee then Some(Recon.ReviewPaidCancelled)
    else if o.status != PaiementEnAttente && o.status != Nouvelle then Some(Recon.ReviewPaymentMismatch)
    else None
  }

  // ---------------------------------------------------------------- the world

  datatype CheckoutPhase =
    | Creating
    | Created(session: SessionId)
    | Unpersisted(session: SessionId)
    | Cancelling(session: SessionId, report: ExpireReport)
    | Finished

  datatype CleanupPhase =
    | NoSession(order: nat)
    | Preflighted(order: nat, session: SessionId, cutoff: int)
    | Reported(order: nat, session: SessionId, cutoff: int, report: ExpireReport)

  datatype EventStatus = Processing | Processed | FailedOnce

  datatype EventRow = EventRow(status: EventStatus, startedAt: int)

  datatype HandlerPhase = ToResolve | ToApply(order: nat) | ToMark

  /** A delivery that claimed its event; the claim's start is its token. */
  datatype Handler = Handler(event: nat, token: int, phase: HandlerPhase)

  /** `staffCancelled` and `confirmed` (orders a webhook confirmed, each of which gets one e-mail) are history
      variables. */
  datatype World = World(
    orders: seq<Order>,
    totals: seq<nat>,
    sessions: map<SessionId, StripeSession>,
    checkouts: map<nat, CheckoutPhase>,
    cleanups: map<nat, CleanupPhase>,
    events: map<nat, Event>,
    eventRows: map<nat, EventRow>,
    handlers: map<nat, Handler>,
    rows: seq<Recon.Row>,
    inHand: map<Recon.WorkerId, seq<Recon.Claim>>,
    clock: int,
    staffCancelled: set<nat>,
    confirmed: seq<nat>)

  const INITIAL := World([], [], map[], map[], map[], map[], map[], map[], [], map[], 0, {}, [])

  function SetOrder(w: World, o: nat, order: Order): World
    requires o < |w.orders|
  {
    w.(orders := w.orders[o := order])
  }

  function ReleaseOrder(w: World, o: nat, options: ReleaseOptions): (r: World)
    ensures r == w.(orders := r.orders)
  {
    if o < |w.orders| && Releases(w.orders[o], options) then SetOrder(w, o, Record(w.orders[o], Annulee)) else w
  }

  /** The reconciliation queue, as its own module sees it. */
  function QueueOf(w: World): Recon.World {
    Recon.World(w.rows, w.inHand, w.clock)
  }

  function FileReport(w: World, order: Option<nat>, session: Recon.SessionRef, operation: Recon.Operation,
                  status: Recon.RowStatus, attempts: nat): (r: World)
    ensures r == w.(rows := r.rows)
  {
    w.(rows := Recon.Upsert(w.rows, Recon.Report(order, session, operation, status, attempts), w.clock))
  }

  // ---------------------------------------------------------------- checkout

  function PlaceOrder(w: World, direct: bool, totalCents: nat): (r: World)
    ensures r == w.(orders := r.orders, totals := r.totals, checkouts := r.checkouts)
  {
    var placed := w.(orders := w.orders + [NewOrder(direct, [], w.clock)], totals := w.totals + [totalCents]);
    if direct then placed else placed.(checkouts := w.checkouts[|w.orders| := Creating])
  }

  predicate InPhase(w: World, o: nat, phase: CheckoutPhase) {
    o in w.checkouts && w.checkouts[o] == phase && o < |w.orders|
  }

  /** The creation key makes Stripe open at most one session per order. */
  function CreateSession(w: World, o: nat, s: SessionId, payable: bool): (r: World)
    ensures r == w.(sessions := r.sessions, checkouts := r.checkouts)
  {
    if InPhase(w, o, Creating) && s !in w.sessions then
      w.(sessions := w.sessions[s := StripeSession(o, payable, false, Open)], checkouts := w.checkouts[o := Created(s)])
    else w
  }

  function CreationFails(w: World, o: nat): (r: World)
    ensures r == w.(orders := r.orders, checkouts := r.checkouts)
  {
    if InPhase(w, o, Creating) then ReleaseOrder(w.(checkouts := w.checkouts[o := Finished]), o, UNPAID_RELEASE) else w
  }

  predicate HasSession(w: World, o: nat) {
    o in w.checkouts && w.checkouts[o].Created? && w.checkouts[o].session in w.sessions && o < |w.orders|
  }

  function NoUrl(w: World, o: nat): (r: World)
    ensures r == w.(orders := r.orders, checkouts := r.checkouts)
  {
    if HasSession(w, o) && !w.sessions[w.checkouts[o].session].payable then
      ReleaseOrder(w.(checkouts := w.checkouts[o := Finished]), o, UNPAID_RELEASE)
    else w
  }

  function Offer(w: World, s: SessionId): (r: World)
    requires s in w.sessions
    ensures r == w.(sessions := r.sessions)
  {
    w.(sessions := w.sessions[s := w.sessions[s].(offered := true)])
  }

  /** The payment address is handed out only once the session id is saved. */
  function Persist(w: World, o: nat): (r: World)
    ensures r == w.(orders := r.orders, sessions := r.sessions, checkouts := r.checkouts)
  {
    if HasSession(w, o) && w.sessions[w.checkouts[o].session].payable then
      var s := w.checkouts[o].session;
      SetOrder(Offer(w.(checkouts := w.checkouts[o := Finished]), s), o, w.orders[o].(sessionId := Some(s)))
    else w
  }

  function PersistFails(w: World, o: nat): (r: World)
    ensures r == w.(checkouts := r.checkouts)
  {
    if HasSession(w, o) && w.sessions[w.checkouts[o].session].payable then
      w.(checkouts := w.checkouts[o := Unpersisted(w.checkouts[o].session)])
    else w
  }

  /** What Stripe may answer to an expiration, and what it leaves of the session. A failed call may still have
      expired the session. */
  predicate Truthful(w: World, s: SessionId, report: ExpireReport, after: SessionState) {
    if s !in w.sessions then report == Unknown || report.ExpireFailed?
    else match w.sessions[s].state
      case Paid => after == Paid && (report == WasPaid || report.ExpireFailed?)
      case Lapsed => after == Lapsed && (report == WasExpired || report.ExpireFailed?)
      case Open => (report == Expired && after == Lapsed) || (report.ExpireFailed? && after != Paid)
  }

  function AfterExpireCall(w: World, s: SessionId, after: SessionState): (r: World)
    ensures r == w.(sessions := r.sessions)
  {
    if s in w.sessions then w.(sessions := w.sessions[s := w.sessions[s].(state := after)]) else w
  }

  function ExpireUnpersisted(w: World, o: nat, report: ExpireReport, after: SessionState): (r: World)
    ensures r == w.(sessions := r.sessions, checkouts := r.checkouts)
  {
    if o in w.checkouts && w.checkouts[o].Unpersisted? && Truthful(w, w.checkouts[o].session, report, after) then
      AfterExpireCall(w, w.checkouts[o].session, after).(
        checkouts := w.checkouts[o := Cancelling(w.checkouts[o].session, report)])
    else w
  }

  function CancelUnpersisted(w: World, o: nat): (r: World)
    ensures r == w.(orders := r.orders, checkouts := r.checkouts, rows := r.rows)
    ensures |r.orders| == |w.orders| && forall i :: 0 <= i < |w.orders| && i != o ==> r.orders[i] == w.orders[i]
  {
    if o in w.checkouts && w.checkouts[o].Cancelling? && o < |w.orders| then
      var phase := w.checkouts[o];
      var released := ReleaseOrder(w.(checkouts := w.checkouts[o := Finished]), o, UNPAID_RELEASE);
      // The row is written with the release, or for an order already cancelled.
      if Neutralised(phase.report) || !(w.orders[o].status in {PaiementEnAttente, Annulee}) then released
      else FileReport(released, Some(o), Recon.Session(phase.session), Recon.ExpireCheckoutSession, Recon.Pending, 1)
    else w
  }

  // ---------------------------------------------------------------- cleanup of abandoned orders

  function Preflight(w: World, worker: nat, o: nat, cutoff: int): (r: World)
    ensures r == w.(cleanups := r.cleanups)
  {
    if worker in w.cleanups || o >= |w.orders| then w
    else if w.orders[o].status != PaiementEnAttente || w.orders[o].createdAt >= cutoff then w
    else if w.orders[o].sessionId.None? then w.(cleanups := w.cleanups[worker := NoSession(o)])
    else w.(cleanups := w.cleanups[worker := Preflighted(o, w.orders[o].sessionId.value, cutoff)])
  }

  function CleanupExpires(w: World, worker: nat, report: ExpireReport, after: SessionState): (r: World)
    ensures r == w.(sessions := r.sessions, cleanups := r.cleanups)
  {
    if worker in w.cleanups && w.cleanups[worker].Preflighted?
       && Truthful(w, w.cleanups[worker].session, report, after) then
      var phase := w.cleanups[worker];
      AfterExpireCall(w, phase.session, after).(
        cleanups := w.cleanups[worker := Reported(phase.order, phase.session, phase.cutoff, report)])
    else w
  }

  /** A blocked cleanup leaves a row, unless the order was confirmed or its session changed meanwhile. */
  function FileCleanup(w: World, o: nat, expected: Option<SessionId>, session: Recon.SessionRef,
                         operation: Recon.Operation, attempts: nat): (r: World)
    ensures r == w.(rows := r.rows)
  {
    if o >= |w.orders| || (expected.Some? && w.orders[o].sessionId != expected) || w.orders[o].status == Nouvelle
    then w
    else
      var actual := if operation == Recon.ReviewPaidPending && w.orders[o].status == Annulee
                    then Recon.ReviewPaidCancelled else operation;
      FileReport(w, Some(o), session, actual, Recon.Pending, attempts)
  }

  function CleanupEnds(w: World, worker: nat): (r: World)
    ensures r == w.(orders := r.orders, cleanups := r.cleanups, rows := r.rows)
  {
    if worker !in w.cleanups then w
    else
      var idle := w.(cleanups := w.cleanups - {worker});
      match w.cleanups[worker]
      case NoSession(o) => FileCleanup(idle, o, None, Recon.MissingSessionOf(o), Recon.ReviewMissingSession, 0)
      case Preflighted(_, _, _) => w
      case Reported(o, s, cutoff, report) =>
        if Neutralised(report) then ReleaseOrder(idle, o, AbandonedRelease(cutoff, s))
        else if report == WasPaid then FileCleanup(idle, o, Some(s), Recon.Session(s), Recon.ReviewPaidPending, 0)
        else FileCleanup(idle, o, Some(s), Recon.Session(s), Recon.ExpireCheckoutSession, 1)
  }

  // ---------------------------------------------------------------- staff

  function StaffCancels(w: World, o: nat): (r: World)
    ensures r == w.(orders := r.orders, staffCancelled := r.staffCancelled)
  {
    if o < |w.orders| && Releases(w.orders[o], STAFF_CANCEL) then
      ReleaseOrder(w, o, STAFF_CANCEL).(staffCancelled := w.staffCancelled + {o})
    else w
  }

  function StaffMoves(w: World, o: nat, next: Status): (r: World)
    ensures r == w.(orders := r.orders)
  {
    if o < |w.orders| && next != Annulee && Transition(w.orders[o], next, w.clock).Ok? then
      SetOrder(w, o, Transition(w.orders[o], next, w.clock).value)
    else w
  }

  // ---------------------------------------------------------------- webhooks

  /** An event is processed once; a failed one, or one whose holder is silent for too long, can be claimed again. */
  function ClaimResult(w: World, e: nat, timeout: nat): Option<EventRow> {
    if e !in w.eventRows then Some(EventRow(Processing, w.clock))
    else
      var row := w.eventRows[e];
      if row.status == FailedOnce || (row.status == Processing && row.startedAt < w.clock - timeout)
      then Some(EventRow(Processing, w.clock))
      else None
  }

  function Deliver(w: World, h: nat, e: nat, timeout: nat): (r: World)
    ensures r == w.(eventRows := r.eventRows, handlers := r.handlers)
  {
    if timeout > 0 && e in w.events && h !in w.handlers && ClaimResult(w, e, timeout).Some? then
      w.(eventRows := w.eventRows[e := ClaimResult(w, e, timeout).value],
         handlers := w.handlers[h := Handler(e, w.clock, ToResolve)])
    else w
  }

  predicate Holds(w: World, h: nat) {
    h in w.handlers && w.handlers[h].event in w.events
  }

  function SetPhase(w: World, h: nat, phase: HandlerPhase): (r: World)
    requires h in w.handlers
    ensures r == w.(handlers := r.handlers)
  {
    w.(handlers := w.handlers[h := w.handlers[h].(phase := phase)])
  }

  function PayloadOf(w: World, h: nat): Payload
    requires Holds(w, h)
  {
    w.events[w.handlers[h].event].payload
  }

  /** A session that names no order, or several, is left to a human. */
  function ResolveSession(w: World, payload: Payload): (r: (World, Option<nat>))
    ensures r.0 == w.(rows := r.0.rows)
  {
    var matches := Matches(w.orders, payload, |w.orders|);
    var session := Recon.Session(payload.session);
    if |matches| == 0 then
      (FileReport(w, None, session, Recon.ReviewUnmatchedSession, Recon.ManualReview, 0), None)
    else if |matches| == 1 then (w, Some(matches[0]))
    else (FileReport(w, Some(matches[0]), session, Recon.ReviewAttachmentConflict, Recon.Pending, 0), None)
  }

  function Resolve(w: World, h: nat): (r: World)
    ensures r == w.(handlers := r.handlers, rows := r.rows)
  {
    if Holds(w, h) && w.handlers[h].phase == ToResolve then
      var r := ResolveSession(w, PayloadOf(w, h));
      SetPhase(r.0, h, if r.1.Some? then ToApply(r.1.value) else ToMark)
    else w
  }

  /** The confirmation transaction: an anomaly or a cancelled order is filed, a waiting order is confirmed, any other
      is left alone. */
  function ConfirmSession(w: World, payload: Payload, o: nat): (r: World)
    requires o < |w.orders| && |w.totals| == |w.orders|
    ensures r == w.(orders := r.orders, rows := r.rows, confirmed := r.confirmed)
    ensures Anomaly(payload, o, w.orders[o], w.totals[o]).None? ==> r.rows == w.rows
  {
    var anomaly := Anomaly(payload, o, w.orders[o], w.totals[o]);
    if anomaly.Some? then
      FileReport(w, Some(o), Recon.Session(payload.session), anomaly.value, Recon.Pending, 0)
    else if w.orders[o].status == PaiementEnAttente then
      SetOrder(w, o, Orders.ConfirmPaid(w.orders[o], payload.session, w.clock)).(confirmed := w.confirmed + [o])
    else w
  }

  function ApplyEvent(w: World, h: nat): (r: World)
    ensures r == w.(orders := r.orders, handlers := r.handlers, rows := r.rows, confirmed := r.confirmed)
  {
    if Holds(w, h) && w.handlers[h].phase.ToApply? then
      var o := w.handlers[h].phase.order;
      if o >= |w.orders| || |w.totals| != |w.orders| then w
      else
        var marked := SetPhase(w, h, ToMark);
        match w.events[w.handlers[h].event]
        case CompletedEvent(payload) => ConfirmSession(marked, payload, o)
        case ExpiredEvent(_) => ReleaseOrder(marked, o, UNPAID_RELEASE)
    else w
  }

  predicate HoldsToken(w: World, h: nat) {
    && h in w.handlers
    && w.handlers[h].event in w.eventRows
    && w.eventRows[w.handlers[h].event] == EventRow(Processing, w.handlers[h].token)
  }

  /** Marks the event if the token still matches; the delivery ends either way. */
  function Mark(w: World, h: nat, status: EventStatus): (r: World)
    ensures r == w.(eventRows := r.eventRows, handlers := r.handlers)
  {
    if h !in w.handlers then w
    else
      var ended := w.(handlers := w.handlers - {h});
      if HoldsToken(w, h) then
        var e := w.handlers[h].event;
        ended.(eventRows := w.eventRows[e := w.eventRows[e].(status := status)])
      else ended
  }

  // ---------------------------------------------------------------- steps

  datatype Step =
    | Wait(until: int)
    | PlaceOrderStep(direct: bool, totalCents: nat)
    | CreateSessionStep(order: nat, session: SessionId, payable: bool)
    | CreationFailsStep(order: nat)
    | NoUrlStep(order: nat)
    | PersistStep(order: nat)
    | PersistFailsStep(order: nat)
    | ExpireUnpersistedStep(order: nat, report: ExpireReport, after: SessionState)
    | CancelUnpersistedStep(order: nat)
    | CustomerPays(session: SessionId)
    | SessionLapses(session: SessionId)
    | PreflightStep(worker: nat, order: nat, cutoff: int)
    | CleanupExpiresStep(worker: nat, report: ExpireReport, after: SessionState)
    | CleanupEndsStep(worker: nat)
    | StaffCancelsStep(order: nat)
    | StaffMovesStep(order: nat, next: Status)
    | StripeEmitsCompleted(event: nat, payload: Payload)
    | StripeEmitsExpired(event: nat, session: SessionId, isPaid: bool)
    | DeliverStep(handler: nat, event: nat, timeout: nat)
    | ResolveStep(handler: nat)
    | ApplyStep(handler: nat)
    | MarkProcessedStep(handler: nat)
    | MarkFailedStep(handler: nat)
    | HandlerDies(handler: nat)
    | QueueStep(settings: Recon.Settings, step: Recon.Step)

  function Pay(w: World, s: SessionId): (r: World)
    ensures r == w.(sessions := r.sessions)
  {
    if s in w.sessions && w.sessions[s].offered && w.sessions[s].state == Open
    then AfterExpireCall(w, s, Paid) else w
  }

  /** A session lapses by itself or because the reconciliation worker expires it. */
  function Lapse(w: World, s: SessionId): (r: World)
    ensures r == w.(sessions := r.sessions)
  {
    if s in w.sessions && w.sessions[s].state == Open then AfterExpireCall(w, s, Lapsed) else w
  }

  /** Completed events may carry anything; an expired event tells the truth about a session of ours. */
  function EmitExpired(w: World, e: nat, s: SessionId, isPaid: bool): (r: World)
    ensures r == w.(events := r.events)
  {
    if e !in w.events && s in w.sessions && w.sessions[s].state == Lapsed then
      var o := w.sessions[s].order;
      w.(events := w.events[e := ExpiredEvent(Payload(s, isPaid, true, None, Names(o), Names(o)))])
    else w
  }

  /** Workers and staff at work on the queue, which gets its rows from the other steps; what a worker does to a session
      is a lapse of its own. */
  function WorkQueue(w: World, settings: Recon.Settings, step: Recon.Step): World {
    if step.ReportStep? then w
    else
      var q := Recon.Next(settings, QueueOf(w), step);
      w.(rows := q.rows, inHand := q.inHand, clock := q.clock)
  }

  ghost predicate SameTokens(w: World, r: World) {
    forall h :: h in r.handlers ==>
      h in w.handlers && r.handlers[h].event == w.handlers[h].event && r.handlers[h].token == w.handlers[h].token
  }

  ghost predicate EventsStay(w: World, r: World) {
    forall e :: e in w.events ==> e in r.events && r.events[e] == w.events[e]
  }

  /** The steps of checkouts, of Stripe and of the cleanup. */
  predicate BeforePayment(step: Step) {
    step.PlaceOrderStep? || step.CreateSessionStep? || step.CreationFailsStep? || step.NoUrlStep? || step.PersistStep?
    || step.PersistFailsStep? || step.ExpireUnpersistedStep? || step.CancelUnpersistedStep? || step.CustomerPays?
    || step.SessionLapses? || step.PreflightStep? || step.CleanupExpiresStep? || step.CleanupEndsStep?
  }

  predicate WritesOrders(step: Step) {
    step.PlaceOrderStep? || step.CreationFailsStep? || step.NoUrlStep? || step.PersistStep?
    || step.CancelUnpersistedStep? || step.CleanupEndsStep? || step.StaffCancelsStep? || step.StaffMovesStep?
    || step.ApplyStep?
  }

  predicate WritesRows(step: Step) {
    step.CancelUnpersistedStep? || step.CleanupEndsStep? || step.ResolveStep? || step.ApplyStep? || step.QueueStep?
  }

  predicate WritesClaims(step: Step) {
    step.DeliverStep? || step.MarkProcessedStep? || step.MarkFailedStep?
  }

  predicate FirstSteps(step: Step) {
    step.PlaceOrderStep? || step.CreateSessionStep? || step.CreationFailsStep? || step.NoUrlStep? || step.PersistStep?
    || step.PersistFailsStep?
  }

  function BeforePaymentEffect(w: World, step: Step): (r: World)
    requires BeforePayment(step)
    ensures r == w.(orders := r.orders, totals := r.totals, sessions := r.sessions, checkouts := r.checkouts,
                    cleanups := r.cleanups, rows := r.rows)
    ensures !WritesOrders(step) ==> r.orders == w.orders
    ensures !WritesRows(step) ==> r.rows == w.rows && r.inHand == w.inHand
  {
    match step
    case PlaceOrderStep(direct, totalCents) => PlaceOrder(w, direct, totalCents)
    case CreateSessionStep(o, s, payable) => CreateSession(w, o, s, payable)
    case CreationFailsStep(o) => CreationFails(w, o)
    case NoUrlStep(o) => NoUrl(w, o)
    case PersistStep(o) => Persist(w, o)
    case PersistFailsStep(o) => PersistFails(w, o)
    case ExpireUnpersistedStep(o, report, after) => ExpireUnpersisted(w, o, report, after)
    case CancelUnpersistedStep(o) => CancelUnpersisted(w, o)
    case CustomerPays(s) => Pay(w, s)
    case SessionLapses(s) => Lapse(w, s)
    case PreflightStep(worker, o, cutoff) => Preflight(w, worker, o, cutoff)
    case CleanupExpiresStep(worker, report, after) => CleanupExpires(w, worker, report, after)
    case CleanupEndsStep(worker) => CleanupEnds(w, worker)
  }

  function OtherEffect(w: World, step: Step): (r: World)
    requires !BeforePayment(step)
    ensures r.sessions == w.sessions && r.checkouts == w.checkouts
    ensures !step.StaffCancelsStep? ==> r.staffCancelled == w.staffCancelled
    ensures !WritesOrders(step) ==> r.orders == w.orders
    ensures !WritesRows(step) ==> r.rows == w.rows && r.inHand == w.inHand
    ensures !WritesClaims(step) ==> r.eventRows == w.eventRows && SameTokens(w, r)
    ensures !step.ApplyStep? ==> r.confirmed == w.confirmed
    ensures w.clock <= r.clock && EventsStay(w, r)
  {
    match step
    case Wait(until) => w.(clock := Max(w.clock, until))
    case StaffCancelsStep(o) => StaffCancels(w, o)
    case StaffMovesStep(o, next) => StaffMoves(w, o, next)
    case StripeEmitsCompleted(e, payload) =>
      if e in w.events then w else w.(events := w.events[e := CompletedEvent(payload)])
    case StripeEmitsExpired(e, s, isPaid) => EmitExpired(w, e, s, isPaid)
    case DeliverStep(h, e, timeout) => Deliver(w, h, e, timeout)
    case ResolveStep(h) => Resolve(w, h)
    case ApplyStep(h) => ApplyEvent(w, h)
    case MarkProcessedStep(h) => if h in w.handlers && w.handlers[h].phase == ToMark then Mark(w, h, Processed) else w
    case MarkFailedStep(h) => Mark(w, h, FailedOnce)
    case HandlerDies(h) => w.(handlers := w.handlers - {h})
    case QueueStep(settings, inner) => WorkQueue(w, settings, inner)
  }

  function Next(w: World, step: Step): (r: World)
    ensures !WritesOrders(step) ==> r.orders == w.orders
    ensures !WritesRows(step) ==> r.rows == w.rows && r.inHand == w.inHand
    ensures !WritesClaims(step) ==> r.eventRows == w.eventRows && SameTokens(w, r)
    ensures !step.ApplyStep? ==> r.confirmed == w.confirmed
    ensures w.clock <= r.clock && EventsStay(w, r)
  {
    if BeforePayment(step) then BeforePaymentEffect(w, step) else OtherEffect(w, step)
  }

  function Run(steps: seq<Step>): World {
    if steps == [] then INITIAL else Next(Run(steps[..|steps| - 1]), steps[|steps| - 1])
  }
}
