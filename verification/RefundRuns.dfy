/** Runs of the refund service: requests of several members of staff, answers, failures and webhooks in any order. */
module RefundRuns {
  import opened Wrappers
  import Orders
  import opened RefundKeys
  import opened Refunds

  /** `flying` holds the calls whose answer is awaited; `calls`, a history variable, all the calls ever made. */
  datatype World = World(t: Tables, flying: map<nat, Prepared>, calls: seq<Prepared>)

  const INITIAL := World(Tables([], []), map[], [])

  datatype Step =
    | OrderPlaced(order: PaidOrder)
    | OrderChanges(o: nat, order: PaidOrder)
    | RequestStep(worker: nat, o: nat, d: Request, requester: Option<string>, resolved: Option<string>)
    | AnswerStep(worker: nat, answer: StripeAnswer)
    | WorkerDies(worker: nat)
    | WebhookStep(s: StripeRefund)

  /** User identifiers and refund reasons contain no separator. */
  predicate IsWellFormed(d: Request, requester: Option<string>) {
    NoColon(requester.GetOr(UNKNOWN_REQUESTER)) && NoColon(d.reason)
  }

  function RequestRefund(w: World, worker: nat, o: nat, d: Request, requester: Option<string>, resolved: Option<string>)
    : World
  {
    if worker in w.flying || !IsWellFormed(d, requester) then w
    else
      var r := Prepare(w.t, o, d, requester, resolved);
      if r.1.Ok? && r.1.value.Ready? then
        World(r.0, w.flying[worker := r.1.value], w.calls + [r.1.value])
      else w.(t := r.0)
  }

  function ReceiveAnswer(w: World, worker: nat, answer: StripeAnswer): World {
    if worker in w.flying && w.flying[worker].Ready? then
      w.(t := Settle(w.t, w.flying[worker], answer).0, flying := w.flying - {worker})
    else w
  }

  function Next(w: World, step: Step): World {
    match step
    case OrderPlaced(order) => w.(t := w.t.(orders := w.t.orders + [order]))
    case OrderChanges(o, order) =>
      if o < |w.t.orders| && order.total == w.t.orders[o].total then w.(t := w.t.(orders := w.t.orders[o := order]))
      else w
    case RequestStep(worker, o, d, requester, resolved) => RequestRefund(w, worker, o, d, requester, resolved)
    case AnswerStep(worker, answer) => ReceiveAnswer(w, worker, answer)
    case WorkerDies(worker) => w.(flying := w.flying - {worker})
    case WebhookStep(s) => if Sync(w.t, s).Some? then w.(t := Sync(w.t, s).value) else w
  }

  function Run(steps: seq<Step>): World {
    if steps == [] then INITIAL else Next(Run(steps[..|steps| - 1]), steps[|steps| - 1])
  }

  // ---------------------------------------------------------------- rows

  ghost predicate KeyFits(r: Refund) {
    && WellFormed(r.key)
    && match r.key
       case RequestKey(o, _, _) => r.order == o
       case ContentKey(o, _, amount, reason, _) =>
         r.order == o && r.reason == reason && (r.stripeId.None? ==> r.amount == amount)
       case StripeKey(_) => r.stripeId.Some?
  }

  ghost predicate RowFits(t: Tables, r: Refund) {
    r.amount > 0 && r.order < |t.orders| && KeyFits(r)
  }

  ghost predicate RowsAreFit(t: Tables) {
    && (forall i :: 0 <= i < |t.refunds| ==> RowFits(t, t.refunds[i]))
    && (forall i, j :: 0 <= i < j < |t.refunds| ==> t.refunds[i].key != t.refunds[j].key)
  }

  /** RowsAreFit, under a quantifier so that a proof unfolds it only where it names it. */
  ghost predicate RowsFit(t: Tables) {
    forall v :: v == t ==> RowsAreFit(v)
  }

  /** What any step does to a row: until Stripe gives it an id, what was sent to Stripe does not change. */
  ghost predicate RowEvolves(a: Refund, b: Refund) {
    && b.key == a.key
    && b.order == a.order
    && b.reason == a.reason
    && (b.stripeId.None? ==>
          a.stripeId.None? && b.amount == a.amount && b.paymentIntent == a.paymentIntent && b.currency == a.currency)
  }

  ghost predicate TablesGoOn(t: Tables, r: Tables) {
    && |t.orders| <= |r.orders|
    && (forall o :: 0 <= o < |t.orders| ==> r.orders[o].total == t.orders[o].total)
    && |t.refunds| <= |r.refunds|
    && (forall i :: 0 <= i < |t.refunds| ==> RowEvolves(t.refunds[i], r.refunds[i]))
  }

  /** TablesGoOn, under a quantifier so that a proof unfolds it only where it names it. */
  ghost predicate TablesEvolve(t: Tables, r: Tables) {
    forall v :: v == r ==> TablesGoOn(t, v)
  }

  lemma ReplacedRowFits(t: Tables, r: Tables, i: nat, row: Refund)
    requires RowsFit(t) && i < |t.refunds| && RowEvolves(t.refunds[i], row) && row.amount > 0
    requires r.refunds == t.refunds[i := row] && |t.orders| <= |r.orders|
    requires forall o :: 0 <= o < |t.orders| ==> r.orders[o].total == t.orders[o].total
    ensures RowsFit(r) && TablesEvolve(t, r)
  {
    assert RowsAreFit(t);
    forall k | 0 <= k < |r.refunds| ensures RowFits(r, r.refunds[k]) {
      assert RowFits(t, t.refunds[k]);
    }
  }

  lemma AddedRowFits(t: Tables, r: Tables, row: Refund)
    requires RowsFit(t) && RowFits(t, row) && FindKey(t.refunds, row.key, |t.refunds|).None?
    requires r.refunds == t.refunds + [row] && |t.orders| == |r.orders|
    requires forall o :: 0 <= o < |t.orders| ==> r.orders[o].total == t.orders[o].total
    ensures RowsFit(r) && TablesEvolve(t, r)
  {
    assert RowsAreFit(t);
    forall k | 0 <= k < |r.refunds| ensures RowFits(r, r.refunds[k]) {
      if k < |t.refunds| {
        assert RowFits(t, t.refunds[k]);
      }
    }
  }

  lemma OrdersChangeFits(t: Tables, r: Tables)
    requires RowsFit(t) && r.refunds == t.refunds && |t.orders| <= |r.orders|
    requires forall o :: 0 <= o < |t.orders| ==> r.orders[o].total == t.orders[o].total
    ensures RowsFit(r) && TablesEvolve(t, r)
  {
    assert RowsAreFit(t);
    forall k | 0 <= k < |r.refunds| ensures RowFits(r, r.refunds[k]) {
      assert RowFits(t, t.refunds[k]);
    }
  }

  // ---------------------------------------------------------------- requests

  predicate IsReady(r: (Tables, Result<Prepared, RefundError>)) {
    r.1.Ok? && r.1.value.Ready?
  }

  /** A call goes with a row of its order that is new or had failed without reaching Stripe, carries what that row
      says, and under a request id bears the key of that request; anything else leaves the refunds alone. */
  lemma PreparedPaid(t: Tables, o: nat, d: Request, requester: Option<string>)
    requires RowsFit(t) && o < |t.orders| && t.orders[o].paymentIntent.Some? && IsWellFormed(d, requester)
    ensures var r := PreparePaid(t, o, d, requester);
            && RowsFit(r.0) && TablesEvolve(t, r.0)
            && (!IsReady(r) ==> r.0 == t)
            && (IsReady(r) ==> CallFits(t, r.0, r.1.value, o, d, requester))
  {
    assert RowsAreFit(t);
    var r := PreparePaid(t, o, d, requester);
    if IsReady(r) {
      var call := r.1.value;
      if call.refund < |t.refunds| {
        var i := call.refund;
        assert RowFits(t, t.refunds[i]);
        ReplacedRowFits(t, r.0, i, r.0.refunds[i]);
      } else {
        AddedRowFits(t, r.0, r.0.refunds[|t.refunds|]);
      }
    }
  }

  /** What a call is, given the tables before and after its reservation. */
  ghost predicate CallFits(t: Tables, r: Tables, call: Prepared, o: nat, d: Request, requester: Option<string>) {
    && call.Ready?
    && call.order == o < |t.orders|
    && call.refund < |r.refunds|
    && Carries(r.refunds[call.refund], call)
    && r.refunds[call.refund].order == o
    && r.refunds[call.refund].status == Pending
    && r.refunds[call.refund].stripeId.None?
    && call.reason == d.reason
    && (if d.requestId != "" then call.key == RequestKeyOf(o, requester, d) else call.key.ContentKey?)
    && (if call.refund < |t.refunds| then
          Retryable(t.refunds[call.refund]) && r.refunds == t.refunds[call.refund := r.refunds[call.refund]]
        else r.refunds == t.refunds + [r.refunds[call.refund]])
    && 0 < call.amount <= CalculateSummary(t, o).refundable
  }

  ghost predicate Carries(r: Refund, call: Prepared) {
    && call.Ready?
    && r.key == call.key
    && (call.key.ContentKey? ==> call.reason == call.key.reason)
    && (r.stripeId.None? ==>
          r.amount == call.amount && r.currency == call.currency && r.paymentIntent == call.paymentIntent)
  }

  lemma PreparedRequest(t: Tables, o: nat, d: Request, requester: Option<string>, resolved: Option<string>)
    requires RowsFit(t) && IsWellFormed(d, requester)
    ensures var r := Prepare(t, o, d, requester, resolved);
            && RowsFit(r.0) && TablesEvolve(t, r.0)
            && (!IsReady(r) ==> r.0.refunds == t.refunds)
            && (IsReady(r) ==> CallFits(t, r.0, r.1.value, o, d, requester))
  {
    if o < |t.orders| && IsRefundable(t.orders[o]) {
      var attached := t.(orders := t.orders[o := Attach(t.orders[o], resolved)]);
      if attached.orders[o].paymentIntent.Some? {
        OrdersChangeFits(t, attached);
        PreparedPaid(attached, o, d, requester);
      }
    }
  }

  /** The attempt a request repeats, if it carries a request id. */
  function Repeated(t: Tables, o: nat, d: Request, requester: Option<string>): Option<nat> {
    if d.requestId != "" then FindKey(t.refunds, RequestKeyOf(o, requester, d), |t.refunds|) else None
  }

  /** A call tells Stripe the reason its row records, except when it repeats a request under its id with a reason other
      than the recorded one. */
  lemma ReasonIsKeptExactly(t: Tables, o: nat, d: Request, requester: Option<string>, resolved: Option<string>)
    requires RowsFit(t) && IsWellFormed(d, requester)
    requires IsReady(Prepare(t, o, d, requester, resolved))
    ensures var r := Prepare(t, o, d, requester, resolved);
            var repeated := Repeated(t, o, d, requester);
            && r.1.value.refund < |r.0.refunds|
            && (r.1.value.reason == r.0.refunds[r.1.value.refund].reason <==>
                  (repeated.Some? ==> t.refunds[repeated.value].reason == d.reason))
            && (d.requestId == "" ==> r.1.value.reason == r.0.refunds[r.1.value.refund].reason)
  {
    PreparedRequest(t, o, d, requester, resolved);
    var r := Prepare(t, o, d, requester, resolved);
    assert RowsAreFit(t) && RowsAreFit(r.0);
    var i := r.1.value.refund;
    assert RowFits(r.0, r.0.refunds[i]);
    if i < |t.refunds| {
      assert TablesGoOn(t, r.0);
      assert RowEvolves(t.refunds[i], r.0.refunds[i]);
    }
    if Repeated(t, o, d, requester).Some? {
      var k := Repeated(t, o, d, requester).value;
      assert TablesGoOn(t, r.0);
      assert RowEvolves(t.refunds[k], r.0.refunds[k]);
    }
  }

  predicate IsPaidAndOpen(o: PaidOrder) {
    && (o.status == Orders.Nouvelle || o.status == Orders.Preparee || o.status == Orders.Traitee
        || o.status == Orders.PaiementAVerifier)
    && (o.paymentIntent.Some? || o.session.Some?)
  }

  /** What is left of the order's total, and what a request that repeats no attempt asks for. */
  function Left(t: Tables, o: nat): int
    requires o < |t.orders|
  {
    t.orders[o].total - Reserved(t, o)
  }

  function Asked(t: Tables, o: nat, d: Request): int
    requires o < |t.orders|
  {
    if d.amount.Some? then d.amount.value else Left(t, o)
  }

  /** The key of a request: its id, or else what it asks for. */
  predicate IsKeyOf(key: Key, o: nat, d: Request, requester: Option<string>, amount: int) {
    var who := if requester.Some? then requester.value else "unknown";
    if d.requestId != "" then key == RequestKey(o, who, d.requestId)
    else
      && key.ContentKey? && key.amount == amount
      && key == ContentKey(o, who, key.amount, d.reason, HashForIdempotency(d.note))
  }

  predicate RepeatsNothing(t: Tables, o: nat, d: Request, requester: Option<string>, amount: int) {
    forall i :: 0 <= i < |t.refunds| ==> !IsKeyOf(t.refunds[i].key, o, d, requester, amount)
  }

  /** A request that repeats no attempt is accepted exactly when it asks for a positive amount that is left, all of it
      when it names none; the call and the new row carry that amount. */
  lemma NewRequestIsAcceptedExactly(t: Tables, o: nat, d: Request, requester: Option<string>, resolved: Option<string>)
    requires o < |t.orders| && IsPaidAndOpen(t.orders[o]) && (t.orders[o].paymentIntent.Some? || resolved.Some?)
    requires RepeatsNothing(t, o, d, requester, Asked(t, o, d))
    ensures var r := Prepare(t, o, d, requester, resolved);
            var amount := Asked(t, o, d);
            var paymentIntent :=
              if t.orders[o].paymentIntent.Some? then t.orders[o].paymentIntent.value else resolved.value;
            if amount <= 0 then r == (t, Err(FullyRefunded))
            else if amount > Left(t, o) then r == (t, Err(ExceedsRefundable(Max(0, Left(t, o)))))
            else
              && IsReady(r)
              && IsKeyOf(r.1.value.key, o, d, requester, amount)
              && r.1.value == Ready(|t.refunds|, o, amount, "eur", d.reason, r.1.value.key, paymentIntent)
              && r.0.refunds == t.refunds + [Refund(o, None, paymentIntent, amount, "eur", d.reason, Pending, requester,
                                                    r.1.value.key)]
              && r.0.orders == t.orders[o := t.orders[o].(paymentIntent := Some(paymentIntent))]
  {
    var attached := t.(orders := t.orders[o := Attach(t.orders[o], resolved)]);
    assert Reserved(attached, o) == Reserved(t, o);
  }

  /** A request id that was used before is not served again, unless that attempt failed without reaching Stripe: then
      it is taken up with its own amount, provided the request does not ask for another one and as much is left. */
  lemma RepeatedIdIsServedExactly(t: Tables, o: nat, d: Request, requester: Option<string>, resolved: Option<string>,
                                  i: nat)
    requires RowsFit(t) && o < |t.orders| && IsPaidAndOpen(t.orders[o])
    requires t.orders[o].paymentIntent.Some? || resolved.Some?
    requires i < |t.refunds| && d.requestId != "" && IsKeyOf(t.refunds[i].key, o, d, requester, 0)
    ensures var r := Prepare(t, o, d, requester, resolved);
            var row := t.refunds[i];
            if row.status != Failed || row.stripeId.Some? then r.1 == Ok(Idempotent) && r.0.refunds == t.refunds
            else if d.amount.Some? && d.amount.value != 0 && d.amount.value != row.amount
            then r == (t, Err(IdempotencyConflict))
            else if row.amount > Left(t, o) then r == (t, Err(ExceedsRefundable(Max(0, Left(t, o)))))
            else
              && r.1 == Ok(Ready(i, o, row.amount, row.currency, d.reason, row.key, row.paymentIntent))
              && r.0.refunds == t.refunds[i := row.(status := Pending, requestedBy := requester)]
  {
    assert RowsAreFit(t);
    assert RowFits(t, t.refunds[i]);
    var attached := t.(orders := t.orders[o := Attach(t.orders[o], resolved)]);
    assert Reserved(attached, o) == Reserved(t, o);
  }

  /** Without an id the same holds of a request for the same amount, reason and note, once that amount is left. */
  lemma RepeatedContentIsServedExactly(t: Tables, o: nat, d: Request, requester: Option<string>,
                                       resolved: Option<string>, i: nat)
    requires RowsFit(t) && o < |t.orders| && IsPaidAndOpen(t.orders[o])
    requires t.orders[o].paymentIntent.Some? || resolved.Some?
    requires i < |t.refunds| && d.requestId == "" && IsKeyOf(t.refunds[i].key, o, d, requester, Asked(t, o, d))
    requires 0 < Asked(t, o, d) <= Left(t, o)
    ensures var r := Prepare(t, o, d, requester, resolved);
            var row := t.refunds[i];
            if row.status != Failed || row.stripeId.Some? then r.1 == Ok(Idempotent) && r.0.refunds == t.refunds
            else
              && r.1 == Ok(Ready(i, o, row.amount, row.currency, d.reason, row.key, row.paymentIntent))
              && r.0.refunds == t.refunds[i := row.(status := Pending, requestedBy := requester)]
  {
    assert RowsAreFit(t);
    var attached := t.(orders := t.orders[o := Attach(t.orders[o], resolved)]);
    assert Reserved(attached, o) == Reserved(t, o);
  }

  /** What is refused before any amount is looked at, and when the payment has to be looked up first. */
  lemma OthersAreTurnedAway(t: Tables, o: nat, d: Request, requester: Option<string>, resolved: Option<string>)
    ensures o >= |t.orders| ==> Prepare(t, o, d, requester, resolved) == (t, Err(OrderNotFound))
    ensures o < |t.orders| && !IsPaidAndOpen(t.orders[o]) ==>
              Prepare(t, o, d, requester, resolved) == (t, Err(OrderNotRefundable))
    ensures o < |t.orders| && IsPaidAndOpen(t.orders[o]) && t.orders[o].paymentIntent.None? && resolved.None? ==>
              Prepare(t, o, d, requester, resolved)
              == (t, Ok(ResolvePaymentIntent(t.orders[o].session.value, t.orders[o].total)))
  {
  }

  /** A refund takes its amount from its order while it is pending, waits for an action or has succeeded, and counts as
      refunded only in the last case. */
  lemma OneMoreRefund(t: Tables, r: Refund, o: nat)
    requires o < |t.orders|
    ensures var more := t.(refunds := t.refunds + [r]);
            var before, after := CalculateSummary(t, o), CalculateSummary(more, o);
            var own := if r.order == o then r.amount else 0;
            && after.refunded == before.refunded + (if r.status == Succeeded then own else 0)
            && after.pending == before.pending
                                + (if r.status == Pending || r.status == RequiresAction then own else 0)
            && Reserved(more, o) == Reserved(t, o) + (if r.status == Failed || r.status == Canceled then 0 else own)
            && after.refundable == Max(0, t.orders[o].total - Reserved(more, o))
            && (t.refunds == [] ==> Reserved(t, o) == before.refunded == before.pending == 0)
  {
    SumOfAdded(t.refunds, r, o, RESERVED);
    SumOfAdded(t.refunds, r, o, {Succeeded});
    SumOfAdded(t.refunds, r, o, UNDER_WAY);
  }

  /** No accepted request raises what is reserved above the order's total, and other orders are not touched. */
  lemma AcceptedStaysWithinTotal(t: Tables, o: nat, d: Request, requester: Option<string>, resolved: Option<string>)
    requires RowsFit(t) && IsWellFormed(d, requester)
    requires IsReady(Prepare(t, o, d, requester, resolved))
    ensures var r := Prepare(t, o, d, requester, resolved);
            && o < |r.0.orders|
            && Reserved(r.0, o) == Reserved(t, o) + r.1.value.amount <= r.0.orders[o].total
            && forall other: nat :: other != o ==> Reserved(r.0, other) == Reserved(t, other)
  {
    PreparedRequest(t, o, d, requester, resolved);
    var r := Prepare(t, o, d, requester, resolved);
    var i := r.1.value.refund;
    forall p: nat
      ensures Reserved(r.0, p) == Reserved(t, p) + if p == o then r.1.value.amount else 0
    {
      if i < |t.refunds| {
        SumOfReplaced(t.refunds, i, r.0.refunds[i], p, RESERVED, |t.refunds|);
      } else {
        SumOfAdded(t.refunds, r.0.refunds[i], p, RESERVED);
      }
    }
  }

  // ---------------------------------------------------------------- reports

  lemma SyncedRowsFit(t: Tables, s: StripeRefund)
    requires RowsFit(t) && Sync(t, s).Some?
    ensures RowsFit(Sync(t, s).value) && TablesEvolve(t, Sync(t, s).value)
  {
    assert RowsAreFit(t);
    var r := Sync(t, s).value;
    if IsUsable(s) {
      var local := FindLocal(t.refunds, s);
      if local.Some? {
        ReplacedRowFits(t, r, local.value, Updated(t.refunds[local.value], s));
      } else if FindOrder(t.orders, s.paymentIntent.value, |t.orders|).Some? {
        var o := FindOrder(t.orders, s.paymentIntent.value, |t.orders|).value;
        AddedRowFits(t, r, Imported(o, s));
      }
    }
  }

  lemma MarkedRowsFit(t: Tables, i: nat)
    requires RowsFit(t)
    ensures RowsFit(MarkFailed(t, i)) && TablesEvolve(t, MarkFailed(t, i))
  {
    assert RowsAreFit(t);
    if i < |t.refunds| {
      assert RowFits(t, t.refunds[i]);
      if MarkFailed(t, i) != t {
        ReplacedRowFits(t, MarkFailed(t, i), i, t.refunds[i].(status := Failed));
      }
    }
  }

  lemma SettledRowsFit(t: Tables, call: Prepared, answer: StripeAnswer)
    requires RowsFit(t) && call.Ready?
    ensures RowsFit(Settle(t, call, answer).0) && TablesEvolve(t, Settle(t, call, answer).0)
  {
    MarkedRowsFit(t, call.refund);
    if answer.Created? && Sync(t, Hinted(answer.refund, call)).Some? {
      SyncedRowsFit(t, Hinted(answer.refund, call));
    }
  }

  // ---------------------------------------------------------------- calls

  ghost predicate SameParameters(a: Prepared, b: Prepared) {
    a.Ready? && b.Ready? && a.key == b.key ==>
      && a.refund == b.refund
      && a.amount == b.amount && a.currency == b.currency && a.paymentIntent == b.paymentIntent
      && (a.key.ContentKey? ==> a.reason == b.reason)
  }

  ghost predicate CallIsKept(t: Tables, call: Prepared) {
    call.Ready? && call.refund < |t.refunds| && Carries(t.refunds[call.refund], call)
  }

  ghost predicate CallsFit(t: Tables, calls: seq<Prepared>) {
    && (forall i :: 0 <= i < |calls| ==> CallIsKept(t, calls[i]))
    && (forall i, j :: 0 <= i < j < |calls| ==> SameParameters(calls[i], calls[j]))
  }

  lemma CallsStayFit(t: Tables, r: Tables, calls: seq<Prepared>)
    requires CallsFit(t, calls) && TablesEvolve(t, r)
    ensures CallsFit(r, calls)
  {
    assert TablesGoOn(t, r);
    forall i | 0 <= i < |calls| ensures CallIsKept(r, calls[i]) {
      assert CallIsKept(t, calls[i]);
      assert RowEvolves(t.refunds[calls[i].refund], r.refunds[calls[i].refund]);
    }
  }

  lemma NewCallFits(t: Tables, r: Tables, calls: seq<Prepared>, call: Prepared, o: nat, d: Request,
                    requester: Option<string>)
    requires RowsFit(t) && RowsFit(r) && CallsFit(t, calls) && TablesEvolve(t, r)
    requires CallFits(t, r, call, o, d, requester)
    ensures CallsFit(r, calls + [call])
  {
    assert RowsAreFit(t) && RowsAreFit(r) && TablesGoOn(t, r);
    CallsStayFit(t, r, calls);
    forall i | 0 <= i < |calls| ensures SameParameters(calls[i], call) {
      assert CallIsKept(r, calls[i]);
      if calls[i].key == call.key {
        assert r.refunds[calls[i].refund].key == r.refunds[call.refund].key;
      }
    }
    var more := calls + [call];
    forall i | 0 <= i < |more| ensures CallIsKept(r, more[i]) {
      assert i < |calls| ==> CallIsKept(r, calls[i]);
    }
  }

  /** Rows and calls fit together; under a quantifier so that a proof unfolds it only where it names it. */
  ghost predicate Sound(w: World) {
    forall v :: v == w ==> RowsFit(v.t) && CallsFit(v.t, v.calls)
  }

  lemma RequestKeepsSound(w: World, worker: nat, o: nat, d: Request, requester: Option<string>,
                          resolved: Option<string>)
    requires Sound(w)
    ensures Sound(RequestRefund(w, worker, o, d, requester, resolved))
  {
    assert RowsFit(w.t) && CallsFit(w.t, w.calls);
    if worker !in w.flying && IsWellFormed(d, requester) {
      PreparedRequest(w.t, o, d, requester, resolved);
      var r := Prepare(w.t, o, d, requester, resolved);
      if IsReady(r) {
        NewCallFits(w.t, r.0, w.calls, r.1.value, o, d, requester);
      } else {
        CallsStayFit(w.t, r.0, w.calls);
      }
    }
  }

  lemma StepKeepsSound(w: World, step: Step)
    requires Sound(w)
    ensures Sound(Next(w, step))
  {
    assert RowsFit(w.t) && CallsFit(w.t, w.calls);
    var r := Next(w, step);
    match step
    case RequestStep(worker, o, d, requester, resolved) => RequestKeepsSound(w, worker, o, d, requester, resolved);
    case AnswerStep(worker, answer) =>
      if worker in w.flying && w.flying[worker].Ready? {
        SettledRowsFit(w.t, w.flying[worker], answer);
        CallsStayFit(w.t, r.t, w.calls);
      }
    case WebhookStep(s) =>
      if Sync(w.t, s).Some? {
        SyncedRowsFit(w.t, s);
        CallsStayFit(w.t, r.t, w.calls);
      }
    case _ =>
      OrdersChangeFits(w.t, r.t);
      CallsStayFit(w.t, r.t, w.calls);
  }

  lemma {:induction false} EveryRunIsSound(steps: seq<Step>)
    ensures Sound(Run(steps))
  {
    if steps != [] {
      EveryRunIsSound(steps[..|steps| - 1]);
      StepKeepsSound(Run(steps[..|steps| - 1]), steps[|steps| - 1]);
    }
  }

  /** In every run, calls whose idempotency keys read the same are attempts of one row, and ask for the same amount in
      the same currency on the same payment; and for the same reason, unless they share a request id. */
  lemma OneKeyOneRefund(steps: seq<Step>, i: nat, j: nat)
    requires i < |Run(steps).calls| && j < |Run(steps).calls|
    requires Run(steps).calls[i].Ready? && Run(steps).calls[j].Ready?
    requires Text(Run(steps).calls[i].key) == Text(Run(steps).calls[j].key)
    ensures var a, b := Run(steps).calls[i], Run(steps).calls[j];
            && a.refund == b.refund
            && a.amount == b.amount && a.currency == b.currency && a.paymentIntent == b.paymentIntent
            && (a.key.ContentKey? ==> a.reason == b.reason)
  {
    EveryRunIsSound(steps);
    var w := Run(steps);
    assert RowsFit(w.t) && CallsFit(w.t, w.calls);
    assert RowsAreFit(w.t);
    var a, b := w.calls[i], w.calls[j];
    assert CallIsKept(w.t, a) && CallIsKept(w.t, b);
    assert RowFits(w.t, w.t.refunds[a.refund]) && RowFits(w.t, w.t.refunds[b.refund]);
    TextsAreDistinct(a.key, b.key);
    assert i < j ==> SameParameters(a, b);
    assert j < i ==> SameParameters(b, a);
  }

  /** In every run, the requests of one requester for one order under one request id share one row: once it is let
      through or recognised, a request has exactly one row with its key. */
  lemma OneRequestOneRow(steps: seq<Step>, worker: nat, o: nat, d: Request, requester: Option<string>,
                         resolved: Option<string>)
    requires d.requestId != "" && IsWellFormed(d, requester)
    requires var p := Prepare(Run(steps).t, o, d, requester, resolved).1;
             p.Ok? && !p.value.ResolvePaymentIntent?
    ensures var t := Prepare(Run(steps).t, o, d, requester, resolved).0;
            exists i ::
              && 0 <= i < |t.refunds| && t.refunds[i].order == o
              && t.refunds[i].key == RequestKeyOf(o, requester, d)
              && forall j :: 0 <= j < |t.refunds| && j != i ==> Text(t.refunds[j].key) != Text(t.refunds[i].key)
  {
    EveryRunIsSound(steps);
    var w := Run(steps);
    assert RowsFit(w.t);
    PreparedRequest(w.t, o, d, requester, resolved);
    var r := Prepare(w.t, o, d, requester, resolved);
    assert RowsAreFit(r.0);
    var key := RequestKeyOf(o, requester, d);
    var i := if IsReady(r) then r.1.value.refund else FindKey(w.t.refunds, key, |w.t.refunds|).value;
    assert RowFits(r.0, r.0.refunds[i]);
    forall j | 0 <= j < |r.0.refunds| && j != i ensures Text(r.0.refunds[j].key) != Text(key) {
      assert RowFits(r.0, r.0.refunds[j]);
      if Text(r.0.refunds[j].key) == Text(key) {
        TextsAreDistinct(r.0.refunds[j].key, key);
      }
    }
  }

  // ---------------------------------------------------------------- the cap over runs

  ghost predicate Capped(t: Tables) {
    forall o: nat :: o < |t.orders| ==> Reserved(t, o) <= t.orders[o].total
  }

  /** Stripe reports a refund of the back office with the amount asked for, and never revives one that had failed or
      been cancelled. */
  predicate Benign(t: Tables, s: StripeRefund) {
    IsUsable(s) ==>
      var local := FindLocal(t.refunds, s);
      if local.Some? then
        && s.amount == t.refunds[local.value].amount
        && (LocalStatus(s.status) in RESERVED ==> t.refunds[local.value].status in RESERVED)
      else FindOrder(t.orders, s.paymentIntent.value, |t.orders|).None?
  }

  predicate BenignStep(w: World, step: Step) {
    match step
    case WebhookStep(s) => Benign(w.t, s)
    case AnswerStep(worker, Created(s)) =>
      worker in w.flying && w.flying[worker].Ready? ==> Benign(w.t, Hinted(s, w.flying[worker]))
    case _ => true
  }

  predicate BenignRun(steps: seq<Step>) {
    steps == [] || (BenignRun(steps[..|steps| - 1]) && BenignStep(Run(steps[..|steps| - 1]), steps[|steps| - 1]))
  }

  /** What a report does to the reservations of an order: it exceeds the total exactly when the row it changes makes
      it so. */
  lemma SyncMovesReservation(t: Tables, s: StripeRefund, o: nat)
    requires IsUsable(s) && FindLocal(t.refunds, s).Some? && Sync(t, s).Some?
    ensures var row := t.refunds[FindLocal(t.refunds, s).value];
            Reserved(Sync(t, s).value, o)
            == Reserved(t, o) - Share(row, o, RESERVED) + Share(Updated(row, s), o, RESERVED)
  {
    var i := FindLocal(t.refunds, s).value;
    SumOfReplaced(t.refunds, i, Updated(t.refunds[i], s), o, RESERVED, |t.refunds|);
  }

  function Room(t: Tables, o: nat): int {
    if o < |t.orders| then t.orders[o].total - Reserved(t, o) else 0
  }

  /** The order a report is about has room for what it says in place of what its row said. A report that is not
      recorded, or that reserves nothing, needs none. */
  predicate MeetsRoom(t: Tables, s: StripeRefund) {
    Sync(t, s).Some? && IsUsable(s) && LocalStatus(s.status) in RESERVED ==>
      var local := FindLocal(t.refunds, s);
      var owner := FindOrder(t.orders, s.paymentIntent.value, |t.orders|);
      if local.Some? then
        var row := t.refunds[local.value];
        s.amount <= Room(t, row.order) + Share(row, row.order, RESERVED)
      else owner.Some? ==> s.amount <= Room(t, owner.value)
  }

  lemma UpdateKeepsCapExactly(t: Tables, s: StripeRefund)
    requires RowsFit(t) && Capped(t) && IsUsable(s) && FindLocal(t.refunds, s).Some? && Sync(t, s).Some?
    ensures Capped(Sync(t, s).value) <==> MeetsRoom(t, s)
  {
    assert RowsAreFit(t);
    var row, r := t.refunds[FindLocal(t.refunds, s).value], Sync(t, s).value;
    assert RowFits(t, row);
    forall o: nat ensures o != row.order ==> Reserved(r, o) == Reserved(t, o) {
      SyncMovesReservation(t, s, o);
    }
    SyncMovesReservation(t, s, row.order);
    assert r.orders[row.order].total == t.orders[row.order].total;
    if MeetsRoom(t, s) {
      forall o: nat | o < |r.orders| ensures Reserved(r, o) <= r.orders[o].total {
        assert Reserved(t, o) <= t.orders[o].total;
      }
    } else {
      assert Reserved(r, row.order) > r.orders[row.order].total;
    }
  }

  lemma ImportKeepsCapExactly(t: Tables, s: StripeRefund)
    requires Capped(t) && IsUsable(s) && FindLocal(t.refunds, s).None? && Sync(t, s).Some?
    ensures Capped(Sync(t, s).value) <==> MeetsRoom(t, s)
  {
    var r := Sync(t, s).value;
    var owner := FindOrder(t.orders, s.paymentIntent.value, |t.orders|);
    if owner.Some? {
      forall o: nat ensures Reserved(r, o) == Reserved(t, o) + Share(Imported(owner.value, s), o, RESERVED) {
        SumOfAdded(t.refunds, Imported(owner.value, s), o, RESERVED);
      }
      if MeetsRoom(t, s) {
        forall o: nat | o < |r.orders| ensures Reserved(r, o) <= r.orders[o].total {
          assert Reserved(t, o) <= t.orders[o].total;
        }
      } else {
        assert Reserved(r, owner.value) > r.orders[owner.value].total;
      }
    }
  }

  /** Whatever Stripe reports, on a row of ours or on a refund made elsewhere, the cap survives exactly when the order
      has room for it. */
  lemma SyncKeepsCapExactly(t: Tables, s: StripeRefund)
    requires RowsFit(t) && Capped(t) && Sync(t, s).Some?
    ensures Capped(Sync(t, s).value) <==> MeetsRoom(t, s)
  {
    if IsUsable(s) {
      if FindLocal(t.refunds, s).Some? {
        UpdateKeepsCapExactly(t, s);
      } else {
        ImportKeepsCapExactly(t, s);
      }
    }
  }

  lemma BenignMeetsRoom(t: Tables, s: StripeRefund)
    requires RowsFit(t) && Capped(t) && Benign(t, s)
    ensures MeetsRoom(t, s)
  {
    assert RowsAreFit(t);
    if IsUsable(s) && FindLocal(t.refunds, s).Some? {
      var row := t.refunds[FindLocal(t.refunds, s).value];
      assert RowFits(t, row);
      assert Reserved(t, row.order) <= t.orders[row.order].total;
    }
  }

  lemma MarkKeepsCap(t: Tables, i: nat)
    requires RowsFit(t) && Capped(t)
    ensures Capped(MarkFailed(t, i))
  {
    assert RowsAreFit(t);
    var r := MarkFailed(t, i);
    if r != t {
      forall o: nat | o < |r.orders| ensures Reserved(r, o) <= r.orders[o].total {
        SumOfReplaced(t.refunds, i, t.refunds[i].(status := Failed), o, RESERVED, |t.refunds|);
        assert RowFits(t, t.refunds[i]);
      }
    }
  }

  lemma PrepareKeepsCap(t: Tables, o: nat, d: Request, requester: Option<string>, resolved: Option<string>)
    requires RowsFit(t) && Capped(t) && IsWellFormed(d, requester)
    ensures Capped(Prepare(t, o, d, requester, resolved).0)
  {
    var r := Prepare(t, o, d, requester, resolved);
    PreparedRequest(t, o, d, requester, resolved);
    if IsReady(r) {
      AcceptedStaysWithinTotal(t, o, d, requester, resolved);
    }
    forall p: nat | p < |r.0.orders| ensures Reserved(r.0, p) <= r.0.orders[p].total {
      assert p < |t.orders|;
    }
  }

  /** An order that just appeared has no refund. */
  lemma {:induction false} NothingReserved(t: Tables, n: nat)
    requires RowsFit(t) && n <= |t.refunds|
    ensures Sum(t.refunds, |t.orders|, RESERVED, n) == 0
  {
    assert RowsAreFit(t);
    if n > 0 {
      NothingReserved(t, n - 1);
      assert RowFits(t, t.refunds[n - 1]);
    }
  }

  predicate StepMeetsRoom(w: World, step: Step) {
    match step
    case WebhookStep(s) => MeetsRoom(w.t, s)
    case AnswerStep(worker, Created(s)) =>
      worker in w.flying && w.flying[worker].Ready? ==> MeetsRoom(w.t, Hinted(s, w.flying[worker]))
    case _ => true
  }

  lemma AnswerKeepsCapExactly(w: World, worker: nat, answer: StripeAnswer)
    requires Sound(w) && Capped(w.t)
    ensures Capped(ReceiveAnswer(w, worker, answer).t) <==> StepMeetsRoom(w, AnswerStep(worker, answer))
  {
    assert RowsFit(w.t);
    if worker in w.flying && w.flying[worker].Ready? {
      var call := w.flying[worker];
      MarkKeepsCap(w.t, call.refund);
      if answer.Created? && Sync(w.t, Hinted(answer.refund, call)).Some? {
        SyncKeepsCapExactly(w.t, Hinted(answer.refund, call));
      }
    }
  }

  lemma StepKeepsCapExactly(w: World, step: Step)
    requires Sound(w) && Capped(w.t)
    ensures Capped(Next(w, step).t) <==> StepMeetsRoom(w, step)
  {
    assert RowsFit(w.t);
    match step
    case OrderPlaced(order) =>
      NothingReserved(w.t, |w.t.refunds|);
    case OrderChanges(o, order) =>
    case RequestStep(worker, o, d, requester, resolved) =>
      if IsWellFormed(d, requester) {
        PrepareKeepsCap(w.t, o, d, requester, resolved);
      }
    case AnswerStep(worker, answer) => AnswerKeepsCapExactly(w, worker, answer);
    case WorkerDies(_) =>
    case WebhookStep(s) =>
      if Sync(w.t, s).Some? {
        SyncKeepsCapExactly(w.t, s);
      }
  }

  ghost predicate CappedThroughout(steps: seq<Step>) {
    forall n :: 0 <= n <= |steps| ==> Capped(Run(steps[..n]).t)
  }

  ghost predicate RoomThroughout(steps: seq<Step>) {
    forall n :: 0 <= n < |steps| ==> StepMeetsRoom(Run(steps[..n]), steps[n])
  }

  lemma CappedBefore(steps: seq<Step>, step: Step)
    ensures CappedThroughout(steps + [step]) <==> CappedThroughout(steps) && Capped(Run(steps + [step]).t)
  {
    var all := steps + [step];
    assert all[..|all|] == all;
    assert forall n :: 0 <= n <= |steps| ==> all[..n] == steps[..n];
    if CappedThroughout(all) {
      forall n | 0 <= n <= |steps| ensures Capped(Run(steps[..n]).t) {
        assert Capped(Run(all[..n]).t);
      }
    }
  }

  lemma RoomBefore(steps: seq<Step>, step: Step)
    ensures RoomThroughout(steps + [step]) <==> RoomThroughout(steps) && StepMeetsRoom(Run(steps), step)
  {
    var all := steps + [step];
    assert all[..|steps|] == steps;
    assert forall n :: 0 <= n < |steps| ==> all[..n] == steps[..n] && all[n] == steps[n];
    if RoomThroughout(all) {
      assert StepMeetsRoom(Run(all[..|steps|]), all[|steps|]);
      forall n | 0 <= n < |steps| ensures StepMeetsRoom(Run(steps[..n]), steps[n]) {
        assert StepMeetsRoom(Run(all[..n]), all[n]);
      }
    }
  }

  /** A run keeps every order within its total all along exactly when every report in it found room. */
  lemma {:induction false} RunIsCappedExactly(steps: seq<Step>)
    ensures CappedThroughout(steps) <==> RoomThroughout(steps)
  {
    if steps == [] {
      assert Capped(INITIAL.t);
    } else {
      var earlier, last := steps[..|steps| - 1], steps[|steps| - 1];
      assert steps == earlier + [last];
      RunIsCappedExactly(earlier);
      EveryRunIsSound(earlier);
      assert earlier[..|earlier|] == earlier;
      CappedBefore(earlier, last);
      RoomBefore(earlier, last);
      if CappedThroughout(earlier) {
        StepKeepsCapExactly(Run(earlier), last);
      }
    }
  }

  lemma BenignStepMeetsRoom(w: World, step: Step)
    requires Sound(w) && Capped(w.t) && BenignStep(w, step)
    ensures StepMeetsRoom(w, step)
  {
    assert RowsFit(w.t);
    match step
    case WebhookStep(s) => BenignMeetsRoom(w.t, s);
    case AnswerStep(worker, Created(s)) =>
      if worker in w.flying && w.flying[worker].Ready? {
        BenignMeetsRoom(w.t, Hinted(s, w.flying[worker]));
      }
    case _ =>
  }

  lemma {:induction false} BenignRunsAreCapped(steps: seq<Step>)
    requires BenignRun(steps)
    ensures Capped(Run(steps).t)
  {
    if steps != [] {
      var earlier := steps[..|steps| - 1];
      BenignRunsAreCapped(earlier);
      EveryRunIsSound(earlier);
      BenignStepMeetsRoom(Run(earlier), steps[|steps| - 1]);
      StepKeepsCapExactly(Run(earlier), steps[|steps| - 1]);
    }
  }

  /** In every run with such reports, no order has more reserved than its total, and refunded, pending and refundable
      amounts add up to it. */
  lemma RefundsStayWithinTotal(steps: seq<Step>, o: nat)
    requires BenignRun(steps) && o < |Run(steps).t.orders|
    ensures var t := Run(steps).t;
            var s := CalculateSummary(t, o);
            && Reserved(t, o) <= t.orders[o].total
            && s.refunded + s.pending + s.refundable == t.orders[o].total
  {
    BenignRunsAreCapped(steps);
    SummaryAddsUp(Run(steps).t, o);
  }

  // ---------------------------------------------------------------- runs that break the cap, or change a reason

  const ORDER := PaidOrder(100, Orders.Nouvelle, None, Some("pi"))

  function Everything(requestId: string): Request {
    Request(None, "other", "", requestId)
  }

  function Row(requestId: string, status: RefundStatus): Refund {
    Refund(0, None, "pi", 100, "eur", "other", status, None, RequestKey(0, UNKNOWN_REQUESTER, requestId))
  }

  lemma OneMore(steps: seq<Step>, step: Step)
    ensures Run(steps + [step]) == Next(Run(steps), step)
  {
    var all := steps + [step];
    assert all[..|all| - 1] == steps;
  }

  function FirstCall(reason: string): Prepared {
    Ready(0, 0, 100, "eur", reason, RequestKey(0, UNKNOWN_REQUESTER, "a"), "pi")
  }

  lemma FirstRequest(w: World)
    requires w == World(Tables([ORDER], []), map[], [])
    ensures var r := Next(w, RequestStep(0, 0, Everything("a"), None, None));
            r.t == Tables([ORDER], [Row("a", Pending)]) && r.flying.Keys == {0} && r.flying[0].Ready?
            && r.flying[0].refund == 0
            && r.calls == [FirstCall("other")]
  {
  }

  lemma SecondRequest(w: World)
    requires w.t == Tables([ORDER], [Row("a", Failed)]) && w.flying == map[]
    ensures Next(w, RequestStep(0, 0, Everything("b"), None, None)).t
            == Tables([ORDER], [Row("a", Failed), Row("b", Pending)])
  {
    assert Sum(w.t.refunds, 0, RESERVED, 1) == 0;
    assert FindKey(w.t.refunds, RequestKey(0, UNKNOWN_REQUESTER, "b"), 1).None? by {
      assert "a"[0] != "b"[0];
    }
  }

  lemma Revival(t: Tables)
    requires t == Tables([ORDER], [Row("a", Failed), Row("b", Pending)])
    ensures var s := StripeRefund(Some("re"), Some("pi"), 100, "eur", "succeeded", None, Some(0), None);
            Sync(t, s).Some? && !Capped(Sync(t, s).value) && !Benign(t, s)
  {
    var s := StripeRefund(Some("re"), Some("pi"), 100, "eur", "succeeded", None, Some(0), None);
    assert IsMatch(t.refunds, 0, s);
    assert FirstMatch(t.refunds, s, 1) == Some(0) && FirstMatch(t.refunds, s, 2) == Some(0);
    var r := Sync(t, s).value;
    assert r.refunds[0] == Updated(t.refunds[0], s);
    assert Sum(r.refunds, 0, RESERVED, 1) == 100;
    assert Reserved(r, 0) == 200;
  }

  lemma LostAnswer(w: World)
    requires w.t == Tables([ORDER], [Row("a", Pending)]) && w.flying.Keys == {0} && w.flying[0].Ready?
    requires w.flying[0].refund == 0
    ensures var r := Next(w, AnswerStep(0, CallFailed));
            r.t == Tables([ORDER], [Row("a", Failed)]) && r.flying == map[] && r.calls == w.calls
  {
    assert MarkFailed(w.t, 0).refunds == [Row("a", Failed)];
  }

  lemma ReachRequest() returns (steps: seq<Step>)
    ensures var w := Run(steps);
            && w.t == Tables([ORDER], [Row("a", Pending)]) && w.calls == [FirstCall("other")]
            && w.flying.Keys == {0} && w.flying[0].Ready? && w.flying[0].refund == 0
  {
    var a, b := OrderPlaced(ORDER), RequestStep(0, 0, Everything("a"), None, None);
    OneMore([], a);
    assert Run([] + [a]) == World(Tables([ORDER], []), map[], []);
    FirstRequest(Run([] + [a]));
    OneMore([] + [a], b);
    steps := [] + [a] + [b];
  }

  lemma ReachLostAnswer() returns (steps: seq<Step>)
    ensures Run(steps) == World(Tables([ORDER], [Row("a", Failed)]), map[], [FirstCall("other")])
  {
    steps := ReachRequest();
    LostAnswer(Run(steps));
    OneMore(steps, AnswerStep(0, CallFailed));
    steps := steps + [AnswerStep(0, CallFailed)];
  }

  lemma ReachBoth() returns (steps: seq<Step>)
    ensures Run(steps).t == Tables([ORDER], [Row("a", Failed), Row("b", Pending)])
  {
    steps := ReachLostAnswer();
    SecondRequest(Run(steps));
    OneMore(steps, RequestStep(0, 0, Everything("b"), None, None));
    steps := steps + [RequestStep(0, 0, Everything("b"), None, None)];
  }

  /** Without that assumption the cap fails: a call whose answer was lost frees its amount, a second request takes
      it, and then Stripe reports that the first one succeeded. */
  lemma RevivedRefundExceedsTotal() returns (steps: seq<Step>)
    ensures !Capped(Run(steps).t)
  {
    steps := ReachBoth();
    Revival(Run(steps).t);
    var s := StripeRefund(Some("re"), Some("pi"), 100, "eur", "succeeded", None, Some(0), None);
    OneMore(steps, WebhookStep(s));
    steps := steps + [WebhookStep(s)];
  }

  lemma Import(t: Tables)
    requires t == Tables([ORDER], [Row("a", Pending)])
    ensures var s := StripeRefund(Some("re"), Some("pi"), 100, "eur", "succeeded", None, None, None);
            Sync(t, s).Some? && !Capped(Sync(t, s).value)
  {
    var s := StripeRefund(Some("re"), Some("pi"), 100, "eur", "succeeded", None, None, None);
    assert FirstCandidate(t.refunds, s, 1).None? && FindOrder(t.orders, "pi", 1) == Some(0);
    var r := Sync(t, s).value;
    assert r.refunds == [Row("a", Pending), Imported(0, s)];
    assert Sum(r.refunds, 0, RESERVED, 1) == 100;
    assert Reserved(r, 0) == 200;
  }

  /** No refund has to be revived for that: one made by hand at Stripe, while the whole total is reserved, is imported
      on top of it. */
  lemma ImportedRefundExceedsTotal() returns (steps: seq<Step>)
    ensures !Capped(Run(steps).t)
    ensures |Run(steps).t.refunds| == 2 && forall i :: 0 <= i < 2 ==> Run(steps).t.refunds[i].status in RESERVED
  {
    steps := ReachRequest();
    Import(Run(steps).t);
    var s := StripeRefund(Some("re"), Some("pi"), 100, "eur", "succeeded", None, None, None);
    OneMore(steps, WebhookStep(s));
    steps := steps + [WebhookStep(s)];
  }

  lemma RepeatedRequest(w: World)
    requires w == World(Tables([ORDER], [Row("a", Failed)]), map[], [FirstCall("other")])
    ensures Next(w, RequestStep(0, 0, Everything("a").(reason := "duplicate"), None, None)).calls
            == [FirstCall("other"), FirstCall("duplicate")]
  {
    assert FindKey(w.t.refunds, RequestKey(0, UNKNOWN_REQUESTER, "a"), 1) == Some(0);
    assert Sum(w.t.refunds, 0, RESERVED, 1) == 0;
  }

  /** The exception is real: the retry of a request whose answer was lost sends Stripe the key of the first call with
      another reason. */
  lemma RetryMayChangeTheReason() returns (steps: seq<Step>)
    ensures var calls := Run(steps).calls;
            |calls| == 2 && calls[0].Ready? && calls[1].Ready? && calls[0].key == calls[1].key
            && calls[0].reason != calls[1].reason
  {
    steps := ReachLostAnswer();
    var again := RequestStep(0, 0, Everything("a").(reason := "duplicate"), None, None);
    RepeatedRequest(Run(steps));
    OneMore(steps, again);
    steps := steps + [again];
    assert "duplicate"[0] != "other"[0];
  }
}
