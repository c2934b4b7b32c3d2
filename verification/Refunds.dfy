/** Refunds of an order: reserved under a lock, sent to Stripe under an idempotency key, then synchronised. */
module Refunds {
  import opened Wrappers
  import opened Orders
  import opened RefundKeys

  datatype RefundStatus = Pending | RequiresAction | Succeeded | Failed | Canceled

  datatype PaidOrder = PaidOrder(total: nat, status: Status, session: Option<string>, paymentIntent: Option<string>)

  datatype Refund = Refund(
    order: nat,
    stripeId: Option<string>,
    paymentIntent: string,
    amount: int,
    currency: string,
    reason: string,
    status: RefundStatus,
    requestedBy: Option<string>,
    key: Key)

  datatype Tables = Tables(orders: seq<PaidOrder>, refunds: seq<Refund>)

  // ---------------------------------------------------------------- summary

  const RESERVED := {Pending, RequiresAction, Succeeded}
  const UNDER_WAY := {Pending, RequiresAction}

  function Share(r: Refund, o: nat, statuses: set<RefundStatus>): int {
    if r.order == o && r.status in statuses then r.amount else 0
  }

  /** The amounts of the first `n` refunds that belong to the order and have one of the statuses. */
  function Sum(refunds: seq<Refund>, o: nat, statuses: set<RefundStatus>, n: nat): int
    requires n <= |refunds|
  {
    if n == 0 then 0 else Sum(refunds, o, statuses, n - 1) + Share(refunds[n - 1], o, statuses)
  }

  function Reserved(t: Tables, o: nat): int {
    Sum(t.refunds, o, RESERVED, |t.refunds|)
  }

  datatype Summary = Summary(refunded: int, pending: int, refundable: int)

  function CalculateSummary(t: Tables, o: nat): Summary
    requires o < |t.orders|
  {
    Summary(
      Sum(t.refunds, o, {Succeeded}, |t.refunds|),
      Sum(t.refunds, o, UNDER_WAY, |t.refunds|),
      Max(0, t.orders[o].total - Reserved(t, o)))
  }

  lemma {:induction false} ReservedSplits(refunds: seq<Refund>, o: nat, n: nat)
    requires n <= |refunds|
    ensures Sum(refunds, o, RESERVED, n) == Sum(refunds, o, {Succeeded}, n) + Sum(refunds, o, UNDER_WAY, n)
  {
    if n > 0 {
      ReservedSplits(refunds, o, n - 1);
    }
  }

  /** The three amounts of a summary make up the order's total exactly when no more than the total is reserved. */
  lemma SummaryAddsUp(t: Tables, o: nat)
    requires o < |t.orders|
    ensures var s := CalculateSummary(t, o);
            s.refunded + s.pending + s.refundable == t.orders[o].total <==> Reserved(t, o) <= t.orders[o].total
  {
    ReservedSplits(t.refunds, o, |t.refunds|);
  }

  lemma {:induction false} SumOfPrefix(refunds: seq<Refund>, more: seq<Refund>, o: nat, statuses: set<RefundStatus>,
                                       n: nat)
    requires n <= |refunds|
    ensures Sum(refunds + more, o, statuses, n) == Sum(refunds, o, statuses, n)
  {
    if n > 0 {
      SumOfPrefix(refunds, more, o, statuses, n - 1);
    }
  }

  lemma SumOfAdded(refunds: seq<Refund>, r: Refund, o: nat, statuses: set<RefundStatus>)
    ensures Sum(refunds + [r], o, statuses, |refunds| + 1)
            == Sum(refunds, o, statuses, |refunds|) + Share(r, o, statuses)
  {
    SumOfPrefix(refunds, [r], o, statuses, |refunds|);
  }

  lemma {:induction false} SumOfReplaced(refunds: seq<Refund>, i: nat, r: Refund, o: nat, statuses: set<RefundStatus>,
                                         n: nat)
    requires i < |refunds| && n <= |refunds|
    ensures Sum(refunds[i := r], o, statuses, n)
            == Sum(refunds, o, statuses, n)
               + if i < n then Share(r, o, statuses) - Share(refunds[i], o, statuses) else 0
  {
    if n > 0 {
      SumOfReplaced(refunds, i, r, o, statuses, n - 1);
    }
  }

  // ---------------------------------------------------------------- preparing a request

  /** An absent request id is the empty text. */
  datatype Request = Request(amount: Option<int>, reason: string, note: string, requestId: string)

  datatype RefundError =
    | OrderNotFound
    | OrderNotRefundable
    | FullyRefunded
    | IdempotencyConflict
    | ExceedsRefundable(refundable: int)
    | PaymentLookupFailed
    | PaymentAmountConflict
    | PaymentCurrencyConflict
    | StripeRefused

  datatype Prepared =
    | Ready(refund: nat, order: nat, amount: int, currency: string, reason: string, key: Key, paymentIntent: string)
    | Idempotent
    | ResolvePaymentIntent(session: string, expected: nat)

  predicate IsRefundable(o: PaidOrder) {
    o.status in {Nouvelle, Preparee, Traitee, PaiementAVerifier} && (o.paymentIntent.Some? || o.session.Some?)
  }

  function RequestKeyOf(o: nat, requester: Option<string>, d: Request): Key {
    RequestKey(o, requester.GetOr(UNKNOWN_REQUESTER), d.requestId)
  }

  function ContentKeyOf(o: nat, requester: Option<string>, d: Request, amount: nat): Key {
    ContentKey(o, requester.GetOr(UNKNOWN_REQUESTER), amount, d.reason, HashForIdempotency(d.note))
  }

  function FindKey(refunds: seq<Refund>, key: Key, n: nat): (r: Option<nat>)
    requires n <= |refunds|
    ensures r.Some? ==> r.value < n && refunds[r.value].key == key
    ensures r.None? ==> forall i :: 0 <= i < n ==> refunds[i].key != key
  {
    if n == 0 then None
    else
      var earlier := FindKey(refunds, key, n - 1);
      if earlier.Some? then earlier else if refunds[n - 1].key == key then Some(n - 1) else None
  }

  /** A refund that Stripe never acknowledged and that failed may be sent again. */
  predicate Retryable(r: Refund) {
    r.status == Failed && r.stripeId.None?
  }

  function Attach(o: PaidOrder, paymentIntent: Option<string>): PaidOrder {
    if paymentIntent.Some? && o.paymentIntent.None? then o.(paymentIntent := paymentIntent) else o
  }

  /** The amount a request stands for: that of the attempt it repeats, else its own, else all that is left. */
  function RequestedAmount(t: Tables, o: nat, d: Request, existing: Option<nat>): int
    requires o < |t.orders| && (existing.Some? ==> existing.value < |t.refunds|)
  {
    if existing.Some? then t.refunds[existing.value].amount
    else if d.amount.Some? then d.amount.value
    else CalculateSummary(t, o).refundable
  }

  function AmountError(t: Tables, o: nat, d: Request, requested: int): Option<RefundError>
    requires o < |t.orders|
  {
    var refundable := CalculateSummary(t, o).refundable;
    if requested <= 0 then Some(FullyRefunded)
    else if d.amount.Some? && d.amount.value != 0 && d.amount.value != requested then Some(IdempotencyConflict)
    else if requested > refundable then Some(ExceedsRefundable(refundable))
    else None
  }

  function NewRefund(t: Tables, o: nat, d: Request, requester: Option<string>, amount: int, key: Key): Refund
    requires o < |t.orders| && t.orders[o].paymentIntent.Some?
  {
    Refund(o, None, t.orders[o].paymentIntent.value, amount, "eur", d.reason, Pending, requester, key)
  }

  function ReadyFor(refunds: seq<Refund>, i: nat, o: nat, d: Request): Prepared
    requires i < |refunds|
  {
    Ready(i, o, refunds[i].amount, refunds[i].currency, d.reason, refunds[i].key, refunds[i].paymentIntent)
  }

  /** Writes the reservation: a failed attempt is taken up again, otherwise a row is added. */
  function Reserve(t: Tables, o: nat, d: Request, requester: Option<string>, amount: int, key: Key,
                   existing: Option<nat>): (r: (Tables, Prepared))
    requires o < |t.orders| && t.orders[o].paymentIntent.Some? && (existing.Some? ==> existing.value < |t.refunds|)
  {
    if existing.Some? then
      var i := existing.value;
      var refunds := t.refunds[i := t.refunds[i].(status := Pending, requestedBy := requester)];
      (t.(refunds := refunds), ReadyFor(refunds, i, o, d))
    else
      var refunds := t.refunds + [NewRefund(t, o, d, requester, amount, key)];
      (t.(refunds := refunds), ReadyFor(refunds, |t.refunds|, o, d))
  }

  /** The part of the transaction that starts once the payment is known. */
  function PreparePaid(t: Tables, o: nat, d: Request, requester: Option<string>)
    : (r: (Tables, Result<Prepared, RefundError>))
    requires o < |t.orders| && t.orders[o].paymentIntent.Some?
  {
    var byRequest :=
      if d.requestId != "" then FindKey(t.refunds, RequestKeyOf(o, requester, d), |t.refunds|) else None;
    if byRequest.Some? && !Retryable(t.refunds[byRequest.value]) then (t, Ok(Idempotent))
    else
      var requested := RequestedAmount(t, o, d, byRequest);
      var error := AmountError(t, o, d, requested);
      if error.Some? then (t, Err(error.value))
      else
        var key :=
          if d.requestId != "" then RequestKeyOf(o, requester, d) else ContentKeyOf(o, requester, d, requested);
        var existing := FindKey(t.refunds, key, |t.refunds|);
        if existing.Some? && !Retryable(t.refunds[existing.value]) then (t, Ok(Idempotent))
        else
          var r := Reserve(t, o, d, requester, requested, key, existing);
          (r.0, Ok(r.1))
  }

  /** A refused request leaves no trace, not even the payment it came with. */
  function Prepare(t: Tables, o: nat, d: Request, requester: Option<string>, resolved: Option<string>)
    : (r: (Tables, Result<Prepared, RefundError>))
  {
    if o >= |t.orders| then (t, Err(OrderNotFound))
    else if !IsRefundable(t.orders[o]) then (t, Err(OrderNotRefundable))
    else
      var attached := t.(orders := t.orders[o := Attach(t.orders[o], resolved)]);
      if attached.orders[o].paymentIntent.None? then
        if t.orders[o].session.Some? then
          (t, Ok(ResolvePaymentIntent(t.orders[o].session.value, t.orders[o].total)))
        else (t, Err(OrderNotRefundable))
      else
        var r := PreparePaid(attached, o, d, requester);
        if r.1.Err? then (t, r.1) else r
  }

  // ---------------------------------------------------------------- what Stripe reports

  /** A refund as Stripe describes it; `refundId` and `key` come from its metadata. */
  datatype StripeRefund = StripeRefund(
    id: Option<string>,
    paymentIntent: Option<string>,
    amount: int,
    currency: string,
    status: string,
    reason: Option<string>,
    refundId: Option<nat>,
    key: Option<Key>)

  function LocalStatus(status: string): RefundStatus {
    if status == "succeeded" then Succeeded
    else if status == "failed" then Failed
    else if status == "canceled" then Canceled
    else if status == "requires_action" then RequiresAction
    else Pending
  }

  predicate IsCandidate(refunds: seq<Refund>, i: nat, s: StripeRefund)
    requires i < |refunds|
  {
    || (s.id.Some? && refunds[i].stripeId == s.id)
    || s.refundId == Some(i)
    || s.key == Some(refunds[i].key)
  }

  predicate IsMatch(refunds: seq<Refund>, i: nat, s: StripeRefund)
    requires i < |refunds|
  {
    && IsCandidate(refunds, i, s)
    && (s.paymentIntent == Some(refunds[i].paymentIntent) || (s.id.Some? && refunds[i].stripeId == s.id))
  }

  function FirstCandidate(refunds: seq<Refund>, s: StripeRefund, n: nat): (r: Option<nat>)
    requires n <= |refunds|
    ensures r.Some? ==> r.value < n && IsCandidate(refunds, r.value, s)
    ensures forall i :: 0 <= i < (if r.Some? then r.value else n) ==> !IsCandidate(refunds, i, s)
  {
    if n == 0 then None
    else
      var earlier := FirstCandidate(refunds, s, n - 1);
      if earlier.Some? then earlier else if IsCandidate(refunds, n - 1, s) then Some(n - 1) else None
  }

  function FirstMatch(refunds: seq<Refund>, s: StripeRefund, n: nat): (r: Option<nat>)
    requires n <= |refunds|
    ensures r.Some? ==> r.value < n && IsMatch(refunds, r.value, s)
    ensures forall i :: 0 <= i < (if r.Some? then r.value else n) ==> !IsMatch(refunds, i, s)
  {
    if n == 0 then None
    else
      var earlier := FirstMatch(refunds, s, n - 1);
      if earlier.Some? then earlier else if IsMatch(refunds, n - 1, s) then Some(n - 1) else None
  }

  /** The row a report is about: the oldest candidate on the same payment or refund, else the oldest candidate. */
  function FindLocal(refunds: seq<Refund>, s: StripeRefund): (r: Option<nat>)
    ensures r.Some? ==> r.value < |refunds| && IsCandidate(refunds, r.value, s)
    ensures r.None? ==> forall i :: 0 <= i < |refunds| ==> !IsCandidate(refunds, i, s)
    ensures r.Some? && !IsMatch(refunds, r.value, s) ==>
              && (forall i :: 0 <= i < |refunds| ==> !IsMatch(refunds, i, s))
              && (forall i :: 0 <= i < r.value ==> !IsCandidate(refunds, i, s))
    ensures r.Some? && IsMatch(refunds, r.value, s) ==> forall i :: 0 <= i < r.value ==> !IsMatch(refunds, i, s)
  {
    var matched := FirstMatch(refunds, s, |refunds|);
    if matched.Some? then matched else FirstCandidate(refunds, s, |refunds|)
  }

  function FindOrder(orders: seq<PaidOrder>, paymentIntent: string, n: nat): (r: Option<nat>)
    requires n <= |orders|
    ensures r.Some? ==> r.value < n && orders[r.value].paymentIntent == Some(paymentIntent)
  {
    if n == 0 then None
    else
      var earlier := FindOrder(orders, paymentIntent, n - 1);
      if earlier.Some? then earlier
      else if orders[n - 1].paymentIntent == Some(paymentIntent) then Some(n - 1) else None
  }

  predicate IsUsable(s: StripeRefund) {
    s.id.Some? && s.paymentIntent.Some? && s.amount > 0
  }

  function Updated(r: Refund, s: StripeRefund): Refund
    requires IsUsable(s)
  {
    r.(stripeId := s.id, paymentIntent := s.paymentIntent.value, amount := s.amount, currency := s.currency,
       status := LocalStatus(s.status))
  }

  function Imported(o: nat, s: StripeRefund): Refund
    requires IsUsable(s)
  {
    Refund(o, s.id, s.paymentIntent.value, s.amount, s.currency, s.reason.GetOr("stripe_webhook"),
           LocalStatus(s.status), None, StripeKey(s.id.value))
  }

  /** The database refuses a second row with the same Stripe id. */
  predicate StripeIdIsTaken(refunds: seq<Refund>, i: nat, s: StripeRefund) {
    exists j :: 0 <= j < |refunds| && j != i && refunds[j].stripeId == s.id
  }

  /** None when the transaction fails on a unique index. */
  function Sync(t: Tables, s: StripeRefund): (r: Option<Tables>) {
    if !IsUsable(s) then Some(t)
    else
      var local := FindLocal(t.refunds, s);
      if local.Some? then
        var i := local.value;
        if StripeIdIsTaken(t.refunds, i, s) then None
        else
          var o := t.refunds[i].order;
          Some(Tables(
            if o < |t.orders| then t.orders[o := Attach(t.orders[o], s.paymentIntent)] else t.orders,
            t.refunds[i := Updated(t.refunds[i], s)]))
      else
        var owner := FindOrder(t.orders, s.paymentIntent.value, |t.orders|);
        if owner.None? then Some(t)
        else if FindKey(t.refunds, StripeKey(s.id.value), |t.refunds|).Some? then None
        else Some(t.(refunds := t.refunds + [Imported(owner.value, s)]))
  }

  function MarkFailed(t: Tables, i: nat): Tables {
    if i < |t.refunds| && t.refunds[i].status == Pending && t.refunds[i].stripeId.None?
    then t.(refunds := t.refunds[i := t.refunds[i].(status := Failed)]) else t
  }

  // ---------------------------------------------------------------- one whole request

  datatype StripeAnswer = Created(refund: StripeRefund) | CallFailed

  datatype Lookup =
    | PaidWith(paymentIntent: string, amount: Option<nat>, currency: Option<string>)
    | LookupFailed
    | NotPaid

  function CheckLookup(lookup: Lookup, expected: nat): Result<string, RefundError> {
    match lookup
    case PaidWith(paymentIntent, amount, currency) =>
      if amount.Some? && amount.value != expected then Err(PaymentAmountConflict)
      else if currency.Some? && currency.value != "" && currency.value != "eur" then Err(PaymentCurrencyConflict)
      else Ok(paymentIntent)
    case LookupFailed => Err(PaymentLookupFailed)
    case NotPaid => Err(OrderNotRefundable)
  }

  /** The answer is read under the row and the key of the call, whatever its metadata says. */
  function Hinted(s: StripeRefund, call: Prepared): StripeRefund
    requires call.Ready?
  {
    s.(refundId := Some(call.refund), key := Some(call.key))
  }

  /** A failed call, and a failure to record its answer, mark the row. */
  function Settle(t: Tables, call: Prepared, answer: StripeAnswer): (r: (Tables, Option<RefundError>))
    requires call.Ready?
  {
    match answer
    case CallFailed => (MarkFailed(t, call.refund), Some(StripeRefused))
    case Created(s) =>
      var synced := Sync(t, Hinted(s, call));
      if synced.Some? then (synced.value, None) else (MarkFailed(t, call.refund), Some(StripeRefused))
  }

  function Conclude(r: (Tables, Result<Prepared, RefundError>), answer: StripeAnswer): (Tables, Option<RefundError>) {
    match r.1
    case Err(e) => (r.0, Some(e))
    case Ok(Ready(_, _, _, _, _, _, _)) => Settle(r.0, r.1.value, answer)
    case Ok(_) => (r.0, None)
  }

  /** A request of staff, end to end: at most one look-up of the payment and one call. */
  function Attempt(t: Tables, o: nat, d: Request, requester: Option<string>, lookup: Lookup, answer: StripeAnswer)
    : (Tables, Option<RefundError>)
  {
    var first := Prepare(t, o, d, requester, None);
    if first.1.Ok? && first.1.value.ResolvePaymentIntent? then
      var found := CheckLookup(lookup, first.1.value.expected);
      if found.Err? then (first.0, Some(found.error))
      else Conclude(Prepare(first.0, o, d, requester, Some(found.value)), answer)
    else Conclude(first, answer)
  }

  class RefundService {
    var orders: seq<PaidOrder>
    var refunds: seq<Refund>

    constructor (orders: seq<PaidOrder>)
      ensures this.orders == orders && refunds == []
    {
      this.orders, refunds := orders, [];
    }

    function View(): Tables
      reads this
    {
      Tables(orders, refunds)
    }

    method PrepareRefundRequest(o: nat, d: Request, requester: Option<string>, resolved: Option<string>)
      returns (prepared: Result<Prepared, RefundError>)
      modifies this
      ensures (View(), prepared) == Prepare(old(View()), o, d, requester, resolved)
    {
      if o >= |orders| {
        return Err(OrderNotFound);
      }
      var order := orders[o];
      if !IsRefundable(order) {
        return Err(OrderNotRefundable);
      }
      order := Attach(order, resolved);
      if order.paymentIntent.None? {
        assert order == orders[o];
        if order.session.Some? {
          return Ok(ResolvePaymentIntent(order.session.value, order.total));
        }
        return Err(OrderNotRefundable);
      }
      var before := orders;
      orders := orders[o := order];
      prepared := PreparePaidOrder(o, d, requester);
      if prepared.Err? {
        orders := before;
      }
    }

    method PreparePaidOrder(o: nat, d: Request, requester: Option<string>)
      returns (prepared: Result<Prepared, RefundError>)
      requires o < |orders| && orders[o].paymentIntent.Some?
      modifies this`refunds
      ensures (View(), prepared) == PreparePaid(old(View()), o, d, requester)
    {
      var byRequest := None;
      if d.requestId != "" {
        byRequest := FindKey(refunds, RequestKeyOf(o, requester, d), |refunds|);
        if byRequest.Some? && !Retryable(refunds[byRequest.value]) {
          return Ok(Idempotent);
        }
      }
      var requested := RequestedAmount(View(), o, d, byRequest);
      var error := AmountError(View(), o, d, requested);
      if error.Some? {
        return Err(error.value);
      }
      var key := if d.requestId != "" then RequestKeyOf(o, requester, d) else ContentKeyOf(o, requester, d, requested);
      var existing := byRequest;
      if d.requestId == "" {
        existing := FindKey(refunds, key, |refunds|);
        if existing.Some? && !Retryable(refunds[existing.value]) {
          return Ok(Idempotent);
        }
      }
      var i := |refunds|;
      if existing.Some? {
        i := existing.value;
        refunds := refunds[i := refunds[i].(status := Pending, requestedBy := requester)];
      } else {
        refunds := refunds + [NewRefund(View(), o, d, requester, requested, key)];
      }
      prepared := Ok(ReadyFor(refunds, i, o, d));
    }

    /** False when a unique index refuses the write. */
    method SyncStripeRefund(s: StripeRefund) returns (written: bool)
      modifies this
      ensures written == Sync(old(View()), s).Some?
      ensures View() == if written then Sync(old(View()), s).value else old(View())
    {
      if !IsUsable(s) {
        return true;
      }
      var local := FindLocal(refunds, s);
      if local.Some? {
        var i := local.value;
        if StripeIdIsTaken(refunds, i, s) {
          return false;
        }
        var o := refunds[i].order;
        refunds := refunds[i := Updated(refunds[i], s)];
        if o < |orders| {
          orders := orders[o := Attach(orders[o], s.paymentIntent)];
        }
        return true;
      }
      var owner := FindOrder(orders, s.paymentIntent.value, |orders|);
      if owner.None? {
        return true;
      }
      if FindKey(refunds, StripeKey(s.id.value), |refunds|).Some? {
        return false;
      }
      refunds := refunds + [Imported(owner.value, s)];
      return true;
    }

    method MarkRefundFailedAfterStripeError(i: nat)
      modifies this`refunds
      ensures View() == MarkFailed(old(View()), i)
    {
      if i < |refunds| && refunds[i].status == Pending && refunds[i].stripeId.None? {
        refunds := refunds[i := refunds[i].(status := Failed)];
      }
    }

    method CreateStripeRefund(call: Prepared, answer: StripeAnswer) returns (error: Option<RefundError>)
      requires call.Ready?
      modifies this
      ensures (View(), error) == Settle(old(View()), call, answer)
    {
      error := None;
      var recorded := false;
      if answer.Created? {
        recorded := SyncStripeRefund(Hinted(answer.refund, call));
      }
      if !recorded {
        MarkRefundFailedAfterStripeError(call.refund);
        error := Some(StripeRefused);
      }
    }

    /** Two rounds are enough: the second one knows the payment, so the loop never runs out. */
    method CreateRefund(o: nat, d: Request, requester: Option<string>, lookup: Lookup, answer: StripeAnswer)
      returns (error: Option<RefundError>)
      modifies this
      ensures (View(), error) == Attempt(old(View()), o, d, requester, lookup, answer)
    {
      var resolved: Option<string> := None;
      for attempt := 0 to 2
        invariant View() == old(View())
        invariant attempt == 0 ==> resolved.None?
        invariant attempt > 0 ==>
                    var first := Prepare(old(View()), o, d, requester, None).1;
                    && first.Ok? && first.value.ResolvePaymentIntent?
                    && resolved.Some? && CheckLookup(lookup, first.value.expected) == Ok(resolved.value)
        invariant attempt < 2
      {
        var prepared := PrepareRefundRequest(o, d, requester, resolved);
        if prepared.Err? {
          return Some(prepared.error);
        }
        if prepared.value.Idempotent? {
          return None;
        }
        if prepared.value.ResolvePaymentIntent? {
          var found := CheckLookup(lookup, prepared.value.expected);
          if found.Err? {
            return Some(found.error);
          }
          resolved := Some(found.value);
          continue;
        }
        error := CreateStripeRefund(prepared.value, answer);
        return;
      }
      assert false;
    }
  }

  // ---------------------------------------------------------------- what a report is about, and what it writes

  /** The four words of Stripe that have a status of their own; any other is a refund still pending. */
  lemma StatusesAreRead(status: string)
    ensures LocalStatus(status) == Succeeded <==> status == "succeeded"
    ensures LocalStatus(status) == Failed <==> status == "failed"
    ensures LocalStatus(status) == Canceled <==> status == "canceled"
    ensures LocalStatus(status) == RequiresAction <==> status == "requires_action"
  {
  }

  /** The row has the refund's own id, or is the one its metadata name. */
  predicate IsNamed(r: Refund, i: nat, s: StripeRefund) {
    || (s.id.Some? && r.stripeId.Some? && r.stripeId.value == s.id.value)
    || (s.refundId.Some? && s.refundId.value == i)
    || (s.key.Some? && s.key.value == r.key)
  }

  predicate IsSamePayment(r: Refund, s: StripeRefund) {
    || (s.paymentIntent.Some? && r.paymentIntent == s.paymentIntent.value)
    || (s.id.Some? && r.stripeId.Some? && r.stripeId.value == s.id.value)
  }

  predicate IsOldestNamed(refunds: seq<Refund>, s: StripeRefund, i: nat) {
    && i < |refunds| && IsNamed(refunds[i], i, s)
    && forall j :: 0 <= j < i ==> !IsNamed(refunds[j], j, s)
  }

  predicate IsOldestOfPayment(refunds: seq<Refund>, s: StripeRefund, i: nat) {
    && i < |refunds| && IsNamed(refunds[i], i, s) && IsSamePayment(refunds[i], s)
    && forall j :: 0 <= j < i ==> !(IsNamed(refunds[j], j, s) && IsSamePayment(refunds[j], s))
  }

  /** A report is about the oldest row it names that is of the same payment; if none is, about the oldest it names. */
  lemma LocalIsExact(refunds: seq<Refund>, s: StripeRefund, i: nat)
    ensures FindLocal(refunds, s) == Some(i) <==>
              || IsOldestOfPayment(refunds, s, i)
              || (IsOldestNamed(refunds, s, i)
                  && forall j :: 0 <= j < |refunds| ==> !(IsNamed(refunds[j], j, s) && IsSamePayment(refunds[j], s)))
    ensures FindLocal(refunds, s).None? <==> forall j :: 0 <= j < |refunds| ==> !IsNamed(refunds[j], j, s)
  {
    assert forall j :: 0 <= j < |refunds| ==> (IsCandidate(refunds, j, s) <==> IsNamed(refunds[j], j, s));
    assert forall j :: 0 <= j < |refunds| ==>
        (IsMatch(refunds, j, s) <==> IsNamed(refunds[j], j, s) && IsSamePayment(refunds[j], s));
  }

  predicate IsTaken(refunds: seq<Refund>, i: nat, id: string) {
    exists j :: 0 <= j < |refunds| && j != i && refunds[j].stripeId == Some(id)
  }

  /** A report without a refund, a payment or an amount writes nothing. One about a row rewrites what Stripe knows of it
      and tells its order the payment, unless another row has that refund. */
  lemma ReportIsRecordedExactly(t: Tables, s: StripeRefund)
    ensures s.id.None? || s.paymentIntent.None? || s.amount <= 0 ==> Sync(t, s) == Some(t)
    ensures s.id.Some? && s.paymentIntent.Some? && s.amount > 0 && FindLocal(t.refunds, s).Some? ==>
              var i := FindLocal(t.refunds, s).value;
              var row, o := t.refunds[i], t.refunds[i].order;
              && (Sync(t, s).None? <==> IsTaken(t.refunds, i, s.id.value))
              && (Sync(t, s).Some? ==>
                    && Sync(t, s).value.refunds ==
                       t.refunds[i := Refund(row.order, s.id, s.paymentIntent.value, s.amount, s.currency, row.reason,
                                             LocalStatus(s.status), row.requestedBy, row.key)]
                    && Sync(t, s).value.orders ==
                       if o < |t.orders| && t.orders[o].paymentIntent.None?
                       then t.orders[o := t.orders[o].(paymentIntent := s.paymentIntent)] else t.orders)
  {
  }

  /** One about no row is taken over for the order of its payment, if there is one. */
  lemma ReportIsImportedExactly(t: Tables, s: StripeRefund)
    requires s.id.Some? && s.paymentIntent.Some? && s.amount > 0 && FindLocal(t.refunds, s).None?
    ensures (forall o: nat :: o < |t.orders| ==> t.orders[o].paymentIntent != s.paymentIntent) ==> Sync(t, s) == Some(t)
    ensures (exists i :: 0 <= i < |t.refunds| && t.refunds[i].key == StripeKey(s.id.value)) ==>
              Sync(t, s).None? || Sync(t, s) == Some(t)
    ensures Sync(t, s).Some? && Sync(t, s).value != t ==>
              exists o: nat :: o < |t.orders| && t.orders[o].paymentIntent == s.paymentIntent
                && Sync(t, s).value == t.(refunds := t.refunds + [TakenOver(o, s)])
    ensures Sync(t, s).None? ==> exists i :: 0 <= i < |t.refunds| && t.refunds[i].key == StripeKey(s.id.value)
    ensures (exists o: nat :: o < |t.orders| && t.orders[o].paymentIntent == s.paymentIntent)
            && (forall i :: 0 <= i < |t.refunds| ==> t.refunds[i].key != StripeKey(s.id.value)) ==>
              Sync(t, s).Some? && |Sync(t, s).value.refunds| == |t.refunds| + 1
  {
    NoOrderIsFound(t.orders, s.paymentIntent.value, |t.orders|);
    var owner := FindOrder(t.orders, s.paymentIntent.value, |t.orders|);
    if owner.Some? {
      assert Imported(owner.value, s) == TakenOver(owner.value, s);
    }
  }

  function TakenOver(o: nat, s: StripeRefund): Refund
    requires s.id.Some? && s.paymentIntent.Some?
  {
    Refund(o, s.id, s.paymentIntent.value, s.amount, s.currency,
           if s.reason.Some? then s.reason.value else "stripe_webhook", LocalStatus(s.status), None,
           StripeKey(s.id.value))
  }

  lemma {:induction false} NoOrderIsFound(orders: seq<PaidOrder>, paymentIntent: string, n: nat)
    requires n <= |orders|
    ensures FindOrder(orders, paymentIntent, n).None? <==>
              forall o :: 0 <= o < n ==> orders[o].paymentIntent != Some(paymentIntent)
  {
    if n > 0 {
      NoOrderIsFound(orders, paymentIntent, n - 1);
    }
  }

  /** A look-up finds the payment of a paid session, of the amount and in the currency expected as far as Stripe tells
      them. */
  lemma LookupIsExact(lookup: Lookup, expected: nat)
    ensures var found := CheckLookup(lookup, expected);
            && (lookup.LookupFailed? ==> found == Err(PaymentLookupFailed))
            && (lookup.NotPaid? ==> found == Err(OrderNotRefundable))
            && (lookup.PaidWith? ==>
                  var otherAmount := lookup.amount.Some? && lookup.amount.value != expected;
                  var otherCurrency := lookup.currency.Some? && lookup.currency.value !in {"", "eur"};
                  && (found == Err(PaymentAmountConflict) <==> otherAmount)
                  && (found == Err(PaymentCurrencyConflict) <==> !otherAmount && otherCurrency)
                  && (found == Ok(lookup.paymentIntent) <==> !otherAmount && !otherCurrency))
  {
  }

  /** What a call leaves: Stripe's answer on the call's own row, whatever metadata the answer carries, or the row marked
      failed if it still waits for an answer. */
  lemma CallIsSettledExactly(t: Tables, call: Prepared, answer: StripeAnswer)
    requires call.Ready? && call.refund < |t.refunds|
    ensures var row := t.refunds[call.refund];
            var given := if row.status == Pending && row.stripeId.None?
                         then t.(refunds := t.refunds[call.refund := row.(status := Failed)]) else t;
            && (answer.CallFailed? ==> Settle(t, call, answer) == (given, Some(StripeRefused)))
            && (answer.Created? ==>
                  var s := answer.refund;
                  var own := StripeRefund(s.id, s.paymentIntent, s.amount, s.currency, s.status, s.reason,
                                          Some(call.refund), Some(call.key));
                  Settle(t, call, answer) ==
                  if Sync(t, own).Some? then (Sync(t, own).value, None) else (given, Some(StripeRefused)))
  {
  }

  /** A whole request: a refusal is passed on, a repetition changes nothing, a call is settled; and a payment that is
      not known yet is looked up once, after which the request is prepared again with it. */
  lemma AttemptIsExact(t: Tables, o: nat, d: Request, requester: Option<string>, lookup: Lookup, answer: StripeAnswer)
    ensures var r := Attempt(t, o, d, requester, lookup, answer);
            var first := Prepare(t, o, d, requester, None);
            if first.1.Ok? && first.1.value.ResolvePaymentIntent? then
              var found := CheckLookup(lookup, first.1.value.expected);
              if found.Err? then r == (first.0, Some(found.error))
              else IsConcluded(Prepare(first.0, o, d, requester, Some(found.value)), answer, r)
            else IsConcluded(first, answer, r)
  {
  }

  predicate IsConcluded(prepared: (Tables, Result<Prepared, RefundError>), answer: StripeAnswer,
                        r: (Tables, Option<RefundError>))
  {
    && (prepared.1.Err? ==> r == (prepared.0, Some(prepared.1.error)))
    && (prepared.1.Ok? && prepared.1.value.Ready? ==> r == Settle(prepared.0, prepared.1.value, answer))
    && (prepared.1.Ok? && !prepared.1.value.Ready? ==> r == (prepared.0, None))
  }
}
