/** An order row, its status table, its history and the gate every reservation release goes through. */
module Orders {
  import opened Wrappers

  datatype Status =
    | PaiementEnAttente
    | PaiementAVerifier
    | Nouvelle
    | Preparee
    | Traitee
    | Annulee

  function Transitions(status: Status): set<Status> {
    match status
    case PaiementEnAttente => {Nouvelle, Annulee}
    case PaiementAVerifier => {Annulee}
    case Nouvelle => {Preparee, Annulee}
    case Preparee => {Traitee, Annulee}
    case Traitee => {}
    case Annulee => {}
  }

  predicate CanTransition(from: Status, to: Status) {
    to in Transitions(from)
  }

  predicate IsTerminal(status: Status) {
    status == Annulee || status == Traitee
  }

  /** The statuses that count as a confirmed sale. */
  predicate IsEligible(status: Status) {
    status == Nouvelle || status == Preparee || status == Traitee
  }

  type SessionId = nat

  datatype Line = Line(article: nat, quantity: nat, preordered: real)

  datatype HistoryEntry = HistoryEntry(previous: Option<Status>, next: Status)

  datatype Order = Order(
    status: Status,
    lines: seq<Line>,
    createdAt: int,
    sessionId: Option<SessionId>,
    confirmedAt: Option<int>,
    history: seq<HistoryEntry>)

  /** A freshly inserted order: a checkout waits for its payment, a direct order is confirmed at once. */
  function NewOrder(direct: bool, lines: seq<Line>, now: int): Order {
    var status := if direct then Nouvelle else PaiementEnAttente;
    Order(status, lines, now, None, if direct then Some(now) else None, [HistoryEntry(None, status)])
  }

  /** Writes the new status and appends the history row, as every transition does in its transaction. */
  function Record(o: Order, next: Status): Order {
    o.(status := next, history := o.history + [HistoryEntry(Some(o.status), next)])
  }

  datatype TransitionError = StatusConflict(current: Status) | TransitionForbidden(current: Status)

  function TransitionRefusal(current: Status): TransitionError {
    if IsTerminal(current) then StatusConflict(current) else TransitionForbidden(current)
  }

  /** A status change asked by staff. */
  function Transition(o: Order, next: Status, now: int): Result<Order, TransitionError> {
    if CanTransition(o.status, next) then
      Ok(Record(o, next).(confirmedAt :=
        if o.confirmedAt.Some? then o.confirmedAt
        else if IsEligible(next) then Some(now) else None))
    else
      Err(TransitionRefusal(o.status))
  }

  /** The confirmation a paid checkout session gives to an order that still waits for its payment. */
  function ConfirmPaid(o: Order, session: SessionId, now: int): Order
    requires o.status == PaiementEnAttente
  {
    Record(o, Nouvelle).(
      confirmedAt := if o.confirmedAt.Some? then o.confirmedAt else Some(now),
      sessionId := if o.sessionId.Some? then o.sessionId else Some(session))
  }

  // ---------------------------------------------------------------- history

  predicate LegalStep(previous: HistoryEntry, entry: HistoryEntry) {
    entry.previous == Some(previous.next) && CanTransition(previous.next, entry.next)
  }

  /** A path of the transition table that starts where orders are created. */
  predicate LegalPath(history: seq<HistoryEntry>) {
    && |history| > 0
    && history[0].previous.None?
    && (history[0].next == PaiementEnAttente || history[0].next == Nouvelle)
    && forall i :: 0 < i < |history| ==> LegalStep(history[i - 1], history[i])
  }

  predicate Visits(history: seq<HistoryEntry>, status: Status) {
    exists i :: 0 <= i < |history| && history[i].next == status
  }

  /** The history is a legal path to the current status, and the confirmation date says whether it met Nouvelle. */
  predicate Faithful(o: Order) {
    && LegalPath(o.history)
    && o.history[|o.history| - 1].next == o.status
    && (o.confirmedAt.Some? <==> Visits(o.history, Nouvelle))
  }

  lemma NewOrderIsFaithful(direct: bool, lines: seq<Line>, now: int)
    ensures Faithful(NewOrder(direct, lines, now))
  {
    var o := NewOrder(direct, lines, now);
    assert o.history[0].next == o.status;
  }

  lemma RecordKeepsPath(o: Order, next: Status)
    requires Faithful(o) && CanTransition(o.status, next)
    ensures LegalPath(Record(o, next).history)
    ensures Visits(Record(o, next).history, Nouvelle) <==> o.confirmedAt.Some? || next == Nouvelle
    ensures IsEligible(next) && next != Nouvelle ==> o.confirmedAt.Some?
  {
    var before, after := o.history, Record(o, next).history;
    assert after[|before|].next == next;
    if Visits(before, Nouvelle) {
      var i :| 0 <= i < |before| && before[i].next == Nouvelle;
      assert after[i].next == Nouvelle;
    }
    if Visits(after, Nouvelle) && next != Nouvelle {
      var i :| 0 <= i < |after| && after[i].next == Nouvelle;
      assert before[i].next == Nouvelle;
    }
    if IsEligible(next) && next != Nouvelle {
      EligibleVisitsNouvelle(before);
    }
  }

  /** No path reaches Preparee or Traitee without having gone through Nouvelle. */
  lemma {:induction false} EligibleVisitsNouvelle(history: seq<HistoryEntry>)
    requires LegalPath(history) && IsEligible(history[|history| - 1].next)
    ensures Visits(history, Nouvelle)
    decreases |history|
  {
    var last := |history| - 1;
    if history[last].next != Nouvelle {
      assert LegalStep(history[last - 1], history[last]);
      var shorter := history[..last];
      EligibleVisitsNouvelle(shorter);
      var i :| 0 <= i < |shorter| && shorter[i].next == Nouvelle;
      assert history[i].next == Nouvelle;
    }
  }

  /** Staff transitions keep the history faithful and never rewrite a confirmation date. */
  lemma TransitionStaysFaithful(o: Order, next: Status, now: int)
    requires Faithful(o)
    ensures Transition(o, next, now).Ok? <==> CanTransition(o.status, next)
    ensures Transition(o, next, now).Ok? ==>
              var after := Transition(o, next, now).value;
              && Faithful(after)
              && after.status == next
              && o.history <= after.history
              && (o.confirmedAt.Some? ==> after.confirmedAt == o.confirmedAt)
  {
    if CanTransition(o.status, next) {
      RecordKeepsPath(o, next);
    }
  }

  lemma ConfirmPaidStaysFaithful(o: Order, session: SessionId, now: int)
    requires Faithful(o) && o.status == PaiementEnAttente
    ensures Faithful(ConfirmPaid(o, session, now))
    ensures o.history <= ConfirmPaid(o, session, now).history
    ensures o.confirmedAt.Some? ==> ConfirmPaid(o, session, now).confirmedAt == o.confirmedAt
  {
    RecordKeepsPath(o, Nouvelle);
  }

  lemma CancelStaysFaithful(o: Order)
    requires Faithful(o) && CanTransition(o.status, Annulee)
    ensures Faithful(Record(o, Annulee))
  {
    RecordKeepsPath(o, Annulee);
  }

  function Rank(status: Status): nat {
    match status
    case PaiementEnAttente => 0
    case PaiementAVerifier => 0
    case Nouvelle => 1
    case Preparee => 2
    case Traitee => 3
    case Annulee => 3
  }

  lemma {:induction false} RankGrows(history: seq<HistoryEntry>, i: nat)
    requires LegalPath(history) && i < |history|
    ensures Rank(history[i].next) >= i
  {
    if i > 0 {
      RankGrows(history, i - 1);
      assert LegalStep(history[i - 1], history[i]);
    }
  }

  /** An order changes status at most three times after its creation, and not at all once it is terminal. */
  lemma AtMostThreeChanges(o: Order)
    requires Faithful(o)
    ensures |o.history| <= 4
    ensures IsTerminal(o.status) ==> forall next :: !CanTransition(o.status, next)
    ensures forall i :: 0 <= i < |o.history| - 1 ==> !IsTerminal(o.history[i].next)
  {
    RankGrows(o.history, |o.history| - 1);
    forall i | 0 <= i < |o.history| - 1 ensures !IsTerminal(o.history[i].next) {
      assert LegalStep(o.history[i], o.history[i + 1]);
    }
  }

  // ---------------------------------------------------------------- release gate

  /** What a caller of the release asks: which statuses it may release and the guards it adds. */
  datatype ReleaseOptions = ReleaseOptions(
    releasable: set<Status>,
    idempotent: set<Status>,
    cutoff: Option<int>,
    requiredSession: Option<SessionId>)

  const STAFF_CANCEL := ReleaseOptions(
    {PaiementEnAttente, PaiementAVerifier, Nouvelle, Preparee}, {Annulee}, None, None)

  /** The expired-session webhook and a failed checkout release the same way. */
  const UNPAID_RELEASE := ReleaseOptions({PaiementEnAttente}, {Annulee}, None, None)

  function AbandonedRelease(cutoff: int, session: SessionId): ReleaseOptions {
    ReleaseOptions({PaiementEnAttente}, {Annulee}, Some(cutoff), Some(session))
  }

  predicate IsReleasePath(options: ReleaseOptions) {
    || options == STAFF_CANCEL
    || options == UNPAID_RELEASE
    || (options.cutoff.Some? && options.requiredSession.Some?
        && options == AbandonedRelease(options.cutoff.value, options.requiredSession.value))
  }

  /** The guards read before anything is written. */
  predicate PassesGuards(o: Order, options: ReleaseOptions) {
    && (options.cutoff.Some? ==> o.createdAt < options.cutoff.value)
    && (options.requiredSession.Some? ==> o.sessionId == options.requiredSession)
  }

  predicate Releases(o: Order, options: ReleaseOptions) {
    PassesGuards(o, options) && o.status in options.releasable
  }

  /** Who may be released: an order abandoned since the cutoff on the session it still holds, one that still waits for
      its payment, and for staff any order that is neither handed over nor cancelled. */
  lemma ReleasesExactly(o: Order, cutoff: int, session: SessionId)
    ensures Releases(o, AbandonedRelease(cutoff, session)) <==>
              o.status == PaiementEnAttente && o.createdAt < cutoff && o.sessionId == Some(session)
    ensures Releases(o, UNPAID_RELEASE) <==> o.status == PaiementEnAttente
    ensures Releases(o, STAFF_CANCEL) <==> o.status != Traitee && o.status != Annulee
  {
  }

  // ---------------------------------------------------------------- what each write leaves

  /** The table in full: one step forward at a time, and a way out until the order is handed over. */
  lemma TableIsExact(from: Status, to: Status)
    ensures CanTransition(from, to) <==>
              || (from == PaiementEnAttente && to == Nouvelle)
              || (from == Nouvelle && to == Preparee)
              || (from == Preparee && to == Traitee)
              || (to == Annulee && from != Traitee && from != Annulee)
  {
  }

  /** A checkout's order waits for its payment, a direct one is confirmed at once. */
  lemma NewOrderIsExact(lines: seq<Line>, now: int)
    ensures NewOrder(false, lines, now) ==
            Order(PaiementEnAttente, lines, now, None, None, [HistoryEntry(None, PaiementEnAttente)])
    ensures NewOrder(true, lines, now) == Order(Nouvelle, lines, now, None, Some(now), [HistoryEntry(None, Nouvelle)])
  {
  }

  /** A change of status is dated when it is the first to count as a sale; one the table refuses is a conflict on an
      order that is over, and forbidden on any other. */
  lemma TransitionIsExact(o: Order, next: Status, now: int)
    ensures if CanTransition(o.status, next) then
              Transition(o, next, now) ==
              Ok(Order(next, o.lines, o.createdAt, o.sessionId,
                       if o.confirmedAt.None? && (next == Nouvelle || next == Preparee || next == Traitee)
                       then Some(now) else o.confirmedAt,
                       o.history + [HistoryEntry(Some(o.status), next)]))
            else
              Transition(o, next, now) ==
              Err(if o.status == Traitee || o.status == Annulee then StatusConflict(o.status)
                  else TransitionForbidden(o.status))
  {
  }

  /** A payment confirms the order now, and gives it the session unless it has one. */
  lemma ConfirmPaidIsExact(o: Order, session: SessionId, now: int)
    requires o.status == PaiementEnAttente
    ensures ConfirmPaid(o, session, now) ==
            Order(Nouvelle, o.lines, o.createdAt,
                  if o.sessionId.None? then Some(session) else o.sessionId,
                  if o.confirmedAt.None? then Some(now) else o.confirmedAt,
                  o.history + [HistoryEntry(Some(PaiementEnAttente), Nouvelle)])
  {
  }
}
