/** The reconciliation queue: leases taken by several workers, fenced finalisation, concurrent reopening. */
module Reconciliation {
  import opened Wrappers
  import opened Gateway

  datatype Operation =
    | ExpireCheckoutSession
    | ReviewPaidPending
    | ReviewPaidCancelled
    | ReviewPaymentMismatch
    | ReviewAttachmentConflict
    | ReviewMissingSession
    | ReviewUnmatchedSession

  datatype RowStatus = Pending | ManualReview | Resolved | Failed

  /** A Stripe session, or the stand-in reference of an order that never got one. */
  datatype SessionRef = Session(id: nat) | MissingSessionOf(order: nat)

  type WorkerId = nat

  /** `version` is a history variable: it counts the writes the row has undergone. */
  datatype Row = Row(
    order: Option<nat>,
    session: SessionRef,
    operation: Operation,
    status: RowStatus,
    attempts: nat,
    nextAttemptAt: int,
    claimedBy: Option<WorkerId>,
    leaseExpiresAt: Option<int>,
    version: nat)

  datatype Settings = Settings(batchSize: nat, maxAttempts: nat, backoffBase: nat, backoffMax: nat, lease: nat)

  predicate ValidSettings(c: Settings) {
    c.batchSize > 0 && c.maxAttempts > 0 && c.backoffBase > 0 && c.backoffMax > 0 && c.lease > 0
  }

  function Unclaimed(row: Row): Row {
    row.(claimedBy := None, leaseExpiresAt := None, version := row.version + 1)
  }

  predicate Active(row: Row, session: SessionRef, operation: Operation) {
    row.status != Resolved && row.session == session && row.operation == operation
  }

  // ---------------------------------------------------------------- opening and reopening

  datatype Report = Report(
    order: Option<nat>, session: SessionRef, operation: Operation, status: RowStatus, attempts: nat)

  predicate IsReport(report: Report) {
    report.status == Pending || report.status == ManualReview
  }

  function FindActive(rows: seq<Row>, session: SessionRef, operation: Operation): (r: Option<nat>)
    ensures r.Some? ==> r.value < |rows| && Active(rows[r.value], session, operation)
    ensures r.None? ==> forall i :: 0 <= i < |rows| ==> !Active(rows[i], session, operation)
  {
    if rows == [] then None
    else
      var last := |rows| - 1;
      var earlier := FindActive(rows[..last], session, operation);
      if earlier.Some? then earlier
      else if Active(rows[last], session, operation) then Some(last)
      else None
  }

  function Reopened(row: Row, report: Report, now: int): Row {
    Unclaimed(row).(
      order := report.order,
      status := report.status,
      attempts := row.attempts + report.attempts,
      nextAttemptAt := now)
  }

  /** The unique index on unresolved rows turns a second report into an update that drops any lease. */
  function Upsert(rows: seq<Row>, report: Report, now: int): seq<Row> {
    var found := FindActive(rows, report.session, report.operation);
    if found.Some? then rows[found.value := Reopened(rows[found.value], report, now)]
    else
      rows + [Row(report.order, report.session, report.operation, report.status, report.attempts, now, None, None, 0)]
  }

  // ---------------------------------------------------------------- claiming

  predicate Due(row: Row, now: int) {
    && row.status == Pending
    && row.nextAttemptAt <= now
    && (row.leaseExpiresAt.None? || row.leaseExpiresAt.value <= now)
  }

  predicate Before(rows: seq<Row>, i: nat, j: nat)
    requires i < |rows| && j < |rows|
  {
    if rows[i].nextAttemptAt != rows[j].nextAttemptAt then rows[i].nextAttemptAt < rows[j].nextAttemptAt else i < j
  }

  predicate InOrder(rows: seq<Row>, ids: seq<nat>) {
    && (forall k :: 0 <= k < |ids| ==> ids[k] < |rows|)
    && (forall i, j :: 0 <= i < j < |ids| ==> Before(rows, ids[i], ids[j]))
  }

  function InsertDue(rows: seq<Row>, ids: seq<nat>, id: nat): (r: seq<nat>)
    requires InOrder(rows, ids) && id < |rows| && id !in ids
    ensures InOrder(rows, r)
    ensures forall x: nat :: x in r <==> x == id || x in ids
  {
    if ids == [] || Before(rows, id, ids[0]) then [id] + ids
    else
      var rest := InsertDue(rows, ids[1..], id);
      assert forall k :: 0 <= k < |rest| ==> rest[k] in rest;
      [ids[0]] + rest
  }

  /** The due rows no other claim has locked, oldest attempt first. */
  function Candidates(rows: seq<Row>, now: int, locked: set<nat>, n: nat): (r: seq<nat>)
    requires n <= |rows|
    ensures InOrder(rows, r)
    ensures forall x: nat :: x in r <==> x < n && Due(rows[x], now) && x !in locked
  {
    if n == 0 then []
    else
      var earlier := Candidates(rows, now, locked, n - 1);
      if Due(rows[n - 1], now) && n - 1 !in locked then InsertDue(rows, earlier, n - 1) else earlier
  }

  function Selected(rows: seq<Row>, now: int, locked: set<nat>, batchSize: nat): (r: seq<nat>)
    ensures |r| <= batchSize
    ensures forall k :: 0 <= k < |r| ==> r[k] < |rows|
  {
    var ids := Candidates(rows, now, locked, |rows|);
    if |ids| <= batchSize then ids else ids[..batchSize]
  }

  function Leased(row: Row, worker: WorkerId, until: int): Row {
    row.(claimedBy := Some(worker), leaseExpiresAt := Some(until), version := row.version + 1)
  }

  function LeaseAll(rows: seq<Row>, ids: seq<nat>, worker: WorkerId, until: int): (r: seq<Row>)
    ensures |r| == |rows|
  {
    seq(|rows|, i requires 0 <= i < |rows| => if i in ids then Leased(rows[i], worker, until) else rows[i])
  }

  /** A batch takes the oldest due rows: nothing left out precedes anything taken, and a batch that is not full
      leaves nothing due. */
  lemma {:induction false} OldestAreSelected(rows: seq<Row>, now: int, locked: set<nat>, batchSize: nat, i: nat)
    requires i < |rows| && Due(rows[i], now) && i !in locked
    ensures var ids := Selected(rows, now, locked, batchSize);
            i in ids || (|ids| == batchSize && forall k :: 0 <= k < |ids| ==> Before(rows, ids[k], i))
  {
    var all := Candidates(rows, now, locked, |rows|);
    assert i in all;
    var p :| 0 <= p < |all| && all[p] == i;
    if p < batchSize && |all| > batchSize {
      assert all[..batchSize][p] == i;
    }
  }

  // ---------------------------------------------------------------- outcome of an attempt

  datatype Outcome = Outcome(status: RowStatus, nextAttemptAt: int)

  function Power2(n: nat): (r: nat)
    ensures r >= 1
  {
    if n == 0 then 1 else 2 * Power2(n - 1)
  }

  function Delay(c: Settings, attemptNumber: nat): nat {
    var multiplier := Power2(if attemptNumber > 0 then attemptNumber - 1 else 0);
    if c.backoffBase * multiplier <= c.backoffMax then c.backoffBase * multiplier else c.backoffMax
  }

  function RetryOutcome(c: Settings, attemptNumber: nat, now: int): Outcome {
    if attemptNumber >= c.maxAttempts then Outcome(Failed, now)
    else Outcome(Pending, now + Delay(c, attemptNumber))
  }

  function MapExpiration(c: Settings, report: ExpireReport, attemptNumber: nat, now: int): Outcome {
    match report
    case Expired => Outcome(Resolved, now)
    case WasExpired => Outcome(Resolved, now)
    case WasPaid => Outcome(ManualReview, now)
    case Unknown => Outcome(ManualReview, now)
    case ExpireFailed(retryable) =>
      if retryable then RetryOutcome(c, attemptNumber, now) else Outcome(ManualReview, now)
  }

  function MapReview(c: Settings, report: StateReport, attemptNumber: nat, now: int): Outcome {
    match report
    case CallFailed(retryable) =>
      if retryable then RetryOutcome(c, attemptNumber, now) else Outcome(ManualReview, now)
    case OpenUnpaid => Outcome(ManualReview, now)
    case AlreadyExpired => Outcome(ManualReview, now)
    case AlreadyPaid => Outcome(ManualReview, now)
    case NotFound => Outcome(ManualReview, now)
  }

  /** What the worker got back from Stripe, or the exception that stopped it. */
  datatype Answer = ExpireAnswer(expire: ExpireReport) | StateAnswer(state: StateReport) | Crashed

  predicate Answers(operation: Operation, answer: Answer) {
    match answer
    case ExpireAnswer(_) => operation == ExpireCheckoutSession
    case StateAnswer(_) => operation != ExpireCheckoutSession
    case Crashed => true
  }

  function OutcomeOf(c: Settings, answer: Answer, attemptNumber: nat, now: int): Outcome {
    match answer
    case ExpireAnswer(report) => MapExpiration(c, report, attemptNumber, now)
    case StateAnswer(report) => MapReview(c, report, attemptNumber, now)
    case Crashed => RetryOutcome(c, attemptNumber, now)
  }

  lemma {:induction false} Power2Grows(m: nat, n: nat)
    requires m <= n
    ensures Power2(m) <= Power2(n)
    ensures Power2(n) >= n + 1
  {
    if n > 0 {
      if m < n {
        Power2Grows(m, n - 1);
      } else {
        Power2Grows(m - 1, n - 1);
      }
    }
  }

  /** The delay between two attempts never shrinks, stays within its cap, and reaches the cap. */
  lemma BackoffIsCapped(c: Settings, m: nat, n: nat)
    requires ValidSettings(c) && m <= n
    ensures 1 <= Delay(c, m) <= Delay(c, n) <= c.backoffMax
    ensures n > c.backoffMax ==> Delay(c, n) == c.backoffMax
  {
    var a, b := if m > 0 then m - 1 else 0, if n > 0 then n - 1 else 0;
    Power2Grows(a, b);
    ScalingGrows(c.backoffBase, Power2(a), Power2(b));
  }

  lemma ScalingGrows(base: nat, x: nat, y: nat)
    requires base >= 1 && 1 <= x <= y
    ensures 1 <= base * x <= base * y
    ensures y <= base * y
  {
    assert base * y == y + (base - 1) * y;
    assert base * y - base * x == base * (y - x);
    assert base * x == x + (base - 1) * x;
  }

  // ---------------------------------------------------------------- row writes by workers and staff

  predicate Owns(row: Row, worker: WorkerId, now: int) {
    row.claimedBy == Some(worker) && row.leaseExpiresAt.Some? && row.leaseExpiresAt.value > now
  }

  function Finalized(row: Row, attemptNumber: nat, outcome: Outcome): Row {
    Unclaimed(row).(status := outcome.status, attempts := attemptNumber, nextAttemptAt := outcome.nextAttemptAt)
  }

  function FinalizeRow(rows: seq<Row>, id: nat, worker: WorkerId, attemptNumber: nat, outcome: Outcome, now: int)
    : seq<Row>
  {
    if id < |rows| && Owns(rows[id], worker, now) then rows[id := Finalized(rows[id], attemptNumber, outcome)]
    else rows
  }

  predicate CanRetry(rows: seq<Row>, id: nat) {
    id < |rows| && rows[id].status != Resolved
  }

  function RetryRow(rows: seq<Row>, id: nat, now: int): seq<Row> {
    if CanRetry(rows, id) then rows[id := Unclaimed(rows[id]).(status := Pending, nextAttemptAt := now)] else rows
  }

  predicate CanResolve(rows: seq<Row>, id: nat) {
    id < |rows| && (rows[id].status == ManualReview || rows[id].status == Failed)
  }

  function ResolveRow(rows: seq<Row>, id: nat): seq<Row> {
    if CanResolve(rows, id) then rows[id := Unclaimed(rows[id]).(status := Resolved)] else rows
  }

  class Queue {
    var rows: seq<Row>

    constructor ()
      ensures rows == []
    {
      rows := [];
    }

    method CreateActiveReconciliation(report: Report, now: int)
      modifies this
      ensures rows == Upsert(old(rows), report, now)
    {
      var found := FindActive(rows, report.session, report.operation);
      if found.Some? {
        rows := rows[found.value := Reopened(rows[found.value], report, now)];
      } else {
        rows := rows + [Row(report.order, report.session, report.operation, report.status, report.attempts,
                            now, None, None, 0)];
      }
    }

    method ClaimDueReconciliations(c: Settings, worker: WorkerId, now: int, locked: set<nat>)
      returns (claimed: seq<nat>)
      modifies this
      ensures claimed == Selected(old(rows), now, locked, c.batchSize)
      ensures rows == LeaseAll(old(rows), claimed, worker, now + c.lease)
    {
      ghost var before := rows;
      claimed := Selected(rows, now, locked, c.batchSize);
      for i := 0 to |rows|
        invariant |rows| == |before|
        invariant forall j :: 0 <= j < i ==> rows[j] == LeaseAll(before, claimed, worker, now + c.lease)[j]
        invariant forall j :: i <= j < |rows| ==> rows[j] == before[j]
      {
        if i in claimed {
          rows := rows[i := Leased(rows[i], worker, now + c.lease)];
        }
      }
    }

    method FinalizeClaimed(id: nat, worker: WorkerId, attemptNumber: nat, outcome: Outcome, now: int)
      returns (finalized: bool)
      requires id < |rows|
      modifies this
      ensures finalized == Owns(old(rows)[id], worker, now)
      ensures rows == FinalizeRow(old(rows), id, worker, attemptNumber, outcome, now)
      ensures !finalized ==> rows == old(rows)
      ensures |rows| == |old(rows)| && forall i :: 0 <= i < |rows| && i != id ==> rows[i] == old(rows)[i]
      ensures finalized ==>
                && rows[id].status == outcome.status && rows[id].attempts == attemptNumber
                && rows[id].nextAttemptAt == outcome.nextAttemptAt && !Owns(rows[id], worker, now)
    {
      finalized := Owns(rows[id], worker, now);
      if finalized {
        rows := rows[id := Finalized(rows[id], attemptNumber, outcome)];
      }
    }

    method RetryReconciliation(id: nat, now: int) returns (found: bool)
      modifies this
      ensures found == CanRetry(old(rows), id)
      ensures rows == RetryRow(old(rows), id, now)
      ensures !found ==> rows == old(rows)
      ensures |rows| == |old(rows)| && forall i :: 0 <= i < |rows| && i != id ==> rows[i] == old(rows)[i]
      ensures found ==> Due(rows[id], now) && rows[id].attempts == old(rows)[id].attempts
    {
      found := id < |rows| && rows[id].status in {Pending, ManualReview, Failed};
      if found {
        rows := rows[id := Unclaimed(rows[id]).(status := Pending, nextAttemptAt := now)];
      }
    }

    method ResolveManually(id: nat) returns (found: bool)
      modifies this
      ensures found == CanResolve(old(rows), id)
      ensures rows == ResolveRow(old(rows), id)
      ensures !found ==> rows == old(rows)
      ensures |rows| == |old(rows)| && forall i :: 0 <= i < |rows| && i != id ==> rows[i] == old(rows)[i]
      ensures found ==> rows[id].status == Resolved && rows[id].claimedBy.None?
    {
      found := id < |rows| && rows[id].status in {ManualReview, Failed};
      if found {
        rows := rows[id := Unclaimed(rows[id]).(status := Resolved)];
      }
    }
  }

  // ---------------------------------------------------------------- workers over one queue

  /** What a worker keeps in hand of a row it claimed. `version` records, for the proofs, the row's version then. */
  datatype Claim = Claim(id: nat, attempts: nat, until: int, version: nat)

  /** `inHand` gives, per worker, the claims of its current tick still to process. */
  datatype World = World(rows: seq<Row>, inHand: map<WorkerId, seq<Claim>>, clock: int)

  const INITIAL := World([], map[], 0)

  datatype Step =
    | ReportStep(report: Report, at: int)
    | TickStep(worker: WorkerId, locked: set<nat>, at: int)
    | ProcessStep(worker: WorkerId, answer: Answer, at: int)
    | AbortStep(worker: WorkerId, at: int)
    | RetryStep(id: nat, at: int)
    | ResolveStep(id: nat, at: int)

  function InHand(w: World, worker: WorkerId): seq<Claim> {
    if worker in w.inHand then w.inHand[worker] else []
  }

  function ClaimsOf(rows: seq<Row>, ids: seq<nat>, until: int): (r: seq<Claim>)
    requires forall k :: 0 <= k < |ids| ==> ids[k] < |rows|
    ensures |r| == |ids|
  {
    seq(|ids|, k requires 0 <= k < |ids| => Claim(ids[k], rows[ids[k]].attempts, until, rows[ids[k]].version + 1))
  }

  function LeaseBatch(w: World, ids: seq<nat>, worker: WorkerId, until: int): World
    requires forall k :: 0 <= k < |ids| ==> ids[k] < |w.rows|
  {
    w.(rows := LeaseAll(w.rows, ids, worker, until), inHand := w.inHand[worker := ClaimsOf(w.rows, ids, until)])
  }

  /** A worker whose tick is still running does not start another one. */
  function Tick(c: Settings, w: World, worker: WorkerId, locked: set<nat>): World {
    if InHand(w, worker) != [] then w
    else LeaseBatch(w, Selected(w.rows, w.clock, locked, c.batchSize), worker, w.clock + c.lease)
  }

  predicate Ready(w: World, worker: WorkerId, answer: Answer) {
    && InHand(w, worker) != []
    && InHand(w, worker)[0].id < |w.rows|
    && Answers(w.rows[InHand(w, worker)[0].id].operation, answer)
  }

  function Process(c: Settings, w: World, worker: WorkerId, answer: Answer): World {
    if Ready(w, worker, answer) then
      var claim := InHand(w, worker)[0];
      var number := claim.attempts + 1;
      w.(rows := FinalizeRow(w.rows, claim.id, worker, number, OutcomeOf(c, answer, number, w.clock), w.clock),
         inHand := w.inHand[worker := InHand(w, worker)[1..]])
    else w
  }

  function Effect(c: Settings, w: World, step: Step): World {
    match step
    case ReportStep(report, _) => if IsReport(report) then w.(rows := Upsert(w.rows, report, w.clock)) else w
    case TickStep(worker, locked, _) => Tick(c, w, worker, locked)
    case ProcessStep(worker, answer, _) => Process(c, w, worker, answer)
    case AbortStep(worker, _) => w.(inHand := w.inHand[worker := []])
    case RetryStep(id, _) => w.(rows := RetryRow(w.rows, id, w.clock))
    case ResolveStep(id, _) => w.(rows := ResolveRow(w.rows, id))
  }

  /** Time only moves forward between steps. */
  function Next(c: Settings, w: World, step: Step): World {
    Effect(c, w.(clock := Max(w.clock, step.at)), step)
  }

  function Run(c: Settings, steps: seq<Step>): World {
    if steps == [] then INITIAL else Next(c, Run(c, steps[..|steps| - 1]), steps[|steps| - 1])
  }

  // ---------------------------------------------------------------- what every run keeps

  ghost predicate RowIsSound(row: Row) {
    && (row.claimedBy.Some? <==> row.leaseExpiresAt.Some?)
    && (row.claimedBy.Some? ==> row.status == Pending)
  }

  ghost predicate ActiveAreUnique(rows: seq<Row>) {
    forall i, j :: 0 <= i < j < |rows| && rows[i].status != Resolved && rows[j].status != Resolved ==>
      rows[i].session != rows[j].session || rows[i].operation != rows[j].operation
  }

  ghost predicate RowsAreSound(rows: seq<Row>) {
    && (forall i :: 0 <= i < |rows| ==> RowIsSound(rows[i]))
    && ActiveAreUnique(rows)
  }

  /** A claim matches its row exactly as long as nobody has written the row since. */
  ghost predicate ClaimFits(rows: seq<Row>, worker: WorkerId, claim: Claim) {
    && claim.id < |rows|
    && claim.version <= rows[claim.id].version
    && (claim.version == rows[claim.id].version <==> rows[claim.id].claimedBy == Some(worker))
    && (claim.version == rows[claim.id].version ==>
          rows[claim.id].attempts == claim.attempts && rows[claim.id].leaseExpiresAt == Some(claim.until))
  }

  ghost predicate HandIsSound(w: World, worker: WorkerId) {
    var hand := InHand(w, worker);
    && (forall k :: 0 <= k < |hand| ==> ClaimFits(w.rows, worker, hand[k]))
    && (forall i, j :: 0 <= i < j < |hand| ==> hand[i].id != hand[j].id)
  }

  ghost predicate HandsAreSound(w: World) {
    forall worker :: HandIsSound(w, worker)
  }

  ghost predicate Consistent(w: World) {
    RowsAreSound(w.rows) && HandsAreSound(w)
  }

  /** Consistent, under a quantifier so that a proof unfolds it only where it names it. */
  ghost predicate Sound(w: World) {
    forall v :: v == w ==> Consistent(v)
  }

  /** What a single write may do to a row. */
  ghost predicate RowEvolves(before: Row, after: Row) {
    && before.version <= after.version
    && (after.version == before.version ==> after == before)
    && before.attempts <= after.attempts
    && before.session == after.session
    && before.operation == after.operation
    && (before.status == Resolved ==> after == before)
  }

  ghost predicate RowsEvolve(before: seq<Row>, after: seq<Row>) {
    && |before| <= |after|
    && forall i :: 0 <= i < |before| ==> RowEvolves(before[i], after[i])
  }

  lemma ReplacedRowStaysUnique(rows: seq<Row>, i: nat, row: Row)
    requires RowsAreSound(rows) && i < |rows| && RowIsSound(row)
    requires row.session == rows[i].session && row.operation == rows[i].operation
    requires rows[i].status != Resolved
    ensures RowsAreSound(rows[i := row])
  {
  }

  /** Row `i` is the one unresolved row of the report: due, held by nobody, its attempts added up. */
  ghost predicate IsReportedAt(rows: seq<Row>, after: seq<Row>, report: Report, now: int, i: nat) {
    && i < |after|
    && Active(after[i], report.session, report.operation)
    && after[i].status == report.status && after[i].order == report.order && after[i].nextAttemptAt == now
    && after[i].claimedBy.None? && after[i].leaseExpiresAt.None?
    && after[i].attempts == (if i < |rows| then rows[i].attempts else 0) + report.attempts
    && (i < |rows| ==> Active(rows[i], report.session, report.operation) && after[i].version > rows[i].version)
    && |after| == (if i < |rows| then |rows| else |rows| + 1)
    && forall j :: 0 <= j < |rows| && j != i ==> after[j] == rows[j]
  }

  /** Reporting twice keeps one unresolved row per session and operation, and takes it from whoever holds it. */
  lemma UpsertIsSound(rows: seq<Row>, report: Report, now: int)
    requires RowsAreSound(rows) && IsReport(report)
    ensures RowsAreSound(Upsert(rows, report, now))
    ensures RowsEvolve(rows, Upsert(rows, report, now))
    ensures exists i: nat :: IsReportedAt(rows, Upsert(rows, report, now), report, now, i)
  {
    var found := FindActive(rows, report.session, report.operation);
    var after := Upsert(rows, report, now);
    if found.Some? {
      ReplacedRowStaysUnique(rows, found.value, Reopened(rows[found.value], report, now));
      assert IsReportedAt(rows, after, report, now, found.value);
    } else {
      assert IsReportedAt(rows, after, report, now, |rows|);
      forall i, j | 0 <= i < j < |after| && after[i].status != Resolved && after[j].status != Resolved
        ensures after[i].session != after[j].session || after[i].operation != after[j].operation
      {
        assert !Active(rows[i], report.session, report.operation);
      }
    }
  }

  /** A write that leaves a row unclaimed breaks every claim in hand on it, and only on it. */
  lemma WriteKeepsHands(w: World, i: nat, row: Row)
    requires Sound(w) && i < |w.rows|
    requires row.claimedBy.None? && row.version > w.rows[i].version
    ensures HandsAreSound(w.(rows := w.rows[i := row]))
  {
    assert Consistent(w);
    var r := w.(rows := w.rows[i := row]);
    forall worker ensures HandIsSound(r, worker) {
      assert HandIsSound(w, worker);
      var hand := InHand(w, worker);
      forall k | 0 <= k < |hand| ensures ClaimFits(r.rows, worker, hand[k]) {
        assert ClaimFits(w.rows, worker, hand[k]);
      }
    }
  }

  lemma GrowingKeepsHands(w: World, row: Row)
    requires Sound(w)
    ensures HandsAreSound(w.(rows := w.rows + [row]))
  {
    assert Consistent(w);
    var r := w.(rows := w.rows + [row]);
    forall worker ensures HandIsSound(r, worker) {
      assert HandIsSound(w, worker);
      var hand := InHand(w, worker);
      forall k | 0 <= k < |hand| ensures ClaimFits(r.rows, worker, hand[k]) {
        assert ClaimFits(w.rows, worker, hand[k]);
      }
    }
  }

  lemma ReportKeepsSound(w: World, report: Report)
    requires Sound(w) && IsReport(report)
    ensures Sound(w.(rows := Upsert(w.rows, report, w.clock)))
    ensures RowsEvolve(w.rows, Upsert(w.rows, report, w.clock))
  {
    assert Consistent(w);
    UpsertIsSound(w.rows, report, w.clock);
    var found := FindActive(w.rows, report.session, report.operation);
    if found.Some? {
      WriteKeepsHands(w, found.value, Reopened(w.rows[found.value], report, w.clock));
    } else {
      GrowingKeepsHands(w, Upsert(w.rows, report, w.clock)[|w.rows|]);
    }
  }

  /** Distinct due rows; under a quantifier for the same reason as Sound below. */
  ghost predicate IsBatch(rows: seq<Row>, now: int, ids: seq<nat>) {
    && (forall k :: 0 <= k < |ids| ==> ids[k] < |rows|)
    && forall x :: x == ids ==> DistinctDue(rows, now, x)
  }

  ghost predicate DistinctDue(rows: seq<Row>, now: int, ids: seq<nat>) {
    && (forall k :: 0 <= k < |ids| ==> ids[k] < |rows| && Due(rows[ids[k]], now))
    && (forall i, j :: 0 <= i < j < |ids| ==> ids[i] != ids[j])
  }

  lemma SelectedAreDue(rows: seq<Row>, now: int, locked: set<nat>, batchSize: nat)
    ensures IsBatch(rows, now, Selected(rows, now, locked, batchSize))
  {
    var all := Candidates(rows, now, locked, |rows|);
    var ids := Selected(rows, now, locked, batchSize);
    forall k | 0 <= k < |ids| ensures ids[k] < |rows| && Due(rows[ids[k]], now) {
      assert all[k] in all;
    }
    forall i, j | 0 <= i < j < |ids| ensures ids[i] != ids[j] {
      assert Before(rows, all[i], all[j]);
    }
  }

  lemma SelectedAreUnlocked(rows: seq<Row>, now: int, locked: set<nat>, batchSize: nat)
    ensures forall i :: i in Selected(rows, now, locked, batchSize) ==> i !in locked
  {
    var all := Candidates(rows, now, locked, |rows|);
    var ids := Selected(rows, now, locked, batchSize);
    forall i | i in ids ensures i !in locked {
      var k :| 0 <= k < |ids| && ids[k] == i;
      assert all[k] in all;
    }
  }

  lemma LeasingIsSound(rows: seq<Row>, ids: seq<nat>, worker: WorkerId, until: int, now: int)
    requires RowsAreSound(rows)
    requires forall k :: 0 <= k < |ids| ==> ids[k] < |rows| && Due(rows[ids[k]], now)
    ensures RowsAreSound(LeaseAll(rows, ids, worker, until))
    ensures RowsEvolve(rows, LeaseAll(rows, ids, worker, until))
  {
    var after := LeaseAll(rows, ids, worker, until);
    forall i | 0 <= i < |rows| ensures RowIsSound(after[i]) && RowEvolves(rows[i], after[i]) {
      assert RowIsSound(rows[i]);
    }
  }

  lemma LeasingBreaksOthers(rows: seq<Row>, ids: seq<nat>, worker: WorkerId, until: int, other: WorkerId, claim: Claim)
    requires ClaimFits(rows, other, claim) && other != worker
    ensures ClaimFits(LeaseAll(rows, ids, worker, until), other, claim)
  {
  }

  lemma FreshClaimFits(rows: seq<Row>, ids: seq<nat>, worker: WorkerId, until: int, k: nat)
    requires forall j :: 0 <= j < |ids| ==> ids[j] < |rows|
    requires k < |ids|
    ensures ClaimFits(LeaseAll(rows, ids, worker, until), worker, ClaimsOf(rows, ids, until)[k])
  {
    assert ids[k] in ids;
  }

  lemma TickKeepsHand(w: World, ids: seq<nat>, worker: WorkerId, until: int, other: WorkerId)
    requires Sound(w)
    requires forall k :: 0 <= k < |ids| ==> ids[k] < |w.rows|
    requires forall i, j :: 0 <= i < j < |ids| ==> ids[i] != ids[j]
    ensures HandIsSound(LeaseBatch(w, ids, worker, until), other)
  {
    assert Consistent(w);
    var after := LeaseAll(w.rows, ids, worker, until);
    if other != worker {
      assert HandIsSound(w, other);
      var hand := InHand(w, other);
      forall k | 0 <= k < |hand| ensures ClaimFits(after, other, hand[k]) {
        LeasingBreaksOthers(w.rows, ids, worker, until, other, hand[k]);
      }
    } else {
      forall k | 0 <= k < |ids| ensures ClaimFits(after, other, ClaimsOf(w.rows, ids, until)[k]) {
        FreshClaimFits(w.rows, ids, worker, until, k);
      }
    }
  }

  lemma LeaseBatchIsSound(w: World, ids: seq<nat>, worker: WorkerId, until: int)
    requires Sound(w)
    requires IsBatch(w.rows, w.clock, ids)
    ensures Sound(LeaseBatch(w, ids, worker, until))
    ensures RowsEvolve(w.rows, LeaseBatch(w, ids, worker, until).rows)
  {
    assert DistinctDue(w.rows, w.clock, ids);
    assert Consistent(w);
    LeasingIsSound(w.rows, ids, worker, until, w.clock);
    forall other ensures HandIsSound(LeaseBatch(w, ids, worker, until), other) {
      TickKeepsHand(w, ids, worker, until, other);
    }
  }

  lemma TickKeepsSound(c: Settings, w: World, worker: WorkerId, locked: set<nat>)
    requires Sound(w)
    ensures Sound(Tick(c, w, worker, locked))
    ensures RowsEvolve(w.rows, Tick(c, w, worker, locked).rows)
  {
    if InHand(w, worker) == [] {
      var ids := Selected(w.rows, w.clock, locked, c.batchSize);
      SelectedAreDue(w.rows, w.clock, locked, c.batchSize);
      assert Tick(c, w, worker, locked) == LeaseBatch(w, ids, worker, w.clock + c.lease);
      LeaseBatchIsSound(w, ids, worker, w.clock + c.lease);
    }
  }

  lemma ProcessKeepsSound(c: Settings, w: World, worker: WorkerId, answer: Answer)
    requires Sound(w)
    ensures Sound(Process(c, w, worker, answer))
    ensures RowsEvolve(w.rows, Process(c, w, worker, answer).rows)
  {
    assert Consistent(w);
    if Ready(w, worker, answer) {
      assert HandIsSound(w, worker);
      var hand := InHand(w, worker);
      var claim := hand[0];
      assert ClaimFits(w.rows, worker, claim);
      var rest := w.(inHand := w.inHand[worker := hand[1..]]);
      assert Sound(rest) by {
        DroppingClaimsKeepsSound(w, worker, 1);
      }
      if Owns(w.rows[claim.id], worker, w.clock) {
        var number := claim.attempts + 1;
        var row := Finalized(w.rows[claim.id], number, OutcomeOf(c, answer, number, w.clock));
        WriteKeepsHands(rest, claim.id, row);
        ReplacedRowStaysUnique(w.rows, claim.id, row);
        assert Process(c, w, worker, answer) == rest.(rows := rest.rows[claim.id := row]);
      } else {
        assert Process(c, w, worker, answer) == rest;
      }
    }
  }

  lemma DroppingClaimsKeepsSound(w: World, worker: WorkerId, n: nat)
    requires Sound(w) && n <= |InHand(w, worker)|
    ensures Sound(w.(inHand := w.inHand[worker := InHand(w, worker)[n..]]))
  {
    assert Consistent(w);
    var r := w.(inHand := w.inHand[worker := InHand(w, worker)[n..]]);
    forall other ensures HandIsSound(r, other) {
      assert HandIsSound(w, other);
    }
  }

  lemma StaffKeepsSound(w: World, id: nat)
    requires Sound(w)
    ensures Sound(w.(rows := RetryRow(w.rows, id, w.clock))) && RowsEvolve(w.rows, RetryRow(w.rows, id, w.clock))
    ensures Sound(w.(rows := ResolveRow(w.rows, id))) && RowsEvolve(w.rows, ResolveRow(w.rows, id))
  {
    assert Consistent(w);
    if CanRetry(w.rows, id) {
      var row := Unclaimed(w.rows[id]).(status := Pending, nextAttemptAt := w.clock);
      WriteKeepsHands(w, id, row);
      ReplacedRowStaysUnique(w.rows, id, row);
    }
    if CanResolve(w.rows, id) {
      var row := Unclaimed(w.rows[id]).(status := Resolved);
      WriteKeepsHands(w, id, row);
      ReplacedRowStaysUnique(w.rows, id, row);
    }
  }

  lemma LaterIsSound(w: World, clock: int)
    requires Sound(w)
    ensures Sound(w.(clock := clock))
  {
    assert Consistent(w);
    var t := w.(clock := clock);
    assert t.rows == w.rows && t.inHand == w.inHand;
    forall worker ensures HandIsSound(t, worker) {
      assert HandIsSound(w, worker);
      assert InHand(t, worker) == InHand(w, worker);
    }
  }

  lemma StepKeepsSound(c: Settings, w: World, step: Step)
    requires Sound(w)
    ensures Sound(Next(c, w, step))
    ensures RowsEvolve(w.rows, Next(c, w, step).rows)
    ensures w.clock <= Next(c, w, step).clock
  {
    var t := w.(clock := Max(w.clock, step.at));
    LaterIsSound(w, t.clock);
    match step
    case ReportStep(report, _) =>
      if IsReport(report) {
        ReportKeepsSound(t, report);
      }
    case TickStep(worker, locked, _) => TickKeepsSound(c, t, worker, locked);
    case ProcessStep(worker, answer, _) => ProcessKeepsSound(c, t, worker, answer);
    case AbortStep(worker, _) =>
      var hand := InHand(t, worker);
      assert hand[|hand|..] == [];
      DroppingClaimsKeepsSound(t, worker, |hand|);
    case RetryStep(id, _) => StaffKeepsSound(t, id);
    case ResolveStep(id, _) => StaffKeepsSound(t, id);
  }

  lemma {:induction false} EveryRunIsSound(c: Settings, steps: seq<Step>)
    ensures Sound(Run(c, steps))
  {
    if steps != [] {
      EveryRunIsSound(c, steps[..|steps| - 1]);
      StepKeepsSound(c, Run(c, steps[..|steps| - 1]), steps[|steps| - 1]);
    }
  }

  /** In every run claims go with pending rows, a lease goes with a claim, and a session has at most one unresolved
      row per operation. */
  lemma {:induction false} LeasesGoWithPendingRows(c: Settings, steps: seq<Step>)
    ensures var rows := Run(c, steps).rows;
            && (forall i :: 0 <= i < |rows| ==>
                  && (rows[i].claimedBy.Some? <==> rows[i].leaseExpiresAt.Some?)
                  && (rows[i].claimedBy.Some? ==> rows[i].status == Pending))
            && (forall i, j :: 0 <= i < j < |rows| && rows[i].status != Resolved && rows[j].status != Resolved ==>
                  rows[i].session != rows[j].session || rows[i].operation != rows[j].operation)
  {
    EveryRunIsSound(c, steps);
    var w := Run(c, steps);
    assert Consistent(w);
    forall i | 0 <= i < |w.rows| ensures RowIsSound(w.rows[i]) {
    }
  }

  /** Along a run a row keeps its session and operation, loses no attempts, and is never written again once it is
      resolved. */
  lemma {:induction false} RowsNeverGoBack(c: Settings, steps: seq<Step>, n: nat, i: nat)
    requires n <= |steps| && i < |Run(c, steps[..n]).rows|
    ensures i < |Run(c, steps).rows|
    ensures var before, after := Run(c, steps[..n]).rows[i], Run(c, steps).rows[i];
            && before.attempts <= after.attempts
            && before.version <= after.version
            && before.session == after.session && before.operation == after.operation
            && (before.status == Resolved ==> after == before)
    decreases |steps|
  {
    if n == |steps| {
      assert steps[..n] == steps;
    } else {
      var earlier := steps[..|steps| - 1];
      assert earlier[..n] == steps[..n];
      RowsNeverGoBack(c, earlier, n, i);
      EveryRunIsSound(c, earlier);
      StepKeepsSound(c, Run(c, earlier), steps[|steps| - 1]);
      assert RowEvolves(Run(c, earlier).rows[i], Run(c, steps).rows[i]);
    }
  }

  /** Whatever Stripe answers a worker, a row that asks for a review is resolved by a member of staff only. */
  lemma ReviewNeedsStaff(c: Settings, w: World, step: Step, i: nat)
    requires i < |w.rows| && w.rows[i].operation != ExpireCheckoutSession && w.rows[i].status != Resolved
    requires i < |Next(c, w, step).rows| && Next(c, w, step).rows[i].status == Resolved
    ensures step.ResolveStep? && step.id == i
  {
  }

  /** Along a run a review row that got resolved was resolved by a member of staff. */
  lemma {:induction false} ReviewsWaitForStaff(c: Settings, steps: seq<Step>, n: nat, i: nat)
    requires n <= |steps| && i < |Run(c, steps[..n]).rows|
    requires var before := Run(c, steps[..n]).rows[i];
             before.operation != ExpireCheckoutSession && before.status != Resolved
    ensures i < |Run(c, steps).rows|
    ensures Run(c, steps).rows[i].status == Resolved ==>
              exists m :: n <= m < |steps| && steps[m].ResolveStep? && steps[m].id == i
    decreases |steps|
  {
    if n == |steps| {
      assert steps[..n] == steps;
    } else {
      var earlier := steps[..|steps| - 1];
      assert earlier[..n] == steps[..n];
      ReviewsWaitForStaff(c, earlier, n, i);
      RowsNeverGoBack(c, earlier, n, i);
      EveryRunIsSound(c, earlier);
      var w, step := Run(c, earlier), steps[|steps| - 1];
      StepKeepsSound(c, w, step);
      assert RowEvolves(w.rows[i], Next(c, w, step).rows[i]);
      if w.rows[i].status != Resolved && Run(c, steps).rows[i].status == Resolved {
        ReviewNeedsStaff(c, w, step, i);
      } else if w.rows[i].status == Resolved {
        var m :| n <= m < |earlier| && earlier[m].ResolveStep? && earlier[m].id == i;
        assert steps[m] == earlier[m];
      }
    }
  }

  /** The fence: a worker finalises a row exactly when nobody has written it since the claim and the lease still
      runs; a row reopened, retried, resolved or taken over meanwhile is left as it is. */
  lemma FinalisationIsFenced(c: Settings, steps: seq<Step>, worker: WorkerId, answer: Answer)
    requires Ready(Run(c, steps), worker, answer)
    ensures var w := Run(c, steps);
            var claim := InHand(w, worker)[0];
            var r := Process(c, w, worker, answer);
            if claim.version == w.rows[claim.id].version && w.clock < claim.until then
              && r.rows[claim.id].version == claim.version + 1
              && r.rows[claim.id].attempts == w.rows[claim.id].attempts + 1
              && r.rows[claim.id].claimedBy.None? && r.rows[claim.id].leaseExpiresAt.None?
              && Outcome(r.rows[claim.id].status, r.rows[claim.id].nextAttemptAt)
                 == OutcomeOf(c, answer, w.rows[claim.id].attempts + 1, w.clock)
            else r.rows == w.rows
  {
    EveryRunIsSound(c, steps);
    var w := Run(c, steps);
    assert Consistent(w);
    assert HandIsSound(w, worker);
    assert ClaimFits(w.rows, worker, InHand(w, worker)[0]);
  }

  /** Of all the claims in hand on a row, at most one is still good, so at most one worker can finalise it. */
  lemma OneLeaseAtMost(c: Settings, steps: seq<Step>, a: WorkerId, i: nat, b: WorkerId, j: nat)
    requires i < |InHand(Run(c, steps), a)| && j < |InHand(Run(c, steps), b)|
    requires var w := Run(c, steps);
             var x, y := InHand(w, a)[i], InHand(w, b)[j];
             x.id == y.id < |w.rows| && x.version == w.rows[x.id].version == y.version
    ensures a == b && i == j
  {
    EveryRunIsSound(c, steps);
    var w := Run(c, steps);
    assert Consistent(w);
    assert HandIsSound(w, a) && HandIsSound(w, b);
    assert ClaimFits(w.rows, a, InHand(w, a)[i]);
    assert ClaimFits(w.rows, b, InHand(w, b)[j]);
  }

  /** Only an expiration that left the session unpayable resolves a row without a human; a retry is not due before
      its delay has passed. */
  lemma {:induction false} AutomaticOutcomes(c: Settings, answer: Answer, attemptNumber: nat, now: int)
    requires ValidSettings(c)
    ensures var o := OutcomeOf(c, answer, attemptNumber, now);
            && (o.status == Resolved <==> answer.ExpireAnswer? && Neutralised(answer.expire))
            && (o.status == Pending ==> attemptNumber < c.maxAttempts && now < o.nextAttemptAt <= now + c.backoffMax)
  {
    BackoffIsCapped(c, attemptNumber, attemptNumber);
  }

  /** A failure that may pass: Stripe said so, or the attempt crashed. */
  predicate MayPass(answer: Answer) {
    || answer.Crashed?
    || (answer.ExpireAnswer? && answer.expire.ExpireFailed? && answer.expire.retryable)
    || (answer.StateAnswer? && answer.state.CallFailed? && answer.state.retryable)
  }

  lemma {:induction false} Power2Doubles(n: nat)
    requires n > 0
    ensures Power2(0) == 1 && Power2(n) == 2 * Power2(n - 1)
  {
  }

  /** What follows each answer: the session cannot be paid any more, a later attempt after the base delay doubled at
      every attempt and capped, a final failure once the attempts are used up, or a human. */
  lemma {:induction false} OutcomesAreExact(c: Settings, answer: Answer, attemptNumber: nat, now: int)
    requires attemptNumber > 0
    ensures var o := OutcomeOf(c, answer, attemptNumber, now);
            if MayPass(answer) then
              if attemptNumber < c.maxAttempts
              then o == Outcome(Pending, now + Min(c.backoffBase * Power2(attemptNumber - 1), c.backoffMax))
              else o == Outcome(Failed, now)
            else if answer in {ExpireAnswer(Expired), ExpireAnswer(WasExpired)} then o == Outcome(Resolved, now)
            else o == Outcome(ManualReview, now)
  {
  }

  // ---------------------------------------------------------------- what each write leaves

  /** A row waits for a worker: its time has come, and no lease on it runs. */
  predicate IsWaiting(row: Row, now: int) {
    && row.status == Pending && row.nextAttemptAt <= now
    && (row.leaseExpiresAt.Some? ==> row.leaseExpiresAt.value <= now)
  }

  /** A batch holds waiting rows nobody else has locked, each once, and as many as there are up to its size; a waiting
      row is left out only for rows that have waited longer, or as long with a smaller number. */
  lemma BatchIsExact(rows: seq<Row>, now: int, locked: set<nat>, batchSize: nat, i: nat)
    requires i < |rows|
    ensures var ids := Selected(rows, now, locked, batchSize);
            && |ids| <= batchSize
            && (i in ids ==> IsWaiting(rows[i], now) && i !in locked)
            && (IsWaiting(rows[i], now) && i !in locked && i !in ids ==>
                  |ids| == batchSize
                  && forall k :: 0 <= k < |ids| ==>
                       || rows[ids[k]].nextAttemptAt < rows[i].nextAttemptAt
                       || (rows[ids[k]].nextAttemptAt == rows[i].nextAttemptAt && ids[k] < i))
            && (forall k, l :: 0 <= k < l < |ids| ==> ids[k] != ids[l])
  {
    var ids := Selected(rows, now, locked, batchSize);
    SelectedAreDue(rows, now, locked, batchSize);
    SelectedAreUnlocked(rows, now, locked, batchSize);
    assert DistinctDue(rows, now, ids);
    if IsWaiting(rows[i], now) && i !in locked && i !in ids {
      OldestAreSelected(rows, now, locked, batchSize, i);
      forall k | 0 <= k < |ids|
        ensures || rows[ids[k]].nextAttemptAt < rows[i].nextAttemptAt
                || (rows[ids[k]].nextAttemptAt == rows[i].nextAttemptAt && ids[k] < i)
      {
        assert Before(rows, ids[k], i);
      }
    }
  }

  /** A claimed row is leased to the worker until the lease ends, and no other row is touched. */
  lemma LeaseIsExact(rows: seq<Row>, ids: seq<nat>, worker: WorkerId, until: int, i: nat)
    requires i < |rows|
    ensures var after := LeaseAll(rows, ids, worker, until)[i];
            if i in ids then
              && after.claimedBy == Some(worker) && after.leaseExpiresAt == Some(until)
              && after.version > rows[i].version
              && after == rows[i].(claimedBy := after.claimedBy, leaseExpiresAt := after.leaseExpiresAt,
                                   version := after.version)
            else after == rows[i]
  {
  }

  /** Staff may send any row that is not resolved back to the workers at once, and may close the ones workers gave up;
      either way nobody holds the row any more. */
  lemma StaffWritesAreExact(rows: seq<Row>, id: nat, now: int)
    requires id < |rows|
    ensures var row := rows[id];
            RetryRow(rows, id, now) ==
            if row.status == Resolved then rows
            else rows[id := Row(row.order, row.session, row.operation, Pending, row.attempts, now, None, None,
                                row.version + 1)]
    ensures var row := rows[id];
            ResolveRow(rows, id) ==
            if row.status == ManualReview || row.status == Failed
            then rows[id := Row(row.order, row.session, row.operation, Resolved, row.attempts, row.nextAttemptAt, None,
                                None, row.version + 1)]
            else rows
  {
  }

  /** Stripe is asked to expire the session of an expiration row, and for the state of that of any other; either call
      may crash. */
  lemma AnswersFitOperations(operation: Operation, expire: ExpireReport, state: StateReport)
    ensures Answers(operation, ExpireAnswer(expire)) <==> operation == ExpireCheckoutSession
    ensures Answers(operation, StateAnswer(state)) <==> operation != ExpireCheckoutSession
    ensures Answers(operation, Crashed)
  {
  }

  /** New rows and repeated reports alike arrive with either of the two open statuses. */
  lemma ReportsArrive(c: Settings, w: World, report: Report, at: int)
    ensures Next(c, w, ReportStep(report, at)).rows ==
            if report.status == Pending || report.status == ManualReview
            then Upsert(w.rows, report, Max(w.clock, at)) else w.rows
  {
  }

  /** A worker with nothing in hand takes a batch under a fresh lease; one that is still busy takes nothing. */
  lemma TickIsExact(c: Settings, w: World, worker: WorkerId, locked: set<nat>)
    ensures var r := Tick(c, w, worker, locked);
            if worker in w.inHand && w.inHand[worker] != [] then r == w
            else
              var ids := Selected(w.rows, w.clock, locked, c.batchSize);
              && r.rows == LeaseAll(w.rows, ids, worker, w.clock + c.lease)
              && worker in r.inHand && |r.inHand[worker]| == |ids|
              && (forall k :: 0 <= k < |ids| ==>
                    && r.inHand[worker][k].id == ids[k] && r.inHand[worker][k].until == w.clock + c.lease
                    && r.inHand[worker][k].attempts == w.rows[ids[k]].attempts)
              && forall other :: other != worker ==> InHand(r, other) == InHand(w, other)
  {
  }
}
