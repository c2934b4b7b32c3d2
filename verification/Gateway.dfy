/** What the Stripe gateway reports about a checkout session. */
module Gateway {
  datatype StateReport = OpenUnpaid | AlreadyExpired | AlreadyPaid | NotFound | CallFailed(retryable: bool)

  datatype ExpireReport =
    | Expired
    | WasExpired
    | WasPaid
    | Unknown
    | ExpireFailed(retryable: bool)

  /** The reports after which a session can no longer be paid. */
  predicate Neutralised(report: ExpireReport) {
    report == Expired || report == WasExpired
  }
}
