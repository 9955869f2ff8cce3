/** Shared vocabulary of the payment switch. Times and durations are integers in nanoseconds. */
module Domain {

  datatype Option<+T> = None | Some(value: T)

  const SECOND: int := 1_000_000_000
  const MINUTE: int := 60 * SECOND

  /** The persisted life of a payment; `Aborted` is the only failure status. */
  datatype Status =
    | Received | Validated | LookedUp | Routed | Quoted
    | Screened | Reserved | Committed | Settled | Aborted

  type PaymentId = string

  /** The fields of a payment that the saga reads and never changes. */
  datatype Payment = Payment(
    id: PaymentId,
    endToEndId: string,
    sourceBIC: string,
    destinationBIC: string,
    sourceAccount: string,
    destAccount: string,
    amount: int,
    currency: string)
}
