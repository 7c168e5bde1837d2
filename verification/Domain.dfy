/** The vocabulary shared by every part of the market: money, time, identifiers and errors. */
module Domain {

  /** Whole gold. Unbounded here; Int64.dfy proves when 64 bits are enough. */
  type Gold = int

  /** Nanoseconds since midnight UTC on 1 January 1970. */
  type Time = int

  /** Guild, item, auction and bid identifiers. The market only ever compares them. */
  datatype Id = Id(token: int)

  datatype Error =
    | InsufficientFunds
    | NonPositiveAmount
    | ReserveTooLarge
    | ItemNotFound
    | ItemNotAvailable
    | CannotBuyOwnItem
    | InvalidRarity
    | InvalidQuantity
    | InsufficientStock
    | LegendaryNotLimit
    | WalletNotFound
    | AuctionNotFound
    | AuctionClosed
    | AuctionExists
    | BidTooLow
    | CannotBidOwnItem
    | CannotCancelLeader
    | BidNotFound
    | DailyCapExceeded

  datatype Option<+T> = None | Some(value: T)

  datatype Result<+T> = Ok(value: T) | Err(error: Error) {
    predicate IsFailure() {
      Err?
    }

    function PropagateFailure<U>(): Result<U>
      requires Err?
    {
      Err(error)
    }

    function Extract(): T
      requires Ok?
    {
      value
    }

    function Failure(): Option<Error> {
      if Ok? then None else Some(error)
    }
  }

  /** `after` is what a step with outcome `r` makes of `before`: nothing when the step is refused. */
  ghost predicate Becomes<T>(before: T, r: Result<T>, after: T, err: Option<Error>)
  {
    && err == r.Failure()
    && after == if r.Ok? then r.value else before
  }
}
