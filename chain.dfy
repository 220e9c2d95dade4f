/**
 * The chain primitives the contracts are written against: 128-bit amounts,
 * addresses, coins, block information, expirations and durations (cosmwasm-std
 * and cw-utils), the payment checks `must_pay` and `nonpayable`, the two kinds
 * of denomination, and the transfer a contract asks the chain to perform.
 */
module Chain {
  import opened Wrappers

  /** Largest value of a `Uint128`. */
  const MAX_U128: nat := 0xFFFF_FFFF_FFFF_FFFF_FFFF_FFFF_FFFF_FFFF

  type Uint128 = x: nat | x <= MAX_U128

  type Addr = string

  datatype Coin = Coin(denom: string, amount: Uint128)

  /** The block a message executes in: its height, and its time in seconds. */
  datatype Block = Block(height: nat, time: nat)

  /** `later` is the same block as `earlier` or comes after it on both clocks. */
  predicate NotBefore(later: Block, earlier: Block) {
    later.height >= earlier.height && later.time >= earlier.time
  }

  /** The clock a duration or an expiration counts on. */
  datatype Unit = Height | Time

  /** A number of blocks or of seconds. */
  datatype Duration = Duration(unit: Unit, length: nat)

  datatype Expiration = AtHeight(height: nat) | AtTime(time: nat) | Never {

    predicate IsExpired(block: Block) {
      match this
      case AtHeight(h) => block.height >= h
      case AtTime(t) => block.time >= t
      case Never => false
    }

    predicate CountsIn(unit: Unit) {
      match this
      case AtHeight(_) => unit == Height
      case AtTime(_) => unit == Time
      case Never => false
    }
  }

  /**
   * `a` comes no later than `b` and both count on the same clock; `Never` is
   * only no later than itself.
   */
  predicate NoLaterThan(a: Expiration, b: Expiration) {
    match (a, b)
    case (AtHeight(x), AtHeight(y)) => x <= y
    case (AtTime(x), AtTime(y)) => x <= y
    case (Never, Never) => true
    case _ => false
  }

  /** The current block as an expiration on the given clock. */
  function Now(unit: Unit, block: Block): (e: Expiration)
    ensures e.CountsIn(unit) && e.IsExpired(block)
    ensures forall later: Block :: NotBefore(later, block) ==> e.IsExpired(later)
  {
    match unit
    case Height => AtHeight(block.height)
    case Time => AtTime(block.time)
  }

  datatype StdError = Overflow | DivideByZero | NotFound | IncompatibleUnits

  /**
   * `Expiration + Duration`: `Never` stays `Never`, a height moves by blocks and
   * a time by seconds; adding a duration on the other clock fails.
   */
  function AddDuration(e: Expiration, d: Duration): (r: Result<Expiration, StdError>)
    ensures r.Err? <==> !e.Never? && !e.CountsIn(d.unit)
  {
    match e
    case Never => Ok(Never)
    case AtHeight(h) => if d.unit == Height then Ok(AtHeight(h + d.length)) else Err(IncompatibleUnits)
    case AtTime(t) => if d.unit == Time then Ok(AtTime(t + d.length)) else Err(IncompatibleUnits)
  }

  /**
   * How many blocks or seconds lie from `earlier` up to `later` when both count
   * on the same clock; zero when `later` is not after `earlier`, when the clocks
   * differ, or when either never expires.
   */
  function Elapsed(later: Expiration, earlier: Expiration): (n: nat)
    ensures NoLaterThan(earlier, later) && later.AtHeight? ==> earlier.height + n == later.height
    ensures NoLaterThan(earlier, later) && later.AtTime? ==> earlier.time + n == later.time
    ensures !NoLaterThan(earlier, later) || later.Never? ==> n == 0
  {
    match (later, earlier)
    case (AtHeight(a), AtHeight(b)) => if a >= b then a - b else 0
    case (AtTime(a), AtTime(b)) => if a >= b then a - b else 0
    case _ => 0
  }

  /** Adding a duration and then measuring from the starting point gives the duration back. */
  lemma ElapsedUndoesAdd(e: Expiration, d: Duration)
    requires !e.Never? && AddDuration(e, d).Ok?
    ensures NoLaterThan(e, AddDuration(e, d).value)
    ensures Elapsed(AddDuration(e, d).value, e) == d.length
  {
  }

  datatype PaymentError = NoFunds | MultipleDenoms | MissingDenom(denom: string) | NonPayable

  /** `must_pay`: exactly one coin, of the expected denomination, with a non-zero amount. */
  function MustPay(funds: seq<Coin>, denom: string): (r: Result<Uint128, PaymentError>)
    ensures r.Ok? <==> |funds| == 1 && funds[0].denom == denom && funds[0].amount > 0
    ensures r.Ok? ==> r.value == funds[0].amount
  {
    if |funds| == 0 then Err(NoFunds)
    else if |funds| > 1 then Err(MultipleDenoms)
    else if funds[0].amount == 0 then Err(NoFunds)
    else if funds[0].denom != denom then Err(MissingDenom(denom))
    else Ok(funds[0].amount)
  }

  /** `nonpayable`: the message carries no funds. */
  function Nonpayable(funds: seq<Coin>): (r: Result<(), PaymentError>)
    ensures r.Ok? <==> funds == []
  {
    if funds == [] then Ok(()) else Err(NonPayable)
  }

  /** What a distribution pays out in: a native coin or a cw20 token contract. */
  datatype Denom = Native(name: string) | Cw20(token: Addr)

  /** A payment of `amount` of `denom` to `recipient`, as `get_transfer_msg` builds it. */
  datatype Transfer = Transfer(recipient: Addr, amount: Uint128, denom: Denom)
}
