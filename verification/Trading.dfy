/** Vocabulary shared by the simulated engine and by the offline replay. */
module Trading {

  datatype Option<+T> = None | Some(value: T)

  datatype Action = BUY | SELL | HOLD

  /** What the Portfolio Manager proposes; the quantity is an unchecked integer. */
  datatype Proposal = Proposal(action: Action, quantity: int)

  /** One execution: `quantity` shares at `price`, slippage already included. */
  datatype Fill = Fill(action: Action, quantity: int, price: real)

  const MAX_POSITION_QTY: int := 20
  const VAR_BUDGET: real := 0.02
  const COMMISSION: real := 0.0

  function Min(a: int, b: int): int {
    if a <= b then a else b
  }

  /** The fill price: a BUY fills higher and a SELL lower, by `bps` basis points. */
  function Slip(price: real, action: Action, bps: real): real {
    var factor := bps / 10000.0;
    match action
    case BUY => price * (1.0 + factor)
    case SELL => price * (1.0 - factor)
    case HOLD => price
  }
}
