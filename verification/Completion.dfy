/** The settlement receipt of one accepted request. */
module Completion {
  import opened Prelude
  import opened Tasks
  import opened Framing
  import Exchange

  datatype ExchangeOutcome =
    | ReusableOutcome
    | ClosedOutcome(reason: Exchange.CloseReason)
    | UpgradedOutcome(kind: UpgradeKind)

  datatype ReceiptError = DriverLost | Originating(fault: Exchange.Fault)

  type Settlement = Result<ExchangeOutcome, ReceiptError>

  datatype Cell = Cell(taken: bool, abandoned: bool, result: Option<Settlement>, waker: Option<Waker>)

  const NEW_CELL := Cell(false, false, None, None)

  function Claim(c: Cell): (Cell, bool)
  {
    if c.taken then (c, false) else (c.(taken := true), true)
  }

  function PollCell(c: Cell, w: Waker): (Cell, Option<Settlement>)
  {
    if c.result.Some? then (c.(result := None, waker := None), c.result) else (c.(waker := Some(w)), None)
  }

  function Forget(c: Cell): Cell
  {
    c.(abandoned := true, waker := None, result := None)
  }

  function Publish(c: Cell, result: Settlement): (Cell, Option<Waker>)
  {
    (c.(result := if c.abandoned then c.result else Some(result), waker := None), c.waker)
  }

  class CompletionState {
    var taken: bool
    var abandoned: bool
    var result: Option<Settlement>
    var waker: Option<Waker>

    constructor ()
      ensures View() == NEW_CELL
    {
      taken, abandoned, result, waker := false, false, None, None;
    }

    function View(): Cell
      reads this
    {
      Cell(taken, abandoned, result, waker)
    }

    /** The receipt can be taken once. */
    method Take() returns (ok: bool)
      modifies this
      ensures (View(), ok) == Claim(old(View()))
    {
      if taken { return false; }
      taken := true;
      return true;
    }

    /** A poll either moves the result out or registers the waker. */
    method PollReceipt(w: Waker) returns (r: Option<Settlement>)
      modifies this
      ensures (View(), r) == PollCell(old(View()), w)
    {
      r := result;
      result := None;
      waker := if r.Some? then None else Some(w);
    }

    method DropReceipt()
      modifies this
      ensures View() == Forget(old(View()))
    {
      abandoned, waker, result := true, None, None;
    }

    /** The guard publishes unless nobody will look any more. */
    method PublishResult(value: Settlement) returns (wake: Option<Waker>)
      modifies this
      ensures (View(), wake) == Publish(old(View()), value)
    {
      if !abandoned { result := Some(value); }
      wake := waker;
      waker := None;
    }
  }
}
