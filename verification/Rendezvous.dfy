/** The capacity-one body rendezvous: one cell, two waker slots, two endpoints. */
module Rendezvous {
  import opened Prelude
  import opened Tasks

  datatype Cell<T, E> =
    | Idle
    | Demanded
    | Offered(item: T)
    | Closed
    | Disconnected
    | Failed(error: E)
    | Abandoned(unclaimed: Option<T>)

  /** What the endpoints share. */
  datatype Shared<T, E> = Shared(cell: Cell<T, E>, producerWaker: Option<Waker>, consumerWaker: Option<Waker>)

  datatype DemandError = DemandAbandoned | DemandClosed

  datatype OfferError<T> = OfferAbandoned(item: T) | OfferClosed(item: T)

  datatype TakeError<E> = TakeFailed(error: E) | TakeDisconnected

  /** A call's effect: the new shared state, its result, the waker it fires and an item it drops. */
  datatype Effect<T, E, R> = Effect(shared: Shared<T, E>, result: R, wake: Option<Waker>, discarded: Option<T>)

  predicate Terminal<T, E>(cell: Cell<T, E>) { cell.Closed? || cell.Disconnected? || cell.Failed? }

  function NewShared<T, E>(): Shared<T, E> { Shared(Idle, None, None) }

  function DemandPoll<T, E>(s: Shared<T, E>, w: Waker): Effect<T, E, Poll<Result<(), DemandError>>>
  {
    match s.cell
    case Demanded => Effect(s, Ready(Ok(())), None, None)
    case Offered(_) => Effect(s, Ready(Ok(())), None, None)
    case Idle => Effect(s.(producerWaker := Some(w)), Pending, None, None)
    case Abandoned(_) => Effect(s, Ready(Err(DemandAbandoned)), None, None)
    case _ => Effect(s, Ready(Err(DemandClosed)), None, None)
  }

  /** First poll of an offer: put the item into the cell, or hand it back. */
  function OfferSubmit<T, E>(s: Shared<T, E>, item: T, w: Waker): Effect<T, E, Poll<Result<(), OfferError<T>>>>
    requires !s.cell.Offered?
  {
    match s.cell
    case Abandoned(_) => Effect(s, Ready(Err(OfferAbandoned(item))), None, None)
    case Closed => Effect(s, Ready(Err(OfferClosed(item))), None, None)
    case Disconnected => Effect(s, Ready(Err(OfferClosed(item))), None, None)
    case Failed(_) => Effect(s, Ready(Err(OfferClosed(item))), None, None)
    case _ => Effect(Shared(Offered(item), Some(w), None), Pending, s.consumerWaker, None)
  }

  /** Later polls: wait until the item has left the cell. */
  function OfferWait<T, E>(s: Shared<T, E>, w: Waker): Effect<T, E, Poll<Result<(), OfferError<T>>>>
    requires !Terminal(s.cell)
  {
    match s.cell
    case Offered(_) => Effect(s.(producerWaker := Some(w)), Pending, None, None)
    case Abandoned(Some(item)) =>
      Effect(s.(cell := Abandoned(None)), Ready(Err(OfferAbandoned(item))), None, None)
    case _ => Effect(s, Ready(Ok(())), None, None)
  }

  function OfferDrop<T, E>(s: Shared<T, E>, submitted: bool): Effect<T, E, ()>
  {
    var freed := s.(producerWaker := None);
    if !submitted then Effect(freed, (), None, None)
    else
      match s.cell
      case Offered(item) => Effect(Shared(Idle, None, None), (), s.consumerWaker, Some(item))
      case Abandoned(item) => Effect(freed.(cell := Abandoned(None)), (), None, item)
      case _ => Effect(freed, (), None, None)
  }

  function AbandonedPoll<T, E>(s: Shared<T, E>, w: Waker): Effect<T, E, Poll<()>>
  {
    if s.cell.Abandoned? then Effect(s, Ready(()), None, None)
    else Effect(s.(producerWaker := Some(w)), Pending, None, None)
  }

  function TakePoll<T, E>(s: Shared<T, E>, w: Waker): Effect<T, E, Poll<Result<Option<T>, TakeError<E>>>>
    requires !s.cell.Abandoned?
  {
    match s.cell
    case Idle => Effect(Shared(Demanded, None, Some(w)), Pending, s.producerWaker, None)
    case Demanded => Effect(Shared(Demanded, None, Some(w)), Pending, s.producerWaker, None)
    case Offered(item) => Effect(s.(cell := Idle, producerWaker := None), Ready(Ok(Some(item))), s.producerWaker, None)
    case Closed => Effect(s, Ready(Ok(None)), None, None)
    case Failed(error) => Effect(s.(cell := Closed), Ready(Err(TakeFailed(error))), None, None)
    case Disconnected => Effect(s.(cell := Closed), Ready(Err(TakeDisconnected)), None, None)
  }

  /** The producer ends: by closing, failing, or being dropped. */
  function FinishWith<T, E>(s: Shared<T, E>, terminal: Cell<T, E>): Effect<T, E, ()>
    requires !s.cell.Offered?
  {
    if s.cell.Idle? || s.cell.Demanded? then
      Effect(s.(cell := terminal, consumerWaker := None), (), s.consumerWaker, None)
    else Effect(s, (), None, None)
  }

  /** The consumer is dropped before it saw the end. */
  function ConsumerDrop<T, E>(s: Shared<T, E>): Effect<T, E, ()>
  {
    if Terminal(s.cell) then Effect(s, (), None, None)
    else
      var unclaimed := match s.cell
                       case Offered(item) => Some(item)
                       case Abandoned(item) => item
                       case _ => None;
      Effect(s.(cell := Abandoned(unclaimed), producerWaker := None), (), s.producerWaker, None)
  }

  /** The shared allocation itself, with the bodies of the polls and drops that replace its cells.
      Preconditions are the arms the implementation declares unreachable. */
  class Channel<T, E> {
    var cell: Cell<T, E>
    var producerWaker: Option<Waker>
    var consumerWaker: Option<Waker>

    constructor ()
      ensures View() == NewShared()
    {
      cell, producerWaker, consumerWaker := Idle, None, None;
    }

    function View(): Shared<T, E>
      reads this
    {
      Shared(cell, producerWaker, consumerWaker)
    }

    method PollDemand(w: Waker) returns (r: Poll<Result<(), DemandError>>)
      modifies this
      ensures DemandPoll(old(View()), w) == Effect(View(), r, None, None)
    {
      match cell
      case Demanded => return Ready(Ok(()));
      case Idle =>
        producerWaker := Some(w);
        return Pending;
      case Abandoned(_) => return Ready(Err(DemandAbandoned));
      case Closed => return Ready(Err(DemandClosed));
      case Disconnected => return Ready(Err(DemandClosed));
      case Failed(_) => return Ready(Err(DemandClosed));
      case Offered(_) => return Ready(Ok(()));
    }

    method PollOffer(pending: Option<T>, w: Waker)
      returns (r: Poll<Result<(), OfferError<T>>>, wake: Option<Waker>)
      requires if pending.Some? then !cell.Offered? else !Terminal(cell)
      modifies this
      ensures (if pending.Some? then OfferSubmit(old(View()), pending.value, w) else OfferWait(old(View()), w))
           == Effect(View(), r, wake, None)
    {
      wake := None;
      if pending.Some? {
        match cell {
          case Idle =>
            cell, producerWaker := Offered(pending.value), Some(w);
            wake, consumerWaker := consumerWaker, None;
            return Pending, wake;
          case Demanded =>
            cell, producerWaker := Offered(pending.value), Some(w);
            wake, consumerWaker := consumerWaker, None;
            return Pending, wake;
          case Abandoned(_) => return Ready(Err(OfferAbandoned(pending.value))), None;
          case Closed => return Ready(Err(OfferClosed(pending.value))), None;
          case Disconnected => return Ready(Err(OfferClosed(pending.value))), None;
          case Failed(_) => return Ready(Err(OfferClosed(pending.value))), None;
        }
      }
      match cell
      case Offered(_) =>
        producerWaker := Some(w);
        return Pending, None;
      case Idle => return Ready(Ok(())), None;
      case Demanded => return Ready(Ok(())), None;
      case Abandoned(item) =>
        cell := Abandoned(None);
        return Ready(if item.Some? then Err(OfferAbandoned(item.value)) else Ok(())), None;
    }

    method DropOffer(submitted: bool) returns (discarded: Option<T>, wake: Option<Waker>)
      modifies this
      ensures OfferDrop(old(View()), submitted) == Effect(View(), (), wake, discarded)
    {
      discarded, wake := None, None;
      producerWaker := None;
      if !submitted { return; }
      match cell
      case Offered(item) =>
        cell := Idle;
        discarded, wake, consumerWaker := Some(item), consumerWaker, None;
      case Abandoned(item) =>
        cell := Abandoned(None);
        discarded := item;
      case _ =>
    }

    method PollTake(w: Waker) returns (r: Poll<Result<Option<T>, TakeError<E>>>, wake: Option<Waker>)
      requires !cell.Abandoned?
      modifies this
      ensures TakePoll(old(View()), w) == Effect(View(), r, wake, None)
    {
      wake := None;
      match cell
      case Offered(item) =>
        cell := Idle;
        wake, producerWaker := producerWaker, None;
        return Ready(Ok(Some(item))), wake;
      case Closed => return Ready(Ok(None)), None;
      case Failed(error) =>
        cell := Closed;
        return Ready(Err(TakeFailed(error))), None;
      case Disconnected =>
        cell := Closed;
        return Ready(Err(TakeDisconnected)), None;
      case Idle =>
        cell, consumerWaker := Demanded, Some(w);
        wake, producerWaker := producerWaker, None;
        return Pending, wake;
      case Demanded =>
        consumerWaker := Some(w);
        wake, producerWaker := producerWaker, None;
        return Pending, wake;
    }

    method Finish(terminal: Cell<T, E>) returns (wake: Option<Waker>)
      requires !cell.Offered?
      modifies this
      ensures FinishWith(old(View()), terminal) == Effect(View(), (), wake, None)
    {
      wake := None;
      if cell.Idle? || cell.Demanded? {
        cell := terminal;
        wake, consumerWaker := consumerWaker, None;
      }
    }

    method DropConsumer() returns (wake: Option<Waker>)
      modifies this
      ensures ConsumerDrop(old(View())) == Effect(View(), (), wake, None)
    {
      wake := None;
      if Terminal(cell) { return; }
      cell := match cell
              case Offered(item) => Abandoned(Some(item))
              case Abandoned(item) => Abandoned(item)
              case _ => Abandoned(None);
      wake, producerWaker := producerWaker, None;
    }
  }
}
