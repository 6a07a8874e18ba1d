/** What every future shares: wakers, poll results, and how far a future has come. */
module Tasks {
  import opened Prelude

  /** A waker is known by its identity. */
  type Waker = nat

  datatype Poll<R> = Pending | Ready(value: R)

  /** Not polled yet, waiting since its last poll and perhaps woken since, or resolved. */
  datatype Progress = Unpolled | Waiting(waker: Waker, woken: bool) | Finished

  /** Firing a waker reaches a future that was last polled with it. */
  function Rouse(p: Progress, who: Option<Waker>): Progress
  {
    if p.Waiting? && who == Some(p.waker) then p.(woken := true) else p
  }

  /** A pending future that nobody has woken since its last poll. */
  predicate Asleep(p: Progress) { p.Waiting? && !p.woken }
}
