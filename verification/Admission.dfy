/** Request admission: one owner, one prioritized waiter, and the hand-over of a job. */
module Admission {
  import opened Prelude
  import opened Tasks

  datatype Slot<J> =
    | Free
    | Reserved(waiter: Option<Waker>)
    | Queued(job: J, waiter: Option<Waker>)
    | Active(waiter: Option<Waker>)
    | ReadyForWaiter
    | Closed

  datatype State<J> = State(slot: Slot<J>, senders: nat, driver: Option<Waker>, stopping: bool)

  datatype Refusal = AdmissionBusy | WaiterBusy | AdmissionClosed

  predicate Busy<J>(slot: Slot<J>) { slot.Reserved? || slot.Queued? || slot.Active? }

  predicate Refusing<J>(s: State<J>) { s.slot.Closed? || s.stopping }

  function SetWaiter<J>(slot: Slot<J>, w: Option<Waker>): Slot<J>
    requires Busy(slot)
  {
    match slot
    case Reserved(_) => Reserved(w)
    case Queued(job, _) => Queued(job, w)
    case Active(_) => Active(w)
  }

  function TryReserve<J>(s: State<J>): (State<J>, Result<(), Refusal>)
  {
    if Refusing(s) then (s, Err(AdmissionClosed))
    else if !s.slot.Free? then (s, Err(AdmissionBusy))
    else (s.(slot := Reserved(None)), Ok(()))
  }

  /** One poll of a reservation. The two unreachable arms, a registered waiter that finds
      admission free and a registration where there is no waiter slot, are preconditions. */
  function PollReserve<J>(s: State<J>, registered: bool, w: Waker): (State<J>, Poll<Result<(), Refusal>>)
    requires !(registered && s.slot.Free? && !s.stopping)
  {
    if Refusing(s) then (s, Ready(Err(AdmissionClosed)))
    else if registered && s.slot.ReadyForWaiter? then (s.(slot := Reserved(None)), Ready(Ok(())))
    else if s.slot.Free? then (s.(slot := Reserved(None)), Ready(Ok(())))
    else
      var occupied := !Busy(s.slot) || s.slot.waiter.Some?;
      if !registered && occupied then (s, Ready(Err(WaiterBusy)))
      else (s.(slot := SetWaiter(s.slot, Some(w))), Pending)
  }

  /** Dropping a registered wait gives up its place. */
  function DropReservation<J>(s: State<J>): State<J>
  {
    if s.slot.ReadyForWaiter? then s.(slot := Free)
    else if Busy(s.slot) then s.(slot := SetWaiter(s.slot, None))
    else s
  }

  /** Transfer a job to the driver; a refused job comes back. */
  function Send<J>(s: State<J>, job: J): (State<J>, Result<Option<Waker>, J>)
    requires Refusing(s) || s.slot.Reserved?
  {
    if Refusing(s) then (s, Err(job))
    else (s.(slot := Queued(job, s.slot.waiter), driver := None), Ok(s.driver))
  }

  /** The owner lets go: the waiter is woken and keeps its priority. */
  function Release<J>(s: State<J>): (State<J>, Option<Waker>, Option<Waker>)
    requires s.slot.Reserved? || s.slot.Active? || s.slot.Closed?
  {
    if s.slot.Closed? then (s.(driver := None), None, s.driver)
    else
      var next := if s.slot.waiter.Some? then ReadyForWaiter else Free;
      (s.(slot := next, driver := None), s.slot.waiter, s.driver)
  }

  function PollNext<J>(s: State<J>, w: Waker): (State<J>, Poll<Option<J>>)
  {
    if s.slot.Queued? then (s.(slot := Active(s.slot.waiter)), Ready(Some(s.slot.job)))
    else if Refusing(s) || (s.senders == 0 && !Busy(s.slot)) then (s, Ready(None))
    else (s.(driver := Some(w)), Pending)
  }

  /** The driver decides whether admission reopens after an exchange. */
  function Reopen<J>(s: State<J>): (State<J>, bool, Option<Waker>)
    requires s.slot.Active? || s.slot.Closed?
  {
    if s.stopping || s.senders == 0 then (s, false, None)
    else var (s', waiter, _) := Release(s); (s', true, waiter)
  }

  /** The driver is gone: nobody is admitted any more, and a queued job is handed back to be dropped. */
  function CloseAll<J>(s: State<J>): (State<J>, Option<J>, Option<Waker>)
  {
    (s.(slot := Closed, driver := None),
     if s.slot.Queued? then Some(s.slot.job) else None,
     if Busy(s.slot) then s.slot.waiter else None)
  }

  /** The allocation shared by senders, permits, waits and the driver. */
  class Shared<J> {
    var slot: Slot<J>
    var senders: nat
    var driver: Option<Waker>
    var stopping: bool

    constructor ()
      ensures View() == State(Free, 1, None, false)
    {
      slot, senders, driver, stopping := Free, 1, None, false;
    }

    function View(): State<J>
      reads this
    {
      State(slot, senders, driver, stopping)
    }

    method TryTake() returns (r: Result<(), Refusal>)
      modifies this
      ensures (View(), r) == TryReserve(old(View()))
    {
      if slot.Closed? || stopping { return Err(AdmissionClosed); }
      if !slot.Free? { return Err(AdmissionBusy); }
      slot := Reserved(None);
      return Ok(());
    }

    method PollWait(registered: bool, w: Waker) returns (r: Poll<Result<(), Refusal>>)
      requires !(registered && slot.Free? && !stopping)
      modifies this
      ensures (View(), r) == PollReserve(old(View()), registered, w)
    {
      if slot.Closed? || stopping { return Ready(Err(AdmissionClosed)); }
      if registered && slot.ReadyForWaiter? {
        slot := Reserved(None);
        return Ready(Ok(()));
      }
      if slot.Free? {
        slot := Reserved(None);
        return Ready(Ok(()));
      }
      var occupied := !Busy(slot) || slot.waiter.Some?;
      if !registered && occupied { return Ready(Err(WaiterBusy)); }
      slot := SetWaiter(slot, Some(w));
      return Pending;
    }

    method DropWait()
      modifies this
      ensures View() == DropReservation(old(View()))
    {
      if slot.ReadyForWaiter? {
        slot := Free;
      } else if Busy(slot) {
        slot := SetWaiter(slot, None);
      }
    }

    method SendJob(job: J) returns (r: Result<Option<Waker>, J>)
      requires slot.Closed? || stopping || slot.Reserved?
      modifies this
      ensures (View(), r) == Send(old(View()), job)
    {
      if slot.Closed? || stopping { return Err(job); }
      slot := Queued(job, slot.waiter);
      var wake := driver;
      driver := None;
      return Ok(wake);
    }

    method ReleaseOwner() returns (waiter: Option<Waker>, wake: Option<Waker>)
      requires slot.Reserved? || slot.Active? || slot.Closed?
      modifies this
      ensures (View(), waiter, wake) == Release(old(View()))
    {
      waiter := None;
      if !slot.Closed? {
        waiter := slot.waiter;
        slot := if waiter.Some? then ReadyForWaiter else Free;
      }
      wake := driver;
      driver := None;
    }

    method NextJob(w: Waker) returns (r: Poll<Option<J>>)
      modifies this
      ensures (View(), r) == PollNext(old(View()), w)
    {
      if slot.Queued? {
        var job := slot.job;
        slot := Active(slot.waiter);
        return Ready(Some(job));
      }
      if slot.Closed? || stopping || (senders == 0 && !Busy(slot)) { return Ready(None); }
      driver := Some(w);
      return Pending;
    }

    method DropReceiver() returns (queued: Option<J>, waiter: Option<Waker>)
      modifies this
      ensures (View(), queued, waiter) == CloseAll(old(View()))
    {
      driver := None;
      queued := if slot.Queued? then Some(slot.job) else None;
      waiter := if Busy(slot) then slot.waiter else None;
      slot := Closed;
    }
  }

  // ---- every interleaving of senders, waits, permits and the driver ------------------

  datatype Machine<J> = Machine(
    state: State<J>,
    waiter: Progress,          // the registered reservation, if it is waiting
    driver: Progress,          // the driver's wait for a job
    permits: nat,
    active: bool,
    driverAlive: bool,
    accepted: seq<J>,
    taken: seq<J>,
    refused: seq<J>,
    misstep: bool)

  datatype Event<J> =
    | Try
    | PollNewcomer(w: Waker)   // a reservation that has not registered
    | PollWaiter(w: Waker)     // the registered one
    | DropWaiter
    | Submit(job: J)
    | DropPermit
    | DriverPoll(w: Waker)
    | DriverReopen
    | DriverDrop
    | CloneSender
    | DropSender
    | Stop

  function Initial<J>(): Machine<J>
  {
    Machine(State(Free, 1, None, false), Unpolled, Unpolled, 0, false, true, [], [], [], false)
  }

  predicate Enabled<J>(m: Machine<J>, e: Event<J>)
  {
    match e
    case PollWaiter(_) => m.waiter.Waiting?
    case DropWaiter => m.waiter.Waiting?
    case Submit(_) => m.permits > 0
    case DropPermit => m.permits > 0
    case DriverPoll(_) => m.driverAlive && !m.active
    case DriverReopen => m.driverAlive && m.active
    case DriverDrop => m.driverAlive
    case DropSender => m.state.senders > 0
    case _ => true
  }

  /** A reservation that resolves is dropped with it; one that stays pending is registered. */
  function StepReserve<J>(m: Machine<J>, registered: bool, w: Waker): Machine<J>
  {
    if registered && m.state.slot.Free? && !m.state.stopping then m.(misstep := true)
    else
      var (s, r) := PollReserve(m.state, registered, w);
      match r
      case Pending =>
        m.(state := s, waiter := Waiting(w, false), misstep := m.misstep || (!registered && m.waiter.Waiting?))
      case Ready(Ok(_)) =>
        m.(state := s, permits := m.permits + 1, waiter := if registered then Unpolled else m.waiter)
      case Ready(Err(_)) =>
        if registered then m.(state := DropReservation(s), waiter := Unpolled) else m.(state := s)
  }

  function Step<J>(m: Machine<J>, e: Event<J>): Machine<J>
    requires Enabled(m, e)
  {
    match e
    case Try =>
      var (s, r) := TryReserve(m.state);
      m.(state := s, permits := if r.Ok? then m.permits + 1 else m.permits)
    case PollNewcomer(w) => StepReserve(m, false, w)
    case PollWaiter(w) => StepReserve(m, true, w)
    case DropWaiter => m.(state := DropReservation(m.state), waiter := Unpolled)
    case Submit(job) =>
      if !Refusing(m.state) && !m.state.slot.Reserved? then m.(misstep := true)
      else
        var (s, r) := Send(m.state, job);
        if r.Ok? then
          m.(state := s, permits := m.permits - 1, accepted := m.accepted + [job], driver := Rouse(m.driver, r.value))
        else DropOwner(m.(state := s, refused := m.refused + [r.error]))
    case DropPermit => DropOwner(m)
    case DriverPoll(w) =>
      var (s, r) := PollNext(m.state, w);
      if r.Pending? then m.(state := s, driver := Waiting(w, false))
      else if r.value.Some? then m.(state := s, driver := Unpolled, active := true, taken := m.taken + [r.value.value])
      else m.(state := s, driver := Unpolled)
    case DriverReopen =>
      if !m.state.slot.Active? && !m.state.slot.Closed? then m.(misstep := true)
      else
        var (s, open, who) := Reopen(m.state);
        m.(state := s, active := !open, waiter := Rouse(m.waiter, who))
    case DriverDrop =>
      var (s, _, who) := CloseAll(m.state);
      m.(state := s, active := false, driverAlive := false, driver := Unpolled, waiter := Rouse(m.waiter, who))
    case CloneSender => m.(state := m.state.(senders := m.state.senders + 1))
    case DropSender =>
      m.(state := m.state.(senders := m.state.senders - 1, driver := None), driver := Rouse(m.driver, m.state.driver))
    case Stop => m.(state := m.state.(stopping := true))
  }

  /** A live permit is dropped, whether unused or refused. */
  function DropOwner<J>(m: Machine<J>): Machine<J>
    requires m.permits > 0
  {
    var s := m.state;
    if !s.slot.Reserved? && !s.slot.Active? && !s.slot.Closed? then m.(misstep := true)
    else
      var (s', who, wake) := Release(s);
      m.(state := s', permits := m.permits - 1, waiter := Rouse(m.waiter, who), driver := Rouse(m.driver, wake))
  }

  predicate Allowed<J>(m: Machine<J>, events: seq<Event<J>>)
    decreases |events|
  {
    events == [] || (Enabled(m, events[0]) && Allowed(Step(m, events[0]), events[1..]))
  }

  function RunFrom<J>(m: Machine<J>, events: seq<Event<J>>): Machine<J>
    requires Allowed(m, events)
    decreases |events|
  {
    if events == [] then m else RunFrom(Step(m, events[0]), events[1..])
  }

  /** Exactly one of a live permit, a queued job and an active exchange owns a busy slot, and
      admission is closed exactly when the driver is gone. */
  predicate Exclusive<J>(m: Machine<J>)
  {
    && (m.state.slot.Closed? <==> !m.driverAlive)
    && match m.state.slot
       case Reserved(_) => m.permits == 1 && !m.active
       case Queued(_, _) => m.permits == 0 && !m.active
       case Active(_) => m.permits == 0 && m.active
       case Closed => m.permits <= 1 && !m.active
       case _ => m.permits == 0 && !m.active
  }

  /** The registered waiter's place, and that it has been or will be woken. */
  predicate WaiterKept<J>(m: Machine<J>)
  {
    match m.state.slot
    case Free => !m.waiter.Waiting?
    case ReadyForWaiter => m.waiter.Waiting? && m.waiter.woken
    case Closed => m.waiter.Waiting? ==> m.waiter.woken
    case _ =>
      && (m.waiter.Waiting? <==> m.state.slot.waiter.Some?)
      && (m.waiter.Waiting? ==> m.state.slot.waiter == Some(m.waiter.waker))
  }

  /** A driver that waits for a job and has not been woken still has nothing to do. */
  predicate DriverKept<J>(m: Machine<J>)
  {
    m.driver.Waiting? ==>
      && m.driverAlive && !m.active && !m.state.slot.Active?
      && (m.driver.woken ||
          (m.state.driver == Some(m.driver.waker) && !m.state.slot.Queued? && !m.state.slot.Closed?
           && (m.state.senders > 0 || Busy(m.state.slot))))
  }

  /** Jobs accepted are the jobs taken, in order, then the one in the queue; a job still queued
      when the driver goes is dropped. */
  ghost predicate JobsKept<J>(m: Machine<J>)
  {
    if m.state.slot.Queued? then m.accepted == m.taken + [m.state.slot.job]
    else m.taken <= m.accepted && |m.accepted| <= |m.taken| + (if m.state.slot.Closed? then 1 else 0)
  }

  ghost predicate Inv<J>(m: Machine<J>)
  {
    !m.misstep && Exclusive(m) && WaiterKept(m) && DriverKept(m) && JobsKept(m)
  }

  lemma ReservingKeeps<J>(m: Machine<J>, e: Event<J>)
    requires Inv(m) && Enabled(m, e) && (e.Try? || e.PollNewcomer? || e.DropWaiter?)
    ensures Inv(Step(m, e))
  {
  }

  lemma WaitingKeeps<J>(m: Machine<J>, w: Waker)
    requires Inv(m) && m.waiter.Waiting?
    ensures Inv(StepReserve(m, true, w))
  {
    var n := StepReserve(m, true, w);
    assert n.accepted == m.accepted && n.taken == m.taken;
    assert JobsKept(n);
  }

  lemma OwningKeeps<J>(m: Machine<J>, e: Event<J>)
    requires Inv(m) && Enabled(m, e) && (e.Submit? || e.DropPermit?)
    ensures Inv(Step(m, e))
  {
  }

  lemma DrivingKeeps<J>(m: Machine<J>, e: Event<J>)
    requires Inv(m) && Enabled(m, e) && (e.DriverPoll? || e.DriverReopen? || e.DriverDrop?)
    ensures Inv(Step(m, e))
  {
  }

  lemma StepKeeps<J>(m: Machine<J>, e: Event<J>)
    requires Inv(m) && Enabled(m, e)
    ensures Inv(Step(m, e))
  {
    if e.CloneSender? || e.DropSender? || e.Stop? {
      assert Exclusive(Step(m, e));
    } else {
      assert e.PollWaiter? ==> m.waiter.Waiting?;
      hide Step, Inv, Enabled;
      match e {
        case Submit(_) => OwningKeeps(m, e);
        case DropPermit => OwningKeeps(m, e);
        case DriverPoll(_) => DrivingKeeps(m, e);
        case DriverReopen => DrivingKeeps(m, e);
        case DriverDrop => DrivingKeeps(m, e);
        case PollWaiter(w) =>
          WaitingKeeps(m, w);
        case _ => ReservingKeeps(m, e);
      }
    }
  }

  lemma {:induction false} EveryRun<J>(m: Machine<J>, events: seq<Event<J>>)
    requires Inv(m) && Allowed(m, events)
    ensures Inv(RunFrom(m, events))
    decreases |events|
  {
    hide Inv, Step, Enabled;
    if events != [] {
      StepKeeps(m, events[0]);
      EveryRun(Step(m, events[0]), events[1..]);
    }
  }

  lemma InitialInv<J>()
    ensures Inv(Initial<J>())
  {
  }

  /** In every run at most one of a live permit, a queued job and an active exchange exists, and
      no unreachable arm or failed assertion is entered: no two waits are ever registered. */
  lemma Exclusion<J>(events: seq<Event<J>>)
    requires Allowed(Initial<J>(), events)
    ensures var m := RunFrom(Initial<J>(), events);
      && m.permits + (if m.state.slot.Queued? then 1 else 0) + (if m.active then 1 else 0) <= 1
      && !m.misstep
  {
    InitialInv<J>();
    EveryRun(Initial<J>(), events);
  }

  /** A registered waiter is never overtaken: while it waits, no other event hands out a permit. */
  lemma NoOvertaking<J>(events: seq<Event<J>>, e: Event<J>)
    requires Allowed(Initial<J>(), events)
    requires Enabled(RunFrom(Initial<J>(), events), e) && !e.PollWaiter?
    requires RunFrom(Initial<J>(), events).waiter.Waiting?
    ensures var m := RunFrom(Initial<J>(), events); Step(m, e).permits <= m.permits
  {
    InitialInv<J>();
    EveryRun(Initial<J>(), events);
  }

  /** When the owner lets go or the driver closes, the registered waiter has been woken; polled
      then, it gets its permit unless admission has ended. */
  lemma WaiterIsServed<J>(events: seq<Event<J>>, w: Waker)
    requires Allowed(Initial<J>(), events)
    ensures var m := RunFrom(Initial<J>(), events);
      m.waiter.Waiting? ==>
        && (!Busy(m.state.slot) ==> m.waiter.woken)
        && (Busy(m.state.slot) ==> m.state.slot.waiter == Some(m.waiter.waker))
        && (m.state.slot.ReadyForWaiter? && !m.state.stopping ==> Step(m, PollWaiter(w)).permits == m.permits + 1)
  {
    InitialInv<J>();
    EveryRun(Initial<J>(), events);
  }

  /** A driver waiting for a job is never forgotten: once a job is queued, or the last sender and
      owner are gone, it has been woken, and then its poll resolves. */
  lemma DriverIsWoken<J>(events: seq<Event<J>>)
    requires Allowed(Initial<J>(), events)
    ensures var m := RunFrom(Initial<J>(), events);
      m.driver.Waiting? && (m.state.slot.Queued? || (m.state.senders == 0 && !Busy(m.state.slot))) ==>
        m.driver.woken && forall w :: PollNext(m.state, w).1.Ready?
  {
    InitialInv<J>();
    EveryRun(Initial<J>(), events);
  }

  /** Every accepted job is taken at most once and in order: accepted jobs are the jobs taken, then
      the queued one. Only a job still queued when the driver goes away is never taken. */
  lemma JobsAreTakenOnce<J>(events: seq<Event<J>>)
    requires Allowed(Initial<J>(), events)
    ensures var m := RunFrom(Initial<J>(), events);
      && m.taken <= m.accepted && |m.accepted| <= |m.taken| + 1
      && (m.state.slot.Queued? ==> m.accepted == m.taken + [m.state.slot.job])
      && (!m.state.slot.Queued? && m.driverAlive ==> m.accepted == m.taken)
  {
    InitialInv<J>();
    EveryRun(Initial<J>(), events);
  }

  /** A refused job is the very job that was offered. */
  lemma RefusalReturnsTheJob<J>(m: Machine<J>, job: J)
    requires Inv(m) && Enabled(m, Submit(job)) && Refusing(m.state)
    ensures Step(m, Submit(job)).refused == m.refused + [job]
    ensures Step(m, Submit(job)).accepted == m.accepted
  {
  }

  // ---- what every call answers ------------------------------------------------------

  /** Admission goes on: the driver is there and nobody has asked it to stop. */
  predicate Open<J>(m: Machine<J>) { m.driverAlive && !m.state.stopping }

  /** A permit, a job nobody has taken yet, or a running exchange. */
  predicate Owned<J>(m: Machine<J>) { m.permits > 0 || m.active || |m.accepted| > |m.taken| }

  /** In every run: a reservation without waiting gets a permit exactly when admission is open and
      nobody owns it or is registered for it. */
  lemma TriesAreAnswered<J>(events: seq<Event<J>>)
    requires Allowed(Initial<J>(), events)
    ensures var m := RunFrom(Initial<J>(), events);
      TryReserve(m.state).1 == if !Open(m) then Err(AdmissionClosed)
                               else if Owned(m) || m.waiter.Waiting? then Err(AdmissionBusy) else Ok(())
  {
    InitialInv<J>();
    EveryRun(Initial<J>(), events);
  }

  /** In every run: a wait for admission gets its permit exactly when admission is open, nobody owns it
      and nobody else is registered; a newcomer is turned away exactly when another is registered. */
  lemma WaitsAreAnswered<J>(events: seq<Event<J>>, w: Waker)
    requires Allowed(Initial<J>(), events)
    ensures var m := RunFrom(Initial<J>(), events);
      && PollReserve(m.state, false, w).1
         == (if !Open(m) then Ready(Err(AdmissionClosed)) else if m.waiter.Waiting? then Ready(Err(WaiterBusy))
             else if Owned(m) then Pending else Ready(Ok(())))
      && (m.waiter.Waiting? ==>
            && !(m.state.slot.Free? && !m.state.stopping)
            && PollReserve(m.state, true, w).1
               == if !Open(m) then Ready(Err(AdmissionClosed)) else if Owned(m) then Pending else Ready(Ok(())))
  {
    InitialInv<J>();
    EveryRun(Initial<J>(), events);
  }

  /** In every run: a permit's job is accepted exactly while admission is open, and an idle driver gets
      the accepted job that was not taken yet, learns that there will be none, or waits. */
  lemma JobsAreAnswered<J>(events: seq<Event<J>>, job: J, w: Waker)
    requires Allowed(Initial<J>(), events)
    ensures var m := RunFrom(Initial<J>(), events);
      && (m.permits > 0 ==>
            (Refusing(m.state) || m.state.slot.Reserved?) && (Send(m.state, job).1.Ok? <==> Open(m)))
      && (m.driverAlive && !m.active ==>
            PollNext(m.state, w).1
            == if |m.accepted| > |m.taken| then Ready(Some(m.accepted[|m.taken|]))
               else if m.state.stopping || (m.state.senders == 0 && m.permits == 0) then Ready(None) else Pending)
  {
    InitialInv<J>();
    EveryRun(Initial<J>(), events);
  }
}
