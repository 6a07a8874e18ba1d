/** Whole runs of a client driver: admission, the exchange loop, and the receipts of every
    accepted request, under every interleaving with the application. */
module ClientRuns {
  import opened Prelude
  import opened Tasks
  import opened Exchange
  import opened Completion
  import Admission
  import ClientLoop

  /** What the driver still has to publish, and what it would say. */
  type Terminal = Option<(nat, ExchangeOutcome)>

  datatype Phase =
    | Idle
    | Exchanging(job: nat)
    | Closing(terminal: Terminal)
    | Composing(terminal: Terminal, inner: Result<(), Fault>)
    | Returned(result: Result<(), Fault>)
    | Dropped

  datatype Holder = Unclaimed | Holding(progress: Progress) | Resolved | Discarded

  /** A published result, with what the connection was doing when it was published. */
  datatype Publication = Publication(settlement: Settlement, admitting: bool, phase: Phase)

  /** One accepted request as its application sees it, with what was published and observed. */
  datatype Receipt = Receipt(cell: Cell, holder: Holder, published: seq<Publication>, observed: seq<Settlement>)

  /** A connection's settings, the application's requests by their number, and the state of the driver,
      of admission and of every receipt; with the report of each exchange that settled. */
  datatype Run = Run(settings: ClientLoop.Settings, work: nat -> ClientLoop.Job,
                     admission: Admission.Machine<nat>, phase: Phase, receipts: seq<Receipt>,
                     reports: map<nat, ClientLoop.Report>, misstep: bool)

  datatype Event =
    | Application(e: Admission.Event<nat>)
    | NextJob(w: Waker)
    | Settle(x: ClientLoop.Report)
    | ShutDown(ended: Result<(), Fault>)
    | Return(abort: Option<Fault>)
    | DropDriver
    | TakeReceipt(job: nat)
    | PollReceipt(job: nat, w: Waker)
    | DropReceipt(job: nat)

  function Initial(settings: ClientLoop.Settings, work: nat -> ClientLoop.Job): Run
  {
    Run(settings, work, Admission.Initial(), Idle, [], map[], false)
  }

  predicate DriverEvent(e: Admission.Event<nat>)
  {
    e.DriverPoll? || e.DriverReopen? || e.DriverDrop?
  }

  /** An exchange settles in any way that running it can settle. */
  ghost predicate Enabled(r: Run, e: Event)
  {
    match e
    case Application(a) =>
      && !DriverEvent(a) && Admission.Enabled(r.admission, a)
      && (a.Submit? ==> a.job == |r.receipts|)   // requests are numbered in the order of acceptance
    case NextJob(_) => r.phase.Idle?
    case Settle(x) => r.phase.Exchanging? && ClientLoop.Reports(r.settings, r.work(r.phase.job), x)
    case ShutDown(_) => r.phase.Closing?
    case Return(_) => r.phase.Composing?
    case DropDriver => !r.phase.Returned? && !r.phase.Dropped?
    case TakeReceipt(job) => job < |r.receipts| && r.receipts[job].holder.Unclaimed?
    case PollReceipt(job, _) => job < |r.receipts| && r.receipts[job].holder.Holding?
    case DropReceipt(job) => job < |r.receipts| && (r.receipts[job].holder.Holding? || r.receipts[job].holder.Resolved?)
  }

  /** A guard publishes: into the cell, and to the waiting receipt. */
  function Tell(r: Run, job: nat, s: Settlement): Run
    requires job < |r.receipts|
  {
    var t := r.receipts[job];
    var (cell, wake) := Publish(t.cell, s);
    var holder := if t.holder.Holding? then Holding(Rouse(t.holder.progress, wake)) else t.holder;
    var slot := r.admission.state.slot;
    var publication := Publication(s, slot.Free? || slot.ReadyForWaiter?, r.phase);
    r.(receipts := r.receipts[job := Receipt(cell, holder, t.published + [publication], t.observed)])
  }

  /** The receiver goes away; a job still queued is dropped with its guard. */
  function CloseAdmission(r: Run): Run
  {
    if !r.admission.driverAlive then r
    else
      var queued := r.admission.state.slot;
      var closed := r.(admission := Admission.Step(r.admission, Admission.DriverDrop));
      if !queued.Queued? then closed
      else if queued.job >= |r.receipts| then closed.(misstep := true)
      else Tell(closed, queued.job, Err(DriverLost))
  }

  function StepNext(r: Run, w: Waker): Run
    requires r.phase.Idle?
  {
    if !Admission.Enabled(r.admission, Admission.DriverPoll(w)) then r.(misstep := true)
    else
      var answer := Admission.PollNext(r.admission.state, w).1;
      var polled := r.(admission := Admission.Step(r.admission, Admission.DriverPoll(w)));
      match answer
      case Pending => polled
      case Ready(Some(job)) => polled.(phase := Exchanging(job))
      case Ready(None) => CloseAdmission(polled).(phase := Closing(None))
  }

  /** The loop body after an exchange has settled. */
  function StepSettle(r: Run, result: Result<Settled, Fault>): Run
    requires r.phase.Exchanging?
  {
    var job := r.phase.job;
    var failed := ClosedOutcome(MessagePolicy);
    if result.Err? then CloseAdmission(r).(phase := Composing(Some((job, failed)), Err(result.error)))
    else
      var Settled(buffer, outcome, reason) := result.value;
      match outcome
      case Handoff(kind) => CloseAdmission(r).(phase := Composing(Some((job, UpgradedOutcome(kind))), Ok(())))
      case Close => CloseAdmission(r).(phase := Closing(Some((job, ClosedOutcome(reason)))))
      case Reuse =>
        if buffer != [] then CloseAdmission(r).(phase := Composing(Some((job, failed)), Err(Unsolicited)))
        else if !Admission.Enabled(r.admission, Admission.DriverReopen) || job >= |r.receipts| then r.(misstep := true)
        else
          var released := r.(admission := Admission.Step(r.admission, Admission.DriverReopen));
          if released.admission.active then
            var why := if r.admission.state.stopping then Shutdown else ApplicationClosure;
            CloseAdmission(released).(phase := Closing(Some((job, ClosedOutcome(why)))))
          else Tell(released.(phase := Idle), job, Ok(ReusableOutcome))
  }

  /** The outer controller may replace a result by its own abort, but not an originating failure. */
  function Compose(inner: Result<(), Fault>, abort: Option<Fault>): Result<(), Fault>
  {
    if abort.None? || (inner.Err? && !inner.error.Canceled?) then inner else Err(abort.value)
  }

  function TerminalOf(phase: Phase): Terminal
  {
    match phase
    case Exchanging(job) => Some((job, ClosedOutcome(MessagePolicy)))
    case Closing(t) => t
    case Composing(t, _) => t
    case _ => None
  }

  function StepReturn(r: Run, abort: Option<Fault>): Run
    requires r.phase.Composing?
  {
    var result := Compose(r.phase.inner, abort);
    var done := r.(phase := Returned(result));
    var t := r.phase.terminal;
    if t.None? then done
    else if t.value.0 >= |r.receipts| then done.(misstep := true)
    else Tell(done, t.value.0, if result.Ok? then Ok(t.value.1) else Err(Originating(result.error)))
  }

  function StepDrop(r: Run): Run
  {
    var closed := CloseAdmission(r.(phase := Dropped));
    var t := TerminalOf(r.phase);
    if t.None? then closed
    else if t.value.0 >= |closed.receipts| then closed.(misstep := true)
    else Tell(closed, t.value.0, Err(DriverLost))
  }

  function StepPoll(r: Run, job: nat, w: Waker): Run
    requires job < |r.receipts| && r.receipts[job].holder.Holding?
  {
    var t := r.receipts[job];
    var (cell, answer) := PollCell(t.cell, w);
    r.(receipts := r.receipts[job :=
      if answer.Some? then Receipt(cell, Resolved, t.published, t.observed + [answer.value])
      else Receipt(cell, Holding(Progress.Waiting(w, false)), t.published, t.observed)])
  }

  function Step(r: Run, e: Event): Run
    requires Enabled(r, e)
  {
    match e
    case Application(a) =>
      var next := r.(admission := Admission.Step(r.admission, a));
      if |next.admission.accepted| > |r.admission.accepted| then
        next.(receipts := r.receipts + [Receipt(NEW_CELL, Unclaimed, [], [])])
      else next
    case NextJob(w) => StepNext(r, w)
    case Settle(x) => StepSettle(r.(reports := r.reports[r.phase.job := x]), x.settled)
    case ShutDown(ended) => r.(phase := Composing(r.phase.terminal, ended))
    case Return(abort) => StepReturn(r, abort)
    case DropDriver => StepDrop(r)
    case TakeReceipt(job) =>
      var t := r.receipts[job];
      r.(receipts := r.receipts[job := t.(cell := Claim(t.cell).0, holder := Holding(Unpolled))])
    case PollReceipt(job, w) => StepPoll(r, job, w)
    case DropReceipt(job) =>
      var t := r.receipts[job];
      r.(receipts := r.receipts[job := t.(cell := Forget(t.cell), holder := Discarded)])
  }

  ghost predicate Allowed(r: Run, events: seq<Event>)
    decreases |events|
  {
    events == [] || (Enabled(r, events[0]) && Allowed(Step(r, events[0]), events[1..]))
  }

  function RunFrom(r: Run, events: seq<Event>): Run
    requires Allowed(r, events)
    decreases |events|
  {
    if events == [] then r else RunFrom(Step(r, events[0]), events[1..])
  }

  // ---- invariants -------------------------------------------------------------------

  /** The guard of a request is alive: with the queued job, or with the driver. */
  predicate GuardAlive(r: Run, job: nat)
  {
    || (r.admission.state.slot.Queued? && r.admission.state.slot.job == job)
    || (TerminalOf(r.phase).Some? && TerminalOf(r.phase).value.0 == job)
  }

  /** Jobs are numbered, and the driver's phase matches the admission slot. */
  ghost predicate Matched(r: Run)
  {
    var a := r.admission;
    && |a.accepted| == |r.receipts|
    && (forall i :: 0 <= i < |a.accepted| ==> a.accepted[i] == i)
    && (match r.phase
        case Idle => a.driverAlive && !a.active
        case Exchanging(job) => a.driverAlive && a.active && |a.taken| > 0 && job == a.taken[|a.taken| - 1]
        case _ => !a.driverAlive)
    && (TerminalOf(r.phase).Some? ==> TerminalOf(r.phase).value.0 < |r.receipts|)
  }

  /** Exactly one result is published per request, when its guard goes. */
  ghost predicate OnePublication(r: Run)
  {
    forall j :: 0 <= j < |r.receipts| ==> |r.receipts[j].published| == if GuardAlive(r, j) then 0 else 1
  }

  /** A receipt observes what was published, at most once, and is woken for it. */
  predicate ReceiptOk(t: Receipt)
  {
    && (forall i :: 0 <= i < |t.published| ==> Justified(t.published[i]))
    && (t.observed == [] || (|t.published| == 1 && t.observed == [t.published[0].settlement]))
    && (t.observed != [] ==> t.cell.result.None? && !t.holder.Holding? && !t.holder.Unclaimed?)
    && (t.cell.result.Some? ==> |t.published| == 1 && t.published[0].settlement == t.cell.result.value && !t.holder.Resolved?)
    && (t.cell.result.None? && t.published != [] ==> t.observed != [] || t.holder.Discarded?)
    && (t.cell.abandoned <==> t.holder.Discarded?) && (t.cell.taken <==> !t.holder.Unclaimed?)
    && (t.holder.Discarded? ==> t.cell.result.None?)
    && (t.holder.Resolved? ==> t.observed != [])
    && (t.holder.Holding? && Asleep(t.holder.progress) ==>
          t.published == [] && t.cell.waker == Some(t.holder.progress.waker))
  }

  /** Reuse is published only once admission is open again, any other outcome or error only as
      the driver's outer result, and the loss of the driver only when it is dropped. */
  predicate Justified(p: Publication)
  {
    match p.settlement
    case Ok(ReusableOutcome) => p.admitting && p.phase.Idle?
    case Ok(_) => p.phase.Returned? && p.phase.result.Ok?
    case Err(Originating(fault)) => p.phase == Returned(Err(fault))
    case Err(DriverLost) => p.phase.Dropped?
  }

  ghost predicate Inv(r: Run)
  {
    && !r.misstep && Admission.Inv(r.admission) && Matched(r) && OnePublication(r)
    && (forall j :: 0 <= j < |r.receipts| ==> ReceiptOk(r.receipts[j]))
    && (TerminalOf(r.phase).Some? && !r.phase.Exchanging? ==> TerminalOf(r.phase).value.1 != ReusableOutcome)
  }

  // ---- preservation -----------------------------------------------------------------

  lemma TellReceipt(t: Receipt, p: Publication)
    requires ReceiptOk(t) && t.published == [] && Justified(p)
    ensures var (cell, wake) := Publish(t.cell, p.settlement);
      var holder := if t.holder.Holding? then Holding(Rouse(t.holder.progress, wake)) else t.holder;
      ReceiptOk(Receipt(cell, holder, t.published + [p], t.observed))
  {
  }

  /** The application's own admission events leave the driver's side alone. */
  lemma ApplicationLeavesDriver(m: Admission.Machine<nat>, e: Admission.Event<nat>)
    requires Admission.Inv(m) && Admission.Enabled(m, e) && !DriverEvent(e)
    ensures var m' := Admission.Step(m, e);
      && m'.driverAlive == m.driverAlive && m'.active == m.active && m'.taken == m.taken
      && (if |m'.accepted| > |m.accepted| then
            e.Submit? && m'.accepted == m.accepted + [e.job] && m'.state.slot.Queued? && m'.state.slot.job == e.job
            && !m.state.slot.Queued?
          else
            m'.accepted == m.accepted && m'.state.slot.Queued? == m.state.slot.Queued?
            && (m.state.slot.Queued? ==> m'.state.slot.job == m.state.slot.job))
  {
  }

  lemma DropEffect(m: Admission.Machine<nat>)
    requires Admission.Inv(m) && m.driverAlive
    ensures var m' := Admission.Step(m, Admission.DriverDrop);
      && Admission.Inv(m') && !m'.driverAlive && !m'.active && m'.state.slot.Closed?
      && m'.accepted == m.accepted && m'.taken == m.taken
  {
    hide Admission.Inv;
    Admission.StepKeeps(m, Admission.DriverDrop);
  }

  lemma PollEffect(m: Admission.Machine<nat>, w: Waker)
    requires Admission.Inv(m) && m.driverAlive && !m.active
    ensures var m' := Admission.Step(m, Admission.DriverPoll(w));
      var answer := Admission.PollNext(m.state, w).1;
      && Admission.Inv(m') && m'.driverAlive && m'.accepted == m.accepted
      && match answer
         case Pending => !m'.active && m'.state.slot == m.state.slot
         case Ready(None) => !m'.active && m'.state.slot == m.state.slot && !m'.state.slot.Queued?
         case Ready(Some(job)) =>
           && m'.active && m'.taken == m.taken + [job] && !m'.state.slot.Queued?
           && m.state.slot.Queued? && m.state.slot.job == job && m.accepted == m.taken + [job]
  {
    Admission.StepKeeps(m, Admission.DriverPoll(w));
  }

  lemma ReopenEffect(m: Admission.Machine<nat>)
    requires Admission.Inv(m) && m.driverAlive && m.active
    ensures !m.state.slot.Queued?
    ensures var m' := Admission.Step(m, Admission.DriverReopen);
      && Admission.Inv(m') && m'.driverAlive && m'.accepted == m.accepted && m'.taken == m.taken && !m'.state.slot.Queued?
      && (m'.active || m'.state.slot.Free? || m'.state.slot.ReadyForWaiter?)
      && (m'.active <==> m.state.stopping || m.state.senders == 0)
  {
    Admission.StepKeeps(m, Admission.DriverReopen);
  }

  /** Where no job is queued, closing admission touches no receipt. */
  lemma CloseKeeps(r: Run)
    requires Admission.Inv(r.admission) && r.admission.driverAlive && !r.admission.state.slot.Queued?
    ensures var c := CloseAdmission(r);
      && c == r.(admission := c.admission)
      && Admission.Inv(c.admission) && !c.admission.driverAlive && c.admission.state.slot.Closed?
      && c.admission.accepted == r.admission.accepted && c.admission.taken == r.admission.taken
  {
    hide Admission.Step, Admission.Inv;
    DropEffect(r.admission);
  }

  lemma ApplicationKeeps(r: Run, a: Admission.Event<nat>)
    requires Inv(r) && Enabled(r, Application(a))
    ensures Inv(Step(r, Application(a)))
  {
    hide Admission.Step, Admission.Inv, Admission.Enabled, ReceiptOk;
    var r' := Step(r, Application(a));
    ApplicationLeavesDriver(r.admission, a);
    Admission.StepKeeps(r.admission, a);
    FreshReceiptOk();
    var n := |r.receipts|;
    forall j | 0 <= j < |r'.receipts|
      ensures |r'.receipts[j].published| == (if GuardAlive(r', j) then 0 else 1)
    {
      assert j < n ==> r'.receipts[j] == r.receipts[j];
    }
  }

  lemma FreshReceiptOk()
    ensures ReceiptOk(Receipt(NEW_CELL, Unclaimed, [], []))
  {
  }

  /** Publishing for the one request whose guard goes. */
  lemma TellKeeps(r: Run, r': Run, job: nat, settlement: Settlement)
    requires Inv(r) && job < |r.receipts| && GuardAlive(r, job)
    requires !r'.misstep && r'.receipts == r.receipts && Admission.Inv(r'.admission) && Matched(r') && TerminalOf(r'.phase).None?
    requires forall j :: 0 <= j < |r.receipts| ==> GuardAlive(r', j) == (GuardAlive(r, j) && j != job)
    requires var slot := r'.admission.state.slot;
      Justified(Publication(settlement, slot.Free? || slot.ReadyForWaiter?, r'.phase))
    ensures Inv(Tell(r', job, settlement))
  {
    hide Admission.Inv, ReceiptOk, Justified;
    var told := Tell(r', job, settlement);
    var slot := r'.admission.state.slot;
    TellReceipt(r.receipts[job], Publication(settlement, slot.Free? || slot.ReadyForWaiter?, r'.phase));
    assert forall j :: 0 <= j < |r.receipts| && j != job ==> told.receipts[j] == r.receipts[j];
    assert forall j :: GuardAlive(told, j) == GuardAlive(r', j);
  }

  lemma NextKeeps(r: Run, w: Waker)
    requires Inv(r) && r.phase.Idle?
    ensures Inv(Step(r, NextJob(w)))
  {
    hide Admission.Step, Admission.Inv, Admission.PollNext, ReceiptOk, CloseAdmission;
    PollEffect(r.admission, w);
    var polled := r.(admission := Admission.Step(r.admission, Admission.DriverPoll(w)));
    var answer := Admission.PollNext(r.admission.state, w).1;
    if answer.Ready? && answer.value.None? {
      CloseKeeps(polled);
    }
    var r' := Step(r, NextJob(w));
    if answer.Ready? && answer.value.Some? {
      assert r.admission.accepted[|r.admission.taken|] == answer.value.value;
    }
    assert forall j :: GuardAlive(r', j) == GuardAlive(r, j);
  }

  lemma SettleKeeps(r: Run, result: Result<Settled, Fault>)
    requires Inv(r) && r.phase.Exchanging?
    ensures Inv(StepSettle(r, result))
  {
    hide Admission.Step, Admission.Inv, ReceiptOk, CloseAdmission, Tell;
    ReopenEffect(r.admission);
    CloseKeeps(r);
    var released := r.(admission := Admission.Step(r.admission, Admission.DriverReopen));
    CloseKeeps(released);
    if result.Ok? && result.value.outcome == Reuse && result.value.buffer == [] && !released.admission.active {
      TellKeeps(r, released.(phase := Idle), r.phase.job, Ok(ReusableOutcome));
    }
  }

  lemma ReturnKeeps(r: Run, abort: Option<Fault>)
    requires Inv(r) && r.phase.Composing?
    ensures Inv(Step(r, Return(abort)))
  {
    hide Admission.Inv, ReceiptOk, Tell;
    var result := Compose(r.phase.inner, abort);
    var t := r.phase.terminal;
    NoQueueWithoutDriver(r.admission);
    if t.Some? {
      TellKeeps(r, r.(phase := Returned(result)), t.value.0, if result.Ok? then Ok(t.value.1) else Err(Originating(result.error)));
    }
  }

  lemma NoQueueWithoutDriver(m: Admission.Machine<nat>)
    requires Admission.Inv(m)
    ensures !m.driverAlive ==> !m.state.slot.Queued?
    ensures m.active ==> !m.state.slot.Queued?
    ensures m.state.slot.Queued? ==> |m.accepted| > 0 && m.state.slot.job == m.accepted[|m.accepted| - 1]
  {
  }

  lemma DropKeeps(r: Run)
    requires Inv(r) && !r.phase.Returned? && !r.phase.Dropped?
    ensures Inv(Step(r, DropDriver))
  {
    hide Admission.Step, Admission.Inv, ReceiptOk, Tell;
    NoQueueWithoutDriver(r.admission);
    var gone := r.(phase := Dropped);
    var slot := r.admission.state.slot;
    if r.admission.driverAlive {
      DropEffect(r.admission);
      var closed := gone.(admission := Admission.Step(r.admission, Admission.DriverDrop));
      if slot.Queued? {
        TellKeeps(r, closed, slot.job, Err(DriverLost));
      } else if TerminalOf(r.phase).Some? {
        TellKeeps(r, closed, TerminalOf(r.phase).value.0, Err(DriverLost));
      }
    } else if TerminalOf(r.phase).Some? {
      TellKeeps(r, gone, TerminalOf(r.phase).value.0, Err(DriverLost));
    }
  }

  /** Taking, polling or dropping a receipt keeps it in order and publishes nothing. */
  lemma ReceiptMoves(r: Run, e: Event)
    requires Enabled(r, e) && (e.TakeReceipt? || e.PollReceipt? || e.DropReceipt?) && ReceiptOk(r.receipts[e.job])
    ensures var r' := Step(r, e);
      && r' == r.(receipts := r.receipts[e.job := r'.receipts[e.job]])
      && ReceiptOk(r'.receipts[e.job]) && r'.receipts[e.job].published == r.receipts[e.job].published
  {
    hide Justified;
  }

  lemma ReceiptKeeps(r: Run, e: Event)
    requires Inv(r) && Enabled(r, e) && (e.TakeReceipt? || e.PollReceipt? || e.DropReceipt?)
    ensures Inv(Step(r, e))
  {
    hide Admission.Inv, ReceiptOk, Step;
    var r' := Step(r, e);
    ReceiptMoves(r, e);
    assert forall j :: GuardAlive(r', j) == GuardAlive(r, j);
    assert forall j :: 0 <= j < |r.receipts| && j != e.job ==> r'.receipts[j] == r.receipts[j];
  }

  lemma StepKeeps(r: Run, e: Event)
    requires Inv(r) && Enabled(r, e)
    ensures Inv(Step(r, e))
  {
    hide Inv;
    match e
    case Application(a) => ApplicationKeeps(r, a);
    case NextJob(w) => NextKeeps(r, w);
    case Settle(x) =>
      var noted := r.(reports := r.reports[r.phase.job := x]);
      Unreported(r, noted);
      SettleKeeps(noted, x.settled);
    case ShutDown(_) => ShutDownKeeps(r, e);
    case Return(abort) => ReturnKeeps(r, abort);
    case DropDriver => DropKeeps(r);
    case TakeReceipt(_) => ReceiptKeeps(r, e);
    case PollReceipt(_, _) => ReceiptKeeps(r, e);
    case DropReceipt(_) => ReceiptKeeps(r, e);
  }

  /** The invariant does not look at the reports. */
  lemma Unreported(r: Run, noted: Run)
    requires Inv(r) && noted == r.(reports := noted.reports)
    ensures Inv(noted)
  {
    hide Admission.Inv, ReceiptOk;
    assert forall j :: GuardAlive(noted, j) == GuardAlive(r, j);
  }

  lemma ShutDownKeeps(r: Run, e: Event)
    requires Inv(r) && Enabled(r, e) && e.ShutDown?
    ensures Inv(Step(r, e))
  {
    hide Admission.Inv, ReceiptOk;
    assert forall j :: GuardAlive(Step(r, e), j) == GuardAlive(r, j);
  }

  lemma {:induction false} EveryRun(r: Run, events: seq<Event>)
    requires Inv(r) && Allowed(r, events)
    ensures Inv(RunFrom(r, events))
    decreases |events|
  {
    hide Inv, Step, Enabled;
    if events != [] {
      StepKeeps(r, events[0]);
      EveryRun(Step(r, events[0]), events[1..]);
    }
  }

  /** Exactly one result per accepted request, whatever happens: it is published when the
      request's guard goes, and only where it is justified; the receipt observes it at most once
      and never anything else; and once the driver is gone every accepted request has its result. */
  lemma OneResultPerRequest(settings: ClientLoop.Settings, work: nat -> ClientLoop.Job, events: seq<Event>)
    requires Allowed(Initial(settings, work), events)
    ensures var r := RunFrom(Initial(settings, work), events);
      !r.misstep &&
      forall j :: 0 <= j < |r.receipts| ==>
        var t := r.receipts[j];
        && |t.published| == (if GuardAlive(r, j) then 0 else 1)
        && (forall i :: 0 <= i < |t.published| ==> Justified(t.published[i]))
        && |t.observed| <= |t.published|
        && (t.observed != [] ==> t.observed == [t.published[0].settlement])
        && (r.phase.Returned? || r.phase.Dropped? ==> |t.published| == 1)
  {
    hide Step, Enabled, Admission.Inv, Justified;
    InitialInv(settings, work);
    EveryRun(Initial(settings, work), events);
    var r := RunFrom(Initial(settings, work), events);
    NoQueueWithoutDriver(r.admission);
  }

  lemma InitialInv(settings: ClientLoop.Settings, work: nat -> ClientLoop.Job)
    ensures Inv(Initial(settings, work))
  {
  }

  /** A receipt that waits for a result is woken when the result is there, and then gets it; before that
      its poll waits; and it can be taken exactly once. */
  lemma ReceiptsAreWoken(settings: ClientLoop.Settings, work: nat -> ClientLoop.Job, events: seq<Event>, job: nat)
    requires Allowed(Initial(settings, work), events) && job < |RunFrom(Initial(settings, work), events).receipts|
    ensures var t := RunFrom(Initial(settings, work), events).receipts[job];
      && (t.holder.Holding? && t.published != [] ==>
            && !Asleep(t.holder.progress)
            && forall w :: PollCell(t.cell, w).1 == Some(t.published[0].settlement))
      && (t.holder.Holding? && t.published == [] ==> forall w :: PollCell(t.cell, w).1 == None)
      && (Claim(t.cell).1 <==> t.holder.Unclaimed?)
  {
    hide Step, Enabled, Admission.Inv, Justified;
    InitialInv(settings, work);
    EveryRun(Initial(settings, work), events);
  }

  /** The one result published for this request. */
  predicate Says(r: Run, job: nat, s: Settlement)
  {
    job < |r.receipts| && |r.receipts[job].published| == 1 && r.receipts[job].published[0].settlement == s
  }

  /** What is published for a request, by what its exchange settled as and, for reuse, by whether anyone
      is there to send another. */
  predicate PublishesAs(r: Run, job: nat, settled: Result<Settled, Fault>, next: Run)
  {
    match settled
    case Err(fault) => next.phase.Composing? && Says(StepReturn(next, None), job, Err(Originating(fault)))
    case Ok(Settled(_, Handoff(kind), _)) => next.phase.Composing? && Says(StepReturn(next, None), job, Ok(UpgradedOutcome(kind)))
    case Ok(Settled(_, Close, reason)) => ClosesAs(next, job, reason)
    case Ok(Settled(unread, Reuse, _)) =>
      if unread != [] then next.phase.Composing? && Says(StepReturn(next, None), job, Err(Originating(Unsolicited)))
      else if r.admission.state.stopping then ClosesAs(next, job, Shutdown)
      else if r.admission.state.senders == 0 then ClosesAs(next, job, ApplicationClosure)
      else
        && Says(next, job, Ok(ReusableOutcome)) && next.phase.Idle?
        && (next.admission.state.slot.Free? || next.admission.state.slot.ReadyForWaiter?)
  }

  /** Once the connection is shut down in order and nothing aborts it, the reason is published. */
  predicate ClosesAs(next: Run, job: nat, reason: CloseReason)
  {
    next.phase.Closing? && Says(StepReturn(next.(phase := Composing(next.phase.terminal, Ok(()))), None), job, Ok(ClosedOutcome(reason)))
  }

  lemma TellSays(r: Run, job: nat, s: Settlement)
    requires job < |r.receipts| && r.receipts[job].published == []
    ensures Says(Tell(r, job, s), job, s) && Tell(r, job, s) == r.(receipts := Tell(r, job, s).receipts)
  {
  }

  lemma ReturnSays(r: Run, job: nat, outcome: ExchangeOutcome)
    requires r.phase.Composing? && r.phase.terminal == Some((job, outcome))
    requires job < |r.receipts| && r.receipts[job].published == []
    ensures Says(StepReturn(r, None), job, if r.phase.inner.Ok? then Ok(outcome) else Err(Originating(r.phase.inner.error)))
  {
    hide Tell, Says;
    TellSays(r.(phase := Returned(r.phase.inner)), job, if r.phase.inner.Ok? then Ok(outcome) else Err(Originating(r.phase.inner.error)));
  }

  lemma SettlePublishes(r: Run, settled: Result<Settled, Fault>)
    requires Inv(r) && r.phase.Exchanging?
    ensures PublishesAs(r, r.phase.job, settled, StepSettle(r, settled))
  {
    hide Admission.Step, Admission.Inv, ReceiptOk, CloseAdmission, Tell, Says, StepReturn;
    var job := r.phase.job;
    assert GuardAlive(r, job) && r.receipts[job].published == [];
    ReopenEffect(r.admission);
    CloseKeeps(r);
    var released := r.(admission := Admission.Step(r.admission, Admission.DriverReopen));
    CloseKeeps(released);
    TellSays(released.(phase := Idle), job, Ok(ReusableOutcome));
    var next := StepSettle(r, settled);
    if next.phase.Composing? {
      ReturnSays(next, job, next.phase.terminal.value.1);
    } else if next.phase.Closing? {
      ReturnSays(next.(phase := Composing(next.phase.terminal, Ok(()))), job, next.phase.terminal.value.1);
    }
  }

  /** In every run: the receipt of a request says how its exchange settled. */
  lemma SettlementsArePublished(settings: ClientLoop.Settings, work: nat -> ClientLoop.Job, events: seq<Event>, x: ClientLoop.Report)
    requires Allowed(Initial(settings, work), events)
    requires Enabled(RunFrom(Initial(settings, work), events), Settle(x))
    ensures var r := RunFrom(Initial(settings, work), events);
      r.phase.Exchanging? && PublishesAs(r, r.phase.job, x.settled, Step(r, Settle(x)))
  {
    hide Admission.Step, Admission.Inv, Justified, StepSettle, Says, ClientLoop.Reports, ReceiptOk, StepReturn;
    InitialInv(settings, work);
    EveryRun(Initial(settings, work), events);
    var r := RunFrom(Initial(settings, work), events);
    var noted := r.(reports := r.reports[r.phase.job := x]);
    Unreported(r, noted);
    SettlePublishes(noted, x.settled);
  }

  // ---- what an outcome says about the wire ------------------------------------------

  /** An outcome that speaks of the connection rests on the report of that request's exchange. */
  predicate Backed(r: Run, job: nat, o: ExchangeOutcome)
  {
    match o
    case ReusableOutcome =>
      job in r.reports && r.reports[job].settled.Ok?
      && r.reports[job].settled.value.outcome == Reuse && r.reports[job].settled.value.buffer == []
    case UpgradedOutcome(kind) =>
      job in r.reports && r.reports[job].settled.Ok? && r.reports[job].settled.value.outcome == Handoff(kind)
    case ClosedOutcome(_) => true
  }

  predicate PublishedBacked(r: Run, job: nat)
    requires job < |r.receipts|
  {
    forall i :: 0 <= i < |r.receipts[job].published| && r.receipts[job].published[i].settlement.Ok? ==>
      Backed(r, job, r.receipts[job].published[i].settlement.value)
  }

  ghost predicate Evidence(r: Run)
  {
    && (forall j :: j in r.reports ==> ClientLoop.Reports(r.settings, r.work(j), r.reports[j]))
    && (forall j :: 0 <= j < |r.receipts| ==> PublishedBacked(r, j))
    && (TerminalOf(r.phase).Some? ==> Backed(r, TerminalOf(r.phase).value.0, TerminalOf(r.phase).value.1))
  }

  /** Publishing a backed result. */
  lemma TellBacked(r: Run, job: nat, settlement: Settlement)
    requires job < |r.receipts| && (forall j :: 0 <= j < |r.receipts| ==> PublishedBacked(r, j))
    requires settlement.Ok? ==> Backed(r, job, settlement.value)
    ensures var told := Tell(r, job, settlement); forall j :: 0 <= j < |told.receipts| ==> PublishedBacked(told, j)
  {
    var told := Tell(r, job, settlement);
    forall j | 0 <= j < |told.receipts| ensures PublishedBacked(told, j) {
      assert PublishedBacked(r, j);
      assert j != job ==> told.receipts[j] == r.receipts[j];
    }
  }

  /** Reports, results and phase carry over when receipts keep what they published. */
  lemma SameEvidence(r: Run, r': Run)
    requires Evidence(r) && r'.settings == r.settings && r'.work == r.work && r'.reports == r.reports
    requires |r.receipts| <= |r'.receipts|
    requires forall j :: 0 <= j < |r'.receipts| ==>
      r'.receipts[j].published == if j < |r.receipts| then r.receipts[j].published else []
    requires TerminalOf(r'.phase).Some? ==>
      TerminalOf(r'.phase) == TerminalOf(r.phase) || TerminalOf(r'.phase).value.1.ClosedOutcome?
    ensures Evidence(r')
  {
    hide ClientLoop.Reports;
    forall j | 0 <= j < |r'.receipts| ensures PublishedBacked(r', j) {
      assert j < |r.receipts| ==> PublishedBacked(r, j);
    }
  }

  lemma SettleEvidence(r: Run, x: ClientLoop.Report)
    requires Inv(r) && Evidence(r) && Enabled(r, Settle(x))
    ensures Evidence(Step(r, Settle(x)))
  {
    hide Admission.Step, Admission.Inv, ReceiptOk, CloseAdmission, ClientLoop.Reports;
    var job := r.phase.job;
    var noted := r.(reports := r.reports[job := x]);
    ReopenEffect(r.admission);
    CloseKeeps(noted);
    var released := noted.(admission := Admission.Step(r.admission, Admission.DriverReopen));
    CloseKeeps(released);
    assert GuardAlive(r, job);
    forall j | 0 <= j < |r.receipts| ensures PublishedBacked(noted, j) && PublishedBacked(released.(phase := Idle), j) {
      assert PublishedBacked(r, j);
      assert j == job ==> r.receipts[j].published == [];
    }
    if x.settled.Ok? && x.settled.value.outcome == Reuse && x.settled.value.buffer == [] && !released.admission.active {
      TellBacked(released.(phase := Idle), job, Ok(ReusableOutcome));
    } else {
      var r' := Step(r, Settle(x));
      assert r'.receipts == r.receipts && r'.reports == noted.reports;
      forall j | 0 <= j < |r'.receipts| ensures PublishedBacked(r', j) { assert PublishedBacked(noted, j); }
    }
  }

  lemma EndEvidence(r: Run, e: Event)
    requires Inv(r) && Evidence(r) && Enabled(r, e) && (e.Return? || e.DropDriver?)
    ensures Evidence(Step(r, e))
  {
    hide Admission.Step, Admission.Inv, ReceiptOk, ClientLoop.Reports, Tell, PublishedBacked;
    NoQueueWithoutDriver(r.admission);
    forall r': Run, j | r' == r.(phase := r'.phase, admission := r'.admission) && 0 <= j < |r.receipts|
      ensures PublishedBacked(r', j)
    {
      assert PublishedBacked(r, j);
      SameBacked(r, r', j);
    }
    if e.Return? {
      var result := Compose(r.phase.inner, e.abort);
      var t := r.phase.terminal;
      if t.Some? {
        TellEvidence(r, r.(phase := Returned(result)), t.value.0, if result.Ok? then Ok(t.value.1) else Err(Originating(result.error)));
      }
    } else {
      var gone := r.(phase := Dropped);
      var slot, t := r.admission.state.slot, TerminalOf(r.phase);
      var closed := if r.admission.driverAlive then gone.(admission := Admission.Step(r.admission, Admission.DriverDrop)) else gone;
      if slot.Queued? { TellEvidence(r, closed, slot.job, Err(DriverLost)); }
      else if t.Some? { TellEvidence(r, closed, t.value.0, Err(DriverLost)); }
    }
  }

  lemma SameBacked(r: Run, r': Run, j: nat)
    requires j < |r.receipts| && PublishedBacked(r, j) && r'.receipts == r.receipts && r'.reports == r.reports
    ensures PublishedBacked(r', j)
  {
    forall i | 0 <= i < |r.receipts[j].published| && r.receipts[j].published[i].settlement.Ok?
      ensures Backed(r', j, r.receipts[j].published[i].settlement.value)
    {
      assert Backed(r, j, r.receipts[j].published[i].settlement.value);
    }
  }

  /** A backed result published after everything else is done. */
  lemma TellEvidence(r: Run, r': Run, job: nat, settlement: Settlement)
    requires Evidence(r) && r' == r.(phase := r'.phase, admission := r'.admission) && TerminalOf(r'.phase).None?
    requires job < |r.receipts| && (settlement.Ok? ==> Backed(r, job, settlement.value))
    ensures Evidence(Tell(r', job, settlement))
  {
    hide ClientLoop.Reports;
    forall j | 0 <= j < |r.receipts| ensures PublishedBacked(r', j) { SameBacked(r, r', j); }
    TellBacked(r', job, settlement);
  }

  lemma EvidenceKeeps(r: Run, e: Event)
    requires Inv(r) && Evidence(r) && Enabled(r, e)
    ensures Evidence(Step(r, e))
  {
    hide Admission.Step, Admission.Inv, ReceiptOk, ClientLoop.Reports, Evidence, PublishedBacked, CloseAdmission, Admission.PollNext;
    match e
    case Settle(x) => SettleEvidence(r, x);
    case Return(_) => EndEvidence(r, e);
    case DropDriver => EndEvidence(r, e);
    case NextJob(w) =>
      PollEffect(r.admission, w);
      var polled := r.(admission := Admission.Step(r.admission, Admission.DriverPoll(w)));
      var answer := Admission.PollNext(r.admission.state, w).1;
      if answer.Ready? && answer.value.None? { CloseKeeps(polled); }
      SameEvidence(r, Step(r, e));
    case _ => SameEvidence(r, Step(r, e));
  }

  lemma {:induction false} EvidenceStays(r: Run, events: seq<Event>)
    requires Inv(r) && Evidence(r) && Allowed(r, events)
    ensures Inv(RunFrom(r, events)) && Evidence(RunFrom(r, events))
    decreases |events|
  {
    hide Inv, Step, Enabled, Evidence;
    if events != [] {
      StepKeeps(r, events[0]);
      EvidenceKeeps(r, events[0]);
      EvidenceStays(Step(r, events[0]), events[1..]);
    }
  }

  /** What a receipt's success means for the wire, in every run. Reusable: that request was written
      whole, with the body its producer gave, and exactly one response to it was read, up to its
      last byte. Upgraded: the request was written whole and the heads up to the upgrade were read. */
  lemma ObservedMeansExchanged(settings: ClientLoop.Settings, work: nat -> ClientLoop.Job, events: seq<Event>, job: nat)
    requires Allowed(Initial(settings, work), events) && job < |RunFrom(Initial(settings, work), events).receipts|
    ensures var r := RunFrom(Initial(settings, work), events);
      var seen := r.receipts[job].observed;
      && (seen == [Ok(ReusableOutcome)] ==>
            && job in r.reports
            && var x := r.reports[job];
               && ClientLoop.WholeRequest(work(job), x.sent) && !work(job).aborted
               && x.response.Some? && x.response.value.wire == x.arrived
               && ClientLoop.OneResponse(settings, work(job).request, x.response.value))
      && (forall kind :: seen == [Ok(UpgradedOutcome(kind))] ==>
            && job in r.reports
            && var x := r.reports[job];
               && ClientLoop.WholeRequest(work(job), x.sent) && x.settled.Ok?
               && ClientLoop.UpgradeRead(settings, work(job).request, x.arrived, kind, x.settled.value.buffer))
  {
    hide Step, Enabled, Admission.Inv, Justified, ClientLoop.WholeRequest, ClientLoop.OneResponse, ClientLoop.UpgradeRead;
    InitialInv(settings, work);
    EvidenceStays(Initial(settings, work), events);
    Unchanged(Initial(settings, work), events);
    var r := RunFrom(Initial(settings, work), events);
    assert PublishedBacked(r, job) && ReceiptOk(r.receipts[job]);
  }

  lemma StepUnchanged(r: Run, e: Event)
    requires Enabled(r, e)
    ensures Step(r, e).settings == r.settings && Step(r, e).work == r.work
  {
    hide Admission.Step, Admission.Enabled, Admission.PollNext, ClientLoop.Reports;
  }

  /** The settings and the requests are given. */
  lemma {:induction false} Unchanged(r: Run, events: seq<Event>)
    requires Allowed(r, events)
    ensures RunFrom(r, events).settings == r.settings && RunFrom(r, events).work == r.work
    decreases |events|
  {
    hide Enabled, Step;
    if events != [] {
      StepUnchanged(r, events[0]);
      Unchanged(Step(r, events[0]), events[1..]);
    }
  }
}
