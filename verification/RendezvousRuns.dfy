/** Every interleaving of polls and drops on the rendezvous. */
module RendezvousRuns {
  import opened Prelude
  import opened Tasks
  import opened Rendezvous

  /** The one future that may borrow the producer. An offer still owning its item is pending. */
  datatype ProducerFuture<T> =
    | NoFuture
    | OnDemand(progress: Progress)
    | OnOffer(pending: Option<T>, progress: Progress)
    | OnAbandoned(progress: Progress)

  datatype ConsumerFuture = NoTake | OnTake(progress: Progress)

  datatype Ending<E> = ByClose | ByFail(error: E) | ByDrop

  /** Where an offered item is, or how it left. */
  datatype Fate = WithOffer | InCell | Taken | Returned | Discarded

  datatype Machine<T, E> = Machine(
    shared: Shared<T, E>,
    producer: ProducerFuture<T>,
    consumer: ConsumerFuture,
    ending: Option<Ending<E>>,
    consumerDropped: bool,
    consumerComplete: bool,
    // what the two sides observe
    offers: seq<T>,
    taken: seq<T>,
    returned: seq<T>,
    discarded: seq<T>,
    firstEnd: Option<Result<Option<T>, TakeError<E>>>,
    asked: bool,   // a take was left waiting, and since then no item was taken or withdrawn
    // bookkeeping: one fate per offer, and whether an unreachable arm was entered
    fates: seq<Fate>,
    panicked: bool)

  datatype Event<T, E> =
    | NewDemand | PollDemand(w: Waker) | DropDemand
    | NewOffer(item: T) | PollOffer(w: Waker) | DropOffer
    | NewAbandoned | PollAbandoned(w: Waker) | DropAbandoned
    | End(how: Ending<E>)
    | NewTake | PollTake(w: Waker) | DropTake
    | DropConsumer

  function Initial<T, E>(): Machine<T, E>
  {
    Machine(NewShared(), NoFuture, NoTake, None, false, false, [], [], [], [], None, false, [], false)
  }

  /** What ownership and borrowing allow: one future per endpoint, no poll after completion,
      and no use of an endpoint that is borrowed or gone. */
  predicate Enabled<T, E>(m: Machine<T, E>, e: Event<T, E>)
  {
    match e
    case NewDemand => m.producer.NoFuture? && m.ending.None?
    case NewOffer(_) => m.producer.NoFuture? && m.ending.None?
    case NewAbandoned => m.producer.NoFuture? && m.ending.None?
    case End(_) => m.producer.NoFuture? && m.ending.None?
    case PollDemand(_) => m.producer.OnDemand? && !m.producer.progress.Finished?
    case PollOffer(_) => m.producer.OnOffer? && !m.producer.progress.Finished?
    case PollAbandoned(_) => m.producer.OnAbandoned? && !m.producer.progress.Finished?
    case DropDemand => m.producer.OnDemand?
    case DropOffer => m.producer.OnOffer?
    case DropAbandoned => m.producer.OnAbandoned?
    case NewTake => m.consumer.NoTake? && !m.consumerDropped
    case PollTake(_) => m.consumer.OnTake? && !m.consumer.progress.Finished?
    case DropTake => m.consumer.OnTake?
    case DropConsumer => m.consumer.NoTake? && !m.consumerDropped
  }

  /** Firing a waker reaches every future last polled with it. */
  function Wake<T, E>(m: Machine<T, E>, who: Option<Waker>): Machine<T, E>
  {
    if who.None? then m
    else
      m.(producer := match m.producer
                     case NoFuture => NoFuture
                     case OnDemand(p) => OnDemand(Rouse(p, who))
                     case OnOffer(item, p) => OnOffer(item, Rouse(p, who))
                     case OnAbandoned(p) => OnAbandoned(Rouse(p, who)),
         consumer := match m.consumer
                     case NoTake => NoTake
                     case OnTake(p) => OnTake(Rouse(p, who)))
  }

  function Polled<R>(result: Poll<R>, w: Waker): Progress
  {
    if result.Pending? then Waiting(w, false) else Finished
  }

  function SetLast(fates: seq<Fate>, f: Fate): seq<Fate>
  {
    if fates == [] then [] else fates[..|fates| - 1] + [f]
  }

  function StepOffer<T, E>(m: Machine<T, E>, w: Waker): Machine<T, E>
    requires m.producer.OnOffer?
  {
    if m.producer.pending.Some? then
      if m.shared.cell.Offered? then m.(panicked := true)
      else
        var item := m.producer.pending.value;
        var e := OfferSubmit(m.shared, item, w);
        var m' := m.(shared := e.shared, producer := OnOffer(None, Polled(e.result, w)));
        Wake(if e.result.Pending? then m'.(fates := SetLast(m.fates, InCell))
             else m'.(fates := SetLast(m.fates, Returned), returned := m.returned + [item]), e.wake)
    else if Terminal(m.shared.cell) then m.(panicked := true)
    else
      var e := OfferWait(m.shared, w);
      var m' := m.(shared := e.shared, producer := OnOffer(None, Polled(e.result, w)));
      if e.result.Ready? && e.result.value.Err? then
        m'.(fates := SetLast(m.fates, Returned), returned := m.returned + [e.result.value.error.item])
      else m'
  }

  function StepDropOffer<T, E>(m: Machine<T, E>): Machine<T, E>
    requires m.producer.OnOffer?
  {
    var e := OfferDrop(m.shared, m.producer.pending.None?);
    var m' := m.(shared := e.shared, producer := NoFuture);
    var lost := if m.producer.pending.Some? then m.producer.pending else e.discarded;
    Wake(if lost.Some? then
           m'.(fates := SetLast(m.fates, Discarded), discarded := m.discarded + [lost.value],
               asked := m.asked && m.producer.pending.Some?)
         else m', e.wake)
  }

  function StepTake<T, E>(m: Machine<T, E>, w: Waker): Machine<T, E>
    requires m.consumer.OnTake?
  {
    if m.shared.cell.Abandoned? then m.(panicked := true)
    else
      var e := TakePoll(m.shared, w);
      var m' := m.(shared := e.shared, consumer := OnTake(Polled(e.result, w)));
      Wake(
        match e.result
        case Pending => m'.(asked := true)
        case Ready(Ok(Some(item))) => m'.(fates := SetLast(m.fates, Taken), taken := m.taken + [item], asked := false)
        case Ready(end) =>
          m'.(consumerComplete := true, firstEnd := if m.firstEnd.None? then Some(end) else m.firstEnd),
        e.wake)
  }

  function EndCell<T, E>(how: Ending<E>): Cell<T, E>
  {
    match how
    case ByClose => Closed
    case ByFail(error) => Failed(error)
    case ByDrop => Disconnected
  }

  function Step<T, E>(m: Machine<T, E>, e: Event<T, E>): Machine<T, E>
    requires Enabled(m, e)
  {
    match e
    case NewDemand => m.(producer := OnDemand(Unpolled))
    case PollDemand(w) =>
      var r := DemandPoll(m.shared, w);
      Wake(m.(shared := r.shared, producer := OnDemand(Polled(r.result, w))), r.wake)
    case DropDemand => m.(shared := m.shared.(producerWaker := None), producer := NoFuture)
    case NewOffer(item) =>
      m.(producer := OnOffer(Some(item), Unpolled), offers := m.offers + [item], fates := m.fates + [WithOffer])
    case PollOffer(w) => StepOffer(m, w)
    case DropOffer => StepDropOffer(m)
    case NewAbandoned => m.(producer := OnAbandoned(Unpolled))
    case PollAbandoned(w) =>
      var r := AbandonedPoll(m.shared, w);
      Wake(m.(shared := r.shared, producer := OnAbandoned(Polled(r.result, w))), r.wake)
    case DropAbandoned => m.(shared := m.shared.(producerWaker := None), producer := NoFuture)
    case End(how) =>
      if m.shared.cell.Offered? then m.(panicked := true)
      else
        var r := FinishWith(m.shared, EndCell(how));
        Wake(m.(shared := r.shared, ending := Some(how)), r.wake)
    case NewTake => m.(consumer := OnTake(Unpolled))
    case PollTake(w) => StepTake(m, w)
    case DropTake => m.(shared := m.shared.(consumerWaker := None), consumer := NoTake)
    case DropConsumer =>
      if m.consumerComplete then m.(consumerDropped := true)
      else
        var r := ConsumerDrop(m.shared);
        Wake(m.(shared := r.shared, consumerDropped := true), r.wake)
  }

  /** A run: every event is one that ownership allows at that point. */
  predicate Allowed<T, E>(m: Machine<T, E>, events: seq<Event<T, E>>)
    decreases |events|
  {
    events == [] || (Enabled(m, events[0]) && Allowed(Step(m, events[0]), events[1..]))
  }

  function RunFrom<T, E>(m: Machine<T, E>, events: seq<Event<T, E>>): Machine<T, E>
    requires Allowed(m, events)
    decreases |events|
  {
    if events == [] then m else RunFrom(Step(m, events[0]), events[1..])
  }

  // ---- invariant --------------------------------------------------------------------

  /** The offers with a given fate, in offer order. */
  function Pick<T>(offers: seq<T>, fates: seq<Fate>, f: Fate): seq<T>
    requires |offers| == |fates|
  {
    if offers == [] then []
    else
      var n := |offers| - 1;
      Pick(offers[..n], fates[..n], f) + (if fates[n] == f then [offers[n]] else [])
  }

  predicate Settled(f: Fate) { f == Taken || f == Returned || f == Discarded }

  /** Each offer is in exactly one place; only the latest can still be under way. */
  ghost predicate Conserved<T, E>(m: Machine<T, E>)
  {
    && |m.fates| == |m.offers|
    && (forall i :: 0 <= i < |m.fates| - 1 ==> Settled(m.fates[i]))
    && m.taken == Pick(m.offers, m.fates, Taken)
    && m.returned == Pick(m.offers, m.fates, Returned)
    && m.discarded == Pick(m.offers, m.fates, Discarded)
  }

  /** The latest offer's fate is what the offer future and the cell say it is. */
  ghost predicate Located<T, E>(m: Machine<T, E>)
  {
    var n := |m.fates|;
    var cell := m.shared.cell;
    && n == |m.offers|
    && (if m.producer.OnOffer? && m.producer.pending.Some? then
          && m.producer.progress.Unpolled? && !cell.Offered?
          && n > 0 && m.fates[n - 1] == WithOffer && m.producer.pending.value == m.offers[n - 1]
        else if cell.Offered? || (cell.Abandoned? && cell.unclaimed.Some?) then
          && m.producer.OnOffer? && m.producer.progress.Waiting?
          && n > 0 && m.fates[n - 1] == InCell
          && m.offers[n - 1] == (if cell.Offered? then cell.item else cell.unclaimed.value)
        else n > 0 ==> Settled(m.fates[n - 1]))
    && (cell.Abandoned? && cell.unclaimed.Some? ==> !(m.producer.OnOffer? && m.producer.pending.Some?))
    && (m.producer.OnOffer? && m.producer.pending.None? ==> !m.producer.progress.Unpolled? && n > 0)
    && (m.producer.OnOffer? && m.producer.pending.None? && m.producer.progress.Waiting? ==>
          m.fates[n - 1] == InCell || m.fates[n - 1] == Taken)
  }

  /** How the consumer's view of the end relates to how the producer ended. */
  ghost predicate Ended<T, E>(m: Machine<T, E>)
  {
    var cell := m.shared.cell;
    && (m.ending.Some? ==> m.producer.NoFuture?)
    && (cell.Abandoned? ==> m.consumerDropped && !m.consumerComplete)
    && (Terminal(cell) ==> m.ending.Some?)
    && (m.ending.Some? && !cell.Abandoned? ==>
          cell == if m.firstEnd.Some? then Closed else EndCell(m.ending.value))
    && (m.firstEnd.Some? <==> m.consumerComplete)
    && (m.firstEnd.Some? ==> m.ending.Some? && m.firstEnd.value == EndResult(m.ending.value))
    && (m.consumerDropped ==> m.consumer.NoTake?)
    && (m.consumerDropped && !m.consumerComplete ==> cell.Abandoned? || Terminal(cell))
    && (cell.Idle? ==> !m.asked) && (cell.Demanded? ==> m.asked)
  }

  function EndResult<T, E>(how: Ending<E>): Result<Option<T>, TakeError<E>>
  {
    match how
    case ByClose => Ok(None)
    case ByFail(error) => Err(TakeFailed(error))
    case ByDrop => Err(TakeDisconnected)
  }

  /** A waiting future was woken since its last poll, or its waker is still registered and what
      it waits for has not happened. */
  predicate NoLostWakeup<T, E>(m: Machine<T, E>)
  {
    var s := m.shared;
    && (m.producer.OnDemand? && m.producer.progress.Waiting? ==>
          m.producer.progress.woken || (s.producerWaker == Some(m.producer.progress.waker) && s.cell.Idle?))
    && (m.producer.OnOffer? && m.producer.progress.Waiting? ==>
          m.producer.progress.woken || (s.producerWaker == Some(m.producer.progress.waker) && s.cell.Offered?))
    && (m.producer.OnAbandoned? && m.producer.progress.Waiting? ==>
          m.producer.progress.woken || (s.producerWaker == Some(m.producer.progress.waker) && !s.cell.Abandoned?))
    && (m.consumer.OnTake? && m.consumer.progress.Waiting? ==>
          m.consumer.progress.woken || (s.consumerWaker == Some(m.consumer.progress.waker) && s.cell.Demanded?))
  }

  ghost predicate Inv<T, E>(m: Machine<T, E>)
  {
    !m.panicked && Conserved(m) && Located(m) && Ended(m) && NoLostWakeup(m)
  }

  // ---- preservation -----------------------------------------------------------------

  lemma PickSetLast<T>(offers: seq<T>, fates: seq<Fate>, g: Fate, f: Fate)
    requires |offers| == |fates| > 0 && !(fates[|fates| - 1] == f)
    ensures Pick(offers, SetLast(fates, g), f)
         == Pick(offers, fates, f) + (if g == f then [offers[|offers| - 1]] else [])
  {
    var n := |offers| - 1;
    assert SetLast(fates, g)[..n] == fates[..n];
  }

  lemma PickGrow<T>(offers: seq<T>, fates: seq<Fate>, item: T, f: Fate)
    requires |offers| == |fates| && f != WithOffer
    ensures Pick(offers + [item], fates + [WithOffer], f) == Pick(offers, fates, f)
  {
    assert (offers + [item])[..|offers|] == offers && (fates + [WithOffer])[..|fates|] == fates;
  }

  /** The latest offer moves from being under way to a place where it is settled. */
  lemma SettleLast<T, E>(m: Machine<T, E>, m': Machine<T, E>, g: Fate)
    requires Conserved(m) && |m.fates| > 0 && !Settled(m.fates[|m.fates| - 1])
    requires m'.offers == m.offers && m'.fates == SetLast(m.fates, g)
    requires var item := m.offers[|m.offers| - 1];
      && m'.taken == m.taken + (if g == Taken then [item] else [])
      && m'.returned == m.returned + (if g == Returned then [item] else [])
      && m'.discarded == m.discarded + (if g == Discarded then [item] else [])
    ensures Conserved(m')
  {
    hide Pick;
    PickSetLast(m.offers, m.fates, g, Taken);
    PickSetLast(m.offers, m.fates, g, Returned);
    PickSetLast(m.offers, m.fates, g, Discarded);
  }

  lemma DemandKeeps<T, E>(m: Machine<T, E>, e: Event<T, E>)
    requires Inv(m) && Enabled(m, e)
    requires e.NewDemand? || e.PollDemand? || e.DropDemand? || e.NewAbandoned? || e.PollAbandoned? || e.DropAbandoned?
    ensures Inv(Step(m, e))
  {
    hide Pick;
  }

  lemma NewOfferKeeps<T, E>(m: Machine<T, E>, item: T)
    requires Inv(m) && Enabled(m, NewOffer(item))
    ensures Inv(Step(m, NewOffer(item)))
  {
    hide Pick;
    PickGrow(m.offers, m.fates, item, Taken);
    PickGrow(m.offers, m.fates, item, Returned);
    PickGrow(m.offers, m.fates, item, Discarded);
  }

  lemma PollOfferKeeps<T, E>(m: Machine<T, E>, w: Waker)
    requires Inv(m) && Enabled(m, PollOffer(w))
    ensures Inv(Step(m, PollOffer(w)))
  {
    hide Pick, Conserved;
    var m' := Step(m, PollOffer(w));
    var n := |m.fates|;
    if m.producer.pending.Some? {
      SettleLast(m, m', if m.shared.cell.Idle? || m.shared.cell.Demanded? then InCell else Returned);
    } else if m.shared.cell.Abandoned? && m.shared.cell.unclaimed.Some? {
      SettleLast(m, m', Returned);
    } else {
      SameLedger(m, m');
    }
  }

  lemma SameLedger<T, E>(m: Machine<T, E>, m': Machine<T, E>)
    requires Conserved(m) && m'.offers == m.offers && m'.fates == m.fates
    requires m'.taken == m.taken && m'.returned == m.returned && m'.discarded == m.discarded
    ensures Conserved(m')
  {
  }

  lemma DropOfferKeeps<T, E>(m: Machine<T, E>)
    requires Inv(m) && Enabled(m, DropOffer)
    ensures Inv(Step(m, DropOffer))
  {
    hide Pick, Conserved;
    var m' := Step(m, DropOffer);
    var cell := m.shared.cell;
    if m.producer.pending.Some? || cell.Offered? || (cell.Abandoned? && cell.unclaimed.Some?) {
      SettleLast(m, m', Discarded);
    } else {
      SameLedger(m, m');
    }
  }

  lemma TakeItemKeeps<T, E>(m: Machine<T, E>, w: Waker)
    requires Inv(m) && Enabled(m, PollTake(w)) && m.shared.cell.Offered?
    ensures Inv(Step(m, PollTake(w)))
  {
    hide Pick, Conserved;
    SettleLast(m, Step(m, PollTake(w)), Taken);
  }

  lemma TakeWaitPlaces<T, E>(m: Machine<T, E>, w: Waker)
    requires Inv(m) && Enabled(m, PollTake(w)) && !m.shared.cell.Offered?
    ensures var m' := Step(m, PollTake(w)); !m'.panicked && Located(m') && Ended(m')
  {
    hide Pick, Conserved, SetLast, NoLostWakeup;
  }

  lemma TakeWaitKeeps<T, E>(m: Machine<T, E>, w: Waker)
    requires Inv(m) && Enabled(m, PollTake(w)) && !m.shared.cell.Offered?
    ensures Inv(Step(m, PollTake(w)))
  {
    hide Pick, Conserved, SetLast, Located, Ended;
    TakeWaitPlaces(m, w);
    NotAbandoned(m, w);
    SameLedger(m, Step(m, PollTake(w)));
  }

  lemma NotAbandoned<T, E>(m: Machine<T, E>, w: Waker)
    requires Inv(m) && Enabled(m, PollTake(w))
    ensures !m.shared.cell.Abandoned?
  {
    hide Conserved, Located, NoLostWakeup;
  }

  lemma PollTakeKeeps<T, E>(m: Machine<T, E>, w: Waker)
    requires Inv(m) && Enabled(m, PollTake(w))
    ensures Inv(Step(m, PollTake(w)))
  {
    hide Inv, Step, Enabled;
    if m.shared.cell.Offered? { TakeItemKeeps(m, w); } else { TakeWaitKeeps(m, w); }
  }

  lemma EndpointKeeps<T, E>(m: Machine<T, E>, e: Event<T, E>)
    requires Inv(m) && Enabled(m, e)
    requires e.End? || e.NewTake? || e.DropTake? || e.DropConsumer?
    ensures Inv(Step(m, e))
  {
    hide Pick, Conserved;
    SameLedger(m, Step(m, e));
  }

  lemma StepKeeps<T, E>(m: Machine<T, E>, e: Event<T, E>)
    requires Inv(m) && Enabled(m, e)
    ensures Inv(Step(m, e))
  {
    hide Inv, Step;
    match e
    case NewOffer(item) => NewOfferKeeps(m, item);
    case PollOffer(w) => PollOfferKeeps(m, w);
    case DropOffer => DropOfferKeeps(m);
    case PollTake(w) => PollTakeKeeps(m, w);
    case End(_) => EndpointKeeps(m, e);
    case NewTake => EndpointKeeps(m, e);
    case DropTake => EndpointKeeps(m, e);
    case DropConsumer => EndpointKeeps(m, e);
    case NewDemand => DemandKeeps(m, e);
    case PollDemand(_) => DemandKeeps(m, e);
    case DropDemand => DemandKeeps(m, e);
    case NewAbandoned => DemandKeeps(m, e);
    case PollAbandoned(_) => DemandKeeps(m, e);
    case DropAbandoned => DemandKeeps(m, e);
  }

  lemma {:induction false} RunKeeps<T, E>(m: Machine<T, E>, events: seq<Event<T, E>>)
    requires Inv(m) && Allowed(m, events)
    ensures Inv(RunFrom(m, events))
    decreases |events|
  {
    hide Inv, Step, Enabled;
    if events != [] {
      StepKeeps(m, events[0]);
      RunKeeps(Step(m, events[0]), events[1..]);
    }
  }

  lemma EveryRun<T, E>(events: seq<Event<T, E>>)
    requires Allowed(Initial<T, E>(), events)
    ensures Inv(RunFrom(Initial<T, E>(), events))
  {
    RunKeeps(Initial<T, E>(), events);
  }

  // ---- what every run guarantees ----------------------------------------------------

  lemma CountPush<T>(s: seq<T>, x: T)
    ensures multiset(s + [x]) == multiset(s) + multiset([x])
  {
  }

  lemma Redistribute<T>(t: multiset<T>, r: multiset<T>, d: multiset<T>, x: multiset<T>)
    ensures t + r + d + x == (t + x) + r + d
    ensures t + r + d + x == t + (r + x) + d
    ensures t + r + d + x == t + r + (d + x)
  {
  }

  /** The settled offers, counted by outcome. */
  ghost function Shares<T>(offers: seq<T>, fates: seq<Fate>): multiset<T>
    requires |offers| == |fates|
  {
    multiset(Pick(offers, fates, Taken)) + multiset(Pick(offers, fates, Returned))
    + multiset(Pick(offers, fates, Discarded))
  }

  lemma SharesStep<T>(offers: seq<T>, fates: seq<Fate>)
    requires |offers| == |fates| > 0 && Settled(fates[|fates| - 1])
    ensures var n := |offers| - 1;
      Shares(offers, fates) == Shares(offers[..n], fates[..n]) + multiset([offers[n]])
  {
    hide Pick;
    var n := |offers| - 1;
    var before, x := offers[..n], offers[n];
    PickStep(offers, fates, Taken);
    PickStep(offers, fates, Returned);
    PickStep(offers, fates, Discarded);
    CountPush(Pick(before, fates[..n], fates[n]), x);
    Redistribute(multiset(Pick(before, fates[..n], Taken)), multiset(Pick(before, fates[..n], Returned)),
                 multiset(Pick(before, fates[..n], Discarded)), multiset([x]));
  }

  /** Once all offers are settled, the three outcomes share them out. */
  lemma {:induction false} PickPartition<T>(offers: seq<T>, fates: seq<Fate>)
    requires |offers| == |fates| && forall i :: 0 <= i < |fates| ==> Settled(fates[i])
    ensures multiset(offers) == Shares(offers, fates)
  {
    if offers != [] {
      hide Shares;
      var n := |offers| - 1;
      PickPartition(offers[..n], fates[..n]);
      SharesStep(offers, fates);
      CountLast(offers);
    }
  }

  lemma CountLast<T>(s: seq<T>)
    requires s != []
    ensures multiset(s) == multiset(s[..|s| - 1]) + multiset([s[|s| - 1]])
  {
    assert s == s[..|s| - 1] + [s[|s| - 1]];
  }

  lemma PickStep<T>(offers: seq<T>, fates: seq<Fate>, f: Fate)
    requires |offers| == |fates| > 0
    ensures var n := |offers| - 1;
      Pick(offers, fates, f) == if fates[n] == f then Pick(offers[..n], fates[..n], f) + [offers[n]]
                                else Pick(offers[..n], fates[..n], f)
  {
  }

  /** The item still under way, if any: held by the offer future or lying in the cell. */
  function UnderWay<T, E>(m: Machine<T, E>): seq<T>
  {
    match m.producer
    case OnOffer(Some(item), _) => [item]
    case _ =>
      match m.shared.cell
      case Offered(item) => [item]
      case Abandoned(Some(item)) => [item]
      case _ => []
  }

  /** Conservation over every run: the items offered are exactly the items taken, returned to the
      producer, discarded with a dropped offer, and the one still under way. */
  lemma Conservation<T, E>(events: seq<Event<T, E>>)
    requires Allowed(Initial<T, E>(), events)
    ensures var m := RunFrom(Initial<T, E>(), events);
      multiset(m.offers)
        == multiset(m.taken) + multiset(m.returned) + multiset(m.discarded) + multiset(UnderWay(m))
  {
    EveryRun(events);
    var m := RunFrom(Initial<T, E>(), events);
    LedgerBalances(m);
  }

  lemma LedgerBalances<T, E>(m: Machine<T, E>)
    requires Inv(m)
    ensures multiset(m.offers)
         == multiset(m.taken) + multiset(m.returned) + multiset(m.discarded) + multiset(UnderWay(m))
  {
    hide Pick, Ended, NoLostWakeup;
    var n := |m.fates| - 1;
    if n < 0 || Settled(m.fates[n]) {
      assert UnderWay(m) == [];
      PickPartition(m.offers, m.fates);
    } else {
      assert UnderWay(m) == [m.offers[n]];
      PickPartition(m.offers[..n], m.fates[..n]);
      PickStep(m.offers, m.fates, Taken);
      PickStep(m.offers, m.fates, Returned);
      PickStep(m.offers, m.fates, Discarded);
      CountLast(m.offers);
    }
  }

  /** `part` is `whole` with some elements left out. */
  ghost predicate Subsequence<T>(part: seq<T>, whole: seq<T>)
  {
    if part == [] then true
    else if whole == [] then false
    else if part[|part| - 1] == whole[|whole| - 1] && Subsequence(part[..|part| - 1], whole[..|whole| - 1]) then true
    else Subsequence(part, whole[..|whole| - 1])
  }

  lemma {:induction false} PickIsSubsequence<T>(offers: seq<T>, fates: seq<Fate>, f: Fate)
    requires |offers| == |fates|
    ensures Subsequence(Pick(offers, fates, f), offers)
  {
    if offers != [] {
      var n := |offers| - 1;
      PickIsSubsequence(offers[..n], fates[..n], f);
      PickStep(offers, fates, f);
      if fates[n] == f {
        var p := Pick(offers, fates, f);
        assert p[..|p| - 1] == Pick(offers[..n], fates[..n], f);
      }
    }
  }

  /** Taken items keep the order in which they were offered. */
  lemma OrderIsKept<T, E>(events: seq<Event<T, E>>)
    requires Allowed(Initial<T, E>(), events)
    ensures var m := RunFrom(Initial<T, E>(), events); Subsequence(m.taken, m.offers)
  {
    EveryRun(events);
    var m := RunFrom(Initial<T, E>(), events);
    PickIsSubsequence(m.offers, m.fates, Taken);
  }

  /** No arm declared unreachable is ever entered. */
  lemma UnreachableArms<T, E>(events: seq<Event<T, E>>)
    requires Allowed(Initial<T, E>(), events)
    ensures !RunFrom(Initial<T, E>(), events).panicked
  {
    EveryRun(events);
  }

  /** An offer is refused exactly when the consumer is gone, and then hands back its own item; it
      succeeds exactly when that item was taken, and waits otherwise. */
  ghost predicate OfferTellsTheFate<T, E>(m: Machine<T, E>, w: Waker)
    requires m.producer.OnOffer? && |m.offers| == |m.fates| > 0
  {
    var last := |m.offers| - 1;
    if m.producer.pending.Some? then
      && !m.shared.cell.Offered?
      && var r := OfferSubmit(m.shared, m.producer.pending.value, w).result;
         r == if m.consumerDropped then Ready(Err(OfferAbandoned(m.offers[last]))) else Pending
    else
      && !Terminal(m.shared.cell)
      && var r := OfferWait(m.shared, w).result;
         r == if m.fates[last] == Taken then Ready(Ok(()))
              else if m.consumerDropped then Ready(Err(OfferAbandoned(m.offers[last])))
              else Pending
  }

  lemma OfferFate<T, E>(m: Machine<T, E>, w: Waker)
    requires Inv(m) && Enabled(m, PollOffer(w))
    ensures |m.offers| == |m.fates| > 0 && OfferTellsTheFate(m, w)
  {
    hide Pick;
  }

  /** Fates change only at the latest offer, and only while it is under way. */
  predicate OnlyLastChanges(before: seq<Fate>, after: seq<Fate>)
  {
    || after == before
    || (|before| > 0 && !Settled(before[|before| - 1]) && |after| == |before| && after[..|before| - 1] == before[..|before| - 1])
  }

  lemma LastChanges(fates: seq<Fate>, f: Fate)
    ensures OnlyLastChanges(fates, fates)
    ensures |fates| > 0 && !Settled(fates[|fates| - 1]) ==> OnlyLastChanges(fates, SetLast(fates, f))
  {
  }

  lemma WakingFates<T, E>()
    ensures forall m: Machine<T, E>, who :: Wake(m, who).offers == m.offers && Wake(m, who).fates == m.fates
  {
  }

  lemma PollingFates<T, E>(m: Machine<T, E>, w: Waker)
    requires Inv(m) && Enabled(m, PollOffer(w))
    ensures var m' := Step(m, PollOffer(w)); m'.offers == m.offers && OnlyLastChanges(m.fates, m'.fates)
  {
    hide Pick, NoLostWakeup, Ended, Conserved, SetLast, OnlyLastChanges, Wake;
    WakingFates<T, E>();
    LastChanges(m.fates, InCell);
    LastChanges(m.fates, Returned);
  }

  lemma DroppingFates<T, E>(m: Machine<T, E>)
    requires Inv(m) && Enabled(m, DropOffer)
    ensures var m' := Step(m, DropOffer); m'.offers == m.offers && OnlyLastChanges(m.fates, m'.fates)
  {
    hide Pick, NoLostWakeup, Ended, Conserved, SetLast, OnlyLastChanges, Wake;
    WakingFates<T, E>();
    LastChanges(m.fates, Discarded);
  }

  lemma TakingFates<T, E>(m: Machine<T, E>, w: Waker)
    requires Inv(m) && Enabled(m, PollTake(w))
    ensures var m' := Step(m, PollTake(w)); m'.offers == m.offers && OnlyLastChanges(m.fates, m'.fates)
  {
    hide Pick, NoLostWakeup, Ended, Conserved, SetLast, OnlyLastChanges, Wake;
    WakingFates<T, E>();
    NotAbandoned(m, w);
    LastChanges(m.fates, Taken);
    assert m.shared.cell.Offered? ==> |m.fates| > 0 && m.fates[|m.fates| - 1] == InCell;
    hide Located;
  }

  /** Once an item's fate is settled it stays so, and offers are only added by offering. */
  lemma FatesStay<T, E>(m: Machine<T, E>, e: Event<T, E>)
    requires Inv(m) && Enabled(m, e)
    ensures var m' := Step(m, e);
      && m'.offers == (if e.NewOffer? then m.offers + [e.item] else m.offers)
      && |m'.fates| == |m'.offers|
      && forall i :: 0 <= i < |m.fates| && Settled(m.fates[i]) ==> m'.fates[i] == m.fates[i]
  {
    if e.PollOffer? || e.DropOffer? || e.PollTake? {
      hide Step, Enabled, Pick, NoLostWakeup, Ended, Located;
      match e {
        case PollTake(w) => TakingFates(m, w);
        case PollOffer(w) => PollingFates(m, w);
        case _ => DroppingFates(m);
      }
      var m' := Step(m, e);
      forall i | 0 <= i < |m.fates| && Settled(m.fates[i]) ensures m'.fates[i] == m.fates[i] {
        assert i < |m.fates| - 1 ==> m'.fates[..|m.fates| - 1][i] == m'.fates[i];
      }
    } else {
      hide Pick, NoLostWakeup, Ended, Located;
    }
  }

  lemma OfferResolution<T, E>(events: seq<Event<T, E>>, w: Waker)
    requires Allowed(Initial<T, E>(), events)
    requires Enabled(RunFrom(Initial<T, E>(), events), PollOffer(w))
    ensures var m := RunFrom(Initial<T, E>(), events);
      m.producer.OnOffer? && |m.offers| == |m.fates| > 0 && OfferTellsTheFate(m, w)
  {
    EveryRun(events);
  }

  /** The producer's other waits in every reachable state. A demand is answered exactly when the consumer
      has asked, or is gone; a wait for abandonment ends exactly when the consumer is gone. That
      the producer had ended is never an answer. */
  lemma DemandTellsWhatWasAsked<T, E>(m: Machine<T, E>, w: Waker)
    requires Inv(m)
    ensures Enabled(m, PollDemand(w)) ==>
      DemandPoll(m.shared, w).result
        == (if m.consumerDropped then Ready(Err(DemandAbandoned)) else if m.asked then Ready(Ok(())) else Pending)
    ensures Enabled(m, PollAbandoned(w)) ==>
      AbandonedPoll(m.shared, w).result == if m.consumerDropped then Ready(()) else Pending
  {
    hide Pick, Conserved, NoLostWakeup;
  }

  lemma DemandAnswers<T, E>(events: seq<Event<T, E>>, w: Waker)
    requires Allowed(Initial<T, E>(), events)
    ensures var m := RunFrom(Initial<T, E>(), events);
      && (Enabled(m, PollDemand(w)) ==>
            var r := DemandPoll(m.shared, w).result;
            && (r == Ready(Ok(())) <==> m.asked && !m.consumerDropped)
            && (r == Ready(Err(DemandAbandoned)) <==> m.consumerDropped)
            && (r == Pending <==> !m.asked && !m.consumerDropped))
      && (Enabled(m, PollAbandoned(w)) ==>
            (AbandonedPoll(m.shared, w).result == Ready(()) <==> m.consumerDropped && m.firstEnd.None?))
  {
    hide DemandPoll, AbandonedPoll;
    EveryRun(events);
    DemandTellsWhatWasAsked(RunFrom(Initial<T, E>(), events), w);
  }

  /** What a take answers in every reachable state: the offered item that nobody has withdrawn, or,
      once the producer has ended, how it ended, and a clean end ever after. */
  lemma TakeAnswers<T, E>(events: seq<Event<T, E>>, w: Waker)
    requires Allowed(Initial<T, E>(), events)
    requires Enabled(RunFrom(Initial<T, E>(), events), PollTake(w))
    ensures var m := RunFrom(Initial<T, E>(), events); var n := |m.fates|;
      && n == |m.offers| && !m.shared.cell.Abandoned?
      && TakePoll(m.shared, w).result
         == if n > 0 && m.fates[n - 1] == InCell then Ready(Ok(Some(m.offers[n - 1])))
            else if m.ending.None? then Pending
            else Ready(if m.firstEnd.Some? then Ok(None) else EndResult(m.ending.value))
  {
    hide Pick, Conserved, NoLostWakeup;
    EveryRun(events);
  }

  /** The consumer's first terminal result says how the producer ended: clean end of body exactly
      for `close`, the error of `fail`, and disconnection for a dropped producer. */
  lemma FirstEndTellsHow<T, E(!new)>(events: seq<Event<T, E>>)
    requires Allowed(Initial<T, E>(), events)
    ensures var m := RunFrom(Initial<T, E>(), events);
      m.firstEnd.Some? ==>
        && m.ending.Some?
        && (m.firstEnd.value == Ok(None) <==> m.ending.value == ByClose)
        && (m.firstEnd.value == Err(TakeDisconnected) <==> m.ending.value == ByDrop)
        && (forall e :: m.firstEnd.value == Err(TakeFailed(e)) <==> m.ending.value == ByFail(e))
  {
    EveryRun(events);
  }

  /** When the producer has ended and the consumer is polled, every item was settled first. */
  lemma EndComesLast<T, E>(events: seq<Event<T, E>>)
    requires Allowed(Initial<T, E>(), events)
    ensures var m := RunFrom(Initial<T, E>(), events);
      m.firstEnd.Some? ==>
        && UnderWay(m) == []
        && multiset(m.offers) == multiset(m.taken) + multiset(m.returned) + multiset(m.discarded)
  {
    EveryRun(events);
    LedgerBalances(RunFrom(Initial<T, E>(), events));
  }

  /** No lost wakeup in any reachable state. */
  lemma WakeupsAreNotLost<T, E>(events: seq<Event<T, E>>)
    requires Allowed(Initial<T, E>(), events)
    ensures NoLostWakeup(RunFrom(Initial<T, E>(), events))
  {
    EveryRun(events);
  }
}
