/** Whole receive activities: the driver loop, its decoder and the rendezvous it produces into, under
    every interleaving with the application that consumes the body. */
module ReceiveRuns {
  import opened Prelude
  import opened Tasks
  import opened ChunkGrammar
  import opened Decoding
  import opened Receiving
  import DecodeRuns
  import RecvBuffer
  import Rendezvous
  import RendezvousRuns
  import IncomingBody

  type Pipe = RendezvousRuns.Machine<Frame, Cause>

  type PipeEvent = RendezvousRuns.Event<Frame, Cause>

  /** The loop that `Receiving.ReceiveBody` runs, with the producer's end of the rendezvous in its hands,
      and whether its future was dropped. */
  datatype Activity = Activity(pipe: Pipe, loop: Loop, gone: bool, misstep: bool)

  datatype Event =
    | Consumer(e: PipeEvent)                    // anything the application does with its end
    | AskDrain(max: nat, allowance: nat)        // and its requests for a drain
    | Begin
    | PollDemand(w: Waker) | CancelDemand
    | Decode(decoder: Decoder, r: Result<Outcome, DecodeError>)
    | PollAbandoned(w: Waker)
    | ReadEnds(got: Bytes, status: Result<RecvBuffer.ReadStatus, RecvBuffer.RecvError>)
    | PollOffer(w: Waker) | CancelOffer
    | DropLoop

  function Start(mode: BodyMode, buffered: Bytes): Activity
  {
    Activity(RendezvousRuns.Initial(), StartLoop(mode, buffered), false, false)
  }

  predicate IsConsumers(e: PipeEvent) { e.NewTake? || e.PollTake? || e.DropTake? || e.DropConsumer? }

  /** The application may do what ownership of its end allows; the loop does what its phase allows, as
      long as its future lives. */
  ghost predicate Enabled(cfg: Config, a: Activity, e: Event)
  {
    match e
    case Consumer(c) => IsConsumers(c) && RendezvousRuns.Enabled(a.pipe, c)
    case Begin => !a.gone && a.loop.phase.AtTop?
    case PollDemand(_) => !a.gone && a.loop.phase.Demanding?
    case CancelDemand => !a.gone && a.loop.phase.Demanding?
    case AskDrain(_, _) => a.pipe.consumer.NoTake? && !a.pipe.consumerDropped
    case Decode(d, r) => !a.gone && Legal(cfg, a.loop, DecodeAnswered(d, r))
    case PollAbandoned(w) =>
      !a.gone && a.loop.phase.Awaiting? && RendezvousRuns.Enabled(a.pipe, RendezvousRuns.PollAbandoned(w))
    case ReadEnds(got, status) => !a.gone && Legal(cfg, a.loop, ReadAnswered(got, status, false))
    case PollOffer(_) => !a.gone && a.loop.phase.Offering?
    case CancelOffer => !a.gone && a.loop.phase.Offering?
    case DropLoop => !a.gone && !a.loop.phase.Over?
  }

  /** One event on the rendezvous. That ownership allows it is part of what is proved. */
  function Do(a: Activity, e: PipeEvent): Activity
  {
    if RendezvousRuns.Enabled(a.pipe, e) then a.(pipe := RendezvousRuns.Step(a.pipe, e)) else a.(misstep := true)
  }

  /** How a returning loop lets go of its producer: it closes only a complete body. */
  function EndingOf(end: BodyEnd): RendezvousRuns.Ending<Cause>
  {
    match end
    case BodyComplete => RendezvousRuns.ByClose
    case BodyAbandoned => RendezvousRuns.ByDrop
    case BodyFailed(why) => if why.ClosedHandoff? then RendezvousRuns.ByDrop else RendezvousRuns.ByFail(why)
  }

  /** A step of the loop, and what it does to the rendezvous: a new wait, a new offer, or the end. */
  function Advance(a: Activity, step: Label): Activity
  {
    var next := a.(loop := LoopStep(a.loop, step));
    match next.loop.phase
    case AtTop => next
    case Deciding => next
    case Demanding => Do(next, RendezvousRuns.NewDemand)
    case Awaiting => Do(next, RendezvousRuns.NewAbandoned)
    case Offering(frame) => Do(next, RendezvousRuns.NewOffer(frame))
    case Over(end) => Do(next, RendezvousRuns.End(EndingOf(end)))
  }

  /** What polling the pending offer answers. */
  function OfferResult(m: Pipe, w: Waker): Poll<Result<(), Rendezvous.OfferError<Frame>>>
    requires m.producer.OnOffer?
  {
    if m.producer.pending.Some? then
      if m.shared.cell.Offered? then Pending else Rendezvous.OfferSubmit(m.shared, m.producer.pending.value, w).result
    else if Rendezvous.Terminal(m.shared.cell) then Pending
    else Rendezvous.OfferWait(m.shared, w).result
  }

  function OfferTold(r: Result<(), Rendezvous.OfferError<Frame>>): OfferAnswer
  {
    match r
    case Ok(_) => FrameTaken
    case Err(OfferAbandoned(_)) => FrameAbandoned
    case Err(OfferClosed(_)) => HandoffClosed
  }

  function StepOffer(a: Activity, w: Waker): Activity
  {
    if !a.pipe.producer.OnOffer? then a.(misstep := true)
    else
      var polled := Do(a, RendezvousRuns.PollOffer(w));
      match OfferResult(a.pipe, w)
      case Pending => polled
      case Ready(answer) => Advance(Do(polled, RendezvousRuns.DropOffer), OfferAnswered(OfferTold(answer)))
  }

  function StepDemand(a: Activity, w: Waker): Activity
  {
    var polled := Do(a, RendezvousRuns.PollDemand(w));
    match Rendezvous.DemandPoll(a.pipe.shared, w).result
    case Pending => polled
    case Ready(answer) =>
      Advance(Do(polled, RendezvousRuns.DropDemand), DemandAnswered(if answer.Ok? then Wanted else ConsumerGone))
  }

  /** After a read the wait for abandonment is dropped, and then abandonment is looked at. */
  function StepRead(a: Activity, got: Bytes, status: Result<RecvBuffer.ReadStatus, RecvBuffer.RecvError>): Activity
  {
    var dropped := Do(a, RendezvousRuns.DropAbandoned);
    Advance(dropped, ReadAnswered(got, status, dropped.pipe.shared.cell.Abandoned?))
  }

  /** The event that drops the wait the loop is in. */
  function DropOf(phase: LoopPhase): Option<PipeEvent>
  {
    match phase
    case Demanding => Some(RendezvousRuns.DropDemand)
    case Awaiting => Some(RendezvousRuns.DropAbandoned)
    case Offering(_) => Some(RendezvousRuns.DropOffer)
    case _ => None
  }

  /** The loop's future is dropped, with the wait it is in and then its producer. */
  function StepDrop(a: Activity): Activity
  {
    var drop := DropOf(a.loop.phase);
    var free := if drop.Some? then Do(a, drop.value) else a;
    Do(free, RendezvousRuns.End(RendezvousRuns.ByDrop)).(gone := true)
  }

  ghost function Step(cfg: Config, a: Activity, e: Event): Activity
    requires Enabled(cfg, a, e)
  {
    match e
    case Consumer(c) => Do(a, c)
    case Begin => Advance(a, TopOfLoop)
    case PollDemand(w) => StepDemand(a, w)
    case CancelDemand => Advance(Do(a, RendezvousRuns.DropDemand), DemandAnswered(DemandCanceled))
    case AskDrain(max, allowance) => a.(loop := LoopStep(a.loop, DrainAsked(max, allowance)))
    case Decode(d, r) => Advance(a, DecodeAnswered(d, r))
    case PollAbandoned(w) => Do(a, RendezvousRuns.PollAbandoned(w))
    case ReadEnds(got, status) => StepRead(a, got, status)
    case PollOffer(w) => StepOffer(a, w)
    case CancelOffer => Advance(Do(a, RendezvousRuns.DropOffer), OfferAnswered(OfferCanceled))
    case DropLoop => StepDrop(a)
  }

  ghost predicate Allowed(cfg: Config, a: Activity, events: seq<Event>)
    decreases |events|
  {
    events == [] || (Enabled(cfg, a, events[0]) && Allowed(cfg, Step(cfg, a, events[0]), events[1..]))
  }

  ghost function RunFrom(cfg: Config, a: Activity, events: seq<Event>): Activity
    requires Allowed(cfg, a, events)
    decreases |events|
  {
    if events == [] then a else RunFrom(cfg, Step(cfg, a, events[0]), events[1..])
  }

  // ---- invariants -------------------------------------------------------------------

  /** The producer has no future and has not ended. */
  predicate Resting(p: Pipe) { p.producer.NoFuture? && p.ending.None? }

  /** The producer's future and its end are those of the loop's phase. */
  predicate Aligned(a: Activity)
  {
    var p := a.pipe;
    if a.gone then p.ending == Some(RendezvousRuns.ByDrop)
    else
      match a.loop.phase
      case AtTop => Resting(p)
      case Deciding => Resting(p)
      case Demanding => p.producer.OnDemand? && !p.producer.progress.Finished? && p.ending.None?
      case Awaiting => p.producer.OnAbandoned? && p.ending.None?
      case Offering(_) => p.producer.OnOffer? && !p.producer.progress.Finished? && p.ending.None?
      case Over(end) => p.ending == Some(EndingOf(end))
  }

  predicate AllTaken(fates: seq<RendezvousRuns.Fate>, n: nat)
  {
    n <= |fates| && forall i :: 0 <= i < n ==> fates[i] == RendezvousRuns.Taken
  }

  /** What the rendezvous was offered is what the loop offered, and frames whose offers succeeded
      were taken. */
  predicate Handed(a: Activity)
  {
    a.pipe.offers == a.loop.offered && AllTaken(a.pipe.fates, |a.loop.frames|)
  }

  ghost predicate Inv(cfg: Config, mode: BodyMode, a: Activity)
  {
    && !a.misstep && RendezvousRuns.Inv(a.pipe) && Aligned(a) && Handed(a)
    && LoopInv(cfg, mode, a.loop) && (a.gone ==> !a.loop.phase.Over?)
  }

  // ---- the rendezvous under the loop ------------------------------------------------

  /** Same kind of future, finished or not as before. */
  predicate SameFuture(m: Pipe, m': Pipe)
  {
    && m'.ending == m.ending && m'.consumerDropped == m.consumerDropped
    && (m.producer.NoFuture? <==> m'.producer.NoFuture?)
    && (m.producer.OnDemand? <==> m'.producer.OnDemand?)
    && (m.producer.OnAbandoned? <==> m'.producer.OnAbandoned?)
    && (m.producer.OnOffer? <==> m'.producer.OnOffer?)
    && (!m.producer.NoFuture? ==> (m'.producer.progress.Finished? <==> m.producer.progress.Finished?))
  }

  lemma WakingChangesNoFuture()
    ensures forall m: Pipe, who :: SameFuture(m, RendezvousRuns.Wake(m, who))
  {
  }

  /** The application's events leave the producer's future and end alone. */
  lemma ConsumerLeavesProducer(m: Pipe, e: PipeEvent)
    requires RendezvousRuns.Inv(m) && RendezvousRuns.Enabled(m, e) && IsConsumers(e)
    ensures var m' := RendezvousRuns.Step(m, e);
      && m'.ending == m.ending
      && (m.producer.NoFuture? <==> m'.producer.NoFuture?)
      && (m.producer.OnDemand? <==> m'.producer.OnDemand?)
      && (m.producer.OnAbandoned? <==> m'.producer.OnAbandoned?)
      && (m.producer.OnOffer? <==> m'.producer.OnOffer?)
      && (!m.producer.NoFuture? ==> (m'.producer.progress.Finished? <==> m.producer.progress.Finished?))
  {
    hide RendezvousRuns.Pick, RendezvousRuns.Conserved, RendezvousRuns.Located, RendezvousRuns.NoLostWakeup,
         RendezvousRuns.Wake, RendezvousRuns.SetLast;
    WakingChangesNoFuture();
  }

  /** Starting, dropping and polling the producer's futures, and its end. */
  lemma ProducerMoves(m: Pipe, e: PipeEvent)
    requires RendezvousRuns.Inv(m) && RendezvousRuns.Enabled(m, e) && !IsConsumers(e)
    ensures var m' := RendezvousRuns.Step(m, e);
      match e
      case NewDemand => m'.producer == RendezvousRuns.OnDemand(Unpolled) && m'.ending == m.ending
      case NewAbandoned => m'.producer == RendezvousRuns.OnAbandoned(Unpolled) && m'.ending == m.ending
      case NewOffer(_) => m'.producer.OnOffer? && m'.producer.progress == Unpolled && m'.ending == m.ending
      case PollDemand(w) =>
        && m'.producer.OnDemand? && m'.ending == m.ending
        && (m'.producer.progress.Finished? <==> Rendezvous.DemandPoll(m.shared, w).result.Ready?)
      case PollAbandoned(_) => m'.producer.OnAbandoned? && m'.ending == m.ending
      case PollOffer(w) =>
        && m'.producer.OnOffer? && m'.ending == m.ending
        && (m'.producer.progress.Finished? <==> OfferResult(m, w).Ready?)
      case End(how) => m'.ending == Some(how)
      case _ => m'.producer.NoFuture? && m'.ending == m.ending
  {
    hide RendezvousRuns.Pick, RendezvousRuns.Conserved, RendezvousRuns.NoLostWakeup;
  }

  /** One allowed event on the rendezvous keeps its invariant and every settled fate. */
  lemma DoKeeps(a: Activity, e: PipeEvent)
    requires !a.misstep && RendezvousRuns.Inv(a.pipe) && RendezvousRuns.Enabled(a.pipe, e)
    ensures var b := Do(a, e);
      && b == a.(pipe := RendezvousRuns.Step(a.pipe, e)) && RendezvousRuns.Inv(b.pipe)
      && b.pipe.offers == (if e.NewOffer? then a.pipe.offers + [e.item] else a.pipe.offers)
      && (AllTaken(a.pipe.fates, |a.loop.frames|) ==> AllTaken(b.pipe.fates, |a.loop.frames|))
  {
    hide RendezvousRuns.Step, RendezvousRuns.Pick, RendezvousRuns.Located, RendezvousRuns.NoLostWakeup, RendezvousRuns.Ended;
    RendezvousRuns.StepKeeps(a.pipe, e);
    RendezvousRuns.FatesStay(a.pipe, e);
  }

  /** From rest, a step of the loop that keeps the frames handed over keeps everything. */
  lemma AdvanceKeeps(cfg: Config, mode: BodyMode, a: Activity, step: Label)
    requires !a.misstep && !a.gone && RendezvousRuns.Inv(a.pipe) && Resting(a.pipe) && Handed(a)
    requires LoopInv(cfg, mode, a.loop) && Legal(cfg, a.loop, step) && !step.DrainAsked?
    requires AllTaken(a.pipe.fates, |LoopStep(a.loop, step).frames|)
    ensures Inv(cfg, mode, Advance(a, step))
  {
    hide RendezvousRuns.Step, RendezvousRuns.Inv, LoopInv, LoopStep, Legal, AllTaken, Do;
    LoopKeeps(cfg, mode, a.loop, step);
    OffersGrow(cfg, a.loop, step);
    var next := a.(loop := LoopStep(a.loop, step));
    var e: Option<PipeEvent> := match next.loop.phase
      case Demanding => Some(RendezvousRuns.NewDemand)
      case Awaiting => Some(RendezvousRuns.NewAbandoned)
      case Offering(frame) => Some(RendezvousRuns.NewOffer(frame))
      case Over(end) => Some(RendezvousRuns.End(EndingOf(end)))
      case _ => None;
    if e.Some? {
      DoKeeps(next, e.value);
      ProducerMoves(next.pipe, e.value);
    }
  }

  /** Only entering an offer adds to what was offered. */
  lemma OffersGrow(cfg: Config, l: Loop, step: Label)
    requires Legal(cfg, l, step) && !step.DrainAsked?
    ensures var next := LoopStep(l, step);
      next.offered == if next.phase.Offering? then l.offered + [next.phase.frame] else l.offered
  {
  }

  /** Steps other than a successful offer leave the frames handed over alone. */
  lemma FramesStay(l: Loop, step: Label)
    ensures step != OfferAnswered(FrameTaken) ==> LoopStep(l, step).frames == l.frames
    ensures LoopStep(l, OfferAnswered(FrameTaken)).frames == l.offered
  {
  }

  /** Dropping the producer's wait brings it to rest. */
  lemma DropRests(a: Activity, e: PipeEvent)
    requires !a.misstep && RendezvousRuns.Inv(a.pipe) && Handed(a) && a.pipe.ending.None?
    requires RendezvousRuns.Enabled(a.pipe, e) && (e.DropDemand? || e.DropAbandoned? || e.DropOffer?)
    ensures var b := Do(a, e);
      && b == a.(pipe := RendezvousRuns.Step(a.pipe, e)) && RendezvousRuns.Inv(b.pipe) && Resting(b.pipe) && Handed(b)
  {
    hide RendezvousRuns.Step, RendezvousRuns.Inv, AllTaken, Do;
    DoKeeps(a, e);
    ProducerMoves(a.pipe, e);
  }

  lemma ConsumerKeeps(cfg: Config, mode: BodyMode, a: Activity, e: PipeEvent)
    requires Inv(cfg, mode, a) && Enabled(cfg, a, Consumer(e))
    ensures Inv(cfg, mode, Step(cfg, a, Consumer(e)))
  {
    hide RendezvousRuns.Step, RendezvousRuns.Inv, RendezvousRuns.Enabled, Do, AllTaken, LoopInv;
    DoKeeps(a, e);
    ConsumerLeavesProducer(a.pipe, e);
  }

  lemma AskKeeps(cfg: Config, mode: BodyMode, a: Activity, max: nat, allowance: nat)
    requires Inv(cfg, mode, a) && Enabled(cfg, a, AskDrain(max, allowance))
    ensures Inv(cfg, mode, Step(cfg, a, AskDrain(max, allowance)))
  {
    hide RendezvousRuns.Inv, LoopInv, AllTaken;
    LoopKeeps(cfg, mode, a.loop, DrainAsked(max, allowance));
  }

  lemma DemandKeeps(cfg: Config, mode: BodyMode, a: Activity, w: Waker)
    requires Inv(cfg, mode, a) && !a.gone && a.loop.phase.Demanding?
    ensures Inv(cfg, mode, Step(cfg, a, PollDemand(w)))
  {
    hide RendezvousRuns.Step, RendezvousRuns.Inv, LoopInv, LoopStep, AllTaken, Do, Advance, Rendezvous.DemandPoll;
    DoKeeps(a, RendezvousRuns.PollDemand(w));
    ProducerMoves(a.pipe, RendezvousRuns.PollDemand(w));
    var polled := Do(a, RendezvousRuns.PollDemand(w));
    var r := Rendezvous.DemandPoll(a.pipe.shared, w).result;
    if r.Ready? {
      var step := DemandAnswered(if r.value.Ok? then Wanted else ConsumerGone);
      DropRests(polled, RendezvousRuns.DropDemand);
      FramesStay(a.loop, step);
      AdvanceKeeps(cfg, mode, Do(polled, RendezvousRuns.DropDemand), step);
    }
  }

  /** A cancelled wait is dropped and the loop told so. */
  lemma CancelKeeps(cfg: Config, mode: BodyMode, a: Activity, e: Event)
    requires Inv(cfg, mode, a) && Enabled(cfg, a, e) && (e.CancelDemand? || e.CancelOffer?)
    ensures Inv(cfg, mode, Step(cfg, a, e))
  {
    hide RendezvousRuns.Step, RendezvousRuns.Inv, LoopInv, LoopStep, AllTaken, Do, Advance;
    var drop: PipeEvent := if e.CancelDemand? then RendezvousRuns.DropDemand else RendezvousRuns.DropOffer;
    var step := if e.CancelDemand? then DemandAnswered(DemandCanceled) else OfferAnswered(OfferCanceled);
    DropRests(a, drop);
    FramesStay(a.loop, step);
    AdvanceKeeps(cfg, mode, Do(a, drop), step);
  }

  /** Steps that need nothing of the rendezvous first. */
  lemma InternalKeeps(cfg: Config, mode: BodyMode, a: Activity, e: Event)
    requires Inv(cfg, mode, a) && Enabled(cfg, a, e) && (e.Begin? || e.Decode?)
    ensures Inv(cfg, mode, Step(cfg, a, e))
  {
    hide RendezvousRuns.Step, RendezvousRuns.Inv, LoopInv, LoopStep, AllTaken, Do, Advance, Decodes;
    var step := if e.Begin? then TopOfLoop else DecodeAnswered(e.decoder, e.r);
    FramesStay(a.loop, step);
    AdvanceKeeps(cfg, mode, a, step);
  }

  lemma AwaitKeeps(cfg: Config, mode: BodyMode, a: Activity, e: Event)
    requires Inv(cfg, mode, a) && Enabled(cfg, a, e) && e.PollAbandoned?
    ensures Inv(cfg, mode, Step(cfg, a, e))
  {
    hide RendezvousRuns.Step, RendezvousRuns.Inv, LoopInv, AllTaken, Do;
    DoKeeps(a, RendezvousRuns.PollAbandoned(e.w));
    ProducerMoves(a.pipe, RendezvousRuns.PollAbandoned(e.w));
  }

  lemma ReadEndsKeeps(cfg: Config, mode: BodyMode, a: Activity, e: Event)
    requires Inv(cfg, mode, a) && Enabled(cfg, a, e) && e.ReadEnds?
    ensures Inv(cfg, mode, Step(cfg, a, e))
  {
    hide RendezvousRuns.Step, RendezvousRuns.Inv, LoopInv, LoopStep, AllTaken, Do, Advance;
    DropRests(a, RendezvousRuns.DropAbandoned);
    var dropped := Do(a, RendezvousRuns.DropAbandoned);
    var step := ReadAnswered(e.got, e.status, dropped.pipe.shared.cell.Abandoned?);
    FramesStay(a.loop, step);
    AdvanceKeeps(cfg, mode, dropped, step);
  }

  lemma OfferKeeps(cfg: Config, mode: BodyMode, a: Activity, w: Waker)
    requires Inv(cfg, mode, a) && !a.gone && a.loop.phase.Offering?
    ensures Inv(cfg, mode, Step(cfg, a, PollOffer(w)))
  {
    hide RendezvousRuns.Step, RendezvousRuns.Inv, LoopInv, LoopStep, AllTaken, Do, Advance, OfferResult;
    DoKeeps(a, RendezvousRuns.PollOffer(w));
    ProducerMoves(a.pipe, RendezvousRuns.PollOffer(w));
    var polled := Do(a, RendezvousRuns.PollOffer(w));
    var answer := OfferResult(a.pipe, w);
    if answer.Ready? {
      var step := OfferAnswered(OfferTold(answer.value));
      DropRests(polled, RendezvousRuns.DropOffer);
      FramesStay(a.loop, step);
      if answer.value.Ok? { OkMeansTaken(cfg, mode, a, w); }
      AdvanceKeeps(cfg, mode, Do(polled, RendezvousRuns.DropOffer), step);
    }
  }

  /** An offer that resolves with success leaves its frame with the fate taken. */
  lemma OkMeansTaken(cfg: Config, mode: BodyMode, a: Activity, w: Waker)
    requires Inv(cfg, mode, a) && !a.gone && a.loop.phase.Offering?
    requires OfferResult(a.pipe, w).Ready? && OfferResult(a.pipe, w).value.Ok?
    ensures AllTaken(Do(Do(a, RendezvousRuns.PollOffer(w)), RendezvousRuns.DropOffer).pipe.fates, |a.loop.offered|)
  {
    hide RendezvousRuns.Step, RendezvousRuns.Pick, RendezvousRuns.NoLostWakeup, RendezvousRuns.Ended, Faithful, Between, Suffix,
         WholeBody, RefusedBody;
    RendezvousRuns.OfferFate(a.pipe, w);
    RendezvousRuns.StepKeeps(a.pipe, RendezvousRuns.PollOffer(w));
    RendezvousRuns.FatesStay(a.pipe, RendezvousRuns.PollOffer(w));
    ProducerMoves(a.pipe, RendezvousRuns.PollOffer(w));
    RendezvousRuns.FatesStay(RendezvousRuns.Step(a.pipe, RendezvousRuns.PollOffer(w)), RendezvousRuns.DropOffer);
  }

  lemma DropKeeps(cfg: Config, mode: BodyMode, a: Activity)
    requires Inv(cfg, mode, a) && !a.gone && !a.loop.phase.Over?
    ensures Inv(cfg, mode, Step(cfg, a, DropLoop))
  {
    hide RendezvousRuns.Step, RendezvousRuns.Inv, LoopInv, AllTaken, Do;
    var drop := DropOf(a.loop.phase);
    if drop.Some? { DropRests(a, drop.value); }
    var free := if drop.Some? then Do(a, drop.value) else a;
    DoKeeps(free, RendezvousRuns.End(RendezvousRuns.ByDrop));
    ProducerMoves(free.pipe, RendezvousRuns.End(RendezvousRuns.ByDrop));
  }

  lemma StepKeeps(cfg: Config, mode: BodyMode, a: Activity, e: Event)
    requires Inv(cfg, mode, a) && Enabled(cfg, a, e)
    ensures Inv(cfg, mode, Step(cfg, a, e))
  {
    hide Inv, Step, Legal, RendezvousRuns.Enabled;
    match e
    case Consumer(c) => ConsumerKeeps(cfg, mode, a, c);
    case Begin => InternalKeeps(cfg, mode, a, e);
    case PollDemand(w) => DemandKeeps(cfg, mode, a, w);
    case CancelDemand => CancelKeeps(cfg, mode, a, e);
    case AskDrain(max, allowance) => AskKeeps(cfg, mode, a, max, allowance);
    case Decode(_, _) => InternalKeeps(cfg, mode, a, e);
    case PollAbandoned(_) => AwaitKeeps(cfg, mode, a, e);
    case ReadEnds(_, _) => ReadEndsKeeps(cfg, mode, a, e);
    case PollOffer(w) => OfferKeeps(cfg, mode, a, w);
    case CancelOffer => CancelKeeps(cfg, mode, a, e);
    case DropLoop => DropKeeps(cfg, mode, a);
  }

  lemma {:induction false} EveryRun(cfg: Config, mode: BodyMode, a: Activity, events: seq<Event>)
    requires Inv(cfg, mode, a) && Allowed(cfg, a, events)
    ensures Inv(cfg, mode, RunFrom(cfg, a, events))
    decreases |events|
  {
    hide Inv, Step, Enabled;
    if events != [] {
      StepKeeps(cfg, mode, a, events[0]);
      EveryRun(cfg, mode, Step(cfg, a, events[0]), events[1..]);
    }
  }

  lemma InitialInv(cfg: Config, mode: BodyMode, buffered: Bytes)
    ensures Inv(cfg, mode, Start(mode, buffered))
  {
    hide LoopInv;
    StartInv(cfg, mode, buffered);
  }

  /** End-to-end receive safety over every run of the loop, its decoder and its rendezvous, with the
      application polling, dropping and abandoning as it likes. The frames taken are the beginning of
      what the wire means, whatever arrives later, and each is passed on. The first terminal result
      is a clean end exactly when the loop closed its producer, and then the framing was complete,
      exactly the frames of the whole body were delivered in order, what is left in the buffer is
      what follows the body, and for a declared length that many bytes were delivered. No event of
      the loop is one that ownership of the producer would forbid. */
  lemma CleanEndIsComplete(cfg: Config, mode: BodyMode, buffered: Bytes, events: seq<Event>)
    requires IncomingBody.NeedsEndpoint(mode) && Allowed(cfg, Start(mode, buffered), events)
    ensures var a := RunFrom(cfg, Start(mode, buffered), events);
      var m, s := a.pipe, a.loop.driver;
      var b := IncomingBody.ObserveAll(IncomingBody.NewBody(mode), m.taken);
      && !a.misstep && !m.panicked
      && Faithful(cfg, mode, s.arrived, m.taken)
      && b.Some? && b.value.open
      && (m.firstEnd.Some? ==>
            var r := IncomingBody.Next(b.value, m.firstEnd.value).1;
            && (r == Ok(None) <==> a.loop.phase == Over(BodyComplete))
            && (r == Ok(None) ==>
                  && WholeBody(cfg, mode, s.arrived, s.eof, m.taken, s.buffer, s.decoder.extensionBytes)
                  && (mode.FixedLength? ==> |PayloadOf(m.taken)| == mode.length))
            && !(r.Ok? && r.value.Some?))
  {
    hide Step, Enabled, Faithful, WholeBody, RefusedBody, Between, Suffix, PayloadOf, RendezvousRuns.Located,
         RendezvousRuns.NoLostWakeup, RendezvousRuns.Pick, IncomingBody.Observe;
    InitialInv(cfg, mode, buffered);
    EveryRun(cfg, mode, Start(mode, buffered), events);
    var a := RunFrom(cfg, Start(mode, buffered), events);
    var m, s := a.pipe, a.loop.driver;
    IncomingBody.TakenPrefix(m.offers, m.fates, |a.loop.frames|);
    assert m.taken == m.offers[..|m.taken|] && a.loop.frames == m.offers[..|a.loop.frames|];
    IncomingBody.FaithfulPrefix(cfg, mode, s.arrived, m.offers, |m.taken|);
    IncomingBody.FaithfulFits(cfg, mode, s.arrived, m.taken);
    IncomingBody.FittingFramesPass(mode, m.taken);
    if a.loop.phase == Over(BodyComplete) && mode.FixedLength? {
      IncomingBody.WholeLength(cfg, mode, s.arrived, s.eof, m.offers, s.buffer, s.decoder.extensionBytes);
    }
  }

  /** The error side: a body reported as malformed is one that end of file cut short, or one that no
      further input could have completed, and all its payload up to the fault was taken. */
  lemma RefusalsAreJustified(cfg: Config, mode: BodyMode, buffered: Bytes, events: seq<Event>, error: DecodeError)
    requires Allowed(cfg, Start(mode, buffered), events)
    requires RunFrom(cfg, Start(mode, buffered), events).pipe.ending == Some(RendezvousRuns.ByFail(BadBody(error)))
    ensures var a := RunFrom(cfg, Start(mode, buffered), events);
      RefusedBody(cfg, mode, a.loop.driver.arrived, a.loop.driver.eof, a.pipe.taken, error)
  {
    hide Step, Enabled, Faithful, WholeBody, RefusedBody, Between, Suffix, RendezvousRuns.Located,
         RendezvousRuns.NoLostWakeup, RendezvousRuns.Pick;
    InitialInv(cfg, mode, buffered);
    EveryRun(cfg, mode, Start(mode, buffered), events);
    var a := RunFrom(cfg, Start(mode, buffered), events);
    IncomingBody.TakenPrefix(a.pipe.offers, a.pipe.fates, |a.loop.frames|);
    assert a.loop.frames == a.pipe.offers[..|a.loop.frames|];
  }

  // ---- why the loop goes on and why it ends -----------------------------------------

  lemma ProducerLeavesConsumer(m: Pipe, e: PipeEvent)
    requires RendezvousRuns.Enabled(m, e) && !IsConsumers(e)
    ensures var m' := RendezvousRuns.Step(m, e); m'.consumerDropped == m.consumerDropped
  {
    hide RendezvousRuns.Wake, RendezvousRuns.SetLast;
    WakingChangesNoFuture();
  }

  lemma DoLeavesConsumer(a: Activity, e: PipeEvent)
    requires !IsConsumers(e)
    ensures Do(a, e).pipe.consumerDropped == a.pipe.consumerDropped
  {
    hide RendezvousRuns.Step, RendezvousRuns.Enabled;
    if RendezvousRuns.Enabled(a.pipe, e) { ProducerLeavesConsumer(a.pipe, e); }
  }

  lemma AdvanceLeavesConsumer(a: Activity, step: Label)
    ensures Advance(a, step).pipe.consumerDropped == a.pipe.consumerDropped
  {
    hide RendezvousRuns.Step, RendezvousRuns.Enabled, LoopStep, Do;
    var next := a.(loop := LoopStep(a.loop, step));
    forall e: PipeEvent | !IsConsumers(e) ensures Do(next, e).pipe.consumerDropped == next.pipe.consumerDropped {
      DoLeavesConsumer(next, e);
    }
  }

  /** Where each wait of the loop leads, by what the application has done: a demand goes on exactly
      when the application asked, an offer exactly when the frame was taken, and either ends the body as
      abandoned exactly when the application let go of it. */
  predicate WaitsLead(a: Activity, e: Event, next: LoopPhase)
  {
    var p := a.pipe;
    match e
    case PollDemand(_) =>
      next == if p.consumerDropped then Over(BodyAbandoned) else if p.asked then Deciding else Demanding
    case PollOffer(_) =>
      && |p.fates| > 0
      && next == if p.fates[|p.fates| - 1] == RendezvousRuns.Taken then AtTop
                 else if p.consumerDropped then Over(BodyAbandoned) else a.loop.phase
    case ReadEnds(_, status) =>
      next == if p.consumerDropped then Over(BodyAbandoned)
              else if status.Err? then Over(BodyFailed(Reading(status.error))) else AtTop
    case _ => true
  }

  lemma DemandLeads(cfg: Config, mode: BodyMode, a: Activity, w: Waker)
    requires Inv(cfg, mode, a) && Enabled(cfg, a, PollDemand(w))
    ensures WaitsLead(a, PollDemand(w), Step(cfg, a, PollDemand(w)).loop.phase)
  {
    hide RendezvousRuns.Step, RendezvousRuns.Inv, LoopInv, AllTaken, Do, Advance, Rendezvous.DemandPoll;
    RendezvousRuns.DemandTellsWhatWasAsked(a.pipe, w);
    DoLeavesLoop(a, RendezvousRuns.PollDemand(w));
    var polled := Do(a, RendezvousRuns.PollDemand(w));
    DoLeavesLoop(polled, RendezvousRuns.DropDemand);
    AdvanceMoves(Do(polled, RendezvousRuns.DropDemand), DemandAnswered(Wanted));
    AdvanceMoves(Do(polled, RendezvousRuns.DropDemand), DemandAnswered(ConsumerGone));
  }

  lemma OfferLeads(cfg: Config, mode: BodyMode, a: Activity, w: Waker)
    requires Inv(cfg, mode, a) && Enabled(cfg, a, PollOffer(w))
    ensures WaitsLead(a, PollOffer(w), Step(cfg, a, PollOffer(w)).loop.phase)
  {
    hide RendezvousRuns.Step, LoopInv, AllTaken, Do, Advance, OfferResult;
    OfferTells(a.pipe, w);
    DoLeavesLoop(a, RendezvousRuns.PollOffer(w));
    var polled := Do(a, RendezvousRuns.PollOffer(w));
    DoLeavesLoop(polled, RendezvousRuns.DropOffer);
    AdvanceMoves(Do(polled, RendezvousRuns.DropOffer), OfferAnswered(FrameTaken));
    AdvanceMoves(Do(polled, RendezvousRuns.DropOffer), OfferAnswered(FrameAbandoned));
  }

  lemma OfferTells(m: Pipe, w: Waker)
    requires RendezvousRuns.Inv(m) && RendezvousRuns.Enabled(m, RendezvousRuns.PollOffer(w))
    ensures |m.offers| == |m.fates| > 0
    ensures OfferResult(m, w)
         == if m.fates[|m.fates| - 1] == RendezvousRuns.Taken then Ready(Ok(()))
            else if m.consumerDropped then Ready(Err(Rendezvous.OfferAbandoned(m.offers[|m.offers| - 1]))) else Pending
  {
    hide RendezvousRuns.Pick, RendezvousRuns.NoLostWakeup, RendezvousRuns.Ended, RendezvousRuns.Conserved,
         Rendezvous.OfferSubmit, Rendezvous.OfferWait;
    RendezvousRuns.OfferFate(m, w);
  }

  lemma ReadLeads(cfg: Config, mode: BodyMode, a: Activity, e: Event)
    requires Inv(cfg, mode, a) && Enabled(cfg, a, e) && e.ReadEnds?
    ensures WaitsLead(a, e, Step(cfg, a, e).loop.phase)
  {
    hide RendezvousRuns.Step, RendezvousRuns.Inv, LoopInv, AllTaken, Do, Advance;
    DropRests(a, RendezvousRuns.DropAbandoned);
    DoLeavesConsumer(a, RendezvousRuns.DropAbandoned);
    var dropped := Do(a, RendezvousRuns.DropAbandoned);
    AbandonedMeansDropped(dropped.pipe);
    AdvanceMoves(dropped, ReadAnswered(e.got, e.status, dropped.pipe.shared.cell.Abandoned?));
  }

  lemma AbandonedMeansDropped(m: Pipe)
    requires RendezvousRuns.Inv(m) && m.ending.None?
    ensures m.shared.cell.Abandoned? <==> m.consumerDropped
  {
    hide RendezvousRuns.Pick, RendezvousRuns.NoLostWakeup, RendezvousRuns.Located, RendezvousRuns.Conserved;
  }

  /** Over every run: each wait leads where the application's conduct says. */
  lemma EveryWaitLeads(cfg: Config, mode: BodyMode, buffered: Bytes, events: seq<Event>, e: Event)
    requires Allowed(cfg, Start(mode, buffered), events)
    requires Enabled(cfg, RunFrom(cfg, Start(mode, buffered), events), e)
    ensures var a := RunFrom(cfg, Start(mode, buffered), events);
      WaitsLead(a, e, Step(cfg, a, e).loop.phase)
  {
    hide Step, Enabled, Inv, Allowed, RunFrom;
    InitialInv(cfg, mode, buffered);
    EveryRun(cfg, mode, Start(mode, buffered), events);
    var a := RunFrom(cfg, Start(mode, buffered), events);
    match e
    case PollDemand(w) => DemandLeads(cfg, mode, a, w);
    case PollOffer(w) => OfferLeads(cfg, mode, a, w);
    case ReadEnds(_, _) => ReadLeads(cfg, mode, a, e);
    case _ =>
  }

  /** Some event of the past was a cancelled wait. */
  predicate Canceling(past: seq<Event>) { exists i :: 0 <= i < |past| && (past[i].CancelDemand? || past[i].CancelOffer?) }

  predicate ReadFailing(past: seq<Event>, cause: RecvBuffer.RecvError)
  {
    exists i :: 0 <= i < |past| && past[i].ReadEnds? && past[i].status == Err(cause)
  }

  predicate Draining(past: seq<Event>) { exists i :: 0 <= i < |past| && past[i].AskDrain? }

  /** Every end has its cause in the past; that the handoff was closed is never one. */
  predicate Justified(a: Activity, past: seq<Event>)
  {
    && (a.loop.budget.Some? ==> Draining(past))
    && match a.loop.phase
       case Over(BodyAbandoned) => a.pipe.consumerDropped
       case Over(BodyFailed(Canceled)) => Canceling(past)
       case Over(BodyFailed(Reading(cause))) => ReadFailing(past, cause)
       case Over(BodyFailed(OverBudget(_))) => Draining(past)
       case Over(BodyFailed(ClosedHandoff)) => false
       case _ => true
  }

  lemma PastGrows(past: seq<Event>, e: Event)
    ensures Canceling(past) ==> Canceling(past + [e])
    ensures Draining(past) ==> Draining(past + [e])
    ensures forall cause :: ReadFailing(past, cause) ==> ReadFailing(past + [e], cause)
    ensures e.CancelDemand? || e.CancelOffer? ==> Canceling(past + [e])
    ensures e.AskDrain? ==> Draining(past + [e])
    ensures e.ReadEnds? && e.status.Err? ==> ReadFailing(past + [e], e.status.error)
  {
    var now := past + [e];
    assert now[|past|] == e;
    assert forall i :: 0 <= i < |past| ==> now[i] == past[i];
  }

  lemma ConsumerStaysDropped(m: Pipe, e: PipeEvent)
    requires RendezvousRuns.Enabled(m, e)
    ensures m.consumerDropped ==> RendezvousRuns.Step(m, e).consumerDropped
  {
    hide RendezvousRuns.Wake, RendezvousRuns.SetLast;
    WakingChangesNoFuture();
  }

  /** Only an asked drain gives the loop a budget, and only a budget can be exceeded. */
  lemma BudgetsAreAsked(l: Loop, step: Label)
    ensures !step.DrainAsked? && l.budget.None? ==> LoopStep(l, step).budget.None?
    ensures step.DecodeAnswered? && LoopStep(l, step).phase.Over? && l.budget.None? ==>
      LoopStep(l, step).phase.end.BodyComplete?
      || (LoopStep(l, step).phase.end.BodyFailed? && LoopStep(l, step).phase.end.why.BadBody?)
    ensures step.DecodeAnswered? && LoopStep(l, step).phase.Over? ==>
      LoopStep(l, step).phase.end.BodyComplete?
      || (LoopStep(l, step).phase.end.BodyFailed? && (LoopStep(l, step).phase.end.why.BadBody? || LoopStep(l, step).phase.end.why.OverBudget?))
  {
    hide DecodeRuns.Record, FrameOf;
  }

  lemma LoopOverIsSilent(cfg: Config, mode: BodyMode, a: Activity, e: Event)
    requires Inv(cfg, mode, a) && Enabled(cfg, a, e) && (e.Consumer? || e.AskDrain? || e.PollAbandoned? || e.DropLoop?)
    ensures var b := Step(cfg, a, e);
      && b.loop.phase == a.loop.phase && (a.pipe.consumerDropped ==> b.pipe.consumerDropped)
      && (!e.AskDrain? ==> b.loop.budget == a.loop.budget)
  {
    hide RendezvousRuns.Step, RendezvousRuns.Enabled, RendezvousRuns.Inv, LoopInv, AllTaken, Decodes;
    if e.Consumer? { ConsumerStaysDropped(a.pipe, e.e); }
    forall b: Activity, c: PipeEvent ensures Do(b, c).loop == b.loop { DoLeavesLoop(b, c); }
    forall b: Activity, c: PipeEvent | !IsConsumers(c) ensures Do(b, c).pipe.consumerDropped == b.pipe.consumerDropped {
      DoLeavesConsumer(b, c);
    }
  }

  lemma StepIsJustified(cfg: Config, mode: BodyMode, a: Activity, past: seq<Event>, e: Event)
    requires Inv(cfg, mode, a) && Enabled(cfg, a, e) && Justified(a, past)
    ensures Justified(Step(cfg, a, e), past + [e])
  {
    hide Canceling, Draining, ReadFailing, Inv, Enabled, LoopStep;
    PastGrows(past, e);
    match e
    case Consumer(_) => LoopOverIsSilent(cfg, mode, a, e);
    case AskDrain(_, _) => LoopOverIsSilent(cfg, mode, a, e);
    case PollAbandoned(_) => LoopOverIsSilent(cfg, mode, a, e);
    case DropLoop => LoopOverIsSilent(cfg, mode, a, e);
    case PollDemand(_) => WaitingIsJustified(cfg, mode, a, past, e);
    case PollOffer(_) => WaitingIsJustified(cfg, mode, a, past, e);
    case ReadEnds(_, _) => WaitingIsJustified(cfg, mode, a, past, e);
    case _ => ActingIsJustified(cfg, mode, a, past, e);
  }

  /** What steps and events on the rendezvous leave alone. */
  lemma LeftAlone(a: Activity)
    ensures forall b: Activity, step: Label ::
      Advance(b, step).loop == LoopStep(b.loop, step) && Advance(b, step).pipe.consumerDropped == b.pipe.consumerDropped
    ensures forall b: Activity, c: PipeEvent :: Do(b, c).loop == b.loop
    ensures forall b: Activity, c: PipeEvent :: !IsConsumers(c) ==> Do(b, c).pipe.consumerDropped == b.pipe.consumerDropped
  {
    hide Advance, Do, LoopStep;
    forall b: Activity, step: Label
      ensures Advance(b, step).loop == LoopStep(b.loop, step) && Advance(b, step).pipe.consumerDropped == b.pipe.consumerDropped
    {
      AdvanceMoves(b, step);
      AdvanceLeavesConsumer(b, step);
    }
    forall b: Activity, c: PipeEvent ensures Do(b, c).loop == b.loop { DoLeavesLoop(b, c); }
    forall b: Activity, c: PipeEvent | !IsConsumers(c) ensures Do(b, c).pipe.consumerDropped == b.pipe.consumerDropped {
      DoLeavesConsumer(b, c);
    }
  }

  /** Waits that are answered by the application or the transport. */
  lemma WaitingIsJustified(cfg: Config, mode: BodyMode, a: Activity, past: seq<Event>, e: Event)
    requires Inv(cfg, mode, a) && Enabled(cfg, a, e) && Justified(a, past) && (e.PollDemand? || e.ReadEnds? || e.PollOffer?)
    ensures Justified(Step(cfg, a, e), past + [e])
  {
    hide Canceling, Draining, ReadFailing, RendezvousRuns.Step, RendezvousRuns.Enabled, RendezvousRuns.Inv, LoopInv,
         AllTaken, Do, Advance, OfferResult, Rendezvous.DemandPoll, DecodeStep;
    PastGrows(past, e);
    LeftAlone(a);
    match e
    case PollDemand(w) => DemandLeads(cfg, mode, a, w);
    case PollOffer(w) => OfferLeads(cfg, mode, a, w);
    case ReadEnds(_, _) => ReadLeads(cfg, mode, a, e);
  }

  /** The loop's own steps, and waits that are cancelled. */
  lemma ActingIsJustified(cfg: Config, mode: BodyMode, a: Activity, past: seq<Event>, e: Event)
    requires Inv(cfg, mode, a) && Enabled(cfg, a, e) && Justified(a, past)
    requires e.Begin? || e.CancelDemand? || e.Decode? || e.CancelOffer?
    ensures Justified(Step(cfg, a, e), past + [e])
  {
    hide Canceling, Draining, ReadFailing, RendezvousRuns.Step, RendezvousRuns.Enabled, RendezvousRuns.Inv, LoopInv,
         AllTaken, Decodes, Do, Advance, DecodeStep;
    PastGrows(past, e);
    LeftAlone(a);
    if e.Decode? { BudgetsAreAsked(a.loop, DecodeAnswered(e.decoder, e.r)); }
  }

  lemma {:induction false} RunIsJustified(cfg: Config, mode: BodyMode, a: Activity, past: seq<Event>, events: seq<Event>)
    requires Inv(cfg, mode, a) && Allowed(cfg, a, events) && Justified(a, past)
    ensures Justified(RunFrom(cfg, a, events), past + events)
    decreases |events|
  {
    hide Inv, Step, Enabled, Justified;
    if events == [] {
      assert past + events == past;
    } else {
      StepKeeps(cfg, mode, a, events[0]);
      StepIsJustified(cfg, mode, a, past, events[0]);
      RunIsJustified(cfg, mode, Step(cfg, a, events[0]), past + [events[0]], events[1..]);
      assert past + [events[0]] + events[1..] == past + events;
    }
  }

  /** Over every run: the loop gives a body up as abandoned only if the application let go of it, as
      cancelled only if a wait was cancelled, with a read error only if a read failed with it, and
      over budget only if a drain was asked for; it never finds the handoff closed. */
  lemma EndsHaveCauses(cfg: Config, mode: BodyMode, buffered: Bytes, events: seq<Event>)
    requires Allowed(cfg, Start(mode, buffered), events)
    ensures Justified(RunFrom(cfg, Start(mode, buffered), events), events)
  {
    hide Inv, Step, Enabled;
    InitialInv(cfg, mode, buffered);
    RunIsJustified(cfg, mode, Start(mode, buffered), [], events);
    assert [] + events == events;
  }

  // ---- drains -----------------------------------------------------------------------

  /** What an event does to the loop: a step other than a request for a drain, such a request, or
      nothing. */
  ghost predicate LoopMoves(cfg: Config, a: Activity, e: Event, b: Activity)
  {
    || b.loop == a.loop
    || (exists step: Label :: !step.DrainAsked? && Legal(cfg, a.loop, step) && b.loop == LoopStep(a.loop, step))
    || (e.AskDrain? && b.loop == LoopStep(a.loop, DrainAsked(e.max, e.allowance)))
  }

  lemma DoLeavesLoop(a: Activity, e: PipeEvent)
    ensures Do(a, e).loop == a.loop
  {
  }

  lemma AdvanceMoves(a: Activity, step: Label)
    ensures Advance(a, step).loop == LoopStep(a.loop, step)
  {
    hide LoopStep, RendezvousRuns.Step, RendezvousRuns.Enabled;
  }

  lemma EveryEventMoves(cfg: Config, a: Activity, e: Event)
    requires Enabled(cfg, a, e)
    ensures LoopMoves(cfg, a, e, Step(cfg, a, e))
  {
    hide LoopStep, Do, Advance, RendezvousRuns.Enabled, Decodes, OfferResult, Rendezvous.DemandPoll;
    forall step: Label, b: Activity ensures Advance(b, step).loop == LoopStep(b.loop, step) { AdvanceMoves(b, step); }
    forall b: Activity, c: PipeEvent ensures Do(b, c).loop == b.loop { DoLeavesLoop(b, c); }
    match e
    case Begin => assert Legal(cfg, a.loop, TopOfLoop);
    case PollDemand(w) =>
      assert forall demand :: Legal(cfg, a.loop, DemandAnswered(demand));
    case CancelDemand => assert Legal(cfg, a.loop, DemandAnswered(DemandCanceled));
    case Decode(d, r) => assert Legal(cfg, a.loop, DecodeAnswered(d, r));
    case ReadEnds(got, status) =>
      assert forall abandoned :: Legal(cfg, a.loop, ReadAnswered(got, status, abandoned));
    case PollOffer(w) =>
      assert forall offer :: Legal(cfg, a.loop, OfferAnswered(offer));
    case CancelOffer => assert Legal(cfg, a.loop, OfferAnswered(OfferCanceled));
    case _ =>
  }

  lemma {:induction false} ChargesGoOn(cfg: Config, max: nat, allowance: nat, at: Loop, a: Activity, events: seq<Event>)
    requires ChargedSince(max, allowance, at, a.loop) && Allowed(cfg, a, events)
    requires forall i :: 0 <= i < |events| ==> !events[i].AskDrain?
    ensures ChargedSince(max, allowance, at, RunFrom(cfg, a, events).loop)
    decreases |events|
  {
    hide Step, Enabled, LoopStep, Legal, ChargedSince;
    if events != [] {
      var b := Step(cfg, a, events[0]);
      EveryEventMoves(cfg, a, events[0]);
      if b.loop != a.loop {
        var step: Label :| !step.DrainAsked? && Legal(cfg, a.loop, step) && b.loop == LoopStep(a.loop, step);
        ChargedOnce(cfg, max, allowance, at, a.loop, step);
      }
      ChargesGoOn(cfg, max, allowance, at, b, events[1..]);
    }
  }

  /** The drain bound over every run, whatever the application and the transport do: after a request,
      and until the next one, the wire bytes consumed stay within the limit plus the allowance,
      saturating, the payload newly decoded stays within the limit, and each byte is charged once. */
  lemma DrainBounds(cfg: Config, mode: BodyMode, buffered: Bytes, before: seq<Event>, max: nat, allowance: nat, after: seq<Event>)
    requires Allowed(cfg, Start(mode, buffered), before)
    requires Enabled(cfg, RunFrom(cfg, Start(mode, buffered), before), AskDrain(max, allowance))
    requires Allowed(cfg, Step(cfg, RunFrom(cfg, Start(mode, buffered), before), AskDrain(max, allowance)), after)
    requires forall i :: 0 <= i < |after| ==> !after[i].AskDrain?
    ensures var at := RunFrom(cfg, Start(mode, buffered), before);
      var l := RunFrom(cfg, Step(cfg, at, AskDrain(max, allowance)), after).loop;
      && ChargedSince(max, allowance, at.loop, l)
      && l.consumed - at.loop.consumed <= SaturatingAdd(max, allowance)
      && |PayloadOf(l.offered)| - |PayloadOf(at.loop.offered)| <= max
  {
    hide PayloadOf, Allowed, RunFrom;
    var at := RunFrom(cfg, Start(mode, buffered), before);
    AskedNow(at.loop, max, allowance);
    ChargesGoOn(cfg, max, allowance, at.loop, Step(cfg, at, AskDrain(max, allowance)), after);
  }
}
