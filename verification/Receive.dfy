/** Receiving one body: the driver loop that decodes and hands over frames, the application's
    view of them, and the drain budgets. */
module Receiving {
  import opened Prelude
  import opened ChunkGrammar
  import opened Decoding
  import opened DecodeRuns
  import opened Encoding
  import RecvBuffer

  datatype Frame = DataFrame(data: Bytes) | TrailersFrame(trailers: HeaderMap)

  /** The payload of a sequence of frames. */
  function PayloadOf(frames: seq<Frame>): Bytes
  {
    if frames == [] then []
    else
      var last := frames[|frames| - 1];
      PayloadOf(frames[..|frames| - 1]) + (if last.DataFrame? then last.data else [])
  }

  function TrailersIn(frames: seq<Frame>): Option<HeaderMap>
  {
    if frames != [] && frames[|frames| - 1].TrailersFrame? then Some(frames[|frames| - 1].trailers) else None
  }

  /** Non-empty data frames, and trailers at most once and last. */
  predicate Shaped(frames: seq<Frame>)
  {
    && (forall i :: 0 <= i < |frames| - 1 ==> frames[i].DataFrame?)
    && (forall i :: 0 <= i < |frames| && frames[i].DataFrame? ==> frames[i].data != [])
  }

  lemma DataPush(frames: seq<Frame>, f: Frame)
    ensures PayloadOf(frames + [f]) == PayloadOf(frames) + (if f.DataFrame? then f.data else [])
  {
    assert (frames + [f])[..|frames|] == frames;
  }

  // ---- drain budgets ----------------------------------------------------------------

  datatype DrainLimit = DrainPayload | DrainWire

  datatype Budget = Budget(wire: nat, payload: nat)

  function SaturatingAdd(a: nat, b: nat): nat
  {
    if a + b < U64_LIMIT then a + b else U64_LIMIT - 1
  }

  /** The budget after a charge; payload is looked at first. */
  function Charge(budget: Option<Budget>, bytes: nat, payload: nat): Result<Option<Budget>, DrainLimit>
  {
    match budget
    case None => Ok(None)
    case Some(Budget(wire, data)) =>
      if payload > data then Err(DrainPayload)
      else if bytes > wire then Err(DrainWire)
      else Ok(Some(Budget(wire - bytes, data - payload)))
  }

  class DrainPolicy {
    var remaining: Option<Budget>

    constructor ()
      ensures remaining == None
    {
      remaining := None;
    }

    /** Start accounting: the payload limit, and that limit plus an allowance on the wire. */
    method DrainBudget(bytes: nat, allowance: nat)
      modifies this
      ensures remaining == Some(Budget(SaturatingAdd(bytes, allowance), bytes))
    {
      remaining := Some(Budget(SaturatingAdd(bytes, allowance), bytes));
    }

    /** Charge consumed bytes; a rejected charge changes nothing. */
    method ChargeDrain(bytes: nat, payload: nat) returns (r: Result<(), DrainLimit>)
      modifies this
      ensures r.Ok? <==> old(remaining).None? || (payload <= old(remaining).value.payload && bytes <= old(remaining).value.wire)
      ensures r == Err(DrainPayload) <==> old(remaining).Some? && payload > old(remaining).value.payload
      ensures var c := Charge(old(remaining), bytes, payload);
        if c.Ok? then r.Ok? && remaining == c.value else r == Err(c.error) && remaining == old(remaining)
    {
      if remaining.None? { return Ok(()); }
      var Budget(wire, data) := remaining.value;
      if payload > data { return Err(DrainPayload); }
      if bytes > wire { return Err(DrainWire); }
      remaining := Some(Budget(wire - bytes, data - payload));
      return Ok(());
    }
  }

  // ---- the receive loop -------------------------------------------------------------

  datatype DemandAnswer = Wanted | ConsumerGone | DemandCanceled

  datatype OfferAnswer = FrameTaken | FrameAbandoned | HandoffClosed | OfferCanceled

  /** What the surroundings do during one turn of the loop. */
  datatype Turn = Turn(drain: Option<(nat, nat)>, demand: DemandAnswer, abandoned: bool, offer: OfferAnswer)

  datatype Cause =
    | BadBody(error: DecodeError)
    | OverBudget(limit: DrainLimit)
    | Reading(cause: RecvBuffer.RecvError)
    | Canceled
    | ClosedHandoff

  datatype BodyEnd = BodyComplete | BodyAbandoned | BodyFailed(why: Cause)

  /** The frames handed over are the beginning of what the wire means, whatever arrives later; and
      trailers among them are the trailers of an accepted body. */
  ghost predicate Faithful(cfg: Config, mode: BodyMode, wire: Bytes, frames: seq<Frame>)
  {
    && Shaped(frames)
    && (TrailersIn(frames).Some? ==> mode == ChunkedBody)
    && forall future: Bytes ::
         var v := Meaning(cfg, NewDecoder(mode), wire + future);
         && PayloadOf(frames) <= v.payload
         && (TrailersIn(frames).Some? ==> v.Accept? && v.trailers == TrailersIn(frames) && v.payload == PayloadOf(frames))
  }

  /** The body is refused with cause: it is cut short by end of file, or no continuation of the wire
      is a body; and all payload before the fault was handed over. */
  ghost predicate RefusedBody(cfg: Config, mode: BodyMode, wire: Bytes, eof: bool, frames: seq<Frame>, error: DecodeError)
  {
    && (error == UnexpectedEof ==> eof)
    && forall future: Bytes :: (error == UnexpectedEof ==> future == []) ==>
         Meaning(cfg, NewDecoder(mode), wire + future) == Reject(PayloadOf(frames))
  }

  /** The whole body was handed over, whatever comes after it, and `unread` starts right behind it. */
  ghost predicate WholeBody(cfg: Config, mode: BodyMode, wire: Bytes, eof: bool, frames: seq<Frame>, unread: Bytes, extensions: nat)
  {
    forall future: Bytes :: (eof ==> future == []) ==>
      Meaning(cfg, NewDecoder(mode), wire + future)
      == Accept(PayloadOf(frames), TrailersIn(frames), unread + future, extensions)
  }

  /** Trailers come only out of chunked framing. */
  lemma TrailersNeedChunks(cfg: Config, mode: BodyMode, s: Driver)
    requires Inv(cfg, mode, s) && s.trailers.Some?
    ensures mode == ChunkedBody
  {
    hide ChunkMeaning, Retained;
    assert Meaning(cfg, NewDecoder(mode), s.arrived + []) == Account(s, Meaning(cfg, s.decoder, s.buffer + []));
  }

  lemma HandedOver(cfg: Config, mode: BodyMode, s: Driver, frames: seq<Frame>)
    requires Inv(cfg, mode, s) && !Rejected(s)
    requires Shaped(frames) && PayloadOf(frames) == s.delivered && TrailersIn(frames) == s.trailers
    ensures Faithful(cfg, mode, s.arrived, frames)
  {
    hide Retained, PayloadOf, ChunkMeaning;
    if s.trailers.Some? { TrailersNeedChunks(cfg, mode, s); }
    forall future: Bytes
      ensures var v := Meaning(cfg, NewDecoder(mode), s.arrived + future);
        && PayloadOf(frames) <= v.payload
        && (s.trailers.Some? ==> v.Accept? && v.trailers == s.trailers && v.payload == PayloadOf(frames))
    {
      // A body that ended with the connection is judged by what had arrived.
      var seen := if EndedByEof(mode, s) then [] else future;
      var later := Meaning(cfg, s.decoder, s.buffer + seen);
      assert Meaning(cfg, NewDecoder(mode), s.arrived + seen) == Account(s, later);
      assert s.delivered + [] == s.delivered && s.arrived + [] == s.arrived;
    }
  }

  /** What the loop knows between turns. */
  ghost predicate Between(cfg: Config, mode: BodyMode, s: Driver, frames: seq<Frame>, consumed: nat)
  {
    && Inv(cfg, mode, s) && !Rejected(s)
    && s.delivered == PayloadOf(frames) && s.trailers == TrailersIn(frames) && Shaped(frames)
    && Suffix(s.arrived, consumed, s.buffer)
  }

  /** `rest` is what remains of `wire` after its first `consumed` bytes. */
  predicate Suffix(wire: Bytes, consumed: nat, rest: Bytes)
  {
    consumed <= |wire| && rest == wire[consumed..]
  }

  lemma NothingYet()
    ensures PayloadOf([]) == []
  {
  }

  lemma FirstTurn(cfg: Config, mode: BodyMode, w: Bytes)
    ensures Between(cfg, mode, Driver(NewDecoder(mode), w, false, [], None, w), [], 0)
  {
    hide Inv;
    StartKeeps(cfg, mode);
    assert [] + w == w && w[0..] == w;
    ArriveKeeps(cfg, mode, Start(mode), w, Start(mode).(buffer := w, arrived := w));
  }

  lemma SuffixStep(wire: Bytes, consumed: nat, rest: Bytes, more: nat)
    requires Suffix(wire, consumed, rest) && more <= |rest|
    ensures Suffix(wire, consumed + more, rest[more..])
  {
  }

  lemma SuffixGrow(wire: Bytes, consumed: nat, rest: Bytes, bytes: Bytes)
    requires Suffix(wire, consumed, rest)
    ensures Suffix(wire + bytes, consumed, rest + bytes)
  {
  }

  // ---- the loop as a value ----------------------------------------------------------

  /** Where the loop is: at its top, in one of its waits, between demand and decoding, or returned. */
  datatype LoopPhase =
    | AtTop
    | Demanding
    | Deciding
    | Awaiting
    | Offering(frame: Frame)
    | Over(end: BodyEnd)

  /** The loop's decoder and buffer, the frames whose offers succeeded, all frames offered, the wire
      bytes consumed, and the budget of the drain that was asked for last. */
  datatype Loop = Loop(driver: Driver, phase: LoopPhase, frames: seq<Frame>, offered: seq<Frame>, consumed: nat,
                       budget: Option<Budget>)

  /** One step of the loop, with what its surroundings answered. */
  datatype Label =
    | TopOfLoop
    | DemandAnswered(demand: DemandAnswer)
    | DecodeAnswered(decoder: Decoder, r: Result<Outcome, DecodeError>)
    | ReadAnswered(got: Bytes, status: Result<RecvBuffer.ReadStatus, RecvBuffer.RecvError>, abandoned: bool)
    | OfferAnswered(offer: OfferAnswer)
    | DrainAsked(max: nat, allowance: nat)   // by the application, whatever the loop is doing

  /** The loop starts with whatever the head left in the buffer. */
  function StartLoop(mode: BodyMode, buffered: Bytes): Loop
  {
    Loop(Driver(NewDecoder(mode), buffered, false, [], None, buffered), AtTop, [], [], 0, None)
  }

  function FrameOf(input: Bytes, r: Outcome): Frame
  {
    if r.TrailerBlock? then TrailersFrame(r.trailers)
    else DataFrame(if r.Payload? && r.lo <= r.hi <= |input| then input[r.lo..r.hi] else [])
  }

  function LoopStep(l: Loop, step: Label): Loop
  {
    match step
    case TopOfLoop => l.(phase := if FramingComplete(l.driver.decoder) then Over(BodyComplete) else Demanding)
    case DemandAnswered(demand) =>
      l.(phase := match demand
                  case Wanted => Deciding
                  case ConsumerGone => Over(BodyAbandoned)
                  case DemandCanceled => Over(BodyFailed(Canceled)))
    case DecodeAnswered(d, r) => DecodeStep(l, d, r)
    case ReadAnswered(got, status, abandoned) =>
      var driver := l.driver.(buffer := l.driver.buffer + got, arrived := l.driver.arrived + got);
      if abandoned then l.(driver := driver, phase := Over(BodyAbandoned))
      else if status.Err? then l.(driver := driver, phase := Over(BodyFailed(Reading(status.error))))
      else l.(driver := driver.(eof := driver.eof || status.value.EndOfFile?), phase := AtTop)
    case DrainAsked(max, allowance) => l.(budget := Some(Budget(SaturatingAdd(max, allowance), max)))
    case OfferAnswered(offer) =>
      match offer
      case FrameTaken => l.(frames := l.offered, phase := AtTop)
      case FrameAbandoned => l.(phase := Over(BodyAbandoned))
      case HandoffClosed => l.(phase := Over(BodyFailed(ClosedHandoff)))
      case OfferCanceled => l.(phase := Over(BodyFailed(Canceled)))
  }

  function PayloadSize(r: Outcome): nat
  {
    if r.Payload? && r.lo <= r.hi then r.hi - r.lo else 0
  }

  /** The charge for what an outcome consumes. */
  function ChargeOf(budget: Option<Budget>, r: Outcome): Result<Option<Budget>, DrainLimit>
  {
    Charge(budget, r.consumed, PayloadSize(r))
  }

  /** What was decoded is charged before anything is consumed; over the budget, the loop fails and
      consumes nothing. */
  function DecodeStep(l: Loop, d: Decoder, r: Result<Outcome, DecodeError>): Loop
  {
    var next := l.(driver := Record(l.driver, d, r));
    match r
    case Err(error) => next.(phase := Over(BodyFailed(BadBody(error))))
    case Ok(outcome) =>
      var charge := ChargeOf(l.budget, outcome);
      if charge.Err? then l.(phase := Over(BodyFailed(OverBudget(charge.error))))
      else
        var charged := next.(consumed := l.consumed + outcome.consumed, budget := charge.value);
        match outcome
        case NeedMore(_) => charged.(phase := Awaiting)
        case End(_) => charged.(phase := Over(BodyComplete))
        case _ =>
          var frame := FrameOf(l.driver.buffer, outcome);
          charged.(offered := l.offered + [frame], phase := Offering(frame))
  }

  /** Labels fit the phase, and the decoder answers as its contract says. */
  ghost predicate Legal(cfg: Config, l: Loop, step: Label)
  {
    match step
    case TopOfLoop => l.phase.AtTop?
    case DemandAnswered(_) => l.phase.Demanding?
    case DecodeAnswered(d, r) =>
      l.phase.Deciding? && WellFormed(d) && Decodes(cfg, l.driver.decoder, l.driver.buffer, l.driver.eof, d, r)
    case ReadAnswered(got, status, _) => l.phase.Awaiting? && (status.Ok? && status.value.EndOfFile? ==> got == [])
    case OfferAnswered(_) => l.phase.Offering?
    case DrainAsked(_, _) => true
  }

  function LoopAfter(start: Loop, labels: seq<Label>): Loop
  {
    if labels == [] then start else LoopStep(LoopAfter(start, labels[..|labels| - 1]), labels[|labels| - 1])
  }

  ghost predicate LegalRun(cfg: Config, start: Loop, labels: seq<Label>)
  {
    labels == [] ||
    (var n := |labels| - 1; LegalRun(cfg, start, labels[..n]) && Legal(cfg, LoopAfter(start, labels[..n]), labels[n]))
  }

  /** A run of the loop from its start. */
  ghost predicate LoopRun(cfg: Config, start: Loop, labels: seq<Label>, l: Loop)
  {
    LegalRun(cfg, start, labels) && l == LoopAfter(start, labels)
  }

  lemma RunOn(cfg: Config, start: Loop, labels: seq<Label>, l: Loop, step: Label)
    requires LoopRun(cfg, start, labels, l) && Legal(cfg, l, step)
    ensures LoopRun(cfg, start, labels + [step], LoopStep(l, step))
  {
    assert (labels + [step])[..|labels|] == labels;
  }

  // ---- what a drain bounds ----------------------------------------------------------

  /** Between `at`, when a drain was asked for, and `l`, every consumed byte and every decoded payload
      byte was charged once. */
  predicate ChargedSince(max: nat, allowance: nat, at: Loop, l: Loop)
  {
    && l.budget.Some? && at.consumed <= l.consumed && |PayloadOf(at.offered)| <= |PayloadOf(l.offered)|
    && l.budget.value.wire + (l.consumed - at.consumed) == SaturatingAdd(max, allowance)
    && l.budget.value.payload + (|PayloadOf(l.offered)| - |PayloadOf(at.offered)|) == max
  }

  /** A step other than a new request charges exactly what it consumes and decodes. */
  lemma ChargedOnce(cfg: Config, max: nat, allowance: nat, at: Loop, l: Loop, step: Label)
    requires ChargedSince(max, allowance, at, l) && Legal(cfg, l, step) && !step.DrainAsked?
    ensures ChargedSince(max, allowance, at, LoopStep(l, step))
  {
    hide PayloadOf, KeepsMeaning, Starved, Kept;
    if step.DecodeAnswered? && step.r.Ok? && (step.r.value.Payload? || step.r.value.TrailerBlock?) {
      DataPush(l.offered, FrameOf(l.driver.buffer, step.r.value));
    }
  }

  /** A rejected charge changes nothing but that the loop fails. */
  lemma RejectedChargeChangesNothing(l: Loop, d: Decoder, r: Outcome)
    requires ChargeOf(l.budget, r).Err?
    ensures LoopStep(l, DecodeAnswered(d, Ok(r)))
         == l.(phase := Over(BodyFailed(OverBudget(ChargeOf(l.budget, r).error))))
  {
  }

  /** Over every run of the loop: since the latest request for a drain, the wire bytes consumed are
      within the limit plus the allowance, saturating, the payload newly decoded is within the limit,
      and each byte was charged once. */
  lemma {:induction false} DrainStaysWithin(cfg: Config, start: Loop, labels: seq<Label>, k: nat)
    requires LegalRun(cfg, start, labels) && k < |labels| && labels[k].DrainAsked?
    requires forall j :: k < j < |labels| ==> !labels[j].DrainAsked?
    ensures var at, l := LoopAfter(start, labels[..k]), LoopAfter(start, labels);
      var max, allowance := labels[k].max, labels[k].allowance;
      && ChargedSince(max, allowance, at, l)
      && l.consumed - at.consumed <= SaturatingAdd(max, allowance) <= max + allowance
      && |PayloadOf(l.offered)| - |PayloadOf(at.offered)| <= max
    decreases |labels|
  {
    hide LoopStep, Legal, PayloadOf;
    var n := |labels| - 1;
    if k == n {
      AskedNow(LoopAfter(start, labels[..k]), labels[k].max, labels[k].allowance);
    } else {
      DrainStaysWithin(cfg, start, labels[..n], k);
      assert labels[..n][..k] == labels[..k];
      ChargedOnce(cfg, labels[k].max, labels[k].allowance, LoopAfter(start, labels[..k]), LoopAfter(start, labels[..n]), labels[n]);
    }
  }

  lemma AskedNow(l: Loop, max: nat, allowance: nat)
    ensures ChargedSince(max, allowance, l, LoopStep(l, DrainAsked(max, allowance)))
  {
  }

  /** What holds of the loop after every step. */
  ghost predicate LoopInv(cfg: Config, mode: BodyMode, l: Loop)
  {
    && Faithful(cfg, mode, l.driver.arrived, l.offered)
    && Suffix(l.driver.arrived, l.consumed, l.driver.buffer)
    && l.frames <= l.offered && |l.offered| <= |l.frames| + 1
    && (!l.phase.Over? ==> Between(cfg, mode, l.driver, l.offered, l.consumed))
    && (match l.phase
        case AtTop => l.offered == l.frames
        case Demanding => l.offered == l.frames && !FramingComplete(l.driver.decoder)
        case Deciding => l.offered == l.frames && !FramingComplete(l.driver.decoder)
        case Awaiting => l.offered == l.frames && !l.driver.eof
        case Offering(frame) => l.offered == l.frames + [frame]
        case Over(BodyComplete) =>
          && l.offered == l.frames
          && WholeBody(cfg, mode, l.driver.arrived, l.driver.eof, l.frames, l.driver.buffer, l.driver.decoder.extensionBytes)
        case Over(BodyFailed(BadBody(error))) =>
          l.offered == l.frames && RefusedBody(cfg, mode, l.driver.arrived, l.driver.eof, l.frames, error)
        case Over(_) => true)
  }

  lemma StartInv(cfg: Config, mode: BodyMode, buffered: Bytes)
    ensures LoopInv(cfg, mode, StartLoop(mode, buffered))
  {
    hide Between, Faithful, Suffix;
    FirstTurn(cfg, mode, buffered);
    SoFar(cfg, mode, StartLoop(mode, buffered).driver, [], 0);
  }

  lemma WaitKeeps(cfg: Config, mode: BodyMode, l: Loop, step: Label)
    requires LoopInv(cfg, mode, l) && Legal(cfg, l, step) && !step.DecodeAnswered? && !step.ReadAnswered?
    ensures LoopInv(cfg, mode, LoopStep(l, step))
  {
    hide Between, Faithful, WholeBody, RefusedBody, Suffix;
    if step.TopOfLoop? && FramingComplete(l.driver.decoder) {
      WholeBodyReached(cfg, mode, l.driver, l.offered, l.consumed);
    }
  }

  lemma ReadKeeps(cfg: Config, mode: BodyMode, l: Loop, step: Label)
    requires LoopInv(cfg, mode, l) && Legal(cfg, l, step) && step.ReadAnswered?
    ensures LoopInv(cfg, mode, LoopStep(l, step))
  {
    hide Between, Faithful, WholeBody, RefusedBody, Suffix;
    var driver := l.driver.(buffer := l.driver.buffer + step.got, arrived := l.driver.arrived + step.got);
    Arrived(cfg, mode, l.driver, step.got, driver, l.offered, l.consumed);
    SoFar(cfg, mode, driver, l.offered, l.consumed);
    Closed(cfg, mode, driver, l.offered, l.consumed);
  }

  lemma DecodeKeeps(cfg: Config, mode: BodyMode, l: Loop, step: Label)
    requires LoopInv(cfg, mode, l) && Legal(cfg, l, step) && step.DecodeAnswered?
    ensures LoopInv(cfg, mode, LoopStep(l, step))
  {
    hide Between, Faithful, WholeBody, RefusedBody, Suffix, KeepsMeaning, Kept, Starved, Record, FrameOf;
    var d, r := step.decoder, step.r;
    var next := Record(l.driver, d, r);
    Decoded(cfg, mode, l.driver, d, r, l.offered, l.consumed);
    if r.Err? {
      RecordKeeps(l.driver, d, r);
    } else if ChargeOf(l.budget, r.value).Ok? {
      var consumed := l.consumed + r.value.consumed;
      if r.value.Payload? || r.value.TrailerBlock? {
        SoFar(cfg, mode, next, l.offered + [FrameOf(l.driver.buffer, r.value)], consumed);
      } else if r.value.End? {
        WholeBodyReached(cfg, mode, next, l.offered, consumed);
      }
    }
  }

  lemma RecordKeeps(s: Driver, d: Decoder, r: Result<Outcome, DecodeError>)
    ensures var t := Record(s, d, r); t.arrived == s.arrived && t.eof == s.eof && (r.Err? ==> t.buffer == s.buffer)
  {
  }

  /** Every step keeps what holds of the loop. */
  lemma LoopKeeps(cfg: Config, mode: BodyMode, l: Loop, step: Label)
    requires LoopInv(cfg, mode, l) && Legal(cfg, l, step)
    ensures LoopInv(cfg, mode, LoopStep(l, step))
  {
    hide LoopInv, Legal, LoopStep;
    match step
    case DecodeAnswered(_, _) => DecodeKeeps(cfg, mode, l, step);
    case ReadAnswered(_, _, _) => ReadKeeps(cfg, mode, l, step);
    case _ => WaitKeeps(cfg, mode, l, step);
  }

  // ---- the loop as a method ---------------------------------------------------------

  /** Take the bytes of one decoded frame out of the buffer, with the framing around them. */
  method TakeFrame(buffer: RecvBuffer.Buffer, r: Outcome) returns (frame: Frame)
    requires buffer.Valid() && (r.Payload? || r.TrailerBlock?) && r.consumed <= |buffer.Contents()|
    requires r.Payload? ==> r.lo < r.hi <= r.consumed
    modifies buffer, buffer.permit
    ensures buffer.Valid() && buffer.permit == old(buffer.permit)
    ensures buffer.Contents() == old(buffer.Contents())[r.consumed..]
    ensures frame == FrameOf(old(buffer.Contents()), r)
  {
    hide RecvBuffer.BytesOf, RecvBuffer.Act;
    if r.Payload? {
      var data := buffer.TakePayload(r.lo, r.hi, r.consumed);
      frame := DataFrame(data.value.Data());
    } else {
      var _ := buffer.Consume(r.consumed);
      frame := TrailersFrame(r.trailers);
    }
  }

  /** Decode once, and charge the drain for what the outcome consumes. */
  method DecodeTurn(decoder: BodyDecoder, policy: DrainPolicy, input: Bytes, eof: bool, ghost mode: BodyMode, ghost l: Loop)
    returns (r: Result<Outcome, DecodeError>, over: Option<DrainLimit>, ghost after: Loop)
    requires LoopInv(decoder.cfg, mode, l) && l.phase.Deciding? && policy.remaining == l.budget
    requires l.driver.decoder == decoder.View() && input == l.driver.buffer && eof == l.driver.eof
    modifies decoder, policy
    ensures Legal(decoder.cfg, l, DecodeAnswered(decoder.View(), r))
    ensures after == LoopStep(l, DecodeAnswered(decoder.View(), r)) && LoopInv(decoder.cfg, mode, after)
    ensures after.driver.arrived == l.driver.arrived && after.driver.eof == eof && after.frames == l.frames
    ensures policy.remaining == after.budget
    ensures r.Err? || over.Some? ==>
      && after.phase == Over(BodyFailed(if r.Err? then BadBody(r.error) else OverBudget(over.value)))
      && after.driver.buffer == input && after.offered == l.offered
    ensures r.Ok? && over.None? ==>
      && after.phase == (if r.value.NeedMore? then Awaiting else if r.value.End? then Over(BodyComplete)
                         else Offering(FrameOf(input, r.value)))
      && after.offered == (if after.phase.Offering? then l.offered + [after.phase.frame] else l.offered)
      && r.value.consumed <= |input| && (r.value.Payload? ==> r.value.lo < r.value.hi <= r.value.consumed)
      && after.driver.decoder == decoder.View() && after.driver.buffer == input[r.value.consumed..]
  {
    hide DecodeRuns.Inv, Decodes, Meaning, PayloadOf, Between, Retained, Record, RefusedBody, Faithful, WholeBody, Suffix;
    SoFar(decoder.cfg, mode, l.driver, l.offered, l.consumed);
    r := decoder.Decode(input, eof);
    over := None;
    RecordKeeps(l.driver, decoder.View(), r);
    Decoded(decoder.cfg, mode, l.driver, decoder.View(), r, l.offered, l.consumed);
    if r.Ok? {
      var charge := policy.ChargeDrain(r.value.consumed, PayloadSize(r.value));
      if charge.Err? { over := Some(charge.error); }
    }
    LoopKeeps(decoder.cfg, mode, l, DecodeAnswered(decoder.View(), r));
    after := LoopStep(l, DecodeAnswered(decoder.View(), r));
  }

  /** Act on one decoded outcome: read more input, or hand over a frame. No step is made while the
      read has not ended. */
  method Apply(reader: RecvBuffer.Reader, buffer: RecvBuffer.Buffer, r: Outcome, turn: Turn,
               ghost cfg: Config, ghost mode: BodyMode, ghost l: Loop)
    returns (got: Bytes, step: Option<Label>, ghost after: Loop)
    requires buffer.Valid() && r.consumed <= |buffer.Contents()| && buffer.Contents()[r.consumed..] == l.driver.buffer
    requires r.Payload? ==> r.lo < r.hi <= r.consumed
    requires LoopInv(cfg, mode, l) && !r.End?
    requires if r.NeedMore? then l.phase.Awaiting? else l.phase == Offering(FrameOf(buffer.Contents(), r))
    modifies reader, buffer, buffer.permit
    ensures buffer.Valid() && (buffer.permit == old(buffer.permit) || fresh(buffer.permit))
    ensures reader.delivered == old(reader.delivered) + got && reader.Stream() == old(reader.Stream())
    ensures LoopInv(cfg, mode, after)
    ensures if step.Some? then Legal(cfg, l, step.value) && after == LoopStep(l, step.value) else after == l && l.phase.Awaiting?
    ensures after.driver.buffer == buffer.Contents() && after.driver.arrived == l.driver.arrived + got
    ensures after.driver.decoder == l.driver.decoder && after.offered == l.offered && after.budget == l.budget
    ensures step.Some? ==>
      && (step.value.ReadAnswered? || step.value.OfferAnswered?) && AnswersTurn(turn, step.value)
      && after.phase == (if AnswerOf(step.value).Some? then Over(AnswerOf(step.value).value) else AtTop)
      && after.frames == (if after.phase.AtTop? then l.offered else l.frames)
      && after.driver.eof == (l.driver.eof || (after.phase.AtTop? && step.value.ReadAnswered? && step.value.status.value.EndOfFile?))
    ensures step.None? ==> l.frames == l.offered && reader.script == []
    ensures reader.answers == if step.Some? && step.value.ReadAnswered? then old(reader.answers) + [step.value.status] else old(reader.answers)
  {
    hide Between, Faithful, WholeBody, RefusedBody, Suffix, RecvBuffer.BytesOf, RecvBuffer.Act, LoopInv, FrameOf;
    if l.phase.Awaiting? { NothingPending(cfg, mode, l); }
    got := [];
    assert reader.delivered + [] == reader.delivered && l.driver.arrived + [] == l.driver.arrived;
    if r.NeedMore? {
      var _ := buffer.Consume(r.consumed);
      var status;
      status, got := RecvBuffer.ReadOnce(reader, buffer);
      if status.None? { return got, None, l; }
      step := Some(ReadAnswered(got, status.value, turn.abandoned));
    } else {
      var frame := TakeFrame(buffer, r);
      step := Some(OfferAnswered(turn.offer));
    }
    LoopKeeps(cfg, mode, l, step.value);
    after := LoopStep(l, step.value);
  }

  /** The objects and variables of the method are those of the loop as a value. */
  ghost predicate Mirrors(l: Loop, d: Decoder, budget: Option<Budget>, contents: Bytes, whole: Bytes, eof: bool,
                          frames: seq<Frame>, offered: seq<Frame>)
  {
    && (!l.phase.Over? ==> l.driver.decoder == d) && l.budget == budget
    && l.driver.buffer == contents && l.driver.arrived == whole && l.driver.eof == eof
    && l.frames == frames && l.offered == offered
  }

  /** How a turn opens: the drain asked for, if any, and the answer to the demand. */
  function Opening(turn: Turn): seq<Label>
  {
    (if turn.drain.Some? then [DrainAsked(turn.drain.value.0, turn.drain.value.1)] else []) + [DemandAnswered(turn.demand)]
  }

  predicate AnswersTurn(turn: Turn, step: Label)
  {
    step == OfferAnswered(turn.offer) || (step.ReadAnswered? && step.abandoned == turn.abandoned)
  }

  /** The steps of one turn: its opening, what the decoder answered, and the turn's own answer. */
  predicate IsTurn(turn: Turn, steps: seq<Label>)
  {
    var opening := Opening(turn);
    && opening <= steps
    && var rest := steps[|opening|..];
       rest == [] || (rest[0].DecodeAnswered? && (|rest| == 1 || (|rest| == 2 && AnswersTurn(turn, rest[1]))))
  }

  /** Turns one after another, each entered at the top of the loop. */
  function InTurn(turns: seq<seq<Label>>): seq<Label>
  {
    if turns == [] then [] else InTurn(turns[..|turns| - 1]) + [TopOfLoop] + turns[|turns| - 1]
  }

  ghost predicate AreTurns(script: seq<Turn>, turns: seq<seq<Label>>)
  {
    |turns| <= |script| && forall i :: 0 <= i < |turns| ==> IsTurn(script[i], turns[i])
  }

  /** The labels are the steps of the script's first turns. */
  ghost predicate Follows(script: seq<Turn>, labels: seq<Label>, turns: seq<seq<Label>>)
  {
    AreTurns(script, turns) && (labels == InTurn(turns) || labels == InTurn(turns) + [TopOfLoop])
  }

  lemma OneMoreOf(script: seq<Turn>, turns: seq<seq<Label>>, steps: seq<Label>)
    requires AreTurns(script, turns) && |turns| < |script| && IsTurn(script[|turns|], steps)
    ensures AreTurns(script, turns + [steps])
  {
    hide IsTurn;
  }

  lemma InTurnPush(turns: seq<seq<Label>>, steps: seq<Label>)
    ensures InTurn(turns + [steps]) == InTurn(turns) + [TopOfLoop] + steps
  {
    assert (turns + [steps])[..|turns|] == turns;
  }

  lemma TurnTaken(script: seq<Turn>, labels: seq<Label>, turns: seq<seq<Label>>, steps: seq<Label>)
    requires |turns| < |script| && AreTurns(script, turns) && labels == InTurn(turns) + [TopOfLoop]
    requires IsTurn(script[|turns|], steps)
    ensures Follows(script, labels + steps, turns + [steps]) && labels + steps == InTurn(turns + [steps])
  {
    hide IsTurn, InTurn, AreTurns;
    OneMoreOf(script, turns, steps);
    InTurnPush(turns, steps);
  }

  /** The application may ask for a drain before its demand is answered. */
  method BeginTurn(policy: DrainPolicy, turn: Turn, ghost cfg: Config, ghost mode: BodyMode, ghost start: Loop,
                   ghost labels: seq<Label>, ghost l: Loop)
    returns (ghost l': Loop)
    requires LoopInv(cfg, mode, l) && LoopRun(cfg, start, labels, l) && l.phase.Demanding? && policy.remaining == l.budget
    modifies policy
    ensures LoopInv(cfg, mode, l') && LoopRun(cfg, start, labels + Opening(turn), l') && policy.remaining == l'.budget
    ensures l' == l.(budget := l'.budget, phase := if turn.demand.Wanted? then Deciding
                       else Over(if turn.demand.ConsumerGone? then BodyAbandoned else BodyFailed(Canceled)))
  {
    hide LoopInv, LoopRun;
    ghost var labels' := labels;
    l' := l;
    if turn.drain.Some? {
      policy.DrainBudget(turn.drain.value.0, turn.drain.value.1);
      l', labels' := Proceed(cfg, mode, start, labels', l', DrainAsked(turn.drain.value.0, turn.drain.value.1));
    }
    DemandSteps(cfg, l', turn.demand);
    l', labels' := Proceed(cfg, mode, start, labels', l', DemandAnswered(turn.demand));
    assert labels' == labels + Opening(turn);
  }

  lemma TurnSteps(turn: Turn, labels: seq<Label>, decoded: Label, answer: Label)
    requires decoded.DecodeAnswered?
    ensures IsTurn(turn, Opening(turn)) && IsTurn(turn, Opening(turn) + [decoded])
    ensures AnswersTurn(turn, answer) ==> IsTurn(turn, Opening(turn) + [decoded] + [answer])
    ensures labels + Opening(turn) + [decoded] == labels + (Opening(turn) + [decoded])
    ensures labels + (Opening(turn) + [decoded]) + [answer] == labels + (Opening(turn) + [decoded] + [answer])
  {
    hide Opening;
    var opening := Opening(turn);
    assert opening[|opening|..] == [];
    assert (opening + [decoded])[|opening|..] == [decoded];
    assert (opening + [decoded] + [answer])[|opening|..] == [decoded, answer];
  }

  lemma TurnReads(turn: Turn, decoded: Label, answer: Label)
    requires decoded.DecodeAnswered?
    ensures ReadsIn(Opening(turn)) == [] && ReadsIn(Opening(turn) + [decoded]) == []
    ensures ReadsIn(Opening(turn) + [decoded] + [answer]) == if answer.ReadAnswered? then [answer.status] else []
  {
    var opening := Opening(turn);
    assert forall i :: 0 <= i < |opening| ==> !opening[i].ReadAnswered?;
    NoReadsIn(opening);
    ReadsInPush(opening, decoded);
    ReadsInPush(opening + [decoded], answer);
  }

  /** One turn, from the wait for demand to the top of the loop, to its end, or to a read that has
      not ended. */
  method TakeTurn(reader: RecvBuffer.Reader, buffer: RecvBuffer.Buffer, decoder: BodyDecoder, policy: DrainPolicy, turn: Turn,
                  frames: seq<Frame>, eof: bool, ghost mode: BodyMode, ghost start: Loop, ghost labels: seq<Label>, ghost l: Loop)
    returns (answer: Option<BodyEnd>, stalled: bool, offered: seq<Frame>, got: Bytes, eof': bool,
             ghost l': Loop, ghost steps: seq<Label>)
    requires buffer.Valid() && LoopInv(decoder.cfg, mode, l) && l.phase.Demanding? && LoopRun(decoder.cfg, start, labels, l)
    requires Mirrors(l, decoder.View(), policy.remaining, buffer.Contents(), l.driver.arrived, eof, frames, frames)
    modifies reader, buffer, buffer.permit, decoder, policy
    ensures buffer.Valid() && (buffer.permit == old(buffer.permit) || fresh(buffer.permit))
    ensures reader.delivered == old(reader.delivered) + got && reader.Stream() == old(reader.Stream())
    ensures LoopInv(decoder.cfg, mode, l') && LoopRun(decoder.cfg, start, labels + steps, l') && IsTurn(turn, steps)
    ensures if stalled then l'.phase.Awaiting? && reader.script == [] else l'.phase.AtTop? || l'.phase.Over?
    ensures reader.answers == old(reader.answers) + ReadsIn(steps)
    ensures answer == if l'.phase.Over? then Some(l'.phase.end) else None
    ensures Mirrors(l', decoder.View(), policy.remaining, buffer.Contents(), l.driver.arrived + got, eof',
                    if answer.None? then offered else frames, offered)
  {
    hide PayloadOf, RecvBuffer.BytesOf, PayloadSize, LoopRun, FrameOf, LoopInv, LoopStep, Legal, RecvBuffer.Act, IsTurn, Opening,
         ReadsIn;
    ghost var cfg := decoder.cfg;
    got, offered, eof', stalled := [], frames, eof, false;
    assert l.driver.arrived + [] == l.driver.arrived && reader.delivered + [] == reader.delivered;
    l' := BeginTurn(policy, turn, cfg, mode, start, labels, l);
    steps := Opening(turn);
    TurnSteps(turn, labels, DecodeAnswered(decoder.View(), Err(UnexpectedEof)), TopOfLoop);
    TurnReads(turn, DecodeAnswered(decoder.View(), Err(UnexpectedEof)), TopOfLoop);
    assert reader.answers + [] == reader.answers;
    if turn.demand != Wanted {
      answer := Some(if turn.demand == ConsumerGone then BodyAbandoned else BodyFailed(Canceled));
      return;
    }
    var r, over, decided := DecodeTurn(decoder, policy, buffer.Contents(), eof, mode, l');
    ghost var answered := DecodeAnswered(decoder.View(), r);
    RunOn(cfg, start, labels + steps, l', answered);
    TurnSteps(turn, labels, answered, TopOfLoop);
    TurnReads(turn, answered, TopOfLoop);
    l', steps := decided, steps + [answered];
    if r.Err? || over.Some? {
      answer := Some(BodyFailed(if r.Err? then BadBody(r.error) else OverBudget(over.value)));
      return;
    }
    if r.value.End? {
      var _ := buffer.Consume(r.value.consumed);
      answer := Some(BodyComplete);
      return;
    }
    if !r.value.NeedMore? { offered := frames + [FrameOf(buffer.Contents(), r.value)]; }
    var step;
    ghost var done;
    got, step, done := Apply(reader, buffer, r.value, turn, cfg, mode, l');
    if step.None? { return None, true, offered, got, eof, l', steps; }
    RunOn(cfg, start, labels + steps, l', step.value);
    TurnSteps(turn, labels, answered, step.value);
    TurnReads(turn, answered, step.value);
    l', steps := done, steps + [step.value];
    answer := AnswerOf(step.value);
    eof' := eof || (answer.None? && step.value.ReadAnswered? && step.value.status.value.EndOfFile?);
  }

  /** Drive one body: decode on demand, charge a drain, hand over each frame, and read only when
      the decoder asks for input. The method runs the loop as a value, with the drains asked
      for and the answers given in the script's turns; `answer` is absent while the loop has not
      returned. */
  method ReceiveBody(reader: RecvBuffer.Reader, buffer: RecvBuffer.Buffer, decoder: BodyDecoder, policy: DrainPolicy,
                     mode: BodyMode, script: seq<Turn>)
    returns (answer: Option<BodyEnd>, frames: seq<Frame>, offered: seq<Frame>, arrived: Bytes, eof: bool,
             ghost l: Loop, ghost labels: seq<Label>, ghost turns: seq<seq<Label>>)
    requires buffer.Valid() && decoder.View() == NewDecoder(mode) && policy.remaining == None
    modifies reader, buffer, buffer.permit, decoder, policy
    ensures buffer.Valid() && (buffer.permit == old(buffer.permit) || fresh(buffer.permit))
    ensures reader.delivered == old(reader.delivered) + arrived && reader.Stream() == old(reader.Stream())
    ensures LoopRun(decoder.cfg, StartLoop(mode, old(buffer.Contents())), labels, l) && LoopInv(decoder.cfg, mode, l)
    ensures Follows(script, labels, turns) && reader.answers == old(reader.answers) + ReadsIn(labels)
    ensures answer == if l.phase.Over? then Some(l.phase.end) else None
    ensures answer.None? ==> |turns| == |script| || reader.script == []
    ensures Mirrors(l, decoder.View(), policy.remaining, buffer.Contents(), old(buffer.Contents()) + arrived, eof, frames, offered)
    ensures Faithful(decoder.cfg, mode, old(buffer.Contents()) + arrived, offered)
    ensures answer == Some(BodyComplete) ==>
      && offered == frames
      && WholeBody(decoder.cfg, mode, old(buffer.Contents()) + arrived, eof, frames, buffer.Contents(), l.driver.decoder.extensionBytes)
    ensures answer.Some? && answer.value.BodyFailed? && answer.value.why.BadBody? ==>
      RefusedBody(decoder.cfg, mode, old(buffer.Contents()) + arrived, eof, frames, answer.value.why.error)
    ensures answer.Some? && Willing(script) && RecvBuffer.AllOk(ReadsIn(labels)) ==>
      (Meaning(decoder.cfg, NewDecoder(mode), old(buffer.Contents()) + arrived).Accept? ==> answer == Some(BodyComplete))
  {
    hide PayloadOf, RecvBuffer.BytesOf, Faithful, RefusedBody, WholeBody, LoopRun, LoopInv, DecodeStep, InTurn, IsTurn, AreTurns,
         ReadsIn, Willing, Meaning;
    ghost var w0 := buffer.Contents();
    ghost var start := StartLoop(mode, w0);
    var used := 0;
    answer, frames, offered, arrived, eof := None, [], [], [], false;
    l, labels, turns := start, [], [];
    StartInv(decoder.cfg, mode, w0);
    NoSteps(decoder.cfg, start);
    assert w0 + arrived == w0 && reader.delivered + arrived == reader.delivered;
    NoReadsIn([]);
    assert reader.answers + [] == reader.answers;
    while answer.None?
      invariant buffer.Valid() && (buffer.permit == old(buffer.permit) || fresh(buffer.permit))
      invariant reader.delivered == old(reader.delivered) + arrived && reader.Stream() == old(reader.Stream())
      invariant LoopRun(decoder.cfg, start, labels, l) && LoopInv(decoder.cfg, mode, l)
      invariant used == |turns| <= |script| && Follows(script, labels, turns) && (answer.None? ==> labels == InTurn(turns))
      invariant reader.answers == old(reader.answers) + ReadsIn(labels)
      invariant if answer.Some? then l.phase == Over(answer.value) else l.phase.AtTop? && offered == frames
      invariant Mirrors(l, decoder.View(), policy.remaining, buffer.Contents(), w0 + arrived, eof, frames, offered)
      decreases |script| - used, if answer.None? then 1 else 0
    {
      ReadsInPush(labels, TopOfLoop);
      l, labels := Proceed(decoder.cfg, mode, start, labels, l, TopOfLoop);
      var complete := decoder.IsComplete();
      if complete {
        answer := Some(BodyComplete);
      } else if used == |script| {
        LoopSays(decoder.cfg, mode, l);
        return;
      } else {
        var got, stalled;
        ghost var steps;
        answer, stalled, offered, got, eof, l, steps :=
          TakeTurn(reader, buffer, decoder, policy, script[used], frames, eof, mode, start, labels, l);
        TurnTaken(script, labels, turns, steps);
        ReadsInAppend(labels, steps);
        labels, turns, used := labels + steps, turns + [steps], used + 1;
        Assoc(w0, arrived, got);
        Assoc(old(reader.delivered), arrived, got);
        arrived := arrived + got;
        if answer.None? { frames := offered; }
        if stalled {
          LoopSays(decoder.cfg, mode, l);
          return;
        }
      }
    }
    LoopSays(decoder.cfg, mode, l);
    WholeBodiesComplete(decoder.cfg, mode, w0, labels, l, script, turns);
  }

  /** What a wait's answer makes the loop return, if anything. */
  function AnswerOf(step: Label): Option<BodyEnd>
    requires step.ReadAnswered? || step.OfferAnswered?
  {
    match step
    case ReadAnswered(_, status, abandoned) =>
      if abandoned then Some(BodyAbandoned) else if status.Err? then Some(BodyFailed(Reading(status.error))) else None
    case OfferAnswered(offer) =>
      match offer
      case FrameTaken => None
      case FrameAbandoned => Some(BodyAbandoned)
      case HandoffClosed => Some(BodyFailed(ClosedHandoff))
      case OfferCanceled => Some(BodyFailed(Canceled))
  }

  // ---- why the loop ends ------------------------------------------------------------

  /** The answers to the reads among the steps. */
  function ReadsIn(labels: seq<Label>): seq<RecvBuffer.ReadAnswer>
  {
    if labels == [] then []
    else
      var last := labels[|labels| - 1];
      if last.ReadAnswered? then ReadsIn(labels[..|labels| - 1]) + [last.status] else ReadsIn(labels[..|labels| - 1])
  }

  lemma ReadsInPush(labels: seq<Label>, step: Label)
    ensures ReadsIn(labels + [step]) == if step.ReadAnswered? then ReadsIn(labels) + [step.status] else ReadsIn(labels)
  {
    assert (labels + [step])[..|labels|] == labels;
  }

  lemma {:induction false} ReadsInAppend(a: seq<Label>, b: seq<Label>)
    ensures ReadsIn(a + b) == ReadsIn(a) + ReadsIn(b)
  {
    if b == [] {
      assert a + b == a;
    } else {
      var n := |b| - 1;
      ReadsInAppend(a, b[..n]);
      assert b == b[..n] + [b[n]] && a + b == (a + b[..n]) + [b[n]];
      ReadsInPush(a + b[..n], b[n]);
    }
  }

  lemma {:induction false} NoReadsIn(labels: seq<Label>)
    requires forall i :: 0 <= i < |labels| ==> !labels[i].ReadAnswered?
    ensures ReadsIn(labels) == []
  {
    if labels != [] { NoReadsIn(labels[..|labels| - 1]); }
  }

  lemma {:induction false} ReadIsIn(labels: seq<Label>, i: nat)
    requires i < |labels| && labels[i].ReadAnswered? && RecvBuffer.AllOk(ReadsIn(labels))
    ensures labels[i].status.Ok?
  {
    var n := |labels| - 1;
    var answers := ReadsIn(labels);
    if labels[n].ReadAnswered? {
      assert answers[|answers| - 1] == labels[n].status;
      assert answers[..|answers| - 1] == ReadsIn(labels[..n]);
      assert RecvBuffer.AllOk(ReadsIn(labels[..n]));
    }
    if i < n { ReadIsIn(labels[..n], i); }
  }

  /** The end that a step makes the loop return with, whatever was decoded. */
  function Forces(step: Label): Option<BodyEnd>
  {
    match step
    case DemandAnswered(ConsumerGone) => Some(BodyAbandoned)
    case DemandAnswered(DemandCanceled) => Some(BodyFailed(Canceled))
    case ReadAnswered(_, _, _) => AnswerOf(step)
    case OfferAnswered(_) => AnswerOf(step)
    case _ => None
  }

  /** An end brought about by the application, the transport or a cancellation. */
  predicate FromOutside(end: BodyEnd)
  {
    end == BodyAbandoned || (end.BodyFailed? && (end.why.Reading? || end.why.Canceled? || end.why.ClosedHandoff?))
  }

  predicate Forced(labels: seq<Label>, end: BodyEnd)
  {
    exists i :: 0 <= i < |labels| && Forces(labels[i]) == Some(end)
  }

  lemma ForcedPush(labels: seq<Label>, step: Label, end: BodyEnd)
    ensures Forced(labels + [step], end) <==> Forced(labels, end) || Forces(step) == Some(end)
  {
    var more := labels + [step];
    assert more[|labels|] == step;
    if Forced(labels, end) {
      var i :| 0 <= i < |labels| && Forces(labels[i]) == Some(end);
      assert more[i] == labels[i];
    }
  }

  lemma StepForces(cfg: Config, l: Loop, step: Label, end: BodyEnd)
    requires Legal(cfg, l, step) && FromOutside(end)
    ensures l.phase.Over? ==> LoopStep(l, step).phase == l.phase && Forces(step).None?
    ensures !l.phase.Over? ==> (LoopStep(l, step).phase == Over(end) <==> Forces(step) == Some(end))
  {
    hide Decodes, Record, FrameOf;
  }

  /** Over every run: the loop ends as abandoned, cancelled, with a read error or with a closed handoff
      if and only if a step answered so; and once it has ended nothing answers any more. */
  lemma {:induction false} EndsAreForced(cfg: Config, start: Loop, labels: seq<Label>, l: Loop, end: BodyEnd)
    requires LoopRun(cfg, start, labels, l) && !start.phase.Over? && FromOutside(end)
    ensures l.phase == Over(end) <==> Forced(labels, end)
    decreases |labels|
  {
    hide Legal, LoopStep, Forced, Forces;
    if labels == [] {
      NothingForced(end);
    } else {
      var n := |labels| - 1;
      var before := LoopAfter(start, labels[..n]);
      assert labels == labels[..n] + [labels[n]];
      EndsAreForced(cfg, start, labels[..n], before, end);
      ForcedPush(labels[..n], labels[n], end);
      StepForces(cfg, before, labels[n], end);
    }
  }

  lemma NothingForced(end: BodyEnd)
    ensures !Forced([], end)
  {
  }

  predicate AsksDrain(labels: seq<Label>) { exists i :: 0 <= i < |labels| && labels[i].DrainAsked? }

  /** Only a drain that was asked for can go over its budget. */
  lemma {:induction false} BudgetsAreAsked(cfg: Config, start: Loop, labels: seq<Label>, l: Loop)
    requires LoopRun(cfg, start, labels, l) && !start.phase.Over? && start.budget.None? && !AsksDrain(labels)
    ensures l.budget.None? && !(l.phase.Over? && l.phase.end.BodyFailed? && l.phase.end.why.OverBudget?)
    decreases |labels|
  {
    hide Decodes, Record, FrameOf;
    if labels != [] {
      var n := |labels| - 1;
      assert forall i :: 0 <= i < n ==> labels[..n][i] == labels[i];
      BudgetsAreAsked(cfg, start, labels[..n], LoopAfter(start, labels[..n]));
    }
  }

  /** The application wants every frame and takes it, and nothing is cancelled or drained. */
  predicate Willing(script: seq<Turn>)
  {
    forall i :: 0 <= i < |script| ==> script[i] == Turn(None, Wanted, false, FrameTaken)
  }

  /** A step of a willing application's turn, as far as it does not depend on the transport. */
  predicate Mild(step: Label)
  {
    !step.DrainAsked? && (step.ReadAnswered? ==> !step.abandoned) && (!step.ReadAnswered? ==> Forces(step).None?)
  }

  predicate AllMild(labels: seq<Label>) { forall i :: 0 <= i < |labels| ==> Mild(labels[i]) }

  lemma MildTurn(turn: Turn, steps: seq<Label>)
    requires IsTurn(turn, steps) && turn == Turn(None, Wanted, false, FrameTaken)
    ensures AllMild(steps)
  {
    var opening := Opening(turn);
    assert opening == [DemandAnswered(Wanted)];
    var rest := steps[1..];
    assert forall i :: 0 < i < |steps| ==> steps[i] == rest[i - 1];
  }

  lemma {:induction false} MildTurns(script: seq<Turn>, turns: seq<seq<Label>>)
    requires AreTurns(script, turns) && Willing(script)
    ensures AllMild(InTurn(turns))
  {
    hide IsTurn, Mild;
    if turns != [] {
      var n := |turns| - 1;
      MildTurns(script, turns[..n]);
      MildTurn(script[n], turns[n]);
      MildTop();
    }
  }

  lemma MildTop()
    ensures Mild(TopOfLoop)
  {
  }

  /** With a willing application and reads that go well, the loop returns only because of what it
      decoded. */
  lemma WillingEnds(cfg: Config, start: Loop, labels: seq<Label>, l: Loop, script: seq<Turn>, turns: seq<seq<Label>>)
    requires LoopRun(cfg, start, labels, l) && !start.phase.Over? && start.budget.None?
    requires Follows(script, labels, turns) && Willing(script) && RecvBuffer.AllOk(ReadsIn(labels))
    ensures l.phase.Over? ==> l.phase.end == BodyComplete || (l.phase.end.BodyFailed? && l.phase.end.why.BadBody?)
  {
    hide LoopRun, InTurn, AreTurns, ReadsIn, Willing;
    MildTurns(script, turns);
    MildTop();
    assert AllMild(labels);
    BudgetsAreAsked(cfg, start, labels, l);
    if l.phase.Over? && FromOutside(l.phase.end) {
      EndsAreForced(cfg, start, labels, l, l.phase.end);
      var i :| 0 <= i < |labels| && Forces(labels[i]) == Some(l.phase.end);
      if labels[i].ReadAnswered? { ReadIsIn(labels, i); }
      assert false;
    }
  }

  /** A whole body that has arrived is received whole, if the application is willing and the reads
      went well. */
  lemma WholeBodiesComplete(cfg: Config, mode: BodyMode, buffered: Bytes, labels: seq<Label>, l: Loop, script: seq<Turn>,
                            turns: seq<seq<Label>>)
    requires LoopRun(cfg, StartLoop(mode, buffered), labels, l) && LoopInv(cfg, mode, l) && Follows(script, labels, turns)
    ensures l.phase.Over? && Willing(script) && RecvBuffer.AllOk(ReadsIn(labels)) ==>
      (Meaning(cfg, NewDecoder(mode), l.driver.arrived).Accept? ==> l.phase == Over(BodyComplete))
  {
    hide LoopRun, LoopInv, Follows, Willing, ReadsIn, Meaning, PayloadOf;
    if l.phase.Over? && Willing(script) && RecvBuffer.AllOk(ReadsIn(labels)) {
      WillingEnds(cfg, StartLoop(mode, buffered), labels, l, script, turns);
      LoopSays(cfg, mode, l);
      assert l.driver.arrived + [] == l.driver.arrived;
    }
  }

  lemma NothingPending(cfg: Config, mode: BodyMode, l: Loop)
    requires LoopInv(cfg, mode, l) && l.phase.Awaiting?
    ensures l.frames == l.offered
  {
    hide Between, Faithful, Suffix;
  }

  lemma DemandSteps(cfg: Config, l: Loop, demand: DemandAnswer)
    requires l.phase.Demanding?
    ensures Legal(cfg, l, DemandAnswered(demand))
    ensures LoopStep(l, DemandAnswered(demand)) ==
      l.(phase := if demand.Wanted? then Deciding else Over(if demand.ConsumerGone? then BodyAbandoned else BodyFailed(Canceled)))
  {
  }

  lemma NoSteps(cfg: Config, start: Loop)
    ensures LoopRun(cfg, start, [], start) && InTurn([]) == [] && forall script :: AreTurns(script, [])
  {
  }

  /** The invariant, in the terms of the method's promises. */
  lemma LoopSays(cfg: Config, mode: BodyMode, l: Loop)
    requires LoopInv(cfg, mode, l)
    ensures Faithful(cfg, mode, l.driver.arrived, l.offered)
    ensures l.phase == Over(BodyComplete) ==>
      && l.offered == l.frames
      && WholeBody(cfg, mode, l.driver.arrived, l.driver.eof, l.frames, l.driver.buffer, l.driver.decoder.extensionBytes)
    ensures l.phase.Over? && l.phase.end.BodyFailed? && l.phase.end.why.BadBody? ==>
      RefusedBody(cfg, mode, l.driver.arrived, l.driver.eof, l.frames, l.phase.end.why.error)
  {
    hide Faithful, WholeBody, RefusedBody, Between, Suffix;
  }

  /** One step of the loop as a value, with its run extended. */
  lemma Proceed(cfg: Config, mode: BodyMode, start: Loop, labels: seq<Label>, l: Loop, step: Label)
    returns (l': Loop, labels': seq<Label>)
    requires LoopInv(cfg, mode, l) && LoopRun(cfg, start, labels, l) && Legal(cfg, l, step)
    ensures l' == LoopStep(l, step) && labels' == labels + [step]
    ensures LoopInv(cfg, mode, l') && LoopRun(cfg, start, labels', l')
  {
    hide LoopInv, LoopRun, Legal, LoopStep;
    LoopKeeps(cfg, mode, l, step);
    RunOn(cfg, start, labels, l, step);
    l', labels' := LoopStep(l, step), labels + [step];
  }

  /** Between turns, what was handed over is what the wire means so far. */
  lemma SoFar(cfg: Config, mode: BodyMode, s: Driver, frames: seq<Frame>, consumed: nat)
    requires Between(cfg, mode, s, frames, consumed)
    ensures Faithful(cfg, mode, s.arrived, frames)
    ensures Suffix(s.arrived, consumed, s.buffer)
    ensures WellFormed(s.decoder) && (!FramingComplete(s.decoder) ==> Retained(s.decoder, s.buffer))
  {
    hide Meaning, PayloadOf, Retained;
    HandedOver(cfg, mode, s, frames);
  }

  lemma RunningKept(cfg: Config, mode: BodyMode, s: Driver)
    requires Inv(cfg, mode, s) && !Rejected(s) && !FramingComplete(s.decoder)
    ensures WellFormed(s.decoder) && Kept(s.decoder, s.buffer) && s.trailers.None?
  {
    hide Meaning, Retained;
  }

  /** What a successful call leads to: the outcome is within the input, and the loop may go on
      once it has dropped the consumed bytes and, for a frame, handed the frame over. */
  ghost predicate Advanced(cfg: Config, mode: BodyMode, s: Driver, d': Decoder, r: Outcome, frames: seq<Frame>, consumed: nat)
  {
    var s' := Record(s, d', Ok(r));
    && r.consumed <= |s.buffer| && s'.buffer == s.buffer[r.consumed..]
    && s'.decoder == d' && s'.arrived == s.arrived && s'.eof == s.eof
    && Suffix(s.arrived, consumed + r.consumed, s'.buffer)
    && (r.NeedMore? ==> !s.eof && Between(cfg, mode, s', frames, consumed + r.consumed))
    && (r.End? ==> FramingComplete(s'.decoder) && Between(cfg, mode, s', frames, consumed + r.consumed))
    && (r.Payload? || r.TrailerBlock? ==>
          && (r.Payload? ==> r.lo < r.hi <= r.consumed)
          && |PayloadOf(frames + [FrameOf(s.buffer, r)])| == |PayloadOf(frames)| + PayloadSize(r)
          && Between(cfg, mode, s', frames + [FrameOf(s.buffer, r)], consumed + r.consumed))
  }

  /** One decoder call, in the terms of the loop. */
  lemma Decoded(cfg: Config, mode: BodyMode, s: Driver, d': Decoder, r: Result<Outcome, DecodeError>,
                frames: seq<Frame>, consumed: nat)
    requires Between(cfg, mode, s, frames, consumed) && !FramingComplete(s.decoder) && WellFormed(d')
    requires Decodes(cfg, s.decoder, s.buffer, s.eof, d', r)
    ensures r.Err? ==> RefusedBody(cfg, mode, s.arrived, s.eof, frames, r.error)
    ensures r.Ok? ==> Advanced(cfg, mode, s, d', r.value, frames, consumed)
  {
    hide Meaning, KeepsMeaning, Retained, Starved, PayloadOf, Inv, Faithful, RefusedBody, Suffix;
    RunningKept(cfg, mode, s);
    var s' := Record(s, d', r);
    CallKeeps(cfg, mode, s, d', r, s');
    if r.Err? {
      FailedBody(cfg, mode, s', frames);
    } else {
      StillGoing(cfg, s, d', r);
      SuffixStep(s.arrived, consumed, s.buffer, r.value.consumed);
      if r.value.Payload? || r.value.TrailerBlock? {
        FrameDecoded(cfg, mode, s, d', r.value, frames, consumed + r.value.consumed);
      }
    }
  }

  lemma FrameDecoded(cfg: Config, mode: BodyMode, s: Driver, d': Decoder, r: Outcome, frames: seq<Frame>, consumed: nat)
    requires (r.Payload? && r.lo < r.hi <= r.consumed <= |s.buffer|) || r.TrailerBlock?
    requires var s' := Record(s, d', Ok(r));
      Inv(cfg, mode, s') && !Rejected(s') && Suffix(s'.arrived, consumed, s'.buffer)
    requires s.delivered == PayloadOf(frames) && s.trailers == TrailersIn(frames) == None && Shaped(frames)
    ensures var frame := FrameOf(s.buffer, r);
      && |PayloadOf(frames + [frame])| == |PayloadOf(frames)| + PayloadSize(r)
      && Between(cfg, mode, Record(s, d', Ok(r)), frames + [frame], consumed)
  {
    hide Inv, PayloadOf, Suffix;
    var frame := FrameOf(s.buffer, r);
    DataPush(frames, frame);
    assert forall i :: 0 <= i < |frames| ==> frames[i].DataFrame? by {
      assert frames != [] ==> frames[|frames| - 1].DataFrame?;
    }
  }

  /** A call that reports progress has not failed. */
  lemma StillGoing(cfg: Config, s: Driver, d': Decoder, r: Result<Outcome, DecodeError>)
    requires Decodes(cfg, s.decoder, s.buffer, s.eof, d', r) && r.Ok?
    ensures !d'.state.Failed?
  {
  }

  lemma Arrived(cfg: Config, mode: BodyMode, s: Driver, bytes: Bytes, s': Driver, frames: seq<Frame>, consumed: nat)
    requires Between(cfg, mode, s, frames, consumed) && Arrive(s, bytes, s')
    ensures Between(cfg, mode, s', frames, consumed)
  {
    hide Inv, PayloadOf;
    ArriveKeeps(cfg, mode, s, bytes, s');
    SuffixGrow(s.arrived, consumed, s.buffer, bytes);
  }

  lemma Closed(cfg: Config, mode: BodyMode, s: Driver, frames: seq<Frame>, consumed: nat)
    requires Between(cfg, mode, s, frames, consumed)
    ensures Between(cfg, mode, s.(eof := true), frames, consumed)
  {
    hide Meaning, Kept, PayloadOf;
  }

  lemma WholeBodyReached(cfg: Config, mode: BodyMode, s: Driver, frames: seq<Frame>, consumed: nat)
    requires Between(cfg, mode, s, frames, consumed) && FramingComplete(s.decoder)
    ensures WholeBody(cfg, mode, s.arrived, s.eof, frames, s.buffer, s.decoder.extensionBytes)
  {
    hide Inv, Meaning, PayloadOf;
    forall future: Bytes | s.eof ==> future == []
      ensures Meaning(cfg, NewDecoder(mode), s.arrived + future) == Reached(s, future)
    {
      SettledMeaning(cfg, mode, s, future);
    }
  }

  lemma FailedBody(cfg: Config, mode: BodyMode, s: Driver, frames: seq<Frame>)
    requires Inv(cfg, mode, s) && Rejected(s) && s.delivered == PayloadOf(frames)
    requires s.decoder.state.error == UnexpectedEof ==> s.eof
    ensures RefusedBody(cfg, mode, s.arrived, s.eof, frames, s.decoder.state.error)
  {
    hide Retained, PayloadOf, ChunkMeaning;
    forall future: Bytes | s.decoder.state.error == UnexpectedEof ==> future == []
      ensures Meaning(cfg, NewDecoder(mode), s.arrived + future) == Reject(PayloadOf(frames))
    {
      assert Meaning(cfg, NewDecoder(mode), s.arrived + future) == Account(s, Meaning(cfg, s.decoder, s.buffer + future));
      assert s.delivered + [] == s.delivered;
    }
  }
}
