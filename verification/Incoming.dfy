/** The application's end of a received body, and the end-to-end guarantee of receiving. */
module IncomingBody {
  import opened Prelude
  import opened ChunkGrammar
  import opened Encoding
  import opened Receiving
  import Rendezvous
  import RendezvousRuns

  datatype IncomingError<E> = Violated | EndedEarly | PipeFailed(error: E) | DriverLost

  /** An incoming body: whether its endpoint is still held, and what it promises is to come. */
  datatype Body = Body(open: bool, size: SizeHint, trailers: TrailerHint, trailersSeen: bool)

  type Answer<E> = Result<Option<Frame>, Rendezvous.TakeError<E>>

  predicate NeedsEndpoint(mode: BodyMode) { mode != NoBody && mode != FixedLength(0) }

  function NewBody(mode: BodyMode): Body
  {
    match mode
    case NoBody => Body(false, SizeHint(0, Some(0)), NoTrailers, false)
    case FixedLength(n) => Body(n != 0, SizeHint(n, Some(n)), NoTrailers, false)
    case ChunkedBody => Body(true, SizeHint(0, None), MayHave, false)
    case UntilClose => Body(true, SizeHint(0, None), NoTrailers, false)
  }

  function Minus(a: nat, b: nat): nat { if a <= b then 0 else a - b }

  function Observe(b: Body, frame: Frame): (after: Option<Body>)
    ensures after.Some? ==> after.value.open == b.open
  {
    match frame
    case DataFrame(data) =>
      if b.trailersSeen || (b.size.upper.Some? && |data| > b.size.upper.value) then None
      else
        var lower := Minus(b.size.lower, |data|);
        var upper := if b.size.upper.Some? then Some(b.size.upper.value - |data|) else None;
        if upper.Some? && lower > upper.value then None else Some(b.(size := SizeHint(lower, upper)))
    case TrailersFrame(_) =>
      if b.trailers == NoTrailers || b.trailersSeen || b.size.lower != 0 then None
      else Some(b.(trailersSeen := true, trailers := NoTrailers, size := SizeHint(0, Some(0))))
  }

  function Ended(b: Body): Body
  {
    b.(open := false, size := SizeHint(0, Some(0)), trailers := NoTrailers)
  }

  function Next<E>(b: Body, answer: Answer<E>): (Body, Result<Option<Frame>, IncomingError<E>>)
  {
    if !b.open then (b, Ok(None))
    else
      match answer
      case Ok(Some(frame)) =>
        var after := Observe(b, frame);
        if after.Some? then (after.value, Ok(Some(frame))) else (Ended(b), Err(Violated))
      case Ok(None) => (Ended(b), if b.size.lower != 0 then Err(EndedEarly) else Ok(None))
      case Err(TakeFailed(error)) => (Ended(b), Err(PipeFailed(error)))
      case Err(TakeDisconnected) => (Ended(b), Err(DriverLost))
  }

  class Incoming {
    var open: bool
    var size: SizeHint
    var trailers: TrailerHint
    var trailersSeen: bool

    constructor (mode: BodyMode)
      ensures View() == NewBody(mode)
    {
      var b := NewBody(mode);
      open, size, trailers, trailersSeen := b.open, b.size, b.trailers, b.trailersSeen;
    }

    function View(): Body
      reads this
    {
      Body(open, size, trailers, trailersSeen)
    }

    method Finish()
      modifies this
      ensures View() == Ended(old(View()))
    {
      open, size, trailers := false, SizeHint(0, Some(0)), NoTrailers;
    }

    /** Check one frame against the promise and narrow the promise. */
    method ObserveFrame(frame: Frame) returns (ok: bool)
      modifies this
      ensures ok <==> Observe(old(View()), frame).Some?
      ensures View() == if ok then Observe(old(View()), frame).value else old(View())
    {
      match frame {
        case DataFrame(data) =>
          if trailersSeen || (size.upper.Some? && |data| > size.upper.value) { return false; }
          var lower := Minus(size.lower, |data|);
          var upper := if size.upper.Some? then Some(size.upper.value - |data|) else None;
          if upper.Some? && lower > upper.value { return false; }
          size := SizeHint(lower, upper);
        case TrailersFrame(_) =>
          if trailers == NoTrailers || trailersSeen || size.lower != 0 { return false; }
          trailersSeen, trailers, size := true, NoTrailers, SizeHint(0, Some(0));
      }
      return true;
    }

    /** One wait for a frame, with the answer the rendezvous gives. */
    method NextFrame<E>(answer: Answer<E>) returns (r: Result<Option<Frame>, IncomingError<E>>)
      modifies this
      ensures (View(), r) == Next(old(View()), answer)
    {
      if !open { return Ok(None); }
      match answer {
        case Ok(Some(frame)) =>
          var ok := ObserveFrame(frame);
          if ok { return Ok(Some(frame)); }
          r := Err(Violated);
        case Ok(None) => r := if size.lower != 0 then Err(EndedEarly) else Ok(None);
        case Err(TakeFailed(error)) => r := Err(PipeFailed(error));
        case Err(TakeDisconnected) => r := Err(DriverLost);
      }
      Finish();
    }
  }

  // ---- faithful frames are never refused --------------------------------------------

  function ObserveAll(b: Body, frames: seq<Frame>): Option<Body>
  {
    if frames == [] then Some(b)
    else
      var before := ObserveAll(b, frames[..|frames| - 1]);
      if before.None? then None else Observe(before.value, frames[|frames| - 1])
  }

  datatype DrainError<E> = OverLimit | Receive(error: IncomingError<E>)

  /** The answers so far brought exactly these frames. */
  predicate Brought<E>(answers: seq<Answer<E>>, frames: seq<Frame>)
  {
    |frames| <= |answers| && forall i :: 0 <= i < |frames| ==> answers[i] == Ok(Some(frames[i]))
  }

  /** Discard the rest of a body within a payload limit. The frames discarded are those answered. The
      drain ends well exactly at the clean end of the body, within the limit; it gives up at the
      first frame that goes beyond the limit, or with the failure that was answered. */
  method Drain<E>(body: Incoming, max: nat, answers: seq<Answer<E>>)
    returns (r: Option<Result<(), DrainError<E>>>, discarded: seq<Frame>)
    modifies body
    ensures Brought(answers, discarded)
    ensures r.Some? && r.value.Ok? ==>
      && |PayloadOf(discarded)| <= max && !body.open && ObserveAll(old(body.View()), discarded).Some?
      && (if old(body.open) then |discarded| < |answers| && answers[|discarded|] == Ok(None) else discarded == [])
    ensures r == Some(Err(OverLimit)) ==>
      && discarded != [] && |PayloadOf(discarded)| > max
      && |PayloadOf(discarded[..|discarded| - 1])| <= max
    ensures r.Some? && r.value.Err? && r.value.error.Receive? ==>
      && |PayloadOf(discarded)| <= max && |discarded| < |answers|
      && var b := ObserveAll(old(body.View()), discarded);
         b.Some? && Next(b.value, answers[|discarded|]).1 == Err(r.value.error.error)
    ensures r.None? ==>
      && |PayloadOf(discarded)| <= max && |discarded| == |answers|
      && ObserveAll(old(body.View()), discarded) == Some(body.View())
  {
    hide Observe, PayloadOf;
    var remaining: nat := max;
    discarded := [];
    NoPayload();
    if !body.open { return Some(Ok(())), discarded; }
    for i := 0 to |answers|
      invariant remaining + |PayloadOf(discarded)| == max && body.open
      invariant |discarded| == i && Brought(answers, discarded)
      invariant ObserveAll(old(body.View()), discarded) == Some(body.View())
    {
      var next := body.NextFrame(answers[i]);
      if next.Err? { return Some(Err(Receive(next.error))), discarded; }
      if next.value.None? { return Some(Ok(())), discarded; }
      var frame := next.value.value;
      DataPush(discarded, frame);
      assert (discarded + [frame])[..|discarded|] == discarded;
      discarded := discarded + [frame];
      if frame.DataFrame? {
        if |frame.data| > remaining { return Some(Err(OverLimit)), discarded; }
        remaining := remaining - |frame.data|;
      }
    }
    return None, discarded;
  }

  lemma NoPayload()
    ensures PayloadOf([]) == []
  {
  }

  /** Frames that keep the promise of their framing: trailers at most once, last and only when chunked,
      and no more payload than a declared length. */
  predicate Fits(mode: BodyMode, frames: seq<Frame>)
  {
    && (forall i :: 0 <= i < |frames| - 1 ==> frames[i].DataFrame?)
    && (TrailersIn(frames).Some? ==> mode == ChunkedBody)
    && (mode.FixedLength? ==> |PayloadOf(frames)| <= mode.length)
  }

  /** What is still promised after some frames. */
  function Promise(mode: BodyMode, frames: seq<Frame>): Body
    requires Fits(mode, frames)
  {
    var b := NewBody(mode);
    if mode.FixedLength? then
      var rest := mode.length - |PayloadOf(frames)|;
      b.(size := SizeHint(rest, Some(rest)))
    else if TrailersIn(frames).Some? then b.(trailersSeen := true, trailers := NoTrailers, size := SizeHint(0, Some(0)))
    else b
  }

  /** Exactly the fitting frames pass, and they leave the promise of what is still to come. */
  lemma {:induction false} FittingFramesPass(mode: BodyMode, frames: seq<Frame>)
    requires mode != NoBody
    ensures ObserveAll(NewBody(mode), frames) == if Fits(mode, frames) then Some(Promise(mode, frames)) else None
  {
    if frames != [] {
      var n := |frames| - 1;
      var front, last := frames[..n], frames[n];
      FittingFramesPass(mode, front);
      OneMoreFits(mode, front, last);
      assert front + [last] == frames;
    }
  }

  lemma OneMoreFits(mode: BodyMode, front: seq<Frame>, last: Frame)
    requires mode != NoBody
    ensures Fits(mode, front + [last]) ==> Fits(mode, front)
    ensures Fits(mode, front) ==>
      Observe(Promise(mode, front), last)
      == if Fits(mode, front + [last]) then Some(Promise(mode, front + [last])) else None
  {
    hide PayloadOf;
    var frames := front + [last];
    DataPush(front, last);
    NoPayload();
    assert forall i :: 0 <= i < |front| ==> frames[i] == front[i];
    if front != [] { assert frames[|front| - 1] == front[|front| - 1]; }
  }

  lemma FaithfulFits(cfg: Config, mode: BodyMode, wire: Bytes, frames: seq<Frame>)
    requires Faithful(cfg, mode, wire, frames)
    ensures Fits(mode, frames)
  {
    assert PayloadOf(frames) <= Meaning(cfg, NewDecoder(mode), wire + []).payload;
  }

  lemma {:induction false} FaithfulPrefix(cfg: Config, mode: BodyMode, wire: Bytes, frames: seq<Frame>, k: nat)
    requires Faithful(cfg, mode, wire, frames) && k <= |frames|
    ensures Faithful(cfg, mode, wire, frames[..k])
    decreases |frames|
  {
    hide Meaning;
    if k < |frames| {
      var n := |frames| - 1;
      assert frames[..n] + [frames[n]] == frames;
      DataPush(frames[..n], frames[n]);
      assert PayloadOf(frames[..n]) <= PayloadOf(frames);
      FaithfulPrefix(cfg, mode, wire, frames[..n], k);
      assert frames[..n][..k] == frames[..k];
    } else {
      assert frames[..k] == frames;
    }
  }

  // ---- what the application takes ---------------------------------------------------

  lemma {:induction false} TakenPrefix(offers: seq<Frame>, fates: seq<RendezvousRuns.Fate>, k: nat)
    requires |offers| == |fates| && k <= |offers| <= k + 1
    requires forall i :: 0 <= i < k ==> fates[i] == RendezvousRuns.Taken
    ensures var taken := RendezvousRuns.Pick(offers, fates, RendezvousRuns.Taken);
      taken == offers[..k] || taken == offers
    decreases |offers|
  {
    if offers != [] {
      var n := |offers| - 1;
      if n < k {
        TakenPrefix(offers[..n], fates[..n], n);
        assert offers[..n] + [offers[n]] == offers;
        assert offers[..n][..n] == offers[..n];
      } else {
        if k > 0 {
          TakenPrefix(offers[..n], fates[..n], k);
          assert offers[..n][..k] == offers[..k];
        }
        assert offers[..k] + [offers[n]] == offers;
      }
    }
  }

  lemma WholeLength(cfg: Config, mode: BodyMode, wire: Bytes, eof: bool, frames: seq<Frame>, unread: Bytes, extensions: nat)
    requires mode.FixedLength? && WholeBody(cfg, mode, wire, eof, frames, unread, extensions)
    ensures |PayloadOf(frames)| == mode.length
  {
    hide PayloadOf;
    assert Meaning(cfg, NewDecoder(mode), wire + []) == Accept(PayloadOf(frames), TrailersIn(frames), unread + [], extensions);
  }
}
