/** Transport ownership after a protocol switch or tunnel: one claim, one hand-over, and reads
    that serve read-ahead first. */
module Upgrade {
  import opened Prelude
  import opened Tasks

  /** The types of a transport's two halves, by type identity. */
  datatype Halves = Halves(reader: nat, writer: nat)

  datatype Target = Typed(halves: Halves) | Boxed

  /** Erased halves have types of their own. */
  const BOXED_HALVES := Halves(0, 0)

  function Expected(t: Target): Halves { if t.Boxed? then BOXED_HALVES else t.halves }

  datatype Phase = Unclaimed | Claimed(target: Target, alive: bool) | Retired

  /** A transport with its read-ahead, stored under the types of its halves. */
  datatype Transport = Transport(id: nat, halves: Halves, readAhead: Bytes)

  datatype Fault = AlreadyClaimed | NoLongerAvailable | WrongTypes | NotUpgraded | Mismatch

  datatype State = State(phase: Phase, result: Option<Result<Transport, Fault>>, waker: Option<Waker>)

  const NEW_STATE := State(Unclaimed, None, None)

  function ClaimTarget(s: State, target: Target): Result<State, Fault>
  {
    match s.phase
    case Unclaimed => Ok(s.(phase := Claimed(target, true)))
    case Claimed(_, _) => Err(AlreadyClaimed)
    case Retired => Err(NoLongerAvailable)
  }

  function Box(t: Transport): Transport { t.(halves := BOXED_HALVES) }

  /** Deliver to a live claim of the right type, or hand the transport back. */
  function Fulfill(s: State, t: Transport): (State, Option<Transport>, Option<Waker>)
  {
    var retired := s.(phase := Retired, waker := None);
    if s.phase.Claimed? && s.phase.alive then
      if s.phase.target == Typed(t.halves) || s.phase.target.Boxed? then
        (retired.(result := Some(Ok(if s.phase.target.Boxed? then Box(t) else t))), None, s.waker)
      else (retired.(result := Some(Err(WrongTypes))), Some(t), s.waker)
    else (retired, Some(t), s.waker)
  }

  /** The driver's end goes away without an upgrade. */
  function Abandon(s: State): (State, Option<Waker>)
  {
    var retired := s.(phase := Retired, waker := None);
    (if s.phase.Claimed? && s.phase.alive then retired.(result := Some(Err(NotUpgraded))) else retired, s.waker)
  }

  function PollClaim(s: State, w: Waker): (State, Option<Result<Transport, Fault>>)
  {
    if s.result.Some? then (s.(result := None), s.result) else (s.(waker := Some(w)), None)
  }

  /** The claimant downcasts what it finds to the halves it asked for. */
  function Downcast(r: Result<Transport, Fault>, expected: Halves): Result<Transport, Fault>
  {
    if r.Ok? && r.value.halves != expected then Err(Mismatch) else r
  }

  function DropClaim(s: State): (State, Option<Result<Transport, Fault>>)
  {
    (s.(phase := if s.phase.Claimed? then s.phase.(alive := false) else s.phase, waker := None, result := None), s.result)
  }

  class UpgradeState {
    var phase: Phase
    var result: Option<Result<Transport, Fault>>
    var waker: Option<Waker>

    constructor ()
      ensures View() == NEW_STATE
    {
      phase, result, waker := Unclaimed, None, None;
    }

    function View(): State
      reads this
    {
      State(phase, result, waker)
    }

    method Claim(target: Target) returns (fault: Option<Fault>)
      modifies this
      ensures var r := ClaimTarget(old(View()), target);
        if r.Ok? then fault == None && View() == r.value else fault == Some(r.error) && View() == old(View())
    {
      match phase
      case Unclaimed =>
        phase := Claimed(target, true);
        return None;
      case Claimed(_, _) => return Some(AlreadyClaimed);
      case Retired => return Some(NoLongerAvailable);
    }

    method Deliver(t: Transport) returns (kept: Option<Transport>, wake: Option<Waker>)
      modifies this
      ensures (View(), kept, wake) == Fulfill(old(View()), t)
    {
      var was := phase;
      phase, wake, waker := Retired, waker, None;
      if was.Claimed? && was.alive {
        if was.target == Typed(t.halves) || was.target.Boxed? {
          result := Some(Ok(if was.target.Boxed? then Box(t) else t));
          return None, wake;
        }
        result := Some(Err(WrongTypes));
      }
      return Some(t), wake;
    }

    method DropPending() returns (wake: Option<Waker>)
      modifies this
      ensures (View(), wake) == Abandon(old(View()))
    {
      if phase.Claimed? && phase.alive { result := Some(Err(NotUpgraded)); }
      phase, wake, waker := Retired, waker, None;
    }

    method Poll(w: Waker) returns (r: Option<Result<Transport, Fault>>)
      modifies this
      ensures (View(), r) == PollClaim(old(View()), w)
    {
      r := result;
      result := None;
      if r.None? { waker := Some(w); }
    }

    method DropFuture() returns (lost: Option<Result<Transport, Fault>>)
      modifies this
      ensures (View(), lost) == DropClaim(old(View()))
    {
      if phase.Claimed? { phase := phase.(alive := false); }
      lost, waker, result := result, None, None;
    }
  }

  // ---- every interleaving of the driver and the claimant ----------------------------

  /** The one future that holds the claim. */
  datatype Future = Future(target: Target, progress: Progress)

  datatype Machine = Machine(
    state: State,
    driver: Option<Transport>,         // until it is handed off
    settled: bool,                     // fulfilled or abandoned
    outcome: seq<Transport>,           // returned through the connection outcome
    future: Option<Future>,
    claimant: seq<Transport>,          // received by the claimant
    destroyed: seq<Transport>,         // dropped with a result nobody read
    granted: nat,
    answers: seq<Result<Transport, Fault>>)

  datatype Event =
    | MakeClaim(target: Target)
    | PollFuture(w: Waker)
    | DropFuture
    | HandOff
    | NoUpgrade

  function Initial(t: Transport): Machine
  {
    Machine(NEW_STATE, Some(t), false, [], None, [], [], 0, [])
  }

  predicate Enabled(m: Machine, e: Event)
  {
    match e
    case MakeClaim(_) => true
    case PollFuture(_) => m.future.Some?
    case DropFuture => m.future.Some?
    case HandOff => !m.settled && m.driver.Some?
    case NoUpgrade => !m.settled && m.driver.Some?
  }

  function WakeFuture(f: Option<Future>, who: Option<Waker>): Option<Future>
  {
    if f.None? then None else Some(f.value.(progress := Rouse(f.value.progress, who)))
  }

  function Step(m: Machine, e: Event): Machine
    requires Enabled(m, e)
  {
    match e
    case MakeClaim(target) =>
      var r := ClaimTarget(m.state, target);
      if r.Err? then m
      else m.(state := r.value, future := Some(Future(target, Unpolled)), granted := m.granted + 1)
    case PollFuture(w) =>
      var (s, r) := PollClaim(m.state, w);
      if r.None? then m.(state := s, future := Some(m.future.value.(progress := Waiting(w, false))))
      else
        var answer := Downcast(r.value, Expected(m.future.value.target));
        m.(state := s, future := None, answers := m.answers + [answer],
           claimant := if answer.Ok? then m.claimant + [answer.value] else m.claimant,
           destroyed := if answer.Err? && r.value.Ok? then m.destroyed + [r.value.value] else m.destroyed)
    case DropFuture =>
      var (s, lost) := DropClaim(m.state);
      m.(state := s, future := None,
         destroyed := if lost.Some? && lost.value.Ok? then m.destroyed + [lost.value.value] else m.destroyed)
    case HandOff =>
      var (s, kept, wake) := Fulfill(m.state, m.driver.value);
      m.(state := s, driver := None, settled := true, future := WakeFuture(m.future, wake),
         outcome := if kept.Some? then m.outcome + [kept.value] else m.outcome)
    case NoUpgrade =>
      var (s, wake) := Abandon(m.state);
      m.(state := s, settled := true, future := WakeFuture(m.future, wake))
  }

  predicate Allowed(m: Machine, events: seq<Event>)
    decreases |events|
  {
    events == [] || (Enabled(m, events[0]) && Allowed(Step(m, events[0]), events[1..]))
  }

  function RunFrom(m: Machine, events: seq<Event>): Machine
    requires Allowed(m, events)
    decreases |events|
  {
    if events == [] then m else RunFrom(Step(m, events[0]), events[1..])
  }

  function Stored(s: State): seq<Transport>
  {
    if s.result.Some? && s.result.value.Ok? then [s.result.value.value] else []
  }

  function AtDriver(m: Machine): seq<Transport>
  {
    if m.driver.Some? then [m.driver.value] else []
  }

  predicate IsIt(t: Transport, where: seq<Transport>)
  {
    forall i :: 0 <= i < |where| ==> where[i].id == t.id && where[i].readAhead == t.readAhead
  }

  /** The transport and its read-ahead are in exactly one place. */
  predicate InOnePlace(t: Transport, m: Machine)
  {
    && |AtDriver(m)| + |m.outcome| + |Stored(m.state)| + |m.claimant| + |m.destroyed| == 1
    && (m.driver.Some? ==> m.driver.value == t) && IsIt(t, AtDriver(m)) && IsIt(t, m.outcome) && IsIt(t, Stored(m.state)) && IsIt(t, m.claimant) && IsIt(t, m.destroyed)
  }

  /** The claim's future, what it expects, and what has been stored for it. */
  predicate ClaimKept(m: Machine)
  {
    && (!m.settled ==> m.driver.Some?) && (m.state.phase.Retired? <==> m.settled)
    && m.granted <= 1 && (m.state.phase.Unclaimed? ==> m.granted == 0 && m.future.None?)
    && (m.future.Some? ==> m.granted == 1 && m.answers == [])
    && (m.state.phase.Claimed? ==>
          && (m.future.Some? <==> m.state.phase.alive)
          && (m.future.Some? ==> m.future.value.target == m.state.phase.target))
    && (m.state.result.Some? <==> m.settled && m.future.Some?)
    && (m.state.result.Some? ==>
          match m.state.result.value
          case Ok(stored) => stored.halves == Expected(m.future.value.target)
          case Err(fault) => fault != Mismatch)
    && |m.answers| <= m.granted && Err(Mismatch) !in m.answers
    && (!m.settled && m.granted == 0 ==> m.state.phase.Unclaimed?)
  }

  /** A waiting claim was woken, or nothing has been decided and its waker is registered. */
  predicate NoLostWakeup(m: Machine)
  {
    m.future.Some? && Asleep(m.future.value.progress) ==>
      !m.settled && m.state.waker == Some(m.future.value.progress.waker)
  }

  predicate Inv(t: Transport, m: Machine)
  {
    InOnePlace(t, m) && ClaimKept(m) && NoLostWakeup(m)
  }

  lemma PlaceKept(t: Transport, m: Machine, e: Event)
    requires Inv(t, m) && Enabled(m, e)
    ensures InOnePlace(t, Step(m, e))
  {
    assert m.driver.Some? ==> AtDriver(m)[0] == m.driver.value;
    assert Stored(m.state) != [] ==> Stored(m.state)[0] == m.state.result.value.value;
  }

  lemma ClaimStepKeeps(t: Transport, m: Machine, e: Event)
    requires Inv(t, m) && Enabled(m, e)
    ensures ClaimKept(Step(m, e)) && NoLostWakeup(Step(m, e))
  {
    hide InOnePlace;
  }

  lemma {:induction false} EveryRun(t: Transport, m: Machine, events: seq<Event>)
    requires Inv(t, m) && Allowed(m, events)
    ensures Inv(t, RunFrom(m, events))
    decreases |events|
  {
    hide Step, Enabled, InOnePlace, ClaimKept, NoLostWakeup;
    if events != [] {
      PlaceKept(t, m, events[0]);
      ClaimStepKeeps(t, m, events[0]);
      EveryRun(t, Step(m, events[0]), events[1..]);
    }
  }

  lemma InitialInv(t: Transport)
    ensures Inv(t, Initial(t))
  {
  }

  /** In every run the halves and their read-ahead are in exactly one place: with the driver, in
      the connection outcome, stored for the claim, with the claimant, or destroyed with a result
      that its claimant dropped unread. */
  lemma OneOwner(t: Transport, events: seq<Event>)
    requires Allowed(Initial(t), events)
    ensures InOnePlace(t, RunFrom(Initial(t), events))
  {
    hide Step, Enabled, InOnePlace, ClaimKept, NoLostWakeup;
    InitialInv(t);
    EveryRun(t, Initial(t), events);
  }

  /** At most one claim is ever granted, it is answered at most once and never with a failed
      downcast; a claim after the hand-over is refused. */
  lemma OneClaim(t: Transport, events: seq<Event>, target: Target)
    requires Allowed(Initial(t), events)
    ensures var m := RunFrom(Initial(t), events);
      && m.granted <= 1 && |m.answers| <= 1 && Err(Mismatch) !in m.answers
      && (ClaimTarget(m.state, target).Ok? <==> !m.settled && m.granted == 0)
  {
    hide Step, Enabled, InOnePlace, NoLostWakeup;
    InitialInv(t);
    EveryRun(t, Initial(t), events);
  }

  /** A live claim is resolved once the driver has settled: it has been woken, and its poll answers,
      with the transport exactly when one was stored for it. */
  lemma LiveClaimsResolve(t: Transport, events: seq<Event>, w: Waker)
    requires Allowed(Initial(t), events)
    ensures var m := RunFrom(Initial(t), events);
      m.future.Some? && m.settled ==>
        && !Asleep(m.future.value.progress)
        && var m' := Step(m, PollFuture(w));
           && m'.future.None? && |m'.answers| == 1
           && m'.claimant == m.claimant + Stored(m.state) && m'.destroyed == m.destroyed
  {
    hide InOnePlace;
    InitialInv(t);
    EveryRun(t, Initial(t), events);
  }

  /** The claim takes these halves: any, once boxed, or exactly those it names. */
  predicate Accepts(target: Target, halves: Halves) { target.Boxed? || target.halves == halves }

  /** What a hand-over comes to in every run. A live claim of the right type receives the transport with
      its read-ahead; one of another type is told so, and without a live claim, or with the wrong one,
      the transport goes to the connection's outcome as it was. A claim polled earlier waits, and one
      whose driver gives up is told that no upgrade happened. */
  lemma HandOverReaches(t: Transport, events: seq<Event>, w: Waker)
    requires Allowed(Initial(t), events)
    ensures var m := RunFrom(Initial(t), events);
      && (Enabled(m, HandOff) ==>
            var handed := Step(m, HandOff);
            if m.future.None? then handed.outcome == [t] && handed.claimant == []
            else
              var polled := Step(handed, PollFuture(w));
              if Accepts(m.future.value.target, t.halves) then
                polled.outcome == [] && polled.claimant == [t.(halves := Expected(m.future.value.target))]
              else polled.outcome == [t] && polled.claimant == [] && polled.answers == [Err(WrongTypes)])
      && (Enabled(m, NoUpgrade) && m.future.Some? ==>
            Step(Step(m, NoUpgrade), PollFuture(w)).answers == [Err(NotUpgraded)])
      && (m.future.Some? && !m.settled ==>
            Step(m, PollFuture(w)).future == Some(m.future.value.(progress := Waiting(w, false))))
  {
    InitialInv(t);
    EveryRun(t, Initial(t), events);
    var m := RunFrom(Initial(t), events);
    if Enabled(m, HandOff) { NothingMovedYet(t, m); }
  }

  /** While the driver has the transport nobody else does. */
  lemma NothingMovedYet(t: Transport, m: Machine)
    requires InOnePlace(t, m) && m.driver.Some?
    ensures m.driver.value == t && m.outcome == [] && m.claimant == []
  {
  }

  // ---- reading after the hand-over --------------------------------------------------

  /** The read side: retained bytes, and what the transport will still deliver. */
  class PrefixedReader {
    var readAhead: Bytes
    var source: Bytes

    constructor (readAhead: Bytes, source: Bytes)
      ensures this.readAhead == readAhead && this.source == source
    {
      this.readAhead, this.source := readAhead, source;
    }

    function Unread(): Bytes
      reads this
    {
      readAhead + source
    }

    /** A transport read: a short completion of at most `available` bytes. */
    method ReadSource(buffer: array<Byte>, available: nat) returns (count: nat)
      modifies this, buffer
      ensures readAhead == old(readAhead) && count <= buffer.Length && count <= available
      ensures buffer[..count] + source == old(source)
    {
      count := if available < |source| then available else |source|;
      if buffer.Length < count { count := buffer.Length; }
      for i := 0 to count
        invariant count <= buffer.Length && count <= |source|
        invariant source == old(source) && readAhead == old(readAhead)
        invariant buffer[..i] == source[..i]
      {
        buffer[i] := source[i];
      }
      source := source[count..];
    }

    /** Serve retained bytes before the transport is asked for more. */
    method ReadPrefixed(buffer: array<Byte>, available: nat) returns (count: nat)
      modifies this, buffer
      ensures count <= buffer.Length
      ensures buffer[..count] + Unread() == old(Unread())
      ensures old(readAhead) != [] ==>
        && source == old(source)
        && count == (if buffer.Length < |old(readAhead)| then buffer.Length else |old(readAhead)|)
    {
      if readAhead == [] {
        count := ReadSource(buffer, available);
        assert readAhead + source == source && [] + old(source) == old(source);
        return;
      }
      count := if buffer.Length < |readAhead| then buffer.Length else |readAhead|;
      for i := 0 to count
        invariant count <= buffer.Length && count <= |readAhead|
        invariant source == old(source) && readAhead == old(readAhead)
        invariant buffer[..i] == readAhead[..i]
      {
        buffer[i] := readAhead[i];
      }
      readAhead := readAhead[count..];
      assert old(readAhead) == old(readAhead)[..count] + readAhead;
      Assoc(buffer[..count], readAhead, source);
    }

    /** The same over several buffers; `filled` says what each buffer got. */
    method ReadVectoredPrefixed(buffers: seq<array<Byte>>, available: nat) returns (count: nat, ghost filled: seq<Bytes>)
      requires forall i, j :: 0 <= i < j < |buffers| ==> buffers[i] != buffers[j]
      modifies this, buffers
      ensures |Join(filled)| == count && Laid(buffers, filled)
      ensures Join(filled) + Unread() == old(Unread())
      ensures old(readAhead) != [] ==> source == old(source)
      ensures old(readAhead) != [] && count < |old(readAhead)| ==> AllFull(buffers, filled)
    {
      hide Join, Laid, AllFull;
      if readAhead == [] {
        var n := if available < |source| then available else |source|;
        count, filled := Spread(buffers, source[..n]);
        assert source[..n][..count] == source[..count];
        source := source[count..];
        assert old(source) == old(source)[..count] + source;
        assert [] + source == source && [] + old(source) == old(source);
        return;
      }
      count, filled := Spread(buffers, readAhead);
      readAhead := readAhead[count..];
      assert old(readAhead) == old(readAhead)[..count] + readAhead;
      Assoc(Join(filled), readAhead, source);
    }
  }

  /** Each buffer starts with its piece, and only the last piece may leave room. */
  ghost predicate Laid(buffers: seq<array<Byte>>, filled: seq<Bytes>)
    reads buffers
  {
    && |filled| <= |buffers|
    && (forall i :: 0 <= i < |filled| ==> |filled[i]| <= buffers[i].Length && buffers[i][..|filled[i]|] == filled[i])
    && (forall i :: 0 <= i < |filled| - 1 ==> |filled[i]| == buffers[i].Length)
  }

  ghost predicate AllFull(buffers: seq<array<Byte>>, filled: seq<Bytes>)
  {
    |filled| == |buffers| && forall i :: 0 <= i < |filled| ==> |filled[i]| == buffers[i].Length
  }

  /** Spread bytes over buffers, filling each before the next. */
  method Spread(buffers: seq<array<Byte>>, bytes: Bytes) returns (count: nat, ghost filled: seq<Bytes>)
    requires forall i, j :: 0 <= i < j < |buffers| ==> buffers[i] != buffers[j]
    modifies buffers
    ensures count <= |bytes| && Join(filled) == bytes[..count] && Laid(buffers, filled)
    ensures count < |bytes| ==> AllFull(buffers, filled)
  {
    hide Join;
    count, filled := 0, [];
    JoinNothing();
    var next := 0;
    while next < |buffers| && count < |bytes|
      invariant next == |filled| <= |buffers| && count <= |bytes|
      invariant forall i :: 0 <= i < |filled| ==> |filled[i]| <= buffers[i].Length && buffers[i][..|filled[i]|] == filled[i]
      invariant forall i :: 0 <= i < |filled| - 1 ==> |filled[i]| == buffers[i].Length
      invariant count < |bytes| ==> forall i :: 0 <= i < |filled| ==> |filled[i]| == buffers[i].Length
      invariant Join(filled) == bytes[..count]
      decreases |buffers| - next
    {
      var buffer := buffers[next];
      var n := if buffer.Length < |bytes| - count then buffer.Length else |bytes| - count;
      CopyInto(buffer, bytes[count..count + n]);
      ghost var piece := bytes[count..count + n];
      JoinTake(filled + [piece], |filled|);
      assert (filled + [piece])[..|filled|] == filled && (filled + [piece])[..|filled| + 1] == filled + [piece];
      assert bytes[..count] + piece == bytes[..count + n];
      filled := filled + [piece];
      count := count + n;
      next := next + 1;
    }
  }

  method CopyInto(buffer: array<Byte>, bytes: Bytes)
    requires |bytes| <= buffer.Length
    modifies buffer
    ensures buffer[..|bytes|] == bytes
  {
    for i := 0 to |bytes|
      invariant buffer[..i] == bytes[..i]
    {
      buffer[i] := bytes[i];
    }
    assert bytes[..|bytes|] == bytes;
  }

  /** A read into one buffer or into several, of these sizes, and how much the transport would give. */
  datatype ReadRequest = Scalar(size: nat, available: nat) | Vectored(sizes: seq<nat>, available: nat)

  /** Buffers of the requested sizes, all distinct. */
  method NewBuffers(sizes: seq<nat>) returns (buffers: seq<array<Byte>>)
    ensures |buffers| == |sizes| && forall i :: 0 <= i < |sizes| ==> fresh(buffers[i]) && buffers[i].Length == sizes[i]
    ensures forall i, j :: 0 <= i < j < |buffers| ==> buffers[i] != buffers[j]
  {
    buffers := [];
    for k := 0 to |sizes|
      invariant |buffers| == k && forall i :: 0 <= i < k ==> fresh(buffers[i]) && buffers[i].Length == sizes[i]
      invariant forall i, j :: 0 <= i < j < k ==> buffers[i] != buffers[j]
    {
      var buffer := new Byte[sizes[k]](_ => 0);
      buffers := buffers + [buffer];
    }
  }

  /** Any sequence of scalar and vectored reads yields the read-ahead and then the transport's bytes,
      none lost and none repeated. */
  method ReadMany(reader: PrefixedReader, requests: seq<ReadRequest>) returns (ghost got: Bytes)
    modifies reader
    ensures got + reader.Unread() == old(reader.Unread())
  {
    hide Join, Laid, AllFull;
    got := [];
    assert [] + reader.Unread() == reader.Unread();
    for i := 0 to |requests|
      invariant got + reader.Unread() == old(reader.Unread())
    {
      match requests[i] {
        case Scalar(size, available) =>
          var buffer := new Byte[size](_ => 0);
          var count := reader.ReadPrefixed(buffer, available);
          Assoc(got, buffer[..count], reader.Unread());
          got := got + buffer[..count];
        case Vectored(sizes, available) =>
          var buffers := NewBuffers(sizes);
          var count, filled := reader.ReadVectoredPrefixed(buffers, available);
          Assoc(got, Join(filled), reader.Unread());
          got := got + Join(filled);
      }
    }
  }
}
