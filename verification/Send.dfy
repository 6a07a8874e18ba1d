/** Partial writes and the transmission of a whole body. */
module Transmission {
  import opened Prelude
  import opened Radix
  import opened ChunkGrammar
  import opened Encoding
  import opened RoundTrip

  datatype IoError = WriteZero | OverReported | OperationCanceled | LengthOverflow | Interrupted | Failure(code: nat)

  /** What one submission to the transport comes to: a short or full completion, a count beyond
      what was offered, an interruption, or an error after silently taking some bytes. */
  datatype WriteStep = Takes(count: nat) | OverReports(excess: nat) | IsInterrupted | Fails(taken: nat, error: IoError)

  /** Whether cancellation was requested before the submission, and how the submission goes. */
  datatype WriteTurn = WriteTurn(canceled: bool, step: WriteStep)

  function Least(a: nat, b: nat): nat { if a <= b then a else b }

  /** The count or error that a submission of so many bytes reports. */
  function Report(step: WriteStep, offered: nat): Result<nat, IoError>
  {
    match step
    case Takes(count) => Ok(Least(count, offered))
    case OverReports(excess) => Ok(offered + 1 + excess)
    case IsInterrupted => Err(Interrupted)
    case Fails(_, error) => Err(error)
  }

  /** An adversarial but honest transport: it takes only bytes it was offered, in order. */
  class Transport {
    var accepted: Bytes
    var script: seq<WriteTurn>

    constructor (script: seq<WriteTurn>)
      ensures accepted == [] && this.script == script
    {
      accepted, this.script := [], script;
    }

    /** One submission; `taken` bytes of the view reach the wire. */
    method Write(view: Bytes) returns (r: Result<nat, IoError>, ghost taken: nat)
      requires script != []
      modifies this
      ensures script == old(script)[1..]
      ensures taken <= |view| && accepted == old(accepted) + view[..taken]
      ensures r.Ok? && r.value <= |view| ==> taken == r.value
      ensures r == Err(Interrupted) ==> taken == 0
      ensures r == Report(old(script)[0].step, |view|)
    {
      var step := script[0].step;
      script := script[1..];
      match step {
        case Takes(count) =>
          var n := Least(count, |view|);
          accepted := accepted + view[..n];
          return Ok(n), n;
        case OverReports(excess) => return Ok(|view| + 1 + excess), 0;
        case IsInterrupted => return Err(Interrupted), 0;
        case Fails(count, error) =>
          var n := if error == Interrupted then 0 else Least(count, |view|);
          accepted := accepted + view[..n];
          return Err(error), n;
      }
    }
  }

  /** Zero and excessive counts are errors; an interruption is no progress and no error. */
  function CheckedProgress(result: Result<nat, IoError>, remaining: nat): (r: Result<nat, IoError>)
    ensures r.Ok? <==> (result.Ok? && 0 < result.value <= remaining) || result == Err(Interrupted)
    ensures r.Ok? ==> r.value == if result.Ok? then result.value else 0
    ensures r.Err? && result.Err? ==> r == result
  {
    match result
    case Ok(count) => if count == 0 then Err(WriteZero) else if count > remaining then Err(OverReported) else Ok(count)
    case Err(error) => if error == Interrupted then Ok(0) else Err(error)
  }

  type Written = Option<Result<nat, IoError>>

  /** What a write loop amounts to: a prefix reached the wire, and success means all of it. */
  ghost predicate PrefixSent(before: Bytes, after: Bytes, whole: Bytes, sent: nat, r: Written)
  {
    && sent <= |whole| && after == before + whole[..sent]
    && (r.Some? && r.value.Ok? ==> sent == |whole| && r.value.value == |whole|)
  }

  lemma SentMore(before: Bytes, whole: Bytes, sent: nat, taken: nat)
    requires sent + taken <= |whole|
    ensures before + whole[..sent] + whole[sent..][..taken] == before + whole[..sent + taken]
  {
    assert whole[..sent] + whole[sent..][..taken] == whole[..sent + taken];
  }

  /** What a write loop with `left` bytes to go answers, turn by turn. */
  function WriteAnswer(script: seq<WriteTurn>, left: nat, total: nat): Written
    decreases |script|
  {
    if left == 0 then Some(Ok(total))
    else if script == [] then None
    else if script[0].canceled then Some(Err(OperationCanceled))
    else
      var progress := CheckedProgress(Report(script[0].step, left), left);
      if progress.Err? then Some(Err(progress.error)) else WriteAnswer(script[1..], left - progress.value, total)
  }

  /** A turn that is not cancelled and takes something or is merely interrupted. */
  predicate CalmTurn(turn: WriteTurn)
  {
    !turn.canceled &&
    match turn.step
    case Takes(count) => count > 0
    case OverReports(_) => false
    case IsInterrupted => true
    case Fails(_, error) => error == Interrupted
  }

  predicate Calm(script: seq<WriteTurn>) { forall i :: 0 <= i < |script| ==> CalmTurn(script[i]) }

  /** How much these turns would take. */
  function Capacity(script: seq<WriteTurn>): nat
  {
    if script == [] then 0
    else (if script[0].step.Takes? then script[0].step.count else 0) + Capacity(script[1..])
  }

  /** So many bytes are taken by calm turns at the front. */
  predicate Enough(script: seq<WriteTurn>, left: nat)
  {
    exists k :: 0 <= k <= |script| && Calm(script[..k]) && left <= Capacity(script[..k])
  }

  /** A write completes if and only if enough of it is taken before anything goes wrong. */
  lemma {:induction false} WritesComplete(script: seq<WriteTurn>, left: nat, total: nat)
    ensures WriteAnswer(script, left, total) == Some(Ok(total)) <==> Enough(script, left)
    decreases |script|
  {
    hide Enough, Calm, Capacity;
    if left == 0 || script == [] {
      EnoughAtOnce(script, left);
    } else {
      EnoughFront(script, left);
      var progress := CheckedProgress(Report(script[0].step, left), left);
      if progress.Ok? { WritesComplete(script[1..], left - progress.value, total); }
    }
  }

  lemma EnoughAtOnce(script: seq<WriteTurn>, left: nat)
    requires left == 0 || script == []
    ensures Enough(script, left) <==> left == 0
  {
    assert script[..0] == [] && Capacity(script[..0]) == 0 && Calm(script[..0]);
  }

  lemma EnoughFront(script: seq<WriteTurn>, left: nat)
    requires script != [] && left > 0
    ensures var taken := if script[0].step.Takes? then Least(script[0].step.count, left) else 0;
      Enough(script, left) <==> CalmTurn(script[0]) && Enough(script[1..], left - taken)
  {
    var rest := script[1..];
    var taken := if script[0].step.Takes? then Least(script[0].step.count, left) else 0;
    if Enough(script, left) {
      var k :| 0 <= k <= |script| && Calm(script[..k]) && left <= Capacity(script[..k]);
      assert Capacity(script[..0]) == 0;
      CalmFront(script, k);
      if taken == left {
        EnoughAtOnce(rest, 0);
      } else {
        assert Calm(rest[..k - 1]) && left - taken <= Capacity(rest[..k - 1]);
      }
    }
    if CalmTurn(script[0]) && Enough(rest, left - taken) {
      var k :| 0 <= k <= |rest| && Calm(rest[..k]) && left - taken <= Capacity(rest[..k]);
      CalmFront(script, k + 1);
      assert rest[..k + 1 - 1] == rest[..k];
      assert Calm(script[..k + 1]) && left <= Capacity(script[..k + 1]);
    }
  }

  lemma CalmFront(script: seq<WriteTurn>, k: nat)
    requires 0 < k <= |script|
    ensures Calm(script[..k]) <==> CalmTurn(script[0]) && Calm(script[1..][..k - 1])
    ensures Capacity(script[..k])
         == (if script[0].step.Takes? then script[0].step.count else 0) + Capacity(script[1..][..k - 1])
  {
    var front, rest := script[..k], script[1..][..k - 1];
    assert front[1..] == rest;
    assert forall i :: 0 <= i < |rest| ==> rest[i] == front[i + 1];
    assert front == [script[0]] + rest;
  }

  /** A calm transport never fails a write. */
  lemma {:induction false} CalmNeverFails(script: seq<WriteTurn>, left: nat, total: nat)
    requires Calm(script)
    ensures WriteAnswer(script, left, total) == None || WriteAnswer(script, left, total) == Some(Ok(total))
    decreases |script|
  {
    if left > 0 && script != [] {
      CalmNeverFails(script[1..], left - CheckedProgress(Report(script[0].step, left), left).value, total);
    }
  }

  /** Write an owned buffer completely. Absent while the transport has not answered. */
  method WriteScalar(writer: Transport, buffer: Bytes) returns (r: Written, ghost sent: nat)
    modifies writer
    ensures PrefixSent(old(writer.accepted), writer.accepted, buffer, sent, r)
    ensures r == WriteAnswer(old(writer.script), |buffer|, |buffer|)
    ensures r.None? ==> writer.script == []
    ensures Calm(old(writer.script)) ==> Calm(writer.script)
  {
    var written := 0;
    sent := 0;
    assert buffer[..0] == [];
    while written < |buffer|
      invariant written == sent <= |buffer| && writer.accepted == old(writer.accepted) + buffer[..sent]
      invariant WriteAnswer(writer.script, |buffer| - written, |buffer|) == WriteAnswer(old(writer.script), |buffer|, |buffer|)
      invariant Calm(old(writer.script)) ==> Calm(writer.script)
      decreases |writer.script|
    {
      if writer.script == [] { return None, sent; }
      if writer.script[0].canceled { return Some(Err(OperationCanceled)), sent; }
      var result, taken := writer.Write(buffer[written..]);
      SentMore(old(writer.accepted), buffer, sent, taken);
      sent := sent + taken;
      var progress := CheckedProgress(result, |buffer| - written);
      if progress.Err? { return Some(Err(progress.error)), sent; }
      written := written + progress.value;
    }
    return Some(Ok(written)), sent;
  }

  /** The components still to be written after the first `n` bytes. */
  function Remaining(parts: seq<Bytes>, n: nat): seq<Bytes>
    requires n <= |Join(parts)|
  {
    if n == 0 then parts
    else if n >= |parts[0]| then Remaining(parts[1..], n - |parts[0]|)
    else [parts[0][n..]] + parts[1..]
  }

  lemma {:induction false} RemainingBytes(parts: seq<Bytes>, n: nat)
    requires n <= |Join(parts)|
    ensures Join(Remaining(parts, n)) == Join(parts)[n..]
  {
    if n > 0 {
      var head, tail := parts[0], Join(parts[1..]);
      if n >= |head| {
        RemainingBytes(parts[1..], n - |head|);
        assert (head + tail)[n..] == tail[n - |head|..];
      } else {
        assert Remaining(parts, n)[1..] == parts[1..];
        assert (head + tail)[n..] == head[n..] + tail;
      }
    }
  }

  /** The sum of the component lengths, unless it overflows 64 bits. */
  method TotalLength(parts: seq<Bytes>) returns (length: Option<nat>)
    ensures length == if |Join(parts)| < U64_LIMIT then Some(|Join(parts)|) else None
  {
    var total := 0;
    for i := 0 to |parts|
      invariant total == |Join(parts[..i])| < U64_LIMIT
    {
      JoinTake(parts, i);
      JoinSplit(parts, i + 1);
      if total + |parts[i]| >= U64_LIMIT { return None; }
      total := total + |parts[i]|;
    }
    assert parts[..|parts|] == parts;
    return Some(total);
  }

  /** Write a vectored collection completely, resuming inside a component where a completion
      stopped there. */
  method WriteVectors(writer: Transport, parts: seq<Bytes>) returns (r: Written, ghost sent: nat)
    modifies writer
    ensures PrefixSent(old(writer.accepted), writer.accepted, Join(parts), sent, r)
    ensures |Join(parts)| >= U64_LIMIT ==> r == Some(Err(LengthOverflow)) && sent == 0
    ensures |Join(parts)| < U64_LIMIT ==> r == WriteAnswer(old(writer.script), |Join(parts)|, |Join(parts)|)
    ensures r.None? ==> writer.script == []
    ensures Calm(old(writer.script)) ==> Calm(writer.script)
  {
    hide Join;
    ghost var whole := Join(parts);
    sent := 0;
    assert whole[..0] == [];
    var length := TotalLength(parts);
    if length.None? { return Some(Err(LengthOverflow)), sent; }
    var written := 0;
    while written < length.value
      invariant written == sent <= |whole| && writer.accepted == old(writer.accepted) + whole[..sent]
      invariant WriteAnswer(writer.script, |whole| - written, |whole|) == WriteAnswer(old(writer.script), |whole|, |whole|)
      invariant Calm(old(writer.script)) ==> Calm(writer.script)
      decreases |writer.script|
    {
      if writer.script == [] { return None, sent; }
      if writer.script[0].canceled { return Some(Err(OperationCanceled)), sent; }
      RemainingBytes(parts, written);
      var result, taken := writer.Write(Join(Remaining(parts, written)));
      SentMore(old(writer.accepted), whole, sent, taken);
      sent := sent + taken;
      var progress := CheckedProgress(result, length.value - written);
      if progress.Err? { return Some(Err(progress.error)), sent; }
      written := written + progress.value;
    }
    return Some(Ok(written)), sent;
  }

  lemma JoinThree(a: Bytes, b: Bytes, c: Bytes)
    ensures Join([a, b, c]) == a + b + c
  {
    var two: seq<Bytes> := [b, c];
    var one: seq<Bytes> := [c];
    assert [a, b, c][1..] == two && two[1..] == one && one[1..] == [];
    assert Join(one) == c && Join(two) == b + c;
    Assoc(a, b, c);
  }

  /** Framing and payload as one write; the payload comes back for recycling. */
  method WriteFramed(writer: Transport, prefix: Bytes, data: Bytes, suffix: Bytes) returns (r: Written, returned: Bytes, ghost sent: nat)
    modifies writer
    ensures PrefixSent(old(writer.accepted), writer.accepted, prefix + data + suffix, sent, r) && returned == data
    ensures r == var n := |prefix + data + suffix|;
      if n >= U64_LIMIT then Some(Err(LengthOverflow)) else WriteAnswer(old(writer.script), n, n)
    ensures r.None? ==> writer.script == []
    ensures Calm(old(writer.script)) ==> Calm(writer.script)
  {
    var parts: seq<Bytes> := [prefix, data, suffix];
    JoinThree(prefix, data, suffix);
    r, sent := WriteVectors(writer, parts);
    returned := data;
  }

  // ---- a whole body -----------------------------------------------------------------

  datatype OutFrame = OutData(data: Bytes) | OutTrailers(fields: HeaderMap)

  datatype Produced = NextFrame(frame: OutFrame) | EndOfBody | ProducerFailed(code: nat) | ProducerCanceled

  /** One wait for the producer: if it is not ready at once, pending output is flushed first. */
  datatype ProducerTurn = ProducerTurn(ready: bool, flushed: Result<(), IoError>, produced: Produced)

  datatype SendFault = BodyFault(code: nat) | EncodeFault(error: EncodeError) | IoFault(cause: IoError) | SendCanceled

  datatype SendStats = SendStats(wireBytes: nat, dataFrames: nat, trailerFrames: nat)

  function Saturate(n: nat): nat { Least(n, U64_LIMIT - 1) }

  /** The data frames a producer gave in these turns, in order. */
  function DataOf(turns: seq<ProducerTurn>): seq<Bytes>
  {
    if turns == [] then []
    else
      var last := turns[|turns| - 1].produced;
      DataOf(turns[..|turns| - 1]) + (if last.NextFrame? && last.frame.OutData? then [last.frame.data] else [])
  }

  /** The trailers it gave, if any; a second trailers frame is never sent. */
  function TrailersOf(turns: seq<ProducerTurn>): Option<HeaderMap>
  {
    if turns == [] then None
    else
      var before, last := TrailersOf(turns[..|turns| - 1]), turns[|turns| - 1].produced;
      if before.Some? then before else if last.NextFrame? && last.frame.OutTrailers? then Some(last.frame.fields) else None
  }

  /** The encoding of what these turns gave. */
  function WireAfter(e: Encoder, turns: seq<ProducerTurn>): Bytes
  {
    var r := if TrailersOf(turns).Some? then EncodeBody(e, DataOf(turns), TrailersOf(turns)) else EncodeFrames(e, DataOf(turns)).1;
    if r.Ok? then r.value else []
  }

  /** Whether unflushed output may be pending after these turns: at first a head may be; a wait for the
      producer flushes; and a frame that puts bytes on the wire makes it pending again. */
  function OutputPending(e: Encoder, turns: seq<ProducerTurn>): bool
  {
    if turns == [] then true
    else
      var n := |turns| - 1;
      (OutputPending(e, turns[..n]) && turns[n].ready) || |WireAfter(e, turns)| != |WireAfter(e, turns[..n])|
  }

  predicate FlushDue(e: Encoder, turns: seq<ProducerTurn>, k: nat)
    requires k < |turns|
  {
    !turns[k].ready && OutputPending(e, turns[..k])
  }

  lemma OneMoreTurn(turns: seq<ProducerTurn>, k: nat)
    requires k < |turns|
    ensures var last := turns[k].produced;
      && DataOf(turns[..k + 1]) ==
           (if last.NextFrame? && last.frame.OutData? then DataOf(turns[..k]) + [last.frame.data] else DataOf(turns[..k]))
      && TrailersOf(turns[..k + 1]) == (if TrailersOf(turns[..k]).Some? then TrailersOf(turns[..k])
           else if last.NextFrame? && last.frame.OutTrailers? then Some(last.frame.fields) else None)
  {
    assert turns[..k + 1][..k] == turns[..k];
  }

  /** What the producer and the flushes in the first `n` turns make the result to be. */
  predicate Told(e: Encoder, turns: seq<ProducerTurn>, n: nat, r: Result<SendStats, SendFault>)
    requires n <= |turns|
  {
    || (n < |turns| && FlushDue(e, turns, n) && turns[n].flushed.Err? && r == Err(IoFault(turns[n].flushed.error)))
    || (n > 0 &&
        match turns[n - 1].produced
        case ProducerFailed(code) => r == Err(BodyFault(code))
        case ProducerCanceled => r == Err(SendCanceled)
        case EndOfBody => r.Ok? || r.error.EncodeFault? || r.error.IoFault?
        case NextFrame(_) => r.Err? && (r.error.EncodeFault? || r.error.IoFault?))
  }

  /** The turns a body was sent from: every frame up to some turn, with the flushes that were due. */
  predicate Used(e: Encoder, turns: seq<ProducerTurn>, n: nat)
  {
    && n <= |turns|
    && (forall i :: 0 <= i < n - 1 ==> turns[i].produced.NextFrame?)
    && (forall i :: 0 <= i < n ==> FlushDue(e, turns, i) ==> turns[i].flushed.Ok?)
  }

  /** Frames are encoded one after another. */
  lemma {:induction false} EncodeOneMore(e: Encoder, frames: seq<Bytes>, f: Bytes)
    requires EncodeFrames(e, frames).1.Ok?
    ensures var (e', wire) := EncodeFrames(e, frames);
      var (last, framing) := FrameData(e', |f|);
      EncodeFrames(e, frames + [f]) ==
        (last, if framing.Err? then Err(framing.error)
               else Ok(wire.value + (framing.value.prefix + f + framing.value.suffix)))
    decreases |frames|
  {
    hide FrameData;
    var all := frames + [f];
    if frames == [] {
      assert all[1..] == [];
      var (last, framing) := FrameData(e, |f|);
      if framing.Ok? {
        assert framing.value.prefix + f + framing.value.suffix + [] == [] + (framing.value.prefix + f + framing.value.suffix);
      }
    } else {
      var (e1, framing) := FrameData(e, |frames[0]|);
      EncodeOneMore(e1, frames[1..], f);
      assert all[0] == frames[0] && all[1..] == frames[1..] + [f];
      var (e', rest) := EncodeFrames(e1, frames[1..]);
      var last := FrameData(e', |f|).1;
      if last.Ok? {
        var first := framing.value.prefix + frames[0] + framing.value.suffix;
        Assoc(first, rest.value, last.value.prefix + f + last.value.suffix);
      }
    }
  }

  /** The wire holds a prefix of what the first `count` frames, and then perhaps the end of the
      body, encode to. */
  ghost predicate Truncated(e: Encoder, frames: seq<Bytes>, end: Option<HeaderMap>, count: nat, whole: Bytes, sent: Bytes)
  {
    && count <= |frames| && sent <= whole
    && (EncodeFrames(e, frames[..count]).1 == Ok(whole) || EncodeBody(e, frames[..count], end) == Ok(whole))
  }

  /** What the loop knows between frames: what was encoded so far is exactly what was written. */
  ghost predicate Current(e0: Encoder, e: Encoder, frames: seq<Bytes>, end: Option<HeaderMap>, wire: Bytes)
  {
    if end.None? then EncodeFrames(e0, frames) == (e, Ok(wire))
    else e.state == SendDone && EncodeBody(e0, frames, end) == Ok(wire)
  }

  lemma CurrentIsTruncated(e0: Encoder, e: Encoder, frames: seq<Bytes>, end: Option<HeaderMap>, wire: Bytes)
    requires Current(e0, e, frames, end, wire)
    ensures Truncated(e0, frames, end, |frames|, wire, wire)
  {
    assert frames[..|frames|] == frames;
  }

  lemma PartIsPrefix(wire: Bytes, item: Bytes, took: nat)
    requires took <= |item|
    ensures wire <= wire + item[..took] <= wire + item
    ensures (wire + item[..took])[|wire|..] == item[..took]
  {
    assert (wire + item)[..|wire| + took] == wire + item[..took];
  }

  /** Bytes added to a wire that was already a tail. */
  lemma TailGrows(before: Bytes, wire: Bytes, sent: Bytes)
    requires wire <= sent
    ensures before + wire + sent[|wire|..] == before + sent
  {
    assert sent == wire + sent[|wire|..];
    Assoc(before, wire, sent[|wire|..]);
  }

  /** The frame or end of the latest turn does not fit the encoder: it comes after trailers, or what
      the turns gave cannot be encoded. */
  predicate Unencodable(e: Encoder, turns: seq<ProducerTurn>, n: nat)
    requires 0 < n <= |turns|
  {
    var data, end := DataOf(turns[..n]), TrailersOf(turns[..n]);
    match turns[n - 1].produced
    case NextFrame(OutData(_)) => end.Some? || EncodeFrames(e, data).1.Err?
    case NextFrame(OutTrailers(_)) => TrailersOf(turns[..n - 1]).Some? || EncodeBody(e, data, end).Err?
    case _ => EncodeBody(e, data, end).Err?
  }

  /** A frame whose write could overflow the length of one submission. */
  predicate Oversized(frames: seq<Bytes>) { exists i :: 0 <= i < |frames| && |frames[i]| + 20 >= U64_LIMIT }

  lemma OversizedLast(frames: seq<Bytes>, data: Bytes)
    ensures |data| + 20 >= U64_LIMIT ==> Oversized(frames + [data])
  {
    assert (frames + [data])[|frames|] == data;
  }

  lemma Refusals(e: Encoder, turns: seq<ProducerTurn>, n: nat)
    requires 0 < n <= |turns|
    ensures var data, end := DataOf(turns[..n]), TrailersOf(turns[..n]);
      match turns[n - 1].produced
      case NextFrame(OutData(_)) => end.Some? || EncodeFrames(e, data).1.Err? ==> Unencodable(e, turns, n)
      case NextFrame(OutTrailers(_)) =>
        TrailersOf(turns[..n - 1]).Some? || EncodeBody(e, data, end).Err? ==> Unencodable(e, turns, n)
      case _ => EncodeBody(e, data, end).Err? ==> Unencodable(e, turns, n)
  {
    hide DataOf, TrailersOf, EncodeFrames, EncodeBody;
  }

  /** Send a body frame by frame. The frames and trailers are those the producer gave in the turns
      used. Success comes only at the producer's end and means that the wire got exactly the encoding
      of that body; on every returning path each data frame obtained was given back exactly once, in
      order, and the wire got a prefix of what was to be sent; a failure of the producer or of a
      flush is reported as such; what is refused cannot be encoded; and a calm transport fails
      nothing but a frame too long for one submission. */
  method SendBody(writer: Transport, encoder: BodyEncoder, turns: seq<ProducerTurn>)
    returns (r: Option<Result<SendStats, SendFault>>, obtained: seq<Bytes>, recycled: seq<Bytes>, end: Option<HeaderMap>, n: nat,
             ghost count: nat, ghost whole: Bytes, ghost sent: Bytes)
    modifies writer, encoder
    ensures Used(old(encoder.View()), turns, n) && obtained == DataOf(turns[..n]) && end == TrailersOf(turns[..n])
    ensures writer.accepted == old(writer.accepted) + sent
    ensures Truncated(old(encoder.View()), obtained, end, count, whole, sent)
    ensures r.Some? ==> recycled == obtained && Told(old(encoder.View()), turns, n, r.value)
    ensures r.None? ==> writer.script == [] || (n == |turns| && forall i :: 0 <= i < n ==> turns[i].produced.NextFrame?)
    ensures r.Some? && r.value.Err? && r.value.error.EncodeFault? ==> 0 < n && Unencodable(old(encoder.View()), turns, n)
    ensures r.Some? && r.value.Err? && r.value.error.IoFault? && Calm(old(writer.script)) ==>
      (n < |turns| && FlushDue(old(encoder.View()), turns, n) && turns[n].flushed.Err?) || Oversized(obtained)
    ensures recycled <= obtained && |obtained| <= |recycled| + 1
    ensures r.Some? && r.value.Ok? ==>
      && EncodeBody(old(encoder.View()), obtained, end) == Ok(sent)
      && r.value.value == SendStats(Saturate(|sent|), Saturate(|obtained|), if end.Some? then 1 else 0)
  {
    hide EncodeFrames, EncodeBody, FrameData, FrameTrailers, FrameEnd, Truncated, Current, DataOf, TrailersOf, WireAfter, OutputPending,
         Calm, Oversized, Unencodable, Saturate, Least, Told;
    ghost var e0 := encoder.View();
    SaturatingStep(0, 0);
    var stats, pendingOutput := SendStats(0, 0, 0), true;
    obtained, recycled, end, sent, n := [], [], None, [], 0;
    NothingSent(e0);
    assert writer.accepted + [] == writer.accepted && turns[..0] == [];
    while true
      invariant Current(e0, encoder.View(), obtained, end, sent) && writer.accepted == old(writer.accepted) + sent
      invariant recycled == obtained && n <= |turns| && (Calm(old(writer.script)) ==> Calm(writer.script))
      invariant Used(e0, turns, n) && (forall i :: 0 <= i < n ==> turns[i].produced.NextFrame?)
      invariant obtained == DataOf(turns[..n]) && end == TrailersOf(turns[..n])
      invariant sent == WireAfter(e0, turns[..n]) && pendingOutput == OutputPending(e0, turns[..n])
      invariant stats == SendStats(Saturate(|sent|), Saturate(|obtained|), if end.Some? then 1 else 0)
      decreases |turns| - n
    {
      CurrentIsTruncated(e0, encoder.View(), obtained, end, sent);
      count, whole := |obtained|, sent;
      if n == |turns| { return None, obtained, recycled, end, n, count, whole, sent; }
      var turn := turns[n];
      if !turn.ready && pendingOutput {
        if turn.flushed.Err? {
          TellFlush(e0, turns, n);
          return Some(Err(IoFault(turn.flushed.error))), obtained, recycled, end, n, count, whole, sent;
        }
        pendingOutput := false;
      }
      OneMoreTurn(turns, n);
      ghost var wire, frames := sent, obtained;
      n := n + 1;
      TellTurn(e0, turns, n);
      if turn.produced.ProducerCanceled? { return Some(Err(SendCanceled)), obtained, recycled, end, n, count, whole, sent; }
      if turn.produced.ProducerFailed? {
        return Some(Err(BodyFault(turn.produced.code))), obtained, recycled, end, n, count, whole, sent;
      }
      if turn.produced.EndOfBody? && end.Some? {
        EndedWithTrailers(e0, encoder.View(), obtained, end, sent);
        return Some(Ok(stats)), obtained, recycled, end, n, count, whole, sent;
      }
      var written;
      written, obtained, end, count, whole, sent := SendNext(writer, encoder, turn.produced, obtained, end, e0, turns, n, sent);
      TailGrows(old(writer.accepted), wire, sent);
      if written.None? { return None, obtained, recycled, end, n, count, whole, sent; }
      recycled := obtained;
      if written.value.Err? { return Some(Err(written.value.error)), obtained, recycled, end, n, count, whole, sent; }
      SaturatingStep(|wire|, written.value.value);
      SaturatingStep(|frames|, 1);
      stats := SendStats(Saturate(stats.wireBytes + written.value.value),
                         if turn.produced.NextFrame? && turn.produced.frame.OutData? then Saturate(stats.dataFrames + 1) else stats.dataFrames,
                         if turn.produced.NextFrame? && turn.produced.frame.OutTrailers? then stats.trailerFrames + 1 else stats.trailerFrames);
      if turn.produced.EndOfBody? { return Some(Ok(stats)), obtained, recycled, end, n, count, whole, sent; }
      WireGrows(e0, encoder.View(), turns, n, wire, sent);
      pendingOutput := pendingOutput || written.value.value != 0;
    }
  }

  /** Send what one turn gave: a frame, or the end of a body without trailers. */
  method SendNext(writer: Transport, encoder: BodyEncoder, produced: Produced, frames: seq<Bytes>, trailers: Option<HeaderMap>,
                  ghost e0: Encoder, ghost turns: seq<ProducerTurn>, ghost n: nat, ghost before: Bytes)
    returns (r: Option<Result<nat, SendFault>>, obtained: seq<Bytes>, end: Option<HeaderMap>,
             ghost count: nat, ghost whole: Bytes, ghost sent: Bytes)
    requires 0 < n <= |turns| && turns[n - 1].produced == produced
    requires produced.NextFrame? || (produced.EndOfBody? && trailers.None?)
    requires frames == DataOf(turns[..n - 1]) && trailers == TrailersOf(turns[..n - 1])
    requires Current(e0, encoder.View(), frames, trailers, before)
    modifies writer, encoder
    ensures before <= sent && writer.accepted == old(writer.accepted) + sent[|before|..]
    ensures obtained == DataOf(turns[..n]) && end == TrailersOf(turns[..n])
    ensures |obtained| == |frames| + (if produced.NextFrame? && produced.frame.OutData? then 1 else 0) && frames <= obtained
    ensures Truncated(e0, obtained, end, count, whole, sent)
    ensures r.None? ==> writer.script == []
    ensures r.Some? && r.value.Err? ==> r.value.error.EncodeFault? || r.value.error.IoFault?
    ensures r.Some? && r.value.Err? && r.value.error.EncodeFault? ==> Unencodable(e0, turns, n)
    ensures Calm(old(writer.script)) ==>
      Calm(writer.script) && (r.Some? && r.value.Err? && r.value.error.IoFault? ==> Oversized(obtained))
    ensures r.Some? && r.value.Ok? ==>
      && r.value.value == |sent| - |before|
      && (produced.NextFrame? && produced.frame.OutTrailers? ==> trailers.None?)
      && (if produced.NextFrame? then Current(e0, encoder.View(), obtained, end, sent) else EncodeBody(e0, obtained, end) == Ok(sent))
  {
    hide EncodeFrames, EncodeBody, FrameData, FrameTrailers, FrameEnd, Truncated, Current, DataOf, TrailersOf, Calm, Oversized, Unencodable;
    OneMoreTurn(turns, n - 1);
    Refusals(e0, turns, n);
    obtained, end := frames, trailers;
    count := |frames|;
    if produced.EndOfBody? {
      r, whole, sent := SendEnd(writer, encoder, e0, frames, before);
    } else if produced.frame.OutData? {
      r, count, whole, sent := SendData(writer, encoder, produced.frame.data, e0, frames, trailers, before);
      OversizedLast(frames, produced.frame.data);
      obtained := frames + [produced.frame.data];
    } else {
      r, whole, sent := SendTrailers(writer, encoder, produced.frame.fields, e0, frames, trailers, before);
      if trailers.None? { end := Some(produced.frame.fields); }
    }
  }

  /** Frame and write one data frame; the frame comes back whatever happens. `sent` is the wire so far. */
  method SendData(writer: Transport, encoder: BodyEncoder, data: Bytes,
                  ghost e0: Encoder, ghost frames: seq<Bytes>, ghost end: Option<HeaderMap>, ghost before: Bytes)
    returns (r: Option<Result<nat, SendFault>>, ghost count: nat, ghost whole: Bytes, ghost sent: Bytes)
    requires Current(e0, encoder.View(), frames, end, before)
    modifies writer, encoder
    ensures before <= sent && writer.accepted == old(writer.accepted) + sent[|before|..]
    ensures Truncated(e0, frames + [data], end, count, whole, sent)
    ensures r.None? ==> writer.script == []
    ensures r.Some? && r.value.Err? ==> r.value.error.EncodeFault? || r.value.error.IoFault?
    ensures r.Some? && r.value.Err? && r.value.error.EncodeFault? ==> end.Some? || EncodeFrames(e0, frames + [data]).1.Err?
    ensures Calm(old(writer.script)) ==>
      Calm(writer.script) && (r.Some? && r.value.Err? && r.value.error.IoFault? ==> |data| + 20 >= U64_LIMIT)
    ensures r.Some? && r.value.Ok? ==>
      Current(e0, encoder.View(), frames + [data], end, sent) && r.value.value == |sent| - |before|
  {
    hide EncodeFrames, EncodeBody, FrameData, Truncated, Current, Calm, WriteAnswer;
    ghost var e := encoder.View();
    var framing := encoder.Data(|data|);
    DataStep(e0, e, frames, end, before, data, framing);
    count, whole, sent := |frames|, before, before;
    assert writer.accepted + [] == writer.accepted && before[|before|..] == [];
    if framing.Err? { return Some(Err(EncodeFault(framing.error))), count, whole, sent; }
    ghost var item := framing.value.prefix + data + framing.value.suffix;
    FramingIsSmall(e, |data|);
    if Calm(writer.script) { CalmNeverFails(writer.script, |item|, |item|); }
    var written, _, took := WriteFramed(writer, framing.value.prefix, data, framing.value.suffix);
    PartIsPrefix(before, item, took);
    count, whole, sent := |frames| + 1, before + item, before + item[..took];
    WholeTruncates(e0, encoder.View(), frames + [data], end, whole, sent);
    if written.None? { return None, count, whole, sent; }
    if written.value.Err? { return Some(Err(IoFault(written.value.error))), count, whole, sent; }
    assert item[..took] == item;
    return Some(Ok(written.value.value)), count, whole, sent;
  }

  /** End the body with trailers; after a first trailers frame this is always refused. */
  method SendTrailers(writer: Transport, encoder: BodyEncoder, fields: HeaderMap,
                      ghost e0: Encoder, ghost frames: seq<Bytes>, ghost end: Option<HeaderMap>, ghost before: Bytes)
    returns (r: Option<Result<nat, SendFault>>, ghost whole: Bytes, ghost sent: Bytes)
    requires Current(e0, encoder.View(), frames, end, before)
    modifies writer, encoder
    ensures before <= sent && writer.accepted == old(writer.accepted) + sent[|before|..]
    ensures Truncated(e0, frames, if end.Some? then end else Some(fields), |frames|, whole, sent)
    ensures r.None? ==> writer.script == []
    ensures r.Some? && r.value.Err? ==> r.value.error.EncodeFault? || r.value.error.IoFault?
    ensures r.Some? && r.value.Err? && r.value.error.EncodeFault? ==> end.Some? || EncodeBody(e0, frames, Some(fields)).Err?
    ensures Calm(old(writer.script)) ==> Calm(writer.script) && !(r.Some? && r.value.Err? && r.value.error.IoFault?)
    ensures r.Some? && r.value.Ok? ==>
      end.None? && Current(e0, encoder.View(), frames, Some(fields), sent) && r.value.value == |sent| - |before|
  {
    hide EncodeFrames, EncodeBody, FrameTrailers, Truncated, Current, Calm, WriteAnswer;
    ghost var e := encoder.View();
    CurrentIsTruncated(e0, e, frames, end, before);
    var item := encoder.Trailers(fields);
    TrailersStep(e0, e, frames, end, before, fields);
    whole, sent := before, before;
    assert writer.accepted + [] == writer.accepted && before[|before|..] == [];
    if item.Err? { return Some(Err(EncodeFault(item.error))), whole, sent; }
    if Calm(writer.script) { CalmNeverFails(writer.script, |item.value|, |item.value|); }
    var written, took := WriteScalar(writer, item.value);
    PartIsPrefix(before, item.value, took);
    whole, sent := before + item.value, before + item.value[..took];
    WholeTruncates(e0, encoder.View(), frames, Some(fields), whole, sent);
    if written.None? { return None, whole, sent; }
    if written.value.Err? { return Some(Err(IoFault(written.value.error))), whole, sent; }
    assert item.value[..took] == item.value;
    return Some(Ok(written.value.value)), whole, sent;
  }

  /** End the body without trailers. */
  method SendEnd(writer: Transport, encoder: BodyEncoder, ghost e0: Encoder, ghost frames: seq<Bytes>, ghost before: Bytes)
    returns (r: Option<Result<nat, SendFault>>, ghost whole: Bytes, ghost sent: Bytes)
    requires Current(e0, encoder.View(), frames, None, before)
    modifies writer, encoder
    ensures before <= sent && writer.accepted == old(writer.accepted) + sent[|before|..]
    ensures Truncated(e0, frames, None, |frames|, whole, sent)
    ensures r.None? ==> writer.script == []
    ensures r.Some? && r.value.Err? ==> r.value.error.EncodeFault? || r.value.error.IoFault?
    ensures r.Some? && r.value.Err? && r.value.error.EncodeFault? ==> EncodeBody(e0, frames, None).Err?
    ensures Calm(old(writer.script)) ==> Calm(writer.script) && !(r.Some? && r.value.Err? && r.value.error.IoFault?)
    ensures r.Some? && r.value.Ok? ==> EncodeBody(e0, frames, None) == Ok(sent) && r.value.value == |sent| - |before|
  {
    hide EncodeFrames, EncodeBody, FrameEnd, Truncated, Current, Calm, WriteAnswer;
    ghost var e := encoder.View();
    CurrentIsTruncated(e0, e, frames, None, before);
    var item := encoder.Finish();
    EndStep(e0, e, frames, before);
    whole, sent := before, before;
    assert writer.accepted + [] == writer.accepted && before[|before|..] == [];
    if item.Err? { return Some(Err(EncodeFault(item.error))), whole, sent; }
    if Calm(writer.script) { CalmNeverFails(writer.script, |item.value|, |item.value|); }
    var written, took := WriteScalar(writer, item.value);
    PartIsPrefix(before, item.value, took);
    whole, sent := before + item.value, before + item.value[..took];
    FinalTruncates(e0, frames, whole, sent);
    if written.None? { return None, whole, sent; }
    if written.value.Err? { return Some(Err(IoFault(written.value.error))), whole, sent; }
    assert item.value[..took] == item.value;
    return Some(Ok(written.value.value)), whole, sent;
  }

  /** A frame written in full: the wire is what the turns encode to, and output is pending if there
      was any or the frame put bytes on the wire. */
  lemma WireGrows(e0: Encoder, e: Encoder, turns: seq<ProducerTurn>, n: nat, wire: Bytes, sent: Bytes)
    requires 0 < n <= |turns| && wire <= sent && wire == WireAfter(e0, turns[..n - 1])
    requires Current(e0, e, DataOf(turns[..n]), TrailersOf(turns[..n]), sent)
    ensures sent == WireAfter(e0, turns[..n])
    ensures OutputPending(e0, turns[..n]) == ((OutputPending(e0, turns[..n - 1]) && turns[n - 1].ready) || |sent| != |wire|)
  {
    hide EncodeFrames, EncodeBody, DataOf, TrailersOf;
    assert turns[..n][..n - 1] == turns[..n - 1];
  }

  lemma SaturatingStep(a: nat, b: nat)
    ensures Saturate(0) == 0 && Saturate(Saturate(a) + b) == Saturate(a + b)
  {
  }

  lemma TellFlush(e: Encoder, turns: seq<ProducerTurn>, n: nat)
    requires n < |turns| && FlushDue(e, turns, n) && turns[n].flushed.Err?
    ensures Told(e, turns, n, Err(IoFault(turns[n].flushed.error)))
  {
    hide OutputPending;
  }

  lemma TellTurn(e: Encoder, turns: seq<ProducerTurn>, n: nat)
    requires 0 < n <= |turns|
    ensures forall r ::
      match turns[n - 1].produced
      case ProducerFailed(code) => r == Err(BodyFault(code)) ==> Told(e, turns, n, r)
      case ProducerCanceled => r == Err(SendCanceled) ==> Told(e, turns, n, r)
      case EndOfBody => r.Ok? || r.error.EncodeFault? || r.error.IoFault? ==> Told(e, turns, n, r)
      case NextFrame(_) => r.Err? && (r.error.EncodeFault? || r.error.IoFault?) ==> Told(e, turns, n, r)
  {
    hide OutputPending;
  }

  lemma NothingSent(e: Encoder)
    ensures Current(e, e, [], None, [])
    ensures DataOf([]) == [] && TrailersOf([]) == None && WireAfter(e, []) == [] && OutputPending(e, [])
  {
  }

  lemma WholeTruncates(e0: Encoder, e: Encoder, frames: seq<Bytes>, end: Option<HeaderMap>, whole: Bytes, sent: Bytes)
    requires Current(e0, e, frames, end, whole) && sent <= whole
    ensures Truncated(e0, frames, end, |frames|, whole, sent)
  {
    assert frames[..|frames|] == frames;
  }

  lemma DataStep(e0: Encoder, e: Encoder, frames: seq<Bytes>, end: Option<HeaderMap>, wire: Bytes, data: Bytes,
                 framing: Result<DataFraming, EncodeError>)
    requires Current(e0, e, frames, end, wire) && FrameData(e, |data|).1 == framing
    ensures Truncated(e0, frames + [data], end, |frames|, wire, wire)
    ensures framing.Ok? ==>
      Current(e0, FrameData(e, |data|).0, frames + [data], end, wire + (framing.value.prefix + data + framing.value.suffix))
    ensures framing.Err? && end.None? ==> EncodeFrames(e0, frames + [data]).1.Err?
  {
    assert (frames + [data])[..|frames|] == frames;
    if end.None? {
      EncodeOneMore(e0, frames, data);
    }
  }

  lemma TrailersStep(e0: Encoder, e: Encoder, frames: seq<Bytes>, end: Option<HeaderMap>, wire: Bytes, fields: HeaderMap)
    requires Current(e0, e, frames, end, wire)
    ensures var (e', item) := FrameTrailers(e, fields);
      && (item.Ok? ==> end.None? && Current(e0, e', frames, Some(fields), wire + item.value))
      && (item.Err? && end.None? ==> EncodeBody(e0, frames, Some(fields)).Err?)
      && (end.None? ==> Truncated(e0, frames, Some(fields), |frames|, wire, wire))
  {
    hide EncodeFrames;
    assert frames[..|frames|] == frames;
  }

  lemma EndStep(e0: Encoder, e: Encoder, frames: seq<Bytes>, wire: Bytes)
    requires Current(e0, e, frames, None, wire)
    ensures FrameEnd(e).1.Ok? ==> EncodeBody(e0, frames, None) == Ok(wire + FrameEnd(e).1.value)
    ensures FrameEnd(e).1.Err? ==> EncodeBody(e0, frames, None).Err?
  {
    hide EncodeFrames;
  }

  /** The framing of a frame is a chunk prefix and a line break at most. */
  lemma FramingIsSmall(e: Encoder, length: nat)
    ensures var framing := FrameData(e, length).1;
      framing.Ok? ==> |framing.value.prefix| + |framing.value.suffix| <= 20
  {
    hide Hex;
    if length < U64_LIMIT { HexFits(length); }
  }

  lemma FinalTruncates(e0: Encoder, frames: seq<Bytes>, whole: Bytes, sent: Bytes)
    requires EncodeBody(e0, frames, None) == Ok(whole) && sent <= whole
    ensures Truncated(e0, frames, None, |frames|, whole, sent)
  {
    assert frames[..|frames|] == frames;
  }

  lemma EndedWithTrailers(e0: Encoder, e: Encoder, frames: seq<Bytes>, end: Option<HeaderMap>, wire: Bytes)
    requires Current(e0, e, frames, end, wire) && end.Some?
    ensures EncodeBody(e0, frames, end) == Ok(wire)
  {
  }

  // ---- bodies that go through -------------------------------------------------------

  predicate IsTrailers(turn: ProducerTurn) { turn.produced.NextFrame? && turn.produced.frame.OutTrailers? }

  /** The first `g` turns give frames with trailers at most last, the next one ends the body, what they
      gave can be encoded and written, and no flush fails. */
  predicate Sendable(e: Encoder, turns: seq<ProducerTurn>, g: nat)
  {
    && g < |turns| && turns[g].produced.EndOfBody?
    && (forall i :: 0 <= i < g ==> turns[i].produced.NextFrame?)
    && (forall i :: 0 <= i < g - 1 ==> !IsTrailers(turns[i]))
    && (forall i :: 0 <= i < |turns| ==> turns[i].flushed.Ok?)
    && EncodeBody(e, DataOf(turns[..g]), TrailersOf(turns[..g])).Ok? && !Oversized(DataOf(turns[..g]))
  }

  lemma {:induction false} DataPrefix(turns: seq<ProducerTurn>, n: nat, g: nat)
    requires n <= g <= |turns|
    ensures DataOf(turns[..n]) <= DataOf(turns[..g])
    decreases g
  {
    if n < g {
      DataPrefix(turns, n, g - 1);
      OneMoreTurn(turns, g - 1);
    }
  }

  lemma {:induction false} NoTrailersYet(turns: seq<ProducerTurn>, n: nat)
    requires n <= |turns| && forall i :: 0 <= i < n ==> !IsTrailers(turns[i])
    ensures TrailersOf(turns[..n]) == None
  {
    if n > 0 {
      NoTrailersYet(turns, n - 1);
      OneMoreTurn(turns, n - 1);
    }
  }

  lemma {:induction false} FramesPrefix(e: Encoder, a: seq<Bytes>, b: seq<Bytes>)
    requires a <= b && EncodeFrames(e, b).1.Ok?
    ensures EncodeFrames(e, a).1.Ok?
    decreases |a|
  {
    hide FrameData;
    if a != [] {
      FramesPrefix(FrameData(e, |a[0]|).0, a[1..], b[1..]);
    }
  }

  /** Nothing a sendable body gives is refused. */
  lemma SendableEncodes(e: Encoder, turns: seq<ProducerTurn>, g: nat, n: nat)
    requires Sendable(e, turns, g) && 0 < n <= g + 1
    ensures !Unencodable(e, turns, n) && !Oversized(DataOf(turns[..n]))
  {
    hide EncodeFrames, DataOf, TrailersOf, FrameTrailers, FrameEnd;
    if n == g + 1 {
      OneMoreTurn(turns, g);
    } else {
      var data, all := DataOf(turns[..n]), DataOf(turns[..g]);
      DataPrefix(turns, n, g);
      assert forall i :: 0 <= i < |data| ==> data[i] == all[i];
      NoTrailersYet(turns, n - 1);
      OneMoreTurn(turns, n - 1);
      FramesPrefix(e, data, all);
    }
  }

  /** Sending a sendable body over a calm transport does not fail. */
  lemma SendableSucceeds(e: Encoder, turns: seq<ProducerTurn>, g: nat, n: nat, r: Result<SendStats, SendFault>)
    requires Sendable(e, turns, g) && Used(e, turns, n) && Told(e, turns, n, r)
    requires r.Err? && r.error.EncodeFault? ==> 0 < n && Unencodable(e, turns, n)
    requires r.Err? && r.error.IoFault? ==>
      (n < |turns| && FlushDue(e, turns, n) && turns[n].flushed.Err?) || Oversized(DataOf(turns[..n]))
    ensures r.Ok?
  {
    hide EncodeBody, DataOf, TrailersOf, Unencodable, Oversized, OutputPending;
    assert turns[g].produced.EndOfBody?;
    if n > 0 {
      SendableEncodes(e, turns, g, n);
    } else {
      NothingGiven(turns);
    }
  }

  lemma NothingGiven(turns: seq<ProducerTurn>)
    ensures !Oversized(DataOf(turns[..0]))
  {
  }
}
