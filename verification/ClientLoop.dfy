/** The client driver's exchange loop over one receive buffer and one head parser. */
module ClientLoop {
  import opened Prelude
  import opened ChunkGrammar
  import opened Framing
  import opened Exchange
  import opened Receiving
  import HeadScan
  import RecvBuffer
  import Decoding
  import IncomingBody
  import Transmission
  import Encoding
  import RoundTrip

  datatype Settings = Settings(rules: HeadRules, body: Config, maxInformational: nat)

  /** A request on its way out: its serialized head, its body's metadata and producer, and what the
      surroundings do to the upload. */
  datatype Upload = Upload(head: Bytes, metadata: Encoding.BodyMetadata, config: Encoding.EncodeConfig,
                           turns: seq<Transmission.ProducerTurn>, continueWait: bool,
                           early: Result<(), Transmission.IoError>, permitted: bool, last: Result<(), Transmission.IoError>)

  /** A request taken from admission, and what its surroundings will do: whether the application
      takes what it is offered, how it consumes the body, and whether it aborts the upload. */
  datatype Job = Job(request: ValidRequest, upload: Upload, aborted: bool,
                     interimTaken: nat -> bool, finalTaken: bool, bodyTurns: seq<Turn>, readmits: bool)

  function EncoderOf(job: Job): Result<Encoding.Encoder, Encoding.EncodeError>
  {
    Encoding.NewEncoder(job.request.body, job.upload.metadata, job.upload.config)
  }

  /** How many of a producer's turns give frames before the first that does not. */
  function FramesGiven(turns: seq<Transmission.ProducerTurn>): (n: nat)
    ensures n <= |turns| && forall i :: 0 <= i < n ==> turns[i].produced.NextFrame?
    ensures n < |turns| ==> !turns[n].produced.NextFrame?
  {
    if turns == [] || !turns[0].produced.NextFrame? then 0
    else
      var n := FramesGiven(turns[1..]);
      assert forall i :: 0 < i < n + 1 ==> turns[i] == turns[1..][i - 1];
      n + 1
  }

  /** The request's own body on the wire: its producer gives frames and then ends, and they encode to
      this. */
  function BodyOf(job: Job): Option<Bytes>
  {
    var turns := job.upload.turns;
    var n := FramesGiven(turns);
    if n == |turns| || !turns[n].produced.EndOfBody? || EncoderOf(job).Err? then None
    else
      var given := turns[..n];
      var body := RoundTrip.EncodeBody(EncoderOf(job).value, Transmission.DataOf(given), Transmission.TrailersOf(given));
      if body.Err? then None else Some(body.value)
  }

  /** `sent` is the request's head and the whole encoding of the body its producer gave. */
  predicate WholeRequest(job: Job, sent: Bytes)
  {
    if job.request.body == NoBody then sent == job.upload.head
    else BodyOf(job).Some? && sent == job.upload.head + BodyOf(job).value
  }

  /** The turns a successful upload used are the producer's frames and its end. */
  lemma UsedIsGiven(e: Encoding.Encoder, turns: seq<Transmission.ProducerTurn>, n: nat)
    requires Transmission.Used(e, turns, n) && 0 < n && turns[n - 1].produced.EndOfBody?
    ensures FramesGiven(turns) == n - 1
    ensures Transmission.DataOf(turns[..n]) == Transmission.DataOf(turns[..n - 1])
    ensures Transmission.TrailersOf(turns[..n]) == Transmission.TrailersOf(turns[..n - 1])
  {
    hide FramesGiven, Transmission.DataOf, Transmission.TrailersOf, Transmission.FlushDue;
    Transmission.OneMoreTurn(turns, n - 1);
    var g := FramesGiven(turns);
    assert turns[n - 1].produced.EndOfBody? && (g < |turns| ==> !turns[g].produced.NextFrame?);
  }

  lemma {:induction false} AllFrames(turns: seq<Transmission.ProducerTurn>)
    requires forall i :: 0 <= i < |turns| ==> turns[i].produced.NextFrame?
    ensures FramesGiven(turns) == |turns|
  {
    if turns != [] { AllFrames(turns[1..]); }
  }

  /** The request waits for the peer's permission before its body. */
  predicate WaitsToSend(job: Job)
  {
    job.request.expectation == ContinueExpected && job.request.body != NoBody && job.request.body != FixedLength(0) && job.upload.continueWait
  }

  /** Nothing stands in the way of the upload: a calm transport, permission where it is waited for, flushes
      that work, and a body that its producer gives in order and the encoder accepts. */
  predicate UploadGiven(job: Job, script: seq<Transmission.WriteTurn>)
  {
    var up := job.upload;
    && Transmission.Calm(script) && up.last.Ok? && (WaitsToSend(job) ==> up.early.Ok? && up.permitted)
    && (job.request.body != NoBody ==>
          EncoderOf(job).Ok? && Transmission.Sendable(EncoderOf(job).value, up.turns, FramesGiven(up.turns)))
  }

  /** Write the head, wait for permission where the request asks for it, write the body, and flush.
      Absent while the upload has not ended. Success means that the whole request was written, and
      every frame the producer gave was given back to it; and an upload that nothing stands in the
      way of does not fail. */
  method SendRequest(writer: Transmission.Transport, job: Job, encoder: Encoding.BodyEncoder)
    returns (r: Option<Result<(), Fault>>, obtained: seq<Bytes>, recycled: seq<Bytes>, ghost sent: Bytes)
    requires EncoderOf(job) == Ok(encoder.View())
    modifies writer, encoder
    ensures writer.accepted == old(writer.accepted) + sent
    ensures r.Some? ==> recycled == obtained
    ensures r.Some? && r.value.Ok? ==> WholeRequest(job, sent)
    ensures UploadGiven(job, old(writer.script)) && r.Some? ==> r.value.Ok?
    ensures r.None? ==> writer.script == [] || FramesGiven(job.upload.turns) == |job.upload.turns|
  {
    hide RoundTrip.EncodeBody, RoundTrip.EncodeFrames, Encoding.NewEncoder, FramesGiven, Transmission.DataOf, Transmission.TrailersOf,
         Transmission.OutputPending, Transmission.Truncated, Transmission.Calm, Transmission.WriteAnswer, Transmission.Sendable,
         Transmission.Unencodable, Transmission.Oversized;
    var up := job.upload;
    obtained, recycled := [], [];
    if Transmission.Calm(writer.script) { Transmission.CalmNeverFails(writer.script, |up.head|, |up.head|); }
    var written, took := Transmission.WriteScalar(writer, up.head);
    sent := up.head[..took];
    if written.None? { return None, obtained, recycled, sent; }
    if written.value.Err? {
      return Some(Err(UploadFaultOf(Transmission.IoFault(written.value.error)))), obtained, recycled, sent;
    }
    assert up.head[..took] == up.head;
    if WaitsToSend(job) {
      if up.early.Err? { return Some(Err(UploadFaultOf(Transmission.IoFault(up.early.error)))), obtained, recycled, sent; }
      if !up.permitted { return Some(Err(Fault.Canceled)), obtained, recycled, sent; }
    }
    if job.request.body != NoBody {
      var result, end;
      var n;
      ghost var count, whole, body;
      result, obtained, recycled, end, n, count, whole, body := Transmission.SendBody(writer, encoder, up.turns);
      Assoc(old(writer.accepted), sent, body);
      sent := sent + body;
      if result.None? {
        if writer.script != [] { AllFrames(up.turns); }
        return None, obtained, recycled, sent;
      }
      if UploadGiven(job, old(writer.script)) {
        Transmission.SendableSucceeds(EncoderOf(job).value, up.turns, FramesGiven(up.turns), n, result.value);
      }
      if result.value.Err? { return Some(Err(UploadFaultOf(result.value.error))), obtained, recycled, sent; }
      UsedIsGiven(EncoderOf(job).value, up.turns, n);
    }
    if up.last.Err? { return Some(Err(UploadFaultOf(Transmission.IoFault(up.last.error)))), obtained, recycled, sent; }
    return Some(Ok(())), obtained, recycled, sent;
  }

  /** The response of a settled exchange: all the bytes it took, its final head and its frames. */
  datatype Response = Response(wire: Bytes, head: ValidResponse, frames: seq<Frame>)

  /** `m.wire` is exactly one response to `request`: interim heads, a final head, and a whole body
      that ends where the bytes end; and nothing on either side asks to close. */
  ghost predicate OneResponse(s: Settings, request: ValidRequest, m: Response)
  {
    var r := ReadHeads(s.rules, NewPolicy(request, s.maxInformational), m.wire);
    && r.Found? && r.head == m.head && r.policy.phase == FinalHead && r.policy.persistence == Reusable
    && exists extensions: nat ::
         Meaning(s.body, NewDecoder(m.head.body), r.rest) == Accept(PayloadOf(m.frames), TrailersIn(m.frames), [], extensions)
  }

  /** What one response means in terms of its heads. */
  lemma OneResponseHeads(s: Settings, request: ValidRequest, m: Response) returns (blocks: seq<Bytes>, heads: seq<ResponseHead>)
    requires OneResponse(s, request, m)
    ensures |blocks| == |heads| && 1 <= |heads| <= s.maxInformational + 1
    ensures Join(blocks) <= m.wire
    ensures forall i :: 0 <= i < |blocks| ==> s.rules.parse(blocks[i]) == Ok(heads[i])
    ensures forall i :: 0 <= i < |heads| - 1 ==> Interim(request, heads[i])
    ensures Final(request, heads[|heads| - 1]) && ValidateResponse(heads[|heads| - 1], request.head.verb) == Ok(m.head)
    ensures request.persistence == Reusable && m.head.persistence == Reusable
  {
    hide ReadHeads, ValidateResponse, ReceiveAll, Meaning, PayloadOf;
    blocks, heads := FoundHeads(s.rules, NewPolicy(request, s.maxInformational), m.wire);
    ReuseMeaning(request, s.maxInformational, heads);
  }

  /** A finished upload and a whole response, with the bytes after it. */
  ghost predicate ResponseRead(s: Settings, request: ValidRequest, wire: Bytes, head: ValidResponse, p: Policy,
                               frames: seq<Frame>, unread: Bytes)
  {
    var r := ReadHeads(s.rules, NewPolicy(request, s.maxInformational), wire);
    && r.Found? && r.head == head && r.policy == p
    && exists extensions: nat ::
         Meaning(s.body, NewDecoder(head.body), r.rest) == Accept(PayloadOf(frames), TrailersIn(frames), unread, extensions)
  }

  /** Heads read first, and then the body from what they left: together they read the wire. */
  lemma HeadsThenBody(s: Settings, request: ValidRequest, w: Bytes, more: Bytes, p: Policy, head: ValidResponse, rest: Bytes,
                      interim: seq<ValidResponse>, eof: bool, frames: seq<Frame>, unread: Bytes, extensions: nat)
    requires AlwaysFinds(s.rules, NewPolicy(request, s.maxInformational), w, p, head, rest, interim)
    requires WholeBody(s.body, head.body, rest + more, eof, frames, unread, extensions)
    ensures ResponseRead(s, request, w + more, head, p, frames, unread)
  {
    hide ReadHeads, Meaning, PayloadOf;
    assert ReadHeads(s.rules, NewPolicy(request, s.maxInformational), w + more) == Found(p, head, rest + more, interim);
    assert rest + more + [] == rest + more && unread + [] == unread;
    assert Meaning(s.body, NewDecoder(head.body), rest + more + [])
        == Accept(PayloadOf(frames), TrailersIn(frames), unread + [], extensions);
  }

  lemma EmptyBody(s: Settings, mode: BodyMode, rest: Bytes)
    requires !IncomingBody.NeedsEndpoint(mode)
    ensures WholeBody(s.body, mode, rest, false, [], rest, 0)
  {
    forall future: Bytes
      ensures Meaning(s.body, NewDecoder(mode), rest + future) == Accept(PayloadOf([]), TrailersIn([]), rest + future, 0)
    {
      var w := rest + future;
      assert w[..0] == [] && w[0..] == w;
    }
  }

  /** Why receiving a response is cancelled: a read for its heads was, an interim head that was reached
      or the final head was not taken, or a wait or a read for its body was cancelled. */
  predicate CancelsResponse(r: Reading, job: Job, answers: seq<RecvBuffer.ReadAnswer>, labels: seq<Label>)
  {
    || LastIs(answers, Err(RecvBuffer.Canceled))
    || (RecvBuffer.AllOk(answers) && !AllOffersTaken(r.interim, job.interimTaken))
    || (RecvBuffer.AllOk(answers) && r.Found? && !job.finalTaken)
    || Forced(labels, BodyFailed(Cause.Canceled)) || Forced(labels, BodyFailed(Cause.Reading(RecvBuffer.Canceled)))
  }

  /** A whole response is on the wire, the application takes all of it, and the reads went well. */
  ghost predicate ResponseGiven(s: Settings, job: Job, wire: Bytes, answers: seq<RecvBuffer.ReadAnswer>)
  {
    var r := ReadHeads(s.rules, NewPolicy(job.request, s.maxInformational), wire);
    && r.Found? && AllOffersTaken(r.interim, job.interimTaken) && job.finalTaken && Willing(job.bodyTurns)
    && RecvBuffer.AllOk(answers) && Meaning(s.body, NewDecoder(r.head.body), r.rest).Accept?
  }

  /** What receiving comes to, by one reading of the wire, the answers to the reads and the body's steps:
      the heads' own verdict; a cancellation exactly for its causes; and success when all is given. */
  ghost predicate Receives(s: Settings, job: Job, wire: Bytes, answers: seq<RecvBuffer.ReadAnswer>, labels: seq<Label>,
                           received: Option<Result<Received, Fault>>)
  {
    var r := ReadHeads(s.rules, NewPolicy(job.request, s.maxInformational), wire);
    var v := HeadsVerdict(r, answers, job.interimTaken);
    && (v.StillReading? ==> received.None?)
    && (v.HeadsFailed? ==> received == Some(Err(v.fault)))
    && (received == Some(Err(Fault.Canceled)) <==> CancelsResponse(r, job, answers, labels))
    && (received.Some? && ResponseGiven(s, job, wire, answers + ReadsIn(labels)) ==>
          received.value.Ok? && received.value.value.end == BodyComplete)
  }

  /** The verdict on the heads, in the terms of cancellation. */
  lemma HeadsCancel(r: Reading, job: Job, answers: seq<RecvBuffer.ReadAnswer>)
    requires OkBefore(answers)
    requires r.Unreadable? ==> IsProtocolFault(r.fault)
    ensures var v := HeadsVerdict(r, answers, job.interimTaken);
      && (v == HeadsFailed(Fault.Canceled) || (v.HeadFound? && !job.finalTaken) <==> CancelsResponse(r, job, answers, []))
      && (v.HeadFound? <==> r.Found? && RecvBuffer.AllOk(answers) && AllOffersTaken(r.interim, job.interimTaken))
  {
    NothingForced(BodyFailed(Cause.Canceled));
    NothingForced(BodyFailed(Cause.Reading(RecvBuffer.Canceled)));
  }

  /** The end of the body, in the terms of cancellation. */
  lemma BodyCancels(s: Settings, mode: BodyMode, rest: Bytes, labels: seq<Label>, loop: Loop)
    requires LoopRun(s.body, StartLoop(mode, rest), labels, loop)
    ensures loop.phase.Over? && loop.phase.end.BodyFailed? && BodyFaultOf(loop.phase.end.why) == Fault.Canceled <==>
      Forced(labels, BodyFailed(Cause.Canceled)) || Forced(labels, BodyFailed(Cause.Reading(RecvBuffer.Canceled)))
  {
    hide LoopRun, Forced;
    EndsAreForced(s.body, StartLoop(mode, rest), labels, loop, BodyFailed(Cause.Canceled));
    EndsAreForced(s.body, StartLoop(mode, rest), labels, loop, BodyFailed(Cause.Reading(RecvBuffer.Canceled)));
  }

  lemma OkParts(a: seq<RecvBuffer.ReadAnswer>, b: seq<RecvBuffer.ReadAnswer>)
    ensures RecvBuffer.AllOk(a + b) <==> RecvBuffer.AllOk(a) && RecvBuffer.AllOk(b)
  {
    assert forall i :: 0 <= i < |a| ==> (a + b)[i] == a[i];
    assert forall i :: 0 <= i < |b| ==> (a + b)[|a| + i] == b[i];
  }

  /** Receive one response: heads, then the body. Absent while it has not ended. It is cancelled exactly
      when one of its offers was not taken or one of its waits was cancelled; and a response that is
      all there, is wanted and meets no failing read is received whole. */
  method ReceiveResponse(s: Settings, reader: RecvBuffer.Reader, parser: HeadScan.HeadParser, buffer: RecvBuffer.Buffer, job: Job)
    returns (received: Option<Result<Received, Fault>>, arrived: Bytes, head: Option<ValidResponse>, frames: seq<Frame>,
             ghost answers: seq<RecvBuffer.ReadAnswer>, ghost labels: seq<Label>, ghost turns: seq<seq<Label>>)
    requires buffer.Valid() && parser.maxBytes == s.rules.maxBytes
    requires HeadScan.Kept(parser.scan, HeadScan.Bounded(buffer.Contents(), s.rules.maxBytes))
    modifies reader, parser, buffer, buffer.permit
    ensures buffer.Valid() && (buffer.permit == old(buffer.permit) || fresh(buffer.permit))
    ensures reader.delivered == old(reader.delivered) + arrived && reader.Stream() == old(reader.Stream())
    ensures reader.answers == old(reader.answers) + (answers + ReadsIn(labels)) && Follows(job.bodyTurns, labels, turns)
    ensures received.None? ==> reader.script == [] || |turns| == |job.bodyTurns|
    ensures Receives(s, job, old(buffer.Contents()) + arrived, answers, labels, received)
    ensures received.Some? && received.value.Ok? ==>
      && parser.scan == HeadScan.START && head.Some?
      && received.value.value.buffer == buffer.Contents() && !received.value.value.end.BodyFailed?
      && (received.value.value.end == BodyComplete ==>
            ResponseRead(s, job.request, old(buffer.Contents()) + arrived, head.value, received.value.value.policy,
                         frames, buffer.Contents()))
  {
    hide ReadHeads, Meaning, PayloadOf, HeadScan.Kept, AlwaysFinds, NeverReads, WholeBody, ResponseRead, Faithful, LoopInv, LoopRun, RefusedBody,
         RecvBuffer.BytesOf, HeadsVerdict, CancelsResponse, ReadsIn, Willing, Follows, Forced, DataOnly, RecvBuffer.AllOk,
         AllOffersTaken, BodyFaultOf, StartLoop, NewPolicy, IncomingBody.NeedsEndpoint, IsProtocolFault;
    head, frames, labels, turns := None, [], [], [];
    ghost var w0, p0 := buffer.Contents(), NewPolicy(job.request, s.maxInformational);
    var policy := new ExchangePolicy(job.request, s.maxInformational);
    var outcome, read, interim, polls := ReceiveHeads(reader, parser, buffer, policy, s.rules, job.interimTaken);
    arrived, answers := read, polls;
    NoBodySteps(job, answers);
    ReadingKinds(s.rules, p0, w0 + arrived);
    HeadsCancel(ReadHeads(s.rules, p0, w0 + arrived), job, answers);
    if outcome.StillReading? { return None, arrived, head, frames, answers, labels, turns; }
    if outcome.HeadsFailed? { return Some(Err(outcome.fault)), arrived, head, frames, answers, labels, turns; }
    head := Some(outcome.head);
    ghost var rest := buffer.Contents();
    if !job.finalTaken { return Some(Err(Fault.Canceled)), arrived, head, frames, answers, labels, turns; }
    var more;
    received, more, frames, labels, turns := ReceiveRest(s, reader, buffer, job, outcome.head, p0, policy.View(), w0 + arrived, interim);
    Assoc(w0, arrived, more);
    Assoc(old(reader.delivered), arrived, more);
    assert old(reader.answers) + answers + ReadsIn(labels) == old(reader.answers) + (answers + ReadsIn(labels));
    OkParts(answers, ReadsIn(labels));
    StillFound(s.rules, p0, w0 + arrived, more, policy.View(), outcome.head, rest, interim, job, answers, labels);
    arrived := arrived + more;
  }

  /** The body of a response whose final head was taken. */
  method ReceiveRest(s: Settings, reader: RecvBuffer.Reader, buffer: RecvBuffer.Buffer, job: Job, head: ValidResponse, ghost p0: Policy,
                     policy: Policy, ghost whole: Bytes, ghost interim: seq<ValidResponse>)
    returns (received: Option<Result<Received, Fault>>, arrived: Bytes, frames: seq<Frame>, ghost labels: seq<Label>,
             ghost turns: seq<seq<Label>>)
    requires buffer.Valid() && p0 == NewPolicy(job.request, s.maxInformational)
    requires AlwaysFinds(s.rules, p0, whole, policy, head, buffer.Contents(), interim)
    modifies reader, buffer, buffer.permit
    ensures buffer.Valid() && (buffer.permit == old(buffer.permit) || fresh(buffer.permit))
    ensures reader.delivered == old(reader.delivered) + arrived && reader.Stream() == old(reader.Stream())
    ensures reader.answers == old(reader.answers) + ReadsIn(labels) && Follows(job.bodyTurns, labels, turns)
    ensures received.None? ==> reader.script == [] || |turns| == |job.bodyTurns|
    ensures received == Some(Err(Fault.Canceled)) <==>
      Forced(labels, BodyFailed(Cause.Canceled)) || Forced(labels, BodyFailed(Cause.Reading(RecvBuffer.Canceled)))
    ensures received.Some? && Willing(job.bodyTurns) && RecvBuffer.AllOk(ReadsIn(labels)) ==>
      (Meaning(s.body, NewDecoder(head.body), old(buffer.Contents()) + arrived).Accept? ==>
         received.value.Ok? && received.value.value.end == BodyComplete)
    ensures received.Some? && received.value.Ok? ==>
      && received.value.value.buffer == buffer.Contents() && !received.value.value.end.BodyFailed?
      && (received.value.value.end == BodyComplete ==>
            ResponseRead(s, job.request, whole + arrived, head, received.value.value.policy, frames, buffer.Contents()))
  {
    hide ReadHeads, Meaning, PayloadOf, AlwaysFinds, WholeBody, ResponseRead, Faithful, LoopInv, LoopRun, RefusedBody,
         RecvBuffer.BytesOf, ReadsIn, Willing, Follows, Forced, RecvBuffer.AllOk, BodyFaultOf, StartLoop, NewPolicy;
    frames, labels, turns, arrived := [], [], [], [];
    ghost var rest := buffer.Contents();
    NoBodySteps(job, reader.answers);
    assert rest + [] == rest && whole + [] == whole && reader.delivered + [] == reader.delivered;
    if !IncomingBody.NeedsEndpoint(head.body) {
      EmptyBody(s, head.body, rest);
      HeadsThenBody(s, job.request, whole, [], policy, head, rest, interim, false, frames, rest, 0);
      return Some(Ok(Received(BodyComplete, buffer.Contents(), policy))), arrived, frames, labels, turns;
    }
    var decoder := new Decoding.BodyDecoder(head.body, s.body);
    var drain := new DrainPolicy();
    var end, taken, offered, more, eof, loop, steps, inTurn := ReceiveBody(reader, buffer, decoder, drain, head.body, job.bodyTurns);
    frames, labels, turns, arrived := taken, steps, inTurn, more;
    BodyCancels(s, head.body, rest, labels, loop);
    if end == Some(BodyComplete) {
      HeadsThenBody(s, job.request, whole, more, policy, head, rest, interim, eof, frames,
                    buffer.Contents(), loop.driver.decoder.extensionBytes);
    }
    if end.None? { return None, arrived, frames, labels, turns; }
    if end.value.BodyFailed? { return Some(Err(BodyFaultOf(end.value.why))), arrived, frames, labels, turns; }
    return Some(Ok(Received(end.value, buffer.Contents(), policy))), arrived, frames, labels, turns;
  }

  lemma NoBodySteps(job: Job, answers: seq<RecvBuffer.ReadAnswer>)
    ensures ReadsIn([]) == [] && answers + [] == answers && Follows(job.bodyTurns, [], [])
    ensures !Forced([], BodyFailed(Cause.Canceled)) && !Forced([], BodyFailed(Cause.Reading(RecvBuffer.Canceled)))
  {
  }

  /** What the body brings in changes nothing about the heads found before it. */
  lemma StillFound(rules: HeadRules, p0: Policy, w: Bytes, more: Bytes, p: Policy, head: ValidResponse, rest: Bytes,
                   interim: seq<ValidResponse>, job: Job, answers: seq<RecvBuffer.ReadAnswer>, labels: seq<Label>)
    requires AlwaysFinds(rules, p0, w, p, head, rest, interim) && AllOffersTaken(interim, job.interimTaken)
    requires DataOnly(answers) && job.finalTaken
    ensures var r := ReadHeads(rules, p0, w + more);
      && r == Found(p, head, rest + more, interim) && RecvBuffer.AllOk(answers)
      && HeadsVerdict(r, answers, job.interimTaken) == HeadFound(head)
      && (CancelsResponse(r, job, answers, labels) <==>
            Forced(labels, BodyFailed(Cause.Canceled)) || Forced(labels, BodyFailed(Cause.Reading(RecvBuffer.Canceled))))
  {
    hide ReadHeads, Forced;
  }

  /** `wire` is the heads up to an accepted upgrade, and `rest` is what follows them. */
  ghost predicate UpgradeRead(s: Settings, request: ValidRequest, wire: Bytes, kind: UpgradeKind, rest: Bytes)
  {
    var r := ReadHeads(s.rules, NewPolicy(request, s.maxInformational), wire);
    r.Found? && r.policy.phase == Upgrading(kind) && r.rest == rest
  }

  lemma UpgradeRest(s: Settings, request: ValidRequest, wire: Bytes, head: ValidResponse, p: Policy,
                    frames: seq<Frame>, unread: Bytes)
    requires ResponseRead(s, request, wire, head, p, frames, unread) && p.phase.Upgrading?
    ensures UpgradeRead(s, request, wire, p.phase.kind, unread)
  {
    hide ReadHeads, PayloadOf;
    UpgradeHasNoBody(s.rules, NewPolicy(request, s.maxInformational), wire);
  }

  /** A settled exchange: its result, what arrived and what was written for it, and its response. */
  datatype Report = Report(settled: Result<Settled, Fault>, arrived: Bytes, response: Option<Response>, sent: Bytes)

  /** What a settled exchange for a job means. Reuse or handoff: the whole request was written and
      nothing aborted it. Reuse with nothing unread: exactly one response was taken off the wire.
      Handoff: what is left is exactly what follows the upgrade head. */
  ghost predicate Reports(s: Settings, job: Job, x: Report)
  {
    x.settled.Ok? ==>
      var Settled(unread, outcome, _) := x.settled.value;
      && (!outcome.Close? ==> WholeRequest(job, x.sent) && !job.aborted)
      && (outcome == Reuse && unread == [] ==>
            x.response.Some? && x.response.value.wire == x.arrived && OneResponse(s, job.request, x.response.value))
      && (outcome.Handoff? ==> UpgradeRead(s, job.request, x.arrived, outcome.kind, unread))
  }

  /** The connection's fate after a whole request and a whole response: what the heads say. */
  ghost predicate FollowsPolicy(s: Settings, job: Job, wire: Bytes, x: Settled)
  {
    var r := ReadHeads(s.rules, NewPolicy(job.request, s.maxInformational), wire);
    && r.Found? && x.reason == MessagePolicy
    && x.outcome == (if r.policy.phase.Upgrading? then Handoff(r.policy.phase.kind)
                     else if r.policy.persistence == Reusable then Reuse else Close)
  }

  /** One exchange: upload and response on their own halves of the transport, and their settlement. */
  method RunExchange(s: Settings, reader: RecvBuffer.Reader, parser: HeadScan.HeadParser, buffer: RecvBuffer.Buffer, writer: Transmission.Transport, job: Job)
    returns (settled: Option<Result<Settled, Fault>>, arrived: Bytes, response: Option<Response>, ghost sent: Bytes,
             ghost uploaded: Option<Result<(), Fault>>, ghost received: Option<Result<Received, Fault>>,
             ghost answers: seq<RecvBuffer.ReadAnswer>, ghost labels: seq<Label>, ghost turns: seq<seq<Label>>)
    requires buffer.Valid() && parser.maxBytes == s.rules.maxBytes
    requires buffer.Contents() == [] && parser.scan == HeadScan.START
    modifies reader, parser, buffer, buffer.permit, writer
    ensures buffer.Valid() && (buffer.permit == old(buffer.permit) || fresh(buffer.permit))
    ensures reader.delivered == old(reader.delivered) + arrived && reader.Stream() == old(reader.Stream())
    ensures writer.accepted == old(writer.accepted) + sent
    ensures settled.Some? && settled.value.Ok? ==> settled.value.value.buffer == buffer.Contents() && parser.scan == HeadScan.START
    ensures settled.Some? ==> Reports(s, job, Report(settled.value, arrived, response, sent))
    ensures EncoderOf(job).Err? ==> settled == Some(Err(Uploading(Transmission.EncodeFault(EncoderOf(job).error))))
    ensures EncoderOf(job).Ok? && uploaded.Some? && received.Some? ==>
      settled == Some(FinishExchange(uploaded.value, received.value, job.aborted))
    ensures EncoderOf(job).Ok? && (uploaded.None? || received.None?) ==> settled.None?
    ensures reader.answers == old(reader.answers) + (answers + ReadsIn(labels)) && Follows(job.bodyTurns, labels, turns)
    ensures EncoderOf(job).Ok? ==> Receives(s, job, arrived, answers, labels, received)
    ensures EncoderOf(job).Ok? && uploaded.None? ==>
      writer.script == [] || FramesGiven(job.upload.turns) == |job.upload.turns|
    ensures EncoderOf(job).Ok? && received.None? ==> reader.script == [] || |turns| == |job.bodyTurns|
    ensures uploaded.Some? && uploaded.value.Ok? ==> WholeRequest(job, sent)
    ensures EncoderOf(job).Ok? && uploaded.Some? && UploadGiven(job, old(writer.script)) ==> uploaded.value.Ok?
    ensures settled.Some? && uploaded.Some? && uploaded.value.Ok? && !job.aborted ==>
      (ResponseGiven(s, job, arrived, answers + ReadsIn(labels)) ==>
         settled.value.Ok? && FollowsPolicy(s, job, arrived, settled.value.value))
  {
    hide ReadHeads, Meaning, PayloadOf, HeadScan.Kept, RecvBuffer.BytesOf, WholeRequest, UpgradeRead, Encoding.NewEncoder,
         ReadsIn, Follows, HeadsVerdict, CancelsResponse, RecvBuffer.AllOk, Willing, UploadGiven;
    arrived, response, sent, uploaded, received, answers, labels, turns := [], None, [], None, None, [], [], [];
    NoBodySteps(job, []);
    assert reader.answers + [] == reader.answers;
    var encoding := EncoderOf(job);
    assert writer.accepted + [] == writer.accepted && reader.delivered + [] == reader.delivered;
    if encoding.Err? {
      return Some(Err(Uploading(Transmission.EncodeFault(encoding.error)))), arrived, response, sent, uploaded, received,
        answers, labels, turns;
    }
    var encoder := new Encoding.BodyEncoder(encoding.value);
    var upload, obtained, recycled, out := SendRequest(writer, job, encoder);
    sent, uploaded := out, upload;
    HeadScan.FreshIsKept(HeadScan.Bounded(buffer.Contents(), s.rules.maxBytes));
    var result, more, head, frames, polls, steps, inTurn := ReceiveResponse(s, reader, parser, buffer, job);
    arrived, received, answers, labels, turns := more, result, polls, steps, inTurn;
    assert [] + arrived == arrived;
    response := if head.Some? then Some(Response(arrived, head.value, frames)) else None;
    if upload.None? || result.None? { return None, arrived, response, sent, uploaded, received, answers, labels, turns; }
    settled := Some(FinishExchange(upload.value, result.value, job.aborted));
    SettlementMeaning(upload.value, result.value, job.aborted);
    ReadingKinds(s.rules, NewPolicy(job.request, s.maxInformational), arrived);
    if settled.value.Ok? && settled.value.value.outcome.Handoff? {
      UpgradeRest(s, job.request, arrived, head.value, result.value.value.policy, frames, buffer.Contents());
    }
  }

  datatype LoopEnd =
    | NoMoreJobs
    | StillExchanging
    | NotReadmitted
    | HandedOff(kind: UpgradeKind)
    | RetiredBy(reason: CloseReason)
    | LoopFailed(fault: Fault)

  function Wires(done: seq<Response>): Bytes
  {
    if done == [] then [] else Wires(done[..|done| - 1]) + done[|done| - 1].wire
  }

  /** The first jobs were each served: request written whole, one response read, nothing aborted. */
  ghost predicate Served(s: Settings, jobs: seq<Job>, done: seq<Response>, requests: seq<Bytes>)
  {
    |done| == |requests| <= |jobs| && forall i :: 0 <= i < |done| ==>
      OneResponse(s, jobs[i].request, done[i]) && WholeRequest(jobs[i], requests[i]) && !jobs[i].aborted
  }

  lemma NothingServed(s: Settings, jobs: seq<Job>)
    ensures Served(s, jobs, [], []) && Wires([]) == []
  {
  }

  lemma ServeOne(s: Settings, jobs: seq<Job>, done: seq<Response>, requests: seq<Bytes>, x: Report)
    requires Served(s, jobs, done, requests) && |done| < |jobs| && Reports(s, jobs[|done|], x)
    requires x.settled.Ok? && x.settled.value.outcome == Reuse && x.settled.value.buffer == []
    ensures x.response.Some? && x.response.value.wire == x.arrived
    ensures Served(s, jobs, done + [x.response.value], requests + [x.sent])
    ensures Wires(done + [x.response.value]) == Wires(done) + x.arrived && Join(requests + [x.sent]) == Join(requests) + x.sent
  {
    hide OneResponse, WholeRequest;
    var response, sent := x.response.value, x.sent;
    assert (done + [response])[..|done|] == done;
    JoinPush(requests, sent);
  }

  /** How the loop ends by what an exchange settled as: a failure, a retirement and a handoff end it, and
      so does input that nobody asked for behind a response. */
  predicate EndsLoop(end: LoopEnd, settled: Result<Settled, Fault>)
  {
    match settled
    case Err(fault) => end == LoopFailed(fault)
    case Ok(Settled(_, Handoff(kind), _)) => end == HandedOff(kind)
    case Ok(Settled(_, Close, reason)) => end == RetiredBy(reason)
    case Ok(Settled(unread, Reuse, _)) => unread != [] && end == LoopFailed(Unsolicited)
  }

  lemma HandedOver(s: Settings, job: Job, x: Report)
    requires Reports(s, job, x) && x.settled.Ok? && x.settled.value.outcome.Handoff?
    ensures WholeRequest(job, x.sent) && UpgradeRead(s, job.request, x.arrived, x.settled.value.outcome.kind, x.settled.value.buffer)
  {
    hide OneResponse, WholeRequest, UpgradeRead;
  }

  /** Serve jobs one after another until the connection cannot be used again. Every job before the
      last one served had its whole request written and got exactly its own response: the bytes
      received so far are those responses back to back and the bytes written begin with those
      requests back to back, so no exchange starts with a byte of an earlier one. A handoff passes
      on exactly what follows the upgrade head, and the loop stops early only because of what the
      exchange it stops at settled as, or because it has not settled. */
  method RunLoop(s: Settings, reader: RecvBuffer.Reader, parser: HeadScan.HeadParser, buffer: RecvBuffer.Buffer, writer: Transmission.Transport, jobs: seq<Job>)
    returns (end: LoopEnd, done: seq<Response>, wire: Bytes, leftover: Bytes, ghost requests: seq<Bytes>, ghost written: Bytes,
             ghost last: Option<Report>)
    requires buffer.Valid() && parser.maxBytes == s.rules.maxBytes
    requires buffer.Contents() == [] && parser.scan == HeadScan.START
    modifies reader, parser, buffer, buffer.permit, writer
    ensures Served(s, jobs, done, requests)
    ensures Wires(done) <= wire
    ensures reader.delivered == old(reader.delivered) + wire && reader.Stream() == old(reader.Stream())
    ensures writer.accepted == old(writer.accepted) + written && Join(requests) <= written
    ensures end == NoMoreJobs ==> |done| == |jobs|
    ensures end == StillExchanging ==> |done| < |jobs|
    ensures end.HandedOff? || end.RetiredBy? || end.LoopFailed? ==>
      && |done| < |jobs| && last.Some?
      && Reports(s, jobs[|done|], last.value) && EndsLoop(end, last.value.settled)
    ensures end == NotReadmitted ==> |done| > 0 && !jobs[|done| - 1].readmits
    ensures forall i :: 0 <= i < |done| && (i < |done| - 1 || end != NotReadmitted) ==> jobs[i].readmits
    ensures end == NoMoreJobs || end == NotReadmitted ==> wire == Wires(done) && leftover == [] && written == Join(requests)
    ensures end.HandedOff? ==>
      && |done| < |jobs| && WholeRequest(jobs[|done|], written[|Join(requests)|..])
      && UpgradeRead(s, jobs[|done|].request, wire[|Wires(done)|..], end.kind, leftover)
  {
    hide OneResponse, RecvBuffer.BytesOf, WholeRequest, UpgradeRead, Join, Wires, ResponseGiven, FollowsPolicy, FinishExchange, Receives, Follows,
         ReadsIn, FramesGiven, UploadGiven, Reports, EncoderOf, Served;
    done, wire, leftover, requests, written, last := [], [], [], [], [], None;
    JoinNothing();
    NothingServed(s, jobs);
    assert writer.accepted + [] == writer.accepted && reader.delivered + [] == reader.delivered;
    var next := 0;
    while next < |jobs|
      invariant next == |done| == |requests| <= |jobs|
      invariant buffer.Valid() && (buffer.permit == old(buffer.permit) || fresh(buffer.permit))
      invariant buffer.Contents() == [] && parser.scan == HeadScan.START
      invariant Served(s, jobs, done, requests)
      invariant reader.delivered == old(reader.delivered) + wire && reader.Stream() == old(reader.Stream())
      invariant forall i :: 0 <= i < |done| ==> jobs[i].readmits
      invariant wire == Wires(done) && written == Join(requests) && writer.accepted == old(writer.accepted) + written
    {
      var settled, arrived, response, sent, _, _, _, _, _ := RunExchange(s, reader, parser, buffer, writer, jobs[next]);
      assert (wire + arrived)[|wire|..] == arrived && (written + sent)[|written|..] == sent;
      Assoc(old(writer.accepted), written, sent);
      Assoc(old(reader.delivered), wire, arrived);
      wire, written := wire + arrived, written + sent;
      if settled.None? { return StillExchanging, done, wire, leftover, requests, written, last; }
      last := Some(Report(settled.value, arrived, response, sent));
      if settled.value.Err? { return LoopFailed(settled.value.error), done, wire, leftover, requests, written, last; }
      match settled.value.value.outcome {
        case Handoff(kind) =>
          HandedOver(s, jobs[next], last.value);
          leftover := buffer.TakeAll();
          return HandedOff(kind), done, wire, leftover, requests, written, last;
        case Close => return RetiredBy(settled.value.value.reason), done, wire, leftover, requests, written, last;
        case Reuse =>
          if buffer.Contents() != [] { return LoopFailed(Unsolicited), done, wire, leftover, requests, written, last; }
          ServeOne(s, jobs, done, requests, last.value);
          done, requests := done + [response.value], requests + [sent];
          if !jobs[next].readmits { return NotReadmitted, done, wire, leftover, requests, written, last; }
      }
      next := next + 1;
    }
    return NoMoreJobs, done, wire, leftover, requests, written, last;
  }
}
