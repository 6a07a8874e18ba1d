/** A body from one side's encoder to the other side's application. */
module EndToEnd {
  import opened Prelude
  import opened ChunkGrammar
  import opened Encoding
  import opened RoundTrip
  import opened Receiving
  import opened Transmission
  import Decoding
  import RecvBuffer

  /** The receiver's configuration takes what the sender may send: for chunked framing, lines as
      long as the encoder's prefix and a trailer block that parses back. */
  ghost predicate Compatible(cfg: Config, mode: BodyMode, config: EncodeConfig, end: Option<HeaderMap>)
  {
    mode == ChunkedBody ==>
      var fields := if end.Some? then end.value else [];
      && CleanFields(fields) && ParsesBack(cfg, fields, config.titleCase)
      && |FieldLines(fields, config.titleCase) + CRLF| <= cfg.limits.trailerBytes
      && cfg.limits.chunkLine >= CHUNK_PREFIX_CAPACITY
  }

  /** What the receiver should see of the end of a body. */
  function TrailersSeen(mode: BodyMode, end: Option<HeaderMap>): Option<HeaderMap>
  {
    if mode == ChunkedBody then Some(if end.Some? then end.value else []) else None
  }

  /** Whatever its framing, an encoded body followed by other bytes means its own frames. */
  lemma EncodedMeaning(cfg: Config, mode: BodyMode, metadata: BodyMetadata, config: EncodeConfig,
                       frames: seq<Bytes>, end: Option<HeaderMap>, after: Bytes)
    requires mode != NoBody && metadata.size.Valid() && NewEncoder(mode, metadata, config).Ok?
    requires EncodeBody(NewEncoder(mode, metadata, config).value, frames, end).Ok?
    requires Compatible(cfg, mode, config, end) && (mode == UntilClose ==> after == [])
    ensures var wire := EncodeBody(NewEncoder(mode, metadata, config).value, frames, end).value;
      Meaning(cfg, NewDecoder(mode), wire + after) == Accept(Join(frames), TrailersSeen(mode, end), after, 0)
  {
    hide Meaning, EncodeFrames, Join, FieldLines, CleanFields, ParsesBack;
    match mode
    case FixedLength(n) => FixedRoundTrip(cfg, n, metadata, config, frames, end, after);
    case UntilClose =>
      CloseRoundTrip(cfg, metadata, config, frames, end);
      var wire := EncodeBody(NewEncoder(mode, metadata, config).value, frames, end).value;
      assert wire + [] == wire;
    case ChunkedBody =>
      AnyFrameFitsAChunkLine(NewEncoder(ChunkedBody, metadata, config).value, frames, cfg.limits.chunkLine);
      ChunkedRoundTrip(cfg, metadata, config, frames, end, after);
  }

  /** What was sent is what is received: when a receive loop has read a whole body out of bytes that
      begin as the encoder wrote them, it handed over the sent payload and trailers, and what it
      left unread is what follows the body. */
  lemma SentIsReceived(cfg: Config, mode: BodyMode, metadata: BodyMetadata, config: EncodeConfig,
                       sent: seq<Bytes>, end: Option<HeaderMap>, after: Bytes,
                       arrived: Bytes, later: Bytes, eof: bool, received: seq<Frame>, unread: Bytes, extensions: nat)
    requires mode != NoBody && metadata.size.Valid() && NewEncoder(mode, metadata, config).Ok?
    requires EncodeBody(NewEncoder(mode, metadata, config).value, sent, end).Ok?
    requires Compatible(cfg, mode, config, end) && (mode == UntilClose ==> after == [])
    requires arrived + later == EncodeBody(NewEncoder(mode, metadata, config).value, sent, end).value + after
    requires eof ==> later == []
    requires WholeBody(cfg, mode, arrived, eof, received, unread, extensions)
    ensures PayloadOf(received) == Join(sent) && TrailersIn(received) == TrailersSeen(mode, end)
    ensures unread + later == after && extensions == 0
  {
    hide Meaning, EncodeBody, Join, PayloadOf, Compatible;
    EncodedMeaning(cfg, mode, metadata, config, sent, end, after);
    assert Meaning(cfg, NewDecoder(mode), arrived + later)
        == Accept(PayloadOf(received), TrailersIn(received), unread + later, extensions);
  }

  /** At any point of a transfer, whatever has arrived and whatever happens to the rest: the payload
      handed over is a prefix of the payload sent, and trailers among the frames are those sent. */
  lemma ReceivedIsPrefixOfSent(cfg: Config, mode: BodyMode, metadata: BodyMetadata, config: EncodeConfig,
                               sent: seq<Bytes>, end: Option<HeaderMap>, after: Bytes,
                               arrived: Bytes, later: Bytes, received: seq<Frame>)
    requires mode != NoBody && metadata.size.Valid() && NewEncoder(mode, metadata, config).Ok?
    requires EncodeBody(NewEncoder(mode, metadata, config).value, sent, end).Ok?
    requires Compatible(cfg, mode, config, end) && (mode == UntilClose ==> after == [])
    requires arrived + later == EncodeBody(NewEncoder(mode, metadata, config).value, sent, end).value + after
    requires Faithful(cfg, mode, arrived, received)
    ensures PayloadOf(received) <= Join(sent)
    ensures TrailersIn(received).Some? ==>
      PayloadOf(received) == Join(sent) && TrailersIn(received) == TrailersSeen(mode, end)
  {
    hide Meaning, EncodeBody, Join, PayloadOf, Compatible;
    EncodedMeaning(cfg, mode, metadata, config, sent, end, after);
    var v := Meaning(cfg, NewDecoder(mode), arrived + later);
    assert PayloadOf(received) <= v.payload;
  }

  /** An encoded body is never refused, except as cut short: end of file came before the whole
      encoding had arrived. */
  lemma RefusedOnlyIfCutShort(cfg: Config, mode: BodyMode, metadata: BodyMetadata, config: EncodeConfig,
                              sent: seq<Bytes>, end: Option<HeaderMap>, after: Bytes,
                              arrived: Bytes, later: Bytes, eof: bool, received: seq<Frame>, error: DecodeError)
    requires mode != NoBody && metadata.size.Valid() && NewEncoder(mode, metadata, config).Ok?
    requires EncodeBody(NewEncoder(mode, metadata, config).value, sent, end).Ok?
    requires Compatible(cfg, mode, config, end) && (mode == UntilClose ==> after == [])
    requires arrived + later == EncodeBody(NewEncoder(mode, metadata, config).value, sent, end).value + after
    requires RefusedBody(cfg, mode, arrived, eof, received, error)
    ensures error == UnexpectedEof && eof
    ensures |arrived| < |EncodeBody(NewEncoder(mode, metadata, config).value, sent, end).value|
  {
    hide Meaning, EncodeBody, Join, PayloadOf, Compatible;
    var wire := EncodeBody(NewEncoder(mode, metadata, config).value, sent, end).value;
    EncodedMeaning(cfg, mode, metadata, config, sent, end, after);
    assert error != UnexpectedEof ==> Meaning(cfg, NewDecoder(mode), arrived + later) == Reject(PayloadOf(received));
    assert arrived + [] == arrived;
    assert Meaning(cfg, NewDecoder(mode), arrived + []) == Reject(PayloadOf(received));
    if |arrived| >= |wire| {
      var seen := after[..|arrived| - |wire|];
      assert arrived == (arrived + later)[..|arrived|] == wire + seen;
      EncodedMeaning(cfg, mode, metadata, config, sent, end, seen);
    }
  }

  /** The receiving half: one body off a wire, into a fresh decoder. */
  method Collect(wire: Bytes, readTurns: seq<RecvBuffer.ReadTurn>, buffer: RecvBuffer.Buffer, cfg: Config, mode: BodyMode, script: seq<Turn>)
    returns (answer: Option<BodyEnd>, frames: seq<Frame>, offered: seq<Frame>, arrived: Bytes, eof: bool,
             reader: RecvBuffer.Reader, ghost extensions: nat)
    requires buffer.Valid() && buffer.Contents() == []
    modifies buffer, buffer.permit
    ensures buffer.Valid() && fresh(reader) && reader.delivered == arrived && reader.Stream() == wire
    ensures Faithful(cfg, mode, arrived, offered)
    ensures answer == Some(BodyComplete) ==> WholeBody(cfg, mode, arrived, eof, frames, buffer.Contents(), extensions)
    ensures answer.Some? && answer.value.BodyFailed? && answer.value.why.BadBody? ==>
      RefusedBody(cfg, mode, arrived, eof, frames, answer.value.why.error)
    ensures answer.Some? && Willing(script) && RecvBuffer.AllOk(reader.answers) ==>
      answer.value == BodyComplete || (answer.value.BodyFailed? && answer.value.why.BadBody?)
  {
    hide Faithful, WholeBody, RefusedBody, LoopInv, LoopRun, Follows, ReadsIn, RecvBuffer.AllOk, Willing, RecvBuffer.BytesOf, Meaning;
    reader := new RecvBuffer.Reader(wire, readTurns);
    var decoder := new Decoding.BodyDecoder(mode, cfg);
    var drain := new DrainPolicy();
    ghost var loop, labels, taken;
    answer, frames, offered, arrived, eof, loop, labels, taken := ReceiveBody(reader, buffer, decoder, drain, mode, script);
    extensions := loop.driver.decoder.extensionBytes;
    assert [] + arrived == arrived && [] + wire == wire && [] + ReadsIn(labels) == ReadsIn(labels);
    if answer.Some? && Willing(script) && RecvBuffer.AllOk(reader.answers) {
      WillingEnds(cfg, StartLoop(mode, []), labels, loop, script, taken);
    }
  }

  /** Send a body through a transport and receive it at the other end, followed by other bytes, with
      any short writes, any cuts of the input, and any behaviour of producer and consumer. The frames
      sent are those the producer gave. When the sender succeeded, the frames offered to the receiving
      application are a prefix of what was sent; a completed body is the sent body and leaves exactly
      what follows it; a body is refused only when end of file cut it short; and with a willing
      application, reads that went well and the whole body arrived, a body that ended is complete. */
  method Transfer(writer: Transport, mode: BodyMode, metadata: BodyMetadata, config: EncodeConfig, turns: seq<ProducerTurn>,
                  after: Bytes, readTurns: seq<RecvBuffer.ReadTurn>, buffer: RecvBuffer.Buffer, cfg: Config, script: seq<Turn>)
    returns (r: Option<Result<SendStats, SendFault>>, sent: seq<Bytes>, end: Option<HeaderMap>, n: nat, written: Bytes,
             answer: Option<BodyEnd>, frames: seq<Frame>, offered: seq<Frame>, arrived: Bytes, later: Bytes, eof: bool,
             reader: RecvBuffer.Reader)
    requires mode != NoBody && metadata.size.Valid() && NewEncoder(mode, metadata, config).Ok?
    requires buffer.Valid() && buffer.Contents() == []
    modifies writer, buffer, buffer.permit
    ensures buffer.Valid() && writer.accepted == old(writer.accepted) + written && arrived + later == written + after
    ensures fresh(reader) && reader.delivered == arrived && reader.ahead == later
    ensures n <= |turns| && sent == DataOf(turns[..n]) && end == TrailersOf(turns[..n])
    ensures r.Some? && r.value.Ok? ==>
      && 0 < n && turns[n - 1].produced.EndOfBody?
      && EncodeBody(NewEncoder(mode, metadata, config).value, sent, end) == Ok(written)
    ensures r.Some? && r.value.Ok? && Compatible(cfg, mode, config, end) && (mode == UntilClose ==> after == []) ==>
      && PayloadOf(offered) <= Join(sent)
      && (answer == Some(BodyComplete) && (eof ==> later == []) ==>
            PayloadOf(frames) == Join(sent) && TrailersIn(frames) == TrailersSeen(mode, end) && buffer.Contents() + later == after)
      && (answer.Some? && answer.value.BodyFailed? && answer.value.why.BadBody? ==>
            answer.value.why.error == UnexpectedEof && eof && |arrived| < |written|)
      && (answer.Some? && Willing(script) && RecvBuffer.AllOk(reader.answers) && |written| <= |arrived| ==> answer == Some(BodyComplete))
  {
    hide Meaning, EncodeBody, Join, PayloadOf, Compatible, NewEncoder, Truncated, Faithful, WholeBody, RefusedBody, LoopInv, LoopRun,
         RecvBuffer.BytesOf, DataOf, TrailersOf, OutputPending, Unencodable, Oversized, Calm, Follows, ReadsIn, RecvBuffer.AllOk, Willing;
    var from := |writer.accepted|;
    var encoder := new BodyEncoder(NewEncoder(mode, metadata, config).value);
    var recycled;
    ghost var count, whole, out;
    r, sent, recycled, end, n, count, whole, out := SendBody(writer, encoder, turns);
    written := writer.accepted[from..];
    assert written == out;
    ghost var extensions;
    answer, frames, offered, arrived, eof, reader, extensions := Collect(written + after, readTurns, buffer, cfg, mode, script);
    later := reader.ahead;
    if r.Some? && r.value.Ok? && Compatible(cfg, mode, config, end) && (mode == UntilClose ==> after == []) {
      ReceivedIsPrefixOfSent(cfg, mode, metadata, config, sent, end, after, arrived, later, offered);
      if answer == Some(BodyComplete) && (eof ==> later == []) {
        SentIsReceived(cfg, mode, metadata, config, sent, end, after, arrived, later, eof, frames,
                       buffer.Contents(), extensions);
      }
      if answer.Some? && answer.value.BodyFailed? && answer.value.why.BadBody? {
        RefusedOnlyIfCutShort(cfg, mode, metadata, config, sent, end, after, arrived, later, eof, frames, answer.value.why.error);
      }
    }
  }
}
