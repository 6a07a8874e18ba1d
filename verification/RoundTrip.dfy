/** What the encoder writes, the decoder reads back. */
module RoundTrip {
  import opened Prelude
  import opened Syntax
  import opened Radix
  import opened ChunkGrammar
  import opened ChunkExtensions
  import opened ChunkMessages
  import opened Encoding
  import opened DecodeRuns

  /** The wire bytes of a sequence of data frames, as long as the encoder accepts them. */
  function EncodeFrames(e: Encoder, frames: seq<Bytes>): (Encoder, Result<Bytes, EncodeError>)
    decreases |frames|
  {
    if frames == [] then (e, Ok([]))
    else
      var (e', framing) := FrameData(e, |frames[0]|);
      if framing.Err? then (e', Err(framing.error))
      else
        var (last, rest) := EncodeFrames(e', frames[1..]);
        if rest.Err? then (last, rest)
        else (last, Ok(framing.value.prefix + frames[0] + framing.value.suffix + rest.value))
  }

  /** A whole body: its frames, then `finish` or `trailers`. */
  function EncodeBody(e: Encoder, frames: seq<Bytes>, end: Option<HeaderMap>): Result<Bytes, EncodeError>
  {
    var (e', wire) := EncodeFrames(e, frames);
    if wire.Err? then wire
    else
      var (_, closing) := if end.Some? then FrameTrailers(e', end.value) else FrameEnd(e');
      if closing.Err? then closing else Ok(wire.value + closing.value)
  }

  // ---- size bounds ------------------------------------------------------------------

  predicate BoundsOk(e: Encoder) { e.upper.Some? ==> e.lower <= e.upper.value }

  /** Accepted frames never exceed the upper bound and are charged against both bounds. */
  lemma {:induction false} FramesCharge(e: Encoder, frames: seq<Bytes>)
    requires Sending(e.state) && BoundsOk(e) && EncodeFrames(e, frames).1.Ok?
    ensures var last := EncodeFrames(e, frames).0;
      && last.state == e.state && last.trailers == e.trailers && last.config == e.config && BoundsOk(last)
      && last.lower == (if |Join(frames)| <= e.lower then e.lower - |Join(frames)| else 0)
      && (e.upper.Some? ==> |Join(frames)| <= e.upper.value && last.upper == Some(e.upper.value - |Join(frames)|))
    decreases |frames|
  {
    if frames != [] {
      FramesCharge(FrameData(e, |frames[0]|).0, frames[1..]);
    }
  }

  // ---- which bodies are accepted ----------------------------------------------------

  predicate FramesCount(frames: seq<Bytes>) { forall i :: 0 <= i < |frames| ==> |frames[i]| < U64_LIMIT }

  /** Data frames are accepted exactly while each has a 64-bit length and all together stay
      within the upper bound; what remains of the lower bound is what they fall short of it. */
  lemma {:induction false} FramesAccepted(e: Encoder, frames: seq<Bytes>)
    requires Sending(e.state)
    ensures var (last, r) := EncodeFrames(e, frames);
      && (r.Ok? <==> FramesCount(frames) && (e.upper.Some? ==> |Join(frames)| <= e.upper.value))
      && (r.Ok? ==> last.state == e.state && last.trailers == e.trailers && last.config == e.config
                    && (last.lower == 0 <==> e.lower <= |Join(frames)|))
      && (r.Err? ==> r.error == LengthMismatch)
    decreases |frames|
  {
    if frames != [] {
      var (e', framing) := FrameData(e, |frames[0]|);
      assert FramesCount(frames) <==> |frames[0]| < U64_LIMIT && FramesCount(frames[1..]) by {
        assert forall i :: 0 < i < |frames| ==> frames[i] == frames[1..][i - 1];
      }
      if framing.Ok? {
        FramesAccepted(e', frames[1..]);
      }
    }
  }

  /** The payload is as long as was promised. */
  predicate Within(size: SizeHint, frames: seq<Bytes>)
  {
    && FramesCount(frames)
    && size.lower <= |Join(frames)| && (size.upper.Some? ==> |Join(frames)| <= size.upper.value)
  }

  /** The trailers a chunked body may end with: promised, of allowed names, and small enough
      together with the closing chunk and the empty line. */
  predicate MayEndWith(end: Option<HeaderMap>, hint: TrailerHint, config: EncodeConfig)
  {
    end.Some? ==>
      && hint == MayHave && TrailersAllowed(end.value)
      && |FieldLines(end.value, config.titleCase)| + 5 <= config.maxTrailerBytes
  }

  /** The bodies that fit what was promised about them. */
  predicate Encodable(mode: BodyMode, metadata: BodyMetadata, config: EncodeConfig,
                      frames: seq<Bytes>, end: Option<HeaderMap>)
  {
    match mode
    case NoBody => frames == [] && end.None?
    case FixedLength(n) =>
      && metadata == BodyMetadata(SizeHint(n, Some(n)), NoTrailers)
      && FramesCount(frames) && |Join(frames)| == n && end.None?
    case UntilClose => metadata.trailers == NoTrailers && Within(metadata.size, frames) && end.None?
    case ChunkedBody => Within(metadata.size, frames) && MayEndWith(end, metadata.trailers, config)
  }

  lemma FrameEndAccepted(e: Encoder, end: Option<HeaderMap>)
    requires Sending(e.state)
    ensures var closing := if end.Some? then FrameTrailers(e, end.value).1 else FrameEnd(e).1;
      && (closing.Ok? <==> e.lower == 0 && (end.Some? ==> e.state == SendChunked) && MayEndWith(end, e.trailers, e.config))
      && (e.lower != 0 && (end.Some? ==> e.state == SendChunked) ==> closing == Err(LengthMismatch))
  {
    hide TrailersAllowed, FieldLines;
  }

  /** Exactly which bodies the encoder accepts, from the framing, the promises and the frames. */
  lemma EncodableBodies(mode: BodyMode, metadata: BodyMetadata, config: EncodeConfig,
                        frames: seq<Bytes>, end: Option<HeaderMap>)
    ensures var e := NewEncoder(mode, metadata, config);
      e.Ok? && EncodeBody(e.value, frames, end).Ok? <==> Encodable(mode, metadata, config, frames, end)
  {
    hide FrameTrailers, FrameEnd, EncodeFrames, FramesCount, Join, MayEndWith;
    var made := NewEncoder(mode, metadata, config);
    if made.Ok? {
      var e := made.value;
      if mode == NoBody {
        EmptyBodyAccepted(e, frames, end);
      } else {
        FramesAccepted(e, frames);
        if EncodeFrames(e, frames).1.Ok? {
          FrameEndAccepted(EncodeFrames(e, frames).0, end);
        }
        if end.None? { NoTrailersFit(e.trailers, config); }
      }
    }
  }

  lemma NoTrailersFit(hint: TrailerHint, config: EncodeConfig)
    ensures MayEndWith(None, hint, config)
  {
  }

  lemma EmptyBodyAccepted(e: Encoder, frames: seq<Bytes>, end: Option<HeaderMap>)
    requires e.state == SendNone
    ensures EncodeBody(e, frames, end).Ok? <==> frames == [] && end.None?
  {
  }

  /** A payload shorter or longer than promised is refused as such. */
  lemma LengthsAreEnforced(e: Encoder, frames: seq<Bytes>, end: Option<HeaderMap>)
    requires Sending(e.state) && (end.Some? ==> e.state == SendChunked)
    requires !Within(SizeHint(e.lower, e.upper), frames)
    ensures EncodeBody(e, frames, end) == Err(LengthMismatch)
  {
    hide FrameTrailers, FrameEnd, EncodeFrames, FramesCount, Join;
    FramesAccepted(e, frames);
    if EncodeFrames(e, frames).1.Ok? {
      FrameEndAccepted(EncodeFrames(e, frames).0, end);
    }
  }

  // ---- unchunked bodies -------------------------------------------------------------

  lemma {:induction false} PlainFrames(e: Encoder, frames: seq<Bytes>)
    requires (e.state == SendFixed || e.state == SendUntilClose) && EncodeFrames(e, frames).1.Ok?
    ensures EncodeFrames(e, frames).1.value == Join(frames)
    decreases |frames|
  {
    if frames != [] {
      PlainFrames(FrameData(e, |frames[0]|).0, frames[1..]);
    }
  }

  /** A fixed body is exactly its declared length and is read back with nothing left over
      and nothing of what follows taken. */
  lemma FixedRoundTrip(cfg: Config, n: nat, metadata: BodyMetadata, config: EncodeConfig,
                       frames: seq<Bytes>, end: Option<HeaderMap>, after: Bytes)
    requires NewEncoder(FixedLength(n), metadata, config).Ok?
    requires EncodeBody(NewEncoder(FixedLength(n), metadata, config).value, frames, end).Ok?
    ensures var wire := EncodeBody(NewEncoder(FixedLength(n), metadata, config).value, frames, end).value;
      && wire == Join(frames) && |wire| == n && end.None?
      && Meaning(cfg, NewDecoder(FixedLength(n)), wire + after) == Accept(Join(frames), None, after, 0)
  {
    var e := NewEncoder(FixedLength(n), metadata, config).value;
    FramesCharge(e, frames);
    PlainFrames(e, frames);
    assert Join(frames) + [] == Join(frames);
    assert (Join(frames) + after)[..n] == Join(frames) && (Join(frames) + after)[n..] == after;
  }

  lemma CloseRoundTrip(cfg: Config, metadata: BodyMetadata, config: EncodeConfig,
                       frames: seq<Bytes>, end: Option<HeaderMap>)
    requires metadata.size.Valid() && NewEncoder(UntilClose, metadata, config).Ok?
    requires EncodeBody(NewEncoder(UntilClose, metadata, config).value, frames, end).Ok?
    ensures var wire := EncodeBody(NewEncoder(UntilClose, metadata, config).value, frames, end).value;
      && end.None?
      && Meaning(cfg, NewDecoder(UntilClose), wire) == Accept(Join(frames), None, [], 0)
  {
    var e := NewEncoder(UntilClose, metadata, config).value;
    FramesCharge(e, frames);
    PlainFrames(e, frames);
    assert Join(frames) + [] == Join(frames);
  }

  // ---- chunked bodies ---------------------------------------------------------------

  /** Empty frames leave no chunk behind: an empty chunk would end the body. */
  function Chunks(frames: seq<Bytes>): seq<Chunk>
  {
    if frames == [] then []
    else if frames[0] == [] then Chunks(frames[1..])
    else [Chunk(Hex(|frames[0]|), frames[0])] + Chunks(frames[1..])
  }

  lemma {:induction false} ChunksCarryFrames(frames: seq<Bytes>)
    ensures PayloadOf(Chunks(frames)) == Join(frames)
    ensures forall c :: c in Chunks(frames) ==> exists i :: 0 <= i < |frames| && c == Chunk(Hex(|frames[i]|), frames[i])
  {
    if frames != [] {
      ChunksCarryFrames(frames[1..]);
      var chunks := Chunks(frames);
      if frames[0] != [] {
        assert chunks[1..] == Chunks(frames[1..]);
      }
      forall c | c in chunks ensures exists i :: 0 <= i < |frames| && c == Chunk(Hex(|frames[i]|), frames[i]) {
        if c in Chunks(frames[1..]) {
          var i :| 0 <= i < |frames[1..]| && c == Chunk(Hex(|frames[1..][i]|), frames[1..][i]);
          assert frames[i + 1] == frames[1..][i];
        } else {
          assert c == Chunk(Hex(|frames[0]|), frames[0]);
        }
      }
    }
  }

  lemma RegroupChunk(line: Bytes, data: Bytes, rest: Bytes, tail: Bytes)
    ensures line + CRLF + data + CRLF + rest + tail == line + CRLF + (data + (CRLF + (rest + tail)))
  {
  }

  lemma {:induction false} ChunkedFrames(e: Encoder, frames: seq<Bytes>, tail: Bytes)
    requires e.state == SendChunked && EncodeFrames(e, frames).1.Ok?
    ensures EncodeFrames(e, frames).1.value + (LAST_CHUNK + tail) == Wire(Chunks(frames), [ZERO], tail)
    decreases |frames|
  {
    if frames == [] {
      assert LAST_CHUNK == [ZERO] + CRLF;
      assert [] + (LAST_CHUNK + tail) == [ZERO] + CRLF + tail;
    } else {
      var (e', framing) := FrameData(e, |frames[0]|);
      var rest := EncodeFrames(e', frames[1..]).1.value;
      ChunkedFrames(e', frames[1..], tail);
      if frames[0] == [] {
        assert [] + [] + [] + rest == rest;
      } else {
        var c := Chunk(Hex(|frames[0]|), frames[0]);
        assert ([c] + Chunks(frames[1..]))[1..] == Chunks(frames[1..]);
        RegroupChunk(c.line, c.data, rest, LAST_CHUNK + tail);
      }
    }
  }

  /** A line of bare hex digits has no break, no extension, and denotes its number. */
  lemma HexLine(limits: DecodeLimits, charged: nat, line: Bytes, n: nat)
    requires AllHex(line) && line != [] && Value(line, 16) == n < U64_LIMIT && |line| + 2 <= limits.chunkLine
    ensures OneLine(line) && ExtensionLength(line) == 0
    ensures ReadLine(limits, charged, line) == Some(Line(n, |line| + 2, charged))
  {
    assert Find(line, SEMICOLON) == |line|;
    assert line[..|line|] == line && line[|line|..] == [];
    assert !IsOws(line[|line| - 1]);
    assert SizeText(line) == line;
  }

  /** A bare line within the limits reads as n exactly when it is a text of n: its minimal
      hexadecimal, in any case, after any zeros. */
  lemma BareLineReads(limits: DecodeLimits, charged: nat, line: Bytes, n: nat)
    requires line != [] && !IsOws(line[|line| - 1]) && Find(line, SEMICOLON) == |line|
    ensures ReadLine(limits, charged, line) == Some(Line(n, |line| + 2, charged))
      <==> Denotes16(line, n) && n < U64_LIMIT && |line| + 2 <= limits.chunkLine
  {
    hide Denotes16, Value, AllHex, Find, IsOws;
    HexTextsOf(line, n);
    assert line[..|line|] == line && line[|line|..] == [];
    assert SizeText(line) == line;
  }

  /** Exactly which chunk lines read as n, whatever they carry: in front of the first semicolon stands a
      text of n, perhaps with space behind it, from there on the extensions the grammar writes, and
      both the line and all extensions charged so far are within their limits. */
  lemma LineReads(limits: DecodeLimits, charged: nat, line: Bytes, n: nat)
    ensures var cut := Find(line, SEMICOLON); var text, extensions := TrimEnd(line[..cut]), line[cut..];
      ReadLine(limits, charged, line) == Some(Line(n, |line| + 2, charged + |extensions|)) <==>
        && text != [] && Denotes16(text, n) && n < U64_LIMIT && |line| + 2 <= limits.chunkLine
        && (exists es: seq<Extension>, after: Bytes :: Written(extensions, es, after))
        && (extensions != [] ==> charged + |extensions| < U64_LIMIT && charged + |extensions| <= limits.extensions)
  {
    hide Denotes16, Value, AllHex, Find, IsOws, Written, ExtensionsOk;
    var cut := Find(line, SEMICOLON);
    HexTextsOf(SizeText(line), n);
    ExtensionGrammar(line[cut..]);
  }

  lemma {:induction false} ChunksAdmitted(limits: DecodeLimits, frames: seq<Bytes>)
    requires limits.chunkLine >= 3
    requires forall i :: 0 <= i < |frames| ==> |frames[i]| < U64_LIMIT && |Hex(|frames[i]|)| + 2 <= limits.chunkLine
    ensures Admitted(limits, 0, Chunks(frames), [ZERO]) && ExtensionSum(Chunks(frames), [ZERO]) == 0
  {
    hide ReadLine, ExtensionLength;
    if frames == [] {
      assert [ZERO][..0] == [] && Value([ZERO][..0], 16) == 0;
      HexLine(limits, 0, [ZERO], 0);
    } else {
      ChunksAdmitted(limits, frames[1..]);
      if frames[0] != [] {
        HexReadsBack(|frames[0]|);
        HexLine(limits, 0, Hex(|frames[0]|), |frames[0]|);
        assert Chunks(frames)[1..] == Chunks(frames[1..]);
      }
    }
  }

  // ---- trailer blocks ---------------------------------------------------------------

  /** What the header types guarantee: token names, and values without control characters. */
  predicate CleanField(f: Field)
  {
    && (f.name.Other? ==> IsToken(f.name.text))
    && forall i :: 0 <= i < |f.value| ==> QuotedTextByte(f.value[i])
  }

  predicate CleanFields(fields: HeaderMap) { forall i :: 0 <= i < |fields| ==> CleanField(fields[i]) }

  lemma FieldLineIsOneLine(f: Field, titleCase: bool)
    requires CleanField(f) && f.name.Other?
    ensures FieldLine(f, titleCase) != [] && OneLine(FieldLine(f, titleCase))
  {
    var name := NameBytes(f.name, titleCase);
    assert forall i :: 0 <= i < |name| ==> IsTchar(f.name.text[i]) && name[i] != CR && name[i] != LF;
  }

  lemma {:induction false} FieldLinesShift(fields: HeaderMap, titleCase: bool)
    requires fields != []
    ensures FieldLines(fields, titleCase)
         == FieldLine(fields[0], titleCase) + CRLF + FieldLines(fields[1..], titleCase)
  {
    var init := fields[..|fields| - 1];
    if |fields| == 1 {
      assert init == [] && fields[1..] == [];
    } else {
      FieldLinesShift(init, titleCase);
      assert fields[1..][..|fields| - 2] == init[1..];
      var first, last := FieldLine(fields[0], titleCase), FieldLine(fields[|fields| - 1], titleCase) + CRLF;
      Assoc(first + CRLF, FieldLines(init[1..], titleCase), last);
    }
  }

  /** A line in front of a block moves the block's end by exactly that line. */
  lemma LineBeforeBlock(line: Bytes, tail: Bytes)
    requires line != [] && OneLine(line)
    ensures FirstEmptyLine(line + CRLF + tail, 0) == |line| + 2 + FirstEmptyLine(tail, 0)
  {
    var w := line + CRLF + tail;
    var n := |line| + 2;
    assert w[n - 2] == CR && w[n - 1] == LF;
    forall j | 0 <= j < |tail| ensures EmptyLineAt(w, n + j) == EmptyLineAt(tail, j) {
      assert w[n + j] == tail[j];
      assert j >= 1 ==> w[n + j - 1] == tail[j - 1];
      assert j >= 2 ==> w[n + j - 2] == tail[j - 2];
    }
    forall j | 0 <= j < n ensures !EmptyLineAt(w, j) {
      if j < |line| {
        assert w[j] == line[j];
      } else if j == n - 1 {
        assert w[n - 3] == line[|line| - 1];
      }
    }
    var i := FirstEmptyLine(w, 0);
    assert i >= n;
    if i < |w| {
      assert EmptyLineAt(tail, i - n);
    }
  }

  /** The empty line the encoder writes last is the first one in its block. */
  lemma {:induction false} BlockEndsAtItsEmptyLine(fields: HeaderMap, titleCase: bool, after: Bytes)
    requires CleanFields(fields) && TrailersAllowed(fields)
    ensures FirstEmptyLine(FieldLines(fields, titleCase) + CRLF + after, 0) == |FieldLines(fields, titleCase)| + 1
  {
    if fields == [] {
      var w := [] + CRLF + after;
      assert w[0] == CR && w[1] == LF;
      assert !EmptyLineAt(w, 0) && EmptyLineAt(w, 1);
    } else {
      FieldLineIsOneLine(fields[0], titleCase);
      FieldLinesShift(fields, titleCase);
      var line := FieldLine(fields[0], titleCase);
      var rest := FieldLines(fields[1..], titleCase) + CRLF + after;
      assert FieldLines(fields, titleCase) + CRLF + after == line + CRLF + rest;
      LineBeforeBlock(line, rest);
      BlockEndsAtItsEmptyLine(fields[1..], titleCase, after);
    }
  }

  /** The block parser reads back a block this encoder wrote. */
  predicate ParsesBack(cfg: Config, fields: HeaderMap, titleCase: bool)
  {
    var block := FieldLines(fields, titleCase) + CRLF;
    cfg.parse(block) == Complete(|block|, fields)
  }

  lemma TrailersReadBack(cfg: Config, fields: HeaderMap, titleCase: bool, after: Bytes)
    requires CleanFields(fields) && TrailersAllowed(fields) && ParsesBack(cfg, fields, titleCase)
    requires |FieldLines(fields, titleCase) + CRLF| <= cfg.limits.trailerBytes
    ensures TrailerMeaning(cfg, 0, FieldLines(fields, titleCase) + CRLF + after) == Accept([], Some(fields), after, 0)
  {
    var block := FieldLines(fields, titleCase) + CRLF;
    BlockEndsAtItsEmptyLine(fields, titleCase, after);
    assert (block + after)[..|block|] == block && (block + after)[|block|..] == after;
  }

  /** Encode-then-decode is the identity on chunked bodies: empty frames vanish, payload and
      trailers come back, and reading stops exactly where the message ends. */
  lemma ChunkedRoundTrip(cfg: Config, metadata: BodyMetadata, config: EncodeConfig,
                         frames: seq<Bytes>, end: Option<HeaderMap>, after: Bytes)
    requires metadata.size.Valid()
    requires EncodeBody(NewEncoder(ChunkedBody, metadata, config).value, frames, end).Ok?
    requires var fields := if end.Some? then end.value else [];
      && CleanFields(fields) && ParsesBack(cfg, fields, config.titleCase)
      && |FieldLines(fields, config.titleCase) + CRLF| <= cfg.limits.trailerBytes
    requires cfg.limits.chunkLine >= 3
    requires forall i :: 0 <= i < |frames| ==> |Hex(|frames[i]|)| + 2 <= cfg.limits.chunkLine
    ensures var wire := EncodeBody(NewEncoder(ChunkedBody, metadata, config).value, frames, end).value;
      Meaning(cfg, NewDecoder(ChunkedBody), wire + after)
        == Accept(Join(frames), Some(if end.Some? then end.value else []), after, 0)
  {
    hide TrailerMeaning, ReadLine, LineAt, Admitted, ChunkMeaning, ExtensionSum, EncodeBody, EncodeFrames,
         Chunks, PayloadOf, Wire, Join, FieldLines, CleanFields, ParsesBack;
    var e := NewEncoder(ChunkedBody, metadata, config).value;
    var fields := if end.Some? then end.value else [];
    var block := FieldLines(fields, config.titleCase) + CRLF;
    ChunkedWire(e, frames, end, after);
    FrameLengthsOf(e, frames, end);
    ChunksCarryFrames(frames);
    ChunksAdmitted(cfg.limits, frames);
    WritesAreRead(cfg, 0, Chunks(frames), [ZERO], block + after);
    TrailersReadBack(cfg, fields, config.titleCase, after);
    assert Join(frames) + [] == Join(frames);
  }

  /** The encoded wire, written as a chunked message. */
  lemma ChunkedWire(e: Encoder, frames: seq<Bytes>, end: Option<HeaderMap>, after: Bytes)
    requires e.state == SendChunked && BoundsOk(e) && EncodeBody(e, frames, end).Ok?
    ensures var fields := if end.Some? then end.value else [];
      && TrailersAllowed(fields)
      && EncodeBody(e, frames, end).value + after
         == Wire(Chunks(frames), [ZERO], FieldLines(fields, e.config.titleCase) + CRLF + after)
  {
    hide Wire, Chunks;
    var fields := if end.Some? then end.value else [];
    var lines := FieldLines(fields, e.config.titleCase);
    FramesCharge(e, frames);
    var body := EncodeFrames(e, frames).1.value;
    ChunkedFrames(e, frames, lines + CRLF + after);
    RegroupEnd(body, lines, after);
  }

  lemma RegroupEnd(body: Bytes, lines: Bytes, after: Bytes)
    ensures body + (LAST_CHUNK + lines + CRLF) + after == body + (LAST_CHUNK + (lines + CRLF + after))
    ensures LAST_CHUNK + [] + CRLF == LAST_CHUNK + CRLF
  {
  }

  lemma FrameLengthsOf(e: Encoder, frames: seq<Bytes>, end: Option<HeaderMap>)
    requires Sending(e.state) && EncodeBody(e, frames, end).Ok?
    ensures forall i :: 0 <= i < |frames| ==> |frames[i]| < U64_LIMIT
  {
    FrameLengths(e, frames);
  }

  lemma {:induction false} FrameLengths(e: Encoder, frames: seq<Bytes>)
    requires Sending(e.state) && EncodeFrames(e, frames).1.Ok?
    ensures forall i :: 0 <= i < |frames| ==> |frames[i]| < U64_LIMIT
    decreases |frames|
  {
    if frames != [] {
      FrameLengths(FrameData(e, |frames[0]|).0, frames[1..]);
      assert forall i :: 0 < i < |frames| ==> frames[i] == frames[1..][i - 1];
    }
  }

  /** A chunk-line limit that holds the encoder's prefix buffer holds the line of any frame it accepts. */
  lemma AnyFrameFitsAChunkLine(e: Encoder, frames: seq<Bytes>, limit: nat)
    requires Sending(e.state) && EncodeFrames(e, frames).1.Ok? && limit >= CHUNK_PREFIX_CAPACITY
    ensures forall i :: 0 <= i < |frames| ==> |Hex(|frames[i]|)| + 2 <= limit
  {
    FrameLengths(e, frames);
    forall i | 0 <= i < |frames| ensures |Hex(|frames[i]|)| + 2 <= limit {
      HexFits(|frames[i]|);
    }
  }

  /** Sender and receiver together: however the encoded body reaches the receiver, a run over
      it that settles has accepted it, handed over exactly the sent payload and trailers, and
      kept back exactly the bytes that follow. */
  lemma EncodedBodiesArrive(cfg: Config, metadata: BodyMetadata, config: EncodeConfig,
                            frames: seq<Bytes>, end: Option<HeaderMap>, after: Bytes,
                            states: seq<Driver>, rest: Bytes)
    requires metadata.size.Valid()
    requires EncodeBody(NewEncoder(ChunkedBody, metadata, config).value, frames, end).Ok?
    requires var fields := if end.Some? then end.value else [];
      && CleanFields(fields) && ParsesBack(cfg, fields, config.titleCase)
      && |FieldLines(fields, config.titleCase) + CRLF| <= cfg.limits.trailerBytes
    requires cfg.limits.chunkLine >= CHUNK_PREFIX_CAPACITY
    requires Run(cfg, ChunkedBody, states)
    requires var last := states[|states| - 1];
      && (Accepted(last) || Rejected(last)) && (last.eof ==> rest == [])
      && last.arrived + rest == EncodeBody(NewEncoder(ChunkedBody, metadata, config).value, frames, end).value + after
    ensures var last := states[|states| - 1];
      && Accepted(last) && last.delivered == Join(frames)
      && last.trailers == Some(if end.Some? then end.value else [])
      && last.buffer + rest == after
  {
    hide Meaning, FieldLines, CleanFields, ParsesBack, Run, Join;
    AnyFrameFitsAChunkLine(NewEncoder(ChunkedBody, metadata, config).value, frames, cfg.limits.chunkLine);
    ChunkedRoundTrip(cfg, metadata, config, frames, end, after);
    RunsReachTheMeaning(cfg, ChunkedBody, states, rest);
  }
}
