/** The incremental body decoder, proved to refine the one-piece `Meaning` of its input. */
module Decoding {
  import opened Prelude
  import opened Syntax
  import opened Radix
  import opened ChunkGrammar

  datatype Outcome =
    | NeedMore(consumed: nat)
    | Payload(lo: nat, hi: nat, consumed: nat)
    | TrailerBlock(trailers: HeaderMap, consumed: nat)
    | End(consumed: nat)

  /** Framing has no more payload to deliver. */
  predicate FramingComplete(d: Decoder) { d.state == Empty || d.state == Fixed(0) || d.state == Done }

  predicate WellFormed(d: Decoder)
  {
    d.state.Chunked? && d.state.chunk.Data? ==> d.state.chunk.remaining > 0
  }

  /** The caller kept every byte the decoder has already looked at: a resumed scan skips
      only bytes in which no line (or block) can have ended. */
  predicate Retained(d: Decoder, input: Bytes)
  {
    match d.state
    case Chunked(Size(scanned)) => scanned <= |input| ==> ScannedLine(input, scanned)
    case Chunked(Trailers(scanned)) => scanned <= |input| ==> scanned <= FirstEmptyLine(input, 0)
    case _ => true
  }

  predicate ScannedLine(input: Bytes, n: nat)
  {
    n <= Find(input, LF) && n <= Find(input, CR) + 1
  }

  /** How far into its input a paused decoder has already looked. */
  function Scanned(d: Decoder): nat
  {
    match d.state
    case Chunked(Size(scanned)) => scanned
    case Chunked(Trailers(scanned)) => scanned
    case _ => 0
  }

  predicate Kept(d: Decoder, input: Bytes)
  {
    Scanned(d) <= |input| && Retained(d, input)
  }

  /** Nothing in `rest` can be processed before more input arrives. */
  predicate Starved(cfg: Config, d: Decoder, rest: Bytes)
  {
    match d.state
    case Fixed(n) => n > 0 && rest == []
    case UntilEof => rest == []
    case Chunked(Size(_)) => Find(rest, LF) == |rest| <= cfg.limits.chunkLine
    case Chunked(Data(_)) => rest == []
    case Chunked(DataCrlf) => rest == [] || rest == [CR]
    case Chunked(Trailers(_)) => FirstEmptyLine(rest, 0) == |rest| <= cfg.limits.trailerBytes
    case _ => false
  }

  function Rest(input: Bytes, r: Result<Outcome, DecodeError>): Bytes
  {
    if r.Ok? && r.value.consumed <= |input| then input[r.value.consumed..] else input
  }

  /** What one reported outcome adds to the meaning of the input still to come. */
  function Effect(input: Bytes, r: Result<Outcome, DecodeError>, later: Verdict): Verdict
  {
    match r
    case Ok(Payload(lo, hi, _)) => if lo <= hi <= |input| then Deliver(input[lo..hi], later) else later
    case Ok(TrailerBlock(trailers, _)) => DeliverTrailers(trailers, later)
    case _ => later
  }

  /** One call keeps the meaning of the input, whatever input is appended afterwards. */
  ghost predicate KeepsMeaning(cfg: Config, d: Decoder, input: Bytes, eof: bool,
                               d': Decoder, r: Result<Outcome, DecodeError>)
  {
    forall future: Bytes :: (eof ==> future == []) ==>
      Meaning(cfg, d, input + future) == Effect(input, r, Meaning(cfg, d', Rest(input, r) + future))
  }

  /** The call was decided by end of file: a body cut short, or one that runs until the end. */
  predicate DecidedByEof(d: Decoder, d': Decoder)
  {
    d'.state == Failed(UnexpectedEof) || (d'.state == Done && d.state == UntilEof)
  }

  /** The decoder's contract: meaning is kept, failures stick, input is asked for only when it
      is needed and may still come, and payload ranges are real and non-empty. A premature end
      is reported only at end of file; any other error means that no continuation can help. */
  ghost predicate Decodes(cfg: Config, d: Decoder, input: Bytes, eof: bool,
                          d': Decoder, r: Result<Outcome, DecodeError>)
  {
    && KeepsMeaning(cfg, d, input, eof && DecidedByEof(d, d'), d', r)
    && (d'.state == UntilEof ==> d.state == UntilEof)
    && (d.state.Failed? ==> d' == d && r == Err(d.state.error))
    && match r
       case Err(error) =>
         && d'.state == Failed(error)
         && (error == UnexpectedEof ==> eof || d.state.Failed?)
       case Ok(NeedMore(consumed)) =>
         consumed <= |input| && !eof && Starved(cfg, d', Rest(input, r)) && Kept(d', Rest(input, r))
       case Ok(Payload(lo, hi, consumed)) =>
         lo < hi <= consumed <= |input| && !d'.state.Failed? && Kept(d', Rest(input, r))
       case Ok(TrailerBlock(_, consumed)) => consumed <= |input| && d'.state == Done
       case Ok(End(consumed)) => consumed == 0 && d'.state == Done
  }

  // ---- lexical loops ----------------------------------------------------------------

  /** Reads the extensions of one chunk line by consuming a slice from the front. */
  method ValidateExtensions(text: Bytes) returns (ok: bool)
    ensures ok == ExtensionsOk(text)
  {
    var input := text;
    while input != []
      invariant ExtensionsOk(input) == ExtensionsOk(text)
      decreases |input|
    {
      ghost var before := input;
      input := TrimOws(input);
      if input == [] || input[0] != SEMICOLON { return false; }
      input := TrimOws(input[1..]);
      var name := TokenLen(input);
      if name == 0 { return false; }
      input := TrimOws(input[name..]);
      if input != [] && input[0] == EQUALS {
        input := TrimOws(input[1..]);
        var value;
        if input != [] && input[0] == DQUOTE {
          value := QuotedStringLen(input);
          if value.None? { return false; }
        } else {
          value := Some(TokenLen(input));
          if value.value == 0 { return false; }
        }
        input := TrimOws(input[value.value..]);
      }
      if input != [] && input[0] != SEMICOLON { return false; }
    }
    return true;
  }

  /** One chunk line without its CRLF. */
  method ParseLine(line: Bytes) returns (r: Result<nat, DecodeError>)
    ensures r.Ok? <==> LineOk(line)
    ensures r.Ok? ==> r.value == Value(SizeText(line), 16)
    ensures r.Err? ==> r.error == InvalidChunkSize || r.error == InvalidChunkExtension
  {
    var extension := Find(line, SEMICOLON);
    var text := TrimEnd(line[..extension]);
    if text == [] || !AllHex(text) { return Err(InvalidChunkSize); }
    var size := CheckedFold(text, 16);
    if size.None? { return Err(InvalidChunkSize); }
    var ok := ValidateExtensions(line[extension..]);
    if !ok { return Err(InvalidChunkExtension); }
    return Ok(size.value);
  }

  class BodyDecoder {
    var state: DecoderState
    var extensionBytes: nat
    const cfg: Config

    constructor (mode: BodyMode, cfg: Config)
      ensures View() == NewDecoder(mode) && this.cfg == cfg
      ensures WellFormed(View())
    {
      state := InitialState(mode);
      extensionBytes := 0;
      this.cfg := cfg;
    }

    function View(): Decoder
      reads this
    {
      Decoder(state, extensionBytes)
    }

    /** Framing is complete without looking at more input. */
    method IsComplete() returns (complete: bool)
      ensures complete <==> FramingComplete(View())
      ensures complete ==> forall w :: Meaning(cfg, View(), w) == Accept([], None, w, extensionBytes)
      ensures !complete ==> !Meaning(cfg, View(), []).Accept? || state == UntilEof
    {
      return state == Empty || state == Fixed(0) || state == Done;
    }

    /** Decode the front of the retained input. */
    method Decode(input: Bytes, eof: bool) returns (r: Result<Outcome, DecodeError>)
      requires WellFormed(View()) && Retained(View(), input)
      modifies this
      ensures WellFormed(View())
      ensures Decodes(cfg, old(View()), input, eof, View(), r)
    {
      ghost var d := View();
      match state
      case Empty =>
        state := Done;
        r := Ok(End(0));
      case Fixed(remaining) =>
        if remaining == 0 {
          state := Done;
          r := Ok(End(0));
        } else if input != [] {
          var count := if |input| < remaining then |input| else remaining;
          state := Fixed(remaining - count);
          r := Ok(Payload(0, count, count));
          FixedSplits(cfg, remaining, count, extensionBytes, input);
        } else if eof {
          r := Fail(UnexpectedEof);
        } else {
          r := Ok(NeedMore(0));
        }
      case Chunked(chunk) =>
        r := DecodeChunked(chunk, input, eof);
      case UntilEof =>
        if input != [] {
          if eof { state := Done; }
          r := Ok(Payload(0, |input|, |input|));
          assert input[0..|input|] == input && input[|input|..] == [];
          assert forall future: Bytes :: [] + future == future;
        } else if eof {
          state := Done;
          r := Ok(End(0));
        } else {
          r := Ok(NeedMore(0));
        }
      case Done =>
        r := Ok(End(0));
      case Failed(error) =>
        r := Err(error);
    }

    method Fail(error: DecodeError) returns (r: Result<Outcome, DecodeError>)
      modifies this`state
      ensures state == Failed(error) && r == Err(error)
    {
      state := Failed(error);
      r := Err(error);
    }

    method DecodeChunked(start: ChunkState, input: Bytes, eof: bool) returns (r: Result<Outcome, DecodeError>)
      requires state == Chunked(start) && WellFormed(View()) && Retained(View(), input)
      modifies this
      ensures WellFormed(View())
      ensures Decodes(cfg, old(View()), input, eof, View(), r)
    {
      ghost var d := View();
      var chunk := start;
      var cursor := 0;
      assert input[0..] == input;
      while true
        invariant cursor <= |input| && state == d.state
        invariant At(cfg, d, input, cursor, Decoder(Chunked(chunk), extensionBytes))
        decreases |input| - cursor
      {
        match chunk
        case Size(scanned) =>
          var next;
          r, next := DecodeSize(input, cursor, eof, scanned, d);
          if next.None? { return; }
          chunk, cursor := next.value.0, next.value.1;
        case Data(remaining) =>
          r := DecodeData(input, cursor, eof, remaining, d);
          return;
        case DataCrlf =>
          var next;
          r, next := DecodeCrlf(input, cursor, eof, d);
          if next.None? { return; }
          chunk, cursor := Size(0), next.value;
        case Trailers(scanned) =>
          r := DecodeTrailers(input, cursor, eof, scanned, d);
          return;
      }
    }

    method DecodeSize(input: Bytes, cursor: nat, eof: bool, scanned: nat, ghost d: Decoder)
      returns (r: Result<Outcome, DecodeError>, next: Option<(ChunkState, nat)>)
      requires cursor <= |input| && state == d.state && At(cfg, d, input, cursor, Decoder(Chunked(Size(scanned)), extensionBytes))
      modifies this
      ensures next.Some? ==> cursor < next.value.1 <= |input| && state == d.state
      ensures next.Some? ==> At(cfg, d, input, next.value.1, Decoder(Chunked(next.value.0), extensionBytes))
      ensures next.None? ==> WellFormed(View()) && Decodes(cfg, d, input, eof, View(), r)
    {
      hide Decodes, LineAt, Find, Reaches;
      ghost var before := Decoder(Chunked(Size(scanned)), extensionBytes);
      next := None;
      var line, resume := ScanChunkLine(input[cursor..], scanned);
      match line
      case Err(error) =>
        r := Fail(error);
        LineRejects(cfg, d, input, cursor, before, View(), eof);
      case Ok(None) =>
        r := PauseLine(input, cursor, eof, resume, d, before);
      case Ok(Some((size, consumed))) =>
        LineStep(cfg, d, input, cursor, before, Line(size, consumed, extensionBytes));
        r := Ok(NeedMore(cursor));
        next := Some((AfterLine(size), cursor + consumed));
    }

    method PauseLine(input: Bytes, cursor: nat, eof: bool, resume: nat, ghost d: Decoder, ghost before: Decoder)
      returns (r: Result<Outcome, DecodeError>)
      requires cursor <= |input| && before.extensionBytes == extensionBytes
      requires At(cfg, d, input, cursor, before) && before.state.chunk.Size?
      requires Find(input[cursor..], LF) == |input| - cursor <= cfg.limits.chunkLine
      requires resume <= |input| - cursor && ScannedLine(input[cursor..], resume)
      modifies this`state
      ensures WellFormed(View()) && Decodes(cfg, d, input, eof, View(), r)
    {
      if eof {
        r := Fail(UnexpectedEof);
        EofRejects(cfg, d, input, cursor, before, View());
      } else {
        state := Chunked(Size(resume));
        ScanIgnored(cfg, d, input, cursor, before, View());
        r := Ok(NeedMore(cursor));
      }
    }

    method DecodeData(input: Bytes, cursor: nat, eof: bool, remaining: nat, ghost d: Decoder)
      returns (r: Result<Outcome, DecodeError>)
      requires cursor <= |input| && state == d.state && At(cfg, d, input, cursor, Decoder(Chunked(Data(remaining)), extensionBytes))
      modifies this`state
      ensures WellFormed(View()) && Decodes(cfg, d, input, eof, View(), r)
    {
      ghost var before := Decoder(Chunked(Data(remaining)), extensionBytes);
      if cursor == |input| {
        if eof {
          r := Fail(UnexpectedEof);
          EofRejects(cfg, d, input, cursor, before, View());
          return;
        }
        state := Chunked(Data(remaining));
        return Ok(NeedMore(cursor));
      }
      var available := |input| - cursor;
      var count := if available < remaining then available else remaining;
      state := Chunked(if remaining == count then DataCrlf else Data(remaining - count));
      DataStep(cfg, d, input, cursor, before, count, eof);
      return Ok(Payload(cursor, cursor + count, cursor + count));
    }

    method DecodeCrlf(input: Bytes, cursor: nat, eof: bool, ghost d: Decoder)
      returns (r: Result<Outcome, DecodeError>, next: Option<nat>)
      requires cursor <= |input| && state == d.state && At(cfg, d, input, cursor, Decoder(Chunked(DataCrlf), extensionBytes))
      modifies this`state
      ensures next.Some? ==> cursor < next.value <= |input| && state == d.state && At(cfg, d, input, next.value, Decoder(Chunked(Size(0)), extensionBytes))
      ensures next.None? ==> WellFormed(View()) && Decodes(cfg, d, input, eof, View(), r)
    {
      ghost var before := Decoder(Chunked(DataCrlf), extensionBytes);
      next := None;
      var rest := input[cursor..];
      if |rest| < 2 {
        if |rest| > 0 && rest[0] != CR {
          r := Fail(InvalidChunkTerminator);
          TerminatorRejects(cfg, d, input, cursor, before, View(), eof);
        } else if eof {
          r := Fail(UnexpectedEof);
          EofRejects(cfg, d, input, cursor, before, View());
        } else {
          state := Chunked(DataCrlf);
          assert rest == [] || rest == [CR];
          r := Ok(NeedMore(cursor));
        }
      } else if rest[..2] != CRLF {
        r := Fail(InvalidChunkTerminator);
        TerminatorRejects(cfg, d, input, cursor, before, View(), eof);
      } else {
        CrlfStep(cfg, d, input, cursor, before);
        r := Ok(NeedMore(cursor));
        next := Some(cursor + 2);
      }
    }

    /** Find the end of the chunk line, resuming after the bytes already scanned. */
    method ScanChunkLine(input: Bytes, start: nat) returns (r: Result<Option<(nat, nat)>, DecodeError>, resume: nat)
      requires start <= |input| ==> ScannedLine(input, start)
      modifies this`extensionBytes
      ensures r.Err? ==> r.error != UnexpectedEof
      ensures r.Err? ==> forall future: Bytes :: LineAt(cfg.limits, old(extensionBytes), input + future).None?
      ensures r == Ok(None) ==> extensionBytes == old(extensionBytes) && resume == |input| <= cfg.limits.chunkLine
      ensures r == Ok(None) ==> Find(input, LF) == |input| && ScannedLine(input, resume)
      ensures r.Ok? && r.value.Some? ==>
        && Find(input, LF) < |input|
        && LineAt(cfg.limits, old(extensionBytes), input) == Some(Line(r.value.value.0, r.value.value.1, extensionBytes))
    {
      hide LineAt, ReadLine, Find;
      var scanned := start;
      if |input| < scanned { scanned := 0; }
      resume := 0;
      var index := scanned;
      while index < |input|
        invariant scanned <= index <= |input|
        invariant ScannedLine(input, index)
        invariant extensionBytes == old(extensionBytes)
      {
        if input[index] == LF {
          FoundLine(cfg.limits, extensionBytes, input, index);
          if index == 0 || input[index - 1] != CR { return Err(InvalidChunkSize), 0; }
          var size := FinishLine(input[..index - 1]);
          if size.Err? { return Err(size.error), 0; }
          return Ok(Some((size.value, index + 1))), 0;
        }
        if index > 0 && input[index - 1] == CR {
          BareCr(cfg.limits, extensionBytes, input, index);
          return Err(InvalidChunkSize), 0;
        }
        index := index + 1;
      }
      if |input| > cfg.limits.chunkLine {
        forall future: Bytes ensures LineAt(cfg.limits, extensionBytes, input + future).None? {
          LongLineRejects(cfg.limits, extensionBytes, input, future);
        }
        return Err(Limit(ChunkLineBytes)), 0;
      }
      return Ok(None), |input|;
    }

    /** A delimited line: check its length, read its size and charge its extensions. */
    method FinishLine(line: Bytes) returns (r: Result<nat, DecodeError>)
      modifies this`extensionBytes
      ensures r.Ok? ==> ReadLine(cfg.limits, old(extensionBytes), line) == Some(Line(r.value, |line| + 2, extensionBytes))
      ensures r.Err? ==> r.error != UnexpectedEof && ReadLine(cfg.limits, old(extensionBytes), line).None?
    {
      hide LineOk, SizeText, Value, ExtensionLength;
      if |line| + 2 > cfg.limits.chunkLine { return Err(Limit(ChunkLineBytes)); }
      r := ParseLine(line);
      if r.Err? { return; }
      var charged := ChargeExtensions(line);
      if charged.Err? { return Err(charged.error); }
    }

    /** Charge a line's extension bytes to the body's budget; a refused charge changes nothing. */
    method ChargeExtensions(line: Bytes) returns (r: Result<(), DecodeError>)
      modifies this`extensionBytes
      ensures var added := ExtensionLength(line);
        if added > 0 && (old(extensionBytes) + added >= U64_LIMIT || old(extensionBytes) + added > cfg.limits.extensions)
        then r == Err(Limit(ChunkExtensionBytes)) && extensionBytes == old(extensionBytes)
        else r == Ok(()) && extensionBytes == old(extensionBytes) + added
    {
      var start := Find(line, SEMICOLON);
      if start == |line| { return Ok(()); }
      var total := extensionBytes + (|line| - start);
      if total >= U64_LIMIT { return Err(Limit(ChunkExtensionBytes)); }
      if total > cfg.limits.extensions { return Err(Limit(ChunkExtensionBytes)); }
      extensionBytes := total;
      return Ok(());
    }

    method DecodeTrailers(input: Bytes, cursor: nat, eof: bool, scanned: nat, ghost d: Decoder)
      returns (r: Result<Outcome, DecodeError>)
      requires cursor <= |input| && state == d.state
      requires At(cfg, d, input, cursor, Decoder(Chunked(Trailers(scanned)), extensionBytes))
      modifies this`state
      ensures WellFormed(View())
      ensures Decodes(cfg, d, input, eof, View(), r)
    {
      hide Decodes, Reaches, LineAt, FirstEmptyLine, TrailersAllowed;
      ghost var before := Decoder(Chunked(Trailers(scanned)), extensionBytes);
      var available := input[cursor..];
      var end, resume := TrailerEnd(available, scanned);
      match end
      case Err(error) =>
        r := Fail(error);
        BlockRejects(cfg, d, input, cursor, before, View(), eof);
      case Ok(None) =>
        r := PauseTrailers(input, cursor, eof, resume, d, before);
      case Ok(Some(length)) =>
        var parsed := cfg.parse(available[..length]);
        if parsed.Refused? {
          r := Fail(parsed.error);
          BlockRefused(cfg, d, input, cursor, before, View(), eof);
        } else if !TrailersAllowed(parsed.trailers) {
          r := Fail(ForbiddenTrailer);
          BlockRefused(cfg, d, input, cursor, before, View(), eof);
        } else {
          state := Done;
          r := Ok(TrailerBlock(parsed.trailers, cursor + parsed.consumed));
          assert available[parsed.consumed..] == input[cursor + parsed.consumed..];
          BlockAccepted(cfg, d, input, cursor, before, parsed.consumed, parsed.trailers, eof);
        }
    }

    method PauseTrailers(input: Bytes, cursor: nat, eof: bool, resume: nat, ghost d: Decoder, ghost before: Decoder)
      returns (r: Result<Outcome, DecodeError>)
      requires cursor <= |input| && before.extensionBytes == extensionBytes
      requires At(cfg, d, input, cursor, before) && before.state.chunk.Trailers?
      requires FirstEmptyLine(input[cursor..], 0) == |input| - cursor == resume <= cfg.limits.trailerBytes
      modifies this`state
      ensures WellFormed(View()) && Decodes(cfg, d, input, eof, View(), r)
    {
      if eof {
        r := Fail(UnexpectedEof);
        EofRejects(cfg, d, input, cursor, before, View());
      } else {
        state := Chunked(Trailers(resume));
        ScanIgnored(cfg, d, input, cursor, before, View());
        r := Ok(NeedMore(cursor));
      }
    }

    /** Find the end of the trailer block within its limit, resuming where a scan stopped. */
    method TrailerEnd(input: Bytes, start: nat) returns (r: Result<Option<nat>, DecodeError>, resume: nat)
      requires start <= |input| ==> start <= FirstEmptyLine(input, 0)
      ensures r.Ok? && r.value.Some? ==> BlockLength(input, cfg.limits.trailerBytes) == r.value
      ensures r == Ok(None) ==> FirstEmptyLine(input, 0) == |input| == resume <= cfg.limits.trailerBytes
      ensures r.Err? ==> r.error == Limit(TrailerBytes)
      ensures r.Err? ==> BlockLength(input, cfg.limits.trailerBytes).None? && |input| > cfg.limits.trailerBytes
    {
      var scanned := start;
      if |input| < scanned { scanned := 0; }
      var bounded := if |input| < cfg.limits.trailerBytes then |input| else cfg.limits.trailerBytes;
      var index := if scanned < bounded then scanned else bounded;
      while index < bounded
        invariant index <= bounded && index <= FirstEmptyLine(input, 0)
      {
        if EmptyLineAt(input, index) {
          return Ok(Some(index + 1)), 0;
        }
        index := index + 1;
      }
      if |input| > cfg.limits.trailerBytes { return Err(Limit(TrailerBytes)), 0; }
      return Ok(None), bounded;
    }
  }

  // ---- steps of the chunked loop ----------------------------------------------------

  /** Having consumed `cursor` bytes of `input`, decoder `now` still gives the whole its meaning. */
  ghost predicate Reaches(cfg: Config, d: Decoder, input: Bytes, cursor: nat, now: Decoder)
    requires cursor <= |input|
  {
    forall future: Bytes :: Meaning(cfg, d, input + future) == Meaning(cfg, now, input[cursor..] + future)
  }

  /** The loop stands at `cursor` as decoder `now` without having lost any meaning. */
  ghost predicate At(cfg: Config, d: Decoder, input: Bytes, cursor: nat, now: Decoder)
    requires cursor <= |input|
  {
    && d.state.Chunked? && now.state.Chunked?
    && WellFormed(now) && Retained(now, input[cursor..]) && Reaches(cfg, d, input, cursor, now)
  }

  lemma Cut(head: Bytes, later: Bytes, n: nat)
    requires |head| <= n <= |head| + |later|
    ensures (head + later)[..n] == head + later[..n - |head|]
    ensures (head + later)[n..] == later[n - |head|..]
  {
  }

  lemma FixedOne(cfg: Config, remaining: nat, charged: nat, head: Bytes, later: Bytes)
    requires |head| <= remaining
    ensures Meaning(cfg, Decoder(Fixed(remaining), charged), head + later)
         == Deliver(head, Meaning(cfg, Decoder(Fixed(remaining - |head|), charged), later))
  {
    if |later| >= remaining - |head| {
      Cut(head, later, remaining);
    }
  }

  lemma FixedSplits(cfg: Config, remaining: nat, count: nat, charged: nat, input: Bytes)
    requires 0 < count <= |input| && count <= remaining
    ensures KeepsMeaning(cfg, Decoder(Fixed(remaining), charged), input, false,
                         Decoder(Fixed(remaining - count), charged), Ok(Payload(0, count, count)))
  {
    var d, d' := Decoder(Fixed(remaining), charged), Decoder(Fixed(remaining - count), charged);
    forall future: Bytes
      ensures Meaning(cfg, d, input + future) == Deliver(input[0..count], Meaning(cfg, d', input[count..] + future))
    {
      assert input + future == input[0..count] + (input[count..] + future);
      FixedOne(cfg, remaining, charged, input[0..count], input[count..] + future);
    }
  }

  /** Scan offsets carry no meaning of their own. */
  lemma ScanIgnored(cfg: Config, d: Decoder, input: Bytes, cursor: nat, before: Decoder, after: Decoder)
    requires cursor <= |input| && Reaches(cfg, d, input, cursor, before)
    requires before.state.Chunked? && after.state.Chunked? && before.extensionBytes == after.extensionBytes
    requires (before.state.chunk.Size? && after.state.chunk.Size?)
          || (before.state.chunk.Trailers? && after.state.chunk.Trailers?)
    ensures KeepsMeaning(cfg, d, input, false, after, Ok(NeedMore(cursor)))
  {
    hide LineAt, TrailerMeaning;
    forall future: Bytes
      ensures Meaning(cfg, d, input + future) == Meaning(cfg, after, input[cursor..] + future)
    {
      assert Meaning(cfg, before, input[cursor..] + future) == Meaning(cfg, after, input[cursor..] + future);
    }
  }

  lemma FoundLine(limits: DecodeLimits, charged: nat, input: Bytes, index: nat)
    requires index < |input| && input[index] == LF && ScannedLine(input, index)
    ensures Find(input, LF) == index
    ensures forall future: Bytes :: LineAt(limits, charged, input + future) == LineAt(limits, charged, input)
    ensures index == 0 || input[index - 1] != CR ==> LineAt(limits, charged, input).None?
    ensures index > 0 && input[index - 1] == CR ==>
      LineAt(limits, charged, input) == ReadLine(limits, charged, input[..index - 1])
  {
    hide ReadLine;
    forall future: Bytes ensures LineAt(limits, charged, input + future) == LineAt(limits, charged, input) {
      LineAppend(limits, charged, input, future);
    }
  }

  lemma BareCr(limits: DecodeLimits, charged: nat, input: Bytes, index: nat)
    requires 0 < index < |input| && input[index] != LF && input[index - 1] == CR && ScannedLine(input, index)
    ensures forall future: Bytes :: LineAt(limits, charged, input + future).None?
  {
    forall future: Bytes ensures LineAt(limits, charged, input + future).None? {
      BareCrRejects(limits, charged, input, future);
    }
  }

  /** When every continuation of the input at hand is rejected without payload, failing is right. */
  lemma Rejects(cfg: Config, d: Decoder, input: Bytes, cursor: nat, before: Decoder, after: Decoder, eof: bool)
    requires cursor <= |input| && Reaches(cfg, d, input, cursor, before)
    requires d.state.Chunked? && after.state.Failed? && after.state.error != UnexpectedEof
    requires forall future: Bytes :: Meaning(cfg, before, input[cursor..] + future) == Reject([])
    ensures Decodes(cfg, d, input, eof, after, Err(after.state.error))
  {
    hide ChunkMeaning;
    forall future: Bytes
      ensures Meaning(cfg, d, input + future) == Meaning(cfg, after, input + future)
    {
      assert Meaning(cfg, d, input + future) == Meaning(cfg, before, input[cursor..] + future);
    }
  }

  lemma LineRejects(cfg: Config, d: Decoder, input: Bytes, cursor: nat, before: Decoder, after: Decoder, eof: bool)
    requires cursor <= |input| && At(cfg, d, input, cursor, before)
    requires after.state.Failed? && after.state.error != UnexpectedEof && before.state.chunk.Size?
    requires forall future: Bytes :: LineAt(cfg.limits, before.extensionBytes, input[cursor..] + future).None?
    ensures Decodes(cfg, d, input, eof, after, Err(after.state.error))
  {
    forall future: Bytes ensures Meaning(cfg, before, input[cursor..] + future) == Reject([]) {
      assert LineAt(cfg.limits, before.extensionBytes, input[cursor..] + future).None?;
    }
    Rejects(cfg, d, input, cursor, before, after, eof);
  }

  /** Input that ends inside a chunk line, chunk data, its CRLF or the trailers is rejected. */
  lemma EofRejects(cfg: Config, d: Decoder, input: Bytes, cursor: nat, before: Decoder, after: Decoder)
    requires cursor <= |input| && At(cfg, d, input, cursor, before)
    requires after.state == Failed(UnexpectedEof) && Starved(cfg, before, input[cursor..])
    ensures Decodes(cfg, d, input, true, after, Err(UnexpectedEof))
  {
    assert input[cursor..] + [] == input[cursor..];
    assert Meaning(cfg, d, input + []) == Meaning(cfg, before, input[cursor..]) == Reject([]);
  }

  lemma LineOne(cfg: Config, scanned: nat, charged: nat, w: Bytes, future: Bytes, line: Line)
    requires Find(w, LF) < |w| && LineAt(cfg.limits, charged, w) == Some(line)
    ensures Meaning(cfg, Decoder(Chunked(Size(scanned)), charged), w + future)
         == Meaning(cfg, Decoder(Chunked(AfterLine(line.size)), line.extensions), w[line.length..] + future)
  {
    hide LineAt, TrailerMeaning, Find;
    LineAppend(cfg.limits, charged, w, future);
    assert (w + future)[line.length..] == w[line.length..] + future;
  }

  lemma LineStep(cfg: Config, d: Decoder, input: Bytes, cursor: nat, before: Decoder, line: Line)
    requires cursor <= |input| && At(cfg, d, input, cursor, before)
    requires before.state.Chunked? && before.state.chunk.Size? && Find(input[cursor..], LF) < |input| - cursor
    requires LineAt(cfg.limits, before.extensionBytes, input[cursor..]) == Some(line)
    ensures cursor + line.length <= |input|
    ensures At(cfg, d, input, cursor + line.length, Decoder(Chunked(AfterLine(line.size)), line.extensions))
  {
    hide LineAt, Find, Meaning;
    var now := Decoder(Chunked(AfterLine(line.size)), line.extensions);
    forall future: Bytes
      ensures Meaning(cfg, d, input + future) == Meaning(cfg, now, input[cursor + line.length..] + future)
    {
      LineOne(cfg, before.state.chunk.scanned, before.extensionBytes, input[cursor..], future, line);
      assert input[cursor..][line.length..] == input[cursor + line.length..];
      assert Meaning(cfg, d, input + future) == Meaning(cfg, before, input[cursor..] + future);
    }
  }

  lemma DataOne(cfg: Config, remaining: nat, charged: nat, head: Bytes, later: Bytes)
    requires 0 < |head| <= remaining
    ensures Meaning(cfg, Decoder(Chunked(Data(remaining)), charged), head + later)
         == Deliver(head, Meaning(cfg, Decoder(Chunked(AfterData(remaining - |head|)), charged), later))
  {
    hide LineAt, TrailerMeaning;
    if |later| >= remaining - |head| {
      Cut(head, later, remaining);
      if |head| == remaining {
        assert later[..0] == [] && later[0..] == later && head + [] == head;
      }
    }
  }

  function AfterData(remaining: nat): ChunkState
  {
    if remaining == 0 then DataCrlf else Data(remaining)
  }

  lemma Regroup(input: Bytes, cursor: nat, count: nat, future: Bytes)
    requires cursor + count <= |input|
    ensures input[cursor..] + future == input[cursor..cursor + count] + (input[cursor + count..] + future)
  {
  }

  lemma DataStep(cfg: Config, d: Decoder, input: Bytes, cursor: nat, before: Decoder, count: nat, eof: bool)
    requires cursor <= |input| && At(cfg, d, input, cursor, before) && before.state.chunk.Data?
    requires 0 < count <= before.state.chunk.remaining && count <= |input| - cursor
    ensures var after := Decoder(Chunked(AfterData(before.state.chunk.remaining - count)), before.extensionBytes);
            WellFormed(after) && Decodes(cfg, d, input, eof, after, Ok(Payload(cursor, cursor + count, cursor + count)))
  {
    hide Meaning, Find, FirstEmptyLine;
    var remaining := before.state.chunk.remaining;
    var after := Decoder(Chunked(AfterData(remaining - count)), before.extensionBytes);
    var head := input[cursor..cursor + count];
    var r: Result<Outcome, DecodeError> := Ok(Payload(cursor, cursor + count, cursor + count));
    forall future: Bytes
      ensures Meaning(cfg, d, input + future) == Effect(input, r, Meaning(cfg, after, Rest(input, r) + future))
    {
      Regroup(input, cursor, count, future);
      DataOne(cfg, remaining, before.extensionBytes, head, Rest(input, r) + future);
      assert Meaning(cfg, d, input + future) == Meaning(cfg, before, input[cursor..] + future);
    }
    assert KeepsMeaning(cfg, d, input, eof, after, r);
  }

  lemma CrlfStep(cfg: Config, d: Decoder, input: Bytes, cursor: nat, before: Decoder)
    requires cursor + 2 <= |input| && At(cfg, d, input, cursor, before)
    requires before.state == Chunked(DataCrlf) && input[cursor..][..2] == CRLF
    ensures At(cfg, d, input, cursor + 2, Decoder(Chunked(Size(0)), before.extensionBytes))
  {
    hide LineAt, TrailerMeaning;
    forall future: Bytes
      ensures Meaning(cfg, d, input + future)
           == Meaning(cfg, Decoder(Chunked(Size(0)), before.extensionBytes), input[cursor + 2..] + future)
    {
      var w := input[cursor..] + future;
      assert w[..2] == input[cursor..][..2];
      assert w[2..] == input[cursor + 2..] + future;
      assert Meaning(cfg, d, input + future) == Meaning(cfg, before, w);
    }
  }

  lemma TerminatorRejects(cfg: Config, d: Decoder, input: Bytes, cursor: nat, before: Decoder, after: Decoder, eof: bool)
    requires cursor < |input| && At(cfg, d, input, cursor, before)
    requires after.state.Failed? && after.state.error != UnexpectedEof && before.state == Chunked(DataCrlf)
    requires input[cursor] != CR || (cursor + 2 <= |input| && input[cursor..][..2] != CRLF)
    ensures Decodes(cfg, d, input, eof, after, Err(after.state.error))
  {
    hide LineAt, TrailerMeaning;
    forall future: Bytes ensures Meaning(cfg, before, input[cursor..] + future) == Reject([]) {
      var w := input[cursor..] + future;
      assert w[0] == input[cursor];
      if cursor + 2 <= |input| {
        assert w[..2] == input[cursor..][..2];
      }
    }
    Rejects(cfg, d, input, cursor, before, after, eof);
  }

  lemma BlockRejects(cfg: Config, d: Decoder, input: Bytes, cursor: nat, before: Decoder, after: Decoder, eof: bool)
    requires cursor <= |input| && At(cfg, d, input, cursor, before)
    requires after.state.Failed? && after.state.error != UnexpectedEof && before.state.chunk.Trailers?
    requires BlockLength(input[cursor..], cfg.limits.trailerBytes).None?
    requires |input| - cursor > cfg.limits.trailerBytes
    ensures Decodes(cfg, d, input, eof, after, Err(after.state.error))
  {
    forall future: Bytes ensures Meaning(cfg, before, input[cursor..] + future) == Reject([]) {
      BlockAppend(input[cursor..], future, cfg.limits.trailerBytes);
    }
    Rejects(cfg, d, input, cursor, before, after, eof);
  }

  lemma BlockRefused(cfg: Config, d: Decoder, input: Bytes, cursor: nat, before: Decoder, after: Decoder, eof: bool)
    requires cursor <= |input| && At(cfg, d, input, cursor, before)
    requires after.state.Failed? && after.state.error != UnexpectedEof && before.state.chunk.Trailers?
    requires BlockLength(input[cursor..], cfg.limits.trailerBytes).Some?
    requires TrailerMeaning(cfg, before.extensionBytes, input[cursor..]) == Reject([])
    ensures Decodes(cfg, d, input, eof, after, Err(after.state.error))
  {
    hide LineAt;
    forall future: Bytes ensures Meaning(cfg, before, input[cursor..] + future) == Reject([]) {
      TrailerAppend(cfg, before.extensionBytes, input[cursor..], future);
    }
    Rejects(cfg, d, input, cursor, before, after, eof);
  }

  lemma BlockAccepted(cfg: Config, d: Decoder, input: Bytes, cursor: nat, before: Decoder,
                      consumed: nat, trailers: HeaderMap, eof: bool)
    requires cursor + consumed <= |input| && At(cfg, d, input, cursor, before) && before.state.chunk.Trailers?
    requires BlockLength(input[cursor..], cfg.limits.trailerBytes).Some?
    requires TrailerMeaning(cfg, before.extensionBytes, input[cursor..])
          == Accept([], Some(trailers), input[cursor + consumed..], before.extensionBytes)
    ensures Decodes(cfg, d, input, eof, Decoder(Done, before.extensionBytes), Ok(TrailerBlock(trailers, cursor + consumed)))
  {
    hide LineAt, TrailerMeaning, BlockLength;
    var after := Decoder(Done, before.extensionBytes);
    forall future: Bytes
      ensures Meaning(cfg, d, input + future)
           == DeliverTrailers(trailers, Meaning(cfg, after, input[cursor + consumed..] + future))
    {
      TrailerAppend(cfg, before.extensionBytes, input[cursor..], future);
      assert Meaning(cfg, d, input + future) == Meaning(cfg, before, input[cursor..] + future);
    }
  }
}
