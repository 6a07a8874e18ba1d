/** What a received body means, read in one piece.

    `Meaning` is the reference the incremental decoder is measured against: it looks at
    the complete input, keeps no scan offsets and knows nothing about how the input arrives. */
module ChunkGrammar {
  import opened Prelude
  import opened Syntax
  import opened Radix

  datatype DecodeLimit = ChunkLineBytes | ChunkExtensionBytes | TrailerBytes | TrailerCount | TrailerMapCapacity

  datatype DecodeError =
    | UnexpectedEof
    | InvalidChunkSize
    | InvalidChunkExtension
    | InvalidChunkTerminator
    | InvalidTrailer
    | ForbiddenTrailer
    | Limit(limit: DecodeLimit)

  datatype DecodeLimits = DecodeLimits(chunkLine: nat, extensions: nat, trailerBytes: nat)

  datatype BodyMode = NoBody | FixedLength(length: nat) | ChunkedBody | UntilClose

  datatype ChunkState = Size(scanned: nat) | Data(remaining: nat) | DataCrlf | Trailers(scanned: nat)

  datatype DecoderState =
    | Empty
    | Fixed(remaining: nat)
    | Chunked(chunk: ChunkState)
    | UntilEof
    | Done
    | Failed(error: DecodeError)

  /** The part of the decoder that changes: its state and the extension bytes charged so far. */
  datatype Decoder = Decoder(state: DecoderState, extensionBytes: nat)

  /** What the header-block parser makes of a delimited trailer block. */
  datatype TrailerParse = Complete(consumed: nat, trailers: HeaderMap) | Refused(error: DecodeError)

  predicate Plausible(block: Bytes, parsed: TrailerParse)
  {
    match parsed
    case Complete(consumed, _) => consumed <= |block|
    case Refused(error) => error in {InvalidTrailer, Limit(TrailerCount), Limit(TrailerMapCapacity)}
  }

  /** Any deterministic block parser that stays inside its block. */
  type BlockParser = f: Bytes -> TrailerParse | forall b :: Plausible(b, f(b))
    witness b => Refused(InvalidTrailer)

  datatype Config = Config(limits: DecodeLimits, parse: BlockParser)

  predicate Forbidden(name: Name) { !name.Other? }

  predicate TrailersAllowed(trailers: HeaderMap)
  {
    forall i :: 0 <= i < |trailers| ==> !Forbidden(trailers[i].name)
  }

  /** The first position holding `b`, or the length when there is none. */
  function Find(w: Bytes, b: Byte): (i: nat)
    ensures i <= |w|
    ensures forall j :: 0 <= j < i ==> w[j] != b
    ensures i < |w| ==> w[i] == b
  {
    if w == [] || w[0] == b then 0
    else
      var i := Find(w[1..], b);
      assert forall j :: 0 < j < i + 1 ==> w[j] == w[1..][j - 1];
      i + 1
  }

  // ---- chunk lines ------------------------------------------------------------------

  function ValueLen(input: Bytes): (length: Option<nat>)
    ensures length.Some? ==> 0 < length.value <= |input|
  {
    if input != [] && input[0] == DQUOTE then QuotedEnd(input, 1, false)
    else if TokenLen(input) == 0 then None else Some(TokenLen(input))
  }

  function ExtensionsOk(input: Bytes): (ok: bool)
    decreases |input|
  {
    if input == [] then true
    else
      var item := Trim(input);
      if item == [] || item[0] != SEMICOLON then false
      else
        var named := Trim(item[1..]);
        var n := TokenLen(named);
        if n == 0 then false
        else
          var rest := Trim(named[n..]);
          if rest != [] && rest[0] == EQUALS then
            var valued := Trim(rest[1..]);
            var length := ValueLen(valued);
            if length.None? then false
            else
              var tail := Trim(valued[length.value..]);
              (tail == [] || tail[0] == SEMICOLON) && ExtensionsOk(tail)
          else (rest == [] || rest[0] == SEMICOLON) && ExtensionsOk(rest)
  }

  function SizeText(line: Bytes): (text: Bytes)
  {
    TrimEnd(line[..Find(line, SEMICOLON)])
  }

  /** A well-formed line without its CRLF: a hexadecimal size below 2^64, then extensions. */
  predicate LineOk(line: Bytes)
  {
    var text := SizeText(line);
    text != [] && AllHex(text) && Value(text, 16) < U64_LIMIT && ExtensionsOk(line[Find(line, SEMICOLON)..])
  }

  /** The bytes of a line from its first semicolon on. */
  function ExtensionLength(line: Bytes): (n: nat)
  {
    |line| - Find(line, SEMICOLON)
  }

  datatype Line = Line(size: nat, length: nat, extensions: nat)

  /** A line already delimited, read against the line and extension limits. */
  function ReadLine(limits: DecodeLimits, charged: nat, line: Bytes): (r: Option<Line>)
    ensures r.Some? ==> r.value.size < U64_LIMIT && r.value.length == |line| + 2 <= limits.chunkLine
  {
    var added := ExtensionLength(line);
    if |line| + 2 > limits.chunkLine || !LineOk(line) then None
    else if added > 0 && (charged + added >= U64_LIMIT || charged + added > limits.extensions) then None
    else Some(Line(Value(SizeText(line), 16), |line| + 2, charged + added))
  }

  /** The chunk line at the front of `w`: it ends at the first line feed, and its only
      carriage return stands right before that line feed. */
  function LineAt(limits: DecodeLimits, charged: nat, w: Bytes): (line: Option<Line>)
    ensures line.Some? ==> 2 <= line.value.length <= |w|
  {
    var i := Find(w, LF);
    if i == |w| || Find(w, CR) + 1 != i then None else ReadLine(limits, charged, w[..i - 1])
  }

  // ---- trailer block ----------------------------------------------------------------

  /** A line feed that ends an empty line, counting from the start of the block. */
  predicate EmptyLineAt(w: Bytes, i: nat)
    requires i < |w|
  {
    && w[i] == LF
    && (i == 0 || (i == 1 && w[0] == CR) || w[i - 1] == LF || (i >= 2 && w[i - 2] == LF && w[i - 1] == CR))
  }

  function FirstEmptyLine(w: Bytes, from: nat): (i: nat)
    requires from <= |w|
    ensures from <= i <= |w|
    ensures forall j :: from <= j < i ==> !EmptyLineAt(w, j)
    ensures i < |w| ==> EmptyLineAt(w, i)
    decreases |w| - from
  {
    if from == |w| || EmptyLineAt(w, from) then from else FirstEmptyLine(w, from + 1)
  }

  /** The length of the trailer block at the front of `w`, if it ends within `limit` bytes. */
  function BlockLength(w: Bytes, limit: nat): (length: Option<nat>)
    ensures length.Some? ==> 0 < length.value <= |w| && length.value <= limit
  {
    var i := FirstEmptyLine(w, 0);
    if i < |w| && i + 1 <= limit then Some(i + 1) else None
  }

  // ---- whole bodies -----------------------------------------------------------------

  /** The fate of a body. A rejected body still has the payload delivered before the fault. */
  datatype Verdict =
    | Accept(payload: Bytes, trailers: Option<HeaderMap>, unread: Bytes, extensions: nat)
    | Reject(payload: Bytes)

  function Deliver(data: Bytes, v: Verdict): (r: Verdict)
    ensures r.Accept? <==> v.Accept?
    ensures r.payload == data + v.payload
  {
    if v.Accept? then v.(payload := data + v.payload) else Reject(data + v.payload)
  }

  function DeliverTrailers(trailers: HeaderMap, v: Verdict): Verdict
  {
    if v.Accept? then v.(trailers := Some(trailers)) else v
  }

  function TrailerMeaning(cfg: Config, charged: nat, w: Bytes): (v: Verdict)
  {
    var length := BlockLength(w, cfg.limits.trailerBytes);
    if length.None? then Reject([])
    else
      var parsed := cfg.parse(w[..length.value]);
      if parsed.Complete? && TrailersAllowed(parsed.trailers) then
        Accept([], Some(parsed.trailers), w[parsed.consumed..], charged)
      else Reject([])
  }

  function ChunkMeaning(cfg: Config, chunk: ChunkState, charged: nat, w: Bytes): (v: Verdict)
    decreases |w|, if chunk.Data? then 1 else 0
  {
    match chunk
    case Size(_) =>
      var line := LineAt(cfg.limits, charged, w);
      if line.None? then Reject([])
      else
        var rest := w[line.value.length..];
        ChunkMeaning(cfg, AfterLine(line.value.size), line.value.extensions, rest)
    case Data(n) =>
      if |w| < n then Reject(w)
      else Deliver(w[..n], ChunkMeaning(cfg, DataCrlf, charged, w[n..]))
    case DataCrlf =>
      if |w| < 2 || w[..2] != CRLF then Reject([])
      else ChunkMeaning(cfg, Size(0), charged, w[2..])
    case Trailers(_) => TrailerMeaning(cfg, charged, w)
  }

  function AfterLine(size: nat): ChunkState
  {
    if size == 0 then Trailers(0) else Data(size)
  }

  /** What the complete remaining input `w`, followed by end of file, means to a decoder. */
  function Meaning(cfg: Config, d: Decoder, w: Bytes): (v: Verdict)
  {
    match d.state
    case Empty => Accept([], None, w, d.extensionBytes)
    case Done => Accept([], None, w, d.extensionBytes)
    case Fixed(n) => if |w| < n then Reject(w) else Accept(w[..n], None, w[n..], d.extensionBytes)
    case UntilEof => Accept(w, None, [], d.extensionBytes)
    case Failed(_) => Reject([])
    case Chunked(chunk) => ChunkMeaning(cfg, chunk, d.extensionBytes, w)
  }

  function InitialState(mode: BodyMode): DecoderState
  {
    match mode
    case NoBody => Empty
    case FixedLength(n) => Fixed(n)
    case ChunkedBody => Chunked(Size(0))
    case UntilClose => UntilEof
  }

  function NewDecoder(mode: BodyMode): Decoder { Decoder(InitialState(mode), 0) }

  // ---- stability under appended input -----------------------------------------------

  lemma FindAppend(w: Bytes, more: Bytes, b: Byte)
    ensures Find(w, b) < |w| ==> Find(w + more, b) == Find(w, b)
    ensures Find(w, b) == |w| ==> Find(w + more, b) >= |w|
  {
    var i, k := Find(w, b), Find(w + more, b);
    assert k < |w| ==> w[k] == (w + more)[k];
    assert i < |w| ==> (w + more)[i] == w[i];
  }

  /** A chunk line that is already complete keeps its reading when input is appended. */
  lemma LineAppend(limits: DecodeLimits, charged: nat, w: Bytes, more: Bytes)
    requires Find(w, LF) < |w|
    ensures LineAt(limits, charged, w + more) == LineAt(limits, charged, w)
  {
    FindAppend(w, more, LF);
    FindAppend(w, more, CR);
    var i := Find(w, LF);
    if i > 0 {
      assert (w + more)[..i - 1] == w[..i - 1];
    }
  }

  /** A carriage return that is not followed by a line feed can never become valid. */
  lemma BareCrRejects(limits: DecodeLimits, charged: nat, w: Bytes, more: Bytes)
    requires Find(w, CR) + 1 < |w| && Find(w, CR) + 1 < Find(w, LF)
    ensures LineAt(limits, charged, w + more).None?
  {
    FindAppend(w, more, LF);
    FindAppend(w, more, CR);
  }

  /** A line that has outgrown its limit without ending can never become valid. */
  lemma LongLineRejects(limits: DecodeLimits, charged: nat, w: Bytes, more: Bytes)
    requires Find(w, LF) == |w| > limits.chunkLine
    ensures LineAt(limits, charged, w + more).None?
  {
    FindAppend(w, more, LF);
  }

  lemma EmptyLineAppend(w: Bytes, more: Bytes, i: nat)
    requires i < |w|
    ensures EmptyLineAt(w + more, i) == EmptyLineAt(w, i)
  {
    assert forall k :: 0 <= k <= i ==> (w + more)[k] == w[k];
  }

  /** A trailer block that is already delimited keeps its end when input is appended. */
  lemma BlockAppend(w: Bytes, more: Bytes, limit: nat)
    ensures BlockLength(w, limit).Some? ==> BlockLength(w + more, limit) == BlockLength(w, limit)
    ensures BlockLength(w, limit).None? && |w| >= limit ==> BlockLength(w + more, limit).None?
  {
    var i, k := FirstEmptyLine(w, 0), FirstEmptyLine(w + more, 0);
    if i < |w| {
      EmptyLineAppend(w, more, i);
    }
    if k < |w| {
      EmptyLineAppend(w, more, k);
    }
    if i < |w| && k < i {
      assert false;
    }
  }

  lemma TrailerAppend(cfg: Config, charged: nat, w: Bytes, more: Bytes)
    requires BlockLength(w, cfg.limits.trailerBytes).Some?
    ensures TrailerMeaning(cfg, charged, w + more)
         == var v := TrailerMeaning(cfg, charged, w);
            if v.Accept? then v.(unread := v.unread + more) else v
  {
    BlockAppend(w, more, cfg.limits.trailerBytes);
    var length := BlockLength(w, cfg.limits.trailerBytes).value;
    assert (w + more)[..length] == w[..length];
    var parsed := cfg.parse(w[..length]);
    if parsed.Complete? {
      assert (w + more)[parsed.consumed..] == w[parsed.consumed..] + more;
    }
  }
}
