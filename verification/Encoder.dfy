/** Outgoing body framing: the stateful encoder and the bytes it emits. */
module Encoding {
  import opened Prelude
  import opened Syntax
  import opened Radix
  import opened ChunkGrammar

  datatype TrailerHint = NoTrailers | MayHave

  /** Bounds on the payload still to come; equal bounds promise an exact length. */
  datatype SizeHint = SizeHint(lower: nat, upper: Option<nat>)
  {
    function Exact(): Option<nat> { if upper == Some(lower) then upper else None }

    predicate Valid() { lower < U64_LIMIT && (upper.Some? ==> lower <= upper.value < U64_LIMIT) }
  }

  datatype BodyMetadata = BodyMetadata(size: SizeHint, trailers: TrailerHint)

  datatype EncodeError =
    | InvalidHead | InvalidFraming | LengthMismatch | BodyForbidden | TrailersForbidden
    | FrameAfterEnd | Unsupported | HeadLimit | TrailerLimit

  datatype EncodeConfig = EncodeConfig(maxTrailerBytes: nat, titleCase: bool)

  datatype BodyState =
    | SendNone | SendFixed | SendChunked | SendUntilClose | SendDone | SendFailed(error: EncodeError)

  datatype Encoder = Encoder(state: BodyState, lower: nat, upper: Option<nat>,
                             trailers: TrailerHint, config: EncodeConfig)

  datatype DataFraming = DataFraming(prefix: Bytes, suffix: Bytes)

  const LAST_CHUNK: Bytes := [ZERO, CR, LF]

  // ---- chunk prefix -----------------------------------------------------------------

  const CHUNK_PREFIX_CAPACITY: nat := 18

  lemma HexDigitStep(n: nat, tail: Bytes)
    requires n > 0
    ensures Hex(n / 16) + ([HexByte(n % 16)] + tail) == Hex(n) + tail
    ensures |Hex(n)| == |Hex(n / 16)| + 1
  {
    hide HexByte, IsHexDigit;
    assert Hex(n) == Hex(n / 16) + [HexByte(n % 16)];
    Assoc(Hex(n / 16), [HexByte(n % 16)], tail);
  }

  /** Fill a fixed buffer from its last digit to its first. */
  method ChunkPrefix(length: nat) returns (bytes: Bytes)
    requires 0 < length < U64_LIMIT
    ensures bytes == Hex(length) + CRLF
    ensures |bytes| <= CHUNK_PREFIX_CAPACITY
  {
    hide Hex, BitLength;
    HexFits(length);
    NibblesAreHexDigits(length);
    var digits := (BitLength(length) + 3) / 4;
    var buffer := new Byte[CHUNK_PREFIX_CAPACITY](_ => 0);
    var cursor := digits;
    var rest := length;
    while cursor > 0
      invariant cursor <= digits == |Hex(length)| <= 16
      invariant cursor == |Hex(rest)| && (cursor > 0 <==> rest > 0)
      invariant Hex(rest) + buffer[cursor..digits] == Hex(length)
    {
      ghost var tail := buffer[cursor..digits];
      HexDigitStep(rest, tail);
      cursor := cursor - 1;
      buffer[cursor] := HexByte(rest % 16);
      assert buffer[cursor..digits] == [HexByte(rest % 16)] + tail;
      rest := rest / 16;
    }
    assert Hex(rest) + buffer[0..digits] == buffer[0..digits];
    buffer[digits] := CR;
    buffer[digits + 1] := LF;
    bytes := buffer[..digits + 2];
    assert bytes == buffer[0..digits] + CRLF;
  }

  // ---- trailer block ----------------------------------------------------------------

  function UpperByte(b: Byte): Byte { if 97 <= b <= 122 then b - 32 else b }

  /** Capitalize the first letter and each letter after a dash. */
  function TitleCase(name: Bytes): (r: Bytes)
    ensures |r| == |name|
    ensures forall i :: 0 <= i < |name| ==>
      r[i] == if i == 0 || name[i - 1] == DASH then UpperByte(name[i]) else name[i]
  {
    seq(|name|, i requires 0 <= i < |name| => if i == 0 || name[i - 1] == DASH then UpperByte(name[i]) else name[i])
  }

  /** A name as it is kept: in lower case. */
  function NameText(name: Name): Bytes
  {
    match name
    case ContentLength => [99, 111, 110, 116, 101, 110, 116, 45, 108, 101, 110, 103, 116, 104]
    case TransferEncoding => [116, 114, 97, 110, 115, 102, 101, 114, 45, 101, 110, 99, 111, 100, 105, 110, 103]
    case Host => [104, 111, 115, 116]
    case Connection => [99, 111, 110, 110, 101, 99, 116, 105, 111, 110]
    case Expect => [101, 120, 112, 101, 99, 116]
    case Upgrade => [117, 112, 103, 114, 97, 100, 101]
    case Trailer => [116, 114, 97, 105, 108, 101, 114]
    case Te => [116, 101]
    case Authorization => [97, 117, 116, 104, 111, 114, 105, 122, 97, 116, 105, 111, 110]
    case ProxyAuthorization => [112, 114, 111, 120, 121, 45, 97, 117, 116, 104, 111, 114, 105, 122, 97, 116, 105, 111, 110]
    case ProxyAuthenticate => [112, 114, 111, 120, 121, 45, 97, 117, 116, 104, 101, 110, 116, 105, 99, 97, 116, 101]
    case WwwAuthenticate => [119, 119, 119, 45, 97, 117, 116, 104, 101, 110, 116, 105, 99, 97, 116, 101]
    case ContentEncoding => [99, 111, 110, 116, 101, 110, 116, 45, 101, 110, 99, 111, 100, 105, 110, 103]
    case ContentType => [99, 111, 110, 116, 101, 110, 116, 45, 116, 121, 112, 101]
    case ContentRange => [99, 111, 110, 116, 101, 110, 116, 45, 114, 97, 110, 103, 101]
    case Other(text) => text
  }

  function NameBytes(name: Name, titleCase: bool): Bytes
  {
    if titleCase then TitleCase(NameText(name)) else NameText(name)
  }

  function FieldLine(field: Field, titleCase: bool): Bytes
  {
    NameBytes(field.name, titleCase) + [COLON, SP] + field.value
  }

  function FieldLines(fields: HeaderMap, titleCase: bool): Bytes
  {
    if fields == [] then [] else
      FieldLines(fields[..|fields| - 1], titleCase) + (FieldLine(fields[|fields| - 1], titleCase) + CRLF)
  }

  /** An append-only buffer that refuses any push beyond its limit. */
  class BoundedWriter {
    var bytes: Bytes
    const limit: nat

    constructor (limit: nat)
      ensures bytes == [] && this.limit == limit
    {
      bytes := [];
      this.limit := limit;
    }

    method Push(value: Bytes) returns (ok: bool)
      requires |bytes| <= limit
      modifies this
      ensures ok <==> |old(bytes)| + |value| <= limit
      ensures bytes == if ok then old(bytes) + value else old(bytes)
    {
      if |bytes| + |value| > limit { return false; }
      bytes := bytes + value;
      return true;
    }

    method PushTitleCase(value: Bytes) returns (ok: bool)
      requires |bytes| <= limit
      modifies this
      ensures ok <==> |old(bytes)| + |value| <= limit
      ensures bytes == if ok then old(bytes) + TitleCase(value) else old(bytes)
    {
      if |bytes| + |value| > limit { return false; }
      var capitalize := true;
      for i := 0 to |value|
        invariant capitalize == (i == 0 || value[i - 1] == DASH)
        invariant bytes == old(bytes) + TitleCase(value)[..i]
      {
        bytes := bytes + [if capitalize then UpperByte(value[i]) else value[i]];
        capitalize := value[i] == DASH;
        assert TitleCase(value)[..i + 1] == TitleCase(value)[..i] + [TitleCase(value)[i]];
      }
      assert TitleCase(value)[..|value|] == TitleCase(value);
      return true;
    }

    /** Write one field; on failure a part of its line may already be in the buffer. */
    method WriteField(field: Field, titleCase: bool) returns (ok: bool)
      requires |bytes| <= limit
      modifies this
      ensures |bytes| <= limit
      ensures ok <==> |old(bytes)| + |FieldLine(field, titleCase) + CRLF| <= limit
      ensures ok ==> bytes == old(bytes) + (FieldLine(field, titleCase) + CRLF)
    {
      var name := NameText(field.name);
      if titleCase { ok := PushTitleCase(name); } else { ok := Push(name); }
      if !ok { return; }
      ok := Push([COLON, SP]);
      if !ok { return; }
      ok := Push(field.value);
      if !ok { return; }
      ok := Push(CRLF);
    }

    method WriteHeaders(fields: HeaderMap, titleCase: bool) returns (ok: bool)
      requires |bytes| <= limit
      modifies this
      ensures |bytes| <= limit
      ensures ok <==> |old(bytes)| + |FieldLines(fields, titleCase)| <= limit
      ensures ok ==> bytes == old(bytes) + FieldLines(fields, titleCase)
    {
      hide FieldLine;
      assert fields[..0] == [] && bytes + [] == bytes;
      for i := 0 to |fields|
        invariant bytes == old(bytes) + FieldLines(fields[..i], titleCase) && |bytes| <= limit
      {
        assert fields[..i + 1][..i] == fields[..i];
        Assoc(old(bytes), FieldLines(fields[..i], titleCase), FieldLine(fields[i], titleCase) + CRLF);
        ok := WriteField(fields[i], titleCase);
        if !ok {
          LinesGrow(fields, i + 1, titleCase);
          return;
        }
      }
      assert fields[..|fields|] == fields;
      return true;
    }
  }

  lemma {:induction false} LinesGrow(fields: HeaderMap, n: nat, titleCase: bool)
    requires n <= |fields|
    ensures |FieldLines(fields[..n], titleCase)| <= |FieldLines(fields, titleCase)|
    decreases |fields| - n
  {
    if n == |fields| {
      assert fields[..n] == fields;
    } else {
      LinesGrow(fields, n + 1, titleCase);
      assert fields[..n + 1][..n] == fields[..n];
    }
  }

  // ---- the encoder as a value -------------------------------------------------------

  function NewEncoder(mode: BodyMode, metadata: BodyMetadata, config: EncodeConfig): Result<Encoder, EncodeError>
  {
    match mode
    case FixedLength(n) =>
      if metadata.size.Exact() != Some(n) || metadata.trailers != NoTrailers then Err(InvalidFraming)
      else Ok(Encoder(SendFixed, metadata.size.lower, metadata.size.upper, metadata.trailers, config))
    case UntilClose =>
      if metadata.trailers != NoTrailers then Err(TrailersForbidden)
      else Ok(Encoder(SendUntilClose, metadata.size.lower, metadata.size.upper, metadata.trailers, config))
    case NoBody => Ok(Encoder(SendNone, metadata.size.lower, metadata.size.upper, metadata.trailers, config))
    case ChunkedBody => Ok(Encoder(SendChunked, metadata.size.lower, metadata.size.upper, metadata.trailers, config))
  }

  function Refuse<T>(e: Encoder, error: EncodeError): (Encoder, Result<T, EncodeError>)
  {
    (e.(state := SendFailed(error)), Err(error))
  }

  predicate Sending(s: BodyState) { s == SendFixed || s == SendChunked || s == SendUntilClose }

  /** Framing around one data frame of the given length. */
  function FrameData(e: Encoder, length: nat): (Encoder, Result<DataFraming, EncodeError>)
  {
    match e.state
    case SendFailed(error) => (e, Err(error))
    case SendDone => Refuse(e, FrameAfterEnd)
    case SendNone => Refuse(e, BodyForbidden)
    case _ =>
      if length >= U64_LIMIT || (e.upper.Some? && length > e.upper.value) then Refuse(e, LengthMismatch)
      else
        var e' := e.(lower := if length <= e.lower then e.lower - length else 0,
                     upper := if e.upper.Some? then Some(e.upper.value - length) else None);
        if e.state == SendChunked && length > 0 then (e', Ok(DataFraming(Hex(length) + CRLF, CRLF)))
        else (e', Ok(DataFraming([], [])))
  }

  function TrailerBytes(trailers: HeaderMap, titleCase: bool): Bytes
  {
    LAST_CHUNK + FieldLines(trailers, titleCase) + CRLF
  }

  function FrameTrailers(e: Encoder, trailers: HeaderMap): (Encoder, Result<Bytes, EncodeError>)
  {
    match e.state
    case SendFailed(error) => (e, Err(error))
    case SendDone => Refuse(e, FrameAfterEnd)
    case SendChunked =>
      if e.lower != 0 then Refuse(e, LengthMismatch)
      else if e.trailers == NoTrailers || !TrailersAllowed(trailers) then Refuse(e, TrailersForbidden)
      else if |TrailerBytes(trailers, e.config.titleCase)| > e.config.maxTrailerBytes then Refuse(e, TrailerLimit)
      else (e.(state := SendDone), Ok(TrailerBytes(trailers, e.config.titleCase)))
    case _ => Refuse(e, TrailersForbidden)
  }

  function FrameEnd(e: Encoder): (Encoder, Result<Bytes, EncodeError>)
  {
    match e.state
    case SendFailed(error) => (e, Err(error))
    case SendDone => Refuse(e, FrameAfterEnd)
    case SendNone => (e.(state := SendDone), Ok([]))
    case _ =>
      if e.lower != 0 then Refuse(e, LengthMismatch)
      else (e.(state := SendDone), Ok(if e.state == SendChunked then LAST_CHUNK + CRLF else []))
  }

  class BodyEncoder {
    var state: BodyState
    var lower: nat
    var upper: Option<nat>
    const trailers: TrailerHint
    const config: EncodeConfig

    constructor (e: Encoder)
      ensures View() == e
    {
      state, lower, upper := e.state, e.lower, e.upper;
      trailers, config := e.trailers, e.config;
    }

    function View(): Encoder
      reads this
    {
      Encoder(state, lower, upper, trailers, config)
    }

    /** Charge one frame against the size bounds and produce its framing. */
    method Data(length: nat) returns (r: Result<DataFraming, EncodeError>)
      modifies this
      ensures (View(), r) == FrameData(old(View()), length)
    {
      if state.SendFailed? { return Err(state.error); }
      if state == SendDone { state := SendFailed(FrameAfterEnd); return Err(FrameAfterEnd); }
      if state == SendNone { state := SendFailed(BodyForbidden); return Err(BodyForbidden); }
      if length >= U64_LIMIT || (upper.Some? && length > upper.value) {
        state := SendFailed(LengthMismatch);
        return Err(LengthMismatch);
      }
      lower := if length <= lower then lower - length else 0;
      upper := if upper.Some? then Some(upper.value - length) else None;
      if state == SendChunked && length != 0 {
        var prefix := ChunkPrefix(length);
        return Ok(DataFraming(prefix, CRLF));
      }
      return Ok(DataFraming([], []));
    }

    /** End the body with trailers. */
    method Trailers(fields: HeaderMap) returns (r: Result<Bytes, EncodeError>)
      modifies this
      ensures (View(), r) == FrameTrailers(old(View()), fields)
    {
      if state.SendFailed? { return Err(state.error); }
      if state == SendDone { state := SendFailed(FrameAfterEnd); return Err(FrameAfterEnd); }
      if state != SendChunked { state := SendFailed(TrailersForbidden); return Err(TrailersForbidden); }
      if lower != 0 { state := SendFailed(LengthMismatch); return Err(LengthMismatch); }
      if trailers == NoTrailers || !TrailersAllowed(fields) {
        state := SendFailed(TrailersForbidden);
        return Err(TrailersForbidden);
      }
      var writer := new BoundedWriter(config.maxTrailerBytes);
      var ok := writer.Push(LAST_CHUNK);
      assert [] + LAST_CHUNK == LAST_CHUNK;
      if ok { ok := writer.WriteHeaders(fields, config.titleCase); }
      if ok { ok := writer.Push(CRLF); }
      if !ok {
        state := SendFailed(TrailerLimit);
        return Err(TrailerLimit);
      }
      state := SendDone;
      return Ok(writer.bytes);
    }

    /** End the body without trailers. */
    method Finish() returns (r: Result<Bytes, EncodeError>)
      modifies this
      ensures (View(), r) == FrameEnd(old(View()))
    {
      if state.SendFailed? { return Err(state.error); }
      if state == SendDone { state := SendFailed(FrameAfterEnd); return Err(FrameAfterEnd); }
      if state != SendNone && lower != 0 { state := SendFailed(LengthMismatch); return Err(LengthMismatch); }
      var chunked := state == SendChunked;
      state := SendDone;
      return Ok(if chunked then LAST_CHUNK + CRLF else []);
    }
  }
}
