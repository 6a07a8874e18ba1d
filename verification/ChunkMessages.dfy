/** The chunked language: which wires the reference reading accepts, and as what. */
module ChunkMessages {
  import opened Prelude
  import opened Radix
  import opened ChunkGrammar

  datatype Chunk = Chunk(line: Bytes, data: Bytes)

  predicate OneLine(line: Bytes)
  {
    forall i :: 0 <= i < |line| ==> line[i] != CR && line[i] != LF
  }

  /** Chunks, the last-chunk line, and the trailer block with whatever follows. */
  function Wire(chunks: seq<Chunk>, last: Bytes, tail: Bytes): Bytes
  {
    if chunks == [] then last + CRLF + tail
    else chunks[0].line + CRLF + (chunks[0].data + (CRLF + Wire(chunks[1..], last, tail)))
  }

  function PayloadOf(chunks: seq<Chunk>): Bytes
  {
    if chunks == [] then [] else chunks[0].data + PayloadOf(chunks[1..])
  }

  /** The extension bytes of all chunk lines together. */
  function ExtensionSum(chunks: seq<Chunk>, last: Bytes): nat
  {
    if chunks == [] then ExtensionLength(last)
    else ExtensionLength(chunks[0].line) + ExtensionSum(chunks[1..], last)
  }

  /** Every line is well formed, announces the size of its data and fits the limits. */
  predicate Admitted(limits: DecodeLimits, charged: nat, chunks: seq<Chunk>, last: Bytes)
    decreases |chunks|
  {
    if chunks == [] then
      OneLine(last) && ReadLine(limits, charged, last).Some? && ReadLine(limits, charged, last).value.size == 0
    else
      var c := chunks[0];
      && OneLine(c.line) && c.data != []
      && ReadLine(limits, charged, c.line).Some?
      && ReadLine(limits, charged, c.line).value.size == |c.data|
      && Admitted(limits, charged + ExtensionLength(c.line), chunks[1..], last)
  }

  lemma LineAtRendered(limits: DecodeLimits, charged: nat, line: Bytes, tail: Bytes)
    requires OneLine(line)
    ensures LineAt(limits, charged, line + CRLF + tail) == ReadLine(limits, charged, line)
  {
    hide ReadLine;
    var w := line + CRLF + tail;
    assert w[|line|] == CR && w[|line| + 1] == LF;
    assert forall i :: 0 <= i < |line| ==> w[i] == line[i];
    assert Find(w, LF) == |line| + 1 && Find(w, CR) == |line|;
    assert w[..|line|] == line;
  }

  lemma SkipLine(line: Bytes, tail: Bytes)
    ensures (line + CRLF + tail)[|line| + 2..] == tail
  {
  }

  lemma DataThenCrlf(cfg: Config, charged: nat, data: Bytes, tail: Bytes)
    requires data != []
    ensures ChunkMeaning(cfg, Data(|data|), charged, data + (CRLF + tail))
         == Deliver(data, ChunkMeaning(cfg, Size(0), charged, tail))
  {
    hide LineAt, TrailerMeaning;
    var w := data + (CRLF + tail);
    assert w[..|data|] == data && w[|data|..] == CRLF + tail;
    assert (CRLF + tail)[..2] == CRLF && (CRLF + tail)[2..] == tail;
    assert ChunkMeaning(cfg, DataCrlf, charged, CRLF + tail) == ChunkMeaning(cfg, Size(0), charged, tail);
  }

  lemma ReadCharges(limits: DecodeLimits, charged: nat, line: Bytes)
    requires ReadLine(limits, charged, line).Some?
    ensures ReadLine(limits, charged, line).value.extensions == charged + ExtensionLength(line)
    ensures charged <= limits.extensions ==> charged + ExtensionLength(line) <= limits.extensions
  {
  }

  /** A chunk line, and then what its size calls for. */
  lemma LineThen(cfg: Config, charged: nat, w: Bytes)
    requires LineAt(cfg.limits, charged, w).Some?
    ensures var line := LineAt(cfg.limits, charged, w).value;
      ChunkMeaning(cfg, Size(0), charged, w)
      == ChunkMeaning(cfg, AfterLine(line.size), line.extensions, w[line.length..])
  {
    hide LineAt, TrailerMeaning;
  }

  /** One chunk in front of a message adds its data to what the message means. */
  lemma OneChunk(cfg: Config, charged: nat, line: Bytes, data: Bytes, rest: Bytes)
    requires OneLine(line) && data != []
    requires ReadLine(cfg.limits, charged, line).Some? && ReadLine(cfg.limits, charged, line).value.size == |data|
    ensures ChunkMeaning(cfg, Size(0), charged, line + CRLF + (data + (CRLF + rest)))
         == Deliver(data, ChunkMeaning(cfg, Size(0), charged + ExtensionLength(line), rest))
  {
    hide ChunkMeaning, LineAt, ExtensionLength, ReadLine;
    ReadCharges(cfg.limits, charged, line);
    LineAtRendered(cfg.limits, charged, line, data + (CRLF + rest));
    LineThen(cfg, charged, line + CRLF + (data + (CRLF + rest)));
    SkipLine(line, data + (CRLF + rest));
    DataThenCrlf(cfg, charged + ExtensionLength(line), data, rest);
  }

  lemma LastLine(cfg: Config, charged: nat, last: Bytes, tail: Bytes)
    requires OneLine(last)
    requires ReadLine(cfg.limits, charged, last).Some? && ReadLine(cfg.limits, charged, last).value.size == 0
    ensures ChunkMeaning(cfg, Size(0), charged, last + CRLF + tail) == TrailerMeaning(cfg, charged + ExtensionLength(last), tail)
  {
    hide TrailerMeaning, LineAt, ExtensionLength, ReadLine;
    LineAtRendered(cfg.limits, charged, last, tail);
    LineThen(cfg, charged, last + CRLF + tail);
    SkipLine(last, tail);
    ReadCharges(cfg.limits, charged, last);
  }

  /** Everything the grammar can write is read back: payload in order, then the trailers. */
  lemma {:induction false} WritesAreRead(cfg: Config, charged: nat, chunks: seq<Chunk>, last: Bytes, tail: Bytes)
    requires Admitted(cfg.limits, charged, chunks, last)
    ensures ChunkMeaning(cfg, Size(0), charged, Wire(chunks, last, tail))
         == Deliver(PayloadOf(chunks), TrailerMeaning(cfg, charged + ExtensionSum(chunks, last), tail))
    decreases |chunks|
  {
    hide ChunkMeaning, TrailerMeaning, ExtensionLength, ReadLine;
    var v := TrailerMeaning(cfg, charged + ExtensionSum(chunks, last), tail);
    if chunks == [] {
      LastLine(cfg, charged, last, tail);
      assert [] + v.payload == v.payload;
    } else {
      var c := chunks[0];
      OneChunk(cfg, charged, c.line, c.data, Wire(chunks[1..], last, tail));
      WritesAreRead(cfg, charged + ExtensionLength(c.line), chunks[1..], last, tail);
      assert c.data + (PayloadOf(chunks[1..]) + v.payload) == PayloadOf(chunks) + v.payload;
    }
  }

  lemma LineFound(limits: DecodeLimits, charged: nat, w: Bytes) returns (line: Bytes, tail: Bytes)
    requires LineAt(limits, charged, w).Some?
    ensures OneLine(line) && w == line + CRLF + tail
    ensures LineAt(limits, charged, w) == ReadLine(limits, charged, line)
    ensures tail == w[LineAt(limits, charged, w).value.length..]
  {
    hide LineOk, ExtensionLength;
    var i := Find(w, LF);
    line, tail := w[..i - 1], w[i + 1..];
  }

  lemma DataFound(cfg: Config, n: nat, charged: nat, w: Bytes)
    requires n > 0 && ChunkMeaning(cfg, Data(n), charged, w).Accept?
    ensures |w| >= n + 2 && w == w[..n] + (CRLF + w[n + 2..])
  {
    hide LineAt, TrailerMeaning;
    assert ChunkMeaning(cfg, DataCrlf, charged, w[n..]).Accept?;
    assert w[n..][..2] == CRLF;
    assert w[n..n + 2] == w[n..][..2];
  }

  /** Everything read was written by the grammar: an accepted wire takes apart into
      admitted chunks, a last-chunk line and a trailer block. */
  lemma {:induction false} ReadsWereWritten(cfg: Config, scanned: nat, charged: nat, w: Bytes)
    returns (chunks: seq<Chunk>, last: Bytes, tail: Bytes)
    requires ChunkMeaning(cfg, Size(scanned), charged, w).Accept?
    ensures w == Wire(chunks, last, tail) && Admitted(cfg.limits, charged, chunks, last)
    ensures TrailerMeaning(cfg, charged + ExtensionSum(chunks, last), tail).Accept?
    decreases |w|
  {
    hide TrailerMeaning, LineAt, ExtensionLength, ReadLine;
    var line, rest := LineFound(cfg.limits, charged, w);
    var read := ReadLine(cfg.limits, charged, line).value;
    ReadCharges(cfg.limits, charged, line);
    if read.size == 0 {
      chunks, last, tail := [], line, rest;
    } else {
      var data, more := rest[..read.size], [];
      DataFound(cfg, read.size, read.extensions, rest);
      DataThenCrlf(cfg, read.extensions, data, rest[read.size + 2..]);
      more, last, tail := ReadsWereWritten(cfg, 0, read.extensions, rest[read.size + 2..]);
      chunks := [Chunk(line, data)] + more;
      assert chunks[1..] == more;
    }
  }

  /** The trailer block at the front of `w` is its first `n` bytes: they end with an empty line, and no
      shorter beginning does. */
  predicate IsBlock(w: Bytes, n: nat)
  {
    0 < n <= |w| && EmptyLineAt(w, n - 1) && forall j :: 0 <= j < n - 1 ==> !EmptyLineAt(w, j)
  }

  /** Exactly which trailers are accepted: a block within the limit that the block parser reads
      completely and that names no forbidden field. */
  lemma TrailersRead(cfg: Config, charged: nat, w: Bytes, fields: HeaderMap, unread: Bytes)
    ensures TrailerMeaning(cfg, charged, w) == Accept([], Some(fields), unread, charged) <==>
      exists n: nat :: IsBlock(w, n) && n <= cfg.limits.trailerBytes && cfg.parse(w[..n]).Complete?
        && cfg.parse(w[..n]).trailers == fields && TrailersAllowed(fields) && unread == w[cfg.parse(w[..n]).consumed..]
  {
    var i := FirstEmptyLine(w, 0);
    if i < |w| {
      assert IsBlock(w, i + 1);
    }
    forall n: nat | IsBlock(w, n) ensures n == i + 1 {
      assert EmptyLineAt(w, n - 1);
    }
  }

  lemma NoPayloadInTrailers(cfg: Config, charged: nat, w: Bytes)
    ensures TrailerMeaning(cfg, charged, w).payload == []
    ensures TrailerMeaning(cfg, charged, w).Accept? ==> TrailerMeaning(cfg, charged, w).extensions == charged
  {
  }

  /** Budget of chunk extensions: an accepted body was charged exactly the extension bytes of
      its chunk lines, and never more than the limit allows. */
  lemma ExtensionBudget(cfg: Config, w: Bytes) returns (chunks: seq<Chunk>, last: Bytes, tail: Bytes)
    requires Meaning(cfg, NewDecoder(ChunkedBody), w).Accept?
    ensures w == Wire(chunks, last, tail) && Admitted(cfg.limits, 0, chunks, last)
    ensures Meaning(cfg, NewDecoder(ChunkedBody), w).payload == PayloadOf(chunks)
    ensures Meaning(cfg, NewDecoder(ChunkedBody), w).extensions == ExtensionSum(chunks, last)
    ensures ExtensionSum(chunks, last) <= cfg.limits.extensions
  {
    hide TrailerMeaning, ExtensionLength, ReadLine, LineAt;
    chunks, last, tail := ReadsWereWritten(cfg, 0, 0, w);
    WritesAreRead(cfg, 0, chunks, last, tail);
    NoPayloadInTrailers(cfg, ExtensionSum(chunks, last), tail);
    AdmittedWithinLimit(cfg.limits, 0, chunks, last);
  }

  lemma {:induction false} AdmittedWithinLimit(limits: DecodeLimits, charged: nat, chunks: seq<Chunk>, last: Bytes)
    requires Admitted(limits, charged, chunks, last) && charged <= limits.extensions
    ensures charged + ExtensionSum(chunks, last) <= limits.extensions
    decreases |chunks|
  {
    hide ExtensionLength, ReadLine;
    ReadCharges(limits, charged, if chunks == [] then last else chunks[0].line);
    if chunks != [] {
      AdmittedWithinLimit(limits, charged + ExtensionLength(chunks[0].line), chunks[1..], last);
    }
  }
}
