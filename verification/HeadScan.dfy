/** The resumable search for the end of a message head. */
module HeadScan {
  import opened Prelude

  predicate IsBreak(b: Byte) { b == CR || b == LF }

  /** The first byte that is neither CR nor LF, or the length when there is none. */
  function FirstContent(w: Bytes): (f: nat)
    ensures f <= |w|
    ensures forall j :: 0 <= j < f ==> IsBreak(w[j])
    ensures f < |w| ==> !IsBreak(w[f])
  {
    if w == [] || !IsBreak(w[0]) then 0
    else
      var f := FirstContent(w[1..]);
      assert forall j :: 0 < j < f + 1 ==> w[j] == w[1..][j - 1];
      f + 1
  }

  /** A line feed at `i` that ends an empty line somewhere after the first content byte. */
  predicate EndsHead(w: Bytes, i: nat)
    requires i < |w|
  {
    var f := FirstContent(w);
    && w[i] == LF
    && ((i >= 1 && w[i - 1] == LF && f < i - 1)
        || (i >= 2 && w[i - 1] == CR && w[i - 2] == LF && f < i - 2))
  }

  /** The position of the first terminator from `from` on, or the length when there is none. */
  function FirstEnd(w: Bytes, from: nat): (i: nat)
    requires from <= |w|
    ensures from <= i <= |w|
    ensures forall j :: from <= j < i ==> !EndsHead(w, j)
    ensures i < |w| ==> EndsHead(w, i)
    decreases |w| - from
  {
    if from == |w| || EndsHead(w, from) then from else FirstEnd(w, from + 1)
  }

  /** The length of the head in `w`, from one scan of all of it. */
  function HeadEnd(w: Bytes): (length: Option<nat>)
    ensures length.Some? ==> 0 < length.value <= |w|
  {
    var i := FirstEnd(w, 0);
    if i < |w| then Some(i + 1) else None
  }

  datatype Answer = Head(length: nat) | MoreInput | TooLong

  function Bounded(input: Bytes, maxBytes: nat): Bytes
  {
    if |input| < maxBytes then input else input[..maxBytes]
  }

  /** What a parser without memory would answer. */
  function OneScan(input: Bytes, maxBytes: nat): (answer: Answer)
    ensures answer.Head? ==> 0 < answer.length <= |input|
  {
    var end := HeadEnd(Bounded(input, maxBytes));
    if end.Some? then Head(end.value) else if |input| > maxBytes then TooLong else MoreInput
  }

  datatype ScanLine = Leading | Content | LineEnd | LineEndCr

  datatype Scan = Scanning(scanned: nat, line: ScanLine) | CompleteAt(length: nat)

  const START := Scanning(0, Leading)

  /** The line state that a scanned prefix amounts to. */
  function LineOf(w: Bytes): ScanLine
  {
    var f, n := FirstContent(w), |w|;
    if f == n then Leading
    else if w[n - 1] == LF then LineEnd
    else if n >= 2 && w[n - 1] == CR && w[n - 2] == LF && f < n - 2 then LineEndCr
    else Content
  }

  /** The caller kept the scanned bytes and only appended to them. */
  predicate Kept(scan: Scan, w: Bytes)
  {
    match scan
    case Scanning(scanned, line) =>
      scanned <= |w| ==> line == LineOf(w[..scanned]) && scanned <= FirstEnd(w, 0)
    case CompleteAt(length) => length <= |w| ==> HeadEnd(w) == Some(length)
  }

  /** Why a delimited block is not a head: the parser's own limit, or the foreign parser's reason. */
  datatype Unparsed<E> = OverLimit | Malformed(error: E)

  class HeadParser {
    var scan: Scan
    const maxBytes: nat

    constructor (maxBytes: nat)
      ensures scan == START && this.maxBytes == maxBytes
    {
      scan := START;
      this.maxBytes := maxBytes;
    }

    /** Scan only the bytes not seen before. */
    method Complete(w: Bytes) returns (length: Option<nat>)
      requires Kept(scan, w)
      modifies this
      ensures length == HeadEnd(w)
      ensures scan == if length.Some? then CompleteAt(length.value) else Scanning(|w|, LineOf(w))
    {
      if scan.CompleteAt? && |w| >= scan.length { return Some(scan.length); }
      if scan.CompleteAt? || |w| < scan.scanned {
        scan := START;
        assert w[..0] == [];
      }
      var scanned, line := scan.scanned, scan.line;
      while scanned < |w|
        invariant scanned <= |w| && line == LineOf(w[..scanned]) && scanned <= FirstEnd(w, 0)
      {
        var byte := w[scanned];
        ByteStep(w, scanned);
        scanned := scanned + 1;
        if (line == LineEnd || line == LineEndCr) && byte == LF {
          scan := CompleteAt(scanned);
          return Some(scanned);
        }
        line := match line
                case Leading => if IsBreak(byte) then Leading else Content
                case LineEnd => if byte == CR then LineEndCr else if byte == LF then LineEnd else Content
                case _ => if byte == LF then LineEnd else Content;
      }
      scan := Scanning(scanned, line);
      assert w[..|w|] == w;
      return None;
    }

    /** The length of the complete retained head, if it has arrived within the limit. */
    method HeadLen(input: Bytes) returns (answer: Answer)
      requires Kept(scan, Bounded(input, maxBytes))
      modifies this
      ensures answer == OneScan(input, maxBytes)
      ensures forall more :: answer != TooLong ==> Kept(scan, Bounded(input + more, maxBytes))
      ensures answer == TooLong ==> scan == START
    {
      var parseLen := if |input| < maxBytes then |input| else maxBytes;
      assert input[..parseLen] == Bounded(input, maxBytes);
      var complete := Complete(input[..parseLen]);
      if complete.Some? {
        forall more ensures Kept(scan, Bounded(input + more, maxBytes)) { GrowthKeeps(scan, input, more, maxBytes); }
        return Head(complete.value);
      }
      if |input| > maxBytes {
        scan := START;
        return TooLong;
      }
      assert Bounded(input, maxBytes) == input && input[..|input|] == input;
      forall more ensures Kept(scan, Bounded(input + more, maxBytes)) { GrowthKeeps(scan, input, more, maxBytes); }
      return MoreInput;
    }

    /** Parse one delimited block; the next scan starts afresh whatever comes of it. */
    method ParseShared<H, E>(block: Bytes, parse: Bytes -> Result<H, E>) returns (r: Result<H, Unparsed<E>>)
      modifies this
      ensures scan == START
      ensures r == if |block| > maxBytes then Err(OverLimit)
                   else if parse(block).Ok? then Ok(parse(block).value) else Err(Malformed(parse(block).error))
    {
      scan := START;
      if |block| > maxBytes { return Err(OverLimit); }
      var parsed := parse(block);
      return if parsed.Ok? then Ok(parsed.value) else Err(Malformed(parsed.error));
    }
  }

  lemma ContentPrefix(w: Bytes, n: nat)
    requires n <= |w|
    ensures FirstContent(w[..n]) == if FirstContent(w) < n then FirstContent(w) else n
  {
    var f, g := FirstContent(w), FirstContent(w[..n]);
    assert g < n ==> !IsBreak(w[g]);
    assert f < n ==> !IsBreak(w[..n][f]);
  }

  /** One more byte: it ends the head, or moves the line state as the scanner moves it. */
  lemma ByteStep(w: Bytes, n: nat)
    requires n < |w| && n <= FirstEnd(w, 0)
    ensures var line := LineOf(w[..n]);
      EndsHead(w, n) <==> (line == LineEnd || line == LineEndCr) && w[n] == LF
    ensures !EndsHead(w, n) ==> n + 1 <= FirstEnd(w, 0)
    ensures EndsHead(w, n) ==> HeadEnd(w) == Some(n + 1)
    ensures var line, byte := LineOf(w[..n]), w[n];
      LineOf(w[..n + 1]) ==
        match line
        case Leading => if IsBreak(byte) then Leading else Content
        case LineEnd => if byte == CR then LineEndCr else if byte == LF then LineEnd else Content
        case _ => if byte == LF then LineEnd else Content
  {
    hide FirstContent;
    ContentPrefix(w, n);
    ContentPrefix(w, n + 1);
    var f := FirstContent(w);
    assert n >= 1 ==> w[..n][n - 1] == w[n - 1];
    assert n >= 2 ==> w[..n][n - 2] == w[n - 2];
    assert w[..n + 1][n] == w[n];
    assert n >= 1 ==> w[..n + 1][n - 1] == w[n - 1];
  }

  lemma EndsHeadAppend(w: Bytes, more: Bytes, i: nat)
    requires i < |w|
    ensures EndsHead(w + more, i) == EndsHead(w, i)
  {
    hide FirstContent;
    ContentPrefix(w + more, |w|);
    assert (w + more)[..|w|] == w;
    assert forall k :: 0 <= k <= i ==> (w + more)[k] == w[k];
  }

  lemma FirstEndAppend(w: Bytes, more: Bytes)
    ensures FirstEnd(w, 0) < |w| ==> FirstEnd(w + more, 0) == FirstEnd(w, 0)
    ensures FirstEnd(w, 0) == |w| ==> FirstEnd(w + more, 0) >= |w|
  {
    var i, k := FirstEnd(w, 0), FirstEnd(w + more, 0);
    if i < |w| { EndsHeadAppend(w, more, i); }
    if k < |w| { EndsHeadAppend(w, more, k); }
  }

  /** A bounded view of grown input is a grown view. */
  lemma BoundedGrows(input: Bytes, more: Bytes, maxBytes: nat) returns (tail: Bytes)
    ensures Bounded(input + more, maxBytes) == Bounded(input, maxBytes) + tail
    ensures |input| >= maxBytes ==> tail == []
  {
    var w := Bounded(input, maxBytes);
    tail := Bounded(input + more, maxBytes)[|w|..];
  }

  lemma GrowthKeeps(scan: Scan, input: Bytes, more: Bytes, maxBytes: nat)
    requires var w := Bounded(input, maxBytes);
      Kept(scan, w) && (if scan.Scanning? then scan.scanned <= |w| else scan.length <= |w|)
    ensures Kept(scan, Bounded(input + more, maxBytes))
  {
    hide LineOf, FirstEnd;
    var w := Bounded(input, maxBytes);
    var tail := BoundedGrows(input, more, maxBytes);
    FirstEndAppend(w, tail);
    if scan.Scanning? {
      assert (w + tail)[..scan.scanned] == w[..scan.scanned];
    }
  }

  /** Answers are final: once a head or a limit error is found, more input does not change it. */
  lemma AnswersAreFinal(input: Bytes, more: Bytes, maxBytes: nat)
    requires OneScan(input, maxBytes) != MoreInput
    ensures OneScan(input + more, maxBytes) == OneScan(input, maxBytes)
  {
    hide FirstEnd;
    var tail := BoundedGrows(input, more, maxBytes);
    var w := Bounded(input, maxBytes);
    FirstEndAppend(w, tail);
    assert w + [] == w;
  }

  /** The answer in terms of the whole input: the first terminator if it lies within the limit,
      the limit error exactly when none does and the input is longer than the limit. */
  lemma AnswerMeaning(input: Bytes, maxBytes: nat)
    ensures forall n: nat :: OneScan(input, maxBytes) == Head(n) <==> HeadEnd(input) == Some(n) && n <= maxBytes
    ensures OneScan(input, maxBytes) == TooLong <==>
      |input| > maxBytes && !(HeadEnd(input).Some? && HeadEnd(input).value <= maxBytes)
  {
    hide FirstEnd;
    if |input| >= maxBytes {
      var w := input[..maxBytes];
      assert input == w + input[maxBytes..];
      FirstEndAppend(w, input[maxBytes..]);
    }
  }

  /** Feeding the input in any pieces, asking after each, finds what one scan of all would find. */
  method ScanPieces(maxBytes: nat, pieces: seq<Bytes>) returns (answer: Answer, seen: nat, input: Bytes)
    ensures seen <= |pieces| && input == Join(pieces[..seen])
    ensures answer == OneScan(Join(pieces), maxBytes)
    ensures answer == MoreInput ==> seen == |pieces|
  {
    hide OneScan, Kept;
    var parser := new HeadParser(maxBytes);
    input, seen := [], 0;
    FreshIsKept(Bounded(input, maxBytes));
    answer := parser.HeadLen(input);
    while seen < |pieces| && answer == MoreInput
      invariant seen <= |pieces| && input == Join(pieces[..seen]) && parser.maxBytes == maxBytes
      invariant answer == OneScan(input, maxBytes)
      invariant answer == MoreInput ==> forall more :: Kept(parser.scan, Bounded(input + more, maxBytes))
    {
      JoinTake(pieces, seen);
      input := input + pieces[seen];
      seen := seen + 1;
      answer := parser.HeadLen(input);
    }
    JoinSplit(pieces, seen);
    if answer != MoreInput {
      AnswersAreFinal(input, Join(pieces[seen..]), maxBytes);
    } else {
      assert pieces[..seen] == pieces;
    }
  }

  lemma FreshIsKept(w: Bytes)
    ensures Kept(START, w)
  {
    assert w[..0] == [];
  }
}
