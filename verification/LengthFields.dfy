/** List syntax and the two fields that frame a message. */
module LengthFields {
  import opened Prelude
  import opened Syntax
  import opened Radix
  import opened ChunkGrammar

  datatype HeadError =
    | InvalidTarget | InvalidStatus | MissingHost | InvalidHost | InvalidTargetForm
    | InvalidContentLength | AmbiguousMessageLength
    | InvalidTransferEncoding | UnsupportedTransferCoding
    | InvalidConnection | InvalidExpectation | InvalidUpgrade

  // ---- comma lists ------------------------------------------------------------------

  /** Where a scan stands with respect to quoted strings. */
  datatype Quote = Plain | Quoted | Escaped

  function After(q: Quote, b: Byte): Quote
  {
    match q
    case Escaped => Quoted
    case Quoted => if b == BACKSLASH then Escaped else if b == DQUOTE then Plain else Quoted
    case Plain => if b == DQUOTE then Quoted else Plain
  }

  /** The length up to the first comma outside quotes, and the quoting state there. */
  function Scan(w: Bytes, q: Quote): (r: (nat, Quote))
    ensures r.0 <= |w|
    ensures r.0 < |w| ==> w[r.0] == COMMA && r.1 == Plain
  {
    if w == [] || (q == Plain && w[0] == COMMA) then (0, q)
    else
      var (n, end) := Scan(w[1..], After(q, w[0]));
      (n + 1, end)
  }

  /** The members before the first syntax fault, and whether there was none. */
  function Split(w: Bytes): (r: (seq<Bytes>, bool))
    ensures r.1 ==> r.0 != []
    decreases |w|
  {
    var (n, end) := Scan(w, Plain);
    if n == |w| then if w == [] || end != Plain then ([], false) else ([w], true)
    else if n == 0 then ([], false)
    else
      var (rest, ok) := Split(w[n + 1..]);
      ([w[..n]] + rest, ok)
  }

  function QuoteOf(quoted: bool, escaped: bool): Quote
  {
    if escaped then Escaped else if quoted then Quoted else Plain
  }

  /** The scan of `w` from `start` is the scan from `index` in state `q`, moved along. */
  predicate Resumes(w: Bytes, start: nat, index: nat, q: Quote)
    requires start <= index <= |w|
  {
    var later := Scan(w[index..], q);
    Scan(w[start..], Plain) == (index - start + later.0, later.1)
  }

  lemma ResumeStep(w: Bytes, start: nat, index: nat, q: Quote)
    requires start <= index < |w| && Resumes(w, start, index, q) && !(q == Plain && w[index] == COMMA)
    ensures Resumes(w, start, index + 1, After(q, w[index]))
  {
    assert w[index..][1..] == w[index + 1..];
  }

  lemma CutMember(w: Bytes, start: nat, index: nat)
    requires start < index < |w| && Resumes(w, start, index, Plain) && w[index] == COMMA
    ensures var rest := Split(w[index + 1..]); Split(w[start..]) == ([w[start..index]] + rest.0, rest.1)
  {
    assert w[start..][..index - start] == w[start..index];
    assert w[start..][index - start + 1..] == w[index + 1..];
  }

  /** One pass over the bytes with a start index and two quoting flags. */
  method SplitMembers(input: Bytes) returns (members: seq<Bytes>, ok: bool)
    ensures (members, ok) == Split(input)
  {
    hide Split, Scan;
    members := [];
    if input == [] {
      SplitEnds(input, 0, Plain);
      return [], false;
    }
    var start, quoted, escaped, index := 0, false, false, 0;
    assert input[0..] == input && [] + Split(input).0 == Split(input).0;
    while index < |input|
      invariant start <= index <= |input| && (escaped ==> quoted)
      invariant Split(input).0 == members + Split(input[start..]).0 && Split(input).1 == Split(input[start..]).1
      invariant Resumes(input, start, index, QuoteOf(quoted, escaped))
    {
      var byte := input[index];
      if byte != COMMA || quoted {
        ResumeStep(input, start, index, QuoteOf(quoted, escaped));
      }
      if escaped {
        escaped := false;
      } else if quoted && byte == BACKSLASH {
        escaped := true;
      } else if byte == DQUOTE {
        quoted := !quoted;
      } else if byte == COMMA && !quoted {
        if index == start {
          SplitEmptyMember(input, start);
          return members + [], false;
        }
        CutMember(input, start, index);
        assert members + ([input[start..index]] + Split(input[index + 1..]).0)
            == members + [input[start..index]] + Split(input[index + 1..]).0;
        members := members + [input[start..index]];
        start := index + 1;
      }
      index := index + 1;
    }
    SplitEnds(input, start, QuoteOf(quoted, escaped));
    if quoted || escaped || start == |input| { return members + [], false; }
    return members + [input[start..]], true;
  }

  lemma SplitEmptyMember(w: Bytes, start: nat)
    requires start < |w| && w[start] == COMMA
    ensures Split(w[start..]) == ([], false)
  {
  }

  lemma SplitEnds(w: Bytes, start: nat, q: Quote)
    requires start <= |w| && Resumes(w, start, |w|, q)
    ensures Split(w[start..]) == if start == |w| || q != Plain then ([], false) else ([w[start..]], true)
  {
    assert w[|w|..] == [];
  }

  /** A member: not empty, quotes closed, and no comma outside them. */
  predicate IsMember(m: Bytes)
  {
    m != [] && Scan(m, Plain) == (|m|, Plain)
  }

  function JoinCommas(members: seq<Bytes>): Bytes
  {
    if members == [] then [] else if |members| == 1 then members[0]
    else members[0] + [COMMA] + JoinCommas(members[1..])
  }

  lemma {:induction false} ScanThrough(m: Bytes, q: Quote, tail: Bytes)
    requires Scan(m, q) == (|m|, Plain)
    ensures Scan(m + [COMMA] + tail, q) == (|m|, Plain)
  {
    var w := m + [COMMA] + tail;
    if m != [] {
      assert w[1..] == m[1..] + [COMMA] + tail;
      ScanThrough(m[1..], After(q, m[0]), tail);
    }
  }

  lemma {:induction false} ScanPrefix(w: Bytes, q: Quote)
    ensures var (n, end) := Scan(w, q); Scan(w[..n], q) == (n, end)
  {
    if w != [] && !(q == Plain && w[0] == COMMA) {
      ScanPrefix(w[1..], After(q, w[0]));
      var n := Scan(w, q).0;
      assert w[..n][1..] == w[1..][..n - 1];
    }
  }

  /** Splitting succeeds exactly on non-empty comma-joined members, and finds those members. */
  lemma SplitMeaning(w: Bytes, members: seq<Bytes>)
    ensures Split(w) == (members, true)
       <==> members != [] && (forall i :: 0 <= i < |members| ==> IsMember(members[i])) && w == JoinCommas(members)
  {
    if Split(w) == (members, true) {
      SplitSound(w);
    }
    if members != [] && (forall i :: 0 <= i < |members| ==> IsMember(members[i])) && w == JoinCommas(members) {
      SplitComplete(members);
    }
  }

  lemma {:induction false} SplitSound(w: Bytes)
    requires Split(w).1
    ensures var members := Split(w).0;
      (forall i :: 0 <= i < |members| ==> IsMember(members[i])) && w == JoinCommas(members)
    decreases |w|
  {
    var (n, _) := Scan(w, Plain);
    if n < |w| {
      ScanPrefix(w, Plain);
      SplitSound(w[n + 1..]);
      var rest := Split(w[n + 1..]).0;
      assert ([w[..n]] + rest)[1..] == rest;
      assert w == w[..n] + [COMMA] + w[n + 1..];
    }
  }

  lemma SplitCons(m: Bytes, rest: Bytes)
    requires IsMember(m)
    ensures var later := Split(rest); Split(m + [COMMA] + rest) == ([m] + later.0, later.1)
  {
    ScanThrough(m, Plain, rest);
    var w := m + [COMMA] + rest;
    assert w[..|m|] == m && w[|m| + 1..] == rest;
  }

  lemma {:induction false} SplitComplete(members: seq<Bytes>)
    requires members != [] && forall i :: 0 <= i < |members| ==> IsMember(members[i])
    ensures Split(JoinCommas(members)) == (members, true)
  {
    if |members| == 1 {
      assert members == [members[0]];
    } else {
      hide Split, IsMember;
      SplitCons(members[0], JoinCommas(members[1..]));
      SplitComplete(members[1..]);
      assert members == [members[0]] + members[1..];
    }
  }

  /** All members of all values, when every value is a well-formed list. */
  function Members(values: seq<Bytes>): (r: (seq<Bytes>, bool))
  {
    if values == [] then ([], true)
    else
      var (first, ok) := Split(values[0]);
      var (rest, all) := Members(values[1..]);
      (first + rest, ok && all)
  }

  // ---- Content-Length ---------------------------------------------------------------

  predicate IsLength(member: Bytes)
  {
    var text := Trim(member);
    text != [] && AllDecimal(text) && Value(text, 10) < U64_LIMIT
  }

  function LengthOf(member: Bytes): nat { Value(Trim(member), 10) }

  type Parsed = Result<Option<nat>, HeadError>

  /** Take one more member into account. */
  function AddLength(member: Bytes, parsed: Option<nat>): Parsed
  {
    if !IsLength(member) then Err(InvalidContentLength)
    else if parsed.Some? && parsed.value != LengthOf(member) then Err(AmbiguousMessageLength)
    else Ok(Some(LengthOf(member)))
  }

  function AddLengths(members: seq<Bytes>, parsed: Option<nat>): Parsed
  {
    if members == [] then Ok(parsed)
    else
      var r := AddLength(members[0], parsed);
      if r.Err? then r else AddLengths(members[1..], r.value)
  }

  function LengthValues(values: seq<Bytes>, parsed: Option<nat>): Parsed
  {
    if values == [] then Ok(parsed)
    else
      var (members, ok) := Split(values[0]);
      var r := AddLengths(members, parsed);
      if r.Err? then r else if !ok then Err(InvalidContentLength) else LengthValues(values[1..], r.value)
  }

  function ContentLengthOf(headers: HeaderMap): Parsed
  {
    LengthValues(GetAll(headers, ContentLength), None)
  }

  method ReadMember(member: Bytes, parsed: Option<nat>) returns (r: Parsed)
    ensures r == AddLength(member, parsed)
  {
    var text := TrimOws(member);
    if text == [] || !AllDecimal(text) { return Err(InvalidContentLength); }
    var value := CheckedFold(text, 10);
    if value.None? { return Err(InvalidContentLength); }
    if parsed.Some? && parsed.value != value.value { return Err(AmbiguousMessageLength); }
    return Ok(value);
  }

  method ParseContentLength(headers: HeaderMap) returns (r: Parsed)
    ensures r == ContentLengthOf(headers)
  {
    var values := GetAll(headers, ContentLength);
    var parsed: Option<nat> := None;
    var present := false;
    for i := 0 to |values|
      invariant LengthValues(values[i..], parsed) == LengthValues(values, None)
      invariant present ==> parsed.Some?
    {
      present := true;
      var members, ok := SplitMembers(values[i]);
      ghost var entry := parsed;
      for j := 0 to |members|
        invariant AddLengths(members[j..], parsed) == AddLengths(members, entry)
        invariant j > 0 ==> parsed.Some?
      {
        var one := ReadMember(members[j], parsed);
        if one.Err? { return one; }
        parsed := one.value;
        assert members[j..][1..] == members[j + 1..];
      }
      if !ok { return Err(InvalidContentLength); }
      assert values[i..][1..] == values[i + 1..];
    }
    if present && parsed.None? { return Err(InvalidContentLength); }
    return Ok(parsed);
  }

  predicate AllDenote(members: seq<Bytes>, v: nat)
  {
    forall i :: 0 <= i < |members| ==> IsLength(members[i]) && LengthOf(members[i]) == v
  }

  lemma {:induction false} AddLengthsMeaning(members: seq<Bytes>, parsed: Option<nat>, v: nat)
    ensures AddLengths(members, parsed) == Ok(Some(v)) <==>
      AllDenote(members, v) && (parsed == Some(v) || (parsed == None && members != []))
    ensures AddLengths(members, parsed) == Ok(None) <==> members == [] && parsed == None
    decreases |members|
  {
    hide IsLength, LengthOf;
    if members != [] {
      var r := AddLength(members[0], parsed);
      assert AllDenote(members, v) ==> AllDenote(members[1..], v);
      if r.Ok? {
        AddLengthsMeaning(members[1..], r.value, v);
        if AllDenote(members[1..], v) && r.value == Some(v) {
          assert forall i :: 0 < i < |members| ==> members[i] == members[1..][i - 1];
        }
      }
    }
  }

  lemma {:induction false} AddLengthsAppend(a: seq<Bytes>, b: seq<Bytes>, parsed: Option<nat>)
    ensures AddLengths(a + b, parsed)
         == var r := AddLengths(a, parsed); if r.Err? then r else AddLengths(b, r.value)
    decreases |a|
  {
    if a == [] {
      assert a + b == b;
    } else {
      assert (a + b)[1..] == a[1..] + b;
      var r := AddLength(a[0], parsed);
      if r.Ok? {
        AddLengthsAppend(a[1..], b, r.value);
      }
    }
  }

  lemma {:induction false} ValuesAsMembers(values: seq<Bytes>, parsed: Option<nat>)
    ensures LengthValues(values, parsed).Ok? <==> Members(values).1 && AddLengths(Members(values).0, parsed).Ok?
    ensures LengthValues(values, parsed).Ok? ==> LengthValues(values, parsed) == AddLengths(Members(values).0, parsed)
    decreases |values|
  {
    if values != [] {
      var (members, ok) := Split(values[0]);
      AddLengthsAppend(members, Members(values[1..]).0, parsed);
      var r := AddLengths(members, parsed);
      if r.Ok? {
        ValuesAsMembers(values[1..], r.value);
      }
    }
  }

  /** Exact meaning of Content-Length over any number of field lines: it is absent, or it is
      the one value below 2^64 that every list member of every line denotes. */
  lemma ContentLengthMeaning(headers: HeaderMap, v: nat)
    ensures var values := GetAll(headers, ContentLength);
      && (ContentLengthOf(headers) == Ok(None) <==> values == [])
      && (ContentLengthOf(headers) == Ok(Some(v)) <==>
            values != [] && Members(values).1 && AllDenote(Members(values).0, v))
  {
    hide AllDenote;
    var values := GetAll(headers, ContentLength);
    ValuesAsMembers(values, None);
    AddLengthsMeaning(Members(values).0, None, v);
    if values != [] && Members(values).1 {
      assert Members(values).0 != [];
    }
  }

  // ---- Transfer-Encoding ------------------------------------------------------------

  const CHUNKED: Bytes := [99, 104, 117, 110, 107, 101, 100]

  function ParametersOk(input: Bytes): (ok: bool)
    decreases |input|
  {
    if input == [] then true
    else if input[0] != SEMICOLON then false
    else
      var named := Trim(input[1..]);
      var n := TokenLen(named);
      if n == 0 then false
      else
        var afterName := Trim(named[n..]);
        if afterName == [] || afterName[0] != EQUALS then false
        else
          var valued := Trim(afterName[1..]);
          var length := ValueLen(valued);
          if length.None? then false
          else
            var tail := Trim(valued[length.value..]);
            (tail == [] || tail[0] == SEMICOLON) && ParametersOk(tail)
  }

  method ValidateTransferParameters(text: Bytes) returns (ok: bool)
    ensures ok == ParametersOk(text)
  {
    var input := text;
    while input != []
      invariant ParametersOk(input) == ParametersOk(text)
      decreases |input|
    {
      if input[0] != SEMICOLON { return false; }
      input := TrimOws(input[1..]);
      var name := TokenLen(input);
      if name == 0 { return false; }
      input := TrimOws(input[name..]);
      if input == [] || input[0] != EQUALS { return false; }
      input := TrimOws(input[1..]);
      var value;
      if input != [] && input[0] == DQUOTE {
        value := QuotedStringLen(input);
        if value.None? { return false; }
      } else {
        value := Some(TokenLen(input));
        if value.value == 0 { return false; }
      }
      input := TrimOws(input[value.value..]);
      if input != [] && input[0] != SEMICOLON { return false; }
    }
    return true;
  }

  datatype Codings = Codings(count: nat, chunkedAt: Option<nat>, unsupported: bool)

  function CodingName(member: Bytes): Bytes
  {
    var text := Trim(member);
    Trim(text[..Find(text, SEMICOLON)])
  }

  function CodingParameters(member: Bytes): Bytes
  {
    var text := Trim(member);
    text[Find(text, SEMICOLON)..]
  }

  predicate IsChunked(member: Bytes) { EqIgnoreCase(CodingName(member), CHUNKED) }

  predicate IsCoding(member: Bytes)
  {
    IsToken(CodingName(member)) && ParametersOk(CodingParameters(member))
  }

  function AddCoding(member: Bytes, c: Codings): Result<Codings, HeadError>
  {
    if !IsCoding(member) then Err(InvalidTransferEncoding)
    else if IsChunked(member) then
      if c.chunkedAt.Some? || CodingParameters(member) != [] then Err(InvalidTransferEncoding)
      else Ok(Codings(c.count + 1, Some(c.count + 1), c.unsupported))
    else Ok(Codings(c.count + 1, c.chunkedAt, true))
  }

  function AddCodings(members: seq<Bytes>, c: Codings): Result<Codings, HeadError>
  {
    if members == [] then Ok(c)
    else
      var r := AddCoding(members[0], c);
      if r.Err? then r else AddCodings(members[1..], r.value)
  }

  function CodingValues(values: seq<Bytes>, c: Codings): Result<Codings, HeadError>
  {
    if values == [] then Ok(c)
    else
      var (members, ok) := Split(values[0]);
      var r := AddCodings(members, c);
      if r.Err? then r else if !ok then Err(InvalidTransferEncoding) else CodingValues(values[1..], r.value)
  }

  /** Ok(true) stands for chunked framing, Ok(false) for an absent field. */
  function Conclude(c: Codings): Result<bool, HeadError>
  {
    if c.count == 0 then Ok(false)
    else if c.chunkedAt != Some(c.count) then Err(InvalidTransferEncoding)
    else if c.unsupported then Err(UnsupportedTransferCoding)
    else Ok(true)
  }

  const NO_CODINGS := Codings(0, None, false)

  function TransferEncodingOf(headers: HeaderMap): Result<bool, HeadError>
  {
    var r := CodingValues(GetAll(headers, TransferEncoding), NO_CODINGS);
    if r.Err? then Err(r.error) else Conclude(r.value)
  }

  method ReadCoding(member: Bytes, c: Codings) returns (r: Result<Codings, HeadError>)
    ensures r == AddCoding(member, c)
  {
    var text := TrimOws(member);
    var split := Find(text, SEMICOLON);
    var coding := TrimOws(text[..split]);
    var parameters := text[split..];
    if coding == [] { return Err(InvalidTransferEncoding); }
    if !IsToken(coding) { return Err(InvalidTransferEncoding); }
    var ok := ValidateTransferParameters(parameters);
    if !ok { return Err(InvalidTransferEncoding); }
    if EqIgnoreCase(coding, CHUNKED) {
      if c.chunkedAt.Some? || parameters != [] { return Err(InvalidTransferEncoding); }
      return Ok(Codings(c.count + 1, Some(c.count + 1), c.unsupported));
    }
    return Ok(Codings(c.count + 1, c.chunkedAt, true));
  }

  method ParseTransferEncoding(headers: HeaderMap) returns (r: Result<bool, HeadError>)
    ensures r == TransferEncodingOf(headers)
  {
    hide AddCoding;
    var values := GetAll(headers, TransferEncoding);
    var c := NO_CODINGS;
    for i := 0 to |values|
      invariant CodingValues(values[i..], c) == CodingValues(values, NO_CODINGS)
    {
      var members, ok := SplitMembers(values[i]);
      ghost var entry := c;
      for j := 0 to |members|
        invariant AddCodings(members[j..], c) == AddCodings(members, entry)
      {
        var one := ReadCoding(members[j], c);
        if one.Err? { return Err(one.error); }
        c := one.value;
        assert members[j..][1..] == members[j + 1..];
      }
      if !ok { return Err(InvalidTransferEncoding); }
      assert values[i..][1..] == values[i + 1..];
    }
    return Conclude(c);
  }

  lemma {:induction false} AddCodingsAppend(a: seq<Bytes>, b: seq<Bytes>, c: Codings)
    ensures AddCodings(a + b, c)
         == var r := AddCodings(a, c); if r.Err? then r else AddCodings(b, r.value)
    decreases |a|
  {
    hide AddCoding;
    if a == [] {
      assert a + b == b;
    } else {
      assert (a + b)[1..] == a[1..] + b;
      var r := AddCoding(a[0], c);
      if r.Ok? {
        AddCodingsAppend(a[1..], b, r.value);
      }
    }
  }

  lemma {:induction false} CodingsAsMembers(values: seq<Bytes>, c: Codings)
    ensures CodingValues(values, c).Ok? <==> Members(values).1 && AddCodings(Members(values).0, c).Ok?
    ensures CodingValues(values, c).Ok? ==> CodingValues(values, c) == AddCodings(Members(values).0, c)
    decreases |values|
  {
    hide AddCoding;
    if values != [] {
      var (members, ok) := Split(values[0]);
      AddCodingsAppend(members, Members(values[1..]).0, c);
      var r := AddCodings(members, c);
      if r.Ok? {
        CodingsAsMembers(values[1..], r.value);
      }
    }
  }

  lemma {:induction false} CodingsCount(members: seq<Bytes>, c: Codings)
    requires AddCodings(members, c).Ok?
    ensures var d := AddCodings(members, c).value;
      && d.count == c.count + |members|
      && (d.unsupported <==> c.unsupported || exists i :: 0 <= i < |members| && !IsChunked(members[i]))
      && (forall i :: 0 <= i < |members| ==> IsCoding(members[i]))
      && (forall i :: 0 <= i < |members| && IsChunked(members[i]) ==> c.chunkedAt.None? && CodingParameters(members[i]) == [])
      && (forall i, j :: 0 <= i < j < |members| ==> !(IsChunked(members[i]) && IsChunked(members[j])))
      && (|members| == 1 && IsChunked(members[0]) ==> d.chunkedAt == Some(d.count))
    decreases |members|
  {
    hide IsChunked, IsCoding, CodingParameters;
    if members != [] {
      var next := AddCoding(members[0], c).value;
      CodingsCount(members[1..], next);
      assert forall i :: 0 < i < |members| ==> members[i] == members[1..][i - 1];
      if exists i :: 0 <= i < |members| && !IsChunked(members[i]) {
        var i :| 0 <= i < |members| && !IsChunked(members[i]);
        if i > 0 { assert !IsChunked(members[1..][i - 1]); }
      }
      if |members| == 1 { assert members[1..] == []; }
    }
  }

  /** Exact meaning of Transfer-Encoding over any number of field lines: it is absent, or its
      only list member is a bare `chunked`. */
  lemma TransferEncodingMeaning(headers: HeaderMap)
    ensures var values := GetAll(headers, TransferEncoding); var members := Members(values).0;
      && (TransferEncodingOf(headers) == Ok(false) <==> values == [])
      && (TransferEncodingOf(headers) == Ok(true) <==>
            Members(values).1 && |members| == 1 && IsChunked(members[0]) && CodingParameters(members[0]) == [])
  {
    hide IsChunked, CodingParameters, IsCoding;
    var values := GetAll(headers, TransferEncoding);
    var members := Members(values).0;
    CodingsAsMembers(values, NO_CODINGS);
    if AddCodings(members, NO_CODINGS).Ok? {
      CodingsCount(members, NO_CODINGS);
    }
    if values != [] && Members(values).1 {
      assert members != [];
    }
    if |members| == 1 && IsChunked(members[0]) && CodingParameters(members[0]) == [] {
      ChunkedIsCoding(members[0]);
      assert members[1..] == [];
    }
  }

  lemma ChunkedIsCoding(member: Bytes)
    requires IsChunked(member) && CodingParameters(member) == []
    ensures IsCoding(member)
  {
    var name := CodingName(member);
    forall i | 0 <= i < |name| ensures IsTchar(name[i]) {
      assert LowerByte(name[i]) == LowerByte(CHUNKED[i]);
    }
  }
}
