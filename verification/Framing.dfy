/** Which framing a message has: planned by the sender, and validated on either side. */
module Framing {
  import opened Prelude
  import opened Syntax
  import opened Radix
  import opened ChunkGrammar
  import opened LengthFields
  import opened Encoding

  datatype Version = Http10 | Http11 | OtherVersion

  datatype Method = ConnectMethod | HeadMethod | OptionsMethod | OtherMethod

  datatype TargetForm = Origin | Absolute | Authority | Asterisk

  /** What a parsed request target offers. */
  datatype Target = Target(scheme: bool, authority: Option<Bytes>, port: bool,
                           pathAndQuery: bool, starPath: bool, slashPath: bool)

  /** Foreign judgements on host text. */
  datatype HostRules = HostRules(parses: Bytes -> bool, storable: Bytes -> bool)

  datatype Persistence = Reusable | CloseAfter

  datatype Expectation = NoExpectation | ContinueExpected

  datatype UpgradeKind = Protocol | Tunnel

  datatype RequestHead = RequestHead(verb: Method, target: Target, version: Version, headers: HeaderMap)

  datatype ValidRequest = ValidRequest(head: RequestHead, body: BodyMode, persistence: Persistence,
                                       form: TargetForm, expectation: Expectation, upgrade: Option<UpgradeKind>)

  datatype ResponseHead = ResponseHead(version: Version, status: nat, headers: HeaderMap)

  datatype ValidResponse = ValidResponse(head: ResponseHead, body: BodyMode, persistence: Persistence,
                                         upgrade: Option<UpgradeKind>)

  predicate Informational(status: nat) { 100 <= status < 200 }

  predicate Success(status: nat) { 200 <= status < 300 }

  const NO_CONTENT: nat := 204
  const RESET_CONTENT: nat := 205
  const NOT_MODIFIED: nat := 304
  const SWITCHING_PROTOCOLS: nat := 101

  // ---- planning ---------------------------------------------------------------------

  type Plan<T> = (HeaderMap, Result<T, EncodeError>)

  function HeadToEncode(error: HeadError): EncodeError
  {
    match error
    case UnsupportedTransferCoding => Unsupported
    case AmbiguousMessageLength => InvalidFraming
    case InvalidContentLength => InvalidFraming
    case InvalidTransferEncoding => InvalidFraming
    case _ => InvalidHead
  }

  predicate Has(headers: HeaderMap, name: Name) { GetAll(headers, name) != [] }

  function SetExactLength(headers: HeaderMap, length: nat): Plan<()>
  {
    var coding := TransferEncodingOf(headers);
    if coding.Err? then (headers, Err(HeadToEncode(coding.error)))
    else if coding.value then (headers, Err(InvalidFraming))
    else
      var declared := ContentLengthOf(headers);
      if declared.Err? then (headers, Err(HeadToEncode(declared.error)))
      else if declared.value.Some? then (headers, if declared.value.value == length then Ok(()) else Err(LengthMismatch))
      else (Insert(headers, ContentLength, Decimal(length)), Ok(()))
  }

  function SetChunked(headers: HeaderMap): Plan<()>
  {
    if Has(headers, ContentLength) then (headers, Err(InvalidFraming))
    else
      var coding := TransferEncodingOf(headers);
      if coding.Err? then (headers, Err(HeadToEncode(coding.error)))
      else if coding.value then (headers, Ok(()))
      else (Insert(headers, TransferEncoding, CHUNKED), Ok(()))
  }

  function Then(p: Plan<()>, mode: BodyMode): Plan<BodyMode>
  {
    (p.0, if p.1.Err? then Err(p.1.error) else Ok(mode))
  }

  predicate ExactWithoutTrailers(meta: BodyMetadata)
  {
    meta.trailers == NoTrailers && meta.size.Exact().Some?
  }

  function PlanRequest(headers: HeaderMap, version: Version, meta: BodyMetadata): Plan<BodyMode>
  {
    if ExactWithoutTrailers(meta) then
      Then(SetExactLength(headers, meta.size.lower), FixedLength(meta.size.lower))
    else if version != Http11 then (headers, Err(Unsupported))
    else Then(SetChunked(headers), ChunkedBody)
  }

  function PlanRepresentation(headers: HeaderMap, version: Version, meta: BodyMetadata): Plan<BodyMode>
  {
    if ExactWithoutTrailers(meta) then
      Then(SetExactLength(headers, meta.size.lower), FixedLength(meta.size.lower))
    else if version == Http11 then Then(SetChunked(headers), ChunkedBody)
    else if meta.trailers == MayHave then (headers, Err(TrailersForbidden))
    else if Has(headers, ContentLength) || Has(headers, TransferEncoding) then (headers, Err(InvalidFraming))
    else (headers, Ok(UntilClose))
  }

  function PlanResponse(headers: HeaderMap, version: Version, status: nat, meta: BodyMetadata, request: Method)
    : Plan<BodyMode>
  {
    var empty := meta.size.Exact() == Some(0) && meta.trailers == NoTrailers;
    if (request == ConnectMethod && Success(status)) || Informational(status) || status == NO_CONTENT then
      if !empty || Has(headers, ContentLength) || Has(headers, TransferEncoding) then (headers, Err(BodyForbidden))
      else (headers, Ok(NoBody))
    else if request == HeadMethod || status == NOT_MODIFIED then
      var p := PlanRepresentation(headers, version, meta);
      (p.0, if p.1.Err? then p.1 else Ok(NoBody))
    else if status == RESET_CONTENT then
      if !empty || Has(headers, TransferEncoding) then (headers, Err(BodyForbidden))
      else Then(SetExactLength(headers, 0), NoBody)
    else PlanRepresentation(headers, version, meta)
  }

  /** The planners edit the header map of the message being prepared in place. */
  class OutgoingHead {
    var headers: HeaderMap

    constructor (headers: HeaderMap)
      ensures this.headers == headers
    {
      this.headers := headers;
    }

    method DeclareLength(length: nat) returns (r: Result<(), EncodeError>)
      modifies this
      ensures (headers, r) == SetExactLength(old(headers), length)
    {
      var coding := ParseTransferEncoding(headers);
      if coding.Err? { return Err(HeadToEncode(coding.error)); }
      if coding.value { return Err(InvalidFraming); }
      var declared := ParseContentLength(headers);
      if declared.Err? { return Err(HeadToEncode(declared.error)); }
      if declared.value.Some? {
        return if declared.value.value == length then Ok(()) else Err(LengthMismatch);
      }
      headers := Insert(headers, ContentLength, Decimal(length));
      return Ok(());
    }

    method DeclareChunked() returns (r: Result<(), EncodeError>)
      modifies this
      ensures (headers, r) == SetChunked(old(headers))
    {
      if Has(headers, ContentLength) { return Err(InvalidFraming); }
      var coding := ParseTransferEncoding(headers);
      if coding.Err? { return Err(HeadToEncode(coding.error)); }
      if !coding.value { headers := Insert(headers, TransferEncoding, CHUNKED); }
      return Ok(());
    }

    method PlanRequestFraming(version: Version, meta: BodyMetadata) returns (r: Result<BodyMode, EncodeError>)
      modifies this
      ensures (headers, r) == PlanRequest(old(headers), version, meta)
    {
      hide SetExactLength, SetChunked;
      if meta.trailers == NoTrailers && meta.size.Exact().Some? {
        var length := meta.size.Exact().value;
        var declared := DeclareLength(length);
        return if declared.Err? then Err(declared.error) else Ok(FixedLength(length));
      }
      if version != Http11 { return Err(Unsupported); }
      var declared := DeclareChunked();
      return if declared.Err? then Err(declared.error) else Ok(ChunkedBody);
    }

    method PlanRepresentationFraming(version: Version, meta: BodyMetadata) returns (r: Result<BodyMode, EncodeError>)
      modifies this
      ensures (headers, r) == PlanRepresentation(old(headers), version, meta)
    {
      hide SetExactLength, SetChunked, Has;
      if meta.trailers == NoTrailers && meta.size.Exact().Some? {
        var length := meta.size.Exact().value;
        var declared := DeclareLength(length);
        return if declared.Err? then Err(declared.error) else Ok(FixedLength(length));
      }
      if version == Http11 {
        var declared := DeclareChunked();
        return if declared.Err? then Err(declared.error) else Ok(ChunkedBody);
      }
      if meta.trailers == MayHave { return Err(TrailersForbidden); }
      if Has(headers, ContentLength) || Has(headers, TransferEncoding) { return Err(InvalidFraming); }
      return Ok(UntilClose);
    }

    method PlanResponseFraming(version: Version, status: nat, meta: BodyMetadata, request: Method)
      returns (r: Result<BodyMode, EncodeError>)
      modifies this
      ensures (headers, r) == PlanResponse(old(headers), version, status, meta, request)
    {
      hide SetExactLength, PlanRepresentation, Has;
      var tunnel := request == ConnectMethod && Success(status);
      var strictlyForbidden := Informational(status) || status == NO_CONTENT;
      var metadataOnly := request == HeadMethod || status == NOT_MODIFIED;
      if tunnel || strictlyForbidden {
        if meta.size.Exact() != Some(0) || meta.trailers != NoTrailers { return Err(BodyForbidden); }
        if Has(headers, ContentLength) || Has(headers, TransferEncoding) { return Err(BodyForbidden); }
        return Ok(NoBody);
      }
      if metadataOnly {
        r := PlanRepresentationFraming(version, meta);
        return if r.Err? then r else Ok(NoBody);
      }
      if status == RESET_CONTENT {
        if meta.size.Exact() != Some(0) || meta.trailers != NoTrailers || Has(headers, TransferEncoding) {
          return Err(BodyForbidden);
        }
        var declared := DeclareLength(0);
        return if declared.Err? then Err(declared.error) else Ok(NoBody);
      }
      r := PlanRepresentationFraming(version, meta);
    }
  }

  // ---- validation -------------------------------------------------------------------

  function FormOf(verb: Method, t: Target): Result<TargetForm, HeadError>
  {
    var form :=
      if t.starPath && !t.scheme && t.authority.None? then Some(Asterisk)
      else if t.scheme && t.authority.Some? then Some(Absolute)
      else if !t.scheme && t.authority.Some? && !t.pathAndQuery then Some(Authority)
      else if !t.scheme && t.authority.None? && t.slashPath then Some(Origin)
      else None;
    if form.None? then Err(InvalidTargetForm)
    else if verb == ConnectMethod then
      if form.value == Authority && t.port then Ok(Authority) else Err(InvalidTargetForm)
    else if form.value == Asterisk then
      if verb == OptionsMethod then Ok(Asterisk) else Err(InvalidTargetForm)
    else if form.value == Authority then Err(InvalidTargetForm)
    else Ok(form.value)
  }

  const AT_SIGN: Byte := 64

  function HostFault(headers: HeaderMap, version: Version, rules: HostRules): Option<HeadError>
  {
    var values := GetAll(headers, Host);
    if values == [] then if version == Http11 then Some(MissingHost) else None
    else if |values| > 1 then Some(InvalidHost)
    else
      var text := Trim(values[0]);
      if text == [] || COMMA in text || AT_SIGN in text || !rules.parses(text) then Some(InvalidHost) else None
  }

  function NormalizeHost(headers: HeaderMap, t: Target, rules: HostRules): Result<HeaderMap, HeadError>
  {
    if t.authority.None? then Err(InvalidTargetForm)
    else if AT_SIGN in t.authority.value then Err(InvalidTarget)
    else if !rules.storable(t.authority.value) then Err(InvalidHost)
    else Ok(Insert(headers, Host, t.authority.value))
  }

  datatype Options = Options(close: bool, keepAlive: bool, upgrade: bool)

  const CLOSE: Bytes := [99, 108, 111, 115, 101]
  const KEEP_ALIVE: Bytes := [107, 101, 101, 112, 45, 97, 108, 105, 118, 101]
  const UPGRADE: Bytes := [117, 112, 103, 114, 97, 100, 101]
  const CONTINUE_100: Bytes := [49, 48, 48, 45, 99, 111, 110, 116, 105, 110, 117, 101]

  predicate AnyIs(members: seq<Bytes>, word: Bytes)
  {
    exists i :: 0 <= i < |members| && EqIgnoreCase(Trim(members[i]), word)
  }

  function ConnectionOptions(headers: HeaderMap): Result<Options, HeadError>
  {
    var (members, ok) := Members(GetAll(headers, Connection));
    if !ok || (exists i :: 0 <= i < |members| && !IsToken(Trim(members[i]))) then Err(InvalidConnection)
    else Ok(Options(AnyIs(members, CLOSE), AnyIs(members, KEEP_ALIVE), AnyIs(members, UPGRADE)))
  }

  function PersistenceOf(version: Version, o: Options): Persistence
  {
    if o.close || (version == Http10 && !o.keepAlive) then CloseAfter else Reusable
  }

  function ExpectationOf(headers: HeaderMap, version: Version, received: bool): Result<Expectation, HeadError>
  {
    var (members, ok) := Members(GetAll(headers, Expect));
    if !ok || (exists i :: 0 <= i < |members| && !EqIgnoreCase(Trim(members[i]), CONTINUE_100)) then Err(InvalidExpectation)
    else if members == [] then Ok(NoExpectation)
    else if version == Http11 then Ok(ContinueExpected)
    else if version == Http10 && received then Ok(NoExpectation)
    else Err(InvalidExpectation)
  }

  const SLASH: Byte := 47

  /** A protocol token, optionally followed by one slash and a version token. */
  predicate IsProtocol(member: Bytes)
  {
    var text := Trim(member);
    var n := Find(text, SLASH);
    IsToken(text[..n]) && (n < |text| ==> IsToken(text[n + 1..]))
  }

  /** Whether any protocol is offered. */
  function UpgradeValues(headers: HeaderMap): Result<bool, HeadError>
  {
    var (members, ok) := Members(GetAll(headers, Upgrade));
    if !ok || (exists i :: 0 <= i < |members| && !IsProtocol(members[i])) then Err(InvalidUpgrade)
    else Ok(members != [])
  }

  function UpgradeIntent(headers: HeaderMap, o: Options, form: TargetForm): Result<Option<UpgradeKind>, HeadError>
  {
    if form == Authority then Ok(Some(Tunnel))
    else
      var has := UpgradeValues(headers);
      if has.Err? then Err(has.error)
      else if o.upgrade && !o.close && has.value then Ok(Some(Protocol))
      else if !o.upgrade && !has.value then Ok(None)
      else Err(InvalidUpgrade)
  }

  /** The message length both validators agree on once neither field is malformed. */
  function LengthRule(headers: HeaderMap, version: Version, absent: BodyMode): Result<BodyMode, HeadError>
  {
    var length := ContentLengthOf(headers);
    if length.Err? then Err(length.error)
    else
      var coding := TransferEncodingOf(headers);
      if coding.Err? then Err(coding.error)
      else if length.value.Some? && coding.value then Err(AmbiguousMessageLength)
      else if coding.value && version != Http11 then Err(InvalidTransferEncoding)
      else Ok(if coding.value then ChunkedBody
              else if length.value.Some? then FixedLength(length.value.value) else absent)
  }

  function ValidateRequest(head: RequestHead, received: bool, rules: HostRules): Result<ValidRequest, HeadError>
  {
    var form := FormOf(head.verb, head.target);
    if form.Err? then Err(form.error)
    else
      var fault := HostFault(head.headers, head.version, rules);
      if fault.Some? then Err(fault.value)
      else
        var headers := if form.value == Absolute then NormalizeHost(head.headers, head.target, rules) else Ok(head.headers);
        if headers.Err? then Err(headers.error) else ValidateFields(head.(headers := headers.value), form.value, received)
  }

  function ValidateFields(head: RequestHead, form: TargetForm, received: bool): Result<ValidRequest, HeadError>
  {
    var body := LengthRule(head.headers, head.version, NoBody);
    if body.Err? then Err(body.error)
    else
      var options := ConnectionOptions(head.headers);
      if options.Err? then Err(options.error)
      else
        var expectation := ExpectationOf(head.headers, head.version, received);
        if expectation.Err? then Err(expectation.error)
        else
          var upgrade := if received && head.version == Http10 && form != Authority then Ok(None)
                         else UpgradeIntent(head.headers, options.value, form);
          if upgrade.Err? then Err(upgrade.error)
          else if upgrade.value == Some(Protocol) && head.version != Http11 then Err(InvalidUpgrade)
          else Ok(ValidRequest(head, body.value, PersistenceOf(head.version, options.value), form,
                               expectation.value, upgrade.value))
  }

  function ResponseUpgrade(head: ResponseHead, o: Options, request: Method): Result<Option<UpgradeKind>, HeadError>
  {
    if head.status == SWITCHING_PROTOCOLS then
      if head.version != Http11 || !o.upgrade || o.close then Err(InvalidUpgrade)
      else
        var has := UpgradeValues(head.headers);
        if has.Err? then Err(has.error) else if has.value then Ok(Some(Protocol)) else Err(InvalidUpgrade)
    else if request == ConnectMethod && Success(head.status) then Ok(Some(Tunnel))
    else Ok(None)
  }

  predicate Bodiless(status: nat, request: Method)
  {
    || request == HeadMethod || Informational(status)
    || status == NO_CONTENT || status == RESET_CONTENT || status == NOT_MODIFIED
  }

  function ValidateResponse(head: ResponseHead, request: Method): Result<ValidResponse, HeadError>
  {
    if head.status > 599 then Err(InvalidStatus)
    else
      var options := ConnectionOptions(head.headers);
      if options.Err? then Err(options.error)
      else
        var upgrade := ResponseUpgrade(head, options.value, request);
        if upgrade.Err? then Err(upgrade.error)
        else
          var body := if upgrade.value.Some? || Bodiless(head.status, request) then Ok(NoBody)
                      else LengthRule(head.headers, head.version, UntilClose);
          if body.Err? then Err(body.error)
          else
            var persistence := if body.value == UntilClose then CloseAfter else PersistenceOf(head.version, options.value);
            Ok(ValidResponse(head, body.value, persistence, upgrade.value))
  }

  // ---- agreement --------------------------------------------------------------------

  lemma OneDecimalValue(n: nat)
    requires n < U64_LIMIT
    ensures LengthValues([Decimal(n)], None) == Ok(Some(n))
  {
    var text := Decimal(n);
    DecimalReadsBack(n);
    PlainToken(text);
    assert Trim(text) == text by { TrimIsUnique([], text, []); assert [] + text + [] == text; }
    var one: seq<Bytes> := [text];
    assert one[1..] == [];
    assert AddLengths(one, None) == Ok(Some(n));
  }

  /** Text without commas or quotes is a list of one member. */
  lemma PlainToken(text: Bytes)
    requires text != [] && forall i :: 0 <= i < |text| ==> text[i] != COMMA && text[i] != DQUOTE
    ensures Split(text) == ([text], true)
  {
    PlainScan(text);
  }

  lemma {:induction false} PlainScan(text: Bytes)
    requires forall i :: 0 <= i < |text| ==> text[i] != COMMA && text[i] != DQUOTE
    ensures Scan(text, Plain) == (|text|, Plain)
  {
    if text != [] {
      PlainScan(text[1..]);
    }
  }

  lemma OneChunkedValue()
    ensures CodingValues([CHUNKED], NO_CODINGS) == Ok(Codings(1, Some(1), false))
  {
    hide AddCoding, Split;
    PlainToken(CHUNKED);
    ChunkedCoding();
    var one: seq<Bytes> := [CHUNKED];
    assert one[1..] == [];
    assert AddCodings([], Codings(1, Some(1), false)) == Ok(Codings(1, Some(1), false));
  }

  lemma ChunkedCoding()
    ensures AddCoding(CHUNKED, NO_CODINGS) == Ok(Codings(1, Some(1), false))
  {
    assert Trim(CHUNKED) == CHUNKED by { TrimIsUnique([], CHUNKED, []); assert [] + CHUNKED + [] == CHUNKED; }
    hide Trim;
    assert Find(CHUNKED, SEMICOLON) == 7;
    assert CHUNKED[..7] == CHUNKED && CHUNKED[7..] == [];
    assert IsToken(CHUNKED);
  }

  lemma ExactLengthIsFixed(headers: HeaderMap, length: nat)
    requires length < U64_LIMIT && SetExactLength(headers, length).1.Ok?
    ensures var h := SetExactLength(headers, length).0;
      && ContentLengthOf(h) == Ok(Some(length)) && TransferEncodingOf(h) == Ok(false)
      && forall name :: name != ContentLength ==> GetAll(h, name) == GetAll(headers, name)
  {
    hide LengthValues, CodingValues;
    var text := Decimal(length);
    OneDecimalValue(length);
    forall name ensures GetAll(Insert(headers, ContentLength, text), name)
                     == if name == ContentLength then [text] else GetAll(headers, name) {
      GetAllInsert(headers, ContentLength, text, name);
    }
  }

  lemma ChunkedIsChunked(headers: HeaderMap)
    requires SetChunked(headers).1.Ok?
    ensures var h := SetChunked(headers).0;
      && ContentLengthOf(h) == Ok(None) && TransferEncodingOf(h) == Ok(true)
      && forall name :: name != TransferEncoding ==> GetAll(h, name) == GetAll(headers, name)
  {
    hide CodingValues;
    OneChunkedValue();
    forall name ensures GetAll(Insert(headers, TransferEncoding, CHUNKED), name)
                     == if name == TransferEncoding then [CHUNKED] else GetAll(headers, name) {
      GetAllInsert(headers, TransferEncoding, CHUNKED, name);
    }
  }

  /** The length rule reads only the two framing fields. */
  lemma LengthRuleLocal(a: HeaderMap, b: HeaderMap, version: Version, absent: BodyMode)
    requires GetAll(a, ContentLength) == GetAll(b, ContentLength)
    requires GetAll(a, TransferEncoding) == GetAll(b, TransferEncoding)
    ensures LengthRule(a, version, absent) == LengthRule(b, version, absent)
  {
  }

  /** A planned representation has sound framing fields, and the length rule reads the planned
      mode from them: the validator never fails on framing, and never disagrees. */
  lemma RepresentationAgrees(headers: HeaderMap, version: Version, meta: BodyMetadata)
    requires meta.size.Valid() && PlanRepresentation(headers, version, meta).1.Ok?
    ensures var (h, mode) := PlanRepresentation(headers, version, meta);
      LengthRule(h, version, UntilClose) == Ok(mode.value)
  {
    hide SetExactLength, SetChunked, ContentLengthOf, TransferEncodingOf;
    if ExactWithoutTrailers(meta) {
      ExactLengthIsFixed(headers, meta.size.lower);
    } else if version == Http11 {
      ChunkedIsChunked(headers);
    } else {
      ContentLengthMeaning(headers, 0);
      TransferEncodingMeaning(headers);
    }
  }

  lemma RequestPlanAgrees(headers: HeaderMap, version: Version, meta: BodyMetadata)
    requires meta.size.Valid() && PlanRequest(headers, version, meta).1.Ok?
    ensures var (h, mode) := PlanRequest(headers, version, meta);
      LengthRule(h, version, NoBody) == Ok(mode.value)
  {
    hide SetExactLength, SetChunked, ContentLengthOf, TransferEncodingOf;
    if ExactWithoutTrailers(meta) {
      ExactLengthIsFixed(headers, meta.size.lower);
    } else {
      ChunkedIsChunked(headers);
    }
  }

  /** Sender and receiver choose the same request framing: whatever the headers, version, target
      and body metadata, a head that was planned and validated, by the strict local rules or by
      the recipient's, has the planned body mode. */
  lemma RequestFramingAgrees(head: RequestHead, meta: BodyMetadata, received: bool, rules: HostRules)
    requires meta.size.Valid()
    ensures var (h, mode) := PlanRequest(head.headers, head.version, meta);
      var valid := ValidateRequest(head.(headers := h), received, rules);
      mode.Ok? && valid.Ok? ==> valid.value.body == mode.value
  {
    hide LengthRule, PlanRequest, HostFault, UpgradeIntent, ExpectationOf, ConnectionOptions;
    var (h, mode) := PlanRequest(head.headers, head.version, meta);
    if mode.Ok? {
      RequestPlanAgrees(head.headers, head.version, meta);
      var planned := head.(headers := h);
      var normal := NormalizeHost(h, head.target, rules);
      if normal.Ok? {
        GetAllInsert(h, Host, head.target.authority.value, ContentLength);
        GetAllInsert(h, Host, head.target.authority.value, TransferEncoding);
        LengthRuleLocal(normal.value, h, head.version, NoBody);
      }
    }
  }

  /** Sender and receiver choose the same response framing. A body that runs until the
      connection closes is also never followed by another message. */
  lemma ResponseFramingAgrees(head: ResponseHead, meta: BodyMetadata, request: Method)
    requires meta.size.Valid()
    ensures var (h, mode) := PlanResponse(head.headers, head.version, head.status, meta, request);
      var valid := ValidateResponse(head.(headers := h), request);
      mode.Ok? && valid.Ok? ==>
        valid.value.body == mode.value && (mode.value == UntilClose ==> valid.value.persistence == CloseAfter)
  {
    hide LengthRule, PlanRepresentation, SetExactLength, ConnectionOptions, UpgradeValues, Has;
    var (h, mode) := PlanResponse(head.headers, head.version, head.status, meta, request);
    if PlanRepresentation(head.headers, head.version, meta).1.Ok? {
      RepresentationAgrees(head.headers, head.version, meta);
    }
  }

  /** Once planned, a head can fail validation only for reasons other than its framing. */
  lemma PlannedResponsesHaveSoundFraming(head: ResponseHead, meta: BodyMetadata, request: Method)
    requires meta.size.Valid() && PlanResponse(head.headers, head.version, head.status, meta, request).1.Ok?
    ensures var h := PlanResponse(head.headers, head.version, head.status, meta, request).0;
      LengthRule(h, head.version, UntilClose).Ok?
  {
    hide ContentLengthOf, TransferEncodingOf, SetExactLength, SetChunked, PlanRepresentation;
    var h := PlanResponse(head.headers, head.version, head.status, meta, request).0;
    if PlanRepresentation(head.headers, head.version, meta).1.Ok? {
      RepresentationAgrees(head.headers, head.version, meta);
    }
    ContentLengthMeaning(head.headers, 0);
    TransferEncodingMeaning(head.headers);
    if SetExactLength(head.headers, 0).1.Ok? {
      ExactLengthIsFixed(head.headers, 0);
    }
  }

  /** Strict validation of a locally made request implies recipient validation, with the same result. */
  lemma StrictImpliesReceived(head: RequestHead, rules: HostRules)
    requires ValidateRequest(head, false, rules).Ok?
    ensures ValidateRequest(head, true, rules) == ValidateRequest(head, false, rules)
  {
    hide LengthRule, ConnectionOptions, HostFault, NormalizeHost, UpgradeValues, FormOf;
  }

  // ---- what a valid head is ---------------------------------------------------------

  /** Some member of the Connection field is this option, whatever its case. */
  predicate ConnectionNames(headers: HeaderMap, option: Bytes)
  {
    AnyIs(Members(GetAll(headers, Connection)).0, option)
  }

  /** The connection persists unless close is named, or, in HTTP/1.0, unless keep-alive is not. */
  predicate Persists(headers: HeaderMap, version: Version)
  {
    !ConnectionNames(headers, CLOSE) && (version == Http10 ==> ConnectionNames(headers, KEEP_ALIVE))
  }

  lemma SomeMember(values: seq<Bytes>)
    requires Members(values).1
    ensures Members(values).0 == [] <==> values == []
  {
  }

  /** A valid request, in terms of the fields as they were received: its persistence, expectation
      and upgrade, the framing it can have, and the one Host it ends up with. */
  lemma ValidRequestMeaning(head: RequestHead, received: bool, rules: HostRules)
    requires ValidateRequest(head, received, rules).Ok?
    ensures var v := ValidateRequest(head, received, rules).value;
      && (v.persistence == Reusable <==> Persists(head.headers, head.version))
      && (v.expectation == ContinueExpected <==> head.version == Http11 && Has(head.headers, Expect))
      && (v.upgrade == Some(Tunnel) <==> head.verb == ConnectMethod)
      && (v.upgrade == Some(Protocol) ==>
            head.version == Http11 && Has(head.headers, Upgrade) && Persists(head.headers, Http11))
      && (v.body == ChunkedBody <==> Has(head.headers, TransferEncoding)) && v.body != UntilClose
      && (v.body == ChunkedBody ==> head.version == Http11 && !Has(head.headers, ContentLength))
      && (v.form == Absolute ==>
            head.target.authority.Some? && GetAll(v.head.headers, Host) == [head.target.authority.value])
      && (head.version == Http11 ==> |GetAll(v.head.headers, Host)| == 1)
      && (forall name :: name != Host ==> GetAll(v.head.headers, name) == GetAll(head.headers, name))
  {
    hide ValidateRequest, ConnectionListed, ConnectionNames, ExpectationsListed, ProtocolsListed, IsChunked, CodingParameters, Trim,
         AllDenote;
    var v := ValidateRequest(head, received, rules).value;
    RequestVerdict(head, received, rules, v);
    if v.form == Absolute {
      forall name ensures GetAll(v.head.headers, name)
                       == if name == Host then [head.target.authority.value] else GetAll(head.headers, name) {
        GetAllInsert(head.headers, Host, head.target.authority.value, name);
      }
    }
  }

  /** Where the framing fields parse, they are found exactly when they are there. */
  lemma FieldsPresent(headers: HeaderMap)
    ensures ContentLengthOf(headers).Ok? ==> (ContentLengthOf(headers).value.Some? <==> Has(headers, ContentLength))
    ensures TransferEncodingOf(headers).Ok? ==> (TransferEncodingOf(headers).value <==> Has(headers, TransferEncoding))
  {
    hide ContentLengthOf, TransferEncodingOf;
    ContentLengthMeaning(headers, 0);
    TransferEncodingMeaning(headers);
  }

  /** A valid response: when it persists, when it switches, and which framing it can have. */
  lemma ValidResponseMeaning(head: ResponseHead, request: Method)
    requires ValidateResponse(head, request).Ok?
    ensures var v := ValidateResponse(head, request).value;
      && v.head == head
      && (v.persistence == Reusable <==> Persists(head.headers, head.version) && v.body != UntilClose)
      && (v.upgrade == Some(Protocol) <==> head.status == SWITCHING_PROTOCOLS)
      && (v.upgrade == Some(Tunnel) <==> request == ConnectMethod && Success(head.status))
      && (v.upgrade == Some(Protocol) ==> head.version == Http11 && Has(head.headers, Upgrade) && Persists(head.headers, Http11))
      && (v.body == NoBody <==> v.upgrade.Some? || Bodiless(head.status, request))
      && (v.body == UntilClose ==> !Has(head.headers, ContentLength) && !Has(head.headers, TransferEncoding))
      && (v.body == ChunkedBody ==> head.version == Http11 && !Has(head.headers, ContentLength))
      && (v.body.FixedLength? ==> Has(head.headers, ContentLength) && !Has(head.headers, TransferEncoding))
  {
    hide AnyIs, IsProtocol, Members, ContentLengthOf, TransferEncodingOf;
    if Members(GetAll(head.headers, Upgrade)).1 { SomeMember(GetAll(head.headers, Upgrade)); }
    FieldsPresent(head.headers);
  }

  // ---- exactly which heads are valid ------------------------------------------------

  predicate DeclaresLength(headers: HeaderMap, n: nat)
  {
    var values := GetAll(headers, ContentLength);
    values != [] && Members(values).1 && AllDenote(Members(values).0, n)
  }

  /** Over all Transfer-Encoding lines there is one member, a bare chunked. */
  predicate DeclaresChunked(headers: HeaderMap)
  {
    var (members, ok) := Members(GetAll(headers, TransferEncoding));
    ok && |members| == 1 && IsChunked(members[0]) && CodingParameters(members[0]) == []
  }

  /** The framing the two length fields declare; `absent` is the framing without either. */
  predicate FramedAs(headers: HeaderMap, version: Version, absent: BodyMode, mode: BodyMode)
  {
    match mode
    case FixedLength(n) => DeclaresLength(headers, n) && !Has(headers, TransferEncoding)
    case ChunkedBody => version == Http11 && DeclaresChunked(headers) && !Has(headers, ContentLength)
    case _ => mode == absent && !Has(headers, ContentLength) && !Has(headers, TransferEncoding)
  }

  lemma LengthRuleMeaning(headers: HeaderMap, version: Version, absent: BodyMode, mode: BodyMode)
    requires absent == NoBody || absent == UntilClose
    ensures LengthRule(headers, version, absent) == Ok(mode) <==> FramedAs(headers, version, absent, mode)
  {
    hide ContentLengthOf, TransferEncodingOf, Members, AllDenote, IsChunked, CodingParameters;
    ContentLengthMeaning(headers, if mode.FixedLength? then mode.length else 0);
    TransferEncodingMeaning(headers);
    FieldsPresent(headers);
  }

  predicate ConnectionListed(headers: HeaderMap)
  {
    var (members, ok) := Members(GetAll(headers, Connection));
    ok && forall i :: 0 <= i < |members| ==> IsToken(Trim(members[i]))
  }

  predicate ProtocolsListed(headers: HeaderMap)
  {
    var (members, ok) := Members(GetAll(headers, Upgrade));
    ok && forall i :: 0 <= i < |members| ==> IsProtocol(members[i])
  }

  /** Only 100-continue may be expected, of a recipient that knows or may ignore it. */
  predicate ExpectationsListed(headers: HeaderMap, version: Version, received: bool)
  {
    var (members, ok) := Members(GetAll(headers, Expect));
    && ok && (forall i :: 0 <= i < |members| ==> EqIgnoreCase(Trim(members[i]), CONTINUE_100))
    && (Has(headers, Expect) ==> version == Http11 || (version == Http10 && received))
  }

  lemma OptionsMeaning(headers: HeaderMap, version: Version)
    ensures ConnectionOptions(headers).Ok? <==> ConnectionListed(headers)
    ensures ConnectionOptions(headers).Ok? ==>
      var o := ConnectionOptions(headers).value;
      && (o.close <==> ConnectionNames(headers, CLOSE)) && (o.upgrade <==> ConnectionNames(headers, UPGRADE))
      && (PersistenceOf(version, o) == Reusable <==> Persists(headers, version))
  {
    hide AnyIs, IsToken, Trim, Members;
  }

  lemma ProtocolsMeaning(headers: HeaderMap)
    ensures UpgradeValues(headers).Ok? <==> ProtocolsListed(headers)
    ensures UpgradeValues(headers).Ok? ==> (UpgradeValues(headers).value <==> Has(headers, Upgrade))
  {
    hide IsProtocol, Members;
    var values := GetAll(headers, Upgrade);
    if Members(values).1 { SomeMember(values); }
  }

  lemma ExpectationMeaning(headers: HeaderMap, version: Version, received: bool)
    ensures ExpectationOf(headers, version, received).Ok? <==> ExpectationsListed(headers, version, received)
    ensures ExpectationOf(headers, version, received).Ok? ==>
      (ExpectationOf(headers, version, received).value == ContinueExpected <==> version == Http11 && Has(headers, Expect))
  {
    hide EqIgnoreCase, Trim, Members;
    var values := GetAll(headers, Expect);
    if Members(values).1 { SomeMember(values); }
  }

  /** The responses without a body by their status or by the request they answer. */
  predicate NeverHasBody(status: nat, request: Method)
  {
    || request == HeadMethod || status / 100 == 1 || status in {204, 205, 304}
    || (request == ConnectMethod && status / 100 == 2)
  }

  /** A response switches protocols with 101, which must be HTTP/1.1, name upgrade without
      close, and say to what. */
  predicate SwitchesSoundly(head: ResponseHead)
  {
    head.status == 101 ==>
      && head.version == Http11 && ConnectionNames(head.headers, UPGRADE) && !ConnectionNames(head.headers, CLOSE)
      && ProtocolsListed(head.headers) && Has(head.headers, Upgrade)
  }

  predicate ResponseReads(head: ResponseHead, request: Method, v: ValidResponse)
  {
    && v.head == head && head.status <= 599 && ConnectionListed(head.headers) && SwitchesSoundly(head)
    && v.upgrade == (if head.status == 101 then Some(Protocol)
                     else if request == ConnectMethod && head.status / 100 == 2 then Some(Tunnel) else None)
    && (if NeverHasBody(head.status, request) then v.body == NoBody
        else FramedAs(head.headers, head.version, UntilClose, v.body))
    && (v.persistence == Reusable <==> Persists(head.headers, head.version) && v.body != UntilClose)
  }

  /** Exactly which responses are valid, and as what, by status, request and fields alone. */
  lemma ResponseVerdict(head: ResponseHead, request: Method, v: ValidResponse)
    ensures ValidateResponse(head, request) == Ok(v) <==> ResponseReads(head, request, v)
  {
    hide LengthRule, FramedAs, ConnectionOptions, ConnectionListed, ConnectionNames, Persists, PersistenceOf,
         UpgradeValues, ProtocolsListed, Has;
    OptionsMeaning(head.headers, head.version);
    ProtocolsMeaning(head.headers);
    LengthRuleMeaning(head.headers, head.version, UntilClose, v.body);
  }

  /** A response with both framing fields in good order has no length: it is refused as ambiguous. */
  lemma BothLengthsAreAmbiguous(head: ResponseHead, request: Method, n: nat)
    requires head.status <= 599 && ConnectionListed(head.headers) && !NeverHasBody(head.status, request)
    requires DeclaresLength(head.headers, n) && DeclaresChunked(head.headers)
    ensures ValidateResponse(head, request) == Err(AmbiguousMessageLength)
  {
    hide ContentLengthOf, TransferEncodingOf, Members, AllDenote, IsChunked, CodingParameters,
         ConnectionOptions, ConnectionListed;
    OptionsMeaning(head.headers, head.version);
    ContentLengthMeaning(head.headers, n);
    TransferEncodingMeaning(head.headers);
  }

  /** The form of a target: CONNECT takes an authority with a port and nothing else does;
      only OPTIONS takes the asterisk. */
  predicate HasForm(verb: Method, t: Target, form: TargetForm)
  {
    match form
    case Asterisk => verb == OptionsMethod && !t.scheme && t.authority.None? && t.starPath
    case Absolute => verb != ConnectMethod && t.scheme && t.authority.Some?
    case Authority => verb == ConnectMethod && !t.scheme && t.authority.Some? && t.port && !t.pathAndQuery
    case Origin => verb != ConnectMethod && !t.scheme && t.authority.None? && t.slashPath && !t.starPath
  }

  lemma FormMeaning(verb: Method, t: Target, form: TargetForm)
    ensures FormOf(verb, t) == Ok(form) <==> HasForm(verb, t, form)
  {
  }

  /** One Host at most, one at least in HTTP/1.1, and a single authority without user information. */
  predicate HostSound(headers: HeaderMap, version: Version, rules: HostRules)
  {
    var values := GetAll(headers, Host);
    && |values| <= 1 && (version == Http11 ==> |values| == 1)
    && forall i :: 0 <= i < |values| ==>
         var text := Trim(values[i]); text != [] && COMMA !in text && AT_SIGN !in text && rules.parses(text)
  }

  lemma HostMeaning(headers: HeaderMap, version: Version, rules: HostRules)
    ensures HostFault(headers, version, rules).None? <==> HostSound(headers, version, rules)
  {
    hide Trim;
    var values := GetAll(headers, Host);
    if HostSound(headers, version, rules) && |values| == 1 {
      assert Trim(values[0]) != [];
    }
  }

  /** The Host of a valid request: the authority of an absolute target replaces what was sent. */
  predicate HostAdopted(head: RequestHead, form: TargetForm, rules: HostRules, final: HeaderMap)
  {
    if form != Absolute then final == head.headers
    else
      && head.target.authority.Some? && AT_SIGN !in head.target.authority.value
      && rules.storable(head.target.authority.value)
      && final == Without(head.headers, Host) + [Field(Host, head.target.authority.value)]
  }

  /** Protocol upgrade is offered by Upgrade and Connection together, in HTTP/1.1 and without
      close; a recipient ignores it in HTTP/1.0, and a tunnel never looks. */
  predicate UpgradeRead(head: RequestHead, received: bool, form: TargetForm, upgrade: Option<UpgradeKind>)
  {
    if form == Authority then upgrade == Some(Tunnel)
    else if received && head.version == Http10 then upgrade == None
    else
      && ProtocolsListed(head.headers)
      && (ConnectionNames(head.headers, UPGRADE) <==> Has(head.headers, Upgrade))
      && (Has(head.headers, Upgrade) ==> head.version == Http11 && !ConnectionNames(head.headers, CLOSE))
      && upgrade == if Has(head.headers, Upgrade) then Some(Protocol) else None
  }

  predicate RequestReads(head: RequestHead, received: bool, rules: HostRules, v: ValidRequest)
  {
    && v.head == head.(headers := v.head.headers) && HostAdopted(head, v.form, rules, v.head.headers)
    && HasForm(head.verb, head.target, v.form) && HostSound(head.headers, head.version, rules)
    && FramedAs(head.headers, head.version, NoBody, v.body)
    && ConnectionListed(head.headers) && (v.persistence == Reusable <==> Persists(head.headers, head.version))
    && ExpectationsListed(head.headers, head.version, received)
    && (v.expectation == ContinueExpected <==> head.version == Http11 && Has(head.headers, Expect))
    && UpgradeRead(head, received, v.form, v.upgrade)
  }

  /** Replacing Host touches no other field. */
  lemma HostOnly(headers: HeaderMap, host: Bytes)
    ensures forall name :: name != Host ==> GetAll(Insert(headers, Host, host), name) == GetAll(headers, name)
  {
    forall name | name != Host ensures GetAll(Insert(headers, Host, host), name) == GetAll(headers, name) {
      GetAllInsert(headers, Host, host, name);
    }
  }

  /** The field rules read no Host. */
  lemma FieldsVerdict(head: RequestHead, original: RequestHead, form: TargetForm, received: bool, v: ValidRequest)
    requires original == head.(headers := original.headers)
    requires forall name :: name != Host ==> GetAll(head.headers, name) == GetAll(original.headers, name)
    ensures ValidateFields(head, form, received) == Ok(v) <==>
      && v.head == head && v.form == form
      && FramedAs(original.headers, head.version, NoBody, v.body)
      && ConnectionListed(original.headers) && (v.persistence == Reusable <==> Persists(original.headers, head.version))
      && ExpectationsListed(original.headers, head.version, received)
      && (v.expectation == ContinueExpected <==> head.version == Http11 && Has(original.headers, Expect))
      && UpgradeRead(original, received, form, v.upgrade)
  {
    hide LengthRule, FramedAs, ConnectionOptions, ConnectionListed, ConnectionNames, Persists, PersistenceOf,
         UpgradeValues, ProtocolsListed, ExpectationOf, ExpectationsListed, Has, GetAll;
    LengthRuleMeaning(original.headers, head.version, NoBody, v.body);
    OptionsMeaning(original.headers, head.version);
    ExpectationMeaning(original.headers, head.version, received);
    ProtocolsMeaning(original.headers);
    SameFields(head.headers, original.headers, head.version, received);
  }

  lemma SameFields(a: HeaderMap, b: HeaderMap, version: Version, received: bool)
    requires forall name :: name != Host ==> GetAll(a, name) == GetAll(b, name)
    ensures LengthRule(a, version, NoBody) == LengthRule(b, version, NoBody)
    ensures ConnectionOptions(a) == ConnectionOptions(b)
    ensures ExpectationOf(a, version, received) == ExpectationOf(b, version, received)
    ensures UpgradeValues(a) == UpgradeValues(b)
  {
  }

  /** Exactly which requests are valid, and as what, by method, target and fields alone. */
  lemma RequestVerdict(head: RequestHead, received: bool, rules: HostRules, v: ValidRequest)
    ensures ValidateRequest(head, received, rules) == Ok(v) <==> RequestReads(head, received, rules, v)
  {
    hide FormOf, HasForm, HostFault, HostSound, ValidateFields, FramedAs, ConnectionListed, Persists,
         ExpectationsListed, Has, UpgradeRead, Without, GetAll;
    FormMeaning(head.verb, head.target, v.form);
    HostMeaning(head.headers, head.version, rules);
    var form := FormOf(head.verb, head.target);
    if form.Ok? {
      FormMeaning(head.verb, head.target, form.value);
      if form.value == Absolute && head.target.authority.Some? {
        HostOnly(head.headers, head.target.authority.value);
        FieldsVerdict(head.(headers := Insert(head.headers, Host, head.target.authority.value)), head,
                      form.value, received, v);
      } else {
        FieldsVerdict(head, head, form.value, received, v);
      }
    }
  }

  // ---- exactly which bodies can be planned ------------------------------------------

  /** The framing fields already there, if any, say what the planned mode will say. */
  predicate Compatible(headers: HeaderMap, mode: BodyMode)
  {
    match mode
    case FixedLength(n) => !Has(headers, TransferEncoding) && (Has(headers, ContentLength) ==> DeclaresLength(headers, n))
    case ChunkedBody => !Has(headers, ContentLength) && (Has(headers, TransferEncoding) ==> DeclaresChunked(headers))
    case _ => !Has(headers, ContentLength) && !Has(headers, TransferEncoding)
  }

  lemma DeclarationsSucceed(headers: HeaderMap, n: nat)
    ensures SetExactLength(headers, n).1.Ok? <==> Compatible(headers, FixedLength(n))
    ensures SetChunked(headers).1.Ok? <==> Compatible(headers, ChunkedBody)
  {
    hide ContentLengthOf, TransferEncodingOf, Members, AllDenote, IsChunked, CodingParameters;
    ContentLengthMeaning(headers, n);
    TransferEncodingMeaning(headers);
  }

  /** Exact bodies without trailers are sent with their length; others are chunked in HTTP/1.1 and
      end with the connection before it. */
  function NaturalMode(version: Version, meta: BodyMetadata): BodyMode
  {
    if meta.trailers == NoTrailers && meta.size.upper == Some(meta.size.lower) then FixedLength(meta.size.lower)
    else if version == Http11 then ChunkedBody else UntilClose
  }

  predicate CanRepresent(headers: HeaderMap, version: Version, meta: BodyMetadata)
  {
    var mode := NaturalMode(version, meta);
    Compatible(headers, mode) && (mode == UntilClose ==> meta.trailers == NoTrailers)
  }

  lemma RepresentationPlanned(headers: HeaderMap, version: Version, meta: BodyMetadata, mode: BodyMode)
    ensures PlanRepresentation(headers, version, meta).1 == Ok(mode)
      <==> CanRepresent(headers, version, meta) && mode == NaturalMode(version, meta)
  {
    hide SetExactLength, SetChunked, DeclaresLength, DeclaresChunked, Has;
    DeclarationsSucceed(headers, meta.size.lower);
  }

  /** Exactly which requests can be planned: a request never ends with the connection. */
  lemma RequestPlanned(headers: HeaderMap, version: Version, meta: BodyMetadata, mode: BodyMode)
    ensures PlanRequest(headers, version, meta).1 == Ok(mode) <==>
      mode == NaturalMode(version, meta) && mode != UntilClose && Compatible(headers, mode)
  {
    hide SetExactLength, SetChunked, DeclaresLength, DeclaresChunked, Has;
    DeclarationsSucceed(headers, meta.size.lower);
  }

  /** Exactly which responses can be planned, and with which framing: where a body is forbidden the
      body must be empty and, but for 205, no framing field may be there; HEAD and 304 keep the
      fields of the body they leave out. */
  lemma ResponsePlanned(headers: HeaderMap, version: Version, status: nat, meta: BodyMetadata, request: Method,
                        mode: BodyMode)
    ensures PlanResponse(headers, version, status, meta, request).1 == Ok(mode) <==>
      var empty := meta == BodyMetadata(SizeHint(0, Some(0)), NoTrailers);
      if (request == ConnectMethod && status / 100 == 2) || status / 100 == 1 || status == 204 then
        empty && Compatible(headers, NoBody) && mode == NoBody
      else if request == HeadMethod || status == 304 then CanRepresent(headers, version, meta) && mode == NoBody
      else if status == 205 then empty && Compatible(headers, FixedLength(0)) && mode == NoBody
      else CanRepresent(headers, version, meta) && mode == NaturalMode(version, meta)
  {
    hide SetExactLength, SetChunked, DeclaresLength, DeclaresChunked, PlanRepresentation, CanRepresent, NaturalMode;
    RepresentationPlanned(headers, version, meta, mode);
    var p := PlanRepresentation(headers, version, meta).1;
    if p.Ok? { RepresentationPlanned(headers, version, meta, p.value); }
    RepresentationPlanned(headers, version, meta, NaturalMode(version, meta));
    DeclarationsSucceed(headers, 0);
  }
}
