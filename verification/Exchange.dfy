/** One client exchange: which response heads are accepted, how they are read off the wire,
    and what the two settled directions amount to. */
module Exchange {
  import opened Prelude
  import opened Syntax
  import opened ChunkGrammar
  import opened LengthFields
  import opened Framing
  import HeadScan
  import RecvBuffer
  import Receiving
  import Transmission

  datatype Fault =
    | Canceled
    | LateHead
    | WrongUpgrade
    | TooManyInformational
    | NoFinalHead
    | BadHead(error: HeadError)
    | HeadTooLong
    | ConnectionEnded(clean: bool)
    | Unsolicited
    | Receiving(cause: RecvBuffer.RecvError)
    | BodyFault(why: Receiving.Cause)
    | Uploading(fault: Transmission.SendFault)
    | Foreign(code: nat)

  datatype Phase = AwaitingHead | FinalHead | Upgrading(kind: UpgradeKind)

  datatype HeadAction = InterimHead | FinalResponse | UpgradeResponse(kind: UpgradeKind)

  datatype ActivityEnd = Completed | Retired

  datatype Disposition = Reuse | Close | Handoff(kind: UpgradeKind)

  /** Message policy for one exchange. */
  datatype Policy = Policy(phase: Phase, persistence: Persistence, verb: Method, upgrade: Option<UpgradeKind>,
                           offered: seq<Bytes>, informational: nat, maxInformational: nat)

  function NewPolicy(request: ValidRequest, maxInformational: nat): Policy
  {
    Policy(AwaitingHead, request.persistence, request.head.verb, request.upgrade,
           if request.upgrade == Some(Protocol) then GetAll(request.head.headers, Upgrade) else [],
           0, maxInformational)
  }

  /** The comma-separated parts of a value, with surrounding space removed. */
  function Parts(value: Bytes): seq<Bytes>
    decreases |value|
  {
    var i := Find(value, COMMA);
    if i == |value| then [Trim(value)] else [Trim(value[..i])] + Parts(value[i + 1..])
  }

  function AllParts(values: seq<Bytes>): seq<Bytes>
  {
    if values == [] then [] else Parts(values[0]) + AllParts(values[1..])
  }

  predicate OfferedOne(offered: seq<Bytes>, part: Bytes)
  {
    exists k :: 0 <= k < |offered| && EqIgnoreCase(offered[k], part)
  }

  /** Every selected protocol was offered, and there is at least one. */
  predicate ProtocolsMatch(offered: seq<Bytes>, selected: HeaderMap)
  {
    var parts := AllParts(GetAll(selected, Upgrade));
    parts != [] && forall i :: 0 <= i < |parts| ==> parts[i] != [] && OfferedOne(AllParts(offered), parts[i])
  }

  predicate AgreedUpgrade(p: Policy, head: ValidResponse)
    requires head.upgrade.Some?
  {
    p.upgrade == head.upgrade && (head.upgrade == Some(Protocol) ==> ProtocolsMatch(p.offered, head.head.headers))
  }

  function ReceiveHead(p: Policy, head: ResponseHead): (r: (Policy, Result<(ValidResponse, HeadAction), Fault>))
    ensures r.1.Err? ==> r.0 == p && (r.1.error.BadHead? || r.1.error in {LateHead, WrongUpgrade, TooManyInformational})
  {
    if p.phase != AwaitingHead then (p, Err(LateHead))
    else
      var valid := ValidateResponse(head, p.verb);
      if valid.Err? then (p, Err(BadHead(valid.error)))
      else
        var v := valid.value;
        if v.upgrade.Some? then
          if AgreedUpgrade(p, v) then
            (p.(phase := Upgrading(v.upgrade.value)), Ok((v, UpgradeResponse(v.upgrade.value))))
          else (p, Err(WrongUpgrade))
        else if Informational(v.head.status) then
          if p.informational == p.maxInformational then (p, Err(TooManyInformational))
          else (p.(informational := p.informational + 1), Ok((v, InterimHead)))
        else
          (p.(phase := FinalHead, persistence := if v.persistence == CloseAfter then CloseAfter else p.persistence),
           Ok((v, FinalResponse)))
  }

  /** The server's own choice of head, checked before any byte of it is written. */
  function SentResponse(p: Policy, head: ValidResponse): (Policy, Result<(), Fault>)
  {
    if head.upgrade.Some? then
      if p.phase != AwaitingHead || !AgreedUpgrade(p, head) then (p, Err(WrongUpgrade))
      else (p.(phase := Upgrading(head.upgrade.value)), Ok(()))
    else if p.phase != AwaitingHead then (p, Err(LateHead))
    else (p.(phase := FinalHead, persistence := if head.persistence == CloseAfter then CloseAfter else p.persistence), Ok(()))
  }

  function Finish(p: Policy, request: ActivityEnd, response: ActivityEnd): Result<Disposition, Fault>
  {
    if request == Retired || response == Retired then Ok(Close)
    else
      match p.phase
      case AwaitingHead => Err(NoFinalHead)
      case Upgrading(kind) => Ok(Handoff(kind))
      case FinalHead => Ok(if p.persistence == Reusable then Reuse else Close)
  }

  class ExchangePolicy {
    var phase: Phase
    var persistence: Persistence
    const verb: Method
    const upgrade: Option<UpgradeKind>
    const offered: seq<Bytes>
    var informational: nat
    const maxInformational: nat

    constructor (request: ValidRequest, maxInformational: nat)
      ensures View() == NewPolicy(request, maxInformational)
    {
      phase, persistence, informational := AwaitingHead, request.persistence, 0;
      verb, upgrade := request.head.verb, request.upgrade;
      offered := if request.upgrade == Some(Protocol) then GetAll(request.head.headers, Upgrade) else [];
      this.maxInformational := maxInformational;
    }

    function View(): Policy
      reads this
    {
      Policy(phase, persistence, verb, upgrade, offered, informational, maxInformational)
    }

    /** Validate a peer head in the context of its request. */
    method Receive(head: ResponseHead) returns (r: Result<(ValidResponse, HeadAction), Fault>)
      modifies this
      ensures (View(), r) == ReceiveHead(old(View()), head)
    {
      hide ValidateResponse, ProtocolsMatch;
      if phase != AwaitingHead { return Err(LateHead); }
      var valid := ValidateResponse(head, verb);
      if valid.Err? { return Err(BadHead(valid.error)); }
      var v := valid.value;
      if v.upgrade.Some? {
        if upgrade != v.upgrade || (v.upgrade == Some(Protocol) && !ProtocolsMatch(offered, v.head.headers)) {
          return Err(WrongUpgrade);
        }
        phase := Upgrading(v.upgrade.value);
        return Ok((v, UpgradeResponse(v.upgrade.value)));
      }
      if Informational(v.head.status) {
        if informational == maxInformational { return Err(TooManyInformational); }
        informational := informational + 1;
        return Ok((v, InterimHead));
      }
      phase := FinalHead;
      if v.persistence == CloseAfter { persistence := CloseAfter; }
      return Ok((v, FinalResponse));
    }

    method Sent(head: ValidResponse) returns (r: Result<(), Fault>)
      modifies this
      ensures (View(), r) == SentResponse(old(View()), head)
    {
      hide ProtocolsMatch;
      if head.upgrade.Some? {
        if phase != AwaitingHead || upgrade != head.upgrade
           || (head.upgrade == Some(Protocol) && !ProtocolsMatch(offered, head.head.headers)) {
          return Err(WrongUpgrade);
        }
        phase := Upgrading(head.upgrade.value);
        return Ok(());
      }
      if phase != AwaitingHead { return Err(LateHead); }
      phase := FinalHead;
      if head.persistence == CloseAfter { persistence := CloseAfter; }
      return Ok(());
    }

    method CloseAfterExchange()
      modifies this
      ensures View() == old(View()).(persistence := CloseAfter)
    {
      persistence := CloseAfter;
    }
  }

  // ---- which sequences of heads an exchange accepts ---------------------------------

  function ReceiveAll(p: Policy, heads: seq<ResponseHead>): Result<Policy, Fault>
  {
    if heads == [] then Ok(p)
    else
      var before := ReceiveAll(p, heads[..|heads| - 1]);
      if before.Err? then before
      else
        var (p', r) := ReceiveHead(before.value, heads[|heads| - 1]);
        if r.Err? then Err(r.error) else Ok(p')
  }

  predicate Interim(request: ValidRequest, head: ResponseHead)
  {
    var v := ValidateResponse(head, request.head.verb);
    v.Ok? && v.value.upgrade.None? && Informational(v.value.head.status)
  }

  predicate Final(request: ValidRequest, head: ResponseHead)
  {
    var v := ValidateResponse(head, request.head.verb);
    v.Ok? && v.value.upgrade.None? && !Informational(v.value.head.status)
  }

  predicate Switching(request: ValidRequest, head: ResponseHead)
  {
    var v := ValidateResponse(head, request.head.verb);
    v.Ok? && v.value.upgrade.Some? && AgreedUpgrade(NewPolicy(request, 0), v.value)
  }

  /** At most `max` interim heads, and after them at most one head that ends the wait. */
  predicate HeadsInOrder(request: ValidRequest, max: nat, heads: seq<ResponseHead>)
  {
    && (forall i :: 0 <= i < |heads| - 1 ==> Interim(request, heads[i]))
    && if heads == [] then true
       else
         var last := heads[|heads| - 1];
         if Interim(request, last) then |heads| <= max
         else (Final(request, last) || Switching(request, last)) && |heads| - 1 <= max
  }

  /** The policy that a sequence of heads in order leads to. */
  function PolicyAfter(request: ValidRequest, max: nat, heads: seq<ResponseHead>): Policy
  {
    var p := NewPolicy(request, max);
    if heads == [] || Interim(request, heads[|heads| - 1]) then p.(informational := |heads|)
    else
      var v := ValidateResponse(heads[|heads| - 1], request.head.verb);
      var n := |heads| - 1;
      if v.Err? then p
      else if v.value.upgrade.Some? then p.(informational := n, phase := Upgrading(v.value.upgrade.value))
      else p.(informational := n, phase := FinalHead,
              persistence := if v.value.persistence == CloseAfter then CloseAfter else request.persistence)
  }

  /** An exchange accepts exactly the head sequences in order, and its policy records them. */
  lemma {:induction false} HeadSequences(request: ValidRequest, max: nat, heads: seq<ResponseHead>)
    ensures var r := ReceiveAll(NewPolicy(request, max), heads);
      && (r.Ok? <==> HeadsInOrder(request, max, heads))
      && (r.Ok? ==> r.value == PolicyAfter(request, max, heads))
  {
    hide ValidateResponse, ProtocolsMatch;
    if heads != [] {
      var n := |heads| - 1;
      var front := heads[..n];
      HeadSequences(request, max, front);
      assert forall i :: 0 <= i < n ==> front[i] == heads[i];
      if n > 0 {
        assert front[n - 1] == heads[n - 1];
        assert HeadsInOrder(request, max, heads) ==> Interim(request, heads[n - 1]);
      }
    }
  }

  /** Reuse is reached exactly when one final head came after at most `max` interim heads and
      neither the request nor that head requires the connection to close. */
  lemma ReuseMeaning(request: ValidRequest, max: nat, heads: seq<ResponseHead>)
    requires ReceiveAll(NewPolicy(request, max), heads).Ok?
    ensures var p := ReceiveAll(NewPolicy(request, max), heads).value;
      Finish(p, Completed, Completed) == Ok(Reuse) <==>
        && heads != [] && |heads| - 1 <= max
        && (forall i :: 0 <= i < |heads| - 1 ==> Interim(request, heads[i]))
        && Final(request, heads[|heads| - 1])
        && request.persistence == Reusable
        && ValidateResponse(heads[|heads| - 1], request.head.verb).value.persistence == Reusable
  {
    hide ValidateResponse, ReceiveAll, ProtocolsMatch;
    HeadSequences(request, max, heads);
  }

  /** The server's side: its head is accepted exactly when it comes first and any upgrade in it answers
      the request's own offer; and then the connection is handed off for the upgrade, or is reused if
      neither side asks to close. */
  lemma SentMeaning(request: ValidRequest, max: nat, head: ValidResponse, another: ValidResponse)
    ensures var (p, r) := SentResponse(NewPolicy(request, max), head);
      && (r.Ok? <==>
            head.upgrade.None? || (head.upgrade == Some(Tunnel) && request.upgrade == Some(Tunnel))
            || (head.upgrade == Some(Protocol) && request.upgrade == Some(Protocol)
                && ProtocolsMatch(GetAll(request.head.headers, Upgrade), head.head.headers)))
      && (r.Ok? ==>
            && SentResponse(p, another).1.Err?
            && Finish(p, Completed, Completed)
               == Ok(if head.upgrade.Some? then Handoff(head.upgrade.value)
                     else if request.persistence == Reusable && head.persistence == Reusable then Reuse else Close))
      && (r.Err? ==> p == NewPolicy(request, max) && r.error == WrongUpgrade)
  {
    hide ProtocolsMatch;
    assert head.upgrade.Some? ==> head.upgrade.value.Protocol? || head.upgrade.value.Tunnel?;
  }

  /** The parts of a value are the pieces between its commas, without surrounding space. */
  lemma {:induction false} PartsMeaning(pieces: seq<Bytes>)
    requires pieces != [] && forall i :: 0 <= i < |pieces| ==> COMMA !in pieces[i]
    ensures var parts := Parts(JoinCommas(pieces));
      |parts| == |pieces| && forall i :: 0 <= i < |pieces| ==> parts[i] == Trim(pieces[i])
  {
    hide Trim;
    var value := JoinCommas(pieces);
    if |pieces| == 1 {
      assert Find(value, COMMA) == |value|;
    } else {
      var rest := JoinCommas(pieces[1..]);
      PartsMeaning(pieces[1..]);
      assert value == pieces[0] + [COMMA] + rest;
      assert value[|pieces[0]|] == COMMA && forall j :: 0 <= j < |pieces[0]| ==> value[j] == pieces[0][j];
      assert Find(value, COMMA) == |pieces[0]|;
      assert value[..|pieces[0]|] == pieces[0] && value[|pieces[0]| + 1..] == rest;
    }
  }

  // ---- reading heads off the wire ---------------------------------------------------

  /** How a delimited block becomes a head: the byte limit and the foreign parser. */
  datatype HeadRules = HeadRules(maxBytes: nat, parse: Bytes -> Result<ResponseHead, HeadError>)

  datatype Reading =
    | Waiting(policy: Policy, rest: Bytes, interim: seq<ValidResponse>)
    | Found(policy: Policy, head: ValidResponse, rest: Bytes, interim: seq<ValidResponse>)
    | Unreadable(fault: Fault, interim: seq<ValidResponse>)

  function After(first: seq<ValidResponse>, r: Reading): Reading
  {
    match r
    case Waiting(p, rest, interim) => Waiting(p, rest, first + interim)
    case Found(p, head, rest, interim) => Found(p, head, rest, first + interim)
    case Unreadable(fault, interim) => Unreadable(fault, first + interim)
  }

  /** The heads at the front of `w`, read in one piece: interim heads, then the deciding one. */
  function ReadHeads(rules: HeadRules, p: Policy, w: Bytes): Reading
    decreases |w|
  {
    match HeadScan.OneScan(w, rules.maxBytes)
    case MoreInput => Waiting(p, w, [])
    case TooLong => Unreadable(HeadTooLong, [])
    case Head(n) =>
      var parsed := rules.parse(w[..n]);
      if parsed.Err? then Unreadable(BadHead(parsed.error), [])
      else
        var (p', r) := ReceiveHead(p, parsed.value);
        if r.Err? then Unreadable(r.error, [])
        else if r.value.1 == InterimHead then After([r.value.0], ReadHeads(rules, p', w[n..]))
        else Found(p', r.value.0, w[n..], [])
  }

  lemma AfterAfter(a: seq<ValidResponse>, b: seq<ValidResponse>, r: Reading)
    ensures After(a, After(b, r)) == After(a + b, r)
  {
    assert a + (b + r.interim) == a + b + r.interim;
  }

  /** One complete head at the front, whatever follows it. */
  lemma HeadStep(rules: HeadRules, p: Policy, w: Bytes, n: nat, more: Bytes)
    requires HeadScan.OneScan(w, rules.maxBytes) == HeadScan.Head(n)
    ensures 0 < n <= |w| && n <= rules.maxBytes
    ensures ReadHeads(rules, p, w + more) ==
      var parsed := rules.parse(w[..n]);
      if parsed.Err? then Unreadable(BadHead(parsed.error), [])
      else
        var (p', r) := ReceiveHead(p, parsed.value);
        if r.Err? then Unreadable(r.error, [])
        else if r.value.1 == InterimHead then After([r.value.0], ReadHeads(rules, p', w[n..] + more))
        else Found(p', r.value.0, w[n..] + more, [])
  {
    hide ReceiveHead, HeadScan.FirstEnd, HeadScan.OneScan, HeadScan.HeadEnd, After;
    HeadScan.AnswersAreFinal(w, more, rules.maxBytes);
    HeadScan.AnswerMeaning(w, rules.maxBytes);
    assert (w + more)[..n] == w[..n] && (w + more)[n..] == w[n..] + more;
  }

  lemma {:induction false} ReceiveFirst(p: Policy, heads: seq<ResponseHead>)
    requires heads != [] && ReceiveHead(p, heads[0]).1.Ok?
    ensures ReceiveAll(p, heads) == ReceiveAll(ReceiveHead(p, heads[0]).0, heads[1..])
  {
    hide ReceiveHead;
    var n := |heads| - 1;
    if n == 0 {
      assert heads[..0] == [] && heads[1..] == [];
      assert ReceiveAll(p, []) == Ok(p);
    } else {
      ReceiveFirst(p, heads[..n]);
      assert heads[1..][..n - 1] == heads[..n][1..] && heads[1..][n - 1] == heads[n];
    }
  }

  /** What a completed reading consumed: the blocks of the interim heads and of the deciding head,
      back to back, each parsed on its own and accepted in turn by the policy. */
  lemma {:induction false} FoundHeads(rules: HeadRules, p: Policy, w: Bytes) returns (blocks: seq<Bytes>, heads: seq<ResponseHead>)
    requires ReadHeads(rules, p, w).Found?
    ensures var r := ReadHeads(rules, p, w);
      && |blocks| == |heads| == |r.interim| + 1
      && w == Join(blocks) + r.rest
      && (forall i :: 0 <= i < |blocks| ==> |blocks[i]| <= rules.maxBytes && rules.parse(blocks[i]) == Ok(heads[i]))
      && ReceiveAll(p, heads) == Ok(r.policy)
      && ValidateResponse(heads[|heads| - 1], p.verb) == Ok(r.head)
    decreases |w|
  {
    hide HeadScan.OneScan, ValidateResponse, ProtocolsMatch;
    var n := HeadScan.OneScan(w, rules.maxBytes).length;
    HeadStep(rules, p, w, n, []);
    var block, head := w[..n], rules.parse(w[..n]).value;
    var (p', r) := ReceiveHead(p, head);
    assert w == block + w[n..];
    if r.value.1 == InterimHead {
      var later, others := FoundHeads(rules, p', w[n..]);
      blocks, heads := [block] + later, [head] + others;
      assert blocks[1..] == later && heads[1..] == others;
      Assoc(block, Join(later), ReadHeads(rules, p', w[n..]).rest);
      ReceiveFirst(p, heads);
    } else {
      blocks, heads := [block], [head];
      assert blocks[1..] == [] && heads[1..] == [] && block + [] == block;
      ReceiveFirst(p, heads);
      assert ReceiveAll(p', []) == Ok(p');
    }
  }

  datatype HeadsOutcome = HeadFound(head: ValidResponse) | HeadsFailed(fault: Fault) | StillReading

  function ReceiveFault(e: RecvBuffer.RecvError): Fault
  {
    if e == RecvBuffer.Canceled then Canceled else Receiving(e)
  }

  predicate LastIs(answers: seq<RecvBuffer.ReadAnswer>, answer: RecvBuffer.ReadAnswer)
  {
    answers != [] && answers[|answers| - 1] == answer
  }

  predicate AllOffersTaken(interim: seq<ValidResponse>, taken: nat -> bool)
  {
    forall i :: 0 <= i < |interim| ==> taken(i)
  }

  /** What receiving heads comes to: given one reading of all that arrived, how the reads went, and
      which interim heads the application takes. A failed read is reported as such; otherwise an
      interim head that was reached and not taken cancels the exchange; otherwise it is what was
      read, and an input that ended too early is told from one that may go on. */
  function HeadsVerdict(r: Reading, answers: seq<RecvBuffer.ReadAnswer>, taken: nat -> bool): HeadsOutcome
  {
    if answers != [] && answers[|answers| - 1].Err? then HeadsFailed(ReceiveFault(answers[|answers| - 1].error))
    else if !AllOffersTaken(r.interim, taken) then HeadsFailed(Canceled)
    else
      match r
      case Found(_, head, _, _) => HeadFound(head)
      case Unreadable(fault, _) => HeadsFailed(fault)
      case Waiting(_, rest, _) =>
        if LastIs(answers, Ok(RecvBuffer.EndOfFile)) then HeadsFailed(ConnectionEnded(rest == [])) else StillReading
  }

  /** Every read but perhaps the last went well. */
  predicate OkBefore(answers: seq<RecvBuffer.ReadAnswer>) { forall i :: 0 <= i < |answers| - 1 ==> answers[i].Ok? }

  /** Every read brought data. */
  predicate DataOnly(answers: seq<RecvBuffer.ReadAnswer>)
  {
    forall i :: 0 <= i < |answers| ==> answers[i].Ok? && answers[i].value.DataRead?
  }

  lemma NeverVerdict(rules: HeadRules, p0: Policy, whole: Bytes, fault: Fault, delivered: seq<ValidResponse>,
                     answers: seq<RecvBuffer.ReadAnswer>, taken: nat -> bool)
    requires NeverReads(rules, p0, whole, fault, delivered) && AllOffersTaken(delivered, taken) && DataOnly(answers)
    ensures HeadsVerdict(ReadHeads(rules, p0, whole), answers, taken) == HeadsFailed(fault)
  {
    hide ReadHeads;
    assert whole + [] == whole;
  }

  lemma FoundVerdict(rules: HeadRules, p0: Policy, whole: Bytes, p: Policy, head: ValidResponse, rest: Bytes,
                     delivered: seq<ValidResponse>, answers: seq<RecvBuffer.ReadAnswer>, taken: nat -> bool)
    requires AlwaysFinds(rules, p0, whole, p, head, rest, delivered) && AllOffersTaken(delivered, taken) && DataOnly(answers)
    ensures HeadsVerdict(ReadHeads(rules, p0, whole), answers, taken) == HeadFound(head)
  {
    hide ReadHeads;
    assert whole + [] == whole;
  }

  /** A head that was reached and refused cancels, whatever lies behind it. */
  lemma RefusedVerdict(rules: HeadRules, p0: Policy, whole: Bytes, p: Policy, w: Bytes, delivered: seq<ValidResponse>,
                       head: ValidResponse, answers: seq<RecvBuffer.ReadAnswer>, taken: nat -> bool)
    requires Ahead(rules, p0, whole, p, w, delivered + [head]) && !taken(|delivered|) && DataOnly(answers)
    ensures HeadsVerdict(ReadHeads(rules, p0, whole), answers, taken) == HeadsFailed(Canceled)
  {
    hide ReadHeads;
    assert whole + [] == whole && w + [] == w;
    var r := ReadHeads(rules, p0, whole);
    assert r == After(delivered + [head], ReadHeads(rules, p, w));
    assert |r.interim| > |delivered|;
  }

  /** The reading of what had arrived before the last read, and that read's answer. */
  lemma ReadVerdict(r: Reading, whole: Reading, answers: seq<RecvBuffer.ReadAnswer>, last: RecvBuffer.ReadAnswer,
                    taken: nat -> bool)
    requires r.Waiting? && AllOffersTaken(r.interim, taken) && DataOnly(answers)
    ensures HeadsVerdict(r, answers, taken) == StillReading
    ensures last.Err? ==> HeadsVerdict(whole, answers + [last], taken) == HeadsFailed(ReceiveFault(last.error))
    ensures last == Ok(RecvBuffer.EndOfFile) ==>
      HeadsVerdict(r, answers + [last], taken) == HeadsFailed(ConnectionEnded(r.rest == []))
  {
  }

  /** What makes heads unreadable is never a cancellation, and a head that decides the exchange ends the
      wait for one. */
  lemma {:induction false} ReadingKinds(rules: HeadRules, p: Policy, w: Bytes)
    ensures var r := ReadHeads(rules, p, w);
      && (r.Unreadable? ==> IsProtocolFault(r.fault))
      && (r.Found? ==> !r.policy.phase.AwaitingHead?)
    decreases |w|
  {
    hide HeadScan.OneScan, ProtocolsMatch, ValidateResponse;
    var scan := HeadScan.OneScan(w, rules.maxBytes);
    if scan.Head? {
      var parsed := rules.parse(w[..scan.length]);
      if parsed.Ok? { ReadingKinds(rules, ReceiveHead(p, parsed.value).0, w[scan.length..]); }
    }
  }

  /** An upgrade head has no body: what follows it belongs to the new protocol. */
  lemma {:induction false} UpgradeHasNoBody(rules: HeadRules, p: Policy, w: Bytes)
    requires ReadHeads(rules, p, w).Found? && ReadHeads(rules, p, w).policy.phase.Upgrading?
    ensures ReadHeads(rules, p, w).head.body == NoBody
    decreases |w|
  {
    hide HeadScan.OneScan, ProtocolsMatch, LengthRule, ConnectionOptions, UpgradeValues;
    var n := HeadScan.OneScan(w, rules.maxBytes).length;
    HeadStep(rules, p, w, n, []);
    var (p', r) := ReceiveHead(p, rules.parse(w[..n]).value);
    if r.value.1 == InterimHead {
      UpgradeHasNoBody(rules, p', w[n..]);
    }
  }

  /** Whatever follows, reading `whole` gives `delivered` and then what reading `w` gives. */
  ghost predicate Ahead(rules: HeadRules, p0: Policy, whole: Bytes, p: Policy, w: Bytes, delivered: seq<ValidResponse>)
  {
    forall more :: ReadHeads(rules, p0, whole + more) == After(delivered, ReadHeads(rules, p, w + more))
  }

  ghost predicate NeverReads(rules: HeadRules, p0: Policy, whole: Bytes, fault: Fault, interim: seq<ValidResponse>)
  {
    forall more :: ReadHeads(rules, p0, whole + more) == Unreadable(fault, interim)
  }

  ghost predicate AlwaysFinds(rules: HeadRules, p0: Policy, whole: Bytes, p: Policy, head: ValidResponse, rest: Bytes,
                              interim: seq<ValidResponse>)
  {
    forall more :: ReadHeads(rules, p0, whole + more) == Found(p, head, rest + more, interim)
  }

  /** Take one delimited head off the buffer and put it to the policy. */
  method TakeHead(parser: HeadScan.HeadParser, buffer: RecvBuffer.Buffer, policy: ExchangePolicy, rules: HeadRules, n: nat,
                  ghost p0: Policy, ghost whole: Bytes, ghost delivered: seq<ValidResponse>)
    returns (r: Result<(ValidResponse, HeadAction), Fault>)
    requires buffer.Valid() && parser.maxBytes == rules.maxBytes
    requires HeadScan.OneScan(buffer.Contents(), rules.maxBytes) == HeadScan.Head(n)
    requires Ahead(rules, p0, whole, policy.View(), buffer.Contents(), delivered)
    modifies parser, buffer, policy
    ensures buffer.Valid() && buffer.permit == old(buffer.permit) && parser.scan == HeadScan.START
    ensures |buffer.Contents()| < |old(buffer.Contents())|
    ensures r.Err? ==> IsProtocolFault(r.error) && NeverReads(rules, p0, whole, r.error, delivered)
    ensures r.Ok? && r.value.1 == InterimHead ==>
      Ahead(rules, p0, whole, policy.View(), buffer.Contents(), delivered + [r.value.0])
    ensures r.Ok? && r.value.1 != InterimHead ==>
      AlwaysFinds(rules, p0, whole, policy.View(), r.value.0, buffer.Contents(), delivered)
  {
    hide ReadHeads, ReceiveHead, HeadScan.OneScan, HeadScan.Kept, RecvBuffer.BytesOf;
    ghost var p, w := policy.View(), buffer.Contents();
    HeadStep(rules, p, w, n, []);
    var block := buffer.TakeSharedPrefix(n);
    var parsed := parser.ParseShared(block.value, rules.parse);
    if parsed.Err? {
      r := Err(BadHead(parsed.error.error));
    } else {
      r := policy.Receive(parsed.value);
    }
    forall more ensures ReadHeads(rules, p0, whole + more) == After(delivered, AfterHead(rules, r, policy.View(), buffer.Contents() + more)) {
      HeadStep(rules, p, w, n, more);
    }
    Continued(rules, p0, whole, r, policy.View(), buffer.Contents(), delivered);
  }

  predicate IsProtocolFault(f: Fault)
  {
    !f.Canceled? && !f.Receiving? && !f.ConnectionEnded?
  }

  /** How the reading goes on once a head was put to the policy. */
  function AfterHead(rules: HeadRules, r: Result<(ValidResponse, HeadAction), Fault>, p: Policy, w: Bytes): Reading
  {
    if r.Err? then Unreadable(r.error, [])
    else if r.value.1 == InterimHead then After([r.value.0], ReadHeads(rules, p, w))
    else Found(p, r.value.0, w, [])
  }

  lemma Continued(rules: HeadRules, p0: Policy, whole: Bytes, r: Result<(ValidResponse, HeadAction), Fault>, p: Policy, w: Bytes,
                  delivered: seq<ValidResponse>)
    requires forall more :: ReadHeads(rules, p0, whole + more) == After(delivered, AfterHead(rules, r, p, w + more))
    ensures r.Err? ==> NeverReads(rules, p0, whole, r.error, delivered)
    ensures r.Ok? && r.value.1 == InterimHead ==> Ahead(rules, p0, whole, p, w, delivered + [r.value.0])
    ensures r.Ok? && r.value.1 != InterimHead ==> AlwaysFinds(rules, p0, whole, p, r.value.0, w, delivered)
  {
    hide ReadHeads;
    assert delivered + [] == delivered;
    if r.Ok? && r.value.1 == InterimHead {
      forall more ensures ReadHeads(rules, p0, whole + more) == After(delivered + [r.value.0], ReadHeads(rules, p, w + more)) {
        AfterAfter(delivered, [r.value.0], ReadHeads(rules, p, w + more));
      }
    }
  }

  /** Read response heads until one decides the exchange, offering interim heads to the
      application in order. Whatever pieces the input comes in, the heads found, the policy and
      the bytes left are those of one reading of the whole wire; and the outcome is exactly the one
      that reading, the answers to the reads and the application's conduct give. */
  method ReceiveHeads(reader: RecvBuffer.Reader, parser: HeadScan.HeadParser, buffer: RecvBuffer.Buffer, policy: ExchangePolicy,
                      rules: HeadRules, taken: nat -> bool)
    returns (outcome: HeadsOutcome, arrived: Bytes, delivered: seq<ValidResponse>, ghost answers: seq<RecvBuffer.ReadAnswer>)
    requires buffer.Valid() && parser.maxBytes == rules.maxBytes
    requires HeadScan.Kept(parser.scan, HeadScan.Bounded(buffer.Contents(), rules.maxBytes))
    modifies reader, parser, buffer, buffer.permit, policy
    ensures buffer.Valid() && (buffer.permit == old(buffer.permit) || fresh(buffer.permit))
    ensures reader.delivered == old(reader.delivered) + arrived && reader.Stream() == old(reader.Stream())
    ensures reader.answers == old(reader.answers) + answers
    ensures outcome == HeadsVerdict(ReadHeads(rules, old(policy.View()), old(buffer.Contents()) + arrived), answers, taken)
    ensures OkBefore(answers)
    ensures outcome.StillReading? ==> reader.script == []
    ensures outcome.HeadFound? ==>
      && parser.scan == HeadScan.START && AllOffersTaken(delivered, taken) && DataOnly(answers)
      && AlwaysFinds(rules, old(policy.View()), old(buffer.Contents()) + arrived,
                     policy.View(), outcome.head, buffer.Contents(), delivered)
    ensures outcome.StillReading? || (outcome.HeadsFailed? && outcome.fault.ConnectionEnded?) ==>
      ReadHeads(rules, old(policy.View()), old(buffer.Contents()) + arrived)
      == Waiting(policy.View(), buffer.Contents(), delivered)
    ensures outcome.HeadsFailed? && outcome.fault.ConnectionEnded? ==>
      (outcome.fault.clean <==> buffer.Contents() == [])
    ensures outcome.HeadsFailed? && IsProtocolFault(outcome.fault) ==>
      NeverReads(rules, old(policy.View()), old(buffer.Contents()) + arrived, outcome.fault, delivered)
  {
    hide ReadHeads, ReceiveHead, HeadScan.OneScan, HeadScan.Kept, RecvBuffer.BytesOf, Ahead, AlwaysFinds, NeverReads, HeadsVerdict,
         DataOnly, AllOffersTaken, OkBefore;
    ghost var p0, w0 := policy.View(), buffer.Contents();
    arrived, delivered, answers := [], [], [];
    assert reader.delivered + arrived == reader.delivered && reader.answers + answers == reader.answers;
    NothingRead(rules, p0, w0);
    NoneYet(taken);
    assert w0 + arrived == w0;
    while true
      invariant buffer.Valid() && (buffer.permit == old(buffer.permit) || fresh(buffer.permit))
      invariant reader.delivered == old(reader.delivered) + arrived && reader.Stream() == old(reader.Stream())
      invariant reader.answers == old(reader.answers) + answers && DataOnly(answers) && OkBefore(answers) && AllOffersTaken(delivered, taken)
      invariant HeadScan.Kept(parser.scan, HeadScan.Bounded(buffer.Contents(), rules.maxBytes))
      invariant Ahead(rules, p0, w0 + arrived, policy.View(), buffer.Contents(), delivered)
      decreases |reader.script|, |buffer.Contents()|
    {
      ghost var p, w := policy.View(), buffer.Contents();
      var answer := parser.HeadLen(buffer.Contents());
      match answer {
        case TooLong =>
          TooLongStep(rules, p0, w0 + arrived, p, w, delivered);
          NeverVerdict(rules, p0, w0 + arrived, HeadTooLong, delivered, answers, taken);
          return HeadsFailed(HeadTooLong), arrived, delivered, answers;
        case Head(n) =>
          var received := TakeHead(parser, buffer, policy, rules, n, p0, w0 + arrived, delivered);
          if received.Err? {
            NeverVerdict(rules, p0, w0 + arrived, received.error, delivered, answers, taken);
            return HeadsFailed(received.error), arrived, delivered, answers;
          }
          var (head, action) := received.value;
          if action != InterimHead {
            FoundVerdict(rules, p0, w0 + arrived, policy.View(), head, buffer.Contents(), delivered, answers, taken);
            return HeadFound(head), arrived, delivered, answers;
          }
          if !taken(|delivered|) {
            RefusedVerdict(rules, p0, w0 + arrived, policy.View(), buffer.Contents(), delivered, head, answers, taken);
            return HeadsFailed(Canceled), arrived, delivered, answers;
          }
          OneMoreTaken(delivered, head, taken);
          delivered := delivered + [head];
          HeadScan.FreshIsKept(HeadScan.Bounded(buffer.Contents(), rules.maxBytes));
        case MoreInput =>
          var stop, got, more := ReadMore(reader, buffer, rules, p0, w0 + arrived, p, delivered, old(reader.answers), answers, taken);
          Assoc(old(reader.delivered), arrived, got);
          Assoc(w0, arrived, got);
          arrived, answers := arrived + got, more;
          if stop.Some? { return stop.value, arrived, delivered, answers; }
      }
    }
  }

  /** No head is complete: read once. The wait goes on with what came, or it ends as the read did. */
  method ReadMore(reader: RecvBuffer.Reader, buffer: RecvBuffer.Buffer, ghost rules: HeadRules, ghost p0: Policy, ghost whole: Bytes,
                  ghost p: Policy, ghost delivered: seq<ValidResponse>, ghost base: seq<RecvBuffer.ReadAnswer>,
                  ghost before: seq<RecvBuffer.ReadAnswer>, ghost taken: nat -> bool)
    returns (stop: Option<HeadsOutcome>, got: Bytes, ghost answers: seq<RecvBuffer.ReadAnswer>)
    requires buffer.Valid() && HeadScan.OneScan(buffer.Contents(), rules.maxBytes) == HeadScan.MoreInput
    requires Ahead(rules, p0, whole, p, buffer.Contents(), delivered)
    requires reader.answers == base + before && DataOnly(before) && AllOffersTaken(delivered, taken)
    modifies reader, buffer, buffer.permit
    ensures buffer.Valid() && (buffer.permit == old(buffer.permit) || fresh(buffer.permit))
    ensures buffer.Contents() == old(buffer.Contents()) + got
    ensures reader.delivered == old(reader.delivered) + got && reader.Stream() == old(reader.Stream())
    ensures reader.answers == base + answers && OkBefore(answers)
    ensures stop.None? ==>
      && |reader.script| < |old(reader.script)| && DataOnly(answers)
      && Ahead(rules, p0, whole + got, p, buffer.Contents(), delivered)
    ensures stop.Some? ==>
      && stop.value == HeadsVerdict(ReadHeads(rules, p0, whole + got), answers, taken)
      && !stop.value.HeadFound? && (stop.value.StillReading? ==> reader.script == [])
      && (stop.value.HeadsFailed? ==> !IsProtocolFault(stop.value.fault))
      && (stop.value.StillReading? || (stop.value.HeadsFailed? && stop.value.fault.ConnectionEnded?) ==>
            ReadHeads(rules, p0, whole + got) == Waiting(p, buffer.Contents(), delivered))
      && (stop.value.HeadsFailed? && stop.value.fault.ConnectionEnded? ==> (stop.value.fault.clean <==> buffer.Contents() == []))
  {
    hide ReadHeads, HeadScan.OneScan, RecvBuffer.BytesOf, Ahead, HeadsVerdict, DataOnly, AllOffersTaken, OkBefore;
    ghost var w := buffer.Contents();
    NothingYet(rules, p0, p, whole, w, delivered);
    var status;
    status, got := RecvBuffer.ReadOnce(reader, buffer);
    assert w + [] == w && whole + [] == whole;
    ghost var last := if status.Some? then status.value else Err(RecvBuffer.Canceled);
    ReadVerdict(ReadHeads(rules, p0, whole), ReadHeads(rules, p0, whole + got), before, last, taken);
    OneMoreAnswer(before, last);
    if status.None? { return Some(StillReading), got, before; }
    answers := before + [last];
    assert base + before + [last] == base + answers;
    if status.value.Err? { return Some(HeadsFailed(ReceiveFault(status.value.error))), got, answers; }
    if status.value.value.EndOfFile? { return Some(HeadsFailed(ConnectionEnded(buffer.Contents() == []))), got, answers; }
    Grown(rules, p0, p, whole, w, got, delivered);
    return None, got, answers;
  }

  lemma NoneYet(taken: nat -> bool)
    ensures DataOnly([]) && OkBefore([]) && AllOffersTaken([], taken)
  {
  }

  lemma OneMoreTaken(delivered: seq<ValidResponse>, head: ValidResponse, taken: nat -> bool)
    requires AllOffersTaken(delivered, taken) && taken(|delivered|)
    ensures AllOffersTaken(delivered + [head], taken)
  {
  }

  lemma OneMoreAnswer(answers: seq<RecvBuffer.ReadAnswer>, last: RecvBuffer.ReadAnswer)
    requires DataOnly(answers)
    ensures last.Ok? && last.value.DataRead? ==> DataOnly(answers + [last])
    ensures OkBefore(answers) && OkBefore(answers + [last])
  {
  }

  lemma NothingRead(rules: HeadRules, p: Policy, w: Bytes)
    ensures Ahead(rules, p, w, p, w, [])
  {
    hide ReadHeads;
    forall more ensures ReadHeads(rules, p, w + more) == After([], ReadHeads(rules, p, w + more)) {
      AfterNothing(ReadHeads(rules, p, w + more));
    }
  }

  lemma AfterNothing(r: Reading)
    ensures After([], r) == r
  {
    assert [] + r.interim == r.interim;
  }

  lemma TooLongStep(rules: HeadRules, p0: Policy, whole: Bytes, p: Policy, w: Bytes, delivered: seq<ValidResponse>)
    requires HeadScan.OneScan(w, rules.maxBytes) == HeadScan.TooLong && Ahead(rules, p0, whole, p, w, delivered)
    ensures NeverReads(rules, p0, whole, HeadTooLong, delivered)
  {
    hide HeadScan.OneScan;
    assert delivered + [] == delivered;
    forall more ensures ReadHeads(rules, p0, whole + more) == Unreadable(HeadTooLong, delivered) {
      HeadScan.AnswersAreFinal(w, more, rules.maxBytes);
    }
  }

  lemma NothingYet(rules: HeadRules, p0: Policy, p: Policy, whole: Bytes, w: Bytes, delivered: seq<ValidResponse>)
    requires HeadScan.OneScan(w, rules.maxBytes) == HeadScan.MoreInput && Ahead(rules, p0, whole, p, w, delivered)
    ensures ReadHeads(rules, p0, whole) == Waiting(p, w, delivered)
  {
    assert whole + [] == whole && w + [] == w;
    assert ReadHeads(rules, p0, whole + []) == After(delivered, ReadHeads(rules, p, w + []));
    assert ReadHeads(rules, p, w) == Waiting(p, w, []);
    assert delivered + [] == delivered;
  }

  lemma Grown(rules: HeadRules, p0: Policy, p: Policy, whole: Bytes, w: Bytes, fill: Bytes, delivered: seq<ValidResponse>)
    requires Ahead(rules, p0, whole, p, w, delivered)
    ensures Ahead(rules, p0, whole + fill, p, w + fill, delivered)
  {
    hide ReadHeads;
    forall more ensures ReadHeads(rules, p0, whole + fill + more) == After(delivered, ReadHeads(rules, p, w + fill + more)) {
      Assoc(whole, fill, more);
      Assoc(w, fill, more);
      assert ReadHeads(rules, p0, whole + (fill + more)) == After(delivered, ReadHeads(rules, p, w + (fill + more)));
    }
  }

  // ---- settlement -------------------------------------------------------------------

  /** A failed body fails the exchange; its cancellation stays recognizable. */
  function BodyFaultOf(why: Receiving.Cause): Fault
  {
    if why.Canceled? || why == Receiving.Reading(RecvBuffer.Canceled) then Canceled else BodyFault(why)
  }

  /** A failed upload, with its cancellation recognizable. */
  function UploadFaultOf(fault: Transmission.SendFault): Fault
  {
    if fault.SendCanceled? || fault == Transmission.IoFault(Transmission.OperationCanceled) then Canceled else Uploading(fault)
  }

  datatype CloseReason = MessagePolicy | ApplicationClosure | BodyAbandonment | UploadAbort | Shutdown

  datatype Received = Received(end: Receiving.BodyEnd, buffer: Bytes, policy: Policy)

  datatype Settled = Settled(buffer: Bytes, outcome: Disposition, reason: CloseReason)

  /** Compose the two settled directions of an exchange. */
  function FinishExchange(sent: Result<(), Fault>, received: Result<Received, Fault>, aborted: bool): Result<Settled, Fault>
  {
    if received.Err? then
      Err(if sent.Err? && !sent.error.Canceled? && received.error.Canceled? then sent.error else received.error)
    else
      var Received(end, buffer, policy) := received.value;
      match end
      case BodyFailed(why) => Err(BodyFaultOf(why))
      case BodyAbandoned =>
        if sent.Err? && !sent.error.Canceled? then Err(sent.error)
        else Settle(policy, Retired, Retired, buffer, BodyAbandonment)
      case BodyComplete =>
        if sent.Err? && (!sent.error.Canceled? || !aborted) then Err(sent.error)
        else Settle(policy, if sent.Err? || aborted then Retired else Completed, Completed, buffer,
                    if aborted then UploadAbort else MessagePolicy)
  }

  function Settle(p: Policy, request: ActivityEnd, response: ActivityEnd, buffer: Bytes, reason: CloseReason): Result<Settled, Fault>
  {
    var outcome := Finish(p, request, response);
    if outcome.Err? then Err(outcome.error) else Ok(Settled(buffer, outcome.value, reason))
  }

  /** Reuse and handoff need both directions complete and no abort, and then follow from the heads; a
      cancelled direction never hides the failure that caused it, a closing exchange says why, and
      unread input is passed on unchanged. */
  lemma SettlementMeaning(sent: Result<(), Fault>, received: Result<Received, Fault>, aborted: bool)
    requires received.Ok? ==> !received.value.end.BodyFailed?
    ensures var r := FinishExchange(sent, received, aborted);
      && (r.Ok? && !r.value.outcome.Close? <==>
            && sent.Ok? && !aborted && received.Ok? && received.value.end == Receiving.BodyComplete
            && !received.value.policy.phase.AwaitingHead?
            && (received.value.policy.phase.FinalHead? ==> received.value.policy.persistence == Reusable))
      && (forall kind :: r.Ok? && r.value.outcome == Handoff(kind) ==> received.value.policy.phase == Upgrading(kind))
      && (r.Ok? ==> received.Ok? && r.value.buffer == received.value.buffer)
      && (r == Err(Canceled) ==> (sent.Err? ==> sent.error == Canceled) && (received.Err? ==> received.error == Canceled))
      && (received.Err? ==> r.Err? && (r.error == received.error || (received.error == Canceled && sent == Err(r.error))))
      && (received.Ok? && sent.Err? && sent.error != Canceled ==> r == Err(sent.error))
      && (r.Ok? && r.value.outcome == Close && r.value.reason == BodyAbandonment <==>
            received.Ok? && received.value.end == Receiving.BodyAbandoned && (sent.Err? ==> sent.error == Canceled))
      && (r.Ok? && r.value.outcome == Close && r.value.reason == UploadAbort <==>
            received.Ok? && received.value.end == Receiving.BodyComplete && aborted && (sent.Err? ==> sent.error == Canceled))
      && (r.Ok? && r.value.outcome == Close && r.value.reason == MessagePolicy <==>
            && received.Ok? && received.value.end == Receiving.BodyComplete && !aborted && sent.Ok?
            && received.value.policy.phase.FinalHead? && received.value.policy.persistence == CloseAfter)
  {
  }
}
