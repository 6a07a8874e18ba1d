/** Whole decoding runs: input arrives in arbitrary pieces between arbitrary calls. */
module DecodeRuns {
  import opened Prelude
  import opened ChunkGrammar
  import opened Decoding

  /** A driver's view: the decoder, the retained input, what it has delivered, and what has arrived. */
  datatype Driver = Driver(decoder: Decoder, buffer: Bytes, eof: bool,
                           delivered: Bytes, trailers: Option<HeaderMap>, arrived: Bytes)

  function Start(mode: BodyMode): Driver
  {
    Driver(NewDecoder(mode), [], false, [], None, [])
  }

  predicate Arrive(s: Driver, bytes: Bytes, s': Driver)
  {
    !s.eof && s' == s.(buffer := s.buffer + bytes, arrived := s.arrived + bytes)
  }

  predicate Close(s: Driver, s': Driver)
  {
    !s.eof && s' == s.(eof := true)
  }

  /** Record an outcome and drop exactly the reported prefix. */
  function Record(s: Driver, d': Decoder, r: Result<Outcome, DecodeError>): Driver
  {
    var next := s.(decoder := d', buffer := Rest(s.buffer, r));
    match r
    case Ok(Payload(lo, hi, _)) =>
      if lo <= hi <= |s.buffer| then next.(delivered := s.delivered + s.buffer[lo..hi]) else next
    case Ok(TrailerBlock(trailers, _)) => next.(trailers := Some(trailers))
    case _ => next
  }

  ghost predicate Call(cfg: Config, s: Driver, d': Decoder, r: Result<Outcome, DecodeError>, s': Driver)
  {
    && WellFormed(s.decoder) && Kept(s.decoder, s.buffer) && !Settled(s)
    && WellFormed(d') && Decodes(cfg, s.decoder, s.buffer, s.eof, d', r)
    && s' == Record(s, d', r)
  }

  ghost predicate Step(cfg: Config, s: Driver, s': Driver)
  {
    || (exists bytes :: Arrive(s, bytes, s'))
    || Close(s, s')
    || (exists d', r :: Call(cfg, s, d', r, s'))
  }

  predicate Accepted(s: Driver) { FramingComplete(s.decoder) }

  predicate Rejected(s: Driver) { s.decoder.state.Failed? }

  predicate Settled(s: Driver) { Rejected(s) || s.decoder.state == Done }

  ghost predicate Run(cfg: Config, mode: BodyMode, states: seq<Driver>)
  {
    && states != [] && states[0] == Start(mode)
    && forall i :: 0 <= i < |states| - 1 ==> Step(cfg, states[i], states[i + 1])
  }

  /** What a driver has delivered so far, followed by what the rest will deliver. */
  function Account(s: Driver, later: Verdict): Verdict
  {
    var v := Deliver(s.delivered, later);
    if v.Accept? && s.trailers.Some? then v.(trailers := s.trailers) else v
  }

  /** End of file decided the run, so that later input would have meant something else. */
  predicate EndedByEof(mode: BodyMode, s: Driver)
  {
    s.eof && (s.decoder.state == Failed(UnexpectedEof) || (s.decoder.state == Done && mode == UntilClose))
  }

  ghost predicate Inv(cfg: Config, mode: BodyMode, s: Driver)
  {
    && (s.decoder.state == UntilEof ==> mode == UntilClose)
    && WellFormed(s.decoder)
    && (!Settled(s) ==> Kept(s.decoder, s.buffer))
    && (s.trailers.Some? ==> s.decoder.state == Done)
    && forall future: Bytes :: (EndedByEof(mode, s) ==> future == []) ==>
         Meaning(cfg, NewDecoder(mode), s.arrived + future) == Account(s, Meaning(cfg, s.decoder, s.buffer + future))
  }

  /** Appended input never disturbs the bytes a resumed scan will skip. */
  lemma KeptAppend(d: Decoder, buffer: Bytes, more: Bytes)
    requires Kept(d, buffer)
    ensures Kept(d, buffer + more)
  {
    match d.state
    case Chunked(Size(scanned)) =>
      FindAppend(buffer, more, LF);
      FindAppend(buffer, more, CR);
    case Chunked(Trailers(scanned)) =>
      var i := FirstEmptyLine(buffer + more, 0);
      if i < scanned {
        EmptyLineAppend(buffer, more, i);
      }
    case _ =>
  }

  lemma ArriveKeeps(cfg: Config, mode: BodyMode, s: Driver, bytes: Bytes, s': Driver)
    requires Inv(cfg, mode, s) && Arrive(s, bytes, s')
    ensures Inv(cfg, mode, s')
  {
    hide Meaning, Kept;
    if !Settled(s) {
      KeptAppend(s.decoder, s.buffer, bytes);
    }
    forall future: Bytes
      ensures Meaning(cfg, NewDecoder(mode), s'.arrived + future)
           == Account(s', Meaning(cfg, s'.decoder, s'.buffer + future))
    {
      assert s.arrived + bytes + future == s.arrived + (bytes + future);
      assert s.buffer + bytes + future == s.buffer + (bytes + future);
      assert Meaning(cfg, NewDecoder(mode), s.arrived + (bytes + future))
          == Account(s, Meaning(cfg, s.decoder, s.buffer + (bytes + future)));
    }
  }

  lemma AccountRecords(s: Driver, d': Decoder, r: Result<Outcome, DecodeError>, later: Verdict)
    requires s.trailers.None?
    requires r.Ok? && r.value.Payload? ==> r.value.lo <= r.value.hi <= |s.buffer|
    requires later.Accept? && r.Ok? && r.value.TrailerBlock? ==> later.trailers.None?
    ensures Account(s, Effect(s.buffer, r, later)) == Account(Record(s, d', r), later)
  {
    if r.Ok? && r.value.Payload? {
      var data := s.buffer[r.value.lo..r.value.hi];
      assert s.delivered + (data + later.payload) == s.delivered + data + later.payload;
    }
  }

  lemma CallKeeps(cfg: Config, mode: BodyMode, s: Driver, d': Decoder, r: Result<Outcome, DecodeError>, s': Driver)
    requires Inv(cfg, mode, s) && Call(cfg, s, d', r, s')
    ensures Inv(cfg, mode, s')
  {
    hide ChunkMeaning, Retained, Starved;
    forall future: Bytes | EndedByEof(mode, s') ==> future == []
      ensures Meaning(cfg, NewDecoder(mode), s'.arrived + future)
           == Account(s', Meaning(cfg, s'.decoder, s'.buffer + future))
    {
      assert Meaning(cfg, NewDecoder(mode), s.arrived + future)
          == Account(s, Meaning(cfg, s.decoder, s.buffer + future));
      var later := Meaning(cfg, d', Rest(s.buffer, r) + future);
      assert Meaning(cfg, s.decoder, s.buffer + future) == Effect(s.buffer, r, later);
      AccountRecords(s, d', r, later);
    }
  }

  lemma {:induction false} RunInv(cfg: Config, mode: BodyMode, states: seq<Driver>, k: nat)
    requires Run(cfg, mode, states) && k < |states|
    ensures Inv(cfg, mode, states[k])
  {
    hide Meaning, Decodes;
    if k == 0 {
      forall future: Bytes
        ensures Meaning(cfg, NewDecoder(mode), [] + future) == Account(Start(mode), Meaning(cfg, NewDecoder(mode), [] + future))
      {
        var v := Meaning(cfg, NewDecoder(mode), [] + future);
        assert [] + v.payload == v.payload;
      }
      assert Inv(cfg, mode, Start(mode));
    } else {
      RunInv(cfg, mode, states, k - 1);
      var s, s' := states[k - 1], states[k];
      assert Step(cfg, s, s');
      if Close(s, s') {
      } else if bytes :| Arrive(s, bytes, s') {
        ArriveKeeps(cfg, mode, s, bytes, s');
      } else {
        var d', r :| Call(cfg, s, d', r, s');
        CallKeeps(cfg, mode, s, d', r, s');
      }
    }
  }

  /** The verdict a settled driver stands for, given input that had not arrived yet. */
  function Reached(s: Driver, rest: Bytes): Verdict
  {
    if Rejected(s) then Reject(s.delivered)
    else Accept(s.delivered, s.trailers, s.buffer + rest, s.decoder.extensionBytes)
  }

  lemma SettledMeaning(cfg: Config, mode: BodyMode, s: Driver, rest: Bytes)
    requires Inv(cfg, mode, s) && (Accepted(s) || Rejected(s)) && (s.eof ==> rest == [])
    ensures Reached(s, rest) == Meaning(cfg, NewDecoder(mode), s.arrived + rest)
  {
    hide ChunkMeaning, Kept;
    assert Meaning(cfg, NewDecoder(mode), s.arrived + rest) == Account(s, Meaning(cfg, s.decoder, s.buffer + rest));
    assert s.delivered + [] == s.delivered;
    if s.decoder.state == Fixed(0) {
      assert (s.buffer + rest)[..0] == [] && (s.buffer + rest)[0..] == s.buffer + rest;
    }
  }

  /** Every run that ends, however its input was cut and its calls were placed, ends with
      the one verdict the whole wire has. */
  lemma RunsReachTheMeaning(cfg: Config, mode: BodyMode, states: seq<Driver>, rest: Bytes)
    requires Run(cfg, mode, states)
    requires var last := states[|states| - 1];
             (Accepted(last) || Rejected(last)) && (last.eof ==> rest == [])
    ensures var last := states[|states| - 1];
            Reached(last, rest) == Meaning(cfg, NewDecoder(mode), last.arrived + rest)
  {
    hide Meaning;
    RunInv(cfg, mode, states, |states| - 1);
    SettledMeaning(cfg, mode, states[|states| - 1], rest);
  }

  /** Fragmentation independence: two runs over one wire agree on acceptance, payload,
      trailers, unread suffix and charged extension bytes. */
  lemma FragmentationIndependence(cfg: Config, mode: BodyMode, one: seq<Driver>, two: seq<Driver>,
                                  restOne: Bytes, restTwo: Bytes)
    requires Run(cfg, mode, one) && Run(cfg, mode, two)
    requires var a, b := one[|one| - 1], two[|two| - 1];
             && (Accepted(a) || Rejected(a)) && (Accepted(b) || Rejected(b))
             && (a.eof ==> restOne == []) && (b.eof ==> restTwo == [])
             && a.arrived + restOne == b.arrived + restTwo
    ensures var a, b := one[|one| - 1], two[|two| - 1];
            && Rejected(a) == Rejected(b)
            && a.delivered == b.delivered
            && (Accepted(a) ==>
                  && a.trailers == b.trailers
                  && a.buffer + restOne == b.buffer + restTwo
                  && a.decoder.extensionBytes == b.decoder.extensionBytes)
  {
    hide Meaning;
    RunsReachTheMeaning(cfg, mode, one, restOne);
    RunsReachTheMeaning(cfg, mode, two, restTwo);
  }

  /** After end of file a call settles the run or uses up input: no run can stall. */
  lemma EofMakesProgress(cfg: Config, s: Driver, d': Decoder, r: Result<Outcome, DecodeError>, s': Driver)
    requires Call(cfg, s, d', r, s') && s.eof
    ensures Settled(s') || |s'.buffer| < |s.buffer|
  {
  }

  lemma StartKeeps(cfg: Config, mode: BodyMode)
    ensures Inv(cfg, mode, Start(mode))
  {
    hide Decodes;
    assert Run(cfg, mode, [Start(mode)]);
    RunInv(cfg, mode, [Start(mode)], 0);
  }

  /** Drive a decoder over reads of any sizes, and then end of file, as a connection does:
      decode until more input is wanted, and only then read. */
  method DecodeReads(mode: BodyMode, cfg: Config, pieces: seq<Bytes>) returns (verdict: Verdict)
    ensures verdict == Meaning(cfg, NewDecoder(mode), Join(pieces))
  {
    hide Meaning, Decodes, Retained, Join;
    JoinNothing();
    assert pieces[..0] == [];
    var decoder := new BodyDecoder(mode, cfg);
    var s := Start(mode);
    var next := 0;
    StartKeeps(cfg, mode);
    var settled := false;
    while !settled
      invariant next <= |pieces| && s.decoder == decoder.View() && decoder.cfg == cfg
      invariant Inv(cfg, mode, s) && s.arrived == Join(pieces[..next])
      invariant s.eof ==> next == |pieces|
      invariant settled <==> Settled(s)
      decreases |pieces| - next, if s.eof then 0 else 1, |s.buffer|, if settled then 0 else 1
    {
      ghost var before := s;
      var r := decoder.Decode(s.buffer, s.eof);
      s := Record(s, decoder.View(), r);
      CallKeeps(cfg, mode, before, decoder.View(), r, s);
      settled := s.decoder.state.Failed? || s.decoder.state == Done;
      Outcomes(cfg, before, r, s);
      if r.Ok? && r.value.NeedMore? {
        before := s;
        if next < |pieces| {
          s := s.(buffer := s.buffer + pieces[next], arrived := s.arrived + pieces[next]);
          JoinTake(pieces, next);
          ArriveKeeps(cfg, mode, before, pieces[next], s);
          next := next + 1;
        } else {
          s := s.(eof := true);
        }
      }
    }
    verdict := SettledVerdict(cfg, mode, s, pieces, next);
  }

  lemma Outcomes(cfg: Config, s: Driver, r: Result<Outcome, DecodeError>, s': Driver)
    requires Decodes(cfg, s.decoder, s.buffer, s.eof, s'.decoder, r) && s' == Record(s, s'.decoder, r)
    ensures r.Ok? && r.value.NeedMore? ==> !s.eof && !Settled(s')
    ensures r.Ok? && r.value.Payload? ==> |s'.buffer| < |s.buffer|
    ensures r.Err? || r.value.TrailerBlock? || r.value.End? ==> Settled(s') && |s'.buffer| <= |s.buffer|
  {
  }

  method SettledVerdict(cfg: Config, mode: BodyMode, s: Driver, pieces: seq<Bytes>, from: nat) returns (verdict: Verdict)
    requires from <= |pieces| && Inv(cfg, mode, s) && s.arrived == Join(pieces[..from]) && Settled(s)
    requires s.eof ==> from == |pieces|
    ensures verdict == Meaning(cfg, NewDecoder(mode), Join(pieces))
  {
    hide Inv, Meaning, Join;
    var rest: Bytes := [];
    var next := from;
    assert s.arrived + [] == s.arrived;
    while next < |pieces|
      invariant from <= next <= |pieces| && (s.eof ==> rest == [])
      invariant s.arrived + rest == Join(pieces[..next])
    {
      JoinTake(pieces, next);
      Assoc(s.arrived, rest, pieces[next]);
      rest := rest + pieces[next];
      next := next + 1;
    }
    assert pieces[..|pieces|] == pieces;
    verdict := Reached(s, rest);
    SettledMeaning(cfg, mode, s, rest);
  }
}
