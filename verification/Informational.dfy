/** The server's informational slot: application heads, the automatic 100 Continue, and the one
    writer that serves both before the final response is selected. */
module Informational {
  import opened Prelude
  import opened Tasks

  datatype Admission = Open | FinalSelected | Shut

  datatype Continue = NotAsked | Requested | Continued

  datatype SendError = BadStatus | Late | WriterClosed | SlotBusy | HeadRefused | WriteFailed

  /** The application's command slot; a head is named by the send that queued it. */
  datatype Slot = Free | Queued(head: nat) | Writing | WritingAbandoned | Acknowledged(result: Result<(), SendError>)

  datatype Shared = Shared(admission: Admission, continuing: Continue, slot: Slot,
                           application: Option<Waker>, writer: Option<Waker>, receiver: Option<Waker>)

  datatype Command = WriteContinue | WriteHead(head: nat)

  const NEW_SHARED := Shared(Open, NotAsked, Free, None, None, None)

  /** The application may not send 100 or 101 by this path. */
  predicate Sendable(status: nat) { 102 <= status < 200 }

  /** Queue a head; the writer is to be woken. */
  function Enqueue(s: Shared, head: nat, status: nat): Result<(Shared, Option<Waker>), SendError>
  {
    if !Sendable(status) then Err(BadStatus)
    else if s.admission == Shut then Err(WriterClosed)
    else if s.admission == FinalSelected then Err(Late)
    else if !s.slot.Free? then Err(SlotBusy)
    else Ok((s.(slot := Queued(head), writer := None), s.writer))
  }

  function SendPoll(s: Shared, w: Waker): (Shared, Poll<Result<(), SendError>>)
  {
    if s.slot.Acknowledged? then (s.(slot := Free), Ready(s.slot.result))
    else if s.admission == Shut then (s, Ready(Err(WriterClosed)))
    else (s.(application := Some(w)), Pending)
  }

  /** The end of a send, answered or cancelled: a write under way stays under way. */
  function SendDrop(s: Shared): Shared
  {
    s.(slot := if s.slot.Writing? || s.slot.WritingAbandoned? then WritingAbandoned else Free, application := None)
  }

  function SelectFinal(s: Shared): Shared
  {
    s.(admission := if s.admission == Open then FinalSelected else s.admission,
       slot := if s.slot.Queued? then Acknowledged(Err(Late)) else s.slot,
       application := None, writer := None, receiver := None)
  }

  function AskContinue(s: Shared): Shared
  {
    s.(continuing := if s.continuing == NotAsked then Requested else s.continuing, writer := None)
  }

  function PermissionPoll(s: Shared, w: Waker): (Shared, Poll<Result<(), SendError>>)
  {
    if s.admission == Shut then (s, Ready(Err(WriterClosed)))
    else if s.admission == FinalSelected || s.continuing == Continued then (s, Ready(Ok(())))
    else (s.(receiver := Some(w)), Pending)
  }

  function MarkContinued(s: Shared): Shared
  {
    s.(continuing := Continued, receiver := None)
  }

  function NextPoll(s: Shared, w: Waker): (Shared, Poll<Option<Command>>)
  {
    if s.admission != Open then (s, Ready(None))
    else if s.continuing == Requested then (s, Ready(Some(WriteContinue)))
    else if s.slot.Queued? then (s.(slot := Writing), Ready(Some(WriteHead(s.slot.head))))
    else (s.(writer := Some(w)), Pending)
  }

  /** Only the active writer acknowledges; any other state is declared unreachable. */
  function Acknowledge(s: Shared, result: Result<(), SendError>): Shared
    requires s.slot.Writing? || s.slot.WritingAbandoned?
  {
    s.(slot := if s.slot.Writing? then Acknowledged(result) else Free, application := None)
  }

  function ShutDown(s: Shared): Shared
  {
    s.(admission := Shut, application := None, receiver := None)
  }

  /** The allocation shared by the request context and the driver. */
  class Control {
    var admission: Admission
    var continuing: Continue
    var slot: Slot
    var application: Option<Waker>
    var writer: Option<Waker>
    var receiver: Option<Waker>

    constructor ()
      ensures View() == NEW_SHARED
    {
      admission, continuing, slot, application, writer, receiver := Open, NotAsked, Free, None, None, None;
    }

    function View(): Shared
      reads this
    {
      Shared(admission, continuing, slot, application, writer, receiver)
    }

    method QueueHead(head: nat, status: nat) returns (r: Result<Option<Waker>, SendError>)
      modifies this
      ensures var e := Enqueue(old(View()), head, status);
        if e.Ok? then r == Ok(e.value.1) && View() == e.value.0 else r == Err(e.error) && View() == old(View())
    {
      if status < 100 || status >= 200 || status == 100 || status == 101 { return Err(BadStatus); }
      if admission == Shut { return Err(WriterClosed); }
      if admission == FinalSelected { return Err(Late); }
      if !slot.Free? { return Err(SlotBusy); }
      slot := Queued(head);
      r := Ok(writer);
      writer := None;
    }

    method PollSend(w: Waker) returns (r: Poll<Result<(), SendError>>)
      modifies this
      ensures (View(), r) == SendPoll(old(View()), w)
    {
      if slot.Acknowledged? {
        r := Ready(slot.result);
        slot := Free;
        return;
      }
      if admission == Shut { return Ready(Err(WriterClosed)); }
      application := Some(w);
      return Pending;
    }

    method DropSend()
      modifies this
      ensures View() == SendDrop(old(View()))
    {
      slot := if slot.Writing? || slot.WritingAbandoned? then WritingAbandoned else Free;
      application := None;
    }

    method ChooseFinal() returns (wakes: seq<Option<Waker>>)
      modifies this
      ensures View() == SelectFinal(old(View())) && wakes == [old(application), old(writer), old(receiver)]
    {
      if admission == Open { admission := FinalSelected; }
      if slot.Queued? { slot := Acknowledged(Err(Late)); }
      wakes := [application, writer, receiver];
      application, writer, receiver := None, None, None;
    }

    /** Demand for the body asks for a Continue at most once. */
    method BeginPermission() returns (wake: Option<Waker>)
      modifies this
      ensures View() == AskContinue(old(View())) && wake == old(writer)
    {
      if continuing == NotAsked { continuing := Requested; }
      wake := writer;
      writer := None;
    }

    method PollPermission(w: Waker) returns (r: Poll<Result<(), SendError>>)
      modifies this
      ensures (View(), r) == PermissionPoll(old(View()), w)
    {
      if admission == Shut { return Ready(Err(WriterClosed)); }
      if admission == FinalSelected || continuing == Continued { return Ready(Ok(())); }
      receiver := Some(w);
      return Pending;
    }

    method ContinueWritten() returns (wake: Option<Waker>)
      modifies this
      ensures View() == MarkContinued(old(View())) && wake == old(receiver)
    {
      continuing := Continued;
      wake := receiver;
      receiver := None;
    }

    method DropReceiver() returns (wakes: seq<Option<Waker>>)
      modifies this
      ensures View() == ShutDown(old(View())) && wakes == [old(application), old(receiver)]
    {
      admission := Shut;
      wakes := [application, receiver];
      application, receiver := None, None;
    }

    method PollNext(w: Waker) returns (r: Poll<Option<Command>>)
      modifies this
      ensures (View(), r) == NextPoll(old(View()), w)
    {
      if admission != Open { return Ready(None); }
      if continuing == Requested { return Ready(Some(WriteContinue)); }
      if slot.Queued? {
        r := Ready(Some(WriteHead(slot.head)));
        slot := Writing;
        return;
      }
      writer := Some(w);
      return Pending;
    }

    method Complete(result: Result<(), SendError>) returns (wake: Option<Waker>)
      requires slot.Writing? || slot.WritingAbandoned?
      modifies this
      ensures View() == Acknowledge(old(View()), result) && wake == old(application)
    {
      slot := if slot.Writing? then Acknowledged(result) else Free;
      wake := application;
      application := None;
    }
  }

  // ---- every interleaving of the service, the body's demand and the writer ----------

  datatype Sending = Sending(head: nat, progress: Progress)

  /** The writer loop: at its wait, writing one command, or returned. */
  datatype WriterPhase = AtNext(progress: Progress) | Busy(command: Command) | Stopped

  datatype Machine = Machine(
    shared: Shared,
    sending: Option<Sending>,
    permission: Option<Progress>,
    phase: WriterPhase,
    sends: nat,                                   // sends begun; each names its own head
    max: nat,
    started: seq<Command>,                        // writes begun, in order
    written: seq<Command>,                        // writes flushed, in order
    answers: seq<(nat, Result<(), SendError>)>,   // what each send returned
    finalAt: Option<nat>,                         // writes begun when the final response was selected
    asked: bool,                                  // a Continue was asked for
    misstep: bool)

  datatype Event =
    | BeginSend(status: nat)
    | PollSend(w: Waker)
    | DropSend
    | BeginPermission
    | PollPermission(w: Waker)
    | DropPermission
    | PollNext(w: Waker, prepares: bool)
    | CancelWriter
    | WriteEnds(ok: bool)
    | ChooseFinal
    | DropReceiver

  function Initial(max: nat): Machine
  {
    Machine(NEW_SHARED, None, None, AtNext(Unpolled), 0, max, [], [], [], None, false, false)
  }

  predicate Enabled(m: Machine, e: Event)
  {
    match e
    case BeginSend(_) => m.sending.None?
    case PollSend(_) => m.sending.Some?
    case DropSend => m.sending.Some?
    case BeginPermission => m.permission.None? && m.shared.admission != Shut
    case PollPermission(_) => m.permission.Some?
    case DropPermission => m.permission.Some?
    case PollNext(_, _) => m.phase.AtNext?
    case CancelWriter => !m.phase.Stopped?   // cancelled at its wait, or dropped with the driver
    case WriteEnds(_) => m.phase.Busy?
    case ChooseFinal => m.shared.admission != Shut
    case DropReceiver => m.permission.None? && m.phase.Stopped?
  }

  function WakeSender(m: Machine, who: Option<Waker>): Machine
  {
    if m.sending.None? then m else m.(sending := Some(m.sending.value.(progress := Rouse(m.sending.value.progress, who))))
  }

  function WakeWriter(m: Machine, who: Option<Waker>): Machine
  {
    if m.phase.AtNext? then m.(phase := AtNext(Rouse(m.phase.progress, who))) else m
  }

  function WakeReceiver(m: Machine, who: Option<Waker>): Machine
  {
    if m.permission.None? then m else m.(permission := Some(Rouse(m.permission.value, who)))
  }

  /** The writer acknowledges an application head, or records the automatic one. */
  function Finish(m: Machine, result: Result<(), SendError>): Machine
    requires m.phase.Busy?
  {
    if m.phase.command.WriteContinue? then
      if result.Ok? then WakeReceiver(m.(shared := MarkContinued(m.shared)), m.shared.receiver) else m
    else if !m.shared.slot.Writing? && !m.shared.slot.WritingAbandoned? then m.(misstep := true)
    else WakeSender(m.(shared := Acknowledge(m.shared, result)), m.shared.application)
  }

  /** A poll of the writer's wait and, when it brings a command, everything up to the first byte:
      nothing else can run in between. A head that cannot be prepared is refused; a refused
      automatic head ends the writer. */
  function StepNext(m: Machine, w: Waker, prepares: bool): Machine
  {
    var (s, r) := NextPoll(m.shared, w);
    match r
    case Pending => m.(shared := s, phase := AtNext(Waiting(w, false)))
    case Ready(None) => m.(shared := s, phase := Stopped)
    case Ready(Some(command)) =>
      var taken := m.(shared := s, phase := Busy(command));
      if prepares && |m.written| < m.max then taken.(started := m.started + [command])
      else
        var refused := Finish(taken, Err(HeadRefused));
        refused.(phase := if command.WriteContinue? then Stopped else AtNext(Unpolled))
  }

  function Step(m: Machine, e: Event): Machine
    requires Enabled(m, e)
  {
    match e
    case BeginSend(status) =>
      var r := Enqueue(m.shared, m.sends, status);
      if r.Err? then m.(sends := m.sends + 1, answers := m.answers + [(m.sends, Err(r.error))])
      else WakeWriter(m.(sends := m.sends + 1, shared := r.value.0, sending := Some(Sending(m.sends, Unpolled))), r.value.1)
    case PollSend(w) =>
      var (s, r) := SendPoll(m.shared, w);
      if r.Pending? then m.(shared := s, sending := Some(m.sending.value.(progress := Waiting(w, false))))
      else m.(shared := SendDrop(s), sending := None, answers := m.answers + [(m.sending.value.head, r.value)])
    case DropSend => m.(shared := SendDrop(m.shared), sending := None)
    case BeginPermission => WakeWriter(m.(shared := AskContinue(m.shared), permission := Some(Unpolled), asked := true), m.shared.writer)
    case PollPermission(w) =>
      var (s, r) := PermissionPoll(m.shared, w);
      m.(shared := s, permission := if r.Pending? then Some(Waiting(w, false)) else None)
    case DropPermission => m.(permission := None)
    case PollNext(w, prepares) => StepNext(m, w, prepares)
    case CancelWriter => m.(phase := Stopped)
    case WriteEnds(ok) =>
      var done := Finish(m, if ok then Ok(()) else Err(WriteFailed));
      if ok then done.(phase := AtNext(Unpolled), written := m.written + [m.phase.command])
      else done.(phase := Stopped)
    case ChooseFinal =>
      var s := m.shared;
      var chosen := m.(shared := SelectFinal(s), finalAt := if m.finalAt.None? then Some(|m.started|) else m.finalAt);
      WakeReceiver(WakeWriter(WakeSender(chosen, s.application), s.writer), s.receiver)
    case DropReceiver => WakeSender(m.(shared := ShutDown(m.shared)), m.shared.application)
  }

  predicate Allowed(m: Machine, events: seq<Event>)
    decreases |events|
  {
    events == [] || (Enabled(m, events[0]) && Allowed(Step(m, events[0]), events[1..]))
  }

  function RunFrom(m: Machine, events: seq<Event>): Machine
    requires Allowed(m, events)
    decreases |events|
  {
    if events == [] then m else RunFrom(Step(m, events[0]), events[1..])
  }

  // ---- invariants -------------------------------------------------------------------

  /** The slot belongs to the live send, or to an abandoned write. */
  predicate SlotOwned(m: Machine)
  {
    var writesHead := m.phase.Busy? && m.phase.command.WriteHead?;
    && (writesHead ==> m.shared.slot.Writing? || m.shared.slot.WritingAbandoned?)
    && (m.shared.slot.Writing? || m.shared.slot.WritingAbandoned? ==> writesHead || m.phase.Stopped?)
    && (m.sending.None? ==> m.shared.slot.Free? || m.shared.slot.WritingAbandoned?)
    && (m.sending.Some? ==>
          var head := m.sending.value.head;
          && head < m.sends
          && (m.shared.slot.Queued? || m.shared.slot.Writing? || m.shared.slot.Acknowledged?)
          && (m.shared.slot.Queued? ==> m.shared.slot.head == head && WriteHead(head) !in m.started && WriteHead(head) !in m.written)
          && (m.shared.slot.Writing? && m.phase.Busy? ==> m.phase.command == WriteHead(head))
          && (m.shared.slot.Acknowledged? && m.shared.slot.result.Ok? ==> WriteHead(head) in m.written))
  }

  /** Writes begun are the writes flushed plus the current one, or one that failed. */
  predicate Ordered(m: Machine)
  {
    && m.written <= m.started
    && (m.phase.AtNext? ==> m.written == m.started)
    && (m.phase.Busy? ==> m.started == m.written + [m.phase.command])
    && |m.started| <= |m.written| + 1 && |m.written| <= m.max
    && (m.phase.Busy? ==> |m.written| < m.max)
    && HeadsBelow(m.started, m.sends)
  }

  predicate HeadsBelow(commands: seq<Command>, n: nat)
  {
    forall i :: 0 <= i < |commands| && commands[i].WriteHead? ==> commands[i].head < n
  }

  predicate Distinct(commands: seq<Command>)
  {
    forall i, j :: 0 <= i < j < |commands| ==> commands[i] != commands[j]
  }

  predicate NeverTwice(m: Machine)
  {
    && Distinct(m.started)
    && (WriteContinue in m.started ==>
          m.shared.continuing == Continued || m.phase.Stopped? || m.phase == Busy(WriteContinue))
    && (m.phase == Busy(WriteContinue) ==> m.shared.continuing == Requested)
  }

  predicate Answered(m: Machine)
  {
    && (forall i :: 0 <= i < |m.answers| ==>
          && m.answers[i].0 < m.sends
          && (m.answers[i].1.Ok? ==> WriteHead(m.answers[i].0) in m.written))
    && (m.sending.Some? ==> forall i :: 0 <= i < |m.answers| ==> m.answers[i].0 != m.sending.value.head)
    && (forall i, j :: 0 <= i < j < |m.answers| ==> m.answers[i].0 != m.answers[j].0)
  }

  predicate FinalKept(m: Machine)
  {
    && (m.finalAt.Some? ==> m.shared.admission != Open && |m.started| == m.finalAt.value && !m.shared.slot.Queued?)
    && (m.shared.admission == FinalSelected ==> m.finalAt.Some?)
    && (m.shared.admission == Shut ==> m.phase.Stopped?)
  }

  /** A pending wait was woken, or is registered and has nothing to wait for yet. */
  predicate NoLostWakeup(m: Machine)
  {
    var s := m.shared;
    && (m.sending.Some? && Asleep(m.sending.value.progress) ==>
          s.application == Some(m.sending.value.progress.waker) && !s.slot.Acknowledged? && s.admission != Shut)
    && (m.permission.Some? && Asleep(m.permission.value) ==>
          s.receiver == Some(m.permission.value.waker) && s.admission == Open && s.continuing != Continued)
    && (m.phase.AtNext? && Asleep(m.phase.progress) ==>
          s.writer == Some(m.phase.progress.waker) && s.admission == Open && s.continuing != Requested && !s.slot.Queued?)
    && (m.permission.Some? ==> s.admission != Shut && s.continuing != NotAsked)
  }

  /** What is stored for a live send tells what became of its head. */
  predicate Reasoned(m: Machine, head: nat)
  {
    var begun := WriteHead(head) in m.started;
    && (WriteHead(head) in m.written ==> m.shared.slot == Acknowledged(Ok(())))
    && (m.shared.slot.Writing? ==> begun)
    && (m.shared.slot.Acknowledged? && m.shared.slot.result.Err? ==>
          match m.shared.slot.result.error
          case Late => m.finalAt.Some? && !begun
          case HeadRefused => !begun
          case WriteFailed => begun
          case _ => false)
  }

  predicate Explained(m: Machine)
  {
    && (m.asked <==> m.shared.continuing != NotAsked)
    && (m.shared.continuing == Continued <==> WriteContinue in m.written)
    && (m.sending.Some? ==> Reasoned(m, m.sending.value.head))
  }

  predicate Inv(m: Machine)
  {
    !m.misstep && SlotOwned(m) && Ordered(m) && NeverTwice(m) && Answered(m) && FinalKept(m) && NoLostWakeup(m)
  }

  lemma SendingAnswers(m: Machine, e: Event)
    requires Inv(m) && Enabled(m, e) && (e.PollSend? || e.DropSend?)
    ensures Answered(Step(m, e))
  {
    hide Distinct, HeadsBelow, Ordered, NeverTwice, FinalKept, NoLostWakeup;
  }

  lemma SendingKeeps(m: Machine, e: Event)
    requires Inv(m) && Enabled(m, e) && (e.PollSend? || e.DropSend?)
    ensures Inv(Step(m, e))
  {
    hide Distinct, HeadsBelow, Answered;
    SendingAnswers(m, e);
    var m' := Step(m, e);
    assert m'.started == m.started && m'.written == m.written && m'.phase == m.phase;
  }

  /** A new send is named by a head that nothing has been done for. */
  lemma NewHead(m: Machine)
    requires Ordered(m)
    ensures WriteHead(m.sends) !in m.started && WriteHead(m.sends) !in m.written
    ensures HeadsBelow(m.started, m.sends + 1)
  {
  }

  lemma BeginAnswers(m: Machine, status: nat)
    requires Inv(m) && m.sending.None?
    ensures Answered(Step(m, BeginSend(status)))
  {
    hide Distinct, HeadsBelow, NeverTwice, NoLostWakeup, FinalKept, Ordered;
  }

  lemma BeginKeeps(m: Machine, status: nat)
    requires Inv(m) && m.sending.None?
    ensures Inv(Step(m, BeginSend(status)))
  {
    hide Distinct, HeadsBelow, Answered;
    NewHead(m);
    BeginAnswers(m, status);
  }

  lemma PermissionKeeps(m: Machine, e: Event)
    requires Inv(m) && Enabled(m, e) && (e.BeginPermission? || e.PollPermission? || e.DropPermission? || e.CancelWriter?)
    ensures Inv(Step(m, e))
  {
    hide Distinct, HeadsBelow, Answered;
    SameAnswers(m, Step(m, e));
  }

  /** A command that the writer takes up has never been begun before. */
  lemma TakenIsNew(m: Machine, w: Waker)
    requires Inv(m) && m.phase.AtNext?
    ensures var r := NextPoll(m.shared, w).1;
      r.Ready? && r.value.Some? ==>
        && r.value.value !in m.started
        && (r.value.value.WriteHead? ==> m.sending.Some? && r.value.value.head == m.sending.value.head < m.sends)
  {
  }

  lemma BegunOnce(started: seq<Command>, command: Command)
    requires Distinct(started) && command !in started
    ensures Distinct(started + [command])
  {
  }

  lemma NextKeeps(m: Machine, w: Waker, prepares: bool)
    requires Inv(m) && m.phase.AtNext?
    ensures Inv(Step(m, PollNext(w, prepares)))
  {
    hide Answered, Ordered, NeverTwice, SlotOwned, NoLostWakeup;
    var m' := Step(m, PollNext(w, prepares));
    NextOrder(m, w, prepares);
    NextSlot(m, w, prepares);
    NextWakes(m, w, prepares);
    SameAnswers(m, m');
  }

  lemma NextOrder(m: Machine, w: Waker, prepares: bool)
    requires Inv(m) && m.phase.AtNext?
    ensures var m' := StepNext(m, w, prepares); Ordered(m') && NeverTwice(m')
  {
    hide Distinct, HeadsBelow, NoLostWakeup, Answered, FinalKept;
    var r := NextPoll(m.shared, w).1;
    TakenIsNew(m, w);
    if r.Ready? && r.value.Some? {
      BegunOnce(m.started, r.value.value);
      OneMoreBelow(m.started, r.value.value, m.sends);
    }
  }

  lemma NextWakes(m: Machine, w: Waker, prepares: bool)
    requires Inv(m) && m.phase.AtNext?
    ensures var m' := StepNext(m, w, prepares); FinalKept(m') && NoLostWakeup(m')
  {
    hide Distinct, HeadsBelow, Ordered, NeverTwice, Answered;
  }

  lemma NextSlot(m: Machine, w: Waker, prepares: bool)
    requires Inv(m) && m.phase.AtNext?
    ensures var m' := StepNext(m, w, prepares);
      && !m'.misstep && SlotOwned(m')
      && m'.answers == m.answers && m'.sends == m.sends && m'.written == m.written
      && (m'.sending.Some? ==> m.sending.Some? && m'.sending.value.head == m.sending.value.head)
  {
    hide Distinct, HeadsBelow, Ordered, NeverTwice, Answered, FinalKept, NoLostWakeup, Rouse;
  }

  lemma OneMoreBelow(commands: seq<Command>, command: Command, n: nat)
    requires HeadsBelow(commands, n) && (command.WriteHead? ==> command.head < n)
    ensures HeadsBelow(commands + [command], n)
  {
  }

  lemma SameAnswers(m: Machine, m': Machine)
    requires Answered(m) && m'.answers == m.answers && m'.sends == m.sends && m.written <= m'.written
    requires m'.sending.Some? ==> m.sending.Some? && m'.sending.value.head == m.sending.value.head
    ensures Answered(m')
  {
  }

  lemma WriteKeeps(m: Machine, ok: bool)
    requires Inv(m) && m.phase.Busy?
    ensures Inv(Step(m, WriteEnds(ok)))
  {
    hide Answered, Ordered, NeverTwice, SlotOwned, NoLostWakeup;
    WriteOrder(m, ok);
    WriteSlot(m, ok);
    WriteWakes(m, ok);
    SameAnswers(m, Step(m, WriteEnds(ok)));
  }

  lemma WriteOrder(m: Machine, ok: bool)
    requires Inv(m) && m.phase.Busy?
    ensures var m' := Step(m, WriteEnds(ok)); Ordered(m') && NeverTwice(m') && m.written <= m'.written
  {
    hide Distinct, HeadsBelow, NoLostWakeup, Answered, FinalKept;
  }

  lemma WriteWakes(m: Machine, ok: bool)
    requires Inv(m) && m.phase.Busy?
    ensures var m' := Step(m, WriteEnds(ok)); FinalKept(m') && NoLostWakeup(m')
  {
    hide Distinct, HeadsBelow, NeverTwice, Answered, Ordered;
  }

  lemma WriteSlot(m: Machine, ok: bool)
    requires Inv(m) && m.phase.Busy?
    ensures var m' := Step(m, WriteEnds(ok));
      && !m'.misstep && SlotOwned(m')
      && m'.answers == m.answers && m'.sends == m.sends
      && (m'.sending.Some? ==> m.sending.Some? && m'.sending.value.head == m.sending.value.head)
  {
    hide Distinct, HeadsBelow, NeverTwice, Answered, FinalKept, NoLostWakeup, Rouse;
  }

  lemma FinalKeeps(m: Machine)
    requires Inv(m) && m.shared.admission != Shut
    ensures Inv(Step(m, ChooseFinal))
  {
    hide Distinct, HeadsBelow, Answered;
    var m' := Step(m, ChooseFinal);
    SameAnswers(m, m');
    assert SlotOwned(m') && Ordered(m') && NeverTwice(m');
  }

  lemma ShutKeeps(m: Machine)
    requires Inv(m) && m.permission.None? && m.phase.Stopped?
    ensures Inv(Step(m, DropReceiver))
  {
    hide Distinct, HeadsBelow, Answered;
    SameAnswers(m, Step(m, DropReceiver));
  }

  lemma StepKeeps(m: Machine, e: Event)
    requires Inv(m) && Enabled(m, e)
    ensures Inv(Step(m, e))
  {
    hide Inv, Step;
    match e
    case BeginSend(status) => BeginKeeps(m, status);
    case PollSend(_) => SendingKeeps(m, e);
    case DropSend => SendingKeeps(m, e);
    case PollNext(w, prepares) => NextKeeps(m, w, prepares);
    case WriteEnds(ok) => WriteKeeps(m, ok);
    case ChooseFinal => FinalKeeps(m);
    case DropReceiver => ShutKeeps(m);
    case BeginPermission => PermissionKeeps(m, e);
    case PollPermission(_) => PermissionKeeps(m, e);
    case DropPermission => PermissionKeeps(m, e);
    case CancelWriter => PermissionKeeps(m, e);
  }

  lemma {:induction false} EveryRun(m: Machine, events: seq<Event>)
    requires Inv(m) && Allowed(m, events)
    ensures Inv(RunFrom(m, events))
    decreases |events|
  {
    hide Inv, Step, Enabled;
    if events != [] {
      StepKeeps(m, events[0]);
      EveryRun(Step(m, events[0]), events[1..]);
    }
  }

  lemma InitialInv(max: nat)
    ensures Inv(Initial(max))
  {
  }

  /** At most one automatic 100 is begun, no head is begun twice, and at most `max` are written. */
  lemma WrittenAtMostOnce(max: nat, events: seq<Event>)
    requires Allowed(Initial(max), events)
    ensures var m := RunFrom(Initial(max), events);
      && Distinct(m.started) && m.written <= m.started && |m.written| <= m.max
  {
    hide Step, Enabled;
    InitialInv(max);
    EveryRun(Initial(max), events);
  }

  /** A send returns success only for its own head, written and flushed, however many earlier
      sends were cancelled in the middle of a write; and no send returns twice. */
  lemma SuccessMeansWritten(max: nat, events: seq<Event>)
    requires Allowed(Initial(max), events)
    ensures var m := RunFrom(Initial(max), events);
      && (forall i :: 0 <= i < |m.answers| && m.answers[i].1.Ok? ==> WriteHead(m.answers[i].0) in m.written)
      && (forall i, j :: 0 <= i < j < |m.answers| ==> m.answers[i].0 != m.answers[j].0)
  {
    hide Step, Enabled;
    InitialInv(max);
    EveryRun(Initial(max), events);
  }

  /** No informational write begins after the final response is selected, and the writer's
      unreachable arm is never reached. */
  lemma NothingAfterFinal(max: nat, events: seq<Event>)
    requires Allowed(Initial(max), events)
    ensures var m := RunFrom(Initial(max), events);
      !m.misstep && (m.finalAt.Some? ==> |m.started| == m.finalAt.value)
  {
    hide Step, Enabled;
    InitialInv(max);
    EveryRun(Initial(max), events);
  }

  lemma WakeupsAreNotLost(max: nat, events: seq<Event>)
    requires Allowed(Initial(max), events)
    ensures NoLostWakeup(RunFrom(Initial(max), events))
  {
    hide Step, Enabled, NoLostWakeup;
    InitialInv(max);
    EveryRun(Initial(max), events);
  }

  // ---- what every call answers ------------------------------------------------------

  lemma BeginIsExplained(m: Machine, status: nat)
    requires Inv(m) && Explained(m) && m.sending.None?
    ensures Explained(Step(m, BeginSend(status)))
  {
    hide Distinct, HeadsBelow, Answered, NoLostWakeup, NeverTwice, FinalKept, SlotOwned;
    NewHead(m);
  }

  lemma QuietIsExplained(m: Machine, e: Event)
    requires Inv(m) && Explained(m) && Enabled(m, e) && !e.BeginSend? && !e.PollNext? && !e.WriteEnds?
    ensures Explained(Step(m, e))
  {
    hide Distinct, HeadsBelow, Answered, NoLostWakeup, NeverTwice, Ordered;
  }

  lemma NextIsExplained(m: Machine, w: Waker, prepares: bool)
    requires Inv(m) && Explained(m) && m.phase.AtNext?
    ensures Explained(Step(m, PollNext(w, prepares)))
  {
    hide Distinct, HeadsBelow, Answered, NoLostWakeup, NeverTwice;
    TakenIsNew(m, w);
    var m' := Step(m, PollNext(w, prepares));
    assert m'.written == m.written && (m'.sending.Some? ==> m.sending.Some? && m'.sending.value.head == m.sending.value.head);
  }

  lemma WriteIsExplained(m: Machine, ok: bool)
    requires Inv(m) && Explained(m) && m.phase.Busy?
    ensures Explained(Step(m, WriteEnds(ok)))
  {
    hide Distinct, HeadsBelow, Answered, NoLostWakeup, FinalKept;
    var m' := Step(m, WriteEnds(ok));
    assert m'.started == m.started && m.phase.command in m.started;
    assert ok ==> forall c :: c in m'.written <==> c in m.written || c == m.phase.command;
    assert ok || m'.written == m.written;
  }

  lemma {:induction false} EveryRunExplains(m: Machine, events: seq<Event>)
    requires Inv(m) && Explained(m) && Allowed(m, events)
    ensures Inv(RunFrom(m, events)) && Explained(RunFrom(m, events))
    decreases |events|
  {
    hide Inv, Step, Explained;
    if events != [] {
      var e := events[0];
      StepKeeps(m, e);
      match e {
        case BeginSend(status) => BeginIsExplained(m, status);
        case PollNext(w, prepares) => NextIsExplained(m, w, prepares);
        case WriteEnds(ok) => WriteIsExplained(m, ok);
        case _ => QuietIsExplained(m, e);
      }
      EveryRunExplains(Step(m, e), events[1..]);
    }
  }

  /** In every run: a head is queued exactly when its status is its own, the writer is there, the final
      response is not selected and no abandoned write is in the way. */
  lemma QueueingIsAnswered(max: nat, events: seq<Event>, status: nat)
    requires Allowed(Initial(max), events) && RunFrom(Initial(max), events).sending.None?
    ensures var m := RunFrom(Initial(max), events); var r := Enqueue(m.shared, m.sends, status);
      && (r == Err(BadStatus) <==> status < 102 || 200 <= status)
      && (102 <= status < 200 ==>
            && (r == Err(WriterClosed) <==> m.shared.admission == Shut)
            && (r == Err(Late) <==> m.finalAt.Some? && m.shared.admission != Shut)
            && (!m.phase.Stopped? ==>
                  (r.Ok? <==> m.finalAt.None? && !(m.phase.Busy? && m.phase.command.WriteHead?))))
  {
    hide Step, Enabled;
    InitialInv(max);
    EveryRun(Initial(max), events);
  }

  /** In every run: a live send succeeds exactly when its head was written and flushed, waits while it is
      being written, and fails with the reason that fits what became of it. */
  lemma SendsAreAnswered(max: nat, events: seq<Event>, w: Waker)
    requires Allowed(Initial(max), events) && RunFrom(Initial(max), events).sending.Some?
    ensures var m := RunFrom(Initial(max), events); var r := SendPoll(m.shared, w).1;
      var command := WriteHead(m.sending.value.head);
      && (r == Ready(Ok(())) <==> command in m.written)
      && (m.phase == Busy(command) ==> r == Pending)
      && (r.Ready? && r.value.Err? ==>
            match r.value.error
            case Late => m.finalAt.Some? && command !in m.started
            case HeadRefused => command !in m.started
            case WriteFailed => command in m.started && command !in m.written
            case WriterClosed => m.shared.admission == Shut
            case _ => false)
  {
    hide Step, Enabled;
    InitialInv(max);
    EveryRunExplains(Initial(max), events);
  }

  /** In every run: demand for the body is released exactly when a Continue was written or the final
      response selected; and the writer stops exactly at final selection, writes the Continue that was
      asked for first, then the queued head, and otherwise waits. */
  lemma WaitsAreAnswered(max: nat, events: seq<Event>, w: Waker)
    requires Allowed(Initial(max), events)
    ensures var m := RunFrom(Initial(max), events);
      && (m.permission.Some? ==>
            PermissionPoll(m.shared, w).1
            == if m.finalAt.Some? || WriteContinue in m.written then Ready(Ok(())) else Pending)
      && (m.phase.AtNext? ==>
            NextPoll(m.shared, w).1
            == if m.finalAt.Some? then Ready(None)
               else if m.asked && WriteContinue !in m.written then Ready(Some(WriteContinue))
               else if m.sending.Some? && !m.shared.slot.Acknowledged? then Ready(Some(WriteHead(m.sending.value.head)))
               else Pending)
  {
    hide Step, Enabled;
    InitialInv(max);
    EveryRunExplains(Initial(max), events);
  }
}
