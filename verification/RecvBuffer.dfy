/** The receive buffer: two storage forms of one byte queue, and the single managed lease. */
module RecvBuffer {
  import opened Prelude

  /** Input retained in an owned buffer, or as a range of one leased pool buffer. */
  datatype Storage = Portable(bytes: Bytes) | Managed(buffer: Bytes, lo: nat, hi: nat)

  predicate Sound(s: Storage) { s.Managed? ==> s.lo < s.hi <= |s.buffer| }

  function BytesOf(s: Storage): Bytes
    requires Sound(s)
  {
    if s.Portable? then s.bytes else s.buffer[s.lo..s.hi]
  }

  datatype RecvError = Internal | RetainedLimit | Inconsistent | Transport | Canceled | MultipleLeases

  datatype ReadStatus = DataRead(count: nat) | EndOfFile

  /** Application data: shared bytes, or a view that holds the connection's lease. */
  datatype IncomingData = Owned(bytes: Bytes) | Leased(buffer: Bytes, lo: nat, hi: nat)
  {
    predicate Valid() { Leased? ==> lo <= hi <= |buffer| }

    function Data(): Bytes
      requires Valid()
    {
      if Owned? then bytes else buffer[lo..hi]
    }
  }

  /** What one transport read did: the bytes it put into the offered space and its report. */
  datatype Fill = Filled(bytes: Bytes, reported: nat) | FillFailed(bytes: Bytes)

  /** A managed read: one non-empty lease within the request, end of file, or an error. */
  datatype Lease = Leasing(bytes: Bytes) | LeaseEof | LeaseFailed

  predicate Offered(lease: Lease, preferredRead: nat)
  {
    lease.Leasing? ==> 0 < |lease.bytes| <= preferredRead
  }

  /** Limits one connection to one managed lease retained by application data. */
  class LeasePermit {
    var held: bool

    constructor ()
      ensures !held
    {
      held := false;
    }

    /** The last application view of a lease disappears. */
    method Release()
      requires held
      modifies this
      ensures !held
    {
      held := false;
    }
  }

  // ---- the buffer as a value --------------------------------------------------------

  /** The buffer's storage and limits, and whether the application holds the lease. */
  datatype Core = Core(storage: Storage, held: bool, preferredRead: nat, maxRetained: nat)

  predicate Bounded(c: Core)
  {
    Sound(c.storage) && |BytesOf(c.storage)| <= c.maxRetained
  }

  datatype Op =
    | DoConsume(count: nat)
    | DoTakePrefix(count: nat)
    | DoTakePayload(lo: nat, hi: nat, consumed: nat)
    | DoTakeAll
    | DoRead(canceled: bool, fill: Fill)
    | DoReadManaged(canceled: bool, fill: Fill, lease: Lease)
    | DoRelease

  /** The space the next portable read may fill. */
  function Room(c: Core): nat
    requires Bounded(c)
  {
    var available := c.maxRetained - |BytesOf(c.storage)|;
    if available < c.preferredRead then available else c.preferredRead
  }

  function Advance(s: Storage, count: nat): Storage
    requires Sound(s) && count <= |BytesOf(s)|
  {
    match s
    case Portable(bytes) => Portable(bytes[count..])
    case Managed(buffer, lo, hi) => if lo + count == hi then Portable([]) else Managed(buffer, lo + count, hi)
  }

  predicate PayloadFits(c: Core, lo: nat, hi: nat, consumed: nat)
    requires Sound(c.storage)
  {
    lo <= hi <= consumed <= |BytesOf(c.storage)|
  }

  /** What an operation adds to the retained bytes. */
  function Gain(c: Core, op: Op): Bytes
    requires Bounded(c)
  {
    match op
    case DoRead(canceled, fill) => if canceled || Room(c) == 0 then [] else fill.bytes
    case DoReadManaged(canceled, fill, lease) =>
      if canceled then []
      else if c.held || BytesOf(c.storage) != [] then if Room(c) == 0 then [] else fill.bytes
      else if lease.Leasing? then lease.bytes else []
    case _ => []
  }

  /** The buffer after an operation; a refused operation changes nothing. */
  function Act(c: Core, op: Op): Core
    requires Bounded(c)
  {
    var w := BytesOf(c.storage);
    match op
    case DoConsume(count) => if count > |w| then c else c.(storage := Advance(c.storage, count))
    case DoTakePrefix(count) => if count > |w| then c else c.(storage := Advance(c.storage, count))
    case DoTakePayload(lo, hi, consumed) =>
      if !PayloadFits(c, lo, hi, consumed) then c
      else c.(storage := Portable(w[consumed..]), held := c.held || c.storage.Managed?)
    case DoTakeAll => c.(storage := Portable([]))
    case DoRead(canceled, _) => if canceled then c else c.(storage := Portable(w + Gain(c, op)))
    case DoReadManaged(canceled, _, lease) =>
      if canceled then c
      else if c.held || w != [] then c.(storage := Portable(w + Gain(c, op)))
      else if lease.Leasing? then c.(storage := Managed(lease.bytes, 0, |lease.bytes|)) else c
    case DoRelease => c.(held := false)
  }

  // ---- the buffer as an object ------------------------------------------------------

  class Buffer {
    var storage: Storage
    var permit: LeasePermit?
    const preferredRead: nat
    const maxRetained: nat

    ghost predicate Valid()
      reads this, permit
    {
      && 0 < preferredRead <= maxRetained
      && Sound(storage) && |BytesOf(storage)| <= maxRetained
      && (storage.Managed? ==> permit != null && !permit.held)
    }

    function Contents(): Bytes
      requires Sound(storage)
      reads this
    {
      BytesOf(storage)
    }

    function View(): Core
      reads this, permit
    {
      Core(storage, permit != null && permit.held, preferredRead, maxRetained)
    }

    constructor (preferredRead: nat, maxRetained: nat)
      requires 0 < preferredRead <= maxRetained
      ensures Valid() && Contents() == [] && permit == null
      ensures View() == Core(Portable([]), false, preferredRead, maxRetained)
    {
      storage, permit := Portable([]), null;
      this.preferredRead, this.maxRetained := preferredRead, maxRetained;
    }

    /** Remove a parsed control prefix. */
    method Consume(count: nat) returns (r: Result<(), RecvError>)
      requires Valid()
      modifies this
      ensures Valid() && permit == old(permit)
      ensures r.Ok? <==> count <= |old(Contents())|
      ensures Contents() == if r.Ok? then old(Contents())[count..] else old(Contents())
      ensures View() == Act(old(View()), DoConsume(count))
    {
      if count > |BytesOf(storage)| { return Err(Internal); }
      match storage {
        case Portable(bytes) => storage := Portable(bytes[count..]);
        case Managed(buffer, lo, hi) =>
          // An emptied lease is given up at once.
          storage := if lo + count == hi then Portable([]) else Managed(buffer, lo + count, hi);
      }
      return Ok(());
    }

    /** Transfer a parsed prefix; later bytes stay. */
    method TakeSharedPrefix(count: nat) returns (r: Result<Bytes, RecvError>)
      requires Valid()
      modifies this
      ensures Valid() && permit == old(permit)
      ensures r.Ok? <==> count <= |old(Contents())|
      ensures r.Ok? ==> r.value == old(Contents())[..count] && Contents() == old(Contents())[count..]
      ensures r.Err? ==> Contents() == old(Contents())
      ensures View() == Act(old(View()), DoTakePrefix(count))
    {
      if count > |BytesOf(storage)| { return Err(Internal); }
      match storage
      case Portable(bytes) =>
        storage := Portable(bytes[count..]);
        return Ok(bytes[..count]);
      case Managed(buffer, lo, hi) =>
        storage := if lo + count == hi then Portable([]) else Managed(buffer, lo + count, hi);
        return Ok(buffer[lo..lo + count]);
    }

    /** Transfer a decoded payload range and discard the framing consumed with it. The lease
        permit is never already held here, so the multiple-lease error cannot occur. */
    method TakePayload(lo: nat, hi: nat, consumed: nat) returns (r: Result<IncomingData, RecvError>)
      requires Valid()
      modifies this, permit
      ensures Valid() && permit == old(permit)
      ensures r.Ok? <==> lo <= hi <= consumed <= |old(Contents())|
      ensures r.Ok? ==> r.value.Valid() && r.value.Data() == old(Contents())[lo..hi]
      ensures r.Ok? ==> Contents() == old(Contents())[consumed..] && storage.Portable?
      ensures r.Err? ==> r.error == Internal && Contents() == old(Contents())
      ensures View() == Act(old(View()), DoTakePayload(lo, hi, consumed))
      ensures r.Ok? ==> (r.value.Leased? <==> old(storage.Managed?))
    {
      if lo > hi || hi > consumed || consumed > |BytesOf(storage)| { return Err(Internal); }
      var taken := storage;
      storage := Portable([]);
      match taken
      case Portable(bytes) =>
        storage := Portable(bytes[consumed..]);
        SliceWithin(bytes, 0, |bytes|, lo, hi, consumed);
        return Ok(Owned(bytes[..consumed][..hi][lo..]));
      case Managed(buffer, start, end) =>
        SliceWithin(buffer, start, end, lo, hi, consumed);
        if start + consumed < end { storage := Portable(buffer[start + consumed..end]); }
        r := FromManaged(buffer, start + lo, start + hi);
    }

    /** Wrap a leased buffer as application data, claiming the permit. */
    method FromManaged(buffer: Bytes, lo: nat, hi: nat) returns (r: Result<IncomingData, RecvError>)
      requires permit != null
      modifies permit
      ensures lo > hi || hi > |buffer| ==> r == Err(Internal) && permit.held == old(permit.held)
      ensures lo <= hi <= |buffer| ==>
        r == (if old(permit.held) then Err(MultipleLeases) else Ok(Leased(buffer, lo, hi))) && permit.held
    {
      if lo > hi || hi > |buffer| { return Err(Internal); }
      if permit.held { return Err(MultipleLeases); }
      permit.held := true;
      return Ok(Leased(buffer, lo, hi));
    }

    /** The application drops its last view of the lease. */
    method ReleaseLease()
      requires Valid() && permit != null && permit.held
      modifies permit
      ensures Valid() && View() == Act(old(View()), DoRelease)
    {
      permit.Release();
    }

    /** Transfer all read-ahead. */
    method TakeAll() returns (bytes: Bytes)
      requires Valid()
      modifies this
      ensures Valid() && permit == old(permit)
      ensures bytes == old(Contents()) && Contents() == []
      ensures View() == Act(old(View()), DoTakeAll)
    {
      bytes := BytesOf(storage);
      storage := Portable([]);
    }

    /** Append one bounded completion read. A cancelled or full buffer reads nothing. */
    method Read(canceled: bool, fill: Fill) returns (r: Result<ReadStatus, RecvError>)
      requires Valid() && |fill.bytes| <= Room(View())
      modifies this
      ensures Valid() && permit == old(permit)
      ensures View() == Act(old(View()), DoRead(canceled, fill))
      ensures Contents() == old(Contents()) + Gain(old(View()), DoRead(canceled, fill))
      ensures canceled <==> r == Err(Canceled)
      ensures !canceled && |old(Contents())| == maxRetained <==> r == Err(RetainedLimit)
      ensures r.Ok? <==> !canceled && |old(Contents())| < maxRetained && fill == Filled(fill.bytes, |fill.bytes|)
      ensures r == Err(Transport) <==> !canceled && |old(Contents())| < maxRetained && fill.FillFailed?
      ensures r.Ok? && r.value.DataRead? ==> r.value.count == |fill.bytes| == |Gain(old(View()), DoRead(canceled, fill))| > 0
      ensures r == Ok(EndOfFile) ==> Gain(old(View()), DoRead(canceled, fill)) == []
    {
      if canceled { return Err(Canceled); }
      storage := Portable(BytesOf(storage));
      var start := |storage.bytes|;
      if maxRetained - start == 0 { return Err(RetainedLimit); }
      storage := Portable(storage.bytes + fill.bytes);
      if fill.FillFailed? { return Err(Transport); }
      if |storage.bytes| != start + fill.reported { return Err(Inconsistent); }
      return Ok(if fill.reported == 0 then EndOfFile else DataRead(fill.reported));
    }

    /** Read into a pool buffer when nothing is retained and no application view holds the lease;
        otherwise read portably. */
    method ReadManaged(canceled: bool, fill: Fill, lease: Lease) returns (r: Result<ReadStatus, RecvError>)
      requires Valid() && |fill.bytes| <= Room(View())
      requires Offered(lease, preferredRead)
      modifies this
      ensures Valid() && (permit == old(permit) || fresh(permit))
      ensures old(permit) != null ==> permit == old(permit)
      ensures View() == Act(old(View()), DoReadManaged(canceled, fill, lease))
      ensures Contents() == old(Contents()) + Gain(old(View()), DoReadManaged(canceled, fill, lease))
      ensures canceled <==> r == Err(Canceled)
      ensures old(View()).held || old(Contents()) != [] ==>
        (r.Ok? <==> !canceled && |old(Contents())| < maxRetained && fill == Filled(fill.bytes, |fill.bytes|))
      ensures !old(View()).held && old(Contents()) == [] ==> (r.Ok? <==> !canceled && !lease.LeaseFailed?)
      ensures r == Ok(EndOfFile) ==> Gain(old(View()), DoReadManaged(canceled, fill, lease)) == []
      ensures r.Ok? && r.value.DataRead? ==>
        0 < r.value.count == |Gain(old(View()), DoReadManaged(canceled, fill, lease))|
    {
      if canceled { return Err(Canceled); }
      if permit != null && permit.held {
        r := Read(canceled, fill);
        return;
      }
      if |BytesOf(storage)| > 0 {
        r := Read(canceled, fill);
        return;
      }
      match lease
      case Leasing(bytes) =>
        if permit == null { permit := new LeasePermit(); }
        storage := Managed(bytes, 0, |bytes|);
        return Ok(DataRead(|bytes|));
      case LeaseEof => return Ok(EndOfFile);
      case LeaseFailed => return Err(Transport);
    }
  }

  /** Slices of a range, counted from the start of the range or of the whole. */
  lemma SliceWithin(s: Bytes, start: nat, end: nat, lo: nat, hi: nat, consumed: nat)
    requires start <= end <= |s| && lo <= hi <= consumed <= end - start
    ensures s[start..end][lo..hi] == s[start + lo..start + hi]
    ensures s[start..end][consumed..] == s[start + consumed..end]
    ensures s[..consumed][..hi][lo..] == s[lo..hi]
  {
    var range := s[start..end];
    assert forall k :: 0 <= k < |range| ==> range[k] == s[start + k];
    assert range[lo..hi] == s[start + lo..start + hi];
    assert range[consumed..] == s[start + consumed..end];
  }

  /** How one submission to the read side goes: it gives up to `count` bytes, and none is end of file;
      it reports another count than it gave; or it breaks after giving some. */
  datatype ReadOutcome = Gives(count: nat) | Misreports(count: nat, reported: nat) | Breaks(count: nat)

  /** One wait for input: whether it is cancelled, how the read goes and by which strategy, and whether
      the application lets go of its leased view meanwhile. */
  datatype ReadTurn = ReadTurn(canceled: bool, outcome: ReadOutcome, managed: bool, releases: bool)

  type ReadAnswer = Result<ReadStatus, RecvError>

  /** Every read went well. */
  predicate AllOk(answers: seq<ReadAnswer>) { forall i :: 0 <= i < |answers| ==> answers[i].Ok? }

  /** The read side of an adversarial but honest transport: what it has delivered, what it could still
      deliver, how its reads will go, and how those that ended went. */
  class Reader {
    var delivered: Bytes
    var ahead: Bytes
    var script: seq<ReadTurn>
    var answers: seq<ReadAnswer>

    /** All that this side ever delivers: what it has and what it could still. */
    function Stream(): Bytes
      reads this
    {
      delivered + ahead
    }

    constructor (ahead: Bytes, script: seq<ReadTurn>)
      ensures delivered == [] && this.ahead == ahead && this.script == script && answers == []
    {
      delivered, this.ahead, this.script, answers := [], ahead, script, [];
    }

    /** The next bytes reach the receiver. */
    method Deliver(got: Bytes)
      requires got <= ahead
      modifies this`delivered, this`ahead
      ensures delivered == old(delivered) + got && Stream() == old(Stream())
    {
      assert ahead == got + ahead[|got|..];
      Assoc(delivered, got, ahead[|got|..]);
      delivered, ahead := delivered + got, ahead[|got|..];
    }
  }

  /** At most `count` and `space` bytes from the front. */
  function Front(ahead: Bytes, count: nat, space: nat): (bytes: Bytes)
    ensures bytes <= ahead && |bytes| <= space
  {
    var n := if count < space then count else space;
    if |ahead| <= n then ahead else ahead[..n]
  }

  function FillOf(outcome: ReadOutcome, ahead: Bytes, space: nat): (fill: Fill)
    ensures fill.bytes <= ahead && |fill.bytes| <= space
  {
    var bytes := Front(ahead, outcome.count, space);
    match outcome
    case Gives(_) => Filled(bytes, |bytes|)
    case Misreports(_, reported) => Filled(bytes, reported)
    case Breaks(_) => FillFailed(bytes)
  }

  function LeaseOf(outcome: ReadOutcome, ahead: Bytes, preferredRead: nat): (lease: Lease)
    ensures Offered(lease, preferredRead) && (lease.Leasing? ==> lease.bytes <= ahead)
  {
    var bytes := Front(ahead, outcome.count, preferredRead);
    if !outcome.Gives? then LeaseFailed else if bytes == [] then LeaseEof else Leasing(bytes)
  }

  /** A read adds nothing, or what the transport offered by the strategy used. */
  lemma GainIsOffered(c: Core, op: Op)
    requires Bounded(c) && (op.DoRead? || op.DoReadManaged?)
    ensures Gain(c, op) == [] || Gain(c, op) == op.fill.bytes || (op.DoReadManaged? && op.lease == Leasing(Gain(c, op)))
  {
  }

  /** One submission by either strategy; `got` is what it added, from the front of what lies ahead. */
  method Submit(buffer: Buffer, turn: ReadTurn, ahead: Bytes) returns (status: Result<ReadStatus, RecvError>, got: Bytes)
    requires buffer.Valid()
    modifies buffer, buffer.permit
    ensures buffer.Valid() && (buffer.permit == old(buffer.permit) || fresh(buffer.permit))
    ensures got <= ahead && buffer.Contents() == old(buffer.Contents()) + got
    ensures status.Ok? ==> (status.value.EndOfFile? <==> got == [])
    ensures status == Err(Canceled) <==> turn.canceled
    ensures !turn.canceled && turn.outcome.Gives? && |old(buffer.Contents())| < buffer.maxRetained ==>
      status.Ok? && (status.value.EndOfFile? <==> ahead == [] || turn.outcome.count == 0)
  {
    hide BytesOf, Act;
    if turn.releases && buffer.permit != null && buffer.permit.held { buffer.ReleaseLease(); }
    var fill := FillOf(turn.outcome, ahead, Room(buffer.View()));
    if turn.managed {
      var lease := LeaseOf(turn.outcome, ahead, buffer.preferredRead);
      got := Gain(buffer.View(), DoReadManaged(turn.canceled, fill, lease));
      GainIsOffered(buffer.View(), DoReadManaged(turn.canceled, fill, lease));
      status := buffer.ReadManaged(turn.canceled, fill, lease);
    } else {
      got := Gain(buffer.View(), DoRead(turn.canceled, fill));
      GainIsOffered(buffer.View(), DoRead(turn.canceled, fill));
      status := buffer.Read(turn.canceled, fill);
    }
  }

  /** Read once; `got` is what the read added, and it is what the reader delivered. Absent when the
      reader has nothing to answer yet. */
  method ReadOnce(reader: Reader, buffer: Buffer) returns (r: Option<Result<ReadStatus, RecvError>>, got: Bytes)
    requires buffer.Valid()
    modifies reader, buffer, buffer.permit
    ensures buffer.Valid() && (buffer.permit == old(buffer.permit) || fresh(buffer.permit))
    ensures buffer.Contents() == old(buffer.Contents()) + got
    ensures reader.delivered == old(reader.delivered) + got && reader.Stream() == old(reader.Stream())
    ensures r.None? <==> old(reader.script) == []
    ensures reader.script == if r.Some? then old(reader.script)[1..] else []
    ensures r.None? ==> got == []
    ensures r.Some? && r.value.Ok? ==> (r.value.value.EndOfFile? <==> got == [])
    ensures reader.answers == if r.Some? then old(reader.answers) + [r.value] else old(reader.answers)
    ensures r.Some? ==> (r.value == Err(Canceled) <==> old(reader.script)[0].canceled)
    ensures r.Some? ==>
      var turn := old(reader.script)[0];
      !turn.canceled && turn.outcome.Gives? && |old(buffer.Contents())| < buffer.maxRetained ==>
        r.value.Ok? && (r.value.value.EndOfFile? <==> old(reader.ahead) == [] || turn.outcome.count == 0)
  {
    hide BytesOf;
    got := [];
    if reader.script == [] { return None, got; }
    var turn := reader.script[0];
    reader.script := reader.script[1..];
    var status;
    status, got := Submit(buffer, turn, reader.ahead);
    reader.Deliver(got);
    reader.answers := reader.answers + [status];
    return Some(status), got;
  }

  /** The limits must be non-zero and ordered. */
  method NewBuffer(preferredRead: nat, maxRetained: nat) returns (r: Result<Buffer, RecvError>)
    ensures r.Ok? <==> 0 < preferredRead <= maxRetained
    ensures r.Ok? ==> fresh(r.value) && r.value.Valid() && r.value.Contents() == []
    ensures r.Ok? ==> r.value.View() == Begin(preferredRead, maxRetained).core
  {
    if preferredRead == 0 || preferredRead > maxRetained { return Err(RetainedLimit); }
    var buffer := new Buffer(preferredRead, maxRetained);
    return Ok(buffer);
  }

  // ---- whole connections ------------------------------------------------------------

  /** A connection's history: its buffer, the application's views of the lease, and every byte that
      came and went. */
  datatype Session = Session(core: Core, views: nat, received: Bytes, departed: seq<Departure>, leaseError: bool)

  /** How bytes leave the buffer. */
  datatype Departure = ControlPrefix(bytes: Bytes) | Payload(bytes: Bytes) | Discarded(bytes: Bytes) | ReadAhead(bytes: Bytes)

  /** An operation of the driver, or the application copying or dropping a view. */
  datatype Move = OnBuffer(op: Op) | CloneView | DropView

  function Begin(preferredRead: nat, maxRetained: nat): Session
  {
    Session(Core(Portable([]), false, preferredRead, maxRetained), 0, [], [], false)
  }

  function Left(departed: seq<Departure>): Bytes
  {
    if departed == [] then [] else Left(departed[..|departed| - 1]) + departed[|departed| - 1].bytes
  }

  /** What an operation lets go of, in order. */
  function Leaving(c: Core, op: Op): seq<Departure>
    requires Bounded(c)
  {
    var w := BytesOf(c.storage);
    match op
    case DoConsume(count) => if count > |w| then [] else [Discarded(w[..count])]
    case DoTakePrefix(count) => if count > |w| then [] else [ControlPrefix(w[..count])]
    case DoTakePayload(lo, hi, consumed) =>
      if !PayloadFits(c, lo, hi, consumed) then []
      else [Discarded(w[..lo]), Payload(w[lo..hi]), Discarded(w[hi..consumed])]
    case DoTakeAll => [ReadAhead(w)]
    case _ => []
  }

  /** The operation hands the lease to the application. */
  predicate HandsOverLease(c: Core, op: Op)
    requires Bounded(c)
  {
    op.DoTakePayload? && PayloadFits(c, op.lo, op.hi, op.consumed) && c.storage.Managed?
  }

  /** What the driver, an honest transport and the application can do next. */
  predicate Possible(s: Session, move: Move)
    requires Bounded(s.core)
  {
    match move
    case OnBuffer(DoRead(_, fill)) => |fill.bytes| <= Room(s.core)
    case OnBuffer(DoReadManaged(_, fill, lease)) => |fill.bytes| <= Room(s.core) && Offered(lease, s.core.preferredRead)
    case OnBuffer(DoRelease) => false   // happens only when the last view goes
    case OnBuffer(_) => true
    case CloneView => s.views > 0
    case DropView => s.views > 0
  }

  function Apply(s: Session, move: Move): Session
    requires Bounded(s.core) && Possible(s, move)
  {
    match move
    case OnBuffer(op) =>
      Session(Act(s.core, op), if HandsOverLease(s.core, op) then s.views + 1 else s.views,
              s.received + Gain(s.core, op), s.departed + Leaving(s.core, op),
              s.leaseError || (HandsOverLease(s.core, op) && s.core.held))
    case CloneView => s.(views := s.views + 1)
    case DropView => s.(views := s.views - 1, core := if s.views == 1 then Act(s.core, DoRelease) else s.core)
  }

  ghost predicate Good(s: Session)
  {
    && 0 < s.core.preferredRead <= s.core.maxRetained && Bounded(s.core)
    && (s.core.storage.Managed? ==> !s.core.held)
    && (s.core.held <==> s.views > 0)
    && !s.leaseError
    && s.received == Left(s.departed) + BytesOf(s.core.storage)
  }

  lemma {:induction false} LeftAppend(a: seq<Departure>, b: seq<Departure>)
    ensures Left(a + b) == Left(a) + Left(b)
  {
    if b == [] {
      assert a + b == a && Left(a) + [] == Left(a);
    } else {
      var n := |b| - 1;
      LeftAppend(a, b[..n]);
      assert (a + b)[..|a| + n] == a + b[..n];
      Assoc(Left(a), Left(b[..n]), b[n].bytes);
    }
  }

  lemma AdvanceBytes(s: Storage, count: nat)
    requires Sound(s) && count <= |BytesOf(s)|
    ensures Sound(Advance(s, count)) && BytesOf(Advance(s, count)) == BytesOf(s)[count..]
    ensures Advance(s, count).Managed? ==> s.Managed?
  {
  }

  lemma LeftOne(d: Departure)
    ensures Left([d]) == d.bytes
  {
    assert [d][..0] == [];
  }

  lemma LeftThree(a: Departure, b: Departure, d: Departure)
    ensures Left([a, b, d]) == a.bytes + b.bytes + d.bytes
  {
    assert [a, b, d] == [a] + [b] + [d];
    LeftAppend([a] + [b], [d]);
    LeftAppend([a], [b]);
    LeftOne(a);
    LeftOne(b);
    LeftOne(d);
  }

  /** An operation splits the retained bytes and what it gains into what leaves and what stays. */
  ghost predicate Splits(c: Core, op: Op)
    requires Bounded(c)
  {
    Bounded(Act(c, op)) && BytesOf(c.storage) + Gain(c, op) == Left(Leaving(c, op)) + BytesOf(Act(c, op).storage)
  }

  lemma CutAt(w: Bytes, n: nat)
    requires n <= |w|
    ensures w + [] == w[..n] + w[n..]
  {
  }

  /** A parsed prefix leaves. */
  lemma PrefixSplits(c: Core, op: Op)
    requires Bounded(c) && (op.DoConsume? || op.DoTakePrefix?)
    ensures Splits(c, op)
  {
    hide Left, Advance, BytesOf;
    LeftNone();
    var w := BytesOf(c.storage);
    if op.count <= |w| {
      AdvanceBytes(c.storage, op.count);
      LeftOne(if op.DoConsume? then Discarded(w[..op.count]) else ControlPrefix(w[..op.count]));
      CutAt(w, op.count);
    }
  }

  /** A payload leaves with the framing around it. */
  lemma PayloadSplits(c: Core, op: Op)
    requires Bounded(c) && op.DoTakePayload?
    ensures Splits(c, op)
  {
    hide Left;
    LeftNone();
    var w := BytesOf(c.storage);
    if PayloadFits(c, op.lo, op.hi, op.consumed) {
      LeftThree(Discarded(w[..op.lo]), Payload(w[op.lo..op.hi]), Discarded(w[op.hi..op.consumed]));
      assert w[..op.lo] + w[op.lo..op.hi] + w[op.hi..op.consumed] == w[..op.consumed];
      CutAt(w, op.consumed);
    }
  }

  lemma DepartureSplits(c: Core, op: Op)
    requires Bounded(c) && !op.DoRead? && !op.DoReadManaged?
    ensures Splits(c, op)
  {
    if op.DoConsume? || op.DoTakePrefix? {
      hide Splits;
      PrefixSplits(c, op);
    } else if op.DoTakePayload? {
      hide Splits;
      PayloadSplits(c, op);
    } else {
      hide Left;
      LeftNone();
      LeftOne(ReadAhead(BytesOf(c.storage)));
    }
  }

  lemma ReadSplits(c: Core, op: Op)
    requires Bounded(c) && (op.DoRead? || op.DoReadManaged?) && |op.fill.bytes| <= Room(c)
    requires op.DoReadManaged? ==> Offered(op.lease, c.preferredRead) && c.preferredRead <= c.maxRetained
    ensures Splits(c, op)
  {
    hide Left;
    LeftNone();
    assert op.DoReadManaged? && op.lease.Leasing? ==> op.lease.bytes[0..|op.lease.bytes|] == op.lease.bytes;
  }

  lemma OperationSplits(c: Core, op: Op)
    requires Bounded(c)
    requires op.DoRead? || op.DoReadManaged? ==> |op.fill.bytes| <= Room(c)
    requires op.DoReadManaged? ==> Offered(op.lease, c.preferredRead) && c.preferredRead <= c.maxRetained
    ensures Splits(c, op)
  {
    hide Splits, Act, Gain;
    if op.DoRead? || op.DoReadManaged? { ReadSplits(c, op); } else { DepartureSplits(c, op); }
  }

  lemma LeftNone()
    ensures Left([]) == []
  {
  }

  lemma ApplyKeeps(s: Session, move: Move)
    requires Good(s) && Possible(s, move)
    ensures Good(Apply(s, move))
  {
    hide Left;
    if move.OnBuffer? {
      var op := move.op;
      var leaving, gain := Leaving(s.core, op), Gain(s.core, op);
      var w, w' := BytesOf(s.core.storage), BytesOf(Act(s.core, op).storage);
      OperationSplits(s.core, op);
      LeftAppend(s.departed, leaving);
      Assoc(Left(s.departed), w, gain);
      Assoc(Left(s.departed), Left(leaving), w');
      LeaseKept(s.core, op);
    }
  }

  /** Managed storage and a held lease exclude each other. */
  lemma LeaseKept(c: Core, op: Op)
    requires Bounded(c) && (c.storage.Managed? ==> !c.held) && !op.DoRelease?
    ensures var d := Act(c, op);
      && (d.storage.Managed? ==> !d.held)
      && (d.held <==> c.held || HandsOverLease(c, op))
      && d.preferredRead == c.preferredRead && d.maxRetained == c.maxRetained
  {
  }

  ghost predicate Feasible(s: Session, moves: seq<Move>)
    decreases |moves|
  {
    moves == [] || (Bounded(s.core) && Possible(s, moves[0]) && Feasible(Apply(s, moves[0]), moves[1..]))
  }

  ghost function Perform(s: Session, moves: seq<Move>): Session
    requires Feasible(s, moves)
    decreases |moves|
  {
    if moves == [] then s else Perform(Apply(s, moves[0]), moves[1..])
  }

  lemma {:induction false} GoodStays(s: Session, moves: seq<Move>)
    requires Good(s) && Feasible(s, moves)
    ensures Good(Perform(s, moves))
    decreases |moves|
  {
    hide Left, Apply, Act;
    if moves != [] {
      ApplyKeeps(s, moves[0]);
      GoodStays(Apply(s, moves[0]), moves[1..]);
    }
  }

  /** Over every history of a connection, whose operations are those of `Buffer`: each received byte
      has left exactly once and in order, or is still retained; no more than the limit is retained;
      managed storage and a lease held by the application exclude each other, so a second lease is
      never handed out. */
  lemma EveryHistory(preferredRead: nat, maxRetained: nat, moves: seq<Move>)
    requires 0 < preferredRead <= maxRetained && Feasible(Begin(preferredRead, maxRetained), moves)
    ensures var s := Perform(Begin(preferredRead, maxRetained), moves);
      && Bounded(s.core) && s.received == Left(s.departed) + BytesOf(s.core.storage)
      && (s.core.storage.Managed? ==> s.views == 0) && (s.core.held <==> s.views > 0) && !s.leaseError
  {
    hide Apply, Act;
    assert Left([]) + [] == [];
    GoodStays(Begin(preferredRead, maxRetained), moves);
  }
}
