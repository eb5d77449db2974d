/** The reader of an open IPC connection: which arriving frames are skipped, delivered or fatal. */
module IpcReader {
  import opened Bytes
  import opened Frames
  import opened ControlCodec
  import opened Loans

  const RELEASE: byte := 0x17

  datatype FailureKind = ConnectionFailure | LocalPayload | Closed | OtherFailure
  datatype Flush = FlushOk | FlushBroken | FlushRefused

  /** What the environment answers while one arrival is handled. */
  datatype Env = Env(admits: bool, releaseOk: bool, flush: Flush, tryClose: bool)

  /**
   * What the stream produces next: a whole frame; a reply frame whose payload was read but could
   * not be allocated, with whatever prefix was kept; or a read that failed.
   */
  datatype Arrival =
    | Whole(frame: Frame, env: Env)
    | Unallocated(requestId: nat, flags: nat, prefix: Option<seq<byte>>, env: Env)
    | Broken(env: Env)

  predicate IsRelease(f: Frame) {
    f.payload != [] && f.payload[0] == RELEASE && f.Has(FLAG_CTRL)
  }

  /** The bytes of an arrival that announce a shared-memory descriptor, if it announces one. */
  function Announced(a: Arrival): Option<seq<byte>> {
    match a
    case Whole(f, _) => if f.Has(FLAG_BUDDY) && !IsRelease(f) then Some(f.payload) else None
    case Unallocated(_, flags, prefix, _) => if HasBit(flags, FLAG_BUDDY) then prefix else None
    case Broken(_) => None
  }

  /** The complete, nonzero-loan descriptor an arrival carries. */
  function DescriptorOf(a: Arrival): Option<Block> {
    match Announced(a)
    case None => None
    case Some(bytes) => if DecodeBuddy(bytes).Descriptor? then Some(DecodeBuddy(bytes).block) else None
  }

  function Descriptors(arrivals: seq<Arrival>): seq<Block> {
    if arrivals == [] then [] else
      var before, d := Descriptors(arrivals[..|arrivals| - 1]), DescriptorOf(arrivals[|arrivals| - 1]);
      if d.Some? then before + [d.value] else before
  }

  lemma DescriptorsAppend(arrivals: seq<Arrival>, a: Arrival)
    ensures Descriptors(arrivals + [a]) == Descriptors(arrivals) + if DescriptorOf(a).Some? then [DescriptorOf(a).value] else []
  {
    assert (arrivals + [a])[..|arrivals|] == arrivals;
  }

  // ----- the connection and its loans

  /**
   * An open connection: what is still to arrive, the ids whose chunk sequences are being
   * discarded, the calls made on the native memory context, and the arrivals already taken.
   */
  datatype Conn = Conn(
    hasMemory: bool, incoming: seq<Arrival>, discarding: set<nat>, closing: bool,
    events: seq<LoanEvent>, nextToken: nat, taken: seq<Arrival>)

  function Opened(hasMemory: bool, incoming: seq<Arrival>): Conn {
    Conn(hasMemory, incoming, {}, false, [], 0, [])
  }

  /** Submits a descriptor to native admission. */
  function Admit(c: Conn, block: Block, admits: bool): Conn {
    if admits then c.(events := c.events + [Admitted(block, c.nextToken)], nextToken := c.nextToken + 1)
    else c.(events := c.events + [AdmissionFailed(block)])
  }

  function Settle(c: Conn, e: LoanEvent): Conn { c.(events := c.events + [e]) }

  /** Submits a descriptor and, if it is admitted, releases the loan at once. */
  function AdmitAndRelease(c: Conn, block: Block, admits: bool): Conn {
    if admits then Settle(Admit(c, block, true), Released(c.nextToken)) else Admit(c, block, false)
  }

  /** The loan book is in order: no token is reused, and every admission is settled except those in `held`. */
  ghost predicate InOrder(c: Conn, held: set<nat>) {
    TokensBelow(c.events, c.nextToken) && Balanced(c.events, held)
  }

  /** Moreover exactly the descriptors of `arrivals` have been submitted, each once and in order. */
  ghost predicate Settled(c: Conn, arrivals: seq<Arrival>, held: set<nat>) {
    c.hasMemory ==> InOrder(c, held) && Submitted(c.events) == Descriptors(arrivals)
  }

  lemma AdmitInOrder(c: Conn, block: Block)
    requires InOrder(c, {})
    ensures var d := Admit(c, block, true);
            InOrder(d, {c.nextToken}) && Submitted(d.events) == Submitted(c.events) + [block]
  {
    AdmitBalances(c.events, {}, block, c.nextToken);
    AppendEvent(c.events, Admitted(block, c.nextToken));
    assert {} + {c.nextToken} == {c.nextToken};
  }

  lemma FailedAdmitInOrder(c: Conn, block: Block)
    requires InOrder(c, {})
    ensures var d := Admit(c, block, false);
            InOrder(d, {}) && Submitted(d.events) == Submitted(c.events) + [block]
  {
    FailedAdmissionBalances(c.events, {}, block);
    AppendEvent(c.events, AdmissionFailed(block));
  }

  lemma SettleInOrder(c: Conn, e: LoanEvent)
    requires (e.Consumed? || e.Released?) && InOrder(c, {e.token})
    ensures InOrder(Settle(c, e), {}) && Submitted(Settle(c, e).events) == Submitted(c.events)
  {
    SettleBalances(c.events, {e.token}, e);
    AppendEvent(c.events, e);
    assert {e.token} - {e.token} == {};
  }

  lemma AdmitAndReleaseInOrder(c: Conn, block: Block, admits: bool)
    requires InOrder(c, {})
    ensures var d := AdmitAndRelease(c, block, admits);
            InOrder(d, {}) && Submitted(d.events) == Submitted(c.events) + [block]
  {
    if admits {
      AdmitInOrder(c, block);
      SettleInOrder(Admit(c, block, true), Released(c.nextToken));
    } else {
      FailedAdmitInOrder(c, block);
    }
  }

  // ----- what the reader does with one arrival

  /** How releasing a descriptor nobody wants can end: quietly, or by failing the read. */
  function DropOutcome(bytes: seq<byte>, env: Env, hasMemory: bool): Option<FailureKind> {
    if !hasMemory then None else
      match DecodeBuddy(bytes)
      case Truncated => None
      case ZeroLoan => Some(ConnectionFailure)
      case Descriptor(_) =>
        if env.admits && !env.releaseOk then Some(OtherFailure)
        else match env.flush
          case FlushOk => None
          case FlushBroken => Some(ConnectionFailure)
          case FlushRefused => Some(OtherFailure)
  }

  /** Drops a descriptor nobody will use; a truncated or zero-loan one has no loan to drop. */
  function DropDescriptor(c: Conn, bytes: seq<byte>, env: Env): Conn {
    if c.hasMemory && DecodeBuddy(bytes).Descriptor? then AdmitAndRelease(c, DecodeBuddy(bytes).block, env.admits) else c
  }

  /** Drops the descriptor an arrival announces, if any. */
  function DropAnnounced(c: Conn, a: Arrival): Conn {
    if Announced(a).Some? then DropDescriptor(c, Announced(a).value, a.env) else c
  }

  /** Dropping what an arrival announces settles that arrival. */
  lemma DropSettles(c: Conn, before: seq<Arrival>, a: Arrival)
    requires Settled(c, before, {})
    ensures Settled(DropAnnounced(c, a), before + [a], {})
  {
    DescriptorsAppend(before, a);
    if c.hasMemory && DescriptorOf(a).Some? {
      AdmitAndReleaseInOrder(c, DescriptorOf(a).value, a.env.admits);
    }
  }

  datatype Verdict = Skip(discarding: set<nat>) | Deliver(frame: Frame, env: Env) | Fail(kind: FailureKind, discarding: set<nat>)

  /** Skips a frame, after dropping its descriptor if it has one. */
  function SkipFrame(f: Frame, env: Env, hasMemory: bool, before: set<nat>, after: set<nat>): Verdict {
    if f.Has(FLAG_BUDDY) && DropOutcome(f.payload, env, hasMemory).Some?
    then Fail(DropOutcome(f.payload, env, hasMemory).value, before)
    else Skip(after)
  }

  function Judge(a: Arrival, expected: Option<nat>, discarding: set<nat>, closing: bool, hasMemory: bool): Verdict {
    match a
    case Broken(_) => Fail(ConnectionFailure, discarding)
    case Unallocated(id, flags, prefix, env) =>
      var last := HasBit(flags, FLAG_CHUNK_LAST);
      if HasBit(flags, FLAG_BUDDY) && prefix.Some? && DropOutcome(prefix.value, env, hasMemory).Some?
      then Fail(DropOutcome(prefix.value, env, hasMemory).value, discarding)
      else if id in discarding then Skip(if last then discarding - {id} else discarding)
      else Fail(LocalPayload, if HasBit(flags, FLAG_CHUNKED) && !last then discarding + {id} else discarding)
    case Whole(f, env) =>
      if IsRelease(f) then (if hasMemory then Skip(discarding) else Fail(ConnectionFailure, discarding))
      else if f.requestId in discarding then
        SkipFrame(f, env, hasMemory, discarding,
                  if f.Has(FLAG_CHUNK_LAST) then discarding - {f.requestId} else discarding)
      else if expected.Some? && f.requestId != 0 && f.requestId < expected.value then
        SkipFrame(f, env, hasMemory, discarding, discarding)
      else if !closing then Deliver(f, env)
      else SkipFrame(f, env, hasMemory, discarding, discarding)
  }

  datatype ReadResult = Delivered(frame: Frame, env: Env, conn: Conn) | Failed(kind: FailureKind, conn: Conn)

  /** The next arrival, moved from the stream to the taken ones. */
  function Take(c: Conn): Conn
    requires c.incoming != []
  {
    c.(incoming := c.incoming[1..], taken := c.taken + [c.incoming[0]])
  }

  /** The state once arrival `a` has been taken but not delivered. */
  function PassOver(c: Conn, discarding: set<nat>): (d: Conn)
    requires c.incoming != []
    ensures d.incoming == c.incoming[1..] && d.taken == c.taken + [c.incoming[0]]
    ensures d.discarding == discarding && d.hasMemory == c.hasMemory && d.closing == c.closing
  {
    DropAnnounced(Take(c), c.incoming[0]).(discarding := discarding)
  }

  /**
   * The whole read: arrivals are skipped until one is delivered or fatal, or the stream ends.
   * Whatever is not delivered has its descriptor dropped.
   */
  function Read(c: Conn, expected: Option<nat>): ReadResult
    decreases |c.incoming|
  {
    if c.incoming == [] then Failed(ConnectionFailure, c)
    else if c.closing && c.hasMemory && c.incoming[0].env.tryClose then Failed(Closed, c)
    else
      match Judge(c.incoming[0], expected, c.discarding, c.closing, c.hasMemory)
      case Skip(next) => Read(PassOver(c, next), expected)
      case Deliver(f, env) => Delivered(f, env, Take(c))
      case Fail(kind, next) => Failed(kind, PassOver(c, next))
  }

  // ----- what every read keeps

  /** The arrivals taken between `c` and a later state `d` come off the front of the stream. */
  ghost predicate Later(c: Conn, d: Conn) {
    && d.hasMemory == c.hasMemory && d.closing == c.closing
    && |c.taken| <= |d.taken| && c.taken == d.taken[..|c.taken|]
    && c.taken + c.incoming == d.taken + d.incoming
  }

  lemma LaterTransitive(a: Conn, b: Conn, c: Conn)
    requires Later(a, b) && Later(b, c)
    ensures Later(a, c)
  {}

  lemma TakeLater(c: Conn)
    requires c.incoming != []
    ensures Later(c, Take(c))
  {
    assert c.incoming == [c.incoming[0]] + c.incoming[1..];
  }

  /** A delivered frame is the arrival taken last. */
  ghost predicate Newest(c: Conn, f: Frame, env: Env) {
    |c.taken| > 0 && c.taken[|c.taken| - 1] == Whole(f, env) && !IsRelease(f)
  }

  lemma {:induction false} ReadLater(c: Conn, expected: Option<nat>)
    ensures Later(c, Read(c, expected).conn)
    ensures var r := Read(c, expected);
            r.Delivered? ==>
              && |r.conn.incoming| < |c.incoming| && |r.conn.taken| > |c.taken|
              && Newest(r.conn, r.frame, r.env)
    decreases |c.incoming|
  {
    if c.incoming != [] && !(c.closing && c.hasMemory && c.incoming[0].env.tryClose) {
      TakeLater(c);
      var a := c.incoming[0];
      var v := Judge(a, expected, c.discarding, c.closing, c.hasMemory);
      if v.Skip? {
        var d := PassOver(c, v.discarding);
        ReadLater(d, expected);
        LaterTransitive(c, d, Read(d, expected).conn);
      }
    }
  }

  /** Everything taken before the newest arrival is settled. */
  ghost predicate SettledButLast(c: Conn) {
    |c.taken| > 0 && Settled(c, c.taken[..|c.taken| - 1], {})
  }

  /**
   * Loans are conserved by every read: all descriptors taken have been submitted once and
   * settled, except that a delivered frame's own descriptor is left to the caller.
   */
  lemma {:induction false} ReadSettles(c: Conn, expected: Option<nat>)
    requires Settled(c, c.taken, {})
    ensures Read(c, expected).Failed? ==> Settled(Read(c, expected).conn, Read(c, expected).conn.taken, {})
    ensures Read(c, expected).Delivered? ==> SettledButLast(Read(c, expected).conn)
    decreases |c.incoming|
  {
    if c.incoming != [] && !(c.closing && c.hasMemory && c.incoming[0].env.tryClose) {
      var v := Judge(c.incoming[0], expected, c.discarding, c.closing, c.hasMemory);
      match v {
        case Skip(next) =>
          PassOverSettles(c, next);
          ReadSettles(PassOver(c, next), expected);
        case Fail(_, next) =>
          PassOverSettles(c, next);
        case Deliver(_, _) =>
          assert Take(c).taken[..|c.taken|] == c.taken;
      }
    }
  }

  lemma PassOverSettles(c: Conn, discarding: set<nat>)
    requires c.incoming != [] && Settled(c, c.taken, {})
    ensures Settled(PassOver(c, discarding), PassOver(c, discarding).taken, {})
  {
    DropSettles(Take(c), c.taken, c.incoming[0]);
  }

  // ----- isolation

  /** A reply frame of request `id`. */
  predicate Own(a: Arrival, id: nat) {
    a.Whole? && a.frame.requestId == id && !IsRelease(a.frame)
  }

  /** The arrival concerns an id the client has already used. */
  predicate Answers(a: Arrival, next: nat) {
    match a
    case Whole(f, _) => f.requestId < next
    case Unallocated(id, _, _, _) => id < next
    case Broken(_) => true
  }

  /** The server has only answered ids below `next`, and only such ids are being discarded. */
  ghost predicate Tidy(c: Conn, next: nat) {
    && (forall a :: a in c.incoming ==> Answers(a, next))
    && (forall id :: id in c.discarding ==> id < next)
  }

  lemma {:induction false} ReadTidy(c: Conn, expected: Option<nat>, next: nat)
    requires Tidy(c, next)
    ensures var r := Read(c, expected); Tidy(r.conn, next) && (r.Delivered? ==> r.frame.requestId < next)
    decreases |c.incoming|
  {
    if c.incoming != [] && !(c.closing && c.hasMemory && c.incoming[0].env.tryClose) {
      var a := c.incoming[0];
      assert a in c.incoming;
      var v := Judge(a, expected, c.discarding, c.closing, c.hasMemory);
      if v.Skip? {
        ReadTidy(PassOver(c, v.discarding), expected, next);
      }
    }
  }

  /** The reply frames of request `id` among `arrivals`, in order. */
  ghost function OwnFrames(arrivals: seq<Arrival>, id: nat): seq<Frame> {
    if arrivals == [] then [] else
      var before, a := OwnFrames(arrivals[..|arrivals| - 1], id), arrivals[|arrivals| - 1];
      if Own(a, id) then before + [a.frame] else before
  }

  lemma OwnFramesAppend(arrivals: seq<Arrival>, a: Arrival, id: nat)
    ensures OwnFrames(arrivals + [a], id) == OwnFrames(arrivals, id) + if Own(a, id) then [a.frame] else []
  {
    assert (arrivals + [a])[..|arrivals|] == arrivals;
  }

  /**
   * For an id not being discarded no own frame is skipped: the own frames taken by a successful
   * read are the delivered frame, if it is own, and nothing else.
   */
  lemma {:induction false} OwnFramesAreDelivered(c: Conn, id: nat)
    requires id !in c.discarding && !c.closing && Read(c, Some(id)).Delivered?
    ensures var r := Read(c, Some(id));
            && id !in r.conn.discarding
            && OwnFrames(r.conn.taken, id) == OwnFrames(c.taken, id) + if r.frame.requestId == id then [r.frame] else []
    decreases |c.incoming|
  {
    var a := c.incoming[0];
    var v := Judge(a, Some(id), c.discarding, false, c.hasMemory);
    OwnFramesAppend(c.taken, a, id);
    if v.Skip? {
      OwnFramesAreDelivered(PassOver(c, v.discarding), id);
    }
  }

  /**
   * What the reader can pass over: a release notice for the native memory, or a whole frame of an
   * earlier id whose descriptor, if it has one, can be dropped.
   */
  predicate Stale(a: Arrival, id: nat, hasMemory: bool) {
    && a.Whole?
    && if IsRelease(a.frame) then hasMemory
       else 0 < a.frame.requestId < id
            && (a.frame.Has(FLAG_BUDDY) ==> DropOutcome(a.frame.payload, a.env, hasMemory).None?)
  }

  /**
   * Resynchronization: release notices and leftovers of earlier calls, whole or mid chunk sequence,
   * are passed over, and the next frame of the fresh id is delivered.
   */
  lemma {:induction false} ReadResynchronizes(c: Conn, stale: seq<Arrival>, own: Arrival, rest: seq<Arrival>, id: nat)
    requires !c.closing && (forall x :: x in c.discarding ==> x < id)
    requires (forall a :: a in stale ==> Stale(a, id, c.hasMemory)) && Own(own, id)
    requires c.incoming == stale + [own] + rest
    ensures var r := Read(c, Some(id));
            && r == Delivered(own.frame, own.env, r.conn) && r.conn.incoming == rest
            && !r.conn.closing && r.conn.hasMemory == c.hasMemory
            && (forall x :: x in r.conn.discarding ==> x < id)
    decreases |stale|
  {
    if stale == [] {
      assert c.incoming[0] == own && c.incoming[1..] == rest;
    } else {
      var a := stale[0];
      assert c.incoming[0] == a && a in stale;
      var v := Judge(a, Some(id), c.discarding, false, c.hasMemory);
      assert v.Skip?;
      assert c.incoming[1..] == stale[1..] + [own] + rest;
      ReadResynchronizes(PassOver(c, v.discarding), stale[1..], own, rest, id);
    }
  }

  /**
   * Without such server behaviour: an own frame is delivered exactly when its id is not being
   * discarded. Otherwise it is swallowed, and its last chunk ends the discarding, unless dropping
   * its descriptor fails.
   */
  lemma SwallowedExactlyWhenDiscarding(c: Conn, id: nat)
    requires c.incoming != [] && Own(c.incoming[0], id) && !c.closing
    ensures var own, r := c.incoming[0], Read(c, Some(id));
            var fails := own.frame.Has(FLAG_BUDDY) && DropOutcome(own.frame.payload, own.env, c.hasMemory).Some?;
            && (r == Delivered(own.frame, own.env, Take(c)) <==> id !in c.discarding)
            && (id in c.discarding && fails ==> r.Failed? && r.conn.incoming == c.incoming[1..])
            && (id in c.discarding && !fails ==>
                  r == Read(PassOver(c, if own.frame.Has(FLAG_CHUNK_LAST) then c.discarding - {id} else c.discarding), Some(id)))
  {
    if id in c.discarding {
      ReadLater(PassOver(c, c.discarding), Some(id));
      ReadLater(PassOver(c, c.discarding - {id}), Some(id));
    }
  }

  // ----- the connection object

  class OpenConnection {
    var state: Conn

    constructor (hasMemory: bool, arrivals: seq<Arrival>)
      ensures state == Opened(hasMemory, arrivals)
    {
      state := Opened(hasMemory, arrivals);
    }

    /** Admits a descriptor nobody will use, releases it at once, and flushes the release. */
    method DiscardShmFrame(bytes: seq<byte>, env: Env) returns (failure: Option<FailureKind>)
      modifies this
      ensures state == DropDescriptor(old(state), bytes, env)
      ensures failure == DropOutcome(bytes, env, old(state).hasMemory)
    {
      if !state.hasMemory { return None; }
      var block := DecodeBuddy(bytes);
      if block.ZeroLoan? { return Some(ConnectionFailure); }
      if block.Truncated? { return None; }
      var token := state.nextToken;
      state := Admit(state, block.block, env.admits);
      if env.admits {
        state := Settle(state, Released(token));
        if !env.releaseOk { return Some(OtherFailure); }
      }
      match env.flush {
        case FlushOk => return None;
        case FlushBroken => return Some(ConnectionFailure);
        case FlushRefused => return Some(OtherFailure);
      }
    }

    /** Handles one arrival that may carry a descriptor; reports what becomes of it. */
    method Handle(a: Arrival, expected: Option<nat>) returns (v: Verdict)
      modifies this
      ensures v == Judge(a, expected, old(state).discarding, old(state).closing, old(state).hasMemory)
      ensures state == if v.Deliver? then old(state) else DropAnnounced(old(state), a)
    {
      var discarding := state.discarding;
      match a {
        case Broken(_) => return Fail(ConnectionFailure, discarding);
        case Unallocated(id, flags, prefix, env) =>
          if HasBit(flags, FLAG_BUDDY) && prefix.Some? {
            var failure := DiscardShmFrame(prefix.value, env);
            if failure.Some? { return Fail(failure.value, discarding); }
          }
          var last := HasBit(flags, FLAG_CHUNK_LAST);
          if id in discarding { return Skip(if last then discarding - {id} else discarding); }
          return Fail(LocalPayload, if HasBit(flags, FLAG_CHUNKED) && !last then discarding + {id} else discarding);
        case Whole(f, env) =>
          if IsRelease(f) {
            if !state.hasMemory { return Fail(ConnectionFailure, discarding); }
            return Skip(discarding);
          }
          var after := discarding;
          if f.requestId in discarding {
            if f.Has(FLAG_CHUNK_LAST) { after := discarding - {f.requestId}; }
          } else if expected.Some? && f.requestId != 0 && f.requestId < expected.value {
          } else if !state.closing {
            return Deliver(f, env);
          }
          if f.Has(FLAG_BUDDY) {
            var failure := DiscardShmFrame(f.payload, env);
            if failure.Some? { return Fail(failure.value, discarding); }
          }
          return Skip(after);
      }
    }

    /** Reads until a frame is for the caller. */
    method ReadResponseFrame(expected: Option<nat>) returns (r: ReadResult)
      modifies this
      ensures r == Read(old(state), expected) && state == r.conn
    {
      while true
        invariant Read(state, expected) == Read(old(state), expected)
        decreases |state.incoming|
      {
        if state.incoming == [] { return Failed(ConnectionFailure, state); }
        if state.closing && state.hasMemory && state.incoming[0].env.tryClose { return Failed(Closed, state); }
        var a := state.incoming[0];
        state := Take(state);
        var v := Handle(a, expected);
        match v {
          case Skip(next) => state := state.(discarding := next);
          case Deliver(f, env) => return Delivered(f, env, state);
          case Fail(kind, next) =>
            state := state.(discarding := next);
            return Failed(kind, state);
        }
      }
    }
  }
}
