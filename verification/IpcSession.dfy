/** Whole runs of calls over one connection: loans are conserved and replies are isolated. */
module IpcSession {
  import opened Bytes
  import opened Frames
  import opened ControlCodec
  import opened ChunkAssembly
  import opened Loans
  import opened IpcReader
  import opened IpcCall

  // ----- receiving one reply

  datatype Received = Received(reply: Reply, used: seq<Frame>, conn: Conn) | NotReceived(error: CallError, conn: Conn)

  /** A delivered frame's descriptor is submitted once, before anything else is checked. */
  function AdmitDelivered(d: Conn, f: Frame, env: Env): Conn {
    if f.Has(FLAG_BUDDY) && d.hasMemory && DecodeBuddy(f.payload).Descriptor?
    then Admit(d, DecodeBuddy(f.payload).block, env.admits) else d
  }

  predicate HoldsLoan(d: Conn, f: Frame, env: Env) {
    f.Has(FLAG_BUDDY) && d.hasMemory && DecodeBuddy(f.payload).Descriptor? && env.admits
  }

  /** A rejected reply: its chunk sequence is discarded, and an admitted loan is released. */
  function RejectReply(d: Conn, f: Frame, env: Env, error: CallError): Received {
    var e := AdmitDelivered(d, f, env);
    var marked := if f.Has(FLAG_CHUNKED) && !f.Has(FLAG_CHUNK_LAST) then e.(discarding := e.discarding + {f.requestId}) else e;
    if HoldsLoan(d, f, env)
    then NotReceived(if env.releaseOk then error else Transport(OtherFailure), Settle(marked, Released(d.nextToken)))
    else NotReceived(error, marked)
  }

  /** What is done with a delivered frame once it has been examined. */
  ghost function Act(d: Conn, f: Frame, env: Env, id: nat, exam: Exam): Received {
    match exam
    case Reject(error) => RejectReply(d, f, env, error)
    case UseInline(payload) => Received(Inline(payload), [f], d)
    case UseShm(block) => Received(Shm(block, d.nextToken), [f], AdmitDelivered(d, f, env))
    case StartChunks =>
      match ReadChunked(d, f, id)
      case Assembled(payload, used, e) => Received(Inline(payload), used, e)
      case NotAssembled(kind, e) => NotReceived(Transport(kind), e)
  }

  ghost function Receive(c: Conn, id: nat, shmResponses: bool): Received {
    match Read(c, Some(id))
    case Failed(kind, d) => NotReceived(Transport(kind), d)
    case Delivered(f, env, d) => Act(d, f, env, id, Examine(f, id, env.admits, d.hasMemory, shmResponses))
  }

  /** What an accepting examination tells about the frame. */
  ghost predicate Justified(exam: Exam, f: Frame, id: nat, admitted: bool, hasMemory: bool) {
    match exam
    case Reject(_) => true
    case StartChunks => f.requestId == id && !f.Has(FLAG_BUDDY)
    case UseInline(payload) =>
      f.requestId == id && !f.Has(FLAG_BUDDY) && !f.Has(FLAG_CHUNKED) && DecodeReplyControl(f.payload) == Success(payload)
    case UseShm(block) =>
      f.requestId == id && f.Has(FLAG_BUDDY) && hasMemory && admitted && DecodeBuddy(f.payload) == Descriptor(block)
  }

  lemma ExamineJustified(f: Frame, id: nat, admitted: bool, hasMemory: bool, shmResponses: bool)
    ensures Justified(Examine(f, id, admitted, hasMemory, shmResponses), f, id, admitted, hasMemory)
  {}

  /** The loan a received reply still holds. */
  function Held(r: Received): set<nat> {
    if r.Received? && r.reply.Shm? then {r.reply.token} else {}
  }

  lemma AdmitDeliveredSettles(d: Conn, f: Frame, env: Env)
    requires SettledButLast(d) && d.taken[|d.taken| - 1] == Whole(f, env) && !IsRelease(f)
    ensures Settled(AdmitDelivered(d, f, env), d.taken, if HoldsLoan(d, f, env) then {d.nextToken} else {})
  {
    var n := |d.taken| - 1;
    assert d.taken[..n] + [Whole(f, env)] == d.taken;
    DescriptorsAppend(d.taken[..n], Whole(f, env));
    if f.Has(FLAG_BUDDY) && d.hasMemory && DecodeBuddy(f.payload).Descriptor? {
      if env.admits { AdmitInOrder(d, DecodeBuddy(f.payload).block); }
      else { FailedAdmitInOrder(d, DecodeBuddy(f.payload).block); }
    }
  }

  lemma RejectSettles(d: Conn, f: Frame, env: Env, error: CallError)
    requires SettledButLast(d) && d.taken[|d.taken| - 1] == Whole(f, env) && !IsRelease(f)
    ensures var r := RejectReply(d, f, env, error); r.NotReceived? && Settled(r.conn, r.conn.taken, {})
  {
    AdmitDeliveredSettles(d, f, env);
    if HoldsLoan(d, f, env) {
      var e := AdmitDelivered(d, f, env);
      SettleInOrder(e, Released(d.nextToken));
    }
  }

  lemma ActSettles(d: Conn, f: Frame, env: Env, id: nat, exam: Exam)
    requires SettledButLast(d) && d.taken[|d.taken| - 1] == Whole(f, env) && !IsRelease(f)
    requires Justified(exam, f, id, env.admits, d.hasMemory)
    ensures var r := Act(d, f, env, id, exam); Settled(r.conn, r.conn.taken, Held(r))
  {
    match exam {
      case Reject(error) => RejectSettles(d, f, env, error);
      case UseInline(_) => NoDescriptorSettles(d);
      case UseShm(_) => AdmitDeliveredSettles(d, f, env);
      case StartChunks =>
        NoDescriptorSettles(d);
        ChunkedSettles(d, f, id);
    }
  }

  /** Receiving conserves loans: only a shared-memory reply leaves one held, its own. */
  lemma ReceiveSettles(c: Conn, id: nat, shmResponses: bool)
    requires Settled(c, c.taken, {})
    ensures var r := Receive(c, id, shmResponses); Settled(r.conn, r.conn.taken, Held(r))
  {
    ReadLater(c, Some(id));
    ReadSettles(c, Some(id));
    var read := Read(c, Some(id));
    if read.Delivered? {
      ExamineJustified(read.frame, id, read.env.admits, read.conn.hasMemory, shmResponses);
      ActSettles(read.conn, read.frame, read.env, id,
                 Examine(read.frame, id, read.env.admits, read.conn.hasMemory, shmResponses));
    }
  }

  lemma ActTidy(d: Conn, f: Frame, env: Env, id: nat, exam: Exam, next: nat)
    requires Tidy(d, next) && id < next && f.requestId < next
    ensures Tidy(Act(d, f, env, id, exam).conn, next)
  {
    if exam.StartChunks? && Accepted([f], id) { ChunksTidy(d, id, [f], next); }
  }

  lemma ReceiveTidy(c: Conn, id: nat, shmResponses: bool, next: nat)
    requires Tidy(c, next) && id < next
    ensures Tidy(Receive(c, id, shmResponses).conn, next)
  {
    ReadTidy(c, Some(id), next);
    var read := Read(c, Some(id));
    if read.Delivered? {
      ActTidy(read.conn, read.frame, read.env, id,
              Examine(read.frame, id, read.env.admits, read.conn.hasMemory, shmResponses), next);
    }
  }

  lemma ActLater(d: Conn, f: Frame, env: Env, id: nat, exam: Exam)
    ensures Later(d, Act(d, f, env, id, exam).conn)
  {
    if exam.StartChunks? && Accepted([f], id) { ChunksLater(d, id, [f]); }
  }

  lemma ReceiveLater(c: Conn, id: nat, shmResponses: bool)
    ensures Later(c, Receive(c, id, shmResponses).conn)
  {
    ReadLater(c, Some(id));
    var read := Read(c, Some(id));
    if read.Delivered? {
      ActLater(read.conn, read.frame, read.env, id,
               Examine(read.frame, id, read.env.admits, read.conn.hasMemory, shmResponses));
      LaterTransitive(c, read.conn, Receive(c, id, shmResponses).conn);
    }
  }

  lemma ChunkedIsolated(d: Conn, f: Frame, id: nat)
    requires Accepted([f], id) && id !in d.discarding && !d.closing && ReadChunks(d, id, [f]).Assembled?
    ensures var out := ReadChunks(d, id, [f]);
            && BuiltFrom(Inline(out.payload), out.used, id)
            && |out.used| > 0 && out.used[0] == f
            && OwnFrames(out.conn.taken, id) == OwnFrames(d.taken, id) + out.used[1..]
  {
    ChunksIsolated(d, id, [f], ReadChunks(d, id, [f]));
    AssembledIsComplete(d, id, [f]);
    var used := ReadChunks(d, id, [f]).used;
    assert used[0] == used[..1][0];
    forall g | g in used ensures g.requestId == id {
      var i :| 0 <= i < |used| && used[i] == g;
      FedFrame(used, id, i);
    }
  }

  lemma ActIsolated(d: Conn, f: Frame, env: Env, id: nat, exam: Exam)
    requires id !in d.discarding && !d.closing && Act(d, f, env, id, exam).Received?
    requires Justified(exam, f, id, env.admits, d.hasMemory)
    ensures var r := Act(d, f, env, id, exam);
            && f.requestId == id && BuiltFrom(r.reply, r.used, id)
            && |r.used| > 0 && r.used[0] == f
            && OwnFrames(r.conn.taken, id) == OwnFrames(d.taken, id) + r.used[1..]
  {
    if exam.StartChunks? { ChunkedIsolated(d, f, id); }
  }

  /** A received reply is built from exactly the frames of its own id taken while it was read. */
  lemma ReceiveIsolated(c: Conn, id: nat, shmResponses: bool)
    requires id !in c.discarding && !c.closing && Receive(c, id, shmResponses).Received?
    ensures var r := Receive(c, id, shmResponses);
            && BuiltFrom(r.reply, r.used, id)
            && OwnFrames(r.conn.taken, id) == OwnFrames(c.taken, id) + r.used
  {
    OwnFramesAreDelivered(c, id);
    ReadLater(c, Some(id));
    var read := Read(c, Some(id));
    ExamineJustified(read.frame, id, read.env.admits, read.conn.hasMemory, shmResponses);
    ActIsolated(read.conn, read.frame, read.env, id,
                Examine(read.frame, id, read.env.admits, read.conn.hasMemory, shmResponses));
    JoinUsed(OwnFrames(c.taken, id), Receive(c, id, shmResponses).used);
  }

  lemma JoinUsed(before: seq<Frame>, used: seq<Frame>)
    requires |used| > 0
    ensures before + [used[0]] + used[1..] == before + used
  {}

  // ----- one call

  /** What the environment decides for one call: the upload, the allocation, the copy and the observer. */
  datatype Script = Script(chunkedUpload: bool, written: Option<FailureKind>, allocates: bool, copies: bool, observes: bool)

  datatype Outcome = Returned(reply: Reply, used: seq<Frame>, conn: Conn) | Raised(error: CallError, lost: bool, conn: Conn)

  /**
   * Hands a received reply to the caller; a loan is consumed, or released if no storage could be
   * allocated. An observer that throws fails the call after that.
   */
  function Finish(r: Received, s: Script): Outcome
    requires r.Received?
  {
    match r.reply
    case Inline(_) =>
      if s.allocates && s.observes then Returned(r.reply, r.used, r.conn) else Raised(Transport(OtherFailure), false, r.conn)
    case Shm(_, token) =>
      if !s.allocates then Raised(Transport(OtherFailure), false, Settle(r.conn, Released(token)))
      else if !s.copies || !s.observes then Raised(Transport(OtherFailure), false, Settle(r.conn, Consumed(token)))
      else Returned(r.reply, r.used, Settle(r.conn, Consumed(token)))
  }

  /** A chunked upload failed while its reply was being read; a reply that arrived anyway is given up. */
  function GiveUp(r: Received, kind: FailureKind): Outcome {
    match r
    case Received(Shm(_, token), _, d) => Raised(Transport(kind), true, Settle(d, Released(token)))
    case Received(Inline(_), _, d) => Raised(Transport(kind), true, d)
    case NotReceived(error, d) =>
      Raised(if error == Transport(ConnectionFailure) then error else Transport(kind), true, d)
  }

  function Conclude(r: Received, s: Script): Outcome {
    if s.written.Some? then GiveUp(r, s.written.value)
    else if r.Received? then Finish(r, s)
    else Raised(r.error, r.error == Transport(ConnectionFailure), r.conn)
  }

  /** A single-frame request that could not be written is not followed by a read. */
  ghost function Call(c: Conn, id: nat, shmResponses: bool, s: Script): Outcome {
    if !s.chunkedUpload && s.written.Some? then
      Raised(Transport(s.written.value), s.written.value == ConnectionFailure, c)
    else
      Conclude(Receive(c, id, shmResponses), s)
  }

  lemma SettleHeld(r: Received, e: LoanEvent)
    requires r.Received? && r.reply.Shm? && Settled(r.conn, r.conn.taken, Held(r))
    requires e == Consumed(r.reply.token) || e == Released(r.reply.token)
    ensures Settled(Settle(r.conn, e), r.conn.taken, {})
  {
    if r.conn.hasMemory { SettleInOrder(r.conn, e); }
  }

  /** However a call ends, every loan taken off the stream has been settled exactly once. */
  lemma CallSettles(c: Conn, id: nat, shmResponses: bool, s: Script)
    requires Settled(c, c.taken, {})
    ensures var out := Call(c, id, shmResponses, s); Settled(out.conn, out.conn.taken, {})
  {
    ReceiveSettles(c, id, shmResponses);
    ConcludeSettles(Receive(c, id, shmResponses), s);
  }

  lemma ConcludeSettles(r: Received, s: Script)
    requires Settled(r.conn, r.conn.taken, Held(r))
    ensures var out := Conclude(r, s); Settled(out.conn, out.conn.taken, {})
  {
    if r.Received? && r.reply.Shm? {
      SettleHeld(r, Released(r.reply.token));
      SettleHeld(r, Consumed(r.reply.token));
    }
  }

  // ----- route lookups

  /** A control exchange reads one frame; a descriptor on it is dropped. */
  function Control(c: Conn, id: nat): ReadResult {
    match Read(c, Some(id))
    case Failed(kind, d) => Failed(kind, d)
    case Delivered(f, env, d) =>
      var e := DropAnnounced(d, Whole(f, env));
      if f.Has(FLAG_BUDDY) && DropOutcome(f.payload, env, d.hasMemory).Some?
      then Failed(DropOutcome(f.payload, env, d.hasMemory).value, e)
      else Delivered(f, env, e)
  }

  lemma ControlSettles(c: Conn, id: nat)
    requires Settled(c, c.taken, {})
    ensures Settled(Control(c, id).conn, Control(c, id).conn.taken, {})
  {
    ReadLater(c, Some(id));
    ReadSettles(c, Some(id));
    var r := Read(c, Some(id));
    if r.Delivered? { DropLastSettles(r.conn, r.conn, Whole(r.frame, r.env)); }
  }

  // ----- whole runs

  /** One exchange of a run, with the arrivals that join the stream after its request went out. */
  datatype Exchange = Lookup(arrivals: seq<Arrival>) | Invoke(arrivals: seq<Arrival>, script: Script)

  /** A successful call: its reply, the frames it was built from, and everything taken up to then. */
  datatype Answer = Answer(id: nat, reply: Reply, used: seq<Frame>, taken: seq<Arrival>)

  datatype Run = Run(conn: Conn, answers: seq<Answer>)

  function Arrive(c: Conn, arrivals: seq<Arrival>): Conn { c.(incoming := c.incoming + arrivals) }

  /** Runs exchanges with ids `id`, `id + 1`, ... until the connection is lost or they are done. */
  ghost function RunExchanges(c: Conn, id: nat, shmResponses: bool, exchanges: seq<Exchange>): Run
    decreases |exchanges|
  {
    if exchanges == [] then Run(c, []) else
      var x, d := exchanges[0], Arrive(c, exchanges[0].arrivals);
      match x
      case Lookup(_) =>
        var r := Control(d, id);
        if r.Failed? && r.kind == ConnectionFailure then Run(r.conn, [])
        else RunExchanges(r.conn, id + 1, shmResponses, exchanges[1..])
      case Invoke(_, script) =>
        var out := Call(d, id, shmResponses, script);
        if out.Raised? && out.lost then Run(out.conn, [])
        else
          var rest := RunExchanges(out.conn, id + 1, shmResponses, exchanges[1..]);
          if out.Raised? then rest
          else Run(rest.conn, [Answer(id, out.reply, out.used, out.conn.taken)] + rest.answers)
  }

  /** Closing drains the stream: nothing is delivered any more, and every descriptor is dropped. */
  function Drain(c: Conn): ReadResult { Read(c.(closing := true), None) }

  lemma {:induction false} DrainDeliversNothing(c: Conn, expected: Option<nat>)
    requires c.closing
    ensures Read(c, expected).Failed?
    decreases |c.incoming|
  {
    if c.incoming != [] && !(c.hasMemory && c.incoming[0].env.tryClose) {
      var v := Judge(c.incoming[0], expected, c.discarding, true, c.hasMemory);
      if v.Skip? { DrainDeliversNothing(PassOver(c, v.discarding), expected); }
    }
  }

  lemma CallLater(c: Conn, id: nat, shmResponses: bool, s: Script)
    ensures Later(c, Call(c, id, shmResponses, s).conn)
  {
    ReceiveLater(c, id, shmResponses);
  }

  lemma ControlLater(c: Conn, id: nat)
    ensures Later(c, Control(c, id).conn)
  {
    ReadLater(c, Some(id));
    var r := Read(c, Some(id));
    if r.Delivered? { DropKeeps(r.conn, Whole(r.frame, r.env)); }
  }

  lemma {:induction false} RunKeepsMode(c: Conn, id: nat, shmResponses: bool, exchanges: seq<Exchange>)
    ensures var d := RunExchanges(c, id, shmResponses, exchanges).conn;
            d.hasMemory == c.hasMemory && d.closing == c.closing
    decreases |exchanges|
  {
    if exchanges != [] {
      var x, d := exchanges[0], Arrive(c, exchanges[0].arrivals);
      match x {
        case Lookup(_) =>
          ControlLater(d, id);
          RunKeepsMode(Control(d, id).conn, id + 1, shmResponses, exchanges[1..]);
        case Invoke(_, script) =>
          CallLater(d, id, shmResponses, script);
          RunKeepsMode(Call(d, id, shmResponses, script).conn, id + 1, shmResponses, exchanges[1..]);
      }
    }
  }

  lemma {:induction false} RunSettles(c: Conn, id: nat, shmResponses: bool, exchanges: seq<Exchange>)
    requires Settled(c, c.taken, {})
    ensures var run := RunExchanges(c, id, shmResponses, exchanges); Settled(run.conn, run.conn.taken, {})
    decreases |exchanges|
  {
    if exchanges != [] {
      var x, d := exchanges[0], Arrive(c, exchanges[0].arrivals);
      match x {
        case Lookup(_) =>
          ControlSettles(d, id);
          RunSettles(Control(d, id).conn, id + 1, shmResponses, exchanges[1..]);
        case Invoke(_, script) =>
          CallSettles(d, id, shmResponses, script);
          RunSettles(Call(d, id, shmResponses, script).conn, id + 1, shmResponses, exchanges[1..]);
      }
    }
  }

  /**
   * Loan conservation over every run: on a connection with native memory, after any exchanges
   * and a closing drain, the descriptors submitted for admission are exactly those taken off the
   * stream, in order, and every admitted loan has been consumed or released exactly once. Ids go
   * on over reconnects, so the run may start with any id.
   */
  lemma LoansAreConserved(arrivals: seq<Arrival>, first: nat, shmResponses: bool, exchanges: seq<Exchange>)
    ensures var run := RunExchanges(Opened(true, arrivals), first, shmResponses, exchanges);
            var end := Drain(run.conn);
            && end.Failed?
            && Submitted(run.conn.events) == Descriptors(run.conn.taken) && Balanced(run.conn.events, {})
            && Submitted(end.conn.events) == Descriptors(end.conn.taken) && Balanced(end.conn.events, {})
  {
    var c := Opened(true, arrivals);
    RunSettles(c, first, shmResponses, exchanges);
    RunKeepsMode(c, first, shmResponses, exchanges);
    var run := RunExchanges(c, first, shmResponses, exchanges);
    var closing := run.conn.(closing := true);
    ReadSettles(closing, None);
    DrainDeliversNothing(closing, None);
    ReadLater(closing, None);
  }

  // ----- isolation over whole runs

  /** Everything that has arrived or will arrive so far answers an id below `next`. */
  ghost predicate Answered(c: Conn, next: nat) {
    && Tidy(c, next)
    && forall a :: a in c.taken + c.incoming ==> Answers(a, next)
  }

  /** The server only ever answers requests already sent: exchange `i` uses id `id + i`. */
  ghost predicate AnswersSent(exchanges: seq<Exchange>, id: nat)
    decreases |exchanges|
  {
    exchanges != [] ==>
      && (forall a :: a in exchanges[0].arrivals ==> Answers(a, id + 1))
      && AnswersSent(exchanges[1..], id + 1)
  }

  lemma AnswersMore(a: Arrival, next: nat)
    requires Answers(a, next)
    ensures Answers(a, next + 1)
  {}

  lemma ArriveAnswered(c: Conn, arrivals: seq<Arrival>, id: nat)
    requires Answered(c, id) && forall a :: a in arrivals ==> Answers(a, id + 1)
    ensures Answered(Arrive(c, arrivals), id + 1)
  {
    var d := Arrive(c, arrivals);
    forall a | a in d.taken + d.incoming ensures Answers(a, id + 1) {
      if a in c.taken + c.incoming { AnswersMore(a, id); }
    }
    forall a | a in d.incoming ensures Answers(a, id + 1) {
      assert a in d.taken + d.incoming;
    }
  }

  lemma {:induction false} NoOwnFrames(arrivals: seq<Arrival>, id: nat)
    requires forall a :: a in arrivals ==> Answers(a, id)
    ensures OwnFrames(arrivals, id) == []
  {
    if arrivals != [] {
      assert arrivals[|arrivals| - 1] in arrivals;
      NoOwnFrames(arrivals[..|arrivals| - 1], id);
    }
  }

  /** The answer is built from its own frames, and they are all the frames of its id ever taken. */
  ghost predicate Isolated(a: Answer) {
    BuiltFrom(a.reply, a.used, a.id) && a.used == OwnFrames(a.taken, a.id)
  }

  lemma CallIsolated(c: Conn, d: Conn, id: nat, shmResponses: bool, s: Script)
    requires Answered(c, id) && !c.closing && d == c.(incoming := d.incoming)
    requires Call(d, id, shmResponses, s).Returned?
    ensures var out := Call(d, id, shmResponses, s); Isolated(Answer(id, out.reply, out.used, out.conn.taken))
  {
    assert id !in c.discarding;
    ReceiveIsolated(d, id, shmResponses);
    forall a | a in c.taken ensures Answers(a, id) { assert a in c.taken + c.incoming; }
    NoOwnFrames(c.taken, id);
  }

  lemma CallAnswered(d: Conn, id: nat, shmResponses: bool, s: Script)
    requires Answered(d, id + 1)
    ensures Answered(Call(d, id, shmResponses, s).conn, id + 1)
  {
    CallLater(d, id, shmResponses, s);
    ReceiveTidy(d, id, shmResponses, id + 1);
  }

  lemma ControlAnswered(d: Conn, id: nat)
    requires Answered(d, id + 1)
    ensures Answered(Control(d, id).conn, id + 1)
  {
    ControlLater(d, id);
    ReadTidy(d, Some(id), id + 1);
    var r := Read(d, Some(id));
    if r.Delivered? { DropKeeps(r.conn, Whole(r.frame, r.env)); }
  }

  lemma {:induction false} RunIsolates(c: Conn, id: nat, shmResponses: bool, exchanges: seq<Exchange>)
    requires Answered(c, id) && !c.closing && AnswersSent(exchanges, id)
    ensures forall a :: a in RunExchanges(c, id, shmResponses, exchanges).answers ==> Isolated(a)
    decreases |exchanges|
  {
    if exchanges != [] {
      var x, d := exchanges[0], Arrive(c, exchanges[0].arrivals);
      ArriveAnswered(c, x.arrivals, id);
      match x {
        case Lookup(_) =>
          ControlLater(d, id);
          ControlAnswered(d, id);
          RunIsolates(Control(d, id).conn, id + 1, shmResponses, exchanges[1..]);
        case Invoke(_, script) =>
          CallLater(d, id, shmResponses, script);
          CallAnswered(d, id, shmResponses, script);
          var out := Call(d, id, shmResponses, script);
          RunIsolates(out.conn, id + 1, shmResponses, exchanges[1..]);
          if out.Returned? {
            CallIsolated(c, d, id, shmResponses, script);
          }
      }
    }
  }

  /**
   * Reply isolation over every run: if the server answers only ids already sent, every successful
   * call's reply is built from frames of its own id, and none of them was lost to the discard
   * set, however earlier calls failed and whatever id the connection starts with.
   */
  lemma RepliesAreIsolated(hasMemory: bool, arrivals: seq<Arrival>, first: nat, shmResponses: bool, exchanges: seq<Exchange>)
    requires (forall a :: a in arrivals ==> Answers(a, first)) && AnswersSent(exchanges, first)
    ensures forall a :: a in RunExchanges(Opened(hasMemory, arrivals), first, shmResponses, exchanges).answers ==> Isolated(a)
  {
    RunIsolates(Opened(hasMemory, arrivals), first, shmResponses, exchanges);
  }

  /**
   * The server assumption matters: a chunk frame for an id not yet issued, met while waiting for
   * id `id`, puts that future id into the discard set.
   */
  lemma FutureFramePoisonsId(future: Frame, env: Env, id: nat, shmResponses: bool)
    requires future.requestId > id && future.Has(FLAG_CHUNKED) && !future.Has(FLAG_CHUNK_LAST)
    requires !future.Has(FLAG_BUDDY) && !IsRelease(future)
    ensures var r := Receive(Opened(true, [Whole(future, env)]), id, shmResponses);
            r.NotReceived? && future.requestId in r.conn.discarding
  {
    var c := Opened(true, [Whole(future, env)]);
    assert c.incoming[0] == Whole(future, env);
  }
}
