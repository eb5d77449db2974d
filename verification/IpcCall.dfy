/** One exchange over an open IPC connection: what a reply frame means, and how a chunked reply is read. */
module IpcCall {
  import opened Bytes
  import opened Frames
  import opened ControlCodec
  import opened ChunkAssembly
  import opened IpcReader

  // ----- reply frames

  datatype ReplyControl = Success(data: seq<byte>) | ServiceError(data: seq<byte>) | RouteMissing(name: seq<byte>) | Malformed

  function LengthPrefixed(payload: seq<byte>): Option<seq<byte>> {
    if |payload| < 5 || |payload| != 5 + FromLE(payload[1..5]) then None else Some(payload[5..])
  }

  function DecodeReplyControl(payload: seq<byte>): ReplyControl {
    if |payload| < 1 then Malformed
    else if payload[0] == 0 then Success(payload[1..])
    else if payload[0] == 1 then
      (match LengthPrefixed(payload) case None => Malformed case Some(data) => ServiceError(data))
    else if payload[0] == 2 then
      (match LengthPrefixed(payload) case None => Malformed case Some(name) => RouteMissing(name))
    else Malformed
  }

  datatype CallError = Transport(kind: FailureKind) | MethodError(data: seq<byte>) | RouteNotFound(name: seq<byte>)
  datatype Reply = Inline(payload: seq<byte>) | Shm(block: Block, token: nat)
  datatype Exam = Reject(error: CallError) | StartChunks | UseInline(payload: seq<byte>) | UseShm(block: Block)

  /** The checks on a delivered reply frame, in order; `admitted` is whether its descriptor was admitted. */
  function Examine(f: Frame, requestId: nat, admitted: bool, hasMemory: bool, shmResponses: bool): Exam {
    var buddy := f.Has(FLAG_BUDDY);
    if buddy && DecodeBuddy(f.payload).ZeroLoan? then Reject(Transport(ConnectionFailure))
    else if buddy && (DecodeBuddy(f.payload).Truncated? || !hasMemory || !admitted) then Reject(Transport(OtherFailure))
    else if f.requestId != requestId then Reject(Transport(OtherFailure))
    else if !f.Has(FLAG_RESPONSE) || !f.Has(FLAG_REPLY_V2) then Reject(Transport(OtherFailure))
    else if buddy && (f.payload[14] > 1 || DecodeBuddy(f.payload).block.byteLength > MAX_PAYLOAD
                      || !shmResponses || f.Has(FLAG_CHUNKED)) then Reject(Transport(OtherFailure))
    else if f.Has(FLAG_CHUNKED) then StartChunks
    else
      match DecodeReplyControl(if buddy then f.payload[BUDDY_BYTES..] else f.payload)
      case Malformed => Reject(Transport(OtherFailure))
      case ServiceError(data) => Reject(MethodError(data))
      case RouteMissing(name) => Reject(RouteNotFound(name))
      case Success(data) =>
        if !buddy then UseInline(data)
        else if data != [] then Reject(Transport(OtherFailure))
        else UseShm(DecodeBuddy(f.payload).block)
  }

  /** The reply is what the frames in `used`, all of request `id`, say it is. */
  ghost predicate BuiltFrom(reply: Reply, used: seq<Frame>, id: nat) {
    && (forall f :: f in used ==> f.requestId == id)
    && match reply
       case Inline(payload) =>
         || (Complete(used, id) && payload == Payload(used, id))
         || (|used| == 1 && !used[0].Has(FLAG_CHUNKED) && DecodeReplyControl(used[0].payload) == Success(payload))
       case Shm(block, _) => |used| == 1 && DecodeBuddy(used[0].payload) == Descriptor(block)
  }

  // ----- chunked replies

  /** A failed chunk sequence is discarded from here on, unless the frame that ended it was its last. */
  function Abandon(c: Conn, id: nat, last: Frame): Conn {
    if last.Has(FLAG_CHUNK_LAST) then c else c.(discarding := c.discarding + {id})
  }

  datatype Assembly = Assembled(payload: seq<byte>, used: seq<Frame>, conn: Conn)
                    | NotAssembled(kind: FailureKind, conn: Conn)

  /** How a rejected chunk frame fails the read: its descriptor is dropped, which may break the connection. */
  function RejectionKind(f: Frame, env: Env, hasMemory: bool): FailureKind {
    if f.Has(FLAG_BUDDY) && DropOutcome(f.payload, env, hasMemory) == Some(ConnectionFailure)
    then ConnectionFailure else OtherFailure
  }

  /** Reads chunks until the reply is complete; `fed` are the frames accepted so far. */
  ghost function ReadChunks(c: Conn, id: nat, fed: seq<Frame>): Assembly
    requires Accepted(fed, id)
    decreases |c.incoming|
  {
    if |fed| >= Opening(fed, id).totalChunks then Assembled(Payload(fed, id), fed, c) else
      ReadLater(c, Some(id));
      match Read(c, Some(id))
      case Failed(kind, d) => NotAssembled(kind, if kind == ConnectionFailure then d else Abandon(d, id, fed[|fed| - 1]))
      case Delivered(f, env, d) =>
        if Accepted(fed + [f], id) then ReadChunks(d, id, fed + [f])
        else NotAssembled(RejectionKind(f, env, d.hasMemory), DropAnnounced(Abandon(d, id, f), Whole(f, env)))
  }

  ghost function ReadChunked(c: Conn, first: Frame, id: nat): Assembly {
    if Accepted([first], id) then ReadChunks(c, id, [first]) else NotAssembled(OtherFailure, Abandon(c, id, first))
  }

  /** An accepted frame bears the request's id and no descriptor. */
  lemma FedFrame(fed: seq<Frame>, id: nat, i: nat)
    requires Accepted(fed, id) && i < |fed|
    ensures fed[i].requestId == id && !fed[i].Has(FLAG_BUDDY)
  {
    AcceptedFits(fed, id, i);
  }

  /** A frame without a descriptor changes nothing about the loans. */
  lemma NoDescriptorSettles(c: Conn)
    requires SettledButLast(c) && Announced(c.taken[|c.taken| - 1]).None?
    ensures Settled(c, c.taken, {})
  {
    var n := |c.taken| - 1;
    assert c.taken[..n] + [c.taken[n]] == c.taken;
    DescriptorsAppend(c.taken[..n], c.taken[n]);
  }

  /** Dropping the newest arrival's descriptor settles everything taken. */
  lemma DropLastSettles(c: Conn, d: Conn, a: Arrival)
    requires SettledButLast(c) && c.taken[|c.taken| - 1] == a
    requires d == c.(discarding := d.discarding)
    ensures Settled(DropAnnounced(d, a), c.taken, {}) && DropAnnounced(d, a).taken == c.taken
  {
    var n := |c.taken| - 1;
    assert c.taken[..n] + [a] == c.taken;
    DropSettles(d, c.taken[..n], a);
  }

  lemma AcceptedReadSettles(c: Conn, id: nat, fed: seq<Frame>)
    requires Settled(c, c.taken, {}) && Read(c, Some(id)).Delivered?
    requires Accepted(fed + [Read(c, Some(id)).frame], id)
    ensures Settled(Read(c, Some(id)).conn, Read(c, Some(id)).conn.taken, {})
  {
    ReadLater(c, Some(id));
    ReadSettles(c, Some(id));
    var r := Read(c, Some(id));
    FedFrame(fed + [r.frame], id, |fed|);
    NoDescriptorSettles(r.conn);
  }

  lemma RejectedReadSettles(c: Conn, id: nat)
    requires Settled(c, c.taken, {}) && Read(c, Some(id)).Delivered?
    ensures var r := Read(c, Some(id));
            var d := DropAnnounced(Abandon(r.conn, id, r.frame), Whole(r.frame, r.env));
            Settled(d, d.taken, {})
  {
    ReadLater(c, Some(id));
    ReadSettles(c, Some(id));
    var r := Read(c, Some(id));
    DropLastSettles(r.conn, Abandon(r.conn, id, r.frame), Whole(r.frame, r.env));
  }

  lemma {:induction false} ChunksSettle(c: Conn, id: nat, fed: seq<Frame>)
    requires Accepted(fed, id) && Settled(c, c.taken, {})
    ensures var out := ReadChunks(c, id, fed); Settled(out.conn, out.conn.taken, {})
    decreases |c.incoming|
  {
    if |fed| < Opening(fed, id).totalChunks {
      ReadLater(c, Some(id));
      var r := Read(c, Some(id));
      if r.Failed? {
        ReadSettles(c, Some(id));
      } else if Accepted(fed + [r.frame], id) {
        AcceptedReadSettles(c, id, fed);
        ChunksSettle(r.conn, id, fed + [r.frame]);
      } else {
        RejectedReadSettles(c, id);
      }
    }
  }

  lemma {:induction false} ChunksTidy(c: Conn, id: nat, fed: seq<Frame>, next: nat)
    requires Accepted(fed, id) && Tidy(c, next) && id < next
    ensures Tidy(ReadChunks(c, id, fed).conn, next)
    decreases |c.incoming|
  {
    if |fed| < Opening(fed, id).totalChunks {
      ReadLater(c, Some(id));
      ReadTidy(c, Some(id), next);
      var r := Read(c, Some(id));
      if r.Delivered? && Accepted(fed + [r.frame], id) { ChunksTidy(r.conn, id, fed + [r.frame], next); }
    }
  }

  lemma PrefixStep(used: seq<Frame>, fed: seq<Frame>, f: Frame, own: seq<Frame>)
    requires |used| > |fed| && used[..|fed| + 1] == fed + [f]
    ensures used[..|fed|] == fed
    ensures own + [f] + used[|fed| + 1..] == own + used[|fed|..]
  {
    assert used[..|fed|] == used[..|fed| + 1][..|fed|];
    assert used[|fed|] == used[..|fed| + 1][|fed|];
  }

  /** A read that ends in an assembled reply accepted the frame it delivered and went on with it. */
  lemma ChunkStep(c: Conn, id: nat, fed: seq<Frame>)
    requires Accepted(fed, id) && ReadChunks(c, id, fed).Assembled? && |fed| < Opening(fed, id).totalChunks
    ensures var r := Read(c, Some(id));
            && r.Delivered? && Accepted(fed + [r.frame], id) && |r.conn.incoming| < |c.incoming|
            && ReadChunks(c, id, fed) == ReadChunks(r.conn, id, fed + [r.frame])
  {
    ReadLater(c, Some(id));
  }

  /** The frame delivered within a reply is the next own frame. */
  lemma OwnStep(c: Conn, id: nat, fed: seq<Frame>)
    requires id !in c.discarding && !c.closing && Read(c, Some(id)).Delivered?
    requires Accepted(fed + [Read(c, Some(id)).frame], id)
    ensures var r := Read(c, Some(id));
            && id !in r.conn.discarding && !r.conn.closing
            && OwnFrames(r.conn.taken, id) == OwnFrames(c.taken, id) + [r.frame]
  {
    ReadLater(c, Some(id));
    OwnFramesAreDelivered(c, id);
    FedFrame(fed + [Read(c, Some(id)).frame], id, |fed|);
  }

  /** A reassembled reply is built from exactly the own frames taken while it was read. */
  lemma {:induction false} ChunksIsolated(c: Conn, id: nat, fed: seq<Frame>, out: Assembly)
    requires Accepted(fed, id) && id !in c.discarding && !c.closing
    requires out == ReadChunks(c, id, fed) && out.Assembled?
    ensures |out.used| >= |fed| && out.used[..|fed|] == fed
    ensures OwnFrames(out.conn.taken, id) == OwnFrames(c.taken, id) + out.used[|fed|..]
    decreases |c.incoming|
  {
    if |fed| < Opening(fed, id).totalChunks {
      ChunkStep(c, id, fed);
      OwnStep(c, id, fed);
      var r := Read(c, Some(id));
      var more := fed + [r.frame];
      ChunksIsolated(r.conn, id, more, out);
      PrefixStep(out.used, fed, r.frame, OwnFrames(c.taken, id));
    } else {
      assert fed[|fed|..] == [];
    }
  }

  lemma {:induction false} AssembledIsComplete(c: Conn, id: nat, fed: seq<Frame>)
    requires Accepted(fed, id) && ReadChunks(c, id, fed).Assembled?
    ensures var out := ReadChunks(c, id, fed); Complete(out.used, id) && out.payload == Payload(out.used, id)
    decreases |c.incoming|
  {
    if |fed| < Opening(fed, id).totalChunks {
      ChunkStep(c, id, fed);
      var r := Read(c, Some(id));
      AssembledIsComplete(r.conn, id, fed + [r.frame]);
    } else {
      AtMostTotal(fed, id);
    }
  }

  /** A rejected frame: its sequence is abandoned and its descriptor dropped. */
  method RejectChunk(conn: OpenConnection, f: Frame, env: Env, id: nat) returns (kind: FailureKind)
    requires !IsRelease(f)
    modifies conn
    ensures kind == RejectionKind(f, env, old(conn.state).hasMemory)
    ensures conn.state == DropAnnounced(Abandon(old(conn.state), id, f), Whole(f, env))
  {
    conn.state := Abandon(conn.state, id, f);
    var dropped := None;
    if f.Has(FLAG_BUDDY) { dropped := conn.DiscardShmFrame(f.payload, env); }
    kind := if dropped == Some(ConnectionFailure) then ConnectionFailure else OtherFailure;
  }

  /** Reads and feeds one more frame of a chunked reply; `last` is the frame fed before it. */
  method NextChunk(conn: OpenConnection, asm: Assembler, last: Frame, id: nat)
    returns (failure: Option<FailureKind>, f: Frame)
    requires asm.Valid() && asm.requestId == id && asm.fed != [] && asm.fed[|asm.fed| - 1] == last
    requires |asm.received| < asm.first.totalChunks
    modifies conn, asm, asm.assembled
    ensures asm.Valid()
    ensures failure.Some? ==> old(ReadChunks(conn.state, id, asm.fed)) == NotAssembled(failure.value, conn.state)
    ensures failure.None? ==>
              && asm.fed == old(asm.fed) + [f] && |conn.state.incoming| < |old(conn.state).incoming|
              && ReadChunks(conn.state, id, asm.fed) == old(ReadChunks(conn.state, id, asm.fed))
  {
    f := last;
    ReadLater(conn.state, Some(id));
    var r := conn.ReadResponseFrame(Some(id));
    if r.Failed? {
      if r.kind != ConnectionFailure { conn.state := Abandon(conn.state, id, last); }
      return Some(r.kind), f;
    }
    f := r.frame;
    var ok := asm.Feed(f);
    if !ok {
      var kind := RejectChunk(conn, f, r.env, id);
      return Some(kind), f;
    }
    failure := None;
  }

  /** Reads until every chunk has arrived; `start` is the frame the reply opened with. */
  method ReadRest(conn: OpenConnection, asm: Assembler, start: Frame, id: nat)
    returns (payload: Option<seq<byte>>, kind: FailureKind)
    requires asm.Valid() && asm.requestId == id && asm.fed == [start]
    modifies conn, asm, asm.assembled
    ensures var out := old(ReadChunks(conn.state, id, asm.fed));
            && conn.state == out.conn
            && (payload.Some? <==> out.Assembled?)
            && (out.Assembled? ==> payload.value == out.payload)
            && (out.NotAssembled? ==> kind == out.kind)
  {
    kind := OtherFailure;
    var last := start;
    while |asm.received| < asm.first.totalChunks
      invariant asm.Valid() && asm.fed != [] && asm.fed[|asm.fed| - 1] == last
      invariant ReadChunks(conn.state, id, asm.fed) == old(ReadChunks(conn.state, id, asm.fed))
      decreases |conn.state.incoming|
    {
      var failure, f := NextChunk(conn, asm, last, id);
      if failure.Some? { return None, failure.value; }
      last := f;
    }
    var whole := asm.Result();
    payload := Some(whole);
  }

  /** The reading loop around the assembler. */
  method ReadChunkedSuccessPayload(conn: OpenConnection, first: Frame, id: nat)
    returns (payload: Option<seq<byte>>, kind: FailureKind)
    modifies conn
    ensures var out := ReadChunked(old(conn.state), first, id);
            && conn.state == out.conn
            && (payload.Some? <==> out.Assembled?)
            && (out.Assembled? ==> payload.value == out.payload)
            && (out.NotAssembled? ==> kind == out.kind)
  {
    kind := OtherFailure;
    var opening := DecodeChunk(first, id);
    if opening.None? || !Opens(opening.value) {
      conn.state := Abandon(conn.state, id, first);
      return None, kind;
    }
    var asm := new Assembler(id, opening.value);
    var ok := asm.Feed(first);
    assert [] + [first] == [first];
    if !ok {
      conn.state := Abandon(conn.state, id, first);
      return None, kind;
    }
    payload, kind := ReadRest(conn, asm, first, id);
  }

  lemma ChunkedSettles(c: Conn, first: Frame, id: nat)
    requires Settled(c, c.taken, {})
    ensures var out := ReadChunked(c, first, id); Settled(out.conn, out.conn.taken, {})
  {
    if Accepted([first], id) { ChunksSettle(c, id, [first]); }
  }

  lemma DropKeeps(c: Conn, a: Arrival)
    ensures var d := DropAnnounced(c, a);
            d.incoming == c.incoming && d.taken == c.taken && d.discarding == c.discarding && Later(c, d)
  {}

  lemma {:induction false} ChunksLater(c: Conn, id: nat, fed: seq<Frame>)
    requires Accepted(fed, id)
    ensures Later(c, ReadChunks(c, id, fed).conn)
    decreases |c.incoming|
  {
    if |fed| < Opening(fed, id).totalChunks {
      ReadLater(c, Some(id));
      var r := Read(c, Some(id));
      if r.Delivered? {
        if Accepted(fed + [r.frame], id) {
          ChunksLater(r.conn, id, fed + [r.frame]);
          LaterTransitive(c, r.conn, ReadChunks(r.conn, id, fed + [r.frame]).conn);
        } else {
          DropKeeps(Abandon(r.conn, id, r.frame), Whole(r.frame, r.env));
        }
      }
    }
  }
}
