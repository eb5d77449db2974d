/** Replies that must succeed: what a well-behaved server sends is what the caller gets, behind any leftovers. */
module IpcReplies {
  import opened Bytes
  import opened Frames
  import opened ControlCodec
  import opened ChunkAssembly
  import opened Loans
  import opened IpcReader
  import opened IpcCall
  import opened IpcSession

  /** One frame of a reply, behind leftovers of earlier calls. */
  datatype Piece = Piece(stale: seq<Arrival>, frame: Frame, env: Env)

  /** What the stream carries. */
  ghost function Flow(pieces: seq<Piece>): seq<Arrival> {
    if pieces == [] then [] else
      pieces[0].stale + [Whole(pieces[0].frame, pieces[0].env)] + Flow(pieces[1..])
  }

  ghost function FramesOf(pieces: seq<Piece>): seq<Frame> {
    if pieces == [] then [] else [pieces[0].frame] + FramesOf(pieces[1..])
  }

  /** The connection is open, and only earlier ids are being discarded. */
  ghost predicate Ready(c: Conn, id: nat) {
    !c.closing && forall x :: x in c.discarding ==> x < id
  }

  /** The leftovers can be passed over, and the frames are of this request. */
  ghost predicate Harmless(pieces: seq<Piece>, id: nat, hasMemory: bool) {
    forall p :: p in pieces ==>
      Own(Whole(p.frame, p.env), id) && forall a :: a in p.stale ==> Stale(a, id, hasMemory)
  }

  lemma NextIsDelivered(c: Conn, p: Piece, rest: seq<Arrival>, id: nat)
    requires Ready(c, id) && Harmless([p], id, c.hasMemory)
    requires c.incoming == p.stale + [Whole(p.frame, p.env)] + rest
    ensures var r := Read(c, Some(id));
            && r == Delivered(p.frame, p.env, r.conn) && Ready(r.conn, id)
            && r.conn.incoming == rest && r.conn.hasMemory == c.hasMemory
  {
    assert p in [p];
    ReadResynchronizes(c, p.stale, Whole(p.frame, p.env), rest, id);
  }

  /** An inline success reply is returned, and nothing behind it is touched. */
  lemma InlineReplyIsReturned(c: Conn, p: Piece, rest: seq<Arrival>, id: nat, shmResponses: bool, data: seq<byte>)
    requires Ready(c, id) && Harmless([p], id, c.hasMemory)
    requires c.incoming == p.stale + [Whole(p.frame, p.env)] + rest
    requires p.frame.Has(FLAG_RESPONSE) && p.frame.Has(FLAG_REPLY_V2)
    requires !p.frame.Has(FLAG_BUDDY) && !p.frame.Has(FLAG_CHUNKED) && p.frame.payload == [0] + data
    ensures var r := Receive(c, id, shmResponses); r == Received(Inline(data), [p.frame], r.conn) && r.conn.incoming == rest
  {
    NextIsDelivered(c, p, rest, id);
    assert p in [p];
    assert p.frame.payload[1..] == data;
  }

  /** What the receiver looks at in a descriptor followed by an empty success control. */
  lemma {:induction false} DescribedSuccess(payload: seq<byte>, block: Block)
    requires InRange(block) && 0 < block.loanId <= MAX_U64 && payload == EncodeBuddy(block).value + [0]
    ensures |payload| == BUDDY_BYTES + 1 && DecodeBuddy(payload) == Descriptor(block)
    ensures payload[14] == if block.dedicated then BUDDY_FLAG_DEDICATED else 0
    ensures payload[BUDDY_BYTES..] == [0]
  {
    BuddyRoundTrip(block, [0]);
  }

  /** A shared-memory success reply is admitted once and returned with its loan. */
  lemma {:induction false} ShmReplyIsReturned(c: Conn, p: Piece, rest: seq<Arrival>, id: nat, block: Block)
    requires Ready(c, id) && Harmless([p], id, c.hasMemory) && c.hasMemory && p.env.admits
    requires c.incoming == p.stale + [Whole(p.frame, p.env)] + rest
    requires p.frame.Has(FLAG_RESPONSE) && p.frame.Has(FLAG_REPLY_V2)
    requires p.frame.Has(FLAG_BUDDY) && !p.frame.Has(FLAG_CHUNKED)
    requires InRange(block) && 0 < block.loanId <= MAX_U64 && block.byteLength <= MAX_PAYLOAD
    requires p.frame.payload == EncodeBuddy(block).value + [0]
    ensures var d, r := Read(c, Some(id)).conn, Receive(c, id, true);
            && r == Received(Shm(block, d.nextToken), [p.frame], Admit(d, block, true)) && r.conn.incoming == rest
  {
    NextIsDelivered(c, p, rest, id);
    assert p in [p];
    DescribedSuccess(p.frame.payload, block);
  }

  /** A service error reaches the caller as such. */
  lemma ServiceErrorIsRaised(c: Conn, p: Piece, rest: seq<Arrival>, id: nat, shmResponses: bool, data: seq<byte>)
    requires Ready(c, id) && Harmless([p], id, c.hasMemory)
    requires c.incoming == p.stale + [Whole(p.frame, p.env)] + rest
    requires p.frame.Has(FLAG_RESPONSE) && p.frame.Has(FLAG_REPLY_V2)
    requires !p.frame.Has(FLAG_BUDDY) && !p.frame.Has(FLAG_CHUNKED)
    requires |data| < Range(4) && p.frame.payload == [1] + LE(|data|, 4) + data
    ensures var r := Receive(c, id, shmResponses); r == NotReceived(MethodError(data), r.conn) && r.conn.incoming == rest
  {
    NextIsDelivered(c, p, rest, id);
    assert p in [p];
    ReadBack(|data|, 4);
    assert p.frame.payload[1..5] == LE(|data|, 4) && p.frame.payload[5..] == data;
  }

  // ----- chunked replies

  lemma {:induction false} FramesOfCount(pieces: seq<Piece>)
    ensures |FramesOf(pieces)| == |pieces|
  {
    if pieces != [] { FramesOfCount(pieces[1..]); }
  }

  /** Every nonempty prefix is acceptable. */
  ghost predicate Acceptable(frames: seq<Frame>, id: nat) {
    forall n :: 0 < n <= |frames| ==> Accepted(frames[..n], id)
  }

  /** One acceptable frame is read and fed. */
  lemma {:induction false} PieceIsRead(c: Conn, id: nat, fed: seq<Frame>, p: Piece, rest: seq<Arrival>, total: nat)
    requires Ready(c, id) && Harmless([p], id, c.hasMemory) && c.incoming == p.stale + [Whole(p.frame, p.env)] + rest
    requires Accepted(fed, id) && Opening(fed, id).totalChunks == total && |fed| < total
    requires Accepted(fed + [p.frame], id)
    ensures var d := Read(c, Some(id)).conn;
            && Ready(d, id) && d.hasMemory == c.hasMemory && d.incoming == rest
            && Opening(fed + [p.frame], id).totalChunks == total
            && ReadChunks(c, id, fed) == ReadChunks(d, id, fed + [p.frame])
  {
    NextIsDelivered(c, p, rest, id);
    ReadLater(c, Some(id));
    assert (fed + [p.frame])[0] == fed[0];
  }

  lemma {:induction false} ChunksAreRead(
      c: Conn, id: nat, fed: seq<Frame>, pieces: seq<Piece>, rest: seq<Arrival>, all: seq<Frame>, total: nat)
    requires Ready(c, id) && Harmless(pieces, id, c.hasMemory) && c.incoming == Flow(pieces) + rest
    requires all == fed + FramesOf(pieces) && Acceptable(all, id)
    requires Accepted(fed, id) && Opening(fed, id).totalChunks == total == |all|
    ensures var r := ReadChunks(c, id, fed); r.Assembled? && r.used == all && r.conn.incoming == rest
    decreases |pieces|
  {
    if pieces == [] {
      assert all == fed && Flow(pieces) + rest == rest;
    } else {
      var p, later := pieces[0], pieces[1..];
      SplitFlow(pieces, rest, id, c.hasMemory);
      NextPrefix(fed, pieces, all);
      var more := fed + [p.frame];
      PieceIsRead(c, id, fed, p, Flow(later) + rest, total);
      ChunksAreRead(Read(c, Some(id)).conn, id, more, later, rest, all, total);
    }
  }

  lemma {:induction false} NextPrefix(fed: seq<Frame>, pieces: seq<Piece>, all: seq<Frame>)
    requires pieces != [] && all == fed + FramesOf(pieces)
    ensures all == fed + [pieces[0].frame] + FramesOf(pieces[1..])
    ensures |fed| < |all| && all[..|fed| + 1] == fed + [pieces[0].frame]
  {
    FramesOfCount(pieces);
  }

  lemma {:induction false} SplitFlow(pieces: seq<Piece>, rest: seq<Arrival>, id: nat, hasMemory: bool)
    requires pieces != [] && Harmless(pieces, id, hasMemory)
    ensures var p, later := pieces[0], pieces[1..];
            && Flow(pieces) + rest == p.stale + [Whole(p.frame, p.env)] + (Flow(later) + rest)
            && Harmless([p], id, hasMemory) && Harmless(later, id, hasMemory)
  {
    assert pieces[0] in pieces;
    assert forall q :: q in pieces[1..] ==> q in pieces;
  }

  lemma PrefixesAreAccepted(
      frames: seq<Frame>, order: seq<nat>, id: nat, payload: seq<byte>, chunkSize: nat, total: nat)
    requires Regular(payload, chunkSize, total) && Ordering(order, total)
    requires Delivers(frames, order, id, payload, chunkSize, total)
    ensures Acceptable(frames, id)
  {
    forall n | 1 <= n <= |frames| ensures Accepted(frames[..n], id) {
      DeliveredIsAccepted(frames[..n], order[..n], id, payload, chunkSize, total);
    }
  }

  /**
   * A chunked reply of any regular layout, chunk 0 first and the rest in any order, with leftovers
   * of earlier calls anywhere between its frames, is returned as the payload the server sent.
   */
  lemma ChunkedReplyIsReturned(
      c: Conn, pieces: seq<Piece>, rest: seq<Arrival>, order: seq<nat>, id: nat, shmResponses: bool,
      payload: seq<byte>, chunkSize: nat, total: nat)
    requires Ready(c, id) && Harmless(pieces, id, c.hasMemory) && c.incoming == Flow(pieces) + rest
    requires Regular(payload, chunkSize, total) && Ordering(order, total)
    requires Delivers(FramesOf(pieces), order, id, payload, chunkSize, total)
    ensures var r := Receive(c, id, shmResponses);
            r == Received(Inline(payload), FramesOf(pieces), r.conn) && r.conn.incoming == rest
  {
    var all := FramesOf(pieces);
    FramesOfCount(pieces);
    PrefixesAreAccepted(all, order, id, payload, chunkSize, total);
    AnyOrderReassembles(all, order, id, payload, chunkSize, total);
    var p, later := pieces[0], pieces[1..];
    SplitFlow(pieces, rest, id, c.hasMemory);
    NextIsDelivered(c, p, Flow(later) + rest, id);
    var d := Read(c, Some(id)).conn;
    FirstChunkStarts(all, order, id, payload, chunkSize, total, d.hasMemory, shmResponses);
    assert all[..1] == [p.frame];
    ChunksAreRead(d, id, [p.frame], later, rest, all, total);
    AssembledIsComplete(d, id, [p.frame]);
  }

  lemma FirstChunkStarts(frames: seq<Frame>, order: seq<nat>, id: nat, payload: seq<byte>, chunkSize: nat, total: nat,
                         hasMemory: bool, shmResponses: bool)
    requires Regular(payload, chunkSize, total) && Ordering(order, total)
    requires Delivers(frames, order, id, payload, chunkSize, total)
    ensures frames != [] && |frames| == total && Accepted([frames[0]], id) && Opening([frames[0]], id).totalChunks == total
    ensures forall admitted :: Examine(frames[0], id, admitted, hasMemory, shmResponses) == StartChunks
  {
    assert Carries(frames[0], id, payload, chunkSize, total, order[0]);
    CarriedFlags(frames[0], id, payload, chunkSize, total, order[0]);
    assert frames[..1] == [frames[0]];
    DeliveredIsAccepted(frames[..1], order[..1], id, payload, chunkSize, total);
  }

  // ----- the whole call

  /** The request went out, and the caller's storage, copy and observer took the reply. */
  predicate Succeeds(s: Script) {
    s.written.None? && s.allocates && s.copies && s.observes
  }

  /** The call read on after its request: a single frame that could not be written ends it at once. */
  predicate Reads(s: Script) {
    s.chunkedUpload || s.written.None?
  }

  /** With an inline reply on the stream a call returns what the server sent, and takes no loan. */
  lemma InlineCallReturns(c: Conn, p: Piece, rest: seq<Arrival>, id: nat, shmResponses: bool, data: seq<byte>, s: Script)
    requires Ready(c, id) && Harmless([p], id, c.hasMemory) && Reads(s)
    requires c.incoming == p.stale + [Whole(p.frame, p.env)] + rest
    requires p.frame.Has(FLAG_RESPONSE) && p.frame.Has(FLAG_REPLY_V2)
    requires !p.frame.Has(FLAG_BUDDY) && !p.frame.Has(FLAG_CHUNKED) && p.frame.payload == [0] + data
    ensures var out := Call(c, id, shmResponses, s);
            && out.conn.incoming == rest && out.conn.events == Read(c, Some(id)).conn.events
            && (Succeeds(s) ==> out == Returned(Inline(data), [p.frame], out.conn))
            && (out.Returned? ==> out.reply == Inline(data))
  {
    InlineReplyIsReturned(c, p, rest, id, shmResponses, data);
    NextIsDelivered(c, p, rest, id);
    assert p.frame.payload[1..] == data;
  }

  /**
   * With a shared-memory reply on the stream a call returns the server's block, and however it
   * ends it admits the block once and then settles the loan once: consumed if the caller's
   * storage was there to copy into, and released otherwise.
   */
  lemma ShmCallSettles(c: Conn, p: Piece, rest: seq<Arrival>, id: nat, block: Block, s: Script)
    requires Ready(c, id) && Harmless([p], id, c.hasMemory) && c.hasMemory && p.env.admits && Reads(s)
    requires c.incoming == p.stale + [Whole(p.frame, p.env)] + rest
    requires p.frame.Has(FLAG_RESPONSE) && p.frame.Has(FLAG_REPLY_V2)
    requires p.frame.Has(FLAG_BUDDY) && !p.frame.Has(FLAG_CHUNKED)
    requires InRange(block) && 0 < block.loanId <= MAX_U64 && block.byteLength <= MAX_PAYLOAD
    requires p.frame.payload == EncodeBuddy(block).value + [0]
    ensures var d, out := Read(c, Some(id)).conn, Call(c, id, true, s);
            && out.conn.incoming == rest
            && out.conn.events == d.events + [Admitted(block, d.nextToken)]
                 + [if s.written.None? && s.allocates then Consumed(d.nextToken) else Released(d.nextToken)]
            && (Succeeds(s) ==> out == Returned(Shm(block, d.nextToken), [p.frame], out.conn))
            && (out.Returned? ==> Succeeds(s))
  {
    ShmReplyIsReturned(c, p, rest, id, block);
  }

  /** With a chunked reply on the stream, in any order and between leftovers, a call returns the server's payload. */
  lemma ChunkedCallReturns(
      c: Conn, pieces: seq<Piece>, rest: seq<Arrival>, order: seq<nat>, id: nat, shmResponses: bool,
      payload: seq<byte>, chunkSize: nat, total: nat, s: Script)
    requires Ready(c, id) && Harmless(pieces, id, c.hasMemory) && c.incoming == Flow(pieces) + rest && Reads(s)
    requires Regular(payload, chunkSize, total) && Ordering(order, total)
    requires Delivers(FramesOf(pieces), order, id, payload, chunkSize, total)
    ensures var out := Call(c, id, shmResponses, s);
            && out.conn.incoming == rest
            && (Succeeds(s) ==> out == Returned(Inline(payload), FramesOf(pieces), out.conn))
            && (out.Returned? ==> out.reply == Inline(payload))
  {
    ChunkedReplyIsReturned(c, pieces, rest, order, id, shmResponses, payload, chunkSize, total);
  }
}
