/** The serialized writer: whatever the native batch and the stream do, writes are linear. */
module WriteChain {
  import opened Bytes

  /** One queued write: a frame (or only pending releases), the prepared request it carries, and its kind. */
  datatype Job = Job(frame: Option<seq<byte>>, request: Option<nat>, control: bool)

  /** What the native context answers when a write begins. */
  datatype Begin = Throws | NoBatch | Batch(prefix: seq<byte>, startOk: bool)

  /** `Uncertain` is the connection failure: bytes were offered, and it is unknown whether they arrived. */
  datatype Result = Resolved | Refused | Uncertain

  /** A finished job: stopped before any byte was offered, or offered and ended. */
  datatype Ran = Stopped(begin: Begin) | Wrote(begin: Begin, writeOk: bool, completeOk: bool)

  /** Calls on the native batch, bytes offered to the stream, and how each write settled. */
  datatype Event =
    | Begun(ticket: nat, kind: nat, owned: Option<nat>)
    | Started(ticket: nat)
    | Offered(ticket: nat, bytes: seq<byte>)
    | Ended(ticket: nat, writeOk: bool)
    | Completed(ticket: nat, success: bool)
    | Dropped(ticket: nat)
    | Freed(ticket: nat, request: nat)
    | Settled(ticket: nat, result: Result)

  /** `jobs` in queueing order; the first |ran| are finished and the next one is active if `active` says so. */
  datatype Writer = Writer(
    jobs: seq<Job>, ran: seq<Ran>, active: Option<Begin>, log: seq<Event>, prepared: nat, unsent: seq<nat>)

  const IDLE := Writer([], [], None, [], 0, [])

  // ----- one job, by itself

  function Kind(job: Job): nat {
    if job.frame.None? then 2 else if job.control then 1 else 0
  }

  /** Whether the write reaches the stream. */
  predicate Starts(job: Job, begin: Begin) {
    match begin
    case Throws => false
    case NoBatch => job.frame.Some?
    case Batch(_, startOk) => startOk
  }

  /** The bytes offered: the batch's releases and then the frame. */
  function Unit(job: Job, begin: Begin): seq<byte> {
    var frame := if job.frame.Some? then job.frame.value else [];
    if begin.Batch? then begin.prefix + frame else frame
  }

  function Outcome(job: Job, ran: Ran): Result {
    match ran
    case Stopped(begin) => if begin.NoBatch? then Resolved else Refused
    case Wrote(begin, writeOk, completeOk) =>
      if writeOk && (begin.Batch? ==> completeOk) then Resolved else Uncertain
  }

  /** From the start of a job to the moment it waits for the stream, or stops. */
  function Opening(t: nat, job: Job, begin: Begin): seq<Event> {
    match begin
    case Batch(_, startOk) =>
      [Begun(t, Kind(job), job.request)]
      + if startOk then [Started(t), Offered(t, Unit(job, begin))] else [Dropped(t)]
    case _ =>
      if Starts(job, begin) then [Offered(t, Unit(job, begin))]
      else if job.request.Some? then [Freed(t, job.request.value)] else []
  }

  /** From there to the moment the write has settled. */
  function Closing(t: nat, job: Job, ran: Ran): seq<Event> {
    (if ran.Stopped? then []
     else if ran.begin.Batch? then [Ended(t, ran.writeOk), Completed(t, ran.writeOk)]
     else [Ended(t, ran.writeOk)])
    + [Settled(t, Outcome(job, ran))]
  }

  /** Everything job `t` does when nothing else happens in between. */
  function Trace(t: nat, job: Job, ran: Ran): seq<Event> {
    Opening(t, job, ran.begin) + Closing(t, job, ran)
  }

  /** The simple form: the jobs run one after the other. */
  ghost function Serial(jobs: seq<Job>, ran: seq<Ran>): seq<Event>
    requires |ran| <= |jobs|
    decreases |ran|
  {
    if ran == [] then [] else
      var n := |ran| - 1;
      Serial(jobs, ran[..n]) + Trace(n, jobs[n], ran[n])
  }

  // ----- the steps between two suspensions

  function Queue(s: Writer, job: Job): Writer {
    s.(jobs := s.jobs + [job])
  }

  /** A shared-memory call: the request is prepared, and handed to a write unless its frame cannot be encoded. */
  function QueueRequest(s: Writer, frame: Option<seq<byte>>): Writer {
    var s' := s.(prepared := s.prepared + 1);
    if frame.Some? then Queue(s', Job(frame, Some(s.prepared), false)) else s'.(unsent := s.unsent + [s.prepared])
  }

  predicate CanStart(s: Writer) {
    s.active.None? && |s.ran| < |s.jobs|
  }

  function Start(s: Writer, begin: Begin): Writer {
    if !CanStart(s) then s else
      var t := |s.ran|;
      var job := s.jobs[t];
      var log := s.log + Opening(t, job, begin);
      if Starts(job, begin) then s.(active := Some(begin), log := log)
      else s.(ran := s.ran + [Stopped(begin)], log := log + Closing(t, job, Stopped(begin)))
  }

  function Finish(s: Writer, writeOk: bool, completeOk: bool): Writer {
    if s.active.None? || |s.ran| >= |s.jobs| then s else
      var t, ran := |s.ran|, Wrote(s.active.value, writeOk, completeOk);
      s.(ran := s.ran + [ran], active := None, log := s.log + Closing(t, s.jobs[t], ran))
  }

  /** Any caller may queue at any time; the head of the chain starts and finishes as the stream allows. */
  datatype Step =
    | QueueFrame(frame: Option<seq<byte>>, control: bool)
    | QueueShm(frame: Option<seq<byte>>)
    | StartNext(begin: Begin)
    | FinishWrite(writeOk: bool, completeOk: bool)

  function Take(s: Writer, step: Step): Writer {
    match step
    case QueueFrame(frame, control) => Queue(s, Job(frame, None, control))
    case QueueShm(frame) => QueueRequest(s, frame)
    case StartNext(begin) => Start(s, begin)
    case FinishWrite(writeOk, completeOk) => Finish(s, writeOk, completeOk)
  }

  function Run(steps: seq<Step>): Writer {
    if steps == [] then IDLE else Take(Run(steps[..|steps| - 1]), steps[|steps| - 1])
  }

  /** The writer's in-place form; `started` and `batch` decide what the final clean-up does. */
  class FrameWriter {
    var state: Writer

    constructor ()
      ensures state == IDLE
    {
      state := IDLE;
    }

    method WriteBuddyCallRequest(frame: Option<seq<byte>>)
      modifies this
      ensures state == QueueRequest(old(state), frame)
    {
      var request := state.prepared;
      state := state.(prepared := request + 1);
      var handedOff := false;
      if frame.Some? {
        handedOff := true;
        state := state.(jobs := state.jobs + [Job(frame, Some(request), false)]);
      }
      if !handedOff { state := state.(unsent := state.unsent + [request]); }
    }

    method BeginWrite(begin: Begin)
      requires CanStart(state)
      modifies this
      ensures state == Start(old(state), begin)
    {
      var t, job := |state.ran|, state.jobs[|state.ran|];
      var log, batch, started := state.log, false, false;
      if begin.Batch? {
        batch := true;
        log := log + [Begun(t, Kind(job), job.request)];
        if begin.startOk {
          log := log + [Started(t)];
          started := true;
        }
      } else if begin.NoBatch? && job.frame.Some? {
        started := true;
      }
      if started {
        var bytes := if job.frame.Some? then job.frame.value else [];
        if batch { bytes := begin.prefix + bytes; }
        log := log + [Offered(t, bytes)];
        state := state.(active := Some(begin), log := log);
      } else {
        if batch { log := log + [Dropped(t)]; }
        if !batch && job.request.Some? { log := log + [Freed(t, job.request.value)]; }
        log := log + [Settled(t, if begin.NoBatch? then Resolved else Refused)];
        state := state.(ran := state.ran + [Stopped(begin)], log := log);
      }
      assert state.log == Start(old(state), begin).log;
    }

    method EndWrite(writeOk: bool, completeOk: bool)
      requires state.active.Some? && |state.ran| < |state.jobs|
      modifies this
      ensures state == Finish(old(state), writeOk, completeOk)
    {
      var t, begin := |state.ran|, state.active.value;
      var log, result := state.log + [Ended(t, writeOk)], Resolved;
      if begin.Batch? { log := log + [Completed(t, writeOk)]; }
      if !writeOk || (begin.Batch? && !completeOk) { result := Uncertain; }
      log := log + [Settled(t, result)];
      state := state.(ran := state.ran + [Wrote(begin, writeOk, completeOk)], active := None, log := log);
      assert state.log == Finish(old(state), writeOk, completeOk).log;
    }
  }

  // ----- every schedule is a serial one

  function Pending(s: Writer): seq<Event>
    requires s.active.Some? ==> |s.ran| < |s.jobs|
  {
    if s.active.None? then [] else Opening(|s.ran|, s.jobs[|s.ran|], s.active.value)
  }

  ghost predicate Sane(jobs: seq<Job>, ran: seq<Ran>) {
    && |ran| <= |jobs|
    && forall i :: 0 <= i < |ran| ==> (ran[i].Wrote? <==> Starts(jobs[i], ran[i].begin))
  }

  ghost predicate Linear(s: Writer) {
    && Sane(s.jobs, s.ran)
    && (s.active.Some? ==> |s.ran| < |s.jobs| && Starts(s.jobs[|s.ran|], s.active.value))
    && s.log == Serial(s.jobs, s.ran) + Pending(s)
  }

  lemma {:induction false} SerialGrows(jobs: seq<Job>, job: Job, ran: seq<Ran>)
    requires |ran| <= |jobs|
    ensures Serial(jobs + [job], ran) == Serial(jobs, ran)
    decreases |ran|
  {
    if ran != [] { SerialGrows(jobs, job, ran[..|ran| - 1]); }
  }

  lemma SerialStep(jobs: seq<Job>, ran: seq<Ran>, last: Ran)
    requires |ran| < |jobs|
    ensures Serial(jobs, ran + [last]) == Serial(jobs, ran) + Trace(|ran|, jobs[|ran|], last)
  {
    assert (ran + [last])[..|ran|] == ran;
  }

  lemma QueueKeepsLinear(s: Writer, job: Job)
    requires Linear(s)
    ensures Linear(Queue(s, job))
  {
    SerialGrows(s.jobs, job, s.ran);
  }

  /** Running one more job to its end extends the serial log by its trace. */
  lemma ClosingEndsJob(s: Writer, begin: Begin, ran: Ran)
    requires |s.ran| < |s.jobs| && ran.begin == begin
    ensures var t := |s.ran|;
            Serial(s.jobs, s.ran) + Opening(t, s.jobs[t], begin) + Closing(t, s.jobs[t], ran)
            == Serial(s.jobs, s.ran + [ran])
  {
    SerialStep(s.jobs, s.ran, ran);
    var t := |s.ran|;
    Associative(Serial(s.jobs, s.ran), Opening(t, s.jobs[t], begin), Closing(t, s.jobs[t], ran));
  }

  lemma Associative(a: seq<Event>, b: seq<Event>, c: seq<Event>)
    ensures a + b + c == a + (b + c)
  {}

  lemma {:induction false} StartedIsLinear(s: Writer, begin: Begin)
    requires Linear(s) && CanStart(s) && Starts(s.jobs[|s.ran|], begin)
    ensures Linear(Start(s, begin))
  {
    var empty: seq<Event> := [];
    assert s.log == Serial(s.jobs, s.ran) + empty == Serial(s.jobs, s.ran);
  }

  lemma {:induction false} StoppedIsLinear(s: Writer, begin: Begin)
    requires Linear(s) && CanStart(s) && !Starts(s.jobs[|s.ran|], begin)
    ensures Linear(Start(s, begin))
  {
    var empty: seq<Event> := [];
    assert s.log == Serial(s.jobs, s.ran) + empty == Serial(s.jobs, s.ran);
    ClosingEndsJob(s, begin, Stopped(begin));
  }

  lemma {:induction false} StartKeepsLinear(s: Writer, begin: Begin)
    requires Linear(s)
    ensures Linear(Start(s, begin))
  {
    if CanStart(s) && Starts(s.jobs[|s.ran|], begin) {
      StartedIsLinear(s, begin);
    } else if CanStart(s) {
      StoppedIsLinear(s, begin);
    }
  }

  lemma {:induction false} FinishKeepsLinear(s: Writer, writeOk: bool, completeOk: bool)
    requires Linear(s)
    ensures Linear(Finish(s, writeOk, completeOk))
  {
    if s.active.Some? {
      var t, ran := |s.ran|, Wrote(s.active.value, writeOk, completeOk);
      ClosingEndsJob(s, s.active.value, ran);
      var after := Finish(s, writeOk, completeOk);
      var empty: seq<Event> := [];
      assert after.log == s.log + Closing(t, s.jobs[t], ran) == Serial(s.jobs, s.ran + [ran]);
      assert after.log == after.log + empty;
    }
  }

  lemma {:induction false} TakeKeepsLinear(s: Writer, step: Step)
    requires Linear(s)
    ensures Linear(Take(s, step))
  {
    match step
    case QueueFrame(frame, control) => QueueKeepsLinear(s, Job(frame, None, control));
    case QueueShm(frame) =>
      QueueKeepsLinear(s.(prepared := s.prepared + 1), Job(frame, Some(s.prepared), false));
    case StartNext(begin) => StartKeepsLinear(s, begin);
    case FinishWrite(writeOk, completeOk) => FinishKeepsLinear(s, writeOk, completeOk);
  }

  /** Whatever the interleaving, the log is that of running the queued jobs one after the other, in order. */
  lemma {:induction false} RunIsSerial(steps: seq<Step>)
    ensures Linear(Run(steps))
  {
    if steps != [] {
      RunIsSerial(steps[..|steps| - 1]);
      TakeKeepsLinear(Run(steps[..|steps| - 1]), steps[|steps| - 1]);
    }
  }

  // ----- what the stream is offered

  ghost function Offers(log: seq<Event>): seq<Event> {
    if log == [] then [] else
      var before, e := Offers(log[..|log| - 1]), log[|log| - 1];
      if e.Offered? then before + [e] else before
  }

  lemma {:induction false} OffersAppend(a: seq<Event>, b: seq<Event>)
    ensures Offers(a + b) == Offers(a) + Offers(b)
    decreases |b|
  {
    if b == [] {
      assert a + b == a;
    } else {
      assert (a + b)[..|a + b| - 1] == a + b[..|b| - 1];
      OffersAppend(a, b[..|b| - 1]);
    }
  }

  /** One whole unit for each job that reached the stream, in queueing order. */
  ghost function Units(jobs: seq<Job>, ran: seq<Ran>): seq<Event>
    requires |ran| <= |jobs|
    decreases |ran|
  {
    if ran == [] then [] else
      var n := |ran| - 1;
      Units(jobs, ran[..n]) + if ran[n].Wrote? then [Offered(n, Unit(jobs[n], ran[n].begin))] else []
  }

  /** An offer is directly followed by its own end, and an end directly preceded by its own offer. */
  ghost predicate NeverInterleaved(log: seq<Event>) {
    && (forall i :: 0 <= i < |log| - 1 && log[i].Offered? ==> log[i + 1].Ended? && log[i + 1].ticket == log[i].ticket)
    && (forall i :: 0 <= i < |log| && log[i].Ended? ==>
          i > 0 && log[i - 1].Offered? && log[i - 1].ticket == log[i].ticket)
  }

  lemma {:induction false} NoOffers(log: seq<Event>)
    requires forall e :: e in log ==> !e.Offered?
    ensures Offers(log) == []
  {
    if log != [] { NoOffers(log[..|log| - 1]); }
  }

  lemma OpeningOffers(t: nat, job: Job, begin: Begin)
    ensures Offers(Opening(t, job, begin)) == if Starts(job, begin) then [Offered(t, Unit(job, begin))] else []
  {
    var all := Opening(t, job, begin);
    if Starts(job, begin) {
      NoOffers(all[..|all| - 1]);
    } else {
      NoOffers(all);
    }
  }

  lemma TraceOffers(t: nat, job: Job, ran: Ran)
    requires ran.Wrote? <==> Starts(job, ran.begin)
    ensures Offers(Trace(t, job, ran)) == if ran.Wrote? then [Offered(t, Unit(job, ran.begin))] else []
  {
    OpeningOffers(t, job, ran.begin);
    NoOffers(Closing(t, job, ran));
    OffersAppend(Opening(t, job, ran.begin), Closing(t, job, ran));
  }

  lemma {:induction false} SerialOffers(jobs: seq<Job>, ran: seq<Ran>)
    requires Sane(jobs, ran)
    ensures Offers(Serial(jobs, ran)) == Units(jobs, ran)
    decreases |ran|
  {
    if ran != [] {
      var n := |ran| - 1;
      SerialOffers(jobs, ran[..n]);
      TraceOffers(n, jobs[n], ran[n]);
      OffersAppend(Serial(jobs, ran[..n]), Trace(n, jobs[n], ran[n]));
    }
  }

  lemma {:induction false} UnitsAscend(jobs: seq<Job>, ran: seq<Ran>)
    requires |ran| <= |jobs|
    ensures forall e :: e in Units(jobs, ran) ==> e.ticket < |ran|
    ensures forall i, j :: 0 <= i < j < |Units(jobs, ran)| ==> Units(jobs, ran)[i].ticket < Units(jobs, ran)[j].ticket
    decreases |ran|
  {
    if ran != [] { UnitsAscend(jobs, ran[..|ran| - 1]); }
  }

  lemma JoinInterleaving(a: seq<Event>, b: seq<Event>)
    requires NeverInterleaved(a) && NeverInterleaved(b)
    requires a != [] ==> !a[|a| - 1].Offered?
    ensures NeverInterleaved(a + b)
  {}

  lemma TraceNeverInterleaved(t: nat, job: Job, ran: Ran)
    requires ran.Wrote? <==> Starts(job, ran.begin)
    ensures NeverInterleaved(Trace(t, job, ran))
    ensures Trace(t, job, ran) != [] && Trace(t, job, ran)[|Trace(t, job, ran)| - 1].Settled?
  {}

  lemma {:induction false} SerialNeverInterleaved(jobs: seq<Job>, ran: seq<Ran>)
    requires Sane(jobs, ran)
    ensures NeverInterleaved(Serial(jobs, ran))
    ensures ran != [] ==> Serial(jobs, ran) != [] && Serial(jobs, ran)[|Serial(jobs, ran)| - 1].Settled?
    decreases |ran|
  {
    if ran != [] {
      var n := |ran| - 1;
      SerialNeverInterleaved(jobs, ran[..n]);
      TraceNeverInterleaved(n, jobs[n], ran[n]);
      JoinInterleaving(Serial(jobs, ran[..n]), Trace(n, jobs[n], ran[n]));
      assert Serial(jobs, ran) == Serial(jobs, ran[..n]) + Trace(n, jobs[n], ran[n]);
    }
  }

  lemma {:induction false} OpeningNeverInterleaved(t: nat, job: Job, begin: Begin)
    ensures NeverInterleaved(Opening(t, job, begin))
  {}

  lemma {:induction false} PendingOffers(s: Writer)
    requires Linear(s)
    ensures Offers(Pending(s)) == if s.active.Some? then [Offered(|s.ran|, Unit(s.jobs[|s.ran|], s.active.value))] else []
    ensures NeverInterleaved(Pending(s))
  {
    if s.active.Some? {
      OpeningOffers(|s.ran|, s.jobs[|s.ran|], s.active.value);
      OpeningNeverInterleaved(|s.ran|, s.jobs[|s.ran|], s.active.value);
    }
  }

  /**
   * In every reachable state the stream has been offered whole units, prefix and then frame, in
   * queueing order, each ended before the next event of any other write.
   */
  lemma OffersAreWholeUnitsInOrder(steps: seq<Step>)
    ensures var s := Run(steps);
            && Sane(s.jobs, s.ran) && (s.active.Some? ==> |s.ran| < |s.jobs|)
            && Offers(s.log) == Units(s.jobs, s.ran)
                 + (if s.active.Some? then [Offered(|s.ran|, Unit(s.jobs[|s.ran|], s.active.value))] else [])
            && NeverInterleaved(s.log)
  {
    RunIsSerial(steps);
    var s := Run(steps);
    SerialOffers(s.jobs, s.ran);
    SerialNeverInterleaved(s.jobs, s.ran);
    PendingOffers(s);
    OffersAppend(Serial(s.jobs, s.ran), Pending(s));
    JoinInterleaving(Serial(s.jobs, s.ran), Pending(s));
  }

  // ----- every batch is closed once

  /** What to count in a log: the events of one job's batch, or what happens to one request. */
  datatype Mark =
    | Begins(ticket: nat)
    | Starting(ticket: nat)
    | Completes(ticket: nat)
    | Drops(ticket: nat)
    | Settles(ticket: nat)
    | Disposes(request: nat)

  /** A request is disposed of when it is handed to a batch, or given back. */
  predicate Bears(e: Event, m: Mark) {
    match m
    case Begins(t) => e.Begun? && e.ticket == t
    case Starting(t) => e.Started? && e.ticket == t
    case Completes(t) => e.Completed? && e.ticket == t
    case Drops(t) => e.Dropped? && e.ticket == t
    case Settles(t) => e.Settled? && e.ticket == t
    case Disposes(r) => (e.Begun? && e.owned == Some(r)) || (e.Freed? && e.request == r)
  }

  function One(b: bool): nat {
    if b then 1 else 0
  }

  ghost function Count(log: seq<Event>, m: Mark): nat {
    if log == [] then 0 else Count(log[..|log| - 1], m) + One(Bears(log[|log| - 1], m))
  }

  lemma {:induction false} CountAppend(a: seq<Event>, b: seq<Event>, m: Mark)
    ensures Count(a + b, m) == Count(a, m) + Count(b, m)
    decreases |b|
  {
    if b == [] {
      assert a + b == a;
    } else {
      assert (a + b)[..|a + b| - 1] == a + b[..|b| - 1];
      CountAppend(a, b[..|b| - 1], m);
    }
  }

  lemma {:induction false} CountNone(log: seq<Event>, m: Mark)
    requires forall e :: e in log ==> !Bears(e, m)
    ensures Count(log, m) == 0
  {
    if log != [] { CountNone(log[..|log| - 1], m); }
  }

  lemma CountFew(x: Event, y: Event, z: Event, m: Mark)
    ensures Count([x], m) == One(Bears(x, m))
    ensures Count([x, y], m) == One(Bears(x, m)) + One(Bears(y, m))
    ensures Count([x, y, z], m) == One(Bears(x, m)) + One(Bears(y, m)) + One(Bears(z, m))
  {
    assert [x][..0] == [] && [x, y][..1] == [x] && [x, y, z][..2] == [x, y];
  }

  lemma OpeningCounts(t: nat, job: Job, begin: Begin, m: Mark)
    ensures Count(Opening(t, job, begin), m) ==
            if begin.Batch? then
              One(Bears(Begun(t, Kind(job), job.request), m))
              + if begin.startOk then One(Bears(Started(t), m)) else One(Bears(Dropped(t), m))
            else One(!Starts(job, begin) && job.request.Some? && m == Disposes(job.request.value))
  {
    var begun, offered := Begun(t, Kind(job), job.request), Offered(t, Unit(job, begin));
    if begin.Batch? {
      CountFew(begun, if begin.startOk then Started(t) else Dropped(t), offered, m);
      assert Opening(t, job, begin) == if begin.startOk then [begun, Started(t), offered] else [begun, Dropped(t)];
    } else if Starts(job, begin) {
      CountFew(offered, offered, offered, m);
    } else if job.request.Some? {
      CountFew(Freed(t, job.request.value), offered, offered, m);
    }
  }

  lemma ClosingCounts(t: nat, job: Job, ran: Ran, m: Mark)
    ensures Count(Closing(t, job, ran), m) == One(ran.Wrote? && ran.begin.Batch? && m == Completes(t)) + One(m == Settles(t))
  {
    var last := Settled(t, Outcome(job, ran));
    if ran.Stopped? {
      CountFew(last, last, last, m);
      assert Closing(t, job, ran) == [last];
    } else if ran.begin.Batch? {
      CountFew(Ended(t, ran.writeOk), Completed(t, ran.writeOk), last, m);
      assert Closing(t, job, ran) == [Ended(t, ran.writeOk), Completed(t, ran.writeOk), last];
    } else {
      CountFew(Ended(t, ran.writeOk), last, last, m);
      assert Closing(t, job, ran) == [Ended(t, ran.writeOk), last];
    }
  }

  lemma TraceCounts(t: nat, job: Job, ran: Ran, m: Mark)
    ensures Count(Trace(t, job, ran), m) == Count(Opening(t, job, ran.begin), m) + Count(Closing(t, job, ran), m)
  {
    CountAppend(Opening(t, job, ran.begin), Closing(t, job, ran), m);
  }

  /** How often a job that began with `begin`, and has settled or not, bears each mark of its own. */
  function Expected(begin: Begin, settled: bool, m: Mark): nat
    requires !m.Disposes?
  {
    match m
    case Begins(_) => One(begin.Batch?)
    case Starting(_) => One(begin.Batch? && begin.startOk)
    case Completes(_) => One(begin.Batch? && begin.startOk && settled)
    case Drops(_) => One(begin.Batch? && !begin.startOk)
    case Settles(_) => One(settled)
  }

  lemma OpeningExpected(t: nat, job: Job, begin: Begin, m: Mark)
    requires !m.Disposes?
    ensures Count(Opening(t, job, begin), m) == if m.ticket == t then Expected(begin, false, m) else 0
  {
    OpeningCounts(t, job, begin, m);
  }

  lemma TraceExpected(t: nat, job: Job, ran: Ran, m: Mark)
    requires !m.Disposes? && (ran.Wrote? <==> Starts(job, ran.begin))
    ensures Count(Trace(t, job, ran), m) == if m.ticket == t then Expected(ran.begin, true, m) else 0
  {
    TraceCounts(t, job, ran, m);
    OpeningExpected(t, job, ran.begin, m);
    ClosingCounts(t, job, ran, m);
  }

  lemma {:induction false} SerialCounts(jobs: seq<Job>, ran: seq<Ran>, m: Mark)
    requires Sane(jobs, ran) && !m.Disposes?
    ensures Count(Serial(jobs, ran), m) == if m.ticket < |ran| then Expected(ran[m.ticket].begin, true, m) else 0
    decreases |ran|
  {
    if ran != [] {
      var n := |ran| - 1;
      SerialCounts(jobs, ran[..n], m);
      TraceExpected(n, jobs[n], ran[n], m);
      CountAppend(Serial(jobs, ran[..n]), Trace(n, jobs[n], ran[n]), m);
    }
  }

  lemma JobCounts(s: Writer, m: Mark)
    requires Linear(s) && !m.Disposes?
    ensures Count(s.log, m) ==
            if m.ticket < |s.ran| then Expected(s.ran[m.ticket].begin, true, m)
            else if m.ticket == |s.ran| && s.active.Some? then Expected(s.active.value, false, m) else 0
  {
    SerialCounts(s.jobs, s.ran, m);
    CountAppend(Serial(s.jobs, s.ran), Pending(s), m);
    if s.active.Some? { OpeningExpected(|s.ran|, s.jobs[|s.ran|], s.active.value, m); }
  }

  /**
   * In every reachable state each write began at most one batch. Once the write has settled, and
   * it settles once, its batch was completed exactly once if it had been started and discarded
   * exactly once if not; before that the batch is neither completed nor discarded.
   */
  lemma BatchesCloseOnce(steps: seq<Step>, t: nat)
    ensures var s := Run(steps);
            && Count(s.log, Starting(t)) <= Count(s.log, Begins(t)) <= 1
            && Count(s.log, Settles(t)) == One(t < |s.ran|)
            && (t < |s.ran| ==>
                  && Count(s.log, Completes(t)) == Count(s.log, Starting(t))
                  && Count(s.log, Completes(t)) + Count(s.log, Drops(t)) == Count(s.log, Begins(t)))
            && (t >= |s.ran| ==> Count(s.log, Completes(t)) == 0 && Count(s.log, Drops(t)) == 0)
  {
    RunIsSerial(steps);
    var s := Run(steps);
    JobCounts(s, Begins(t));
    JobCounts(s, Starting(t));
    JobCounts(s, Completes(t));
    JobCounts(s, Drops(t));
    JobCounts(s, Settles(t));
  }

  lemma {:induction false} TraceMembers(t: nat, job: Job, ran: Ran, e: Event)
    requires ran.Wrote? <==> Starts(job, ran.begin)
    ensures e in Trace(t, job, ran) ==> e.ticket == t
    ensures e.Settled? ==> (e in Trace(t, job, ran) <==> e == Settled(t, Outcome(job, ran)))
    ensures e.Offered? ==> (e in Trace(t, job, ran) <==> ran.Wrote? && e == Offered(t, Unit(job, ran.begin)))
    ensures e.Ended? ==> (e in Trace(t, job, ran) <==> ran.Wrote? && e == Ended(t, ran.writeOk))
    ensures e.Completed? ==> (e in Trace(t, job, ran) <==> ran.Wrote? && ran.begin.Batch? && e == Completed(t, ran.writeOk))
  {
    assert e in Trace(t, job, ran) <==> e in Opening(t, job, ran.begin) || e in Closing(t, job, ran);
  }

  lemma {:induction false} SerialMember(jobs: seq<Job>, ran: seq<Ran>, e: Event)
    requires Sane(jobs, ran)
    ensures e in Serial(jobs, ran) <==> e.ticket < |ran| && e in Trace(e.ticket, jobs[e.ticket], ran[e.ticket])
    decreases |ran|
  {
    if ran != [] {
      var n := |ran| - 1;
      SerialMember(jobs, ran[..n], e);
      TraceMembers(n, jobs[n], ran[n], e);
      assert e in Serial(jobs, ran) <==> e in Serial(jobs, ran[..n]) || e in Trace(n, jobs[n], ran[n]);
    }
  }

  lemma {:induction false} LogMember(s: Writer, e: Event)
    requires Linear(s) && e.ticket < |s.ran|
    ensures e in s.log <==> e in Trace(e.ticket, s.jobs[e.ticket], s.ran[e.ticket])
  {
    SerialMember(s.jobs, s.ran, e);
    assert e !in Pending(s);
    assert e in s.log <==> e in Serial(s.jobs, s.ran) || e in Pending(s);
  }

  lemma {:induction false} LoggedEvent(s: Writer, t: nat, e: Event)
    requires Linear(s) && t < |s.ran| && e.ticket == t
    ensures var job, ran := s.jobs[t], s.ran[t];
            && (e.Settled? ==> (e in s.log <==> e == Settled(t, Outcome(job, ran))))
            && (e.Offered? ==> (e in s.log <==> ran.Wrote? && e == Offered(t, Unit(job, ran.begin))))
            && (e.Ended? ==> (e in s.log <==> ran.Wrote? && e == Ended(t, ran.writeOk)))
            && (e.Completed? ==> (e in s.log <==> ran.Wrote? && ran.begin.Batch? && e == Completed(t, ran.writeOk)))
  {
    LogMember(s, e);
    TraceMembers(t, s.jobs[t], s.ran[t], e);
  }

  /**
   * What a caller may conclude from how a write settled. Refused: none of its bytes were offered.
   * Resolved, for a frame: exactly its unit was offered and the stream took it. Uncertain, the
   * connection failure: its unit was offered, and the stream failed it or its batch did not
   * complete. A write the stream failed never settles otherwise.
   */
  lemma ResultTellsWhatHappened(steps: seq<Step>, t: nat, bytes: seq<byte>)
    requires t < |Run(steps).ran|
    ensures t < |Run(steps).jobs|
    ensures var log, job := Run(steps).log, Run(steps).jobs[t];
            && (Settled(t, Refused) in log ==> Offered(t, bytes) !in log)
            && (Settled(t, Resolved) in log && job.frame.Some? ==>
                  Ended(t, true) in log && exists prefix :: Offered(t, prefix + job.frame.value) in log)
            && (Settled(t, Uncertain) in log ==> Ended(t, false) in log || Completed(t, true) in log)
            && (Ended(t, false) in log ==> Settled(t, Uncertain) in log)
            && (Offered(t, bytes) in log && job.frame.Some? ==>
                  |bytes| >= |job.frame.value| && bytes[|bytes| - |job.frame.value|..] == job.frame.value)
  {
    RunIsSerial(steps);
    var s := Run(steps);
    var job, ran := s.jobs[t], s.ran[t];
    LoggedEvent(s, t, Settled(t, Refused));
    LoggedEvent(s, t, Settled(t, Resolved));
    LoggedEvent(s, t, Settled(t, Uncertain));
    LoggedEvent(s, t, Ended(t, true));
    LoggedEvent(s, t, Ended(t, false));
    LoggedEvent(s, t, Completed(t, true));
    LoggedEvent(s, t, Offered(t, bytes));
    LoggedEvent(s, t, Offered(t, Unit(job, ran.begin)));
    if job.frame.Some? {
      var prefix := if ran.begin.Batch? then ran.begin.prefix else [];
      assert Unit(job, ran.begin) == prefix + job.frame.value;
    }
  }

  // ----- every prepared request is accounted for once

  /** Bytes are offered although the native context took no batch, so nobody owns the request. */
  predicate Leaks(job: Job, begin: Begin) {
    begin.NoBatch? && job.frame.Some? && job.request.Some?
  }

  function Carries(job: Job, r: nat): nat {
    if job.request == Some(r) then 1 else 0
  }

  function LeakOf(job: Job, begin: Begin, r: nat): nat {
    if Leaks(job, begin) then Carries(job, r) else 0
  }

  lemma OpeningDisposes(t: nat, job: Job, begin: Begin, r: nat)
    ensures Count(Opening(t, job, begin), Disposes(r)) + LeakOf(job, begin, r) == Carries(job, r)
  {
    OpeningCounts(t, job, begin, Disposes(r));
  }

  lemma TraceDisposes(t: nat, job: Job, ran: Ran, r: nat)
    ensures Count(Trace(t, job, ran), Disposes(r)) + LeakOf(job, ran.begin, r) == Carries(job, r)
  {
    TraceCounts(t, job, ran, Disposes(r));
    OpeningDisposes(t, job, ran.begin, r);
    ClosingCounts(t, job, ran, Disposes(r));
  }

  /** How many of the jobs carry request `r`. */
  ghost function Carriers(jobs: seq<Job>, r: nat): nat {
    if jobs == [] then 0 else Carriers(jobs[..|jobs| - 1], r) + Carries(jobs[|jobs| - 1], r)
  }

  lemma {:induction false} CarriersAppend(a: seq<Job>, b: seq<Job>, r: nat)
    ensures Carriers(a + b, r) == Carriers(a, r) + Carriers(b, r)
    decreases |b|
  {
    if b == [] {
      assert a + b == a;
    } else {
      assert (a + b)[..|a + b| - 1] == a + b[..|b| - 1];
      CarriersAppend(a, b[..|b| - 1], r);
    }
  }

  lemma CarriersSplit(jobs: seq<Job>, n: nat, r: nat)
    requires n <= |jobs|
    ensures Carriers(jobs, r) == Carriers(jobs[..n], r) + Carriers(jobs[n..], r)
  {
    CarriersAppend(jobs[..n], jobs[n..], r);
    assert jobs[..n] + jobs[n..] == jobs;
  }

  /** How often request `r` was leaked by a finished write. */
  ghost function Leaked(jobs: seq<Job>, ran: seq<Ran>, r: nat): nat
    requires |ran| <= |jobs|
    decreases |ran|
  {
    if ran == [] then 0 else
      var n := |ran| - 1;
      Leaked(jobs, ran[..n], r) + LeakOf(jobs[n], ran[n].begin, r)
  }

  lemma {:induction false} SerialDisposes(jobs: seq<Job>, ran: seq<Ran>, r: nat)
    requires |ran| <= |jobs|
    ensures Count(Serial(jobs, ran), Disposes(r)) + Leaked(jobs, ran, r) == Carriers(jobs[..|ran|], r)
    decreases |ran|
  {
    if ran != [] {
      var n := |ran| - 1;
      SerialDisposes(jobs, ran[..n], r);
      TraceDisposes(n, jobs[n], ran[n], r);
      CountAppend(Serial(jobs, ran[..n]), Trace(n, jobs[n], ran[n]), Disposes(r));
      assert jobs[..n + 1][..n] == jobs[..n];
    }
  }

  function Unsent(s: Writer, r: nat): nat {
    multiset(s.unsent)[r]
  }

  ghost predicate Named(s: Writer, r: nat) {
    Carriers(s.jobs, r) + Unsent(s, r) == if r < s.prepared then 1 else 0
  }

  lemma TakeNames(s: Writer, step: Step, r: nat)
    requires Named(s, r)
    ensures Named(Take(s, step), r)
  {
    if step.QueueFrame? || step.QueueShm? {
      var job := Job(step.frame, if step.QueueFrame? then None else Some(s.prepared), step.QueueFrame? && step.control);
      assert (s.jobs + [job])[..|s.jobs|] == s.jobs;
    }
  }

  /** A prepared request was handed to one write, or given back before that; nothing else has its name. */
  lemma {:induction false} PreparedOnce(steps: seq<Step>, r: nat)
    ensures Named(Run(steps), r)
  {
    if steps != [] {
      PreparedOnce(steps[..|steps| - 1], r);
      TakeNames(Run(steps[..|steps| - 1]), steps[|steps| - 1], r);
    }
  }

  /** Jobs whose write has begun. */
  function BegunJobs(s: Writer): nat {
    |s.ran| + if s.active.Some? then 1 else 0
  }

  function LeakedNow(s: Writer, r: nat): nat
    requires s.active.Some? ==> |s.ran| < |s.jobs|
  {
    if s.active.Some? then LeakOf(s.jobs[|s.ran|], s.active.value, r) else 0
  }

  lemma LinearDisposes(s: Writer, r: nat)
    requires Linear(s)
    ensures Count(s.log, Disposes(r)) + Leaked(s.jobs, s.ran, r) + LeakedNow(s, r) == Carriers(s.jobs[..BegunJobs(s)], r)
  {
    var n := |s.ran|;
    SerialDisposes(s.jobs, s.ran, r);
    CountAppend(Serial(s.jobs, s.ran), Pending(s), Disposes(r));
    if s.active.Some? {
      OpeningDisposes(n, s.jobs[n], s.active.value, r);
      assert s.jobs[..n + 1][..n] == s.jobs[..n];
    }
  }

  ghost function Accounted(s: Writer, r: nat): nat
    requires Linear(s)
  {
    Count(s.log, Disposes(r)) + Unsent(s, r) + Carriers(s.jobs[BegunJobs(s)..], r) + Leaked(s.jobs, s.ran, r) + LeakedNow(s, r)
  }

  /**
   * Conservation: every prepared request is, exactly once, owned by a batch or given back, or
   * still waiting in the queue, or leaked by a write that reached the stream without a batch.
   */
  lemma {:induction false} RequestsAreConserved(steps: seq<Step>, r: nat)
    ensures Linear(Run(steps)) && Accounted(Run(steps), r) == if r < Run(steps).prepared then 1 else 0
  {
    RunIsSerial(steps);
    PreparedOnce(steps, r);
    var s := Run(steps);
    LinearDisposes(s, r);
    CarriersSplit(s.jobs, BegunJobs(s), r);
  }

  /** The native context answers every write that carries a request with a batch or an exception. */
  ghost predicate BatchesEveryRequest(s: Writer) {
    && (forall i :: 0 <= i < |s.ran| && i < |s.jobs| ==> !Leaks(s.jobs[i], s.ran[i].begin))
    && (s.active.Some? && |s.ran| < |s.jobs| ==> !Leaks(s.jobs[|s.ran|], s.active.value))
  }

  lemma {:induction false} NoLeaks(jobs: seq<Job>, ran: seq<Ran>, r: nat)
    requires |ran| <= |jobs| && forall i :: 0 <= i < |ran| ==> !Leaks(jobs[i], ran[i].begin)
    ensures Leaked(jobs, ran, r) == 0
    decreases |ran|
  {
    if ran != [] { NoLeaks(jobs, ran[..|ran| - 1], r); }
  }

  lemma {:induction false} SomeLeak(jobs: seq<Job>, ran: seq<Ran>, i: nat)
    requires i < |ran| <= |jobs| && Leaks(jobs[i], ran[i].begin)
    ensures Leaked(jobs, ran, jobs[i].request.value) >= 1
    decreases |ran|
  {
    if i < |ran| - 1 { SomeLeak(jobs, ran[..|ran| - 1], i); }
  }

  /** The request was handed to a batch or given back exactly once. */
  ghost predicate DisposedOnce(s: Writer, r: nat) {
    Count(s.log, Disposes(r)) + Unsent(s, r) == 1
  }

  /**
   * Once every queued write has begun, each prepared request has been disposed of exactly once if
   * and only if the native context never let a write that carried a request go without a batch.
   */
  lemma RequestsAreDisposedOnce(steps: seq<Step>)
    requires BegunJobs(Run(steps)) == |Run(steps).jobs|
    ensures var s := Run(steps); (forall r :: 0 <= r < s.prepared ==> DisposedOnce(s, r)) <==> BatchesEveryRequest(s)
  {
    RunIsSerial(steps);
    var s := Run(steps);
    assert s.jobs[BegunJobs(s)..] == [];
    if BatchesEveryRequest(s) {
      forall r | 0 <= r < s.prepared ensures DisposedOnce(s, r) {
        RequestsAreConserved(steps, r);
        NoLeaks(s.jobs, s.ran, r);
      }
    } else {
      var r := LeakedRequest(s);
      RequestsAreConserved(steps, r);
      assert !DisposedOnce(s, r);
      PreparedOnce(steps, r);
    }
  }

  lemma LeakedRequest(s: Writer) returns (r: nat)
    requires Linear(s) && !BatchesEveryRequest(s)
    ensures Leaked(s.jobs, s.ran, r) + LeakedNow(s, r) >= 1
  {
    if i :| 0 <= i < |s.ran| && Leaks(s.jobs[i], s.ran[i].begin) {
      r := s.jobs[i].request.value;
      SomeLeak(s.jobs, s.ran, i);
    } else {
      r := s.jobs[|s.ran|].request.value;
    }
  }

  /** A context that takes no batch for a request leaves it with nobody, although the call was written. */
  lemma UnbatchedRequestIsLeaked(frame: seq<byte>)
    ensures var s := Run([QueueShm(Some(frame)), StartNext(NoBatch), FinishWrite(true, true)]);
            s.ran == [Wrote(NoBatch, true, true)] && s.prepared == 1 && !DisposedOnce(s, 0)
  {
    var steps := [QueueShm(Some(frame)), StartNext(NoBatch), FinishWrite(true, true)];
    assert steps[..2][..1][..0] == [] && steps[..2][..1][0] == steps[0] && steps[..2][1] == steps[1];
    var queued := Run(steps[..2][..1]);
    assert queued == QueueRequest(Run([]), Some(frame)) == Writer([Job(Some(frame), Some(0), false)], [], None, [], 1, []);
    var s := Run(steps);
    assert Run(steps[..2]) == Start(queued, NoBatch) && s == Finish(Start(queued, NoBatch), true, true);
    CountNone(s.log, Disposes(0));
  }
}
