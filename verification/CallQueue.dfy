/** The call queue, its deactivation and its close: safety over every schedule of the transport's steps. */
module CallQueue {
  import opened Bytes

  /** What the transport did: to the caller with a ticket, to a connection, or to itself. */
  datatype Event =
    | Stopped(ticket: nat)            // the waiting caller was rejected by deactivation
    | Began(ticket: nat)              // the body started
    | Ran(ticket: nat, ok: bool)      // the body ended, which settles its caller
    | Refused(ticket: nat)            // the turn came after deactivation, and no body ran
    | Opened(connection: nat)
    | Lost(connection: nat)           // the transport let go of its current connection
    | Sealed(cause: Cause)            // admission was sealed
    | Released                        // close went on to the connection

  /** Why admission was sealed: a close, a connection going down, or one found down after a call. */
  datatype Cause = ByClose | ByDown(k: nat) | ByCheck(k: nat)

  datatype Close = NotClosing | Waiting | Closed

  /** `next` is the ticket whose turn comes next; `current` is the connection promise, by incarnation. */
  datatype State = State(
    deactivated: bool, queued: seq<nat>, tickets: nat, next: nat, running: Option<nat>,
    current: Option<nat>, incarnations: nat, clearing: multiset<nat>, checking: multiset<nat>, close: Close,
    log: seq<Event>)

  const INITIAL := State(false, [], 0, 0, None, None, 0, multiset{}, multiset{}, NotClosing, [])

  // ----- steps between two suspensions

  function Log(s: State, e: Event): State {
    s.(log := s.log + [e])
  }

  function Stops(tickets: seq<nat>): seq<Event> {
    if tickets == [] then [] else Stops(tickets[..|tickets| - 1]) + [Stopped(tickets[|tickets| - 1])]
  }

  /** Seals admission and rejects every waiting caller at once. */
  function Seal(s: State, cause: Cause): State {
    s.(deactivated := true, queued := [], log := s.log + [Sealed(cause)] + Stops(s.queued))
  }

  function Submit(s: State): State {
    if s.deactivated then s else s.(queued := s.queued + [s.tickets], tickets := s.tickets + 1)
  }

  predicate CanBegin(s: State) {
    s.running.None? && s.next < s.tickets
  }

  function Without(queued: seq<nat>, t: nat): seq<nat> {
    if queued == [] then [] else
      Without(queued[..|queued| - 1], t) + if queued[|queued| - 1] == t then [] else [queued[|queued| - 1]]
  }

  function Begin(s: State): State {
    if !CanBegin(s) then s else
      var s' := s.(queued := Without(s.queued, s.next), next := s.next + 1);
      if s.deactivated then Log(s', Refused(s.next)) else Log(s'.(running := Some(s.next)), Began(s.next))
  }

  function Finish(s: State, ok: bool): State {
    if s.running.None? then s else Log(s.(running := None), Ran(s.running.value, ok))
  }

  /** Only a body opens the connection, and only while none is current. */
  function Open(s: State): State {
    if s.running.None? || s.deactivated || s.current.Some? then s
    else Log(s.(current := Some(s.incarnations), incarnations := s.incarnations + 1), Opened(s.incarnations))
  }

  function Forget(s: State): State {
    if s.current.None? then s else Log(s.(current := None), Lost(s.current.value))
  }

  function ConnectFailed(s: State, k: nat): State {
    if s.current == Some(k) then Forget(s) else s
  }

  /** Discarding awaits the current connection first, and clears the promise when it was the discarded one. */
  function StartDiscard(s: State, k: nat): State {
    if s.current == Some(k) then s.(clearing := s.clearing + multiset{k}) else s
  }

  function EndDiscard(s: State, k: nat): State {
    if k in s.clearing then Forget(s.(clearing := s.clearing - multiset{k})) else s
  }

  function StartClose(s: State, cause: Cause): State {
    if s.close != NotClosing then s else Seal(s, cause).(close := Waiting)
  }

  /** The connection of incarnation `k` went down: a stale one is ignored. */
  function GoDown(s: State, k: nat): State {
    if s.current != Some(k) then s else StartClose(Seal(s, ByDown(k)), ByClose)
  }

  /** After a call its caller awaits the connection that is current then; there may be none. */
  function StartCheck(s: State): State {
    if s.current.None? then s else s.(checking := s.checking + multiset{s.current.value})
  }

  /** The wait is over: if that connection is down by now, the transport closes, whichever is current. */
  function EndCheck(s: State, k: nat, down: bool): State {
    if k !in s.checking then s else
      var s' := s.(checking := s.checking - multiset{k});
      if down && !s.deactivated then StartClose(s', ByCheck(k)) else s'
  }

  function ResumeClose(s: State): State {
    if s.close == Waiting && s.running.None? && s.next == s.tickets then Log(s.(close := Closed), Released) else s
  }

  datatype Step =
    | SubmitCall | BeginCall | FinishCall(ok: bool) | OpenConnection | ConnectError(k: nat)
    | Discard(k: nat) | Discarded(k: nat) | Down(k: nat) | Check | Checked(k: nat, down: bool)
    | CloseCall | CloseResumes

  function Take(s: State, step: Step): State {
    match step
    case SubmitCall => Submit(s)
    case BeginCall => Begin(s)
    case FinishCall(ok) => Finish(s, ok)
    case OpenConnection => Open(s)
    case ConnectError(k) => ConnectFailed(s, k)
    case Discard(k) => StartDiscard(s, k)
    case Discarded(k) => EndDiscard(s, k)
    case Down(k) => GoDown(s, k)
    case Check => StartCheck(s)
    case Checked(k, down) => EndCheck(s, k, down)
    case CloseCall => StartClose(s, ByClose)
    case CloseResumes => ResumeClose(s)
  }

  /** The transport after any sequence of steps; a step that is not enabled changes nothing. */
  function Run(steps: seq<Step>): State {
    if steps == [] then INITIAL else Take(Run(steps[..|steps| - 1]), steps[|steps| - 1])
  }

  // ----- the transport itself

  class Transport {
    var deactivated: bool
    var queuedCalls: seq<nat>
    var tickets: nat
    var next: nat
    var running: Option<nat>
    var connectionPromise: Option<nat>
    var incarnations: nat
    var clearing: multiset<nat>
    var checking: multiset<nat>
    var closePromise: Close
    ghost var log: seq<Event>

    ghost function Now(): State
      reads this
    {
      State(deactivated, queuedCalls, tickets, next, running, connectionPromise, incarnations, clearing, checking,
            closePromise, log)
    }

    constructor ()
      ensures Now() == INITIAL
    {
      deactivated, queuedCalls, tickets, next, running := false, [], 0, 0, None;
      connectionPromise, incarnations, clearing, checking := None, 0, multiset{}, multiset{};
      closePromise, log := NotClosing, [];
    }

    method DeactivateAdmission(ghost cause: Cause)
      modifies this
      ensures Now() == Seal(old(Now()), cause)
    {
      deactivated := true;
      log := log + [Sealed(cause)];
      ghost var before := log;
      for i := 0 to |queuedCalls|
        invariant Now() == old(Now()).(deactivated := true, log := before + Stops(queuedCalls[..i]))
      {
        log := log + [Stopped(queuedCalls[i])];
        assert queuedCalls[..i + 1][..i] == queuedCalls[..i];
      }
      assert queuedCalls[..|queuedCalls|] == queuedCalls;
      queuedCalls := [];
    }

    method Enqueue() returns (ticket: Option<nat>)
      modifies this
      ensures Now() == Submit(old(Now()))
      ensures ticket == if old(deactivated) then None else Some(old(tickets))
    {
      if deactivated { return None; }
      ticket := Some(tickets);
      queuedCalls := queuedCalls + [tickets];
      tickets := tickets + 1;
    }

    method Dequeue(t: nat)
      modifies this
      ensures Now() == old(Now()).(queued := Without(old(queuedCalls), t))
    {
      var kept: seq<nat> := [];
      for i := 0 to |queuedCalls|
        invariant kept == Without(queuedCalls[..i], t) && Now() == old(Now())
      {
        assert queuedCalls[..i + 1][..i] == queuedCalls[..i];
        if queuedCalls[i] != t { kept := kept + [queuedCalls[i]]; }
      }
      assert queuedCalls[..|queuedCalls|] == queuedCalls;
      queuedCalls := kept;
    }

    method TakeTurn() returns (body: bool)
      requires CanBegin(Now())
      modifies this
      ensures Now() == Begin(old(Now()))
      ensures body <==> !old(deactivated)
    {
      var t := next;
      Dequeue(t);
      next := next + 1;
      if deactivated {
        log := log + [Refused(t)];
        return false;
      }
      running, body := Some(t), true;
      log := log + [Began(t)];
    }

    method CloseTransport(ghost cause: Cause)
      modifies this
      ensures Now() == StartClose(old(Now()), cause)
    {
      if closePromise == NotClosing {
        DeactivateAdmission(cause);
        closePromise := Waiting;
      }
    }

    method OnDeactivated(k: nat)
      modifies this
      ensures Now() == GoDown(old(Now()), k)
    {
      if connectionPromise == Some(k) {
        DeactivateAdmission(ByDown(k));
        CloseTransport(ByClose);
      }
    }

    /** The end of a call, up to its wait for the connection that is current then. */
    method BeginCheck()
      modifies this
      ensures Now() == StartCheck(old(Now()))
    {
      if connectionPromise.Some? { checking := checking + multiset{connectionPromise.value}; }
    }

    method FinishCheck(k: nat, down: bool)
      modifies this
      ensures Now() == EndCheck(old(Now()), k, down)
    {
      if k in checking {
        checking := checking - multiset{k};
        if down && !deactivated { CloseTransport(ByCheck(k)); }
      }
    }

    method AcquireConnection() returns (connection: Option<nat>)
      requires running.Some?
      modifies this
      ensures Now() == Open(old(Now()))
      ensures connection == if old(deactivated) then None else connectionPromise
    {
      if deactivated { return None; }
      if connectionPromise.None? {
        connectionPromise := Some(incarnations);
        log := log + [Opened(incarnations)];
        incarnations := incarnations + 1;
      }
      connection := connectionPromise;
    }

    method FinishBody(ok: bool)
      requires running.Some?
      modifies this
      ensures Now() == Finish(old(Now()), ok)
    {
      log := log + [Ran(running.value, ok)];
      running := None;
    }

    /** Connecting failed: the promise is cleared only if it is still this connection's. */
    method ConnectionFailed(k: nat)
      modifies this
      ensures Now() == ConnectFailed(old(Now()), k)
    {
      if connectionPromise == Some(k) {
        log := log + [Lost(k)];
        connectionPromise := None;
      }
    }

    /** The part of discarding before its wait for the current connection. */
    method BeginDiscard(k: nat)
      modifies this
      ensures Now() == StartDiscard(old(Now()), k)
    {
      if connectionPromise == Some(k) { clearing := clearing + multiset{k}; }
    }

    method FinishDiscard(k: nat)
      modifies this
      ensures Now() == EndDiscard(old(Now()), k)
    {
      if k in clearing {
        clearing := clearing - multiset{k};
        if connectionPromise.Some? {
          log := log + [Lost(connectionPromise.value)];
          connectionPromise := None;
        }
      }
    }

    /** Close goes on once every admitted call had its turn and none is running. */
    method GoOnClosing() returns (released: bool)
      modifies this
      ensures Now() == ResumeClose(old(Now()))
      ensures released <==> Now() != old(Now())
    {
      released := closePromise == Waiting && running.None? && next == tickets;
      if released {
        closePromise := Closed;
        log := log + [Released];
      }
    }
  }

  // ----- each caller's story

  predicate Of(e: Event, t: nat) {
    (e.Stopped? || e.Began? || e.Ran? || e.Refused?) && e.ticket == t
  }

  /** What happened to the caller with ticket `t`. */
  ghost function Story(log: seq<Event>, t: nat): seq<Event> {
    if log == [] then [] else
      Story(log[..|log| - 1], t) + if Of(log[|log| - 1], t) then [log[|log| - 1]] else []
  }

  lemma StoryStep(log: seq<Event>, e: Event, t: nat)
    ensures Story(log + [e], t) == if Of(e, t) then Story(log, t) + [e] else Story(log, t)
  {
    assert (log + [e])[..|log|] == log;
  }

  /** The tickets from `a` up to `b`. */
  function Interval(a: nat, b: nat): seq<nat>
    requires a <= b
  {
    if a == b then [] else Interval(a, b - 1) + [b - 1]
  }

  lemma StopsInterval(a: nat, b: nat)
    requires a < b
    ensures Stops(Interval(a, b)) == Stops(Interval(a, b - 1)) + [Stopped(b - 1)]
  {
    var all := Interval(a, b);
    assert all[..|all| - 1] == Interval(a, b - 1);
  }

  lemma {:induction false} StoryAppend(a: seq<Event>, b: seq<Event>, t: nat)
    ensures Story(a + b, t) == Story(a, t) + Story(b, t)
    decreases |b|
  {
    if b == [] {
      assert a + b == a;
    } else {
      assert (a + b)[..|a + b| - 1] == a + b[..|b| - 1];
      StoryAppend(a, b[..|b| - 1], t);
    }
  }

  lemma {:induction false} StopsStory(a: nat, b: nat, t: nat)
    requires a <= b
    ensures Story(Stops(Interval(a, b)), t) == if a <= t < b then [Stopped(t)] else []
    decreases b
  {
    if a < b {
      StopsStory(a, b - 1, t);
      StopsInterval(a, b);
      StoryStep(Stops(Interval(a, b - 1)), Stopped(b - 1), t);
    }
  }

  lemma {:induction false} WithoutFirst(a: nat, b: nat)
    requires a < b
    ensures Without(Interval(a, b), a) == Interval(a + 1, b)
    decreases b
  {
    if a + 1 < b { WithoutFirst(a, b - 1); }
  }

  /** The waiting callers are exactly the later tickets, until deactivation rejects them all. */
  ghost predicate Orderly(s: State) {
    && s.next <= s.tickets
    && s.queued == (if s.deactivated then [] else Interval(s.next, s.tickets))
    && (s.running.Some? ==> s.next > 0 && s.running.value == s.next - 1)
  }

  /** The story of ticket `t`, from where the queue stands. */
  ghost predicate Told(s: State, t: nat) {
    var story := Story(s.log, t);
    if t >= s.tickets then story == []
    else if t >= s.next then story == if s.deactivated then [Stopped(t)] else []
    else if s.running == Some(t) then story == [Began(t)]
    else story == [Stopped(t), Refused(t)] || story == [Began(t), Ran(t, true)] || story == [Began(t), Ran(t, false)]
  }

  lemma BeginOrderly(s: State)
    requires Orderly(s)
    ensures Orderly(Begin(s))
  {
    if CanBegin(s) && !s.deactivated { WithoutFirst(s.next, s.tickets); }
  }

  lemma TakeOrderly(s: State, step: Step)
    requires Orderly(s)
    ensures Orderly(Take(s, step))
  {
    if step.BeginCall? {
      BeginOrderly(s);
    } else if Quiet(step) {
      var e := QuietLog(s, step);
    }
  }

  lemma SealTells(s: State, cause: Cause, t: nat)
    requires Orderly(s) && Told(s, t)
    ensures Told(Seal(s, cause), t) && Orderly(Seal(s, cause))
  {
    var log := s.log + [Sealed(cause)];
    StoryStep(s.log, Sealed(cause), t);
    if s.deactivated {
      assert log + Stops([]) == log;
    } else {
      StopsStory(s.next, s.tickets, t);
      StoryAppend(log, Stops(s.queued), t);
    }
  }

  lemma BeginTells(s: State, t: nat)
    requires Orderly(s) && Told(s, t)
    ensures Told(Begin(s), t)
  {
    StoryStep(s.log, Refused(s.next), t);
    StoryStep(s.log, Began(s.next), t);
  }

  lemma FinishTells(s: State, ok: bool, t: nat)
    requires Orderly(s) && Told(s, t)
    ensures Told(Finish(s, ok), t)
  {
    if s.running.Some? { StoryStep(s.log, Ran(s.running.value, ok), t); }
  }

  /** Steps that concern no caller and no seal: they log one event about the connection, or nothing. */
  predicate Quiet(step: Step) {
    || step.OpenConnection? || step.ConnectError? || step.Discard? || step.Discarded? || step.Check?
    || step.CloseResumes?
  }

  lemma QuietLog(s: State, step: Step) returns (e: Event)
    requires Quiet(step)
    ensures e.Opened? || e.Lost? || e.Released?
    ensures || Take(s, step).log == s.log
            || (Take(s, step).log == s.log + [e] && (e.Opened? ==> !s.deactivated) && (e.Released? ==> step.CloseResumes?))
    ensures var s' := Take(s, step);
            s'.tickets == s.tickets && s'.next == s.next && s'.running == s.running && s'.deactivated == s.deactivated
            && s'.queued == s.queued
  {
    e := if step.OpenConnection? then Opened(s.incarnations)
         else if step.CloseResumes? || s.current.None? then Released
         else Lost(s.current.value);
  }

  lemma SameStory(s: State, s': State, t: nat)
    requires s'.tickets == s.tickets && s'.next == s.next && s'.running == s.running && s'.deactivated == s.deactivated
    requires Story(s'.log, t) == Story(s.log, t) && Told(s, t)
    ensures Told(s', t)
  {}

  lemma QuietTells(s: State, step: Step, t: nat)
    requires Quiet(step) && Told(s, t)
    ensures Told(Take(s, step), t)
  {
    var e := QuietLog(s, step);
    StoryStep(s.log, e, t);
    SameStory(s, Take(s, step), t);
  }

  lemma CloseTells(s: State, cause: Cause, t: nat)
    requires Orderly(s) && Told(s, t)
    ensures Told(StartClose(s, cause), t)
  {
    SealTells(s, cause, t);
  }

  lemma CheckTells(s: State, k: nat, down: bool, t: nat)
    requires Orderly(s) && Told(s, t)
    ensures Told(EndCheck(s, k, down), t)
  {
    if k in s.checking {
      var s' := s.(checking := s.checking - multiset{k});
      SameStory(s, s', t);
      CloseTells(s', ByCheck(k), t);
    }
  }

  lemma DownTells(s: State, k: nat, t: nat)
    requires Orderly(s) && Told(s, t)
    ensures Told(GoDown(s, k), t)
  {
    SealTells(s, ByDown(k), t);
    CloseTells(Seal(s, ByDown(k)), ByClose, t);
  }

  lemma TakeTells(s: State, step: Step, t: nat)
    requires Orderly(s) && Told(s, t)
    ensures Told(Take(s, step), t)
  {
    match step
    case SubmitCall => assert Told(Submit(s), t);
    case BeginCall => BeginTells(s, t);
    case FinishCall(ok) => FinishTells(s, ok, t);
    case Down(k) => DownTells(s, k, t);
    case Checked(k, down) => CheckTells(s, k, down, t);
    case CloseCall => CloseTells(s, ByClose, t);
    case _ => QuietTells(s, step, t);
  }

  lemma {:induction false} RunTells(steps: seq<Step>, t: nat)
    ensures Orderly(Run(steps)) && Told(Run(steps), t)
  {
    if steps != [] {
      RunTells(steps[..|steps| - 1], t);
      TakeOrderly(Run(steps[..|steps| - 1]), steps[|steps| - 1]);
      TakeTells(Run(steps[..|steps| - 1]), steps[|steps| - 1], t);
    }
  }

  /** How the caller's race settles: the first of its rejection and its body's end. */
  ghost function Settlement(story: seq<Event>): Option<Event> {
    if story == [] then None
    else if story[0].Began? then Settlement(story[1..])
    else Some(story[0])
  }

  /** A body ran and gave its caller the outcome, or none ran and the caller was rejected, never both. */
  ghost predicate SettledOnce(story: seq<Event>, t: nat) {
    && Settlement(story).Some?
    && (Began(t) in story <==> Settlement(story).value.Ran?)
    && (Began(t) !in story <==> Settlement(story).value == Stopped(t))
    && multiset(story)[Began(t)] <= 1
    && multiset(story)[Ran(t, true)] + multiset(story)[Ran(t, false)] == multiset(story)[Began(t)]
    && (Began(t) in story ==> Stopped(t) !in story && Refused(t) !in story)
  }

  lemma RanSettles(t: nat, ok: bool)
    ensures SettledOnce([Began(t), Ran(t, ok)], t)
  {
    var story := [Began(t), Ran(t, ok)];
    assert story[1..] == [Ran(t, ok)];
    assert multiset(story) == multiset{Began(t), Ran(t, ok)};
  }

  lemma StoppedSettles(t: nat)
    ensures SettledOnce([Stopped(t), Refused(t)], t)
  {
    assert multiset([Stopped(t), Refused(t)]) == multiset{Stopped(t), Refused(t)};
  }

  /**
   * Once its turn is over a caller has settled, whatever the others do: with the outcome of its
   * body if and only if the body began, and otherwise by rejection; a body begins and ends at
   * most once, and no caller is both rejected and run.
   */
  lemma EveryCallerSettlesOnce(steps: seq<Step>, t: nat)
    requires t < Run(steps).next && Run(steps).running != Some(t)
    ensures SettledOnce(Story(Run(steps).log, t), t)
  {
    RunTells(steps, t);
    RanSettles(t, true);
    RanSettles(t, false);
    StoppedSettles(t);
  }

  /** At any moment a caller's body has begun at most once, never for a rejected caller, and ended only after it began. */
  lemma NobodyIsRunAndRejected(steps: seq<Step>, t: nat)
    ensures var story := Story(Run(steps).log, t);
            && (Began(t) in story ==> Stopped(t) !in story && Refused(t) !in story)
            && (forall i, j :: 0 <= i < j < |story| ==> story[i] != story[j])
            && (forall i :: 0 <= i < |story| && story[i].Ran? ==> i > 0 && story[i - 1] == Began(t))
            && (forall i :: 0 <= i < |story| && story[i].Refused? ==> i > 0 && story[i - 1] == Stopped(t))
  {
    RunTells(steps, t);
  }

  /** After deactivation nobody waits: every admitted caller that has not begun is already rejected. */
  lemma DeactivationLeavesNobodyWaiting(steps: seq<Step>, t: nat)
    requires t < Run(steps).tickets && Run(steps).deactivated
    ensures var story := Story(Run(steps).log, t); Began(t) in story || Settlement(story) == Some(Stopped(t))
  {
    RunTells(steps, t);
  }

  // ----- bodies run one at a time, in order

  ghost function Bodies(log: seq<Event>): seq<Event> {
    if log == [] then [] else
      var e := log[|log| - 1];
      Bodies(log[..|log| - 1]) + if e.Began? || e.Ran? then [e] else []
  }

  lemma BodiesStep(log: seq<Event>, e: Event)
    ensures Bodies(log + [e]) == if e.Began? || e.Ran? then Bodies(log) + [e] else Bodies(log)
  {
    assert (log + [e])[..|log|] == log;
  }

  lemma {:induction false} BodiesAppend(a: seq<Event>, b: seq<Event>)
    ensures Bodies(a + b) == Bodies(a) + Bodies(b)
    decreases |b|
  {
    if b == [] {
      assert a + b == a;
    } else {
      assert (a + b)[..|a + b| - 1] == a + b[..|b| - 1];
      BodiesAppend(a, b[..|b| - 1]);
    }
  }

  lemma {:induction false} NoBodies(log: seq<Event>)
    requires forall e :: e in log ==> e.Stopped?
    ensures Bodies(log) == []
  {
    if log != [] {
      NoBodies(log[..|log| - 1]);
      assert log[|log| - 1] in log;
    }
  }

  /** Starts and ends alternate, each end is of the body started before it, and tickets ascend. */
  ghost predicate OneAtATime(bodies: seq<Event>) {
    && (forall i :: 0 <= i < |bodies| ==> if i % 2 == 0 then bodies[i].Began? else bodies[i].Ran?)
    && (forall i :: 0 < i < |bodies| && bodies[i].Ran? ==> bodies[i].ticket == bodies[i - 1].ticket)
    && (forall i, j :: 0 <= i < j < |bodies| && bodies[i].Began? && bodies[j].Began? ==> bodies[i].ticket < bodies[j].ticket)
  }

  ghost predicate Serialized(s: State) {
    var bodies := Bodies(s.log);
    && OneAtATime(bodies)
    && (forall e :: e in bodies && e.Began? ==> e.ticket < s.next)
    && (s.running.Some? <==> |bodies| % 2 == 1)
    && (s.running.Some? ==> bodies[|bodies| - 1] == Began(s.running.value))
  }

  lemma SealBodies(s: State, cause: Cause)
    ensures Bodies(Seal(s, cause).log) == Bodies(s.log)
  {
    BodiesStep(s.log, Sealed(cause));
    StopsAreStopped(s.queued);
    NoBodies(Stops(s.queued));
    BodiesAppend(s.log + [Sealed(cause)], Stops(s.queued));
  }

  lemma {:induction false} OneMoreBody(bodies: seq<Event>, t: nat)
    requires OneAtATime(bodies) && |bodies| % 2 == 0 && forall e :: e in bodies && e.Began? ==> e.ticket < t
    ensures OneAtATime(bodies + [Began(t)])
    ensures forall e :: e in bodies + [Began(t)] && e.Began? ==> e.ticket < t + 1
  {}

  lemma {:induction false} BeginSerialized(s: State)
    requires Serialized(s)
    ensures Serialized(Begin(s))
  {
    if CanBegin(s) {
      if s.deactivated {
        BodiesStep(s.log, Refused(s.next));
      } else {
        BodiesStep(s.log, Began(s.next));
        OneMoreBody(Bodies(s.log), s.next);
        assert Bodies(Begin(s).log) == Bodies(s.log) + [Began(s.next)];
      }
    }
  }

  lemma {:induction false} OneBodyEnds(bodies: seq<Event>, t: nat, ok: bool)
    requires OneAtATime(bodies) && |bodies| % 2 == 1 && bodies[|bodies| - 1] == Began(t)
    ensures OneAtATime(bodies + [Ran(t, ok)])
  {}

  lemma {:induction false} FinishSerialized(s: State, ok: bool)
    requires Serialized(s)
    ensures Serialized(Finish(s, ok))
  {
    if s.running.Some? {
      BodiesStep(s.log, Ran(s.running.value, ok));
      OneBodyEnds(Bodies(s.log), s.running.value, ok);
    }
  }

  lemma QuietBodies(s: State, step: Step)
    requires Quiet(step)
    ensures Bodies(Take(s, step).log) == Bodies(s.log)
  {
    var e := QuietLog(s, step);
    BodiesStep(s.log, e);
  }

  lemma CloseBodies(s: State, cause: Cause)
    ensures Bodies(StartClose(s, cause).log) == Bodies(s.log)
  {
    SealBodies(s, cause);
  }

  lemma CheckBodies(s: State, k: nat, down: bool)
    ensures Bodies(EndCheck(s, k, down).log) == Bodies(s.log)
  {
    CloseBodies(s.(checking := s.checking - multiset{k}), ByCheck(k));
  }

  lemma DownBodies(s: State, k: nat)
    ensures Bodies(GoDown(s, k).log) == Bodies(s.log)
  {
    SealBodies(s, ByDown(k));
    CloseBodies(Seal(s, ByDown(k)), ByClose);
  }

  lemma {:induction false} TakeSerialized(s: State, step: Step)
    requires Serialized(s)
    ensures Serialized(Take(s, step))
  {
    match step
    case SubmitCall =>
    case BeginCall => BeginSerialized(s);
    case FinishCall(ok) => FinishSerialized(s, ok);
    case Down(k) => DownBodies(s, k);
    case Checked(k, down) => CheckBodies(s, k, down);
    case CloseCall => CloseBodies(s, ByClose);
    case _ =>
      QuietBodies(s, step);
      var e := QuietLog(s, step);
  }

  /** Over every run, bodies execute one at a time and in the order their callers were admitted. */
  lemma {:induction false} BodiesRunOneAtATime(steps: seq<Step>)
    ensures Serialized(Run(steps))
  {
    if steps != [] {
      BodiesRunOneAtATime(steps[..|steps| - 1]);
      TakeSerialized(Run(steps[..|steps| - 1]), steps[|steps| - 1]);
    }
  }

  // ----- nothing starts after a seal

  ghost predicate HasSeal(log: seq<Event>) {
    exists e :: e in log && e.Sealed?
  }

  /** No body begins and no connection is opened after admission was sealed. */
  ghost predicate QuietAfterSeal(log: seq<Event>) {
    forall i, j :: 0 <= i < j < |log| && log[i].Sealed? ==> !log[j].Began? && !log[j].Opened?
  }

  ghost predicate SealHolds(s: State) {
    (s.deactivated <==> HasSeal(s.log)) && QuietAfterSeal(s.log)
  }

  lemma {:induction false} StopsAreStopped(tickets: seq<nat>)
    ensures forall e :: e in Stops(tickets) ==> e.Stopped?
  {
    if tickets != [] { StopsAreStopped(tickets[..|tickets| - 1]); }
  }

  lemma ExtendQuiet(log: seq<Event>, more: seq<Event>)
    requires QuietAfterSeal(log) && QuietAfterSeal(more)
    requires HasSeal(log) ==> forall e :: e in more ==> !e.Began? && !e.Opened?
    ensures QuietAfterSeal(log + more)
    ensures HasSeal(log + more) <==> HasSeal(log) || HasSeal(more)
  {
    var all := log + more;
    forall i, j | 0 <= i < j < |all| && all[i].Sealed? ensures !all[j].Began? && !all[j].Opened? {
      if i < |log| <= j {
        assert log[i] in log;
        assert all[j] == more[j - |log|] && more[j - |log|] in more;
      }
    }
    if HasSeal(log) {
      var e :| e in log && e.Sealed?;
      assert e in all;
    }
    if HasSeal(more) {
      var e :| e in more && e.Sealed?;
      assert e in all;
    }
  }

  lemma SealKeepsSeal(s: State, cause: Cause)
    requires SealHolds(s)
    ensures SealHolds(Seal(s, cause))
  {
    StopsAreStopped(s.queued);
    var more := [Sealed(cause)] + Stops(s.queued);
    assert more[0].Sealed? && more[0] in more;
    assert s.log + [Sealed(cause)] + Stops(s.queued) == s.log + more;
    assert forall i :: 0 < i < |more| ==> more[i] in Stops(s.queued);
    ExtendQuiet(s.log, more);
  }

  lemma LogKeepsSeal(s: State, s': State, e: Event)
    requires SealHolds(s) && s'.deactivated == s.deactivated && s'.log == s.log + [e] && !e.Sealed?
    requires s.deactivated ==> !e.Began? && !e.Opened?
    ensures SealHolds(s')
  {
    ExtendQuiet(s.log, [e]);
  }

  lemma TakeKeepsSeal(s: State, step: Step)
    requires SealHolds(s)
    ensures SealHolds(Take(s, step))
  {
    var s' := Take(s, step);
    match step
    case SubmitCall =>
    case BeginCall =>
      if CanBegin(s) { LogKeepsSeal(s, s', if s.deactivated then Refused(s.next) else Began(s.next)); }
    case FinishCall(ok) =>
      if s.running.Some? { LogKeepsSeal(s, s', Ran(s.running.value, ok)); }
    case Down(k) =>
      SealKeepsSeal(s, ByDown(k));
      SealKeepsSeal(Seal(s, ByDown(k)), ByClose);
    case Checked(k, down) => SealKeepsSeal(s.(checking := s.checking - multiset{k}), ByCheck(k));
    case CloseCall => SealKeepsSeal(s, ByClose);
    case _ =>
      var e := QuietLog(s, step);
      if s'.log != s.log { LogKeepsSeal(s, s', e); }
  }

  /** Over every run, no body begins once the transport is deactivated, by close or by its connection. */
  lemma {:induction false} NothingBeginsAfterSeal(steps: seq<Step>)
    ensures SealHolds(Run(steps))
  {
    if steps != [] {
      NothingBeginsAfterSeal(steps[..|steps| - 1]);
      TakeKeepsSeal(Run(steps[..|steps| - 1]), steps[|steps| - 1]);
    }
  }

  // ----- close waits

  /** When close reaches the connection every body that ever begins has ended. */
  ghost predicate ReleasedLast(log: seq<Event>) {
    forall i :: 0 <= i < |log| && log[i].Released? ==> Bodies(log[..i]) == Bodies(log) && |Bodies(log)| % 2 == 0
  }

  ghost predicate CloseHolds(s: State) {
    && (s.close != NotClosing ==> s.deactivated)
    && (s.close == Closed ==> s.running.None? && s.next == s.tickets)
    && (Released in s.log ==> s.close == Closed)
    && ReleasedLast(s.log)
  }

  lemma ExtendReleased(log: seq<Event>, log': seq<Event>)
    requires ReleasedLast(log) && log <= log' && Bodies(log') == Bodies(log)
    requires forall i :: |log| <= i < |log'| ==> !log'[i].Released?
    ensures ReleasedLast(log')
  {
    forall i | 0 <= i < |log'| && log'[i].Released? ensures Bodies(log'[..i]) == Bodies(log') && |Bodies(log')| % 2 == 0 {
      assert log'[..i] == log[..i] && log[i].Released?;
    }
  }

  lemma SealKeepsClose(s: State, cause: Cause)
    requires CloseHolds(s)
    ensures CloseHolds(Seal(s, cause))
  {
    StopsAreStopped(s.queued);
    SealBodies(s, cause);
    var log' := Seal(s, cause).log;
    assert forall i :: |s.log| < i < |log'| ==> log'[i] in Stops(s.queued);
    ExtendReleased(s.log, log');
  }

  lemma LogKeepsClose(s: State, s': State, e: Event)
    requires CloseHolds(s) && s'.log == s.log + [e] && !e.Released?
    requires s'.close == s.close && s'.deactivated == s.deactivated
    requires s.close == Closed ==> s'.running.None? && s'.next == s'.tickets && !e.Began? && !e.Ran?
    ensures CloseHolds(s')
  {
    BodiesStep(s.log, e);
    if s.close == Closed {
      ExtendReleased(s.log, s'.log);
    } else {
      assert Released !in s'.log;
      assert forall i :: 0 <= i < |s'.log| ==> s'.log[i] in s'.log;
    }
  }

  lemma ResumeKeepsClose(s: State)
    requires CloseHolds(s) && Serialized(s)
    ensures CloseHolds(ResumeClose(s))
  {
    var s' := ResumeClose(s);
    if s' != s {
      BodiesStep(s.log, Released);
      assert Released !in s.log;
      assert forall i :: 0 <= i < |s.log| ==> s.log[i] in s.log;
      assert s'.log[..|s.log|] == s.log;
    }
  }

  lemma TakeKeepsClose(s: State, step: Step)
    requires CloseHolds(s) && Serialized(s)
    ensures CloseHolds(Take(s, step))
  {
    var s' := Take(s, step);
    match step
    case SubmitCall =>
    case BeginCall =>
      if CanBegin(s) { LogKeepsClose(s, s', if s.deactivated then Refused(s.next) else Began(s.next)); }
    case FinishCall(ok) =>
      if s.running.Some? { LogKeepsClose(s, s', Ran(s.running.value, ok)); }
    case Down(k) =>
      SealKeepsClose(s, ByDown(k));
      SealKeepsClose(Seal(s, ByDown(k)), ByClose);
    case Checked(k, down) => SealKeepsClose(s.(checking := s.checking - multiset{k}), ByCheck(k));
    case CloseCall => SealKeepsClose(s, ByClose);
    case CloseResumes => ResumeKeepsClose(s);
    case _ =>
      var e := QuietLog(s, step);
      if s'.log != s.log { LogKeepsClose(s, s', e); }
  }

  /** Over every run, close waits for the body in progress, and no body runs once it went on. */
  lemma {:induction false} CloseWaitsForBodies(steps: seq<Step>)
    ensures CloseHolds(Run(steps))
  {
    if steps != [] {
      var before := steps[..|steps| - 1];
      CloseWaitsForBodies(before);
      BodiesRunOneAtATime(before);
      TakeKeepsClose(Run(before), steps[|steps| - 1]);
    }
  }

  // ----- only the newest connection seals

  /** `k` is the newest connection in the log, and the transport has not let go of it. */
  ghost predicate Newest(log: seq<Event>, k: nat) {
    && Opened(k) in log && Lost(k) !in log
    && forall m: nat :: Opened(m) in log ==> m <= k
  }

  /**
   * Who may seal: a connection that goes down only as the newest one; a connection found down
   * after a call was opened, and is the newest one exactly if the transport has not let go of it.
   */
  ghost predicate MaySeal(before: seq<Event>, cause: Cause) {
    match cause
    case ByClose => true
    case ByDown(k) => Newest(before, k)
    case ByCheck(k) => Opened(k) in before && (Newest(before, k) <==> Lost(k) !in before)
  }

  ghost predicate SealsAreCaused(log: seq<Event>) {
    forall i :: 0 <= i < |log| && log[i].Sealed? ==> MaySeal(log[..i], log[i].cause)
  }

  ghost predicate ConnectionsHold(s: State) {
    && (forall k: nat :: Opened(k) in s.log || Lost(k) in s.log ==> k < s.incarnations)
    && (forall k: nat :: Opened(k) in s.log ==> Lost(k) in s.log || s.current == Some(k))
    && (s.current.Some? ==> s.current.value + 1 == s.incarnations && Newest(s.log, s.current.value))
    && (forall k :: k in s.checking ==> Opened(k) in s.log)
    && SealsAreCaused(s.log)
  }

  lemma ExtendSealed(log: seq<Event>, more: seq<Event>)
    requires SealsAreCaused(log)
    requires forall e :: e in more && e.Sealed? ==> MaySeal(log, e.cause)
    requires forall i :: 0 < i < |more| ==> !more[i].Sealed?
    ensures SealsAreCaused(log + more)
  {
    var all := log + more;
    forall i | 0 <= i < |all| && all[i].Sealed? ensures MaySeal(all[..i], all[i].cause) {
      if i < |log| {
        assert all[..i] == log[..i];
      } else {
        assert all[i] == more[i - |log|] && more[i - |log|] in more;
        assert all[..|log|] == log;
      }
    }
  }

  lemma SealKeepsConnections(s: State, cause: Cause)
    requires ConnectionsHold(s) && MaySeal(s.log, cause)
    ensures ConnectionsHold(Seal(s, cause))
  {
    StopsAreStopped(s.queued);
    var more := [Sealed(cause)] + Stops(s.queued);
    assert s.log + [Sealed(cause)] + Stops(s.queued) == s.log + more;
    assert forall i :: 0 < i < |more| ==> more[i] in Stops(s.queued);
    ExtendSealed(s.log, more);
    MoreQuietEvents(s.log, more);
  }

  /** Events that open and lose nothing leave what is known of every connection. */
  lemma MoreQuietEvents(log: seq<Event>, more: seq<Event>)
    requires forall e :: e in more ==> !e.Opened? && !e.Lost?
    ensures forall k: nat :: Opened(k) in log + more <==> Opened(k) in log
    ensures forall k: nat :: Lost(k) in log + more <==> Lost(k) in log
    ensures forall k: nat :: Newest(log + more, k) <==> Newest(log, k)
  {
    forall k: nat ensures Opened(k) in log + more <==> Opened(k) in log {}
    forall k: nat ensures Lost(k) in log + more <==> Lost(k) in log {}
    forall k: nat ensures Newest(log + more, k) <==> Newest(log, k) {
      assert Newest(log, k) ==> forall m: nat :: Opened(m) in log + more ==> Opened(m) in log;
      assert forall m: nat :: Opened(m) in log ==> Opened(m) in log + more;
    }
  }

  /** Only the log, the current connection and what is being checked matter. */
  lemma SameConnections(s: State, s': State)
    requires ConnectionsHold(s) && s'.log == s.log && s'.current == s.current && s'.incarnations == s.incarnations
    requires forall k :: k in s'.checking ==> k in s.checking || s.current == Some(k)
    ensures ConnectionsHold(s')
  {}

  lemma CloseKeepsConnections(s: State, cause: Cause)
    requires ConnectionsHold(s) && MaySeal(s.log, cause)
    ensures ConnectionsHold(StartClose(s, cause))
  {
    SealKeepsConnections(s, cause);
    SameConnections(Seal(s, cause), Seal(s, cause).(close := Waiting));
  }

  lemma CheckKeepsConnections(s: State, k: nat, down: bool)
    requires ConnectionsHold(s)
    ensures ConnectionsHold(Take(s, Checked(k, down)))
  {
    if k in s.checking {
      var s' := s.(checking := s.checking - multiset{k});
      assert ConnectionsHold(s');
      assert MaySeal(s'.log, ByCheck(k));
      CloseKeepsConnections(s', ByCheck(k));
    }
  }

  lemma LogKeepsConnections(s: State, s': State, e: Event)
    requires ConnectionsHold(s) && s'.log == s.log + [e] && !e.Sealed? && s'.checking == s.checking
    requires s'.incarnations == s.incarnations + (if e.Opened? then 1 else 0)
    requires e.Opened? ==> e.connection == s.incarnations && s.current.None? && s'.current == Some(e.connection)
    requires e.Lost? ==> s.current == Some(e.connection) && s'.current.None?
    requires !e.Opened? && !e.Lost? ==> s'.current == s.current
    ensures ConnectionsHold(s')
  {
    ExtendSealed(s.log, [e]);
  }

  lemma {:induction false} CallKeepsConnections(s: State, step: Step)
    requires ConnectionsHold(s) && (step.SubmitCall? || step.BeginCall? || step.FinishCall? || step.CloseResumes?)
    ensures ConnectionsHold(Take(s, step))
  {
    var s' := Take(s, step);
    if step.SubmitCall? || s' == s {
      SameConnections(s, s');
    } else {
      LogKeepsConnections(s, s', if step.FinishCall? then Ran(s.running.value, step.ok)
                                 else if step.CloseResumes? then Released
                                 else if s.deactivated then Refused(s.next) else Began(s.next));
    }
  }

  lemma OpenKeepsConnections(s: State)
    requires ConnectionsHold(s)
    ensures ConnectionsHold(Take(s, OpenConnection))
  {
    if Open(s) != s { LogKeepsConnections(s, Open(s), Opened(s.incarnations)); }
  }

  lemma ForgetKeepsConnections(s: State)
    requires ConnectionsHold(s)
    ensures ConnectionsHold(Forget(s))
  {
    if s.current.Some? { LogKeepsConnections(s, Forget(s), Lost(s.current.value)); }
  }

  lemma DownKeepsConnections(s: State, k: nat)
    requires ConnectionsHold(s)
    ensures ConnectionsHold(Take(s, Down(k)))
  {
    if s.current == Some(k) {
      SealKeepsConnections(s, ByDown(k));
      CloseKeepsConnections(Seal(s, ByDown(k)), ByClose);
    }
  }

  /** Steps of a connection's life. */
  predicate OfConnection(step: Step) {
    step.OpenConnection? || step.ConnectError? || step.Discard? || step.Discarded?
  }

  lemma {:induction false} LifeKeepsConnections(s: State, step: Step)
    requires ConnectionsHold(s) && OfConnection(step)
    ensures ConnectionsHold(Take(s, step))
  {
    match step
    case OpenConnection => OpenKeepsConnections(s);
    case ConnectError(k) => ForgetKeepsConnections(s);
    case Discard(k) => SameConnections(s, StartDiscard(s, k));
    case Discarded(k) =>
      SameConnections(s, s.(clearing := s.clearing - multiset{k}));
      ForgetKeepsConnections(s.(clearing := s.clearing - multiset{k}));
  }

  predicate Sealing(step: Step) {
    step.Down? || step.Check? || step.Checked? || step.CloseCall?
  }

  lemma {:induction false} SealingKeepsConnections(s: State, step: Step)
    requires ConnectionsHold(s) && Sealing(step)
    ensures ConnectionsHold(Take(s, step))
  {
    match step
    case Down(k) => DownKeepsConnections(s, k);
    case Check => SameConnections(s, StartCheck(s));
    case Checked(k, down) => CheckKeepsConnections(s, k, down);
    case CloseCall =>
      CloseKeepsConnections(s, ByClose);
      assert Take(s, CloseCall) == StartClose(s, ByClose);
  }

  lemma {:induction false} TakeKeepsConnections(s: State, step: Step)
    requires ConnectionsHold(s)
    ensures ConnectionsHold(Take(s, step))
  {
    if OfConnection(step) {
      LifeKeepsConnections(s, step);
    } else if Sealing(step) {
      SealingKeepsConnections(s, step);
    } else {
      CallKeepsConnections(s, step);
    }
  }

  /**
   * Over every run, a connection going down seals the transport only while it is the newest and
   * has not been let go; a connection found down after a call seals as the newest one exactly if
   * it has not been let go while the check was waiting.
   */
  lemma {:induction false} StaleConnectionsNeverSeal(steps: seq<Step>)
    ensures ConnectionsHold(Run(steps))
  {
    if steps != [] {
      StaleConnectionsNeverSeal(steps[..|steps| - 1]);
      TakeKeepsConnections(Run(steps[..|steps| - 1]), steps[|steps| - 1]);
    }
  }

  /** The transport when a check of the current connection ends after that connection gave way to the next. */
  function LateCheck(s: State): State
    requires s.current.Some?
  {
    var k := s.current.value;
    Take(Take(Take(Take(Take(s, Check), Discard(k)), Discarded(k)), OpenConnection), Checked(k, true))
  }

  /** That check seals the transport and has the next connection closed, for the sake of one already let go. */
  ghost predicate ClosesTheNext(s: State)
    requires s.current.Some?
  {
    var k := s.current.value;
    && LateCheck(s).deactivated && LateCheck(s).close == Waiting && LateCheck(s).current == Some(k + 1)
    && s.log + [Lost(k), Opened(k + 1), Sealed(ByCheck(k))] <= LateCheck(s).log
  }

  lemma {:induction false} LateCheckFrom(s: State)
    requires s.running.Some? && !s.deactivated && s.close == NotClosing
    requires s.current.Some? && s.current.value + 1 == s.incarnations
    ensures ClosesTheNext(s)
  {
    var k := s.current.value;
    var next := Take(Take(Take(Take(s, Check), Discard(k)), Discarded(k)), OpenConnection);
    assert next.log == s.log + [Lost(k)] + [Opened(k + 1)];
    assert s.log + [Lost(k), Opened(k + 1), Sealed(ByCheck(k))] == next.log + [Sealed(ByCheck(k))];
  }

  lemma {:induction false} NotYetClosing(steps: seq<Step>)
    requires !Run(steps).deactivated
    ensures Run(steps).close == NotClosing
  {
    CloseWaitsForBodies(steps);
  }

  /** The check compares with nothing: at any time, let go of the connection while it waits. */
  lemma {:induction false} LateCheckSeals(steps: seq<Step>)
    requires Run(steps).running.Some? && !Run(steps).deactivated && Run(steps).current.Some?
    ensures ClosesTheNext(Run(steps))
  {
    assert Run(steps).current.value + 1 == Run(steps).incarnations by { StaleConnectionsNeverSeal(steps); }
    NotYetClosing(steps);
    LateCheckFrom(Run(steps));
  }
}
