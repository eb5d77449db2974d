/** The relay-aware call: its retry loop and why a retry never replays a call that may have run. */
module RelayRetry {
  import opened Bytes

  datatype Route = Route(uid: string, relayUrl: string, local: bool, maxPayloadSize: nat)

  /** The canonical part of a relay's error body, when it has one. */
  datatype Canonical = Canonical(name: string, phase: string)
  datatype Error = Relay(status: nat, canonical: Option<Canonical>) | Unreachable | Other

  predicate RetryableResolve(e: Error) {
    e.Unreachable? || (e.Relay? && 500 <= e.status <= 599)
  }

  /** The three refusals that say the call was not dispatched. */
  predicate RetryableRoute(e: Error) {
    && e.Relay? && e.canonical.Some?
    && var c := e.canonical.value;
       || (e.status == 404 && c.name == "ResourceNotFound")
       || (e.status == 409 && c.name == "RouteStale")
       || (e.status == 502 && c.name == "ResourceUnavailable" && c.phase == "pre_dispatch")
  }

  // ----- the environment of one attempt

  datatype Resolution = Unresolved(error: Error) | Resolved(routes: seq<Route>)
  datatype Preparation = Ready(callOk: bool) | NotReady(error: Error, closeOk: bool, versionMismatch: bool)
  /** A POST fails, or is answered; then the caller's observer may still throw. */
  datatype Answer = Refused(error: Error) | Answered | ObserverThrew(error: Error)
  datatype Attempt = Attempt(resolution: Resolution, preparation: Preparation, probe: Option<Error>, answer: Answer)

  datatype Config = Config(size: nat, localAllowed: bool)

  datatype Event =
    | Prepared(uid: string, ok: bool)
    | Called(uid: string, ok: bool)
    | Probed(uid: string, url: string)
    | Posted(uid: string, url: string, limit: nat, answer: Answer)

  datatype Result = Success | Failure(error: Error)

  const NOT_FOUND := Relay(404, Some(Canonical("ResourceNotFound", "")))
  const TOO_LARGE := Relay(413, None)
  const SAME_PATH := Relay(409, Some(Canonical("FallbackDenied", "")))

  datatype Loop = Loop(
    excludedUrls: set<string>, excludedUids: set<string>, current: Option<string>, lastError: Option<Error>, log: seq<Event>)

  datatype Turn = Done(result: Result, state: Loop) | Again(state: Loop)

  // ----- choosing a route

  function Available(routes: seq<Route>, excludedUrls: set<string>): seq<Route> {
    if routes == [] then [] else
      var r := routes[|routes| - 1];
      Available(routes[..|routes| - 1], excludedUrls) + if r.relayUrl in excludedUrls then [] else [r]
  }

  /** The routes on (or not on) a relay, in order. */
  function OnRelay(routes: seq<Route>, url: string, on: bool): seq<Route> {
    if routes == [] then [] else
      var r := routes[|routes| - 1];
      OnRelay(routes[..|routes| - 1], url, on) + if (r.relayUrl == url) == on then [r] else []
  }

  function Ordered(routes: seq<Route>, current: Option<string>, excludedUrls: set<string>): seq<Route> {
    var available := Available(routes, excludedUrls);
    if current.None? || current.value == "" then available
    else OnRelay(available, current.value, true) + OnRelay(available, current.value, false)
  }

  function ByUid(routes: seq<Route>, excludedUids: set<string>): seq<Route> {
    if routes == [] then [] else
      var r := routes[|routes| - 1];
      ByUid(routes[..|routes| - 1], excludedUids) + if r.uid in excludedUids then [] else [r]
  }

  function FirstLocal(routes: seq<Route>, excludedUids: set<string>): Option<Route> {
    if routes == [] then None
    else if routes[0].local && routes[0].uid !in excludedUids then Some(routes[0])
    else FirstLocal(routes[1..], excludedUids)
  }

  function FirstFitting(routes: seq<Route>, size: nat): Option<Route> {
    if routes == [] then None
    else if size <= routes[0].maxPayloadSize then Some(routes[0])
    else FirstFitting(routes[1..], size)
  }

  // ----- one attempt

  function Note(s: Loop, events: seq<Event>): Loop {
    s.(log := s.log + events)
  }

  function Local(s: Loop, routes: seq<Route>, r: Route, p: Preparation): Turn {
    match p
    case Ready(callOk) =>
      Done(if callOk then Success else Failure(Other), Note(s, [Prepared(r.uid, true), Called(r.uid, callOk)]))
    case NotReady(error, closeOk, versionMismatch) =>
      var s' := Note(s, [Prepared(r.uid, false)]);
      if !closeOk || versionMismatch then Done(Failure(error), s') else
        var s'' := s'.(lastError := Some(error), excludedUids := s.excludedUids + {r.uid});
        if ByUid(routes, {r.uid}) == [] then Done(Failure(SAME_PATH), s'') else Again(s'')
  }

  /** What an error while contacting `url` does: only a listed refusal lets the loop go on, without that relay. */
  function Reject(s: Loop, url: string, error: Error): Turn {
    if RetryableRoute(error)
    then Again(s.(lastError := Some(error), current := None, excludedUrls := s.excludedUrls + {url}))
    else Done(Failure(error), s.(lastError := Some(error)))
  }

  function Contact(s: Loop, r: Route, probe: Option<Error>, answer: Answer): Turn {
    if probe.Some? then Reject(Note(s, [Probed(r.uid, r.relayUrl)]), r.relayUrl, probe.value) else
      var s' := Note(s, [Probed(r.uid, r.relayUrl), Posted(r.uid, r.relayUrl, r.maxPayloadSize, answer)]);
      match answer
      case Refused(error) => Reject(s', r.relayUrl, error)
      case Answered => Done(Success, s'.(current := Some(r.relayUrl)))
      case ObserverThrew(error) => Reject(s'.(current := Some(r.relayUrl)), r.relayUrl, error)
  }

  function ErrorOr(e: Option<Error>, otherwise: Error): Error {
    if e.Some? then e.value else otherwise
  }

  function Remote(c: Config, s: Loop, routes: seq<Route>, a: Attempt): Turn {
    var kept := ByUid(routes, s.excludedUids);
    if kept == [] && s.excludedUids != {} then Done(Failure(SAME_PATH), s) else
      var ordered := Ordered(kept, s.current, s.excludedUrls);
      if ordered == [] then Done(Failure(ErrorOr(s.lastError, NOT_FOUND)), s) else
        match FirstFitting(ordered, c.size)
        case None => Done(Failure(TOO_LARGE), s.(lastError := Some(TOO_LARGE)))
        case Some(r) => Contact(s, r, a.probe, a.answer)
  }

  function Try(c: Config, s: Loop, a: Attempt, more: bool): Turn {
    match a.resolution
    case Unresolved(error) =>
      var s' := s.(lastError := Some(error));
      if RetryableResolve(error) && more then Again(s') else Done(Failure(error), s')
    case Resolved(routes) =>
      if routes == [] then Done(Failure(NOT_FOUND), s) else
        var local := if c.localAllowed then FirstLocal(routes, s.excludedUids) else None;
        if local.Some? then Local(s, routes, local.value, a.preparation) else Remote(c, s, routes, a)
  }

  /** The whole call; there is one attempt for each element of `attempts`. */
  function Run(c: Config, s: Loop, attempts: seq<Attempt>): (Result, Loop)
    decreases |attempts|
  {
    if attempts == [] then (Failure(ErrorOr(s.lastError, NOT_FOUND)), s) else
      match Try(c, s, attempts[0], |attempts| > 1)
      case Done(result, s') => (result, s')
      case Again(s') => Run(c, s', attempts[1..])
  }

  function Fresh(current: Option<string>): Loop {
    Loop({}, {}, current, None, [])
  }

  /** The configured number of attempts, at least one and at most 32; None is the default. */
  function MaxAttempts(value: Option<int>): (r: Option<nat>)
    ensures r.Some? ==> 1 <= r.value <= 32
    ensures r.None? <==> value.Some? && (value.value < 0 || value.value > 32)
    ensures value.None? ==> r == Some(3)
    ensures value.Some? && r.Some? ==> r.value == value.value || (value.value == 0 && r.value == 1)
  {
    if value.None? then Some(3)
    else if value.value < 0 || value.value > 32 then None
    else Some(if value.value == 0 then 1 else value.value)
  }

  // ----- the loop as it runs

  class RelayClient {
    var currentRelay: Option<string>

    constructor ()
      ensures currentRelay.None?
    {
      currentRelay := None;
    }

    method Call(c: Config, attempts: seq<Attempt>) returns (result: Result, log: seq<Event>)
      requires attempts != []
      modifies this
      ensures var out := Run(c, Fresh(old(currentRelay)), attempts);
              result == out.0 && log == out.1.log && currentRelay == out.1.current
    {
      var s := Fresh(currentRelay);
      ghost var whole := Run(c, s, attempts);
      for attempt := 0 to |attempts|
        invariant currentRelay == s.current
        invariant Run(c, s, attempts[attempt..]) == whole
      {
        var rest := attempts[attempt..];
        assert rest[0] == attempts[attempt] && rest[1..] == attempts[attempt + 1..];
        var turn := MakeAttempt(c, s, attempts[attempt], attempt + 1 < |attempts|);
        s := turn.state;
        currentRelay := s.current;
        if turn.Done? { return turn.result, s.log; }
      }
      return Failure(ErrorOr(s.lastError, NOT_FOUND)), s.log;
    }
  }

  method OrderRoutes(routes: seq<Route>, current: Option<string>, excludedUrls: set<string>) returns (ordered: seq<Route>)
    ensures ordered == Ordered(routes, current, excludedUrls)
  {
    var available: seq<Route> := [];
    for i := 0 to |routes|
      invariant available == Available(routes[..i], excludedUrls)
    {
      assert routes[..i + 1][..i] == routes[..i];
      if routes[i].relayUrl !in excludedUrls { available := available + [routes[i]]; }
    }
    assert routes[..|routes|] == routes;
    if current.None? || current.value == "" { return available; }
    var preferred: seq<Route>, rest: seq<Route> := [], [];
    for i := 0 to |available|
      invariant preferred == OnRelay(available[..i], current.value, true)
      invariant rest == OnRelay(available[..i], current.value, false)
    {
      assert available[..i + 1][..i] == available[..i];
      if available[i].relayUrl == current.value { preferred := preferred + [available[i]]; }
      else { rest := rest + [available[i]]; }
    }
    assert available[..|available|] == available;
    ordered := preferred + rest;
  }

  /** A relay or the observer failed: go on without that relay, or give up. */
  method HandleError(s: Loop, url: string, error: Error) returns (turn: Turn)
    ensures turn == Reject(s, url, error)
  {
    var failed := s.(lastError := Some(error));
    if !RetryableRoute(error) { return Done(Failure(error), failed); }
    turn := Again(failed.(current := None, excludedUrls := failed.excludedUrls + {url}));
  }

  /** Probes the route and posts the call to it. */
  method ContactRoute(s: Loop, r: Route, probe: Option<Error>, answer: Answer) returns (turn: Turn)
    ensures turn == Contact(s, r, probe, answer)
  {
    var log := s.log + [Probed(r.uid, r.relayUrl)];
    if probe.Some? {
      turn := HandleError(s.(log := log), r.relayUrl, probe.value);
      return;
    }
    log := log + [Posted(r.uid, r.relayUrl, r.maxPayloadSize, answer)];
    assert log == s.log + [Probed(r.uid, r.relayUrl), Posted(r.uid, r.relayUrl, r.maxPayloadSize, answer)];
    var posted := s.(log := log);
    if answer.Refused? {
      turn := HandleError(posted, r.relayUrl, answer.error);
      return;
    }
    posted := posted.(current := Some(r.relayUrl));
    if answer.ObserverThrew? {
      turn := HandleError(posted, r.relayUrl, answer.error);
      return;
    }
    turn := Done(Success, posted);
  }

  /** Prepares the route over local IPC; a failure excludes it, and a prepared call is the end either way. */
  method PrepareLocally(s: Loop, routes: seq<Route>, r: Route, p: Preparation) returns (turn: Turn)
    ensures turn == Local(s, routes, r, p)
  {
    if p.Ready? {
      var log := s.log + [Prepared(r.uid, true)];
      log := log + [Called(r.uid, p.callOk)];
      assert log == s.log + [Prepared(r.uid, true), Called(r.uid, p.callOk)];
      return Done(if p.callOk then Success else Failure(Other), s.(log := log));
    }
    var failed := s.(log := s.log + [Prepared(r.uid, false)]);
    if !p.closeOk { return Done(Failure(p.error), failed); }
    if p.versionMismatch { return Done(Failure(p.error), failed); }
    failed := failed.(lastError := Some(p.error), excludedUids := failed.excludedUids + {r.uid});
    var distinct := ByUid(routes, {r.uid});
    if distinct == [] { return Done(Failure(SAME_PATH), failed); }
    turn := Again(failed);
  }

  method ContactRoutes(c: Config, s: Loop, ordered: seq<Route>, a: Attempt) returns (turn: Turn)
    requires ordered != []
    ensures turn == match FirstFitting(ordered, c.size)
                    case None => Done(Failure(TOO_LARGE), s.(lastError := Some(TOO_LARGE)))
                    case Some(r) => Contact(s, r, a.probe, a.answer)
  {
    var lastError := s.lastError;
    for i := 0 to |ordered|
      invariant FirstFitting(ordered, c.size) == FirstFitting(ordered[i..], c.size)
      invariant i > 0 ==> lastError == Some(TOO_LARGE)
    {
      var rest := ordered[i..];
      assert rest[0] == ordered[i] && rest[1..] == ordered[i + 1..];
      if c.size <= ordered[i].maxPayloadSize {
        turn := ContactRoute(s, ordered[i], a.probe, a.answer);
        return;
      }
      lastError := Some(TOO_LARGE);
    }
    turn := Done(Failure(lastError.value), s.(lastError := lastError));
  }

  method MakeAttempt(c: Config, s: Loop, a: Attempt, more: bool) returns (turn: Turn)
    ensures turn == Try(c, s, a, more)
  {
    if a.resolution.Unresolved? {
      var failed := s.(lastError := Some(a.resolution.error));
      if RetryableResolve(a.resolution.error) && more { return Again(failed); }
      return Done(Failure(a.resolution.error), failed);
    }
    var routes := a.resolution.routes;
    if routes == [] { return Done(Failure(NOT_FOUND), s); }
    var local := None;
    if c.localAllowed { local := FirstLocal(routes, s.excludedUids); }
    if local.Some? {
      turn := PrepareLocally(s, routes, local.value, a.preparation);
      return;
    }
    var kept := ByUid(routes, s.excludedUids);
    if kept == [] && s.excludedUids != {} { return Done(Failure(SAME_PATH), s); }
    var ordered := OrderRoutes(kept, s.current, s.excludedUrls);
    if ordered == [] { return Done(Failure(ErrorOr(s.lastError, NOT_FOUND)), s); }
    turn := ContactRoutes(c, s, ordered, a);
  }

  // ----- what is chosen

  /** How often `r` is listed. */
  ghost function Times(routes: seq<Route>, r: Route): nat {
    if routes == [] then 0 else Times(routes[..|routes| - 1], r) + if routes[|routes| - 1] == r then 1 else 0
  }

  lemma TimesStep(routes: seq<Route>, last: Route, r: Route)
    ensures Times(routes + [last], r) == Times(routes, r) + if last == r then 1 else 0
  {
    assert (routes + [last])[..|routes|] == routes;
  }

  lemma {:induction false} TimesAppend(a: seq<Route>, b: seq<Route>, r: Route)
    ensures Times(a + b, r) == Times(a, r) + Times(b, r)
    decreases |b|
  {
    if b == [] {
      assert a + b == a;
    } else {
      assert (a + b)[..|a + b| - 1] == a + b[..|b| - 1];
      TimesAppend(a, b[..|b| - 1], r);
    }
  }

  lemma {:induction false} TimesMember(routes: seq<Route>, r: Route)
    ensures r in routes <==> Times(routes, r) > 0
  {
    if routes != [] {
      TimesMember(routes[..|routes| - 1], r);
      assert routes == routes[..|routes| - 1] + [routes[|routes| - 1]];
    }
  }

  lemma {:induction false} AvailableTimes(routes: seq<Route>, excludedUrls: set<string>, r: Route)
    ensures Times(Available(routes, excludedUrls), r) == if r.relayUrl in excludedUrls then 0 else Times(routes, r)
  {
    if routes != [] {
      var before, last := routes[..|routes| - 1], routes[|routes| - 1];
      var kept := Available(before, excludedUrls);
      AvailableTimes(before, excludedUrls, r);
      TimesStep(kept, last, r);
      assert Available(routes, excludedUrls) == if last.relayUrl in excludedUrls then kept else kept + [last];
    }
  }

  lemma {:induction false} OnRelayTimes(routes: seq<Route>, url: string, on: bool, r: Route)
    ensures Times(OnRelay(routes, url, on), r) == if (r.relayUrl == url) == on then Times(routes, r) else 0
  {
    if routes != [] {
      var before, last := routes[..|routes| - 1], routes[|routes| - 1];
      var kept := OnRelay(before, url, on);
      OnRelayTimes(before, url, on, r);
      TimesStep(kept, last, r);
      assert OnRelay(routes, url, on) == if (last.relayUrl == url) == on then kept + [last] else kept;
    }
  }

  lemma {:induction false} OnRelayMembers(routes: seq<Route>, url: string, on: bool, r: Route)
    requires r in OnRelay(routes, url, on)
    ensures (r.relayUrl == url) == on
  {
    if routes != [] && r in OnRelay(routes[..|routes| - 1], url, on) {
      OnRelayMembers(routes[..|routes| - 1], url, on, r);
    }
  }

  /** Ordering keeps every route whose relay is not excluded, as often as it was there, and drops the others. */
  lemma OrderedKeepsRoutes(routes: seq<Route>, current: Option<string>, excludedUrls: set<string>, r: Route)
    ensures Times(Ordered(routes, current, excludedUrls), r) == if r.relayUrl in excludedUrls then 0 else Times(routes, r)
  {
    AvailableTimes(routes, excludedUrls, r);
    if current.Some? {
      var available := Available(routes, excludedUrls);
      OnRelayTimes(available, current.value, true, r);
      OnRelayTimes(available, current.value, false, r);
      TimesAppend(OnRelay(available, current.value, true), OnRelay(available, current.value, false), r);
    }
  }

  /** The relay that answered last comes first. */
  lemma OrderedPrefersCurrent(routes: seq<Route>, url: string, excludedUrls: set<string>, i: nat, j: nat)
    requires url != "" && i < j < |Ordered(routes, Some(url), excludedUrls)|
    requires Ordered(routes, Some(url), excludedUrls)[j].relayUrl == url
    ensures Ordered(routes, Some(url), excludedUrls)[i].relayUrl == url
  {
    var available := Available(routes, excludedUrls);
    var on, off := OnRelay(available, url, true), OnRelay(available, url, false);
    if j >= |on| { OnRelayMembers(available, url, false, off[j - |on|]); }
    OnRelayMembers(available, url, true, on[i]);
  }

  lemma {:induction false} ByUidMembers(routes: seq<Route>, excludedUids: set<string>, r: Route)
    ensures r in ByUid(routes, excludedUids) <==> r in routes && r.uid !in excludedUids
  {
    if routes != [] {
      ByUidMembers(routes[..|routes| - 1], excludedUids, r);
      assert routes == routes[..|routes| - 1] + [routes[|routes| - 1]];
    }
  }

  lemma {:induction false} FirstFittingMember(routes: seq<Route>, size: nat)
    ensures var r := FirstFitting(routes, size);
            if r.Some? then r.value in routes && size <= r.value.maxPayloadSize
            else forall x :: x in routes ==> size > x.maxPayloadSize
  {
    if routes != [] {
      FirstFittingMember(routes[1..], size);
      assert routes == [routes[0]] + routes[1..];
    }
  }

  lemma {:induction false} FirstLocalMember(routes: seq<Route>, excludedUids: set<string>)
    ensures var r := FirstLocal(routes, excludedUids); r.Some? ==> r.value.uid !in excludedUids
  {
    if routes != [] { FirstLocalMember(routes[1..], excludedUids); }
  }

  lemma ChosenRoute(c: Config, s: Loop, routes: seq<Route>)
    ensures var chosen := FirstFitting(Ordered(ByUid(routes, s.excludedUids), s.current, s.excludedUrls), c.size);
            chosen.Some? ==>
              && chosen.value.uid !in s.excludedUids && chosen.value.relayUrl !in s.excludedUrls
              && c.size <= chosen.value.maxPayloadSize
  {
    var kept := ByUid(routes, s.excludedUids);
    var ordered := Ordered(kept, s.current, s.excludedUrls);
    FirstFittingMember(ordered, c.size);
    var chosen := FirstFitting(ordered, c.size);
    if chosen.Some? {
      TimesMember(ordered, chosen.value);
      OrderedKeepsRoutes(kept, s.current, s.excludedUrls, chosen.value);
      TimesMember(kept, chosen.value);
      ByUidMembers(routes, s.excludedUids, chosen.value);
    }
  }

  // ----- safety of a whole call

  /** The error that made the loop go on after a POST, if it was one of the listed refusals. */
  predicate LetsRetry(answer: Answer) {
    !answer.Answered? && RetryableRoute(answer.error)
  }

  ghost function ProbedUrls(log: seq<Event>): set<string> {
    if log == [] then {} else
      ProbedUrls(log[..|log| - 1]) + if log[|log| - 1].Probed? then {log[|log| - 1].url} else {}
  }

  ghost function PreparedUids(log: seq<Event>): set<string> {
    if log == [] then {} else
      PreparedUids(log[..|log| - 1]) + if log[|log| - 1].Prepared? then {log[|log| - 1].uid} else {}
  }

  ghost function Posts(log: seq<Event>): nat {
    if log == [] then 0 else Posts(log[..|log| - 1]) + if log[|log| - 1].Posted? then 1 else 0
  }

  /** What may happen directly after `e`. */
  predicate Continues(e: Event) {
    match e
    case Prepared(_, ok) => !ok
    case Called(_, _) => false
    case Probed(_, _) => true
    case Posted(_, _, _, answer) => LetsRetry(answer)
  }

  /** The event may happen after those in the log. */
  ghost predicate MayHappen(log: seq<Event>, e: Event, size: nat) {
    match e
    case Prepared(uid, _) => uid !in PreparedUids(log) && (log != [] ==> Continues(log[|log| - 1]))
    case Called(uid, _) => log != [] && log[|log| - 1] == Prepared(uid, true)
    case Probed(uid, url) =>
      uid !in PreparedUids(log) && url !in ProbedUrls(log) && (log != [] ==> Continues(log[|log| - 1]))
    case Posted(uid, url, limit, _) =>
      uid !in PreparedUids(log) && size <= limit && log != [] && log[|log| - 1] == Probed(uid, url)
  }

  ghost predicate Safe(log: seq<Event>, size: nat) {
    log == [] || (Safe(log[..|log| - 1], size) && MayHappen(log[..|log| - 1], log[|log| - 1], size))
  }

  /** What the loop keeps between two attempts. */
  ghost predicate Between(s: Loop, size: nat, attempts: nat) {
    && Safe(s.log, size) && Posts(s.log) <= attempts
    && ProbedUrls(s.log) <= s.excludedUrls && PreparedUids(s.log) <= s.excludedUids
    && (s.log != [] ==> Continues(s.log[|s.log| - 1]))
  }

  lemma OneMore(log: seq<Event>, e: Event, size: nat)
    requires Safe(log, size) && MayHappen(log, e, size)
    ensures Safe(log + [e], size)
    ensures Posts(log + [e]) == Posts(log) + if e.Posted? then 1 else 0
    ensures ProbedUrls(log + [e]) == ProbedUrls(log) + if e.Probed? then {e.url} else {}
    ensures PreparedUids(log + [e]) == PreparedUids(log) + if e.Prepared? then {e.uid} else {}
  {
    assert (log + [e])[..|log|] == log;
  }

  lemma PreparedIsSafe(s: Loop, size: nat, n: nat, uid: string, ok: bool)
    requires Between(s, size, n) && uid !in s.excludedUids
    ensures var log := s.log + [Prepared(uid, ok)];
            && Safe(log, size) && Posts(log) <= n
            && ProbedUrls(log) <= s.excludedUrls && PreparedUids(log) <= s.excludedUids + {uid}
  {
    OneMore(s.log, Prepared(uid, ok), size);
  }

  lemma CalledIsSafe(s: Loop, size: nat, n: nat, uid: string, ok: bool)
    requires Between(s, size, n) && uid !in s.excludedUids
    ensures var log := s.log + [Prepared(uid, true), Called(uid, ok)]; Safe(log, size) && Posts(log) <= n
  {
    PreparedIsSafe(s, size, n, uid, true);
    OneMore(s.log + [Prepared(uid, true)], Called(uid, ok), size);
    assert s.log + [Prepared(uid, true)] + [Called(uid, ok)] == s.log + [Prepared(uid, true), Called(uid, ok)];
  }

  lemma LocalIsSafe(s: Loop, size: nat, n: nat, routes: seq<Route>, r: Route, p: Preparation)
    requires Between(s, size, n) && r.uid !in s.excludedUids
    ensures var turn := Local(s, routes, r, p);
            && Safe(turn.state.log, size) && Posts(turn.state.log) <= n
            && (turn.Again? ==> Between(turn.state, size, n))
  {
    if p.Ready? {
      CalledIsSafe(s, size, n, r.uid, p.callOk);
    } else {
      PreparedIsSafe(s, size, n, r.uid, false);
    }
  }

  lemma ProbeIsSafe(s: Loop, size: nat, n: nat, r: Route)
    requires Between(s, size, n) && r.uid !in s.excludedUids && r.relayUrl !in s.excludedUrls
    ensures var log := s.log + [Probed(r.uid, r.relayUrl)];
            && Safe(log, size) && Posts(log) <= n
            && ProbedUrls(log) <= s.excludedUrls + {r.relayUrl} && PreparedUids(log) <= s.excludedUids
  {
    OneMore(s.log, Probed(r.uid, r.relayUrl), size);
  }

  lemma PostIsSafe(s: Loop, size: nat, n: nat, r: Route, answer: Answer)
    requires Between(s, size, n) && r.uid !in s.excludedUids && r.relayUrl !in s.excludedUrls && size <= r.maxPayloadSize
    ensures var probed, posted := Probed(r.uid, r.relayUrl), Posted(r.uid, r.relayUrl, r.maxPayloadSize, answer);
            var log := s.log + [probed, posted];
            && Safe(log, size) && Posts(log) <= n + 1
            && ProbedUrls(log) <= s.excludedUrls + {r.relayUrl} && PreparedUids(log) <= s.excludedUids
  {
    var probed, posted := Probed(r.uid, r.relayUrl), Posted(r.uid, r.relayUrl, r.maxPayloadSize, answer);
    OneMore(s.log, probed, size);
    OneMore(s.log + [probed], posted, size);
    assert s.log + [probed] + [posted] == s.log + [probed, posted];
  }

  lemma ContactIsSafe(s: Loop, size: nat, n: nat, r: Route, probe: Option<Error>, answer: Answer)
    requires Between(s, size, n) && r.uid !in s.excludedUids && r.relayUrl !in s.excludedUrls && size <= r.maxPayloadSize
    ensures var turn := Contact(s, r, probe, answer);
            && Safe(turn.state.log, size) && Posts(turn.state.log) <= n + 1
            && (turn.Again? ==> Between(turn.state, size, n + 1))
  {
    if probe.Some? {
      ProbeIsSafe(s, size, n, r);
    } else {
      PostIsSafe(s, size, n, r, answer);
    }
  }

  lemma TryIsSafe(c: Config, s: Loop, n: nat, a: Attempt, more: bool)
    requires Between(s, c.size, n)
    ensures var turn := Try(c, s, a, more);
            && Safe(turn.state.log, c.size) && Posts(turn.state.log) <= n + 1
            && (turn.Again? ==> Between(turn.state, c.size, n + 1))
  {
    if a.resolution.Resolved? {
      var routes := a.resolution.routes;
      FirstLocalMember(routes, s.excludedUids);
      var local := if c.localAllowed then FirstLocal(routes, s.excludedUids) else None;
      if local.Some? {
        LocalIsSafe(s, c.size, n, routes, local.value, a.preparation);
      } else {
        ChosenRoute(c, s, routes);
        var chosen := FirstFitting(Ordered(ByUid(routes, s.excludedUids), s.current, s.excludedUrls), c.size);
        if chosen.Some? { ContactIsSafe(s, c.size, n, chosen.value, a.probe, a.answer); }
      }
    }
  }

  lemma {:induction false} RunIsSafe(c: Config, s: Loop, n: nat, attempts: seq<Attempt>)
    requires Between(s, c.size, n)
    ensures var log := Run(c, s, attempts).1.log; Safe(log, c.size) && Posts(log) <= n + |attempts|
    decreases |attempts|
  {
    if attempts != [] {
      TryIsSafe(c, s, n, attempts[0], |attempts| > 1);
      var turn := Try(c, s, attempts[0], |attempts| > 1);
      if turn.Again? { RunIsSafe(c, turn.state, n + 1, attempts[1..]); }
    }
  }

  // ----- what safety says about any two events of a call

  lemma {:induction false} SafeAt(log: seq<Event>, size: nat, j: nat)
    requires Safe(log, size) && j < |log|
    ensures MayHappen(log[..j], log[j], size)
  {
    if j < |log| - 1 {
      SafeAt(log[..|log| - 1], size, j);
      assert log[..|log| - 1][..j] == log[..j];
    }
  }

  lemma {:induction false} Recorded(log: seq<Event>, i: nat)
    requires i < |log|
    ensures log[i].Probed? ==> log[i].url in ProbedUrls(log)
    ensures log[i].Prepared? ==> log[i].uid in PreparedUids(log)
  {
    if i < |log| - 1 { Recorded(log[..|log| - 1], i); }
  }

  /** Two events of one call, the second later than the first. */
  ghost predicate Compatible(log: seq<Event>, i: nat, j: nat, size: nat)
    requires i < j < |log|
  {
    var e, f := log[i], log[j];
    && (e.Probed? && f.Probed? ==> e.url != f.url)
    && (e.Prepared? && f.Prepared? ==> e.uid != f.uid)
    && (e.Prepared? && (f.Probed? || f.Posted?) ==> e.uid != f.uid)
    && (e.Posted? ==> LetsRetry(e.answer))
    && !e.Called?
    && (e.Prepared? && e.ok ==> j == i + 1 && f.Called? && f.uid == e.uid)
    && (f.Posted? ==> log[j - 1] == Probed(f.uid, f.url) && size <= f.limit)
  }

  lemma NothingAfterCall(log: seq<Event>, size: nat, i: nat)
    requires Safe(log, size) && i + 1 < |log|
    ensures !log[i].Called? && (log[i].Posted? ==> LetsRetry(log[i].answer))
    ensures log[i].Prepared? && log[i].ok ==> i + 2 == |log| && log[i + 1].Called? && log[i + 1].uid == log[i].uid
  {
    SafeAt(log, size, i + 1);
    assert log[..i + 1][i] == log[i];
    if i + 2 < |log| {
      SafeAt(log, size, i + 2);
      assert log[..i + 2][i + 1] == log[i + 1];
    }
  }

  /**
   * In one call, whatever the relays and the local server do: no relay is probed twice and no
   * route prepared locally twice; at most one POST per attempt, each right after the probe of its
   * route and with a body that fits it; after a POST anything follows only if it ended in a listed
   * refusal; a route that was prepared locally is not contacted over HTTP afterwards, and after a
   * prepared local call nothing follows.
   */
  lemma CallIsSafe(c: Config, current: Option<string>, attempts: seq<Attempt>, i: nat, j: nat)
    requires i < j < |Run(c, Fresh(current), attempts).1.log|
    ensures var log := Run(c, Fresh(current), attempts).1.log; Posts(log) <= |attempts| && Compatible(log, i, j, c.size)
  {
    RunIsSafe(c, Fresh(current), 0, attempts);
    var log := Run(c, Fresh(current), attempts).1.log;
    SafeAt(log, c.size, j);
    Recorded(log[..j], i);
    NothingAfterCall(log, c.size, i);
    assert log[..j][j - 1] == log[j - 1];
  }

  /** The last event says that the call was answered. */
  ghost predicate EndsAnswered(log: seq<Event>) {
    && log != []
    && var e := log[|log| - 1];
       (e.Posted? && e.answer.Answered?) || (e.Called? && e.ok)
  }

  lemma LocalSucceeds(s: Loop, routes: seq<Route>, r: Route, p: Preparation)
    requires !EndsAnswered(s.log)
    ensures var turn := Local(s, routes, r, p);
            EndsAnswered(turn.state.log) <==> turn.Done? && turn.result.Success?
  {}

  lemma ContactSucceeds(s: Loop, r: Route, probe: Option<Error>, answer: Answer)
    requires !EndsAnswered(s.log)
    ensures var turn := Contact(s, r, probe, answer);
            EndsAnswered(turn.state.log) <==> turn.Done? && turn.result.Success?
  {}

  lemma {:induction false} RemoteSucceeds(c: Config, s: Loop, routes: seq<Route>, a: Attempt)
    requires !EndsAnswered(s.log)
    ensures var turn := Remote(c, s, routes, a);
            EndsAnswered(turn.state.log) <==> turn.Done? && turn.result.Success?
  {
    var fitting := FirstFitting(Ordered(ByUid(routes, s.excludedUids), s.current, s.excludedUrls), c.size);
    if fitting.Some? { ContactSucceeds(s, fitting.value, a.probe, a.answer); }
  }

  lemma {:induction false} TrySucceeds(c: Config, s: Loop, a: Attempt, more: bool)
    requires !EndsAnswered(s.log)
    ensures var turn := Try(c, s, a, more);
            EndsAnswered(turn.state.log) <==> turn.Done? && turn.result.Success?
  {
    if a.resolution.Resolved? {
      var routes := a.resolution.routes;
      var local := if c.localAllowed then FirstLocal(routes, s.excludedUids) else None;
      if local.Some? { LocalSucceeds(s, routes, local.value, a.preparation); }
      RemoteSucceeds(c, s, routes, a);
    }
  }

  lemma {:induction false} RunSucceeds(c: Config, s: Loop, attempts: seq<Attempt>)
    requires !EndsAnswered(s.log)
    ensures var out := Run(c, s, attempts); out.0.Success? <==> EndsAnswered(out.1.log)
    decreases |attempts|
  {
    if attempts != [] {
      TrySucceeds(c, s, attempts[0], |attempts| > 1);
      var turn := Try(c, s, attempts[0], |attempts| > 1);
      if turn.Again? { RunSucceeds(c, turn.state, attempts[1..]); }
    }
  }

  /** The call succeeds exactly if the last thing that happened was an answer, from a relay or over local IPC. */
  lemma SuccessMeansAnswered(c: Config, current: Option<string>, attempts: seq<Attempt>)
    ensures var out := Run(c, Fresh(current), attempts); out.0.Success? <==> EndsAnswered(out.1.log)
  {
    RunSucceeds(c, Fresh(current), attempts);
  }

  // ----- an answered call and the observer

  /** The run posts again after a POST that was answered. */
  ghost predicate ReplaysAnswered(log: seq<Event>) {
    exists i, j :: 0 <= i < j < |log| && log[i].Posted? && !log[i].answer.Refused? && log[j].Posted?
  }

  ghost predicate AnswersFrom(log: seq<Event>, attempts: seq<Attempt>) {
    forall e :: e in log && e.Posted? ==> exists a :: a in attempts && a.answer == e.answer
  }

  lemma {:induction false} ContactAnswers(s: Loop, r: Route, probe: Option<Error>, answer: Answer, e: Event)
    requires e in Contact(s, r, probe, answer).state.log && e.Posted?
    ensures e in s.log || e.answer == answer
  {}

  lemma {:induction false} TryAnswers(c: Config, s: Loop, a: Attempt, more: bool, e: Event)
    requires e in Try(c, s, a, more).state.log && e.Posted?
    ensures e in s.log || e.answer == a.answer
  {
    if a.resolution.Resolved? {
      var routes := a.resolution.routes;
      var local := if c.localAllowed then FirstLocal(routes, s.excludedUids) else None;
      var chosen := FirstFitting(Ordered(ByUid(routes, s.excludedUids), s.current, s.excludedUrls), c.size);
      if local.None? && chosen.Some? && Try(c, s, a, more) == Contact(s, chosen.value, a.probe, a.answer) {
        ContactAnswers(s, chosen.value, a.probe, a.answer, e);
      }
    }
  }

  lemma {:induction false} RunAnswers(c: Config, s: Loop, attempts: seq<Attempt>, all: seq<Attempt>)
    requires AnswersFrom(s.log, all) && forall a :: a in attempts ==> a in all
    ensures AnswersFrom(Run(c, s, attempts).1.log, all)
    decreases |attempts|
  {
    if attempts != [] {
      var turn := Try(c, s, attempts[0], |attempts| > 1);
      assert attempts[0] in all;
      forall e | e in turn.state.log && e.Posted? ensures exists a :: a in all && a.answer == e.answer {
        TryAnswers(c, s, attempts[0], |attempts| > 1, e);
      }
      if turn.Again? { RunAnswers(c, turn.state, attempts[1..], all); }
    }
  }

  /** An answered call is never posted again if the observer throws none of the listed refusals. */
  lemma AnsweredIsNeverReplayed(c: Config, current: Option<string>, attempts: seq<Attempt>)
    requires forall a :: a in attempts && a.answer.ObserverThrew? ==> !RetryableRoute(a.answer.error)
    ensures !ReplaysAnswered(Run(c, Fresh(current), attempts).1.log)
  {
    RunAnswers(c, Fresh(current), attempts, attempts);
    var log := Run(c, Fresh(current), attempts).1.log;
    forall i, j | 0 <= i < j < |log| && log[i].Posted? && log[j].Posted? ensures log[i].answer.Refused? {
      CallIsSafe(c, current, attempts, i, j);
      assert log[i] in log;
      var a :| a in attempts && a.answer == log[i].answer;
    }
  }

  /** If the observer throws a listed refusal, an answered call is posted again to another relay. */
  lemma ObserverReplays(e: Error, uid: string, x: string, y: string)
    requires RetryableRoute(e) && x != y
    ensures var first := Attempt(Resolved([Route(uid, x, false, 0)]), Ready(true), None, ObserverThrew(e));
            var second := Attempt(Resolved([Route(uid, y, false, 0)]), Ready(true), None, Answered);
            ReplaysAnswered(Run(Config(0, false), Fresh(None), [first, second]).1.log)
  {
    var a, b := Route(uid, x, false, 0), Route(uid, y, false, 0);
    var first := Attempt(Resolved([a]), Ready(true), None, ObserverThrew(e));
    var second := Attempt(Resolved([b]), Ready(true), None, Answered);
    var c := Config(0, false);
    Single(a, {});
    Single(b, {x});
    var turn := Try(c, Fresh(None), first, true);
    assert turn == Contact(Fresh(None), a, None, ObserverThrew(e));
    var s := turn.state;
    assert turn.Again? && s.excludedUrls == {x} && s.log == [Probed(uid, x), Posted(uid, x, 0, ObserverThrew(e))];
    assert Try(c, s, second, false) == Contact(s, b, None, Answered);
    assert Run(c, s, [second]) == (Success, Contact(s, b, None, Answered).state);
    var both := [first, second];
    assert both[1..] == [second] && both[0] == first;
    assert Run(c, Fresh(None), both) == Run(c, s, [second]);
    var log := Run(c, Fresh(None), [first, second]).1.log;
    assert log == Contact(s, b, None, Answered).state.log;
    assert log[1].Posted? && !log[1].answer.Refused? && log[3].Posted?;
  }

  /** A call in which the observer, when it throws, throws `e`, and an answered POST is followed by another. */
  ghost predicate ReplaysWith(e: Error, c: Config, current: Option<string>, attempts: seq<Attempt>) {
    && (forall a :: a in attempts && a.answer.ObserverThrew? ==> a.answer.error == e)
    && ReplaysAnswered(Run(c, Fresh(current), attempts).1.log)
  }

  /** An observer that throws `e` can make an answered call be posted again exactly if `e` is a listed refusal. */
  lemma ObserverReplaysExactly(e: Error)
    ensures (exists c: Config, current: Option<string>, attempts: seq<Attempt> :: ReplaysWith(e, c, current, attempts)) <==> RetryableRoute(e)
  {
    if RetryableRoute(e) {
      ObserverReplays(e, "", "x", "y");
      var first := Attempt(Resolved([Route("", "x", false, 0)]), Ready(true), None, ObserverThrew(e));
      var second := Attempt(Resolved([Route("", "y", false, 0)]), Ready(true), None, Answered);
      assert ReplaysWith(e, Config(0, false), None, [first, second]);
    } else {
      forall c: Config, current: Option<string>, attempts: seq<Attempt> ensures !ReplaysWith(e, c, current, attempts) {
        if forall a :: a in attempts && a.answer.ObserverThrew? ==> a.answer.error == e {
          AnsweredIsNeverReplayed(c, current, attempts);
        }
      }
    }
  }

  lemma Single(r: Route, excludedUrls: set<string>)
    requires r.relayUrl !in excludedUrls
    ensures ByUid([r], {}) == [r] && Ordered([r], None, excludedUrls) == [r]
  {
    var none: seq<Route> := [];
    assert [r][..0] == none && [r][0] == r;
    assert Available([r], excludedUrls) == Available(none, excludedUrls) + [r];
    assert ByUid([r], {}) == ByUid(none, {}) + [r];
  }
}
