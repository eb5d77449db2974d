/** Route preparation: what a transport binds on first use stays bound across reconnects. */
module RouteBinding {
  import opened Bytes

  datatype Identity = Identity(serverId: string, serverInstanceId: string)
  datatype Contract = Contract(namespace: string, name: string, version: string, abiHash: string, signatureHash: string)
  datatype Route = Route(name: string, uid: string, contract: Contract, maxPayloadSize: nat)

  /** The catalog's answer to a lookup; `routeName` is the route the answer names. */
  datatype Reply =
    | Nack
    | Absent(routeName: string)
    | Current(routeName: string, identity: Identity, route: Route, ready: bool)

  /** Set by the caller when the transport is created. */
  datatype Options = Options(identity: Option<Identity>, uid: Option<string>)

  datatype Dispatch = Dispatch(name: string, uid: string, contract: Contract, identity: Identity)

  datatype Bound = Bound(server: Option<Identity>, routes: map<string, Route>)

  /** A preparation that is waiting for its lookup: what it read before, and what it will compare with. */
  datatype Lookup = Lookup(name: string, contract: Contract, boundRoute: Option<Route>, identity: Identity)

  function BoundRoute(b: Bound, name: string): Option<Route> {
    if name in b.routes then Some(b.routes[name]) else None
  }

  predicate Matches(route: Route, name: string, contract: Contract) {
    route.name == name && route.contract == contract
  }

  predicate Agrees<T(==)>(expected: Option<T>, actual: T) {
    expected.Some? ==> expected.value == actual
  }

  /** Up to the lookup: `identity` is the connected server's, or none if connecting failed. */
  function Begin(b: Bound, o: Options, name: string, contract: Contract, identity: Option<Identity>): Option<Lookup> {
    var bound := BoundRoute(b, name);
    if bound.Some? && !Matches(bound.value, name, contract) then None
    else if identity.None? then None
    else if !Agrees(o.identity, identity.value) || !Agrees(b.server, identity.value) then None
    else Some(Lookup(name, contract, bound, identity.value))
  }

  predicate Acceptable(o: Options, l: Lookup, reply: Reply) {
    && reply.Current? && reply.routeName == l.name
    && reply.identity == l.identity
    && Matches(reply.route, l.name, l.contract)
    && Agrees(o.uid, reply.route.uid)
    && (l.boundRoute.Some? ==> l.boundRoute.value.uid == reply.route.uid)
    && reply.ready
  }

  /** After the lookup: binds the server and the route where the preparation saw none bound. */
  function Bind(b: Bound, l: Lookup, route: Route): Bound {
    Bound(if b.server.None? then Some(l.identity) else b.server,
          if l.boundRoute.None? then b.routes[l.name := route] else b.routes)
  }

  function Sent(l: Lookup, route: Route): Dispatch {
    Dispatch(l.name, route.uid, route.contract, l.identity)
  }

  /** The transport's bindings, updated in place by each preparation. */
  class Bindings {
    const options: Options
    var boundServerIdentity: Option<Identity>
    var boundRoutes: map<string, Route>

    constructor (options: Options)
      ensures this.options == options && boundServerIdentity.None? && boundRoutes == map[]
    {
      this.options, boundServerIdentity, boundRoutes := options, None, map[];
    }

    /** One preparation that nothing else interrupts. */
    method PrepareRoute(name: string, contract: Contract, identity: Option<Identity>, reply: Reply)
      returns (route: Option<Route>)
      modifies this
      ensures var before := Bound(old(boundServerIdentity), old(boundRoutes));
              var call := Prepare(name, contract, identity, reply);
              && Bound(boundServerIdentity, boundRoutes) == Serve(before, options, call).0
              && route == Serve(before, options, call).1
      ensures old(boundServerIdentity).Some? ==> boundServerIdentity == old(boundServerIdentity)
      ensures forall n :: n in old(boundRoutes) ==> n in boundRoutes && boundRoutes[n] == old(boundRoutes)[n]
    {
      var bound := None;
      if name in boundRoutes {
        bound := Some(boundRoutes[name]);
        if !Matches(bound.value, name, contract) { return None; }
      }
      if identity.None? { return None; }
      if !Agrees(options.identity, identity.value) { return None; }
      if !Agrees(boundServerIdentity, identity.value) { return None; }
      if !reply.Current? || reply.routeName != name { return None; }
      if reply.identity != identity.value { return None; }
      if !Matches(reply.route, name, contract) { return None; }
      if !Agrees(options.uid, reply.route.uid) { return None; }
      if bound.Some? && bound.value.uid != reply.route.uid { return None; }
      if !reply.ready { return None; }
      if boundServerIdentity.None? { boundServerIdentity := identity; }
      if bound.None? { boundRoutes := boundRoutes[name := reply.route]; }
      route := Some(reply.route);
    }
  }

  // ----- serialized preparations

  datatype Call = Prepare(name: string, contract: Contract, identity: Option<Identity>, reply: Reply)

  function Serve(b: Bound, o: Options, call: Call): (Bound, Option<Route>) {
    var l := Begin(b, o, call.name, call.contract, call.identity);
    if l.Some? && Acceptable(o, l.value, call.reply)
    then (Bind(b, l.value, call.reply.route), Some(call.reply.route))
    else (b, None)
  }

  function DispatchOf(b: Bound, o: Options, call: Call): seq<Dispatch> {
    var l := Begin(b, o, call.name, call.contract, call.identity);
    if l.Some? && Acceptable(o, l.value, call.reply) then [Sent(l.value, call.reply.route)] else []
  }

  function BoundAfter(o: Options, calls: seq<Call>): Bound {
    if calls == [] then Bound(None, map[])
    else Serve(BoundAfter(o, calls[..|calls| - 1]), o, calls[|calls| - 1]).0
  }

  /** What is dispatched when the calls are prepared one after the other, whatever servers they meet. */
  function Dispatches(o: Options, calls: seq<Call>): seq<Dispatch> {
    if calls == [] then [] else
      var before := calls[..|calls| - 1];
      Dispatches(o, before) + DispatchOf(BoundAfter(o, before), o, calls[|calls| - 1])
  }

  /** A dispatch that went to what is bound, and to what the transport was created for. */
  ghost predicate Honours(b: Bound, o: Options, d: Dispatch) {
    && d.name in b.routes && b.routes[d.name].name == d.name
    && b.routes[d.name].uid == d.uid && b.routes[d.name].contract == d.contract
    && b.server == Some(d.identity)
    && Agrees(o.identity, d.identity) && Agrees(o.uid, d.uid)
  }

  /** Nothing bound is unbound or replaced. */
  ghost predicate Extends(before: Bound, after: Bound) {
    && (before.server.Some? ==> after.server == before.server)
    && forall n :: n in before.routes ==> n in after.routes && after.routes[n] == before.routes[n]
  }

  lemma ServeExtends(b: Bound, o: Options, call: Call)
    requires forall n :: n in b.routes ==> b.routes[n].name == n
    ensures Extends(b, Serve(b, o, call).0)
    ensures forall d :: d in DispatchOf(b, o, call) ==> Honours(Serve(b, o, call).0, o, d)
    ensures forall n :: n in Serve(b, o, call).0.routes ==> Serve(b, o, call).0.routes[n].name == n
  {}

  lemma {:induction false} RunHonours(o: Options, calls: seq<Call>)
    ensures forall n :: n in BoundAfter(o, calls).routes ==> BoundAfter(o, calls).routes[n].name == n
    ensures forall d :: d in Dispatches(o, calls) ==> Honours(BoundAfter(o, calls), o, d)
  {
    if calls != [] {
      var before := calls[..|calls| - 1];
      RunHonours(o, before);
      ServeExtends(BoundAfter(o, before), o, calls[|calls| - 1]);
    }
  }

  /** Over every run, no recorded binding is ever changed. */
  lemma {:induction false} BindingsNeverChange(o: Options, calls: seq<Call>, n: nat)
    requires n <= |calls|
    ensures Extends(BoundAfter(o, calls[..n]), BoundAfter(o, calls))
    decreases |calls|
  {
    if n == |calls| {
      assert calls[..n] == calls;
    } else {
      var before := calls[..|calls| - 1];
      BindingsNeverChange(o, before, n);
      assert before[..n] == calls[..n];
      RunHonours(o, before);
      ServeExtends(BoundAfter(o, before), o, calls[|calls| - 1]);
    }
  }

  /**
   * Over every run, all dispatches go to one server identity, all dispatches on a route name use
   * one route uid and one contract, and both are the expected ones when the caller gave any.
   */
  lemma DispatchesAgree(o: Options, calls: seq<Call>, i: nat, j: nat)
    requires i < |Dispatches(o, calls)| && j < |Dispatches(o, calls)|
    ensures var d, e := Dispatches(o, calls)[i], Dispatches(o, calls)[j];
            && d.identity == e.identity
            && (d.name == e.name ==> d.uid == e.uid && d.contract == e.contract)
            && Agrees(o.identity, d.identity) && Agrees(o.uid, d.uid)
  {
    RunHonours(o, calls);
    var d, e := Dispatches(o, calls)[i], Dispatches(o, calls)[j];
    assert d in Dispatches(o, calls) && e in Dispatches(o, calls);
  }

  // ----- what serialization is for

  /** Two preparations that both begin before either binds: the first commits, then the second. */
  function Overlap(b: Bound, o: Options, first: Call, second: Call): (Bound, seq<Dispatch>) {
    var l1 := Begin(b, o, first.name, first.contract, first.identity);
    var l2 := Begin(b, o, second.name, second.contract, second.identity);
    var ok1 := l1.Some? && Acceptable(o, l1.value, first.reply);
    var ok2 := l2.Some? && Acceptable(o, l2.value, second.reply);
    var b1 := if ok1 then Bind(b, l1.value, first.reply.route) else b;
    var b2 := if ok2 then Bind(b1, l2.value, second.reply.route) else b1;
    (b2, (if ok1 then [Sent(l1.value, first.reply.route)] else []) + (if ok2 then [Sent(l2.value, second.reply.route)] else []))
  }

  /** What every run keeps of its bindings. */
  ghost predicate Consistent(b: Bound, o: Options) {
    && (b.server.None? ==> b.routes == map[])
    && (b.server.Some? ==> Agrees(o.identity, b.server.value))
    && forall n :: n in b.routes ==> b.routes[n].name == n && Agrees(o.uid, b.routes[n].uid)
  }

  lemma {:induction false} RunIsConsistent(o: Options, calls: seq<Call>)
    ensures Consistent(BoundAfter(o, calls), o)
  {
    if calls != [] { RunIsConsistent(o, calls[..|calls| - 1]); }
  }

  /** Whatever two servers answer, if both preparations dispatch, they dispatch to one server. */
  ghost predicate OneServer(b: Bound, o: Options, n: string, c: Contract, m: string, d: Contract) {
    forall i, x, j, y ::
      var sent := Overlap(b, o, Prepare(n, c, i, x), Prepare(m, d, j, y)).1;
      |sent| == 2 ==> sent[0].identity == sent[1].identity
  }

  /** Likewise, on one route name they dispatch on one uid. */
  ghost predicate OneUid(b: Bound, o: Options, n: string, c: Contract, d: Contract) {
    forall i, x, j, y ::
      var sent := Overlap(b, o, Prepare(n, c, i, x), Prepare(n, d, j, y)).1;
      |sent| == 2 ==> sent[0].uid == sent[1].uid
  }

  /** An answer that the preparation of a route it does not have bound accepts. */
  function Answer(name: string, contract: Contract, server: Identity, uid: string): Call {
    Prepare(name, contract, Some(server), Current(name, server, Route(name, uid, contract, 0), true))
  }

  lemma AnswersAreSent(
    b: Bound, o: Options, n: string, c: Contract, i: Identity, x: string, m: string, d: Contract, j: Identity, y: string)
    requires n !in b.routes && m !in b.routes
    requires Agrees(o.identity, i) && Agrees(b.server, i) && Agrees(o.identity, j) && Agrees(b.server, j)
    requires Agrees(o.uid, x) && Agrees(o.uid, y)
    ensures Overlap(b, o, Answer(n, c, i, x), Answer(m, d, j, y)).1 == [Dispatch(n, x, c, i), Dispatch(m, y, d, j)]
  {}

  /**
   * After any run, if two preparations overlapped: they would be sure to meet one server exactly if
   * one is bound or expected already.
   */
  lemma OverlapServersAgree(o: Options, calls: seq<Call>, n: string, c: Contract, m: string, d: Contract)
    ensures var b := BoundAfter(o, calls); OneServer(b, o, n, c, m, d) <==> b.server.Some? || o.identity.Some?
  {
    var b := BoundAfter(o, calls);
    RunIsConsistent(o, calls);
    if b.server.None? && o.identity.None? {
      var i, j := Identity("a", ""), Identity("b", "");
      var uid := if o.uid.Some? then o.uid.value else "";
      AnswersAreSent(b, o, n, c, i, uid, m, d, j, uid);
      assert i.serverId[0] != j.serverId[0];
      assert !OneServer(b, o, n, c, m, d);
    }
  }

  /** And sure to use one uid of a route exactly if the route is bound or its uid expected already. */
  lemma OverlapUidsAgree(o: Options, calls: seq<Call>, n: string, c: Contract, d: Contract)
    ensures var b := BoundAfter(o, calls); OneUid(b, o, n, c, d) <==> n in b.routes || o.uid.Some?
  {
    var b := BoundAfter(o, calls);
    RunIsConsistent(o, calls);
    if n !in b.routes && o.uid.None? {
      var server := if b.server.Some? then b.server.value
                    else if o.identity.Some? then o.identity.value
                    else Identity("", "");
      AnswersAreSent(b, o, n, c, server, "a", n, d, server, "b");
      assert "a"[0] != "b"[0];
      assert !OneUid(b, o, n, c, d);
    }
  }

  /** Without the queue one route name is dispatched on two uids, and its binding is replaced. */
  lemma OverlapRebinds(name: string, contract: Contract, server: Identity, x: string, y: string)
    requires x != y
    ensures var answer := (uid: string) => Current(name, server, Route(name, uid, contract, 0), true);
            var first, second := Prepare(name, contract, Some(server), answer(x)), Prepare(name, contract, Some(server), answer(y));
            var out := Overlap(Bound(None, map[]), Options(None, None), first, second);
            && out.1 == [Dispatch(name, x, contract, server), Dispatch(name, y, contract, server)]
            && !Extends(Serve(Bound(None, map[]), Options(None, None), first).0, out.0)
  {
    var answer := (uid: string) => Current(name, server, Route(name, uid, contract, 0), true);
    var first, second := Prepare(name, contract, Some(server), answer(x)), Prepare(name, contract, Some(server), answer(y));
    var out := Overlap(Bound(None, map[]), Options(None, None), first, second);
    assert name in Serve(Bound(None, map[]), Options(None, None), first).0.routes;
    assert out.0.routes[name].uid == y;
  }
}
