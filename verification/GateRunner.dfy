/** The gate runner: commands start only behind passed dependencies, and every gate is recorded once. */
module GateRunner {
  /** `independent` gates without dependencies are submitted before the loop. */
  datatype Gate = Gate(name: string, dependencies: seq<string>, independent: bool)
  datatype Status = Passed | Failed | NotRun
  datatype Record = Record(name: string, status: Status)

  /** What executing a gate's command gives: it does not start after the deadline. */
  datatype Execution = Expired | Ran(ok: bool)

  /** The commands' outcomes, the gate whose evidence is checked once more, and whether that evidence is sound. */
  datatype World = World(execute: string -> Execution, evidenceGate: string, evidenceOk: bool)

  predicate Submitted(g: Gate) {
    g.independent && g.dependencies == []
  }

  /** The gate names that passed so far. */
  function PassedNames(records: seq<Record>): set<string> {
    if records == [] then {} else
      var last := records[|records| - 1];
      PassedNames(records[..|records| - 1]) + if last.status == Passed then {last.name} else {}
  }

  lemma {:induction false} PassedMember(records: seq<Record>, name: string)
    requires name in PassedNames(records)
    ensures exists j :: 0 <= j < |records| && records[j].name == name && records[j].status == Passed
  {
    var before := records[..|records| - 1];
    if name in PassedNames(before) {
      PassedMember(before, name);
      var j :| 0 <= j < |before| && before[j].name == name && before[j].status == Passed;
      assert records[j] == before[j];
    }
  }

  predicate Cleared(g: Gate, records: seq<Record>) {
    forall d :: d in g.dependencies ==> d in PassedNames(records)
  }

  function Verdict(g: Gate, w: World): Status {
    match w.execute(g.name)
    case Expired => NotRun
    case Ran(ok) => if !ok || (g.name == w.evidenceGate && !w.evidenceOk) then Failed else Passed
  }

  function Judge(g: Gate, records: seq<Record>, w: World): Record {
    Record(g.name, if Cleared(g, records) then Verdict(g, w) else NotRun)
  }

  /** The records of a run, in list order. */
  ghost function Records(gates: seq<Gate>, w: World): seq<Record> {
    if gates == [] then [] else
      var before := Records(gates[..|gates| - 1], w);
      before + [Judge(gates[|gates| - 1], before, w)]
  }

  function Overall(records: seq<Record>): bool {
    records != [] && forall i :: 0 <= i < |records| ==> records[i].status == Passed
  }

  ghost predicate UniqueNames(gates: seq<Gate>) {
    forall i, j :: 0 <= i < j < |gates| ==> gates[i].name != gates[j].name
  }

  // ----- the loop

  method PassedSoFar(records: seq<Record>) returns (passed: set<string>)
    ensures passed == PassedNames(records)
  {
    passed := {};
    for i := 0 to |records|
      invariant passed == PassedNames(records[..i])
    {
      assert records[..i + 1][..i] == records[..i];
      if records[i].status == Passed { passed := passed + {records[i].name}; }
    }
    assert records[..|records|] == records;
  }

  method MissingDependencies(g: Gate, passed: set<string>) returns (missing: seq<string>)
    ensures missing == [] <==> forall d :: d in g.dependencies ==> d in passed
  {
    missing := [];
    for i := 0 to |g.dependencies|
      invariant missing == [] <==> forall j :: 0 <= j < i ==> g.dependencies[j] in passed
    {
      if g.dependencies[i] !in passed { missing := missing + [g.dependencies[i]]; }
    }
  }

  /** The commands the setup pool starts before the loop. */
  function EarlyStarts(gates: seq<Gate>, w: World): seq<string> {
    if gates == [] then [] else
      var g := gates[|gates| - 1];
      EarlyStarts(gates[..|gates| - 1], w) + if Submitted(g) && w.execute(g.name).Ran? then [g.name] else []
  }

  /** The commands the loop starts itself. */
  ghost function LoopStarts(gates: seq<Gate>, w: World): seq<string> {
    if gates == [] then [] else
      var before, g := gates[..|gates| - 1], gates[|gates| - 1];
      LoopStarts(before, w)
      + if !Submitted(g) && Cleared(g, Records(before, w)) && w.execute(g.name).Ran? then [g.name] else []
  }

  method SubmitSetup(gates: seq<Gate>, w: World) returns (started: seq<string>)
    ensures started == EarlyStarts(gates, w)
  {
    started := [];
    for i := 0 to |gates|
      invariant started == EarlyStarts(gates[..i], w)
    {
      assert gates[..i + 1][..i] == gates[..i];
      if Submitted(gates[i]) && w.execute(gates[i].name).Ran? { started := started + [gates[i].name]; }
    }
    assert gates[..|gates|] == gates;
  }

  method RunGate(g: Gate, records: seq<Record>, w: World) returns (record: Record, starts: bool)
    ensures record == Judge(g, records, w)
    ensures starts <==> !Submitted(g) && Cleared(g, records) && w.execute(g.name).Ran?
  {
    var passed := PassedSoFar(records);
    var missing := MissingDependencies(g, passed);
    record, starts := Record(g.name, NotRun), false;
    if missing == [] {
      var outcome := w.execute(g.name);
      starts := !Submitted(g) && outcome.Ran?;
      if outcome.Ran? { record := Record(g.name, if outcome.ok then Passed else Failed); }
      if g.name == w.evidenceGate && record.status == Passed && !w.evidenceOk { record := Record(g.name, Failed); }
    }
  }

  method AllPassed(records: seq<Record>) returns (passed: bool)
    ensures passed <==> Overall(records)
  {
    passed := records != [];
    for i := 0 to |records|
      invariant passed <==> records != [] && forall j :: 0 <= j < i ==> records[j].status == Passed
    {
      if records[i].status != Passed { passed := false; }
    }
  }

  method RunGates(gates: seq<Gate>, w: World) returns (records: seq<Record>, started: seq<string>, passed: bool)
    ensures records == Records(gates, w)
    ensures started == EarlyStarts(gates, w) + LoopStarts(gates, w)
    ensures passed <==> Overall(records)
  {
    records := [];
    var early := SubmitSetup(gates, w);
    var later: seq<string> := [];
    for i := 0 to |gates|
      invariant records == Records(gates[..i], w)
      invariant later == LoopStarts(gates[..i], w)
    {
      assert gates[..i + 1][..i] == gates[..i];
      var record, starts := RunGate(gates[i], records, w);
      records := records + [record];
      if starts { later := later + [gates[i].name]; }
    }
    assert gates[..|gates|] == gates;
    passed := AllPassed(records);
    started := early + later;
  }

  // ----- what a run guarantees

  lemma {:induction false} RecordsFollowGates(gates: seq<Gate>, w: World, i: nat)
    requires i < |gates|
    ensures |Records(gates, w)| == |gates|
    ensures Records(gates, w)[..i] == Records(gates[..i], w)
    ensures Records(gates, w)[i] == Judge(gates[i], Records(gates[..i], w), w)
    decreases |gates|
  {
    var n := |gates| - 1;
    if n > 0 { RecordsFollowGates(gates[..n], w, if i < n then i else 0); }
    if i < n {
      assert gates[..n][..i] == gates[..i];
      assert Records(gates, w)[..i] == Records(gates[..n], w)[..i];
    } else {
      assert |Records(gates[..n], w)| == n;
    }
  }

  /** Each gate is recorded exactly once, at its place in the list; only with all dependencies passed before it does it run. */
  lemma EachGateRecordedOnce(gates: seq<Gate>, w: World, i: nat)
    requires i < |gates|
    ensures var records := Records(gates, w);
            && |records| == |gates| && records[i].name == gates[i].name
            && (records[i].status != NotRun ==>
                  forall d :: d in gates[i].dependencies ==>
                    exists j :: 0 <= j < i && records[j].name == d && records[j].status == Passed)
  {
    RecordsFollowGates(gates, w, i);
    var records := Records(gates, w);
    if records[i].status != NotRun {
      forall d | d in gates[i].dependencies ensures exists j :: 0 <= j < i && records[j].name == d && records[j].status == Passed {
        PassedMember(records[..i], d);
        var j :| 0 <= j < i && records[..i][j].name == d && records[..i][j].status == Passed;
        assert records[j].name == d && records[j].status == Passed;
      }
    }
  }

  ghost predicate Needs(gates: seq<Gate>, i: nat, j: nat) {
    i < |gates| && j < |gates| && gates[j].name in gates[i].dependencies
  }

  /** Each gate of the chain needs the next. */
  ghost predicate Chain(gates: seq<Gate>, path: seq<nat>) {
    && path != [] && path[|path| - 1] < |gates|
    && forall k :: 0 <= k < |path| - 1 ==> Needs(gates, path[k], path[k + 1])
  }

  lemma DirectDependencyPassed(gates: seq<Gate>, w: World, i: nat, j: nat)
    requires UniqueNames(gates) && Needs(gates, i, j)
    ensures |Records(gates, w)| == |gates|
    ensures Records(gates, w)[i].status != NotRun ==> Records(gates, w)[j].status == Passed
  {
    EachGateRecordedOnce(gates, w, i);
    EachGateRecordedOnce(gates, w, j);
    var records := Records(gates, w);
    if records[i].status != NotRun {
      var k :| 0 <= k < i && records[k].name == gates[j].name && records[k].status == Passed;
      EachGateRecordedOnce(gates, w, k);
    }
  }

  /** A gate with a dependency that did not pass, however far down, is not run. */
  lemma {:induction false} NonPassingDependencyBlocks(gates: seq<Gate>, w: World, path: seq<nat>)
    requires UniqueNames(gates) && Chain(gates, path) && |path| > 1
    requires |Records(gates, w)| == |gates| && Records(gates, w)[path[|path| - 1]].status != Passed
    ensures path[0] < |gates| && Records(gates, w)[path[0]].status == NotRun
  {
    assert Needs(gates, path[0], path[1]);
    if |path| > 2 {
      var rest := path[1..];
      forall k | 0 <= k < |rest| - 1 ensures Needs(gates, rest[k], rest[k + 1]) {
        assert Needs(gates, path[k + 1], path[k + 1 + 1]);
      }
      NonPassingDependencyBlocks(gates, w, rest);
    }
    DirectDependencyPassed(gates, w, path[0], path[1]);
  }

  ghost function Times(names: seq<string>, name: string): nat {
    if names == [] then 0 else Times(names[..|names| - 1], name) + if names[|names| - 1] == name then 1 else 0
  }

  /** What one gate adds to the starts. */
  ghost function OwnStart(g: Gate, start: bool): seq<string> {
    if start then [g.name] else []
  }

  lemma TimesStep(names: seq<string>, g: Gate, start: bool, name: string)
    ensures Times(names + OwnStart(g, start), name) == Times(names, name) + if start && g.name == name then 1 else 0
  {
    if start {
      assert (names + [g.name])[..|names|] == names;
    } else {
      assert names + [] == names;
    }
  }

  /** How often the command of that name is started. */
  ghost function Starts(gates: seq<Gate>, w: World, name: string): nat {
    if gates == [] then 0 else
      var before, g := gates[..|gates| - 1], gates[|gates| - 1];
      Starts(before, w, name) + if g.name == name && Cleared(g, Records(before, w)) && w.execute(name).Ran? then 1 else 0
  }

  lemma {:induction false} StartsAreLogged(gates: seq<Gate>, w: World, name: string)
    ensures Times(EarlyStarts(gates, w), name) + Times(LoopStarts(gates, w), name) == Starts(gates, w, name)
  {
    if gates != [] {
      var before, g := gates[..|gates| - 1], gates[|gates| - 1];
      var ran := w.execute(g.name).Ran?;
      StartsAreLogged(before, w, name);
      TimesStep(EarlyStarts(before, w), g, Submitted(g) && ran, name);
      TimesStep(LoopStarts(before, w), g, !Submitted(g) && Cleared(g, Records(before, w)) && ran, name);
    }
  }

  lemma {:induction false} NoStarts(gates: seq<Gate>, w: World, name: string)
    requires forall i :: 0 <= i < |gates| ==> gates[i].name != name
    ensures Starts(gates, w, name) == 0
  {
    if gates != [] { NoStarts(gates[..|gates| - 1], w, name); }
  }

  lemma {:induction false} StartsOnce(gates: seq<Gate>, w: World, i: nat)
    requires UniqueNames(gates) && i < |gates|
    ensures Starts(gates, w, gates[i].name)
            == if Cleared(gates[i], Records(gates[..i], w)) && w.execute(gates[i].name).Ran? then 1 else 0
    decreases |gates|
  {
    var n := |gates| - 1;
    if i < n {
      assert gates[..n][..i] == gates[..i];
      StartsOnce(gates[..n], w, i);
    } else {
      NoStarts(gates[..n], w, gates[n].name);
    }
  }

  /** A gate's command starts exactly once if its dependencies passed before its turn and time is left, and else never. */
  lemma StartsAtMostOnce(gates: seq<Gate>, w: World, i: nat)
    requires UniqueNames(gates) && i < |gates|
    ensures Times(EarlyStarts(gates, w), gates[i].name) + Times(LoopStarts(gates, w), gates[i].name)
            == if Cleared(gates[i], Records(gates[..i], w)) && w.execute(gates[i].name).Ran? then 1 else 0
  {
    StartsOnce(gates, w, i);
    StartsAreLogged(gates, w, gates[i].name);
  }

  /** The run passes exactly if there is a gate and every gate, and so every dependency, passed. */
  lemma OverallMeansAllPassed(gates: seq<Gate>, w: World)
    ensures Overall(Records(gates, w)) <==>
            gates != [] && forall i :: 0 <= i < |gates| ==> Verdict(gates[i], w) == Passed && Cleared(gates[i], Records(gates[..i], w))
  {
    var records := Records(gates, w);
    if gates != [] {
      RecordsFollowGates(gates, w, 0);
      forall i | 0 <= i < |gates| ensures records[i] == Judge(gates[i], Records(gates[..i], w), w) {
        RecordsFollowGates(gates, w, i);
      }
    }
  }
}
