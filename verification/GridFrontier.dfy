/** The cell table of a nested grid as a value: what subdividing and deleting do to the frontier. */
module GridFrontier {
  import opened GridIndex

  datatype Key = Key(level: int, id: int)
  datatype Cell = Cell(activate: bool, deleted: bool)
  type Table = map<Key, Cell>

  // ----- operations

  /** The table right after construction: every level-1 cell, active. */
  function Initial(rules: seq<Rule>): Table
    requires PositiveRules(rules) && |rules| >= 2
  {
    map id | 0 <= id < Height(rules, 1) * Width(rules, 1) :: Key(1, id) := Cell(true, false)
  }

  /** Children of a cell; cells outside the level table have none. */
  function Children(rules: seq<Rule>, k: Key): seq<Key>
    requires PositiveRules(rules)
  {
    if 0 <= k.level < |rules| then
      MulPositive(rules[k.level].w, rules[k.level].h);
      seq(rules[k.level].w * rules[k.level].h,
          local => Key(k.level + 1, ChildId(Width(rules, k.level), rules[k.level], k.id, local)))
    else []
  }

  function AllChildren(rules: seq<Rule>, parents: seq<Key>): seq<Key>
    requires PositiveRules(rules)
  {
    if parents == [] then []
    else AllChildren(rules, parents[..|parents| - 1]) + Children(rules, parents[|parents| - 1])
  }

  predicate Selectable(t: Table, k: Key) {
    k in t && t[k].activate && !t[k].deleted
  }

  /** The requested cells that exist, are active and are not deleted, each once. */
  function Selected(t: Table, keys: seq<Key>): (r: seq<Key>)
    ensures forall k :: k in r <==> k in keys && Selectable(t, k)
    ensures forall i, j :: 0 <= i < j < |r| ==> r[i] != r[j]
  {
    if keys == [] then [] else
      var k, rest := keys[|keys| - 1], Selected(t, keys[..|keys| - 1]);
      assert keys == keys[..|keys| - 1] + [k];
      if Selectable(t, k) && k !in rest then rest + [k] else rest
  }

  /** The table after subdividing `parents`. */
  function Subdivided(rules: seq<Rule>, t: Table, parents: seq<Key>): Table
    requires PositiveRules(rules)
  {
    var children := AllChildren(rules, parents);
    if children == [] then t else
      map k | k in t.Keys + (set c | c in children) ::
        if k in parents then Cell(false, k !in children && k in t && t[k].deleted)
        else if k in children then Cell(true, false)
        else t[k]
  }

  /** The table after deleting `cells`. */
  function Deleted(t: Table, cells: seq<Key>): Table {
    map k | k in t :: if k in cells then Cell(false, true) else t[k]
  }

  // ----- the frontier invariant

  ghost predicate ValidKey(rules: seq<Rule>, k: Key)
    requires PositiveRules(rules)
  {
    1 <= k.level <= |rules| && InLevel(rules, k.level, k.id)
  }

  /** The cell one level up that contains `k`. */
  ghost function ParentKey(rules: seq<Rule>, k: Key): Key
    requires PositiveRules(rules) && 1 <= k.level <= |rules|
  {
    Key(k.level - 1, ParentId(Width(rules, k.level - 1), rules[k.level - 1], k.id))
  }

  /** Neither active nor deleted: the cell has been replaced by its children. */
  predicate Split(c: Cell) { !c.activate && !c.deleted }

  /** `c` is a child of `k`. */
  ghost predicate ChildKey(rules: seq<Rule>, k: Key, c: Key)
    requires PositiveRules(rules)
  {
    ValidKey(rules, c) && ParentKey(rules, c) == k
  }

  /** Only cells of the domain are in the table, none both active and deleted, and level 1 is complete. */
  ghost predicate WellFormed(rules: seq<Rule>, t: Table)
    requires PositiveRules(rules)
  {
    && (forall k :: k in t ==> ValidKey(rules, k) && !(t[k].activate && t[k].deleted))
    && (forall k :: ValidKey(rules, k) && k.level == 1 ==> k in t)
  }

  /** `k` hangs under a split cell. */
  ghost predicate UnderSplit(rules: seq<Rule>, t: Table, k: Key)
    requires PositiveRules(rules) && 1 <= k.level <= |rules|
  {
    ParentKey(rules, k) in t && Split(t[ParentKey(rules, k)])
  }

  /** All children of `k` are in the table. */
  ghost predicate Complete(rules: seq<Rule>, t: Table, k: Key)
    requires PositiveRules(rules)
  {
    k.level < |rules| && forall c :: ChildKey(rules, k, c) ==> c in t
  }

  /** The table is well formed, and every cell below level 1 hangs under a split cell. */
  ghost predicate Rooted(rules: seq<Rule>, t: Table)
    requires PositiveRules(rules) && |rules| >= 2
  {
    && WellFormed(rules, t)
    && (forall k :: k in t && k.level > 1 ==> UnderSplit(rules, t, k))
  }

  /**
   * Every table cell is an active leaf, a deleted leaf, or a split cell all of whose
   * children are present; every cell below level 1 hangs under a split cell.
   */
  ghost predicate Frontier(rules: seq<Rule>, t: Table)
    requires PositiveRules(rules) && |rules| >= 2
  {
    && Rooted(rules, t)
    && (forall k :: k in t && Split(t[k]) ==> Complete(rules, t, k))
  }

  /** The members of `Children` are exactly the cells of the next level whose parent is `k`. */
  lemma ChildrenAreChildKeys(rules: seq<Rule>, k: Key, c: Key)
    requires PositiveRules(rules) && ValidKey(rules, k)
    ensures c in Children(rules, k) <==> ChildKey(rules, k, c)
  {
    if k.level < |rules| {
      var W, H, rule := Width(rules, k.level), Height(rules, k.level), rules[k.level];
      assert rule.w * rule.h == rule.h * rule.w;
      if c in Children(rules, k) {
        var local :| 0 <= local < rule.h * rule.w && c == Children(rules, k)[local];
        ChildDeterminesParentAndLocal(W, H, rule, k.id, local);
      }
      if ChildKey(rules, k, c) {
        ParentAndLocalDetermineChild(W, H, rule, c.id);
        assert c == Children(rules, k)[LocalId(W * rule.w, rule, c.id)];
      }
    }
  }

  lemma {:induction false} AllChildrenMembers(rules: seq<Rule>, parents: seq<Key>, c: Key)
    requires PositiveRules(rules) && forall k :: k in parents ==> ValidKey(rules, k)
    ensures c in AllChildren(rules, parents) <==> exists k :: k in parents && ChildKey(rules, k, c)
  {
    if parents != [] {
      var k, rest := parents[|parents| - 1], parents[..|parents| - 1];
      assert parents == rest + [k];
      AllChildrenMembers(rules, rest, c);
      ChildrenAreChildKeys(rules, k, c);
    }
  }

  // ----- subdividing

  ghost predicate AllSelectable(t: Table, cells: seq<Key>) {
    forall k :: k in cells ==> Selectable(t, k)
  }

  /**
   * The selection does not mix a cell of the deepest level, which has no children,
   * with a cell that can be split.
   */
  ghost predicate Unmixed(rules: seq<Rule>, parents: seq<Key>) {
    || (forall k :: k in parents ==> k.level < |rules|)
    || (forall k :: k in parents ==> k.level >= |rules|)
  }

  /** No child of a selected cell is in the table yet, so no existing row is overwritten. */
  lemma ChildrenAreNew(rules: seq<Rule>, t: Table, parents: seq<Key>, c: Key)
    requires PositiveRules(rules) && |rules| >= 2 && Rooted(rules, t) && AllSelectable(t, parents)
    requires c in AllChildren(rules, parents)
    ensures c !in t
  {
    AllChildrenMembers(rules, parents, c);
    var k :| k in parents && ChildKey(rules, k, c);
    assert Selectable(t, k) && ValidKey(rules, k);
  }

  /** The children of distinct cells are distinct, so the table keeps one row per cell. */
  lemma {:induction false} ChildrenAreDistinct(rules: seq<Rule>, parents: seq<Key>, i: nat, j: nat)
    requires PositiveRules(rules) && forall k :: k in parents ==> ValidKey(rules, k)
    requires forall a, b :: 0 <= a < b < |parents| ==> parents[a] != parents[b]
    requires i < j < |AllChildren(rules, parents)|
    ensures AllChildren(rules, parents)[i] != AllChildren(rules, parents)[j]
  {
    var k, rest := parents[|parents| - 1], parents[..|parents| - 1];
    var before, last := AllChildren(rules, rest), Children(rules, k);
    var all := before + last;
    assert AllChildren(rules, parents) == all;
    assert k in parents && forall o :: o in rest ==> o in parents;
    if j < |before| {
      assert all[i] == before[i] && all[j] == before[j];
      ChildrenAreDistinct(rules, rest, i, j);
    } else if i < |before| {
      assert all[i] == before[i] && before[i] in before;
      assert all[j] == last[j - |before|] && last[j - |before|] in last;
      assert k !in rest;
      CousinsDistinct(rules, rest, k, before[i], last[j - |before|]);
    } else {
      assert all[i] == last[i - |before|] && all[j] == last[j - |before|];
      SiblingsDistinct(rules, k, i - |before|, j - |before|);
    }
  }

  lemma {:induction false} CousinsDistinct(rules: seq<Rule>, others: seq<Key>, k: Key, c: Key, d: Key)
    requires PositiveRules(rules) && ValidKey(rules, k) && k !in others && forall o :: o in others ==> ValidKey(rules, o)
    requires c in AllChildren(rules, others) && d in Children(rules, k)
    ensures c != d
  {
    AllChildrenMembers(rules, others, c);
    ChildrenAreChildKeys(rules, k, d);
  }

  lemma SiblingsDistinct(rules: seq<Rule>, k: Key, i: nat, j: nat)
    requires PositiveRules(rules) && ValidKey(rules, k) && i < j < |Children(rules, k)|
    ensures Children(rules, k)[i] != Children(rules, k)[j]
  {
    var W, H, rule := Width(rules, k.level), Height(rules, k.level), rules[k.level];
    assert rule.w * rule.h == rule.h * rule.w;
    ChildDeterminesParentAndLocal(W, H, rule, k.id, i);
    ChildDeterminesParentAndLocal(W, H, rule, k.id, j);
  }

  /** There are children to insert exactly when some selected cell is above the deepest level. */
  lemma SomeChild(rules: seq<Rule>, parents: seq<Key>)
    requires PositiveRules(rules) && forall k :: k in parents ==> ValidKey(rules, k)
    ensures AllChildren(rules, parents) != [] <==> exists k :: k in parents && k.level < |rules|
  {
    if k :| k in parents && k.level < |rules| {
      var rule := rules[k.level];
      MulPositive(rule.w, rule.h);
      var c := Children(rules, k)[0];
      assert c in Children(rules, k);
      ChildrenAreChildKeys(rules, k, c);
      AllChildrenMembers(rules, parents, c);
    }
    if c :| c in AllChildren(rules, parents) {
      AllChildrenMembers(rules, parents, c);
    }
  }

  /**
   * Subdividing active cells keeps the frontier exactly when the selection is unmixed:
   * a deepest cell selected beside a splittable one is switched off with nothing below it.
   */
  lemma SubdivideKeepsFrontier(rules: seq<Rule>, t: Table, parents: seq<Key>)
    requires PositiveRules(rules) && |rules| >= 2 && Frontier(rules, t) && AllSelectable(t, parents)
    ensures Frontier(rules, Subdivided(rules, t, parents)) <==> Unmixed(rules, parents)
  {
    SomeChild(rules, parents);
    var after := Subdivided(rules, t, parents);
    if exists k :: k in parents && k.level < |rules| {
      if k :| k in parents && k.level >= |rules| {
        MixedBreaksFrontier(rules, t, parents, k);
      } else {
        SplittingKeepsFrontier(rules, t, parents);
      }
    }
  }

  lemma MixedBreaksFrontier(rules: seq<Rule>, t: Table, parents: seq<Key>, k: Key)
    requires PositiveRules(rules) && |rules| >= 2 && Frontier(rules, t) && AllSelectable(t, parents)
    requires AllChildren(rules, parents) != [] && k in parents && k.level >= |rules|
    ensures !Frontier(rules, Subdivided(rules, t, parents))
  {
    var after := Subdivided(rules, t, parents);
    assert Selectable(t, k);
    assert k in after && Split(after[k]);
  }

  /** What subdividing splittable cells does, row by row. */
  lemma SplittingByRow(rules: seq<Rule>, t: Table, parents: seq<Key>, k: Key)
    requires PositiveRules(rules) && |rules| >= 2 && Rooted(rules, t) && AllSelectable(t, parents)
    requires AllChildren(rules, parents) != []
    ensures var after := Subdivided(rules, t, parents);
            && (k in after <==> k in t || exists p :: p in parents && ChildKey(rules, p, k))
            && (k in parents ==> k in t && after[k] == Cell(false, false))
            && (k in t && k !in parents ==> after[k] == t[k])
            && (k in after && k !in t ==> after[k] == Cell(true, false))
  {
    assert forall p :: p in parents ==> Selectable(t, p) && ValidKey(rules, p);
    AllChildrenMembers(rules, parents, k);
    if k in AllChildren(rules, parents) { ChildrenAreNew(rules, t, parents, k); }
  }

  /** Any subdivision of active cells, mixed or not, keeps the table rooted. */
  lemma SubdivideKeepsRooted(rules: seq<Rule>, t: Table, parents: seq<Key>)
    requires PositiveRules(rules) && |rules| >= 2 && Rooted(rules, t) && AllSelectable(t, parents)
    ensures Rooted(rules, Subdivided(rules, t, parents))
  {
    var after := Subdivided(rules, t, parents);
    if AllChildren(rules, parents) != [] {
      forall k | k in after ensures ValidKey(rules, k) && !(after[k].activate && after[k].deleted) {
        SplittingByRow(rules, t, parents, k);
      }
      forall k | ValidKey(rules, k) && k.level == 1 ensures k in after {
        SplittingByRow(rules, t, parents, k);
      }
      forall k | k in after && k.level > 1 ensures UnderSplit(rules, after, k) {
        SplittingHangsUnderSplit(rules, t, parents, k);
      }
    }
  }

  lemma SplittingKeepsFrontier(rules: seq<Rule>, t: Table, parents: seq<Key>)
    requires PositiveRules(rules) && |rules| >= 2 && Frontier(rules, t) && AllSelectable(t, parents)
    requires AllChildren(rules, parents) != [] && forall k :: k in parents ==> k.level < |rules|
    ensures Frontier(rules, Subdivided(rules, t, parents))
  {
    var after := Subdivided(rules, t, parents);
    SubdivideKeepsRooted(rules, t, parents);
    forall k | k in after && Split(after[k]) ensures Complete(rules, after, k) {
      SplittingIsComplete(rules, t, parents, k);
    }
  }

  lemma SplittingHangsUnderSplit(rules: seq<Rule>, t: Table, parents: seq<Key>, k: Key)
    requires PositiveRules(rules) && |rules| >= 2 && Rooted(rules, t) && AllSelectable(t, parents)
    requires AllChildren(rules, parents) != [] && ValidKey(rules, k) && k.level > 1
    requires k in Subdivided(rules, t, parents)
    ensures UnderSplit(rules, Subdivided(rules, t, parents), k)
  {
    SplittingByRow(rules, t, parents, k);
    SplittingByRow(rules, t, parents, ParentKey(rules, k));
    if k in t { assert UnderSplit(rules, t, k); }
  }

  lemma SplittingIsComplete(rules: seq<Rule>, t: Table, parents: seq<Key>, k: Key)
    requires PositiveRules(rules) && |rules| >= 2 && Frontier(rules, t) && AllSelectable(t, parents)
    requires AllChildren(rules, parents) != [] && forall p :: p in parents ==> p.level < |rules|
    requires var after := Subdivided(rules, t, parents); k in after && Split(after[k])
    ensures Complete(rules, Subdivided(rules, t, parents), k)
  {
    SplittingByRow(rules, t, parents, k);
    if k !in parents { assert k in t && Complete(rules, t, k); }
    forall c | ChildKey(rules, k, c) ensures c in Subdivided(rules, t, parents) {
      SplittingByRow(rules, t, parents, c);
    }
  }

  // ----- deleting, and whole runs

  lemma InitialFrontier(rules: seq<Rule>)
    requires PositiveRules(rules) && |rules| >= 2
    ensures Frontier(rules, Initial(rules))
  {
    forall k | ValidKey(rules, k) && k.level == 1 ensures k in Initial(rules) {
      assert k == Key(1, k.id);
    }
  }

  lemma DeleteKeepsRooted(rules: seq<Rule>, t: Table, cells: seq<Key>)
    requires PositiveRules(rules) && |rules| >= 2 && Rooted(rules, t) && AllSelectable(t, cells)
    ensures Rooted(rules, Deleted(t, cells))
  {
    var after := Deleted(t, cells);
    forall k | k in after && k.level > 1 ensures UnderSplit(rules, after, k) {
      assert UnderSplit(rules, t, k);
    }
  }

  lemma DeleteKeepsFrontier(rules: seq<Rule>, t: Table, cells: seq<Key>)
    requires PositiveRules(rules) && |rules| >= 2 && Frontier(rules, t) && AllSelectable(t, cells)
    ensures Frontier(rules, Deleted(t, cells))
  {
    var after := Deleted(t, cells);
    DeleteKeepsRooted(rules, t, cells);
    forall k | k in after && Split(after[k]) ensures Complete(rules, after, k) {
      assert Complete(rules, t, k);
    }
  }

  datatype Operation = SubdivideCells(keys: seq<Key>) | DeleteCells(keys: seq<Key>)

  function Apply(rules: seq<Rule>, t: Table, op: Operation): Table
    requires PositiveRules(rules)
  {
    match op
    case SubdivideCells(keys) => Subdivided(rules, t, Selected(t, keys))
    case DeleteCells(keys) => Deleted(t, Selected(t, keys))
  }

  function Run(rules: seq<Rule>, t: Table, ops: seq<Operation>): Table
    requires PositiveRules(rules)
    decreases |ops|
  {
    if ops == [] then t else Run(rules, Apply(rules, t, ops[0]), ops[1..])
  }

  /** Every subdivision of the run gets an unmixed selection. */
  ghost predicate UnmixedRun(rules: seq<Rule>, t: Table, ops: seq<Operation>)
    requires PositiveRules(rules)
    decreases |ops|
  {
    ops != [] ==>
      && (ops[0].SubdivideCells? ==> Unmixed(rules, Selected(t, ops[0].keys)))
      && UnmixedRun(rules, Apply(rules, t, ops[0]), ops[1..])
  }

  lemma ApplyKeepsRooted(rules: seq<Rule>, t: Table, op: Operation)
    requires PositiveRules(rules) && |rules| >= 2 && Rooted(rules, t)
    ensures Rooted(rules, Apply(rules, t, op))
  {
    var cells := Selected(t, op.keys);
    assert AllSelectable(t, cells);
    match op {
      case SubdivideCells(_) => SubdivideKeepsRooted(rules, t, cells);
      case DeleteCells(_) => DeleteKeepsRooted(rules, t, cells);
    }
  }

  lemma ApplyKeepsFrontier(rules: seq<Rule>, t: Table, op: Operation)
    requires PositiveRules(rules) && |rules| >= 2 && Frontier(rules, t)
    ensures Frontier(rules, Apply(rules, t, op)) <==> (op.SubdivideCells? ==> Unmixed(rules, Selected(t, op.keys)))
  {
    var cells := Selected(t, op.keys);
    assert AllSelectable(t, cells);
    match op {
      case SubdivideCells(_) => SubdivideKeepsFrontier(rules, t, cells);
      case DeleteCells(_) => DeleteKeepsFrontier(rules, t, cells);
    }
  }

  /** A row that is neither active nor selected stays as it is: an inactive cell is never touched again. */
  lemma InactiveStays(rules: seq<Rule>, t: Table, op: Operation, k: Key)
    requires PositiveRules(rules) && |rules| >= 2 && Rooted(rules, t) && k in t && !t[k].activate
    ensures k in Apply(rules, t, op) && Apply(rules, t, op)[k] == t[k]
  {
    var cells := Selected(t, op.keys);
    assert AllSelectable(t, cells);
    if op.SubdivideCells? && k in AllChildren(rules, cells) { ChildrenAreNew(rules, t, cells, k); }
  }

  lemma {:induction false} RunKeepsInactive(rules: seq<Rule>, t: Table, ops: seq<Operation>, k: Key)
    requires PositiveRules(rules) && |rules| >= 2 && Rooted(rules, t) && k in t && !t[k].activate
    ensures Rooted(rules, Run(rules, t, ops)) && k in Run(rules, t, ops) && Run(rules, t, ops)[k] == t[k]
    decreases |ops|
  {
    if ops != [] {
      ApplyKeepsRooted(rules, t, ops[0]);
      InactiveStays(rules, t, ops[0], k);
      RunKeepsInactive(rules, Apply(rules, t, ops[0]), ops[1..], k);
    }
  }

  /** A finest cell that was switched off although nothing can replace it. */
  ghost predicate Lost(rules: seq<Rule>, t: Table, k: Key) {
    k in t && k.level >= |rules| && Split(t[k])
  }

  lemma MixedLosesCell(rules: seq<Rule>, t: Table, parents: seq<Key>) returns (k: Key)
    requires PositiveRules(rules) && |rules| >= 2 && Rooted(rules, t) && AllSelectable(t, parents) && !Unmixed(rules, parents)
    ensures Lost(rules, Subdivided(rules, t, parents), k)
  {
    SomeChild(rules, parents);
    k :| k in parents && k.level >= |rules|;
    assert Selectable(t, k);
  }

  lemma {:induction false} MixedRunLoses(rules: seq<Rule>, t: Table, ops: seq<Operation>) returns (k: Key)
    requires PositiveRules(rules) && |rules| >= 2 && Rooted(rules, t) && !UnmixedRun(rules, t, ops)
    ensures Rooted(rules, Run(rules, t, ops)) && Lost(rules, Run(rules, t, ops), k)
    decreases |ops|
  {
    var after := Apply(rules, t, ops[0]);
    ApplyKeepsRooted(rules, t, ops[0]);
    if UnmixedRun(rules, after, ops[1..]) {
      assert AllSelectable(t, Selected(t, ops[0].keys));
      k := MixedLosesCell(rules, t, Selected(t, ops[0].keys));
      RunKeepsInactive(rules, after, ops[1..], k);
    } else {
      k := MixedRunLoses(rules, after, ops[1..]);
    }
  }

  lemma {:induction false} UnmixedRunKeeps(rules: seq<Rule>, t: Table, ops: seq<Operation>)
    requires PositiveRules(rules) && |rules| >= 2 && Frontier(rules, t) && UnmixedRun(rules, t, ops)
    ensures Frontier(rules, Run(rules, t, ops))
    decreases |ops|
  {
    if ops != [] {
      ApplyKeepsFrontier(rules, t, ops[0]);
      UnmixedRunKeeps(rules, Apply(rules, t, ops[0]), ops[1..]);
    }
  }

  /**
   * A run of subdivisions and deletions ends on a frontier exactly if no selection of it was
   * mixed: a frontier once broken is never restored.
   */
  lemma RunKeepsFrontier(rules: seq<Rule>, t: Table, ops: seq<Operation>)
    requires PositiveRules(rules) && |rules| >= 2 && Frontier(rules, t)
    ensures Frontier(rules, Run(rules, t, ops)) <==> UnmixedRun(rules, t, ops)
  {
    if UnmixedRun(rules, t, ops) {
      UnmixedRunKeeps(rules, t, ops);
    } else {
      var k := MixedRunLoses(rules, t, ops);
    }
  }

  /** A deleted cell stays deleted through any later run, mixed or not. */
  lemma DeletionIsFinal(rules: seq<Rule>, t: Table, ops: seq<Operation>, k: Key)
    requires PositiveRules(rules) && |rules| >= 2 && Rooted(rules, t)
    requires k in t && t[k].deleted
    ensures k in Run(rules, t, ops) && Run(rules, t, ops)[k].deleted
  {
    RunKeepsInactive(rules, t, ops, k);
  }

  // ----- the frontier covers every finest cell once

  /** The ancestor of `k` on `level`. */
  ghost function Ancestor(rules: seq<Rule>, k: Key, level: nat): (r: Key)
    requires PositiveRules(rules) && ValidKey(rules, k) && 1 <= level <= k.level
    ensures r.level == level && ValidKey(rules, r)
    decreases k.level
  {
    if level == k.level then k else
      ParentValid(rules, k);
      Ancestor(rules, ParentKey(rules, k), level)
  }

  lemma ParentValid(rules: seq<Rule>, k: Key)
    requires PositiveRules(rules) && ValidKey(rules, k) && k.level > 1
    ensures ValidKey(rules, ParentKey(rules, k))
  {
    ParentAndLocalDetermineChild(Width(rules, k.level - 1), Height(rules, k.level - 1), rules[k.level - 1], k.id);
  }

  lemma {:induction false} AncestorStep(rules: seq<Rule>, k: Key, level: nat)
    requires PositiveRules(rules) && ValidKey(rules, k) && 1 <= level < k.level
    ensures ParentKey(rules, Ancestor(rules, k, level + 1)) == Ancestor(rules, k, level)
    decreases k.level
  {
    ParentValid(rules, k);
    if level + 1 < k.level { AncestorStep(rules, ParentKey(rules, k), level); }
  }

  /** The ancestor of `k` on `level` is in the table and is a leaf, active or deleted. */
  ghost predicate LeafAt(rules: seq<Rule>, t: Table, k: Key, level: nat)
    requires PositiveRules(rules) && ValidKey(rules, k)
  {
    && 1 <= level <= k.level
    && Ancestor(rules, k, level) in t && !Split(t[Ancestor(rules, k, level)])
  }

  lemma {:induction false} FindLeaf(rules: seq<Rule>, t: Table, k: Key, from: nat) returns (level: nat)
    requires PositiveRules(rules) && |rules| >= 2 && Frontier(rules, t)
    requires ValidKey(rules, k) && k.level == |rules|
    requires 1 <= from <= k.level && Ancestor(rules, k, from) in t
    ensures LeafAt(rules, t, k, level)
    decreases k.level - from
  {
    var a := Ancestor(rules, k, from);
    if !Split(t[a]) {
      level := from;
    } else {
      AncestorStep(rules, k, from);
      assert ChildKey(rules, a, Ancestor(rules, k, from + 1));
      level := FindLeaf(rules, t, k, from + 1);
    }
  }

  /** Below a leaf nothing is in the table. */
  lemma {:induction false} NothingBelowLeaf(rules: seq<Rule>, t: Table, k: Key, leaf: nat, level: nat)
    requires PositiveRules(rules) && |rules| >= 2 && Rooted(rules, t) && ValidKey(rules, k)
    requires LeafAt(rules, t, k, leaf) && leaf < level <= k.level
    ensures Ancestor(rules, k, level) !in t
    decreases level
  {
    AncestorStep(rules, k, level - 1);
    var a := Ancestor(rules, k, level);
    assert a in t ==> UnderSplit(rules, t, a);
    if level - 1 > leaf { NothingBelowLeaf(rules, t, k, leaf, level - 1); }
  }

  /**
   * The active and deleted cells partition the domain: every finest cell has exactly one
   * ancestor-or-self that is an active or deleted table cell.
   */
  lemma FrontierPartitionsDomain(rules: seq<Rule>, t: Table, k: Key)
    requires PositiveRules(rules) && |rules| >= 2 && Frontier(rules, t)
    requires ValidKey(rules, k) && k.level == |rules|
    ensures exists level: nat :: LeafAt(rules, t, k, level)
    ensures forall a: nat, b: nat :: LeafAt(rules, t, k, a) && LeafAt(rules, t, k, b) ==> a == b
  {
    assert Ancestor(rules, k, 1) in t;
    var level := FindLeaf(rules, t, k, 1);
    forall a: nat, b: nat | LeafAt(rules, t, k, a) && LeafAt(rules, t, k, b) ensures a == b {
      if a < b { NothingBelowLeaf(rules, t, k, a, b); }
      if b < a { NothingBelowLeaf(rules, t, k, b, a); }
    }
  }

  /** Above a cell of a rooted table everything is in the table and split. */
  lemma {:induction false} AncestorsAreSplit(rules: seq<Rule>, t: Table, k: Key, level: nat)
    requires PositiveRules(rules) && |rules| >= 2 && Rooted(rules, t) && k in t && 1 <= level < k.level
    ensures Ancestor(rules, k, level) in t && Split(t[Ancestor(rules, k, level)])
    decreases k.level
  {
    var p := ParentKey(rules, k);
    assert UnderSplit(rules, t, k);
    if level < p.level { AncestorsAreSplit(rules, t, p, level); }
  }

  /** A lost cell has no active or deleted ancestor-or-self: its part of the domain belongs to nobody. */
  lemma LostIsUncovered(rules: seq<Rule>, t: Table, k: Key)
    requires PositiveRules(rules) && |rules| >= 2 && Rooted(rules, t) && Lost(rules, t, k)
    ensures k.level == |rules| && forall level: nat :: !LeafAt(rules, t, k, level)
  {
    forall level: nat | 1 <= level < k.level ensures !LeafAt(rules, t, k, level) {
      AncestorsAreSplit(rules, t, k, level);
    }
  }

  /** Every finest cell is covered by an active or deleted cell. */
  ghost predicate Covered(rules: seq<Rule>, t: Table)
    requires PositiveRules(rules)
  {
    forall k :: ValidKey(rules, k) && k.level == |rules| ==> exists level: nat :: LeafAt(rules, t, k, level)
  }

  /** From a frontier, a run keeps the whole domain covered exactly if no selection of it was mixed. */
  lemma RunCoversDomain(rules: seq<Rule>, t: Table, ops: seq<Operation>)
    requires PositiveRules(rules) && |rules| >= 2 && Frontier(rules, t)
    ensures Covered(rules, Run(rules, t, ops)) <==> UnmixedRun(rules, t, ops)
  {
    var after := Run(rules, t, ops);
    RunKeepsFrontier(rules, t, ops);
    if UnmixedRun(rules, t, ops) {
      forall k | ValidKey(rules, k) && k.level == |rules| ensures exists level: nat :: LeafAt(rules, after, k, level) {
        FrontierPartitionsDomain(rules, after, k);
      }
    } else {
      var k := MixedRunLoses(rules, t, ops);
      LostIsUncovered(rules, after, k);
    }
  }

  // ----- reachable mixed selections

  lemma SelectPair(t: Table, a: Key, b: Key)
    requires Selectable(t, a) && Selectable(t, b) && a != b
    ensures Selected(t, [a]) == [a] && Selected(t, [a, b]) == [a, b]
  {
    assert [a][..0] == [] && [a, b][..1] == [a];
    assert Selected(t, []) == [];
  }

  lemma {:induction false} RunTwo(rules: seq<Rule>, t: Table, a: Operation, b: Operation)
    requires PositiveRules(rules)
    ensures Run(rules, t, [a, b]) == Apply(rules, Apply(rules, t, a), b)
  {
    assert [a, b][1..] == [b] && [b][1..] == [];
    var u := Apply(rules, t, a);
    assert Run(rules, u, [b]) == Run(rules, Apply(rules, u, b), []);
  }

  /** A child of a level-1 cell becomes an active cell when that cell is split. */
  lemma {:induction false} SplitOnce(rules: seq<Rule>, a: Key, c: Key)
    requires PositiveRules(rules) && |rules| >= 2 && ValidKey(rules, a) && a.level == 1 && ChildKey(rules, a, c)
    ensures Selectable(Run(rules, Initial(rules), [SubdivideCells([a])]), c)
  {
    var start, ops := Initial(rules), [SubdivideCells([a])];
    InitialFrontier(rules);
    assert Selectable(start, a);
    assert [a][..0] == [] && Selected(start, []) == [];
    assert Selected(start, [a]) == [a];
    assert AllSelectable(start, [a]) && a in [a];
    SomeChild(rules, [a]);
    SplittingByRow(rules, start, [a], c);
    assert c !in start;
    assert ops[1..] == [];
    assert Run(rules, start, ops) == Run(rules, Apply(rules, start, ops[0]), []) == Subdivided(rules, start, [a]);
  }

  /**
   * On every two-rule grid the flaw is two calls away: split cell `a`, then select a child of
   * `a`, which is already finest, together with another level-1 cell.
   */
  lemma {:induction false} MixedRunLosesCell(rules: seq<Rule>, a: Key, b: Key, c: Key)
    requires PositiveRules(rules) && |rules| == 2
    requires ValidKey(rules, a) && ValidKey(rules, b) && a.level == b.level == 1 && a != b
    requires ChildKey(rules, a, c)
    ensures var t := Run(rules, Initial(rules), [SubdivideCells([a]), SubdivideCells([c, b])]);
            && c in t && Split(t[c]) && !Frontier(rules, t)
            && forall level: nat :: !LeafAt(rules, t, c, level)
  {
    var start := Initial(rules);
    InitialFrontier(rules);
    assert Selectable(start, a) && Selectable(start, b);
    SelectPair(start, a, b);
    assert AllSelectable(start, [a]);
    SomeChild(rules, [a]);
    SplittingKeepsFrontier(rules, start, [a]);
    SplittingByRow(rules, start, [a], b);
    SplittingByRow(rules, start, [a], c);
    var middle := Subdivided(rules, start, [a]);
    SelectPair(middle, c, b);
    assert AllSelectable(middle, [c, b]);
    assert forall k :: k in [c, b] ==> ValidKey(rules, k);
    assert b in [c, b] && c in [c, b];
    SomeChild(rules, [c, b]);
    MixedBreaksFrontier(rules, middle, [c, b], c);
    RunTwo(rules, start, SubdivideCells([a]), SubdivideCells([c, b]));
    var after := Subdivided(rules, middle, [c, b]);
    SubdivideKeepsRooted(rules, middle, [c, b]);
    SplittingByRow(rules, middle, [c, b], c);
    LostIsUncovered(rules, after, c);
  }

  /** A concrete grid on which that happens. */
  lemma {:induction false} MixedRunExample(rules: seq<Rule>)
    requires rules == [Rule(2, 1), Rule(1, 1)]
    ensures PositiveRules(rules)
    ensures var t := Run(rules, Initial(rules), [SubdivideCells([Key(1, 0)]), SubdivideCells([Key(2, 0), Key(1, 1)])]);
            ValidKey(rules, Key(2, 0)) && !Frontier(rules, t) && forall level: nat :: !LeafAt(rules, t, Key(2, 0), level)
  {
    ExampleKeys(rules);
    MixedRunLosesCell(rules, Key(1, 0), Key(1, 1), Key(2, 0));
  }

  lemma {:induction false} ExampleKeys(rules: seq<Rule>)
    requires rules == [Rule(2, 1), Rule(1, 1)]
    ensures PositiveRules(rules)
    ensures ValidKey(rules, Key(1, 0)) && ValidKey(rules, Key(1, 1)) && ValidKey(rules, Key(2, 0))
    ensures ChildKey(rules, Key(1, 0), Key(2, 0))
  {
    assert Width(rules, 0) == 1 && Height(rules, 0) == 1;
    assert Width(rules, 1) == 2 && Height(rules, 1) == 1;
    assert Width(rules, 2) == 2 && Height(rules, 2) == 1;
  }
}
