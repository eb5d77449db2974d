/** The mutable grid resource: level table, child lookup, and the two operations that change the cell table. */
module NestedGrids {
  import opened Bytes
  import opened GridIndex
  import opened GridBoxes
  import opened GridFrontier

  datatype LevelInfo = LevelInfo(width: int, height: int)

  /** Pairs two argument lists; the longer one is cut off. */
  function Zip(levels: seq<int>, ids: seq<int>): (r: seq<Key>)
    ensures |r| == if |levels| < |ids| then |levels| else |ids|
    ensures forall i :: 0 <= i < |r| ==> r[i] == Key(levels[i], ids[i])
  {
    seq(if |levels| < |ids| then |levels| else |ids|,
        i requires 0 <= i < |levels| && i < |ids| => Key(levels[i], ids[i]))
  }

  class NestedGrid {
    const bounds: Box
    const rules: seq<Rule>
    var levelInfo: seq<LevelInfo>
    var grids: Table

    /** The level table lists the cumulative columns and rows of every level but the deepest. */
    ghost predicate Valid()
      reads this
    {
      && PositiveRules(rules) && |rules| >= 2
      && |levelInfo| == |rules|
      && forall i :: 0 <= i < |rules| ==> levelInfo[i] == LevelInfo(Width(rules, i), Height(rules, i))
    }

    /** Construction reads the level-1 entry of the level table, so it needs at least two rules. */
    constructor (bounds: Box, subdivideRules: seq<Rule>)
      requires PositiveRules(subdivideRules) && |subdivideRules| >= 2
      ensures Valid() && this.bounds == bounds && rules == subdivideRules
      ensures grids == Initial(rules) && Frontier(rules, grids)
    {
      this.bounds, rules := bounds, subdivideRules;
      var info := [LevelInfo(1, 1)];
      for level := 0 to |subdivideRules| - 1
        invariant |info| == level + 1
        invariant forall i :: 0 <= i <= level ==>
                    info[i] == LevelInfo(Width(subdivideRules, i), Height(subdivideRules, i))
      {
        var previous, rule := info[level], subdivideRules[level];
        info := info + [LevelInfo(previous.width * rule.w, previous.height * rule.h)];
      }
      levelInfo := info;
      var count := info[1].width * info[1].height;
      assert count == Height(subdivideRules, 1) * Width(subdivideRules, 1);
      grids := map id | 0 <= id < count :: Key(1, id) := Cell(true, false);
      InitialFrontier(subdivideRules);
    }

    /** The columns and rows of a level, if the table has an entry for it. */
    function Level(level: int): (r: Option<LevelInfo>)
      requires Valid()
      reads this
      ensures r.Some? <==> -|rules| <= level < |rules|
      ensures 0 <= level < |rules| ==> r == Some(LevelInfo(Width(rules, level), Height(rules, level)))
    {
      match Index(level, |levelInfo|)
      case None => None
      case Some(l) => Some(levelInfo[l])
    }

    /** Local ids of cells that share a level, or nothing where the level has no entry. */
    function GetLocalIds(level: int, ids: seq<int>): (r: Option<seq<int>>)
      requires Valid()
      reads this
      ensures r.Some? ==> |r.value| == |ids|
      ensures level == |rules| ==> r.None?
      ensures 1 <= level < |rules| ==>
                r.Some? && forall i :: 0 <= i < |ids| ==> r.value[i] == LocalId(Width(rules, level), rules[level - 1], ids[i])
    {
      if level == 0 then Some(ids) else
        match Level(level)
        case None => None
        case Some(info) =>
          match Index(level - 1, |rules|)
          case None => None
          case Some(j) =>
            var total, rule := info.width, rules[j];
            assert total > 0;
            Some(seq(|ids|, i requires 0 <= i < |ids| && total > 0 && rule.w > 0 && rule.h > 0 => LocalId(total, rule, ids[i])))
    }

    /** The containing cell of `id` as the code computes it; nothing where the level has no entry. */
    method GetParentGlobalId(level: int, id: int) returns (r: Option<int>)
      requires Valid()
      ensures r == LookupParent(rules, level, id)
      ensures 1 <= level <= |rules| && InLevel(rules, level, id) ==>
                var W, rule := Width(rules, level - 1), rules[level - 1];
                r == Some(ParentId(W, rule, id)) <==> level < |rules| && (ParentId(W, rule, id) / W == 0 || W == rule.w)
    {
      if 1 <= level <= |rules| && InLevel(rules, level, id) { LookupParentExact(rules, level, id); }
      var info := Level(level);
      if info.None? { return None; }
      var rule := Index(level - 1, |rules|);
      if rule.None? { return None; }
      var total, subWidth, subHeight := info.value.width, rules[rule.value].w, rules[rule.value].h;
      var u, v := id % total, id / total;
      r := Some(v / subHeight * subWidth + u / subWidth);
    }

    /** Parent keys of several cells; none for a cell of level 1, and no answer at all if a lookup fails. */
    method GetParentKeys(levels: seq<int>, ids: seq<int>) returns (r: Option<seq<Option<Key>>>)
      requires Valid()
      ensures r.Some? <==>
              forall k :: k in Zip(levels, ids) ==> k.level == 1 || LookupParent(rules, k.level, k.id).Some?
      ensures r.Some? ==> |r.value| == |Zip(levels, ids)|
      ensures r.Some? ==> forall i :: 0 <= i < |r.value| ==>
                var k := Zip(levels, ids)[i];
                if k.level == 1 then r.value[i] == None
                else r.value[i].Some? && r.value[i].value.level == k.level - 1
                     && LookupParent(rules, k.level, k.id) == Some(r.value[i].value.id)
    {
      var cells, keys: seq<Option<Key>> := Zip(levels, ids), [];
      for n := 0 to |cells|
        invariant |keys| == n
        invariant forall i :: 0 <= i < n ==>
                    if cells[i].level == 1 then keys[i] == None
                    else keys[i].Some? && keys[i].value.level == cells[i].level - 1
                         && LookupParent(rules, cells[i].level, cells[i].id) == Some(keys[i].value.id)
      {
        var k := cells[n];
        if k.level == 1 {
          keys := keys + [None];
        } else {
          var parent := GetParentGlobalId(k.level, k.id);
          if parent.None? {
            assert k in cells;
            return None;
          }
          keys := keys + [Some(Key(k.level - 1, parent.value))];
        }
      }
      r := Some(keys);
    }

    /** Boxes of cells that share a level, or nothing where the level has no entry. */
    method GetCoordinates(level: int, ids: seq<int>) returns (r: Option<seq<Box>>)
      requires Valid()
      ensures r.Some? <==> Level(level).Some?
      ensures r.Some? ==> |r.value| == |ids|
      ensures r.Some? ==> forall i :: 0 <= i < |ids| ==> LookupCoordinates(bounds, rules, level, ids[i]) == Some(r.value[i])
    {
      var info := Level(level);
      if info.None? { return None; }
      var width, height := info.value.width, info.value.height;
      var boxes := [];
      for n := 0 to |ids|
        invariant |boxes| == n
        invariant forall i :: 0 <= i < n ==> boxes[i] == Coordinates(bounds, width, height, ids[i])
      {
        var x, y := ids[n] % width, ids[n] / width;
        boxes := boxes + [Box(Edge(bounds.minX, bounds.maxX, x, width), Edge(bounds.minY, bounds.maxY, y, height),
                              Edge(bounds.minX, bounds.maxX, x + 1, width), Edge(bounds.minY, bounds.maxY, y + 1, height))];
      }
      r := Some(boxes);
    }

    /** The ids of a cell's children in local-id order, or nothing outside the level table. */
    method GetGridChildrenGlobalIds(level: int, id: int) returns (r: Option<seq<int>>)
      requires Valid()
      ensures r.None? <==> level < 0 || level >= |rules|
      ensures r.Some? ==> |r.value| == |Children(rules, Key(level, id))|
      ensures r.Some? ==> forall i :: 0 <= i < |r.value| ==> Key(level + 1, r.value[i]) == Children(rules, Key(level, id))[i]
    {
      if level < 0 || level >= |levelInfo| { return None; }
      var width, rule := levelInfo[level].width, rules[level];
      var u, v := id % width, id / width;
      MulPositive(rule.w, rule.h);
      var count := rule.w * rule.h;
      var ids := seq(count, _ => 0);
      for local := 0 to count
        invariant |ids| == count
        invariant forall i :: 0 <= i < local ==> ids[i] == ChildId(width, rule, id, i)
      {
        var localU, localV := local % rule.w, local / rule.w;
        ids := ids[local := (v * rule.h + localV) * (width * rule.w) + (u * rule.w + localU)];
      }
      r := Some(ids);
    }

    /** The requested cells that are in the table, active and not deleted, each once, in request order. */
    method SelectCells(levels: seq<int>, ids: seq<int>) returns (cells: seq<Key>)
      ensures cells == Selected(grids, Zip(levels, ids))
    {
      var keys := Zip(levels, ids);
      cells := [];
      for i := 0 to |keys|
        invariant cells == Selected(grids, keys[..i])
      {
        assert keys[..i + 1][..i] == keys[..i];
        var k := keys[i];
        if k in grids && grids[k].activate && !grids[k].deleted && k !in cells {
          cells := cells + [k];
        }
      }
      assert keys[..|keys|] == keys;
    }

    /** The keys of all children of `parents`; a cell outside the level table contributes none. */
    method CollectChildren(parents: seq<Key>) returns (childKeys: seq<Key>)
      requires Valid()
      ensures childKeys == AllChildren(rules, parents)
    {
      childKeys := [];
      for i := 0 to |parents|
        invariant childKeys == AllChildren(rules, parents[..i])
      {
        assert parents[..i + 1][..i] == parents[..i];
        var level := parents[i].level;
        var children := GetGridChildrenGlobalIds(level, parents[i].id);
        if children.Some? {
          var keys := seq(|children.value|, j requires 0 <= j < |children.value| => Key(level + 1, children.value[j]));
          assert keys == Children(rules, parents[i]);
          childKeys := childKeys + keys;
        }
      }
      assert parents[..|parents|] == parents;
    }

    /** Revives the children that already have a row, adds the others, and switches the parents off. */
    method ReplaceByChildren(parents: seq<Key>, childKeys: seq<Key>)
      requires forall k :: k in parents ==> k in grids
      modifies this`grids
      ensures grids.Keys == old(grids).Keys + (set c | c in childKeys)
      ensures forall k :: k in grids ==>
                grids[k] == if k in parents then Cell(false, k !in childKeys && old(grids)[k].deleted)
                            else if k in childKeys then Cell(true, false)
                            else old(grids)[k]
    {
      var existing := set c | c in childKeys && c in grids;
      if existing != {} {
        grids := map k | k in grids :: if k in existing then Cell(true, false) else grids[k];
        var added := map c | c in childKeys && c !in existing :: Cell(true, false);
        grids := grids + added;
      } else {
        grids := grids + (map c | c in childKeys :: Cell(true, false));
      }
      grids := map k | k in grids :: if k in parents then grids[k].(activate := false) else grids[k];
    }

    /** Replaces active cells by their children and returns the children's keys. */
    method SubdivideGrids(levels: seq<int>, ids: seq<int>) returns (childKeys: seq<Key>)
      requires Valid()
      modifies this`grids
      ensures Valid()
      ensures grids == Apply(rules, old(grids), SubdivideCells(Zip(levels, ids)))
      ensures childKeys == AllChildren(rules, Selected(old(grids), Zip(levels, ids)))
      ensures old(Frontier(rules, grids)) ==>
                (Frontier(rules, grids) <==> Unmixed(rules, Selected(old(grids), Zip(levels, ids))))
    {
      var parents := SelectCells(levels, ids);
      OperationOnFrontier(rules, grids, SubdivideCells(Zip(levels, ids)));
      assert AllSelectable(grids, parents);
      childKeys := CollectChildren(parents);
      if childKeys != [] {
        ReplaceByChildren(parents, childKeys);
      }
      assert grids == Subdivided(rules, old(grids), parents);
    }

    /** Marks active cells as deleted. */
    method DeleteGrids(levels: seq<int>, ids: seq<int>)
      requires Valid()
      modifies this`grids
      ensures Valid()
      ensures grids == Apply(rules, old(grids), DeleteCells(Zip(levels, ids)))
      ensures old(Frontier(rules, grids)) ==> Frontier(rules, grids)
    {
      var cells := SelectCells(levels, ids);
      OperationOnFrontier(rules, grids, DeleteCells(Zip(levels, ids)));
      if cells == [] {
        assert Deleted(grids, cells) == grids;
        return;
      }
      MarkDeleted(cells);
    }

    method MarkDeleted(cells: seq<Key>)
      modifies this`grids
      ensures grids == Deleted(old(grids), cells)
    {
      grids := map k | k in grids :: if k in cells then grids[k].(deleted := true) else grids[k];
      grids := map k | k in grids :: if k in cells then grids[k].(activate := false) else grids[k];
    }
  }

  lemma OperationOnFrontier(rules: seq<Rule>, t: Table, op: Operation)
    requires PositiveRules(rules) && |rules| >= 2
    ensures Frontier(rules, t) ==>
              (Frontier(rules, Apply(rules, t, op)) <==> (op.SubdivideCells? ==> Unmixed(rules, Selected(t, op.keys))))
  {
    if Frontier(rules, t) { ApplyKeepsFrontier(rules, t, op); }
  }

  /**
   * Local ids recover the position of each child in the list its parent's children come in;
   * children on the deepest level have none.
   */
  lemma {:induction false} LocalIdsOfChildren(grid: NestedGrid, level: int, id: int, ids: seq<int>, i: nat)
    requires grid.Valid() && 0 <= level < |grid.rules| && InLevel(grid.rules, level, id)
    requires |ids| == |Children(grid.rules, Key(level, id))| && i < |ids|
    requires Key(level + 1, ids[i]) == Children(grid.rules, Key(level, id))[i]
    ensures var r := grid.GetLocalIds(level + 1, ids);
            if level + 1 < |grid.rules| then r.Some? && |r.value| == |ids| && r.value[i] == i else r.None?
  {
    var r := grid.GetLocalIds(level + 1, ids);
    LocalIdOfChild(grid.rules, level, id, i);
    if level + 1 < |grid.rules| {
      assert r.value[i] == LocalId(Width(grid.rules, level + 1), grid.rules[level], ids[i]);
    }
  }

  lemma LocalIdOfChild(rules: seq<Rule>, level: nat, id: int, i: nat)
    requires PositiveRules(rules) && level < |rules| && InLevel(rules, level, id) && i < |Children(rules, Key(level, id))|
    ensures LocalId(Width(rules, level + 1), rules[level], Children(rules, Key(level, id))[i].id) == i
  {
    var rule := rules[level];
    assert rule.w * rule.h == rule.h * rule.w;
    ChildDeterminesParentAndLocal(Width(rules, level), Height(rules, level), rule, id, i);
  }

  /** Once a cell on the last level of the table is split, its children are active cells that no lookup answers for. */
  lemma {:induction false} DeepestCellsCannotBeRead(grid: NestedGrid, a: Key, c: Key)
    requires grid.Valid() && |grid.rules| == 2 && ValidKey(grid.rules, a) && a.level == 1 && ChildKey(grid.rules, a, c)
    ensures Selectable(Run(grid.rules, Initial(grid.rules), [SubdivideCells([a])]), c)
    ensures LookupParent(grid.rules, c.level, c.id).None? && LookupCoordinates(grid.bounds, grid.rules, c.level, c.id).None?
    ensures grid.GetLocalIds(c.level, [c.id]).None?
  {
    SplitOnce(grid.rules, a, c);
    assert c.level == 2;
  }
}
