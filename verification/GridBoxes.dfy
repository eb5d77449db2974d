/** Coordinate boxes of grid cells and the parent lookup, on top of the cell numbering. */
module GridBoxes {
  import opened Bytes
  import opened GridIndex

  datatype Box = Box(minX: real, minY: real, maxX: real, maxY: real)

  /** Boxes are half open, so neighbours share an edge without sharing a point. */
  ghost predicate Contains(b: Box, px: real, py: real) {
    b.minX <= px < b.maxX && b.minY <= py < b.maxY
  }

  /** Position of grid line `k` when `[lo, hi]` is cut into `n` equal parts. */
  function Edge(lo: real, hi: real, k: int, n: int): real
    requires n > 0
  {
    lo + (hi - lo) * (k as real) / (n as real)
  }

  /** Coordinates of cell `id` on a level of `width` by `height` cells. */
  function Coordinates(bounds: Box, width: int, height: int, id: int): Box
    requires width > 0 && height > 0
  {
    Box(Edge(bounds.minX, bounds.maxX, id % width, width),
        Edge(bounds.minY, bounds.maxY, id / width, height),
        Edge(bounds.minX, bounds.maxX, id % width + 1, width),
        Edge(bounds.minY, bounds.maxY, id / width + 1, height))
  }

  // ----- one axis

  lemma EdgeMonotone(lo: real, hi: real, a: int, b: int, n: int)
    requires n > 0 && lo < hi
    ensures a < b ==> Edge(lo, hi, a, n) < Edge(lo, hi, b, n)
    ensures a <= b ==> Edge(lo, hi, a, n) <= Edge(lo, hi, b, n)
  {
    var step := (hi - lo) / (n as real);
    assert step > 0.0;
    assert Edge(lo, hi, b, n) - Edge(lo, hi, a, n) == step * ((b - a) as real) by {
      EdgeAsStep(lo, hi, a, n);
      EdgeAsStep(lo, hi, b, n);
    }
    if a < b { RealMulPositive(step, (b - a) as real); }
  }

  lemma EdgeAsStep(lo: real, hi: real, k: int, n: int)
    requires n > 0
    ensures Edge(lo, hi, k, n) == lo + (hi - lo) / (n as real) * (k as real)
  {
    var d, x, m := hi - lo, k as real, n as real;
    assert d * x / m == d / m * x;
  }

  lemma RealMulPositive(a: real, b: real)
    requires a > 0.0 && b > 0.0
    ensures a * b > 0.0
  {}

  /** Refining an axis by `w` keeps the coarse grid lines where they were. */
  lemma EdgeRefines(lo: real, hi: real, k: int, n: int, w: int)
    requires n > 0 && w > 0
    ensures n * w > 0 && Edge(lo, hi, k * w, n * w) == Edge(lo, hi, k, n)
  {
    MulPositive(n, w);
    var d, x, m, f := hi - lo, k as real, n as real, w as real;
    assert (k * w) as real == x * f && (n * w) as real == m * f;
    assert d * (x * f) / (m * f) == d * x / m;
  }

  /** Grid lines `a..b` cut their span into cells: each point falls between two neighbouring lines. */
  lemma {:induction false} EdgeCell(lo: real, hi: real, n: int, a: int, b: int, p: real) returns (i: int)
    requires n > 0 && lo < hi && a < b && Edge(lo, hi, a, n) <= p < Edge(lo, hi, b, n)
    ensures a <= i < b && Edge(lo, hi, i, n) <= p < Edge(lo, hi, i + 1, n)
    decreases b - a
  {
    if p < Edge(lo, hi, a + 1, n) {
      i := a;
    } else {
      i := EdgeCell(lo, hi, n, a + 1, b, p);
    }
  }

  /** One axis of a split cell: the `w` parts of coarse cell `u` tile it exactly. */
  lemma AxisTiles(lo: real, hi: real, n: int, w: int, u: int, p: real)
    requires n > 0 && w > 0 && lo < hi
    ensures n * w > 0
    ensures Edge(lo, hi, u, n) <= p < Edge(lo, hi, u + 1, n) <==>
            exists i :: InPart(lo, hi, n * w, u * w, w, i, p)
  {
    MulPositive(n, w);
    var m, base := n * w, u * w;
    EdgeRefines(lo, hi, u, n, w);
    EdgeRefines(lo, hi, u + 1, n, w);
    assert (u + 1) * w == base + w;
    if Edge(lo, hi, u, n) <= p < Edge(lo, hi, u + 1, n) {
      var i := EdgeCell(lo, hi, m, base, base + w, p);
      assert InPart(lo, hi, m, base, w, i - base, p);
    }
    forall i | InPart(lo, hi, m, base, w, i, p)
      ensures Edge(lo, hi, u, n) <= p < Edge(lo, hi, u + 1, n)
    {
      EdgeMonotone(lo, hi, base, base + i, m);
      EdgeMonotone(lo, hi, base + i + 1, base + w, m);
    }
  }

  /** A point is in at most one part of an axis. */
  lemma SamePart(lo: real, hi: real, m: int, base: int, w: int, i: int, j: int, p: real)
    requires m > 0 && lo < hi
    requires InPart(lo, hi, m, base, w, i, p) && InPart(lo, hi, m, base, w, j, p)
    ensures i == j
  {
    EdgeMonotone(lo, hi, base + i + 1, base + j, m);
    EdgeMonotone(lo, hi, base + j + 1, base + i, m);
  }

  lemma SameDigits(i: int, j: int, w: int)
    requires w > 0 && i / w == j / w && i % w == j % w
    ensures i == j
  {
    assert i == i / w * w + i % w && j == j / w * w + j % w;
  }

  /** Point `p` lies in part `i` of the `w` parts that start at fine line `base`. */
  ghost predicate InPart(lo: real, hi: real, m: int, base: int, w: int, i: int, p: real)
    requires m > 0
  {
    0 <= i < w && Edge(lo, hi, base + i, m) <= p < Edge(lo, hi, base + i + 1, m)
  }

  // ----- both axes

  /** `local` is a child of `id` whose box holds the point. */
  ghost predicate HoldsPoint(bounds: Box, rules: seq<Rule>, level: nat, id: int, local: int, px: real, py: real)
    requires PositiveRules(rules) && level < |rules|
  {
    && 0 <= local < rules[level].h * rules[level].w
    && Contains(Coordinates(bounds, Width(rules, level + 1), Height(rules, level + 1),
                            ChildId(Width(rules, level), rules[level], id, local)), px, py)
  }

  /** The digits of a child id are the digits of its parent extended by the digits of its local id. */
  lemma ChildDigits(width: int, rule: Rule, id: int, local: int)
    requires width > 0 && rule.w > 0 && rule.h > 0
    requires 0 <= local < rule.h * rule.w
    ensures var c := ChildId(width, rule, id, local);
            && width * rule.w > 0
            && c % (width * rule.w) == id % width * rule.w + local % rule.w
            && c / (width * rule.w) == id / width * rule.h + local / rule.w
  {
    MulPositive(width, rule.w);
    QuotientBelow(local, rule.h, rule.w);
    DigitsBelow(id % width, local % rule.w, width, rule.w);
    DivModOf(id / width * rule.h + local / rule.w, id % width * rule.w + local % rule.w, width * rule.w);
  }

  /** A point is in child `local` exactly when it is in that child's column part and row part. */
  lemma HoldsPointByAxis(bounds: Box, rules: seq<Rule>, level: nat, id: int, local: int, px: real, py: real)
    requires PositiveRules(rules) && level < |rules|
    requires 0 <= local < rules[level].h * rules[level].w
    ensures var W, H, rule := Width(rules, level), Height(rules, level), rules[level];
            HoldsPoint(bounds, rules, level, id, local, px, py) <==>
            && InPart(bounds.minX, bounds.maxX, Width(rules, level + 1), id % W * rule.w, rule.w, local % rule.w, px)
            && InPart(bounds.minY, bounds.maxY, Height(rules, level + 1), id / W * rule.h, rule.h, local / rule.w, py)
  {
    var W, rule := Width(rules, level), rules[level];
    ChildDigits(W, rule, id, local);
    QuotientBelow(local, rule.h, rule.w);
  }

  /** Every point of a cell is in one of its children. */
  lemma PointHasChild(bounds: Box, rules: seq<Rule>, level: nat, id: int, px: real, py: real) returns (local: int)
    requires PositiveRules(rules) && level < |rules|
    requires bounds.minX < bounds.maxX && bounds.minY < bounds.maxY
    requires Contains(Coordinates(bounds, Width(rules, level), Height(rules, level), id), px, py)
    ensures HoldsPoint(bounds, rules, level, id, local, px, py)
  {
    var W, H, rule := Width(rules, level), Height(rules, level), rules[level];
    AxisTiles(bounds.minX, bounds.maxX, W, rule.w, id % W, px);
    AxisTiles(bounds.minY, bounds.maxY, H, rule.h, id / W, py);
    var i :| InPart(bounds.minX, bounds.maxX, W * rule.w, id % W * rule.w, rule.w, i, px);
    var j :| InPart(bounds.minY, bounds.maxY, H * rule.h, id / W * rule.h, rule.h, j, py);
    local := j * rule.w + i;
    DigitsBelow(j, i, rule.h, rule.w);
    DivModOf(j, i, rule.w);
    HoldsPointByAxis(bounds, rules, level, id, local, px, py);
  }

  /** A child's box stays inside its parent's. */
  lemma ChildPointInParent(bounds: Box, rules: seq<Rule>, level: nat, id: int, local: int, px: real, py: real)
    requires PositiveRules(rules) && level < |rules|
    requires bounds.minX < bounds.maxX && bounds.minY < bounds.maxY
    requires HoldsPoint(bounds, rules, level, id, local, px, py)
    ensures Contains(Coordinates(bounds, Width(rules, level), Height(rules, level), id), px, py)
  {
    var W, H, rule := Width(rules, level), Height(rules, level), rules[level];
    HoldsPointByAxis(bounds, rules, level, id, local, px, py);
    AxisTiles(bounds.minX, bounds.maxX, W, rule.w, id % W, px);
    AxisTiles(bounds.minY, bounds.maxY, H, rule.h, id / W, py);
  }

  /** Two children never share a point. */
  lemma ChildrenDisjoint(bounds: Box, rules: seq<Rule>, level: nat, id: int, i: int, j: int, px: real, py: real)
    requires PositiveRules(rules) && level < |rules|
    requires bounds.minX < bounds.maxX && bounds.minY < bounds.maxY
    requires HoldsPoint(bounds, rules, level, id, i, px, py) && HoldsPoint(bounds, rules, level, id, j, px, py)
    ensures i == j
  {
    var W, H, rule := Width(rules, level), Height(rules, level), rules[level];
    HoldsPointByAxis(bounds, rules, level, id, i, px, py);
    HoldsPointByAxis(bounds, rules, level, id, j, px, py);
    SamePart(bounds.minX, bounds.maxX, Width(rules, level + 1), id % W * rule.w, rule.w, i % rule.w, j % rule.w, px);
    SamePart(bounds.minY, bounds.maxY, Height(rules, level + 1), id / W * rule.h, rule.h, i / rule.w, j / rule.w, py);
    SameDigits(i, j, rule.w);
  }

  /** The geometry of one split: a point is in the cell exactly when it is in some child, and then in only one. */
  lemma BoxesTile(bounds: Box, rules: seq<Rule>, level: nat, id: int, px: real, py: real)
    requires PositiveRules(rules) && level < |rules|
    requires bounds.minX < bounds.maxX && bounds.minY < bounds.maxY
    ensures Contains(Coordinates(bounds, Width(rules, level), Height(rules, level), id), px, py) <==>
            exists local :: HoldsPoint(bounds, rules, level, id, local, px, py)
    ensures forall i, j | HoldsPoint(bounds, rules, level, id, i, px, py) && HoldsPoint(bounds, rules, level, id, j, px, py) ::
              i == j
  {
    if Contains(Coordinates(bounds, Width(rules, level), Height(rules, level), id), px, py) {
      var local := PointHasChild(bounds, rules, level, id, px, py);
    }
    forall local | HoldsPoint(bounds, rules, level, id, local, px, py)
      ensures Contains(Coordinates(bounds, Width(rules, level), Height(rules, level), id), px, py)
    {
      ChildPointInParent(bounds, rules, level, id, local, px, py);
    }
    forall i, j | HoldsPoint(bounds, rules, level, id, i, px, py) && HoldsPoint(bounds, rules, level, id, j, px, py)
      ensures i == j
    {
      ChildrenDisjoint(bounds, rules, level, id, i, j, px, py);
    }
  }

  // ----- the level table and what is looked up in it

  /** A list index as the language counts it: negative ones from the end. */
  function Index(i: int, length: nat): Option<nat> {
    if 0 <= i < length then Some(i) else if 0 <= i + length < length then Some(i + length) else None
  }

  /**
   * The box of cell `id`, or nothing where the level has no entry in the table: the table has
   * one entry for each rule, from level 0, so the deepest level has none.
   */
  function LookupCoordinates(bounds: Box, rules: seq<Rule>, level: int, id: int): Option<Box>
    requires PositiveRules(rules)
  {
    match Index(level, |rules|)
    case None => None
    case Some(l) => Some(Coordinates(bounds, Width(rules, l), Height(rules, l), id))
  }

  /** Child `local` of a cell has a box in the table, and the box holds the point. */
  ghost predicate BoxHolds(bounds: Box, rules: seq<Rule>, level: nat, id: int, local: int, px: real, py: real)
    requires PositiveRules(rules) && level < |rules|
  {
    && 0 <= local < rules[level].h * rules[level].w
    && var box := LookupCoordinates(bounds, rules, level + 1, ChildId(Width(rules, level), rules[level], id, local));
       box.Some? && Contains(box.value, px, py)
  }

  /**
   * The boxes looked up for the children of a cell tile the cell's own: every point of it is in
   * exactly one of them, and no other point is in any. That is so for every cell above the last
   * level of the table; the children of a cell on that level have no box at all.
   */
  lemma ChildBoxesTileParent(bounds: Box, rules: seq<Rule>, level: nat, id: int, child: int, px: real, py: real)
    requires PositiveRules(rules) && level < |rules|
    requires bounds.minX < bounds.maxX && bounds.minY < bounds.maxY
    ensures var box := LookupCoordinates(bounds, rules, level, id);
            && box.Some?
            && (level + 1 < |rules| ==>
                  (Contains(box.value, px, py) <==> exists local :: BoxHolds(bounds, rules, level, id, local, px, py)))
            && (level + 1 == |rules| ==> LookupCoordinates(bounds, rules, level + 1, child).None?)
    ensures forall i, j | BoxHolds(bounds, rules, level, id, i, px, py) && BoxHolds(bounds, rules, level, id, j, px, py) ::
              i == j
  {
    if level + 1 < |rules| {
      forall local ensures BoxHolds(bounds, rules, level, id, local, px, py) <==> HoldsPoint(bounds, rules, level, id, local, px, py) {}
      BoxesTile(bounds, rules, level, id, px, py);
    }
  }

  // ----- the parent lookup as written

  /** The lookup multiplies the parent row by the rule's column count, not by the parent level's width. */
  function LookupParentId(total: int, rule: Rule, child: int): int
    requires total > 0 && rule.w > 0 && rule.h > 0
  {
    child / total / rule.h * rule.w + child % total / rule.w
  }

  /** The parent that is looked up for cell `child`, or nothing where the level has no entry in the table. */
  function LookupParent(rules: seq<Rule>, level: int, child: int): Option<int>
    requires PositiveRules(rules)
  {
    match Index(level, |rules|)
    case None => None
    case Some(l) =>
      match Index(level - 1, |rules|)
      case None => None
      case Some(r) => Some(LookupParentId(Width(rules, l), rules[r], child))
  }

  /**
   * The lookup answers with the containing cell exactly when the cell is above the deepest level
   * and its parent is in row 0 or on a level exactly one rule wide; on the deepest level it never
   * answers.
   */
  lemma LookupParentExact(rules: seq<Rule>, level: nat, child: int)
    requires PositiveRules(rules) && 1 <= level <= |rules| && InLevel(rules, level, child)
    ensures var W, rule := Width(rules, level - 1), rules[level - 1];
            LookupParent(rules, level, child) == Some(ParentId(W, rule, child)) <==>
            level < |rules| && (ParentId(W, rule, child) / W == 0 || W == rule.w)
    ensures LookupParent(rules, level, child).None? <==> level == |rules|
  {
    var W, H, rule := Width(rules, level - 1), Height(rules, level - 1), rules[level - 1];
    MulPositive(W, rule.w);
    QuotientBelow(child, H * rule.h, W * rule.w);
    var row, column := child / (W * rule.w) / rule.h, child % (W * rule.w) / rule.w;
    QuotientBelow(child % (W * rule.w), W, rule.w);
    DivModOf(row, column, W);
    var got, want := LookupParentId(W * rule.w, rule, child), ParentId(W, rule, child);
    assert want - got == row * (W - rule.w);
    ProductZero(row, W - rule.w);
  }

  lemma ProductZero(a: int, b: int)
    ensures a * b == 0 <==> a == 0 || b == 0
  {}

  /** On three levels: cell 24 of a 6 by 6 level whose rule splits in two has parent 6, and 4 is looked up. */
  lemma LookupParentWrong()
    ensures var rules := [Rule(3, 3), Rule(2, 2), Rule(2, 2)];
            && PositiveRules(rules) && InLevel(rules, 2, 24)
            && LookupParent(rules, 2, 24) == Some(4)
            && ParentId(Width(rules, 1), rules[1], 24) == 6
  {
    var rules := [Rule(3, 3), Rule(2, 2), Rule(2, 2)];
    assert Width(rules, 0) == 1 && Height(rules, 0) == 1;
    assert Width(rules, 1) == 3 && Height(rules, 1) == 3;
    assert Width(rules, 2) == 6 && Height(rules, 2) == 6;
  }
}
