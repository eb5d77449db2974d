/** Mixed-radix cell numbering of the nested grid: how a cell, a local id and a child id relate. */
module GridIndex {

  /** A subdivision rule: every cell of a level splits into `w` columns and `h` rows. */
  datatype Rule = Rule(w: int, h: int)

  ghost predicate PositiveRules(rules: seq<Rule>) {
    forall i :: 0 <= i < |rules| ==> rules[i].w > 0 && rules[i].h > 0
  }

  /** Columns of `level`: the product of the column counts of all coarser rules. */
  function Width(rules: seq<Rule>, level: nat): (r: int)
    requires level <= |rules| && PositiveRules(rules)
    ensures r > 0
  {
    if level == 0 then 1 else
      MulPositive(Width(rules, level - 1), rules[level - 1].w);
      Width(rules, level - 1) * rules[level - 1].w
  }

  /** Rows of `level`. */
  function Height(rules: seq<Rule>, level: nat): (r: int)
    requires level <= |rules| && PositiveRules(rules)
    ensures r > 0
  {
    if level == 0 then 1 else
      MulPositive(Height(rules, level - 1), rules[level - 1].h);
      Height(rules, level - 1) * rules[level - 1].h
  }

  /** The ids that exist on `level`. */
  ghost predicate InLevel(rules: seq<Rule>, level: nat, id: int)
    requires level <= |rules| && PositiveRules(rules)
  {
    0 <= id < Height(rules, level) * Width(rules, level)
  }

  /** Id of child `local` of cell `id` when a level of `width` columns is split by `rule`. */
  function ChildId(width: int, rule: Rule, id: int, local: int): int
    requires width > 0 && rule.w > 0
  {
    (id / width * rule.h + local / rule.w) * (width * rule.w) + (id % width * rule.w + local % rule.w)
  }

  /** The cell of the coarser level that contains `child`; `width` counts the coarser columns. */
  function ParentId(width: int, rule: Rule, child: int): int
    requires width > 0 && rule.w > 0 && rule.h > 0
  {
    MulPositive(width, rule.w);
    child / (width * rule.w) / rule.h * width + child % (width * rule.w) / rule.w
  }

  /** Position of `child` among its siblings; `total` counts the columns of the child's own level. */
  function LocalId(total: int, rule: Rule, child: int): int
    requires total > 0 && rule.w > 0 && rule.h > 0
  {
    child / total % rule.h * rule.w + child % total % rule.w
  }

  // ----- arithmetic

  lemma MulPositive(a: int, b: int)
    requires a > 0 && b > 0
    ensures a * b > 0
  {}

  /** Quotient and remainder are determined by the Euclidean equation. */
  lemma DivModOf(q: int, r: int, d: int)
    requires 0 <= r < d
    ensures (q * d + r) / d == q && (q * d + r) % d == r
  {
    var x := q * d + r;
    assert (q - x / d) * d == x % d - r by { assert x == x / d * d + x % d; }
    MultipleMagnitude(q - x / d, d);
  }

  lemma MultipleMagnitude(k: int, d: int)
    requires d >= 0
    ensures k >= 1 ==> k * d >= d
    ensures k <= -1 ==> k * d <= -d
    ensures k >= 0 ==> k * d >= 0
  {
    assert k * d == (k - 1) * d + d;
  }

  /** A pair of digits stays below the product of its radices. */
  lemma DigitsBelow(q: int, r: int, n: int, d: int)
    requires 0 <= q < n && 0 <= r < d
    ensures 0 <= q * d + r < n * d
  {
    assert n * d == q * d + (n - q) * d;
    MultipleMagnitude(n - q, d);
    MultipleMagnitude(q, d);
  }

  lemma QuotientBelow(x: int, n: int, d: int)
    requires d > 0 && 0 <= x < n * d
    ensures 0 <= x / d < n && 0 <= x % d < d
  {
    assert x / d * d == n * d + (x / d - n) * d;
    MultipleMagnitude(x / d - n, d);
  }

  // ----- the bijection between (cell, local id) and ids of the next level

  /** A child lies on the next level, and it determines both its parent and its local id. */
  lemma ChildDeterminesParentAndLocal(width: int, height: int, rule: Rule, id: int, local: int)
    requires width > 0 && rule.w > 0 && rule.h > 0
    requires 0 <= id < height * width && 0 <= local < rule.h * rule.w
    ensures var c := ChildId(width, rule, id, local);
            && 0 <= c < (height * rule.h) * (width * rule.w)
            && ParentId(width, rule, c) == id
            && LocalId(width * rule.w, rule, c) == local
  {
    QuotientBelow(id, height, width);
    QuotientBelow(local, rule.h, rule.w);
    ChildOfDigits(width, height, rule, id % width, id / width, local % rule.w, local / rule.w);
  }

  /** Column `lu` and row `lv` within the cell at column `u` and row `v`. */
  lemma ChildOfDigits(width: int, height: int, rule: Rule, u: int, v: int, lu: int, lv: int)
    requires 0 <= u < width && 0 <= v < height && 0 <= lu < rule.w && 0 <= lv < rule.h
    ensures width * rule.w > 0
    ensures var c := (v * rule.h + lv) * (width * rule.w) + (u * rule.w + lu);
            && 0 <= c < (height * rule.h) * (width * rule.w)
            && ParentId(width, rule, c) == v * width + u
            && LocalId(width * rule.w, rule, c) == lv * rule.w + lu
  {
    MulPositive(width, rule.w);
    DigitsBelow(u, lu, width, rule.w);
    DigitsBelow(v, lv, height, rule.h);
    DigitsBelow(v * rule.h + lv, u * rule.w + lu, height * rule.h, width * rule.w);
    FourDigits(u, lu, rule.w, v, lv, rule.h, width * rule.w);
    ReadDigits(width, rule, (v * rule.h + lv) * (width * rule.w) + (u * rule.w + lu), u, v, lu, lv);
  }

  /** The parent and the local id are made of the four digits of a child. */
  lemma ReadDigits(width: int, rule: Rule, c: int, u: int, v: int, lu: int, lv: int)
    requires width > 0 && rule.w > 0 && rule.h > 0 && width * rule.w > 0
    requires c / (width * rule.w) / rule.h == v && c / (width * rule.w) % rule.h == lv
    requires c % (width * rule.w) / rule.w == u && c % (width * rule.w) % rule.w == lu
    ensures ParentId(width, rule, c) == v * width + u && LocalId(width * rule.w, rule, c) == lv * rule.w + lu
  {}

  /** Dividing by the radices in turn gives the four digits back. */
  lemma FourDigits(u: int, lu: int, w: int, v: int, lv: int, h: int, wide: int)
    requires 0 <= lu < w && 0 <= lv < h && 0 <= u * w + lu < wide
    ensures var x, y := u * w + lu, v * h + lv;
            var c := y * wide + x;
            && c / wide == y && c % wide == x
            && x / w == u && x % w == lu && y / h == v && y % h == lv
  {
    DivModOf(v * h + lv, u * w + lu, wide);
    DivModOf(u, lu, w);
    DivModOf(v, lv, h);
  }

  /** Conversely every id of the next level is the child its own parent and local id name. */
  lemma ParentAndLocalDetermineChild(width: int, height: int, rule: Rule, child: int)
    requires width > 0 && rule.w > 0 && rule.h > 0
    requires 0 <= child < (height * rule.h) * (width * rule.w)
    ensures var p, l := ParentId(width, rule, child), LocalId(width * rule.w, rule, child);
            && 0 <= p < height * width && 0 <= l < rule.h * rule.w
            && ChildId(width, rule, p, l) == child
  {
    MulPositive(width, rule.w);
    var total := width * rule.w;
    QuotientBelow(child, height * rule.h, total);
    SplitDigits(child / total, child % total, width, height, rule);
    var p, l := ParentId(width, rule, child), LocalId(total, rule, child);
    assert ChildId(width, rule, p, l) == child / total * total + child % total;
  }

  /** Splitting a coordinate pair by `rule` and joining it again is the identity. */
  lemma SplitDigits(y: int, x: int, width: int, height: int, rule: Rule)
    requires width > 0 && rule.w > 0 && rule.h > 0
    requires 0 <= x < width * rule.w && 0 <= y < height * rule.h
    ensures var p, l := y / rule.h * width + x / rule.w, y % rule.h * rule.w + x % rule.w;
            && 0 <= p < height * width && 0 <= l < rule.h * rule.w
            && p / width * rule.h + l / rule.w == y
            && p % width * rule.w + l % rule.w == x
  {
    QuotientBelow(x, width, rule.w);
    QuotientBelow(y, height, rule.h);
    DigitsBelow(y / rule.h, x / rule.w, height, width);
    DigitsBelow(y % rule.h, x % rule.w, rule.h, rule.w);
    DivModOf(y / rule.h, x / rule.w, width);
    DivModOf(y % rule.h, x % rule.w, rule.w);
  }

  /**
   * (cell, local id) numbers the next level one-to-one: siblings are disjoint, and together
   * the children of a level are exactly the ids of the next one.
   */
  lemma ChildrenPartitionNextLevel(rules: seq<Rule>, level: nat, child: int)
    requires PositiveRules(rules) && level < |rules|
    ensures InLevel(rules, level + 1, child) <==>
            exists id, local :: IsChild(rules, level, id, local, child)
    ensures forall a, i, b, j ::
              IsChild(rules, level, a, i, child) && IsChild(rules, level, b, j, child) ==> a == b && i == j
  {
    var W, H, rule := Width(rules, level), Height(rules, level), rules[level];
    if InLevel(rules, level + 1, child) {
      ParentAndLocalDetermineChild(W, H, rule, child);
      assert IsChild(rules, level, ParentId(W, rule, child), LocalId(W * rule.w, rule, child), child);
    }
    forall id, local | IsChild(rules, level, id, local, child)
      ensures InLevel(rules, level + 1, child)
      ensures id == ParentId(W, rule, child) && local == LocalId(W * rule.w, rule, child)
    {
      ChildDeterminesParentAndLocal(W, H, rule, id, local);
    }
  }

  /** `child` is child number `local` of cell `id` of `level`. */
  ghost predicate IsChild(rules: seq<Rule>, level: nat, id: int, local: int, child: int)
    requires PositiveRules(rules) && level < |rules|
  {
    && InLevel(rules, level, id)
    && 0 <= local < rules[level].h * rules[level].w
    && child == ChildId(Width(rules, level), rules[level], id, local)
  }
}
