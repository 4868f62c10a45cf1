/**
 The worst case of an ancestor walk.  Three hops at every level up, three along the top and three at
 every level down would cross more than 4^n, so one of them is always missing; at depth 4^n - 1 and
 target 1 only one is.
 */
module HopWorstCase {
  import opened Types
  import opened Powers
  import opened ForkTree
  import opened HopBound

  // ----- At most 6n - 4 -----

  /** Three hops along the top level leave a gap only if the climb was not the longest. */
  lemma CountSharp(c: nat, target: nat, m: nat)
    requires target <= c && 1 <= m <= SKIP_COUNT && c < target + Pow4(m + 1)
    ensures DepthHops(c, target) <= 6 * m + 2
  {
    MultipleOfOne(c);
    var top, up := Ascend(c, target, 0, m);
    if Multiple(top, Pow4(m)) {
      TimesFour(Pow4(m));
      var low, along := Along(top, target, m, 4);
      TimesThree(along, Pow4(m));
      assert along == 3 && up == 3 * m ==> low == target;
      DescendLevel(low, target, m);
      Descend(low, target, m - 1, 3);
    }
  }

  /** A gap below 4^n, for n at least 2, is crossed in at most 6n - 4 hops. */
  lemma HopsSharp(t: Tree, id: BlockId, target: nat, n: nat)
    requires Sound(t) && HopsFall(t) && id in t.blocks && target <= t.blocks[id].depth
    requires 2 <= n <= 17 && t.blocks[id].depth - target < Pow4(n)
    ensures Hops(t, id, target) <= 6 * n - 4
  {
    CountSharp(t.blocks[id].depth, target, n - 1);
    HopsByDepth(t, id, target);
  }

  // ----- And that many at depth 4^n - 1 and target 1 -----

  lemma {:induction false} PowerMultiple(n: nat, j: nat)
    requires j <= n
    ensures Pow4(j) <= Pow4(n) && Multiple(Pow4(n), Pow4(j)) && Multiple(Pow4(n) - Pow4(j), Pow4(j))
    decreases n - j
  {
    if j < n {
      PowerMultiple(n, j + 1);
      MultipleDown(Pow4(n), Pow4(j));
    } else {
      assert Multiple(0, Pow4(j));
    }
  }

  /** Multiples of p up to 4p. */
  lemma SmallMultiples(p: nat)
    requires p >= 1
    ensures Multiple(p, p) && Multiple(2 * p, p) && Multiple(3 * p, p) && Multiple(4 * p, p)
  {
    assert Multiple(0, p);
    assert Multiple(p, p);
    assert Multiple(2 * p, p);
    assert Multiple(3 * p, p);
  }

  /** From a few times a skip, from where the next larger one overshoots. */
  lemma SmallHops(k: nat)
    requires k <= SKIP_COUNT
    ensures DepthHops(4 * Pow4(k), 1) == 3 + DepthHops(Pow4(k), 1)
    ensures DepthHops(3 * Pow4(k), 1) == 2 + DepthHops(Pow4(k), 1)
  {
    hide HopBound.DepthHops;
    var p := Pow4(k);
    SmallMultiples(p);
    HopAtLevel(4 * p, 1, k);
    HopAtLevel(3 * p, 1, k);
    HopAtLevel(2 * p, 1, k);
  }

  /** Down from a power of four to depth 1: three hops at each level. */
  lemma {:induction false} PowerDown(k: nat)
    requires k <= SKIP_COUNT + 1
    ensures DepthHops(Pow4(k), 1) == 3 * k
  {
    if k > 0 {
      PowerDown(k - 1);
      PowerDownOne(k);
    }
  }

  lemma PowerDownOne(k: nat)
    requires 1 <= k <= SKIP_COUNT + 1
    ensures DepthHops(Pow4(k), 1) == 3 + DepthHops(Pow4(k - 1), 1)
  {
    hide HopBound.DepthHops;
    SmallHops(k - 1);
  }

  /** Three steps above a multiple of the next larger skip: three hops. */
  lemma ThreeHops(c: nat, j: nat)
    requires c >= 1 && j < SKIP_COUNT && Multiple(c, Pow4(j + 1))
    ensures DepthHops(c + 3 * Pow4(j), 1) == 3 + DepthHops(c, 1)
  {
    hide HopBound.DepthHops;
    var p := Pow4(j);
    DigitThree(c, p);
    HopAtLevel(c + 3 * p, 1, j);
    HopAtLevel(c + 2 * p, 1, j);
    HopAtLevel(c + p, 1, j);
  }

  /** Up one level from just below a power of four: three hops. */
  lemma ClimbThree(n: nat, j: nat)
    requires j + 1 < n <= SKIP_COUNT + 1
    ensures Pow4(j) < Pow4(j + 1) < Pow4(n)
    ensures DepthHops(Pow4(n) - Pow4(j), 1) == 3 + DepthHops(Pow4(n) - Pow4(j + 1), 1)
  {
    hide HopBound.DepthHops;
    Pow4Increases(j + 1, n);
    PowerMultiple(n, j + 1);
    ThreeHops(Pow4(n) - Pow4(j + 1), j);
  }

  /** One, two and three steps of p above a multiple of 4p are multiples of p and not of 4p. */
  lemma DigitThree(c: nat, p: nat)
    requires p >= 1 && Multiple(c, 4 * p)
    ensures Multiple(c + p, p) && Multiple(c + 2 * p, p) && Multiple(c + 3 * p, p)
    ensures !Multiple(c + p, 4 * p) && !Multiple(c + 2 * p, 4 * p) && !Multiple(c + 3 * p, 4 * p)
  {
    MultipleDown(c, p);
    assert HasDigit(c, p, 0);
    assert HasDigit(c + p, p, 1);
    assert HasDigit(c + 2 * p, p, 2);
    assert HasDigit(c + 3 * p, p, 3);
    DigitUnique(c + p, p, 1);
    DigitUnique(c + 2 * p, p, 2);
    DigitUnique(c + 3 * p, p, 3);
    assert Multiple(c + p, p);
    assert Multiple(c + 2 * p, p);
  }

  /** Up from below a power of four: three hops at each level but the top one. */
  lemma {:induction false} ClimbAll(n: nat, j: nat)
    requires j < n <= SKIP_COUNT + 1
    ensures Pow4(j) < Pow4(n) && Pow4(n - 1) < Pow4(n)
    ensures DepthHops(Pow4(n) - Pow4(j), 1) == 3 * (n - 1 - j) + DepthHops(Pow4(n) - Pow4(n - 1), 1)
    decreases n - j
  {
    hide HopBound.DepthHops;
    Pow4Increases(j, n);
    if j + 1 < n {
      ClimbThree(n, j);
      ClimbAll(n, j + 1);
    }
  }

  lemma WorstCount(n: nat)
    requires 2 <= n <= SKIP_COUNT + 1
    ensures DepthHops(Pow4(n) - 1, 1) == 6 * n - 4
  {
    hide HopBound.DepthHops;
    var p := Pow4(n - 1);
    assert Pow4(0) == 1;
    ClimbAll(n, 0);
    SmallHops(n - 1);
    PowerDown(n - 1);
    assert Pow4(n) - p == 3 * p;
  }

  /** The bound is reached: a block at depth 4^n - 1 takes exactly 6n - 4 hops to depth 1. */
  lemma WorstCaseAttained(t: Tree, id: BlockId, n: nat)
    requires Sound(t) && HopsFall(t) && id in t.blocks
    requires 2 <= n <= 17 && t.blocks[id].depth == Pow4(n) - 1
    ensures t.blocks[id].depth >= 1 && Hops(t, id, 1) == 6 * n - 4
  {
    Pow4Increases(0, n);
    WorstCount(n);
    HopsByDepth(t, id, 1);
  }
}
