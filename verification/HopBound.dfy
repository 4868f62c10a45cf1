/**
 How many hops an ancestor walk takes.  A walk first climbs to depths divisible by ever larger
 powers of four, at most three hops per power, then hops along the largest skip, and then comes
 down through the powers again.
 */
module HopBound {
  import opened Types
  import opened Powers
  import opened ForkTree
  import opened AncestorWalk

  // ----- Multiples by repeated addition -----

  ghost function Times(n: nat, p: nat): nat {
    if n == 0 then 0 else p + Times(n - 1, p)
  }

  lemma {:induction false} TimesIsMul(n: nat, p: nat)
    ensures Times(n, p) == n * p
  {
    if n > 0 {
      TimesIsMul(n - 1, p);
      assert n * p == (n - 1) * p + p;
    }
  }

  lemma TimesThree(n: nat, p: nat)
    ensures n == 3 ==> Times(n, p) == 3 * p
  {
    TimesIsMul(n, p);
  }

  lemma TimesFour(p: nat)
    ensures Times(4, p) == 4 * p
  {
    TimesIsMul(4, p);
  }

  /** A number is less than one more divisor than its quotient counts. */
  lemma BelowNextMultiple(a: nat, p: nat) returns (q: nat)
    requires p >= 1
    ensures q == a / p && a < Times(q + 1, p)
  {
    q := a / p;
    TimesIsMul(q + 1, p);
    assert (q + 1) * p == p * q + p;
  }

  lemma {:induction false} MultipleDown(c: nat, p: nat)
    requires p >= 1 && Multiple(c, 4 * p)
    ensures Multiple(c, p)
  {
    if c != 0 {
      MultipleDown(c - 4 * p, p);
      assert Multiple(c - 3 * p, p);
      assert Multiple(c - 2 * p, p);
    }
  }

  /** `r` steps of p lead down from `c` to a multiple of 4p. */
  ghost predicate HasDigit(c: nat, p: nat, r: nat)
    requires p >= 1
    decreases r
  {
    if r == 0 then Multiple(c, 4 * p) else c >= p && HasDigit(c - p, p, r - 1)
  }

  /** Every multiple of p has a base-four digit in units of p. */
  lemma {:induction false} Digit(c: nat, p: nat) returns (r: nat)
    requires p >= 1 && Multiple(c, p)
    ensures r <= 3 && HasDigit(c, p, r)
  {
    if c == 0 {
      r := 0;
    } else {
      var below := Digit(c - p, p);
      if below == 3 {
        assert HasDigit(c - 3 * p, p, 1);
        assert Multiple(c - 4 * p, 4 * p);
        r := 0;
      } else {
        r := below + 1;
      }
    }
  }

  lemma {:induction false} MultipleOfDigit(c: nat, p: nat, r: nat)
    requires p >= 1 && HasDigit(c, p, r)
    ensures Multiple(c, p)
    decreases r
  {
    if r == 0 {
      MultipleDown(c, p);
    } else {
      MultipleOfDigit(c - p, p, r - 1);
    }
  }

  /** A multiple of 4p has no other digit than zero. */
  lemma {:induction false} DigitUnique(c: nat, p: nat, r: nat)
    requires p >= 1 && 1 <= r <= 3 && HasDigit(c, p, r)
    ensures !Multiple(c, 4 * p)
  {
    if c >= 4 * p {
      DigitDown(c, p, r);
      DigitUnique(c - 4 * p, p, r);
    }
  }

  lemma {:induction false} DigitDown(c: nat, p: nat, r: nat)
    requires p >= 1 && r <= 3 && c >= 4 * p && HasDigit(c, p, r)
    ensures HasDigit(c - 4 * p, p, r)
    decreases r
  {
  }

  lemma {:induction false} NoHigherMultiple(c: nat, j: nat, k: nat)
    requires j < k && !Multiple(c, Pow4(j + 1))
    ensures !Multiple(c, Pow4(k))
    decreases k
  {
    if j + 1 < k {
      NoHigherMultiple(c, j, k - 1);
      if Multiple(c, Pow4(k)) {
        MultipleDown(c, Pow4(k - 1));
      }
    }
  }

  // ----- Hops on depths -----

  /** The hops of a walk, counted on depths alone. */
  ghost function DepthHops(c: nat, target: nat): nat
    requires target <= c
    decreases c
  {
    if c == target then 0 else 1 + DepthHops(HopDepth(c, target), target)
  }

  lemma {:induction false} HopsByDepth(t: Tree, id: BlockId, target: nat)
    requires Sound(t) && HopsFall(t) && id in t.blocks && target <= t.blocks[id].depth
    ensures Hops(t, id, target) == DepthHops(t.blocks[id].depth, target)
    decreases t.blocks[id].depth
  {
    if target < t.blocks[id].depth {
      var d := HopDepth(t.blocks[id].depth, target);
      HopTarget(t, id, target);
      PathPrefix(t, id, d);
      HopsByDepth(t, Path(t, id)[d], target);
    }
  }

  /** The hop takes level k: it fits, and no higher level divides the depth and stays in the gap. */
  lemma HopAtLevel(c: nat, target: nat, k: nat)
    requires k <= SKIP_COUNT && Multiple(c, Pow4(k)) && target + Pow4(k) <= c
    requires k == SKIP_COUNT || c < target + Pow4(k + 1) || !Multiple(c, Pow4(k + 1))
    ensures DepthHops(c, target) == 1 + DepthHops(c - Pow4(k), target)
  {
    TopIs(c, target, k, TopLevel(c, target, SKIP_COUNT));
  }

  lemma TopIs(c: nat, target: nat, k: nat, top: nat)
    requires target < c && k <= SKIP_COUNT && Multiple(c, Pow4(k)) && Pow4(k) <= c - target
    requires k == SKIP_COUNT || c - target < Pow4(k + 1) || !Multiple(c, Pow4(k + 1))
    requires top <= SKIP_COUNT && Fits(c, target, top)
    requires forall j :: top < j <= SKIP_COUNT ==> !Fits(c, target, j)
    ensures top == k
  {
    assert Fits(c, target, k);
    if k < top {
      if k + 1 < top { Pow4Increases(k + 1, top); }
      if !Multiple(c, Pow4(k + 1)) { NoHigherMultiple(c, k, top); }
    }
  }

  /** A multiple of a skip is a multiple of the next smaller one, which fits a smaller gap at most three times. */
  lemma DescendLevel(c: nat, target: nat, k: nat)
    requires target <= c && k >= 1 && Multiple(c, Pow4(k)) && c - target < Pow4(k)
    ensures Multiple(c, Pow4(k - 1)) && c - target < Times(4, Pow4(k - 1))
  {
    MultipleDown(c, Pow4(k - 1));
    TimesFour(Pow4(k - 1));
  }

  /** One hop along level k leaves one fewer to make there. */
  lemma AlongOne(c: nat, target: nat, k: nat, m: nat)
    requires k <= SKIP_COUNT && Multiple(c, Pow4(k)) && target + Pow4(k) <= c
    requires k == SKIP_COUNT || c < target + Pow4(k + 1)
    requires c - target < Times(m, Pow4(k))
    ensures DepthHops(c, target) == 1 + DepthHops(c - Pow4(k), target) && Multiple(c - Pow4(k), Pow4(k))
    ensures m >= 2 && c - Pow4(k) - target < Times(m - 1, Pow4(k))
  {
    hide DepthHops;
    HopAtLevel(c, target, k);
  }

  lemma OneMore(n: nat, p: nat) returns (more: nat)
    ensures more == n + 1 && Times(more, p) == p + Times(n, p)
  {
    more := n + 1;
  }

  /** Along level k: fewer than `m` hops, until the gap is smaller than the skip. */
  lemma {:induction false} Along(c: nat, target: nat, k: nat, m: nat) returns (low: nat, n: nat)
    requires target <= c && k <= SKIP_COUNT && Multiple(c, Pow4(k))
    requires k == SKIP_COUNT || c < target + Pow4(k + 1)
    requires c - target < Times(m, Pow4(k))
    ensures n < m && target <= low <= c && low < target + Pow4(k) && Multiple(low, Pow4(k))
    ensures DepthHops(c, target) == n + DepthHops(low, target) && c - low == Times(n, Pow4(k))
    decreases m
  {
    hide DepthHops, Multiple, Pow4;
    var p := Pow4(k);
    if c < target + p {
      low, n := c, 0;
    } else {
      AlongOne(c, target, k, m);
      var rest;
      low, rest := Along(c - p, target, k, m - 1);
      n := OneMore(rest, p);
    }
  }

  /** Coming down: at most `q` hops at level `k`, then three for each level below. */
  lemma {:induction false} Descend(c: nat, target: nat, k: nat, q: nat)
    requires target <= c && k <= SKIP_COUNT && Multiple(c, Pow4(k))
    requires k == SKIP_COUNT || c < target + Pow4(k + 1)
    requires c - target < Times(q + 1, Pow4(k))
    ensures DepthHops(c, target) <= 3 * k + q
    decreases k
  {
    var low, n := Along(c, target, k, q + 1);
    if k > 0 {
      DescendLevel(low, target, k);
      Descend(low, target, k - 1, 3);
    }
  }

  /** A gap smaller than the skips of level j is crossed by descending alone. */
  lemma DescendShort(c: nat, target: nat, j: nat)
    requires target <= c && j < SKIP_COUNT && Multiple(c, Pow4(j)) && c < target + Pow4(j)
    ensures DepthHops(c, target) <= 3 * j
  {
    assert Times(1, Pow4(j)) == Pow4(j);
    Descend(c, target, j, 0);
  }

  /** At a nonzero digit, and with room for it, the hop takes the digit down by one. */
  lemma ClimbOne(c: nat, target: nat, j: nat, r: nat)
    requires j < SKIP_COUNT && target + Pow4(j) <= c && 1 <= r <= 3 && HasDigit(c, Pow4(j), r)
    ensures DepthHops(c, target) == 1 + DepthHops(c - Pow4(j), target)
  {
    hide DepthHops;
    MultipleOfDigit(c, Pow4(j), r);
    DigitUnique(c, Pow4(j), r);
    HopAtLevel(c, target, j);
  }

  /** Climbing one level: at most `r` hops, to a multiple of the next skip or to a short gap. */
  lemma {:induction false} Climb(c: nat, target: nat, j: nat, r: nat) returns (top: nat, n: nat)
    requires target <= c && j < SKIP_COUNT
    requires r <= 3 && HasDigit(c, Pow4(j), r)
    ensures n <= r && target <= top <= c
    ensures DepthHops(c, target) == n + DepthHops(top, target) && c - top == Times(n, Pow4(j))
    ensures Multiple(top, Pow4(j + 1)) || (Multiple(top, Pow4(j)) && top < target + Pow4(j))
    decreases r
  {
    hide DepthHops;
    var p := Pow4(j);
    if r == 0 {
      top, n := c, 0;
    } else if c < target + p {
      MultipleOfDigit(c, p, r);
      top, n := c, 0;
    } else {
      ClimbOne(c, target, j, r);
      var rest;
      top, rest := Climb(c - p, target, j, r - 1);
      n := OneMore(rest, p);
    }
  }

  /**
   Climbing from a multiple of 4^j up to level `m`: at most three hops for each level, and all three at
   every level only over the whole distance 4^m - 4^j; or else to a gap that is soon crossed.
   */
  lemma {:induction false} Ascend(c: nat, target: nat, j: nat, m: nat) returns (top: nat, n: nat)
    requires target <= c && j <= m <= SKIP_COUNT && Multiple(c, Pow4(j))
    ensures n <= 3 * (m - j) && target <= top <= c
    ensures DepthHops(c, target) == n + DepthHops(top, target)
    ensures Multiple(top, Pow4(m)) || (m >= 1 && DepthHops(top, target) <= 3 * (m - 1))
    ensures n == 3 * (m - j) ==> c - top >= Pow4(m) - Pow4(j)
    decreases m - j
  {
    hide DepthHops;
    if j == m {
      top, n := c, 0;
    } else {
      var r := Digit(c, Pow4(j));
      top, n := Climb(c, target, j, r);
      TimesThree(n, Pow4(j));
      if Multiple(top, Pow4(j + 1)) {
        var mid, up := top, n;
        top, n := Ascend(mid, target, j + 1, m);
        n := up + n;
      } else {
        DescendShort(top, target, j);
      }
    }
  }

  /** With `m` the largest level a hop can have: at most 6m hops and `q` at level m. */
  lemma CountBound(c: nat, target: nat, m: nat, q: nat)
    requires target <= c
    requires m == SKIP_COUNT || (m < SKIP_COUNT && c < target + Pow4(m + 1))
    requires c - target < Times(q + 1, Pow4(m))
    ensures DepthHops(c, target) <= 6 * m + q
  {
    MultipleOfOne(c);
    var top, n := Ascend(c, target, 0, m);
    if Multiple(top, Pow4(m)) {
      Descend(top, target, m, q);
    }
  }

  // ----- The bounds -----

  /** A gap below 4^n is crossed in at most 6n - 3 hops. */
  lemma HopsLogarithmic(t: Tree, id: BlockId, target: nat, n: nat)
    requires Sound(t) && HopsFall(t) && id in t.blocks && target <= t.blocks[id].depth
    requires 1 <= n <= 17 && t.blocks[id].depth - target < Pow4(n)
    ensures Hops(t, id, target) <= 6 * n - 3
  {
    CountLogarithmic(t.blocks[id].depth, target, n);
    HopsByDepth(t, id, target);
  }

  lemma CountLogarithmic(c: nat, target: nat, n: nat)
    requires target <= c && 1 <= n <= SKIP_COUNT + 1 && c - target < Pow4(n)
    ensures DepthHops(c, target) <= 6 * n - 3
  {
    TimesFour(Pow4(n - 1));
    CountBound(c, target, n - 1, 3);
  }

  /** Any gap is crossed in at most 96 hops and one for each 4^16 of it. */
  lemma HopsAnyGap(t: Tree, id: BlockId, target: nat)
    requires Sound(t) && HopsFall(t) && id in t.blocks && target <= t.blocks[id].depth
    ensures Hops(t, id, target) <= 96 + (t.blocks[id].depth - target) / Pow4(16)
  {
    CountAnyGap(t.blocks[id].depth, target, SKIP_COUNT);
    HopsByDepth(t, id, target);
  }

  lemma CountAnyGap(c: nat, target: nat, m: nat)
    requires target <= c && m == SKIP_COUNT
    ensures DepthHops(c, target) <= 6 * m + (c - target) / Pow4(m)
  {
    var q := BelowNextMultiple(c - target, Pow4(m));
    CountBound(c, target, m, q);
  }
}
