/**
 The ancestor walk with the documented comparison: on every sound tree it finds what
 following parent links finds.
 */
module AncestorWalk {
  import opened Types
  import opened Powers
  import opened ForkTree

  // ----- Paths -----

  /** Every id on a path is known, sits at its index, and has the prefix up to it as its own path. */
  lemma {:induction false} PathPrefix(t: Tree, id: BlockId, i: nat)
    requires Linked(t) && id in t.blocks && i <= t.blocks[id].depth
    ensures Path(t, id)[i] in t.blocks
    ensures t.blocks[Path(t, id)[i]].depth == i
    ensures Path(t, Path(t, id)[i]) == Path(t, id)[..i + 1]
    decreases t.blocks[id].depth
  {
    assert GoodLink(t, id);
    var path := Path(t, id);
    if i < t.blocks[id].depth {
      var p := t.blocks[id].block.parentId.value;
      PathPrefix(t, p, i);
      assert path == Path(t, p) + [id];
    } else {
      assert path[..i + 1] == path;
    }
  }

  // ----- One hop -----

  ghost predicate Fits(c: nat, target: nat, k: nat) {
    Pow4(k) <= c - target && Multiple(c, Pow4(k))
  }

  /** The largest skip level not above `k` that divides the depth and does not overshoot. */
  ghost function TopLevel(c: nat, target: nat, k: nat): (r: nat)
    requires target < c
    ensures r <= k && Fits(c, target, r)
    ensures forall j :: r < j <= k ==> !Fits(c, target, j)
  {
    MultipleOfOne(c);
    if k == 0 || Fits(c, target, k) then k else TopLevel(c, target, k - 1)
  }

  /** The depth that one hop from depth `c` leads to. */
  ghost function HopDepth(c: nat, target: nat): (r: nat)
    requires target < c
    ensures target <= r < c
  {
    c - Pow4(TopLevel(c, target, SKIP_COUNT))
  }

  /** The level of a listed back-pointer depth. */
  lemma PointerLevel(c: nat, d: nat) returns (k: nat)
    requires d in AncestorDepths(c)
    ensures 1 <= k <= SKIP_COUNT && ReachedBy(c, Pow4(k), d)
  {
    AncestorDepthsExact(c, d);
    k :| 1 <= k <= SKIP_COUNT && ReachedBy(c, Pow4(k), d);
  }

  /** No listed depth between the target and the one of the largest fitting level. */
  lemma TopIsLowest(c: nat, target: nat, d: nat)
    requires target < c && d in AncestorDepths(c) && d >= target
    ensures TopLevel(c, target, SKIP_COUNT) != 0 && HopDepth(c, target) <= d
  {
    var k := PointerLevel(c, d);
    MultipleIsMod(c, Pow4(k));
    FitsBelowTop(c, target, k, TopLevel(c, target, SKIP_COUNT));
  }

  lemma FitsBelowTop(c: nat, target: nat, k: nat, top: nat)
    requires k <= SKIP_COUNT && Fits(c, target, k)
    requires forall j :: top < j <= SKIP_COUNT ==> !Fits(c, target, j)
    ensures k <= top && Pow4(k) <= Pow4(top)
  {
    if k < top {
      Pow4Increases(k, top);
    }
  }

  /** The depth of a fitting level above zero is listed. */
  lemma FittingListed(c: nat, target: nat, k: nat)
    requires target < c && 1 <= k <= SKIP_COUNT && Fits(c, target, k)
    ensures c - Pow4(k) in AncestorDepths(c)
  {
    MultipleIsMod(c, Pow4(k));
    assert ReachedBy(c, Pow4(k), c - Pow4(k));
    AncestorDepthsExact(c, c - Pow4(k));
  }

  /** Selecting among pointers is selecting among their depths. */
  lemma LowestPointer(path: seq<BlockId>, depths: seq<nat>, target: nat, least: nat)
    requires forall i :: 0 <= i < |depths| ==> depths[i] < |path|
    requires least in depths && least >= target
    requires forall d :: d in depths && d >= target ==> least <= d
    ensures LowestAtLeast(Pointers(path, depths), target) == Some((least, path[least]))
  {
    var pointers := Pointers(path, depths);
    var lowest := LowestAtLeast(pointers, target);
    var j :| 0 <= j < |depths| && depths[j] == least;
    assert pointers[j].0 >= target;
    var i :| 0 <= i < |pointers| && pointers[i] == lowest.value;
    assert depths[i] in depths;
  }

  /** Where the walk goes from a block with this path: the selected pointer, or else the parent. */
  lemma Selection(path: seq<BlockId>, c: nat, target: nat)
    requires target < c == |path| - 1
    ensures var lowest := LowestAtLeast(Pointers(path, AncestorDepths(c)), target);
            (if lowest.Some? then lowest.value.1 else path[c - 1]) == path[HopDepth(c, target)]
  {
    hide AncestorDepths, TopLevel, LowestAtLeast;
    var depths := AncestorDepths(c);
    forall d | d in depths && d >= target
      ensures TopLevel(c, target, SKIP_COUNT) != 0 && HopDepth(c, target) <= d
    {
      TopIsLowest(c, target, d);
    }
    if TopLevel(c, target, SKIP_COUNT) != 0 {
      FittingListed(c, target, TopLevel(c, target, SKIP_COUNT));
      LowestPointer(path, depths, target, HopDepth(c, target));
    } else {
      assert forall i :: 0 <= i < |depths| ==> depths[i] in depths;
      assert LowestAtLeast(Pointers(path, depths), target).None?;
    }
  }

  /** A hop goes to the ancestor given by the largest fitting skip. */
  lemma HopTarget(t: Tree, id: BlockId, target: nat)
    requires Sound(t) && id in t.blocks && target < t.blocks[id].depth
    ensures LoopBody(t, id, target) == Continue(Path(t, id)[HopDepth(t.blocks[id].depth, target)])
  {
    assert GoodLink(t, id) && SkipOk(t, id);
    var item := t.blocks[id];
    var path := Path(t, id);
    var next := path[HopDepth(item.depth, target)];
    PathPrefix(t, id, HopDepth(item.depth, target));
    assert path == Path(t, item.block.parentId.value) + [id];
    Selection(path, item.depth, target);
  }

  lemma SoundHopsFall(t: Tree)
    requires Sound(t)
    ensures HopsFall(t)
  {
    forall id, target | id in t.blocks && LoopBody(t, id, target).Continue?
      ensures t.blocks[LoopBody(t, id, target).next].depth < t.blocks[id].depth
    {
      HopTarget(t, id, target);
      PathPrefix(t, id, HopDepth(t.blocks[id].depth, target));
    }
  }

  // ----- The whole walk -----

  /** The skip walk ends at the ancestor that parent links lead to. */
  lemma {:induction false} WalkFollowsPath(t: Tree, id: BlockId, target: nat)
    requires Sound(t) && HopsFall(t) && id in t.blocks && target <= t.blocks[id].depth
    ensures Walk(t, id, target) == Ok(Path(t, id)[target])
    decreases t.blocks[id].depth
  {
    assert GoodLink(t, id);
    if target < t.blocks[id].depth {
      var d := HopDepth(t.blocks[id].depth, target);
      HopTarget(t, id, target);
      PathPrefix(t, id, d);
      WalkFollowsPath(t, Path(t, id)[d], target);
    }
  }

  /** What an ancestor query promises: the parent-link ancestor, or the documented error. */
  ghost function Ancestor(t: Tree, id: BlockId, target: nat): Result<BlockId, QueryError>
    requires Linked(t)
  {
    if id !in t.blocks then Err(UnknownBlock)
    else if target > t.blocks[id].depth then Err(InvalidAncestorDepth)
    else Ok(Path(t, id)[target])
  }

  lemma QueryFindsAncestor(t: Tree, id: BlockId, target: nat)
    requires Sound(t)
    ensures HopsFall(t)
    ensures AncestorIdAtDepth(AsDocumented, t, id, target) == Ancestor(t, id, target)
  {
    SoundHopsFall(t);
    if id in t.blocks && target <= t.blocks[id].depth {
      WalkFollowsPath(t, id, target);
    }
  }

  // ----- Ancestry -----

  /** `a` lies on the path of `id`. */
  ghost predicate Above(t: Tree, a: BlockId, id: BlockId)
    requires Linked(t) && id in t.blocks
  {
    a in Path(t, id)
  }

  /** A block is above another exactly when its path is a prefix of the other's. */
  lemma AboveIsPrefix(t: Tree, a: BlockId, id: BlockId)
    requires Linked(t) && a in t.blocks && id in t.blocks
    ensures Above(t, a, id) <==> Path(t, a) <= Path(t, id)
    ensures Above(t, a, id) <==>
            t.blocks[a].depth <= t.blocks[id].depth && Path(t, id)[t.blocks[a].depth] == a
  {
    var path := Path(t, id);
    if Above(t, a, id) {
      var i :| 0 <= i < |path| && path[i] == a;
      PathPrefix(t, id, i);
    }
    if Path(t, a) <= path {
      assert path[|Path(t, a)| - 1] == a;
    }
  }

  /** `is_ancestor` decides `Above`, and errs exactly on an unknown id or a deeper candidate. */
  lemma IsAncestorDecidesAbove(t: Tree, id: BlockId, a: BlockId)
    requires Sound(t)
    ensures HopsFall(t)
    ensures IsAncestor(AsDocumented, t, id, a) ==
            if a !in t.blocks || id !in t.blocks then Err(UnknownBlock)
            else if t.blocks[a].depth > t.blocks[id].depth then Err(InvalidAncestorDepth)
            else Ok(Above(t, a, id))
  {
    SoundHopsFall(t);
    if a in t.blocks {
      QueryFindsAncestor(t, id, t.blocks[a].depth);
      if id in t.blocks {
        AboveIsPrefix(t, a, id);
      }
    }
  }

  /** The `true` answers form a partial order in which the ancestors of one block are a chain. */
  lemma AncestryIsForestOrder(t: Tree, a: BlockId, b: BlockId, c: BlockId)
    requires Sound(t) && HopsFall(t) && a in t.blocks && b in t.blocks && c in t.blocks
    ensures IsAncestor(AsDocumented, t, a, a) == Ok(true)
    ensures IsAncestor(AsDocumented, t, a, b) == Ok(true) && IsAncestor(AsDocumented, t, b, a) == Ok(true) ==> a == b
    ensures IsAncestor(AsDocumented, t, a, b) == Ok(true) && IsAncestor(AsDocumented, t, b, c) == Ok(true) ==>
              IsAncestor(AsDocumented, t, a, c) == Ok(true)
    ensures IsAncestor(AsDocumented, t, a, b) == Ok(true) && IsAncestor(AsDocumented, t, a, c) == Ok(true) ==>
              IsAncestor(AsDocumented, t, b, c) == Ok(true) || IsAncestor(AsDocumented, t, c, b) == Ok(true)
  {
    forall x, y | x in {a, b, c} && y in {a, b, c}
      ensures (IsAncestor(AsDocumented, t, x, y) == Ok(true)) <==> Path(t, y) <= Path(t, x)
    {
      IsAncestorDecidesAbove(t, x, y);
      AboveIsPrefix(t, y, x);
    }
  }

  /** Going up to `mid` and then to `target` is going straight to `target`. */
  lemma AncestorComposes(t: Tree, id: BlockId, mid: nat, target: nat)
    requires Sound(t) && HopsFall(t) && id in t.blocks && target <= mid <= t.blocks[id].depth
    ensures AncestorIdAtDepth(AsDocumented, t, id, mid).Ok?
    ensures AncestorIdAtDepth(AsDocumented, t, AncestorIdAtDepth(AsDocumented, t, id, mid).value, target) ==
            AncestorIdAtDepth(AsDocumented, t, id, target)
  {
    QueryFindsAncestor(t, id, mid);
    QueryFindsAncestor(t, id, target);
    PathPrefix(t, id, mid);
    QueryFindsAncestor(t, Path(t, id)[mid], target);
  }
}
