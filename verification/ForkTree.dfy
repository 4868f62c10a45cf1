/**
 The in-memory fork tree as a value: its queries and its insertion, each written as the
 source executes it, and the reference notion of ancestry (the path of parent links) they
 are measured against.
 */
module ForkTree {
  import opened Types
  import opened Powers

  datatype Item = Item(
    block: Block,
    depth: nat,
    children: seq<BlockId>,
    ancestors: seq<(nat, BlockId)>)

  datatype Tree = Tree(blocks: map<BlockId, Item>, depths: map<nat, seq<BlockId>>)

  datatype QueryError = UnknownBlock | InvalidAncestorDepth

  datatype InsertError = UnknownParent | Query(query: QueryError)

  /**
   The test at the head of an ancestor query.  `AsWritten` is the comparison in the source;
   `AsDocumented` is the one that the documentation of the error describes.
   */
  datatype Guard = AsWritten | AsDocumented

  predicate Rejects(g: Guard, blockDepth: nat, ancestorDepth: nat) {
    match g
    case AsWritten => blockDepth > ancestorDepth
    case AsDocumented => blockDepth < ancestorDepth
  }

  const EMPTY_TREE := Tree(map[], map[])

  // ----- The skip distances -----

  const SKIP_COUNT: nat := 16

  /** The distances 4, 16, ..., 4^16, in order. */
  function SkipDepths(): (r: seq<nat>)
    ensures |r| == 16
    ensures forall i :: 0 <= i < 16 ==> r[i] == Pow4(i + 1)
  {
    seq(SKIP_COUNT, i requires i >= 0 => Pow4(i + 1))
  }

  predicate Skips(depth: nat, skip: nat)
    requires skip >= 1
  {
    depth >= skip && depth % skip == 0
  }

  /** The depths reached from `depth` by those of the given skips that divide it. */
  function BackDepths(depth: nat, skips: seq<nat>): (r: seq<nat>)
    requires forall i :: 0 <= i < |skips| ==> skips[i] >= 1
    ensures forall d :: d in r ==> d < depth
  {
    if skips == [] then []
    else
      var n := |skips| - 1;
      var init := BackDepths(depth, skips[..n]);
      if Skips(depth, skips[n]) then init + [depth - skips[n]] else init
  }

  ghost predicate ReachedBy(depth: nat, skip: nat, d: nat) {
    skip >= 1 && Skips(depth, skip) && d == depth - skip
  }

  lemma {:induction false} BackDepthsExact(depth: nat, skips: seq<nat>, d: nat)
    requires forall i :: 0 <= i < |skips| ==> skips[i] >= 1
    ensures d in BackDepths(depth, skips) <==> exists i :: 0 <= i < |skips| && ReachedBy(depth, skips[i], d)
  {
    if skips != [] {
      var n := |skips| - 1;
      var init := skips[..n];
      BackDepthsExact(depth, init, d);
      if i :| 0 <= i < n && ReachedBy(depth, init[i], d) {
        assert ReachedBy(depth, skips[i], d);
      }
      if i :| 0 <= i < |skips| && ReachedBy(depth, skips[i], d) {
        assert i < n ==> ReachedBy(depth, init[i], d);
      }
    }
  }

  /** Drops repetitions, keeping first occurrences. */
  function Unique(s: seq<nat>): (r: seq<nat>)
    ensures NoDup(r)
    ensures forall x :: x in r <==> x in s
  {
    if s == [] then []
    else
      var n := |s| - 1;
      var init := Unique(s[..n]);
      assert s == s[..n] + [s[n]];
      if s[n] in init then init else init + [s[n]]
  }

  /** The depths for which a block at `depth` keeps a back-pointer. */
  function AncestorDepths(depth: nat): (r: seq<nat>)
    ensures NoDup(r)
    ensures forall i :: 0 <= i < |r| ==> r[i] < depth
  {
    var back := BackDepths(depth, SkipDepths());
    var r := Unique(back);
    assert forall i :: 0 <= i < |r| ==> r[i] in r && r[i] in back;
    r
  }

  /** Back-pointers are kept for exactly the distances 4^1 .. 4^16 that divide the depth. */
  lemma AncestorDepthsExact(depth: nat, d: nat)
    ensures d in AncestorDepths(depth) <==>
            exists k :: 1 <= k <= 16 && ReachedBy(depth, Pow4(k), d)
  {
    var skips := SkipDepths();
    BackDepthsExact(depth, skips, d);
    if i :| 0 <= i < |skips| && ReachedBy(depth, skips[i], d) {
      assert ReachedBy(depth, Pow4(i + 1), d);
    }
    if k :| 1 <= k <= 16 && ReachedBy(depth, Pow4(k), d) {
      assert skips[k - 1] == Pow4(k);
    }
  }

  // ----- Queries -----

  function BlockOf(t: Tree, id: BlockId): Result<Block, QueryError> {
    if id in t.blocks then Ok(t.blocks[id].block) else Err(UnknownBlock)
  }

  function BlockDepth(t: Tree, id: BlockId): Result<nat, QueryError> {
    if id in t.blocks then Ok(t.blocks[id].depth) else Err(UnknownBlock)
  }

  /** Among the back-pointers not below `target`, the first of least depth. */
  function LowestAtLeast(ancestors: seq<(nat, BlockId)>, target: nat): (r: Option<(nat, BlockId)>)
    ensures r.None? <==> forall i :: 0 <= i < |ancestors| ==> ancestors[i].0 < target
    ensures r.Some? ==> r.value in ancestors && r.value.0 >= target
    ensures r.Some? ==> forall i :: 0 <= i < |ancestors| && ancestors[i].0 >= target ==> r.value.0 <= ancestors[i].0
  {
    if ancestors == [] then None
    else
      var n := |ancestors| - 1;
      var init := LowestAtLeast(ancestors[..n], target);
      var e := ancestors[n];
      if e.0 >= target && (init.None? || e.0 < init.value.0) then Some(e) else init
  }

  /** One iteration of the ancestor walk: it returns, or moves to another known block. */
  datatype LoopStep = Return(result: Result<BlockId, QueryError>) | Continue(next: BlockId)

  function LoopBody(t: Tree, id: BlockId, target: nat): (r: LoopStep)
    requires id in t.blocks
    ensures r.Continue? ==> r.next in t.blocks && t.blocks[id].depth > target
    ensures t.blocks[id].depth == target ==> r == Return(Ok(t.blocks[id].block.id))
    ensures t.blocks[id].depth < target ==> r == Return(Err(InvalidAncestorDepth))
  {
    var item := t.blocks[id];
    if item.depth < target then Return(Err(InvalidAncestorDepth))
    else if item.depth == target then Return(Ok(item.block.id))
    else match item.block.parentId
      case None => Return(Err(InvalidAncestorDepth))
      case Some(parent) =>
        var lowest := LowestAtLeast(item.ancestors, target);
        var next := if lowest.Some? then lowest.value.1 else parent;
        if next in t.blocks then Continue(next) else Return(Err(UnknownBlock))
  }

  /** Every move of the walk goes to a strictly smaller depth. */
  ghost predicate HopsFall(t: Tree) {
    forall id, target :: id in t.blocks && LoopBody(t, id, target).Continue? ==>
      t.blocks[LoopBody(t, id, target).next].depth < t.blocks[id].depth
  }

  function Walk(t: Tree, id: BlockId, target: nat): Result<BlockId, QueryError>
    requires id in t.blocks
    requires HopsFall(t) || t.blocks[id].depth <= target
    decreases t.blocks[id].depth
  {
    match LoopBody(t, id, target)
    case Return(r) => r
    case Continue(next) => Walk(t, next, target)
  }

  /** How often the walk moves to another block. */
  ghost function Hops(t: Tree, id: BlockId, target: nat): nat
    requires id in t.blocks
    requires HopsFall(t) || t.blocks[id].depth <= target
    decreases t.blocks[id].depth
  {
    match LoopBody(t, id, target)
    case Return(_) => 0
    case Continue(next) => 1 + Hops(t, next, target)
  }

  /** What a terminating query needs: with the comparison as written no walk ever moves. */
  ghost predicate Terminates(g: Guard, t: Tree) {
    g.AsDocumented? ==> HopsFall(t)
  }

  function AncestorIdAtDepth(g: Guard, t: Tree, id: BlockId, target: nat): Result<BlockId, QueryError>
    requires Terminates(g, t)
  {
    if id !in t.blocks then Err(UnknownBlock)
    else if Rejects(g, t.blocks[id].depth, target) then Err(InvalidAncestorDepth)
    else Walk(t, id, target)
  }

  function IsAncestor(g: Guard, t: Tree, id: BlockId, ancestor: BlockId): Result<bool, QueryError>
    requires Terminates(g, t)
  {
    match BlockDepth(t, ancestor)
    case Err(e) => Err(e)
    case Ok(d) =>
      match AncestorIdAtDepth(g, t, id, d)
      case Err(e) => Err(e)
      case Ok(found) => Ok(found == ancestor)
  }

  // ----- Insertion -----

  /** The tree after the parent, if any, has recorded its new child. */
  function WithChild(t: Tree, parent: BlockId, child: BlockId): (t': Tree)
    requires parent in t.blocks
  {
    var item := t.blocks[parent];
    t.(blocks := t.blocks[parent := item.(children := item.children + [child])])
  }

  /** The tree after a new item has been entered in both indexes. */
  function WithItem(t: Tree, item: Item): (t': Tree) {
    var listed := if item.depth in t.depths then t.depths[item.depth] else [];
    Tree(t.blocks[item.block.id := item], t.depths[item.depth := listed + [item.block.id]])
  }

  /** The entries found so far are the ancestors at the first of the target depths. */
  predicate Found(g: Guard, t: Tree, parent: BlockId, targets: seq<nat>, found: seq<(nat, BlockId)>)
    requires Terminates(g, t)
  {
    && |found| <= |targets|
    && forall i :: 0 <= i < |found| ==>
         found[i].0 == targets[i] && AncestorIdAtDepth(g, t, parent, targets[i]) == Ok(found[i].1)
  }

  /** Resolves the remaining back-pointers one by one, stopping at the first query that fails. */
  function CollectAncestors(g: Guard, t: Tree, parent: BlockId, targets: seq<nat>, found: seq<(nat, BlockId)>)
    : (r: Result<seq<(nat, BlockId)>, QueryError>)
    requires Terminates(g, t) && Found(g, t, parent, targets, found)
    ensures r.Ok? ==> |r.value| == |targets| && Found(g, t, parent, targets, r.value)
    ensures r.Err? ==> exists i :: 0 <= i < |targets| && AncestorIdAtDepth(g, t, parent, targets[i]) == Err(r.error)
    decreases |targets| - |found|
  {
    if |found| == |targets| then Ok(found)
    else
      var target := targets[|found|];
      match AncestorIdAtDepth(g, t, parent, target)
      case Err(e) => Err(e)
      case Ok(id) => CollectAncestors(g, t, parent, targets, found + [(target, id)])
  }

  /** Recording a child touches nothing that a query looks at. */
  lemma WithChildKeepsQueries(t: Tree, parent: BlockId, child: BlockId)
    requires parent in t.blocks
    ensures forall id, target :: id in t.blocks ==>
              LoopBody(WithChild(t, parent, child), id, target) == LoopBody(t, id, target)
    ensures HopsFall(t) ==> HopsFall(WithChild(t, parent, child))
  {
  }

  /** Insertion: the resulting tree and outcome.  The tree may have changed on failure too. */
  function Insert(g: Guard, t: Tree, block: Block): (Tree, Result<Unit, InsertError>)
    requires Terminates(g, t)
  {
    match block.parentId
    case None => (WithItem(t, Item(block, 0, [], [])), Ok(Unit))
    case Some(parent) =>
      if parent !in t.blocks then (t, Err(UnknownParent))
      else
        WithChildKeepsQueries(t, parent, block.id);
        var recorded := WithChild(t, parent, block.id);
        var depth := t.blocks[parent].depth + 1;
        match CollectAncestors(g, recorded, parent, AncestorDepths(depth), [])
        case Err(e) => (recorded, Err(Query(e)))
        case Ok(ancestors) => (WithItem(recorded, Item(block, depth, [], ancestors)), Ok(Unit))
  }

  // ----- The reference: paths of parent links -----

  predicate GoodLink(t: Tree, id: BlockId)
    requires id in t.blocks
  {
    var item := t.blocks[id];
    item.block.id == id &&
    match item.block.parentId
    case None => item.depth == 0
    case Some(p) => p in t.blocks && item.depth == t.blocks[p].depth + 1
  }

  /** Every block is filed under its id, one deeper than its parent. */
  ghost predicate Linked(t: Tree) {
    forall id {:trigger GoodLink(t, id)} :: id in t.blocks ==> GoodLink(t, id)
  }

  /** Every block is filed under its own id. */
  ghost predicate Filed(t: Tree) {
    forall id :: id in t.blocks ==> t.blocks[id].block.id == id
  }

  /** The ids from the root down to `id`, found by following parent links alone. */
  ghost function Path(t: Tree, id: BlockId): (r: seq<BlockId>)
    requires Linked(t) && id in t.blocks
    ensures |r| == t.blocks[id].depth + 1
    ensures r[|r| - 1] == id
    decreases t.blocks[id].depth
  {
    assert GoodLink(t, id);
    match t.blocks[id].block.parentId
    case None => [id]
    case Some(p) => Path(t, p) + [id]
  }

  /** The back-pointers of every block name the true ancestors at exactly the promised depths. */
  ghost predicate SkipsOk(t: Tree)
    requires Linked(t)
  {
    forall id {:trigger SkipOk(t, id)} :: id in t.blocks ==> SkipOk(t, id)
  }

  ghost predicate SkipOk(t: Tree, id: BlockId)
    requires Linked(t) && id in t.blocks
  {
    t.blocks[id].ancestors == Pointers(Path(t, id), AncestorDepths(t.blocks[id].depth))
  }

  ghost function Pointers(path: seq<BlockId>, targets: seq<nat>): (r: seq<(nat, BlockId)>)
    requires forall i :: 0 <= i < |targets| ==> targets[i] < |path|
    ensures |r| == |targets|
    ensures forall i :: 0 <= i < |r| ==> r[i] == (targets[i], path[targets[i]])
  {
    seq(|targets|, i requires 0 <= i < |targets| => (targets[i], path[targets[i]]))
  }

  /** Children lists are the duplicate-free inverse of the parent links. */
  ghost predicate ChildrenOk(t: Tree) {
    && (forall id :: id in t.blocks ==> NoDup(t.blocks[id].children))
    && (forall id, c {:trigger c in t.blocks[id].children} :: id in t.blocks ==>
          (c in t.blocks[id].children <==> c in t.blocks && t.blocks[c].block.parentId == Some(id)))
  }

  /** The depth index lists every block once, under its own depth, and has no empty list. */
  ghost predicate DepthIndexOk(t: Tree) {
    && (forall d :: d in t.depths ==> t.depths[d] != [] && NoDup(t.depths[d]))
    && (forall d, id :: d in t.depths && id in t.depths[d] ==> id in t.blocks && t.blocks[id].depth == d)
    && (forall id :: id in t.blocks ==> t.blocks[id].depth in t.depths && id in t.depths[t.blocks[id].depth])
  }

  /** The part of the invariant that queries rely on. */
  ghost predicate Sound(t: Tree) {
    Linked(t) && SkipsOk(t)
  }

  ghost predicate Valid(t: Tree) {
    Sound(t) && ChildrenOk(t) && DepthIndexOk(t)
  }
}
