/**
 Insertion with the documented comparison: it keeps the whole tree invariant exactly for
 fresh ids, fails exactly for an unknown parent, and never changes an earlier answer.
 */
module ForkTreeInsert {
  import opened Types
  import opened ForkTree
  import opened AncestorWalk

  // ----- Stability under growth -----

  /** `t'` has every block of `t`, with the same links and pointers. */
  ghost predicate Extends(t: Tree, t': Tree) {
    forall id :: id in t.blocks ==>
      && id in t'.blocks
      && t'.blocks[id].block == t.blocks[id].block
      && t'.blocks[id].depth == t.blocks[id].depth
      && t'.blocks[id].ancestors == t.blocks[id].ancestors
  }

  lemma {:induction false} PathStable(t: Tree, t': Tree, id: BlockId)
    requires Linked(t) && Linked(t') && Extends(t, t') && id in t.blocks
    ensures Path(t', id) == Path(t, id)
    decreases t.blocks[id].depth
  {
    assert GoodLink(t, id);
    if t.blocks[id].block.parentId.Some? {
      PathStable(t, t', t.blocks[id].block.parentId.value);
    }
  }

  lemma PathsStable(t: Tree, t': Tree)
    requires Linked(t) && Linked(t') && Extends(t, t')
    ensures forall id :: id in t.blocks ==> Path(t', id) == Path(t, id)
  {
    forall id | id in t.blocks ensures Path(t', id) == Path(t, id) {
      PathStable(t, t', id);
    }
  }

  // ----- The two updates -----

  lemma WithChildSound(t: Tree, parent: BlockId, child: BlockId)
    requires Sound(t) && parent in t.blocks
    ensures Sound(WithChild(t, parent, child))
    ensures Extends(t, WithChild(t, parent, child))
  {
    var t' := WithChild(t, parent, child);
    forall id | id in t'.blocks ensures GoodLink(t', id) {
      assert GoodLink(t, id);
    }
    forall id | id in t'.blocks ensures SkipOk(t', id) {
      assert SkipOk(t, id);
      PathStable(t, t', id);
    }
  }

  /** On a sound tree the pointers of a new child all resolve, to the true ancestors. */
  lemma CollectFinds(t: Tree, parent: BlockId, path: seq<BlockId>, targets: seq<nat>)
    requires Sound(t) && HopsFall(t) && parent in t.blocks && Path(t, parent) <= path
    requires forall i :: 0 <= i < |targets| ==> targets[i] <= t.blocks[parent].depth
    ensures CollectAncestors(AsDocumented, t, parent, targets, []) == Ok(Pointers(path, targets))
  {
    var r := CollectAncestors(AsDocumented, t, parent, targets, []);
    forall i | 0 <= i < |targets|
      ensures AncestorIdAtDepth(AsDocumented, t, parent, targets[i]) == Ok(path[targets[i]])
    {
      QueryFindsAncestor(t, parent, targets[i]);
    }
    assert r.Ok?;
    assert r.value == Pointers(path, targets);
  }

  /** The path a block will have once it is in the tree. */
  ghost function NewPath(t: Tree, block: Block): (r: seq<BlockId>)
    requires Linked(t)
    requires block.parentId.Some? ==> block.parentId.value in t.blocks
  {
    match block.parentId
    case None => [block.id]
    case Some(p) => Path(t, p) + [block.id]
  }

  lemma WithItemSound(t: Tree, item: Item)
    requires Sound(t) && item.block.id !in t.blocks
    requires item.block.parentId.Some? ==> item.block.parentId.value in t.blocks
    requires item.depth == |NewPath(t, item.block)| - 1
    requires item.ancestors == Pointers(NewPath(t, item.block), AncestorDepths(item.depth))
    ensures Sound(WithItem(t, item)) && Extends(t, WithItem(t, item))
    ensures Path(WithItem(t, item), item.block.id) == NewPath(t, item.block)
  {
    var t' := WithItem(t, item);
    forall id | id in t'.blocks ensures GoodLink(t', id) {
      assert id in t.blocks ==> GoodLink(t, id);
    }
    PathsStable(t, t');
    forall id | id in t'.blocks ensures SkipOk(t', id) {
      assert id in t.blocks ==> SkipOk(t, id);
    }
  }

  lemma WithChildDepthIndex(t: Tree, parent: BlockId, child: BlockId)
    requires DepthIndexOk(t) && parent in t.blocks
    ensures DepthIndexOk(WithChild(t, parent, child))
  {
  }

  lemma WithItemDepthIndex(t: Tree, item: Item)
    requires DepthIndexOk(t) && item.block.id !in t.blocks
    ensures DepthIndexOk(WithItem(t, item))
  {
  }

  lemma WithItemChildren(t: Tree, item: Item)
    requires ChildrenOk(t) && item.block.id !in t.blocks && item.block.parentId.None? && item.children == []
    requires forall id :: id in t.blocks ==> t.blocks[id].block.parentId != Some(item.block.id)
    ensures ChildrenOk(WithItem(t, item))
  {
  }

  lemma WithBothChildren(t: Tree, parent: BlockId, item: Item)
    requires ChildrenOk(t) && item.block.id !in t.blocks && item.block.parentId == Some(parent) && item.children == []
    requires parent in t.blocks
    requires forall id :: id in t.blocks ==> t.blocks[id].block.parentId != Some(item.block.id)
    ensures ChildrenOk(WithItem(WithChild(t, parent, item.block.id), item))
  {
    AppendKeepsNoDup(t.blocks[parent].children, item.block.id);
  }

  lemma NoOrphans(t: Tree, newId: BlockId)
    requires Linked(t) && newId !in t.blocks
    ensures forall id :: id in t.blocks ==> t.blocks[id].block.parentId != Some(newId)
  {
    forall id | id in t.blocks ensures t.blocks[id].block.parentId != Some(newId) {
      assert GoodLink(t, id);
    }
  }

  // ----- Insertion -----

  ghost predicate ParentKnown(t: Tree, block: Block) {
    block.parentId.None? || block.parentId.value in t.blocks
  }

  /** What a successful insertion of a fresh block makes of a valid tree. */
  ghost predicate Grown(t: Tree, block: Block, t': Tree) {
    && Valid(t) && Valid(t') && Extends(t, t') && ParentKnown(t, block)
    && t'.blocks.Keys == t.blocks.Keys + {block.id}
    && t'.blocks[block.id].block == block
    && Path(t', block.id) == NewPath(t, block)
  }

  lemma EmptyTreeValid()
    ensures Valid(EMPTY_TREE)
  {
  }

  /** The item that insertion makes for a block with a known parent. */
  ghost function NewItem(t: Tree, block: Block): (r: Item)
    requires Linked(t) && ParentKnown(t, block)
  {
    var depth := |NewPath(t, block)| - 1;
    Item(block, depth, [], Pointers(NewPath(t, block), AncestorDepths(depth)))
  }

  /** The pointers of a new child resolve to the ancestors on the path it will have. */
  lemma ChildPointers(t: Tree, parent: BlockId, block: Block)
    requires Sound(t) && HopsFall(t) && block.parentId == Some(parent) && parent in t.blocks
    ensures var recorded := WithChild(t, parent, block.id);
            && HopsFall(recorded)
            && CollectAncestors(AsDocumented, recorded, parent, AncestorDepths(t.blocks[parent].depth + 1), []) ==
               Ok(NewItem(t, block).ancestors)
  {
    var recorded := WithChild(t, parent, block.id);
    WithChildKeepsQueries(t, parent, block.id);
    WithChildSound(t, parent, block.id);
    PathStable(t, recorded, parent);
    CollectFinds(recorded, parent, NewPath(t, block), AncestorDepths(t.blocks[parent].depth + 1));
  }

  /** Insertion under a known parent never fails, whether or not the id is fresh. */
  lemma InsertChildResult(t: Tree, parent: BlockId, block: Block)
    requires Sound(t) && HopsFall(t) && block.parentId == Some(parent) && parent in t.blocks
    ensures Insert(AsDocumented, t, block) == (WithItem(WithChild(t, parent, block.id), NewItem(t, block)), Ok(Unit))
  {
    ChildPointers(t, parent, block);
  }

  lemma InsertChild(t: Tree, parent: BlockId, block: Block)
    requires Valid(t) && HopsFall(t)
    requires block.id !in t.blocks && block.parentId == Some(parent) && parent in t.blocks
    ensures Insert(AsDocumented, t, block).1 == Ok(Unit)
    ensures Grown(t, block, Insert(AsDocumented, t, block).0)
  {
    InsertChildResult(t, parent, block);
    var recorded := WithChild(t, parent, block.id);
    var item := NewItem(t, block);
    WithChildSound(t, parent, block.id);
    PathStable(t, recorded, parent);
    WithItemSound(recorded, item);
    NoOrphans(t, block.id);
    WithBothChildren(t, parent, item);
    WithChildDepthIndex(t, parent, block.id);
    WithItemDepthIndex(recorded, item);
  }

  lemma InsertRoot(t: Tree, block: Block)
    requires Valid(t) && HopsFall(t)
    requires block.id !in t.blocks && block.parentId.None?
    ensures Insert(AsDocumented, t, block).1 == Ok(Unit)
    ensures Grown(t, block, Insert(AsDocumented, t, block).0)
  {
    var item := Item(block, 0, [], []);
    NoSkips(0);
    WithItemSound(t, item);
    NoOrphans(t, block.id);
    WithItemChildren(t, item);
    WithItemDepthIndex(t, item);
  }

  /**
   Insertion fails exactly when the parent is unknown, and then leaves the tree as it was: the
   ancestor queries inside it never fail, so recording the child first is harmless.
   */
  lemma InsertFresh(t: Tree, block: Block)
    requires Valid(t) && block.id !in t.blocks
    ensures HopsFall(t)
    ensures var (t', r) := Insert(AsDocumented, t, block);
            if ParentKnown(t, block) then r == Ok(Unit) && Grown(t, block, t')
            else r == Err(UnknownParent) && t' == t
  {
    SoundHopsFall(t);
    match block.parentId
    case None => InsertRoot(t, block);
    case Some(p) => if p in t.blocks { InsertChild(t, p, block); }
  }

  /** The block is refused or has an id that the tree does not have yet. */
  ghost predicate FreshIn(t: Tree, block: Block) {
    block.id !in t.blocks || !ParentKnown(t, block)
  }

  /** Insertion keeps the invariant exactly when the id is fresh or the insertion is refused. */
  lemma InsertKeepsValidIffFresh(t: Tree, block: Block)
    requires Valid(t)
    ensures HopsFall(t)
    ensures Valid(Insert(AsDocumented, t, block).0) <==> FreshIn(t, block)
  {
    SoundHopsFall(t);
    if block.id !in t.blocks {
      InsertFresh(t, block);
    } else if ParentKnown(t, block) {
      ReinsertBreaksDepthIndex(t, block);
    }
  }

  lemma ReinsertBreaksDepthIndex(t: Tree, block: Block)
    requires Valid(t) && HopsFall(t) && block.id in t.blocks && ParentKnown(t, block)
    ensures !DepthIndexOk(Insert(AsDocumented, t, block).0)
  {
    var t' := Insert(AsDocumented, t, block).0;
    match block.parentId
    case None => RelistBreaksIndex(t, t, Item(block, 0, [], []));
    case Some(p) =>
      InsertChildResult(t, p, block);
      RelistBreaksIndex(t, WithChild(t, p, block.id), NewItem(t, block));
  }

  lemma RelistBreaksIndex(t: Tree, recorded: Tree, item: Item)
    requires DepthIndexOk(t) && item.block.id in t.blocks && recorded.depths == t.depths
    ensures !DepthIndexOk(WithItem(recorded, item))
  {
    var t' := WithItem(recorded, item);
    var id := item.block.id;
    var was := t.blocks[id].depth;
    assert id in t.depths[was];
    if was == item.depth {
      AppendKeepsNoDup(t.depths[was], id);
      assert t'.depths[was] == t.depths[was] + [id];
    } else {
      assert was in t'.depths && id in t'.depths[was];
      assert t'.blocks[id] == item;
    }
  }

  // ----- Runs -----

  /** No block is accepted under an id that the tree already has. */
  ghost predicate FreshRun(t: Tree, blocks: seq<Block>)
    requires Valid(t)
    decreases |blocks|
  {
    if blocks == [] then true
    else
      && FreshIn(t, blocks[0])
      && (InsertKeepsValidIffFresh(t, blocks[0]);
          FreshRun(Insert(AsDocumented, t, blocks[0]).0, blocks[1..]))
  }

  /** Inserts one after another, whatever each outcome. */
  ghost function InsertAll(t: Tree, blocks: seq<Block>): (r: Tree)
    requires Valid(t) && FreshRun(t, blocks)
    ensures Valid(r)
    decreases |blocks|
  {
    if blocks == [] then t
    else
      InsertKeepsValidIffFresh(t, blocks[0]);
      InsertAll(Insert(AsDocumented, t, blocks[0]).0, blocks[1..])
  }

  /** Ancestor queries find what parent links find, and err only as documented. */
  ghost predicate AnswersByPath(t: Tree)
    requires Linked(t) && HopsFall(t)
  {
    forall id, d :: AncestorIdAtDepth(AsDocumented, t, id, d) == Ancestor(t, id, d)
  }

  /** `t'` answers every query about the blocks of `t` as `t` does. */
  ghost predicate KeepsAnswers(t: Tree, t': Tree)
    requires HopsFall(t) && HopsFall(t')
  {
    && (forall id :: id in t.blocks ==> BlockOf(t', id) == Ok(t.blocks[id].block) == BlockOf(t, id))
    && (forall id :: id in t.blocks ==> BlockDepth(t', id) == Ok(t.blocks[id].depth) == BlockDepth(t, id))
    && (forall id, d :: id in t.blocks ==>
          AncestorIdAtDepth(AsDocumented, t', id, d) == AncestorIdAtDepth(AsDocumented, t, id, d))
    && (forall id, a :: id in t.blocks && a in t.blocks ==>
          IsAncestor(AsDocumented, t', id, a) == IsAncestor(AsDocumented, t, id, a))
  }

  lemma ExtensionKeepsAnswers(t: Tree, t': Tree)
    requires Sound(t) && Sound(t') && Extends(t, t')
    ensures HopsFall(t) && HopsFall(t') && KeepsAnswers(t, t')
  {
    SoundHopsFall(t);
    SoundHopsFall(t');
    forall id, d | id in t.blocks
      ensures AncestorIdAtDepth(AsDocumented, t', id, d) == AncestorIdAtDepth(AsDocumented, t, id, d)
    {
      QueryFindsAncestor(t, id, d);
      QueryFindsAncestor(t', id, d);
      PathStable(t, t', id);
    }
  }

  /**
   On every tree that a run of insertions reaches, queries are answered by the parent links, and
   whatever was known before the run is answered as before.
   */
  lemma {:induction false} RunsKeepAnswers(t: Tree, blocks: seq<Block>)
    requires Valid(t) && FreshRun(t, blocks)
    ensures HopsFall(t) && HopsFall(InsertAll(t, blocks))
    ensures AnswersByPath(InsertAll(t, blocks))
    ensures KeepsAnswers(t, InsertAll(t, blocks))
  {
    RunExtends(t, blocks);
    var t' := InsertAll(t, blocks);
    ExtensionKeepsAnswers(t, t');
    forall id, d ensures AncestorIdAtDepth(AsDocumented, t', id, d) == Ancestor(t', id, d) {
      QueryFindsAncestor(t', id, d);
    }
  }

  lemma {:induction false} RunExtends(t: Tree, blocks: seq<Block>)
    requires Valid(t) && FreshRun(t, blocks)
    ensures Extends(t, InsertAll(t, blocks))
    decreases |blocks|
  {
    if blocks != [] {
      InsertKeepsValidIffFresh(t, blocks[0]);
      if ParentKnown(t, blocks[0]) {
        InsertFresh(t, blocks[0]);
      }
      RunExtends(Insert(AsDocumented, t, blocks[0]).0, blocks[1..]);
    }
  }

  function Listed(t: Tree, d: nat): seq<BlockId> {
    if d in t.depths then t.depths[d] else []
  }

  /** On any tree, an accepted block comes last among the blocks of its depth and the children of its parent. */
  lemma AcceptedComesLast(g: Guard, t: Tree, block: Block)
    requires Terminates(g, t)
    ensures var (t', r) := Insert(g, t, block);
            r.Ok? ==>
              && block.id in t'.blocks
              && (forall d :: Listed(t', d) == Listed(t, d) + if d == t'.blocks[block.id].depth then [block.id] else [])
              && (forall p :: p in t.blocks && p != block.id ==>
                    p in t'.blocks && t'.blocks[p].children ==
                    t.blocks[p].children + if block.parentId == Some(p) then [block.id] else [])
  {
  }

  // ----- Depths without back-pointers -----

  lemma InsertWithoutSkips(g: Guard, t: Tree, parent: BlockId, block: Block)
    requires Terminates(g, t) && block.parentId == Some(parent) && parent in t.blocks
    requires (t.blocks[parent].depth + 1) % 4 != 0
    ensures Insert(g, t, block) ==
            (WithItem(WithChild(t, parent, block.id), Item(block, t.blocks[parent].depth + 1, [], [])), Ok(Unit))
  {
    NoSkips(t.blocks[parent].depth + 1);
  }

  lemma NoSkips(depth: nat)
    requires depth == 0 || depth % 4 != 0
    ensures AncestorDepths(depth) == []
  {
    if |AncestorDepths(depth)| > 0 {
      assert AncestorDepths(depth)[0] < depth;
      var k := PointerLevel(depth, AncestorDepths(depth)[0]);
      OnlyMultiples(depth, k);
    }
  }

  lemma {:induction false} OnlyMultiples(depth: nat, k: nat)
    requires k >= 1 && depth % Powers.Pow4(k) == 0
    ensures depth % 4 == 0
  {
    if k > 1 {
      Powers.DividesDown(depth, Powers.Pow4(k - 1));
      OnlyMultiples(depth, k - 1);
    }
  }
}
