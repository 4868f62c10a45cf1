/** Inserting again under a known id, with the documented comparison: when queries notice. */
module ReusedId {
  import opened Types
  import opened ForkTree
  import opened AncestorWalk
  import opened ForkTreeInsert
  import opened WrittenGuard

  /** Both trees have the same blocks with the same links and pointers. */
  ghost predicate SameLinks(t: Tree, t': Tree) {
    && t'.blocks.Keys == t.blocks.Keys
    && forall id :: id in t.blocks ==> SameLink(t.blocks[id], t'.blocks[id])
  }

  predicate SameLink(item: Item, item': Item) {
    && item'.block.id == item.block.id && item'.block.parentId == item.block.parentId
    && item'.depth == item.depth && item'.ancestors == item.ancestors
  }

  /** Depth and ancestor queries are still sure to end, and are answered alike. */
  ghost predicate SameAnswers(t: Tree, t': Tree)
    requires HopsFall(t)
  {
    && HopsFall(t')
    && (forall id :: BlockDepth(t', id) == BlockDepth(t, id))
    && (forall id, d :: AncestorIdAtDepth(AsDocumented, t', id, d) == AncestorIdAtDepth(AsDocumented, t, id, d))
  }

  lemma SameLinksSameHops(t: Tree, t': Tree)
    requires SameLinks(t, t') && HopsFall(t)
    ensures HopsFall(t')
    ensures forall id, target :: id in t.blocks ==> LoopBody(t', id, target) == LoopBody(t, id, target)
  {
    forall id, target | id in t.blocks ensures LoopBody(t', id, target) == LoopBody(t, id, target) {
      assert SameLink(t.blocks[id], t'.blocks[id]);
    }
  }

  lemma {:induction false} SameLinksSameWalk(t: Tree, t': Tree, id: BlockId, target: nat)
    requires SameLinks(t, t') && HopsFall(t) && HopsFall(t') && id in t.blocks
    requires forall i, d :: i in t.blocks ==> LoopBody(t', i, d) == LoopBody(t, i, d)
    ensures Walk(t', id, target) == Walk(t, id, target)
    decreases t.blocks[id].depth
  {
    if LoopBody(t, id, target).Continue? {
      SameLinksSameWalk(t, t', LoopBody(t, id, target).next, target);
    }
  }

  lemma SameLinksSameAnswers(t: Tree, t': Tree)
    requires SameLinks(t, t') && HopsFall(t)
    ensures SameAnswers(t, t')
  {
    SameLinksSameHops(t, t');
    forall id, d ensures AncestorIdAtDepth(AsDocumented, t', id, d) == AncestorIdAtDepth(AsDocumented, t, id, d) {
      if id in t.blocks {
        SameLinksSameWalk(t, t', id, d);
      }
    }
  }

  /** What insertion files under the id: the item the link calls for. */
  lemma Reinserted(t: Tree, block: Block)
    requires Sound(t) && HopsFall(t) && block.id in t.blocks && ParentKnown(t, block)
    ensures var t' := Insert(AsDocumented, t, block).0;
            && t'.blocks.Keys == t.blocks.Keys
            && t'.blocks[block.id] == NewItem(t, block)
            && (forall id :: id in t.blocks && id != block.id ==> SameLink(t.blocks[id], t'.blocks[id]))
  {
    match block.parentId
    case None => NoSkips(0);
    case Some(p) => InsertChildResult(t, p, block);
  }

  /** A block at its old place is given its old depth and pointers. */
  lemma SamePlace(t: Tree, block: Block)
    requires Sound(t) && block.id in t.blocks && block.parentId == t.blocks[block.id].block.parentId
    ensures ParentKnown(t, block) && SameLink(t.blocks[block.id], NewItem(t, block))
  {
    assert GoodLink(t, block.id) && SkipOk(t, block.id);
    assert NewPath(t, block) == Path(t, block.id);
  }

  /** No pointer of a child is as deep as its parent. */
  lemma PointersSkipParent(t: Tree, block: Block, q: BlockId)
    requires Linked(t) && block.parentId == Some(q) && q in t.blocks
    ensures LowestAtLeast(NewItem(t, block).ancestors, t.blocks[q].depth).None?
  {
    TargetsAboveParent(t.blocks[q].depth + 1);
  }

  /** A walk of one hop. */
  lemma OneHop(t: Tree, id: BlockId, q: BlockId)
    requires HopsFall(t) && id in t.blocks && q in t.blocks && t.blocks[id].block.parentId == Some(q)
    requires t.blocks[id].depth == t.blocks[q].depth + 1 && t.blocks[q].block.id == q
    requires LowestAtLeast(t.blocks[id].ancestors, t.blocks[q].depth).None?
    ensures AncestorIdAtDepth(AsDocumented, t, id, t.blocks[q].depth) == Ok(q)
  {
    var d := t.blocks[q].depth;
    assert LoopBody(t, id, d) == Continue(q) && LoopBody(t, q, d) == Return(Ok(q));
    assert Walk(t, id, d) == Walk(t, q, d);
  }

  /** A block at a new place of the same depth answers with its new parent. */
  lemma NewParentAnswers(t: Tree, block: Block, q: BlockId)
    requires Sound(t) && HopsFall(t) && block.id in t.blocks && block.parentId == Some(q) && q in t.blocks
    requires t.blocks[q].depth + 1 == t.blocks[block.id].depth
    ensures var t' := Insert(AsDocumented, t, block).0;
            HopsFall(t') ==> AncestorIdAtDepth(AsDocumented, t', block.id, t.blocks[q].depth) == Ok(q)
  {
    var t' := Insert(AsDocumented, t, block).0;
    Reinserted(t, block);
    PointersSkipParent(t, block, q);
    assert GoodLink(t, q) && SameLink(t.blocks[q], t'.blocks[q]);
    if HopsFall(t') {
      OneHop(t', block.id, q);
    }
  }

  /**
   Inserting again under a known id changes no depth or ancestor answer if and only if the block keeps
   its parent; with another parent, an answer about that very block changes or a walk may not end.
   */
  lemma ReinsertKeepsAnswersIff(t: Tree, block: Block)
    requires Sound(t) && HopsFall(t) && block.id in t.blocks && ParentKnown(t, block)
    ensures SameAnswers(t, Insert(AsDocumented, t, block).0) <==>
            block.parentId == t.blocks[block.id].block.parentId
  {
    var t', old' := Insert(AsDocumented, t, block).0, t.blocks[block.id];
    Reinserted(t, block);
    assert GoodLink(t, block.id);
    if block.parentId == old'.block.parentId {
      SamePlace(t, block);
      SameLinksSameAnswers(t, t');
    } else if NewItem(t, block).depth != old'.depth {
      assert BlockDepth(t', block.id) != BlockDepth(t, block.id);
    } else {
      var p, q := old'.block.parentId.value, block.parentId.value;
      NewParentAnswers(t, block, q);
      QueryFindsAncestor(t, block.id, t.blocks[q].depth);
      assert Path(t, block.id) == Path(t, p) + [block.id];
    }
  }
}
