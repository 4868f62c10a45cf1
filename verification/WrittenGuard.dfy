/**
 The ancestor query with the comparison as it stands in the source: when it meets the
 documented contract, and what becomes of insertion.
 */
module WrittenGuard {
  import opened Types
  import opened Powers
  import opened ForkTree
  import opened AncestorWalk
  import opened ForkTreeInsert

  // ----- Queries -----

  /** The query as written never looks past the block it starts from. */
  lemma WrittenQuery(t: Tree, id: BlockId, target: nat)
    ensures AncestorIdAtDepth(AsWritten, t, id, target) ==
            if id !in t.blocks then Err(UnknownBlock)
            else if target == t.blocks[id].depth then Ok(t.blocks[id].block.id)
            else Err(InvalidAncestorDepth)
  {
  }

  /** On a sound tree it meets the documented contract exactly when no strict ancestor is asked for. */
  lemma WrittenQueryAgreesIff(t: Tree, id: BlockId, target: nat)
    requires Sound(t)
    ensures AncestorIdAtDepth(AsWritten, t, id, target) == Ancestor(t, id, target) <==>
            id !in t.blocks || target >= t.blocks[id].depth
  {
    if id in t.blocks {
      assert GoodLink(t, id);
    }
  }

  /** Likewise `is_ancestor` is right exactly when the candidate is not shallower than the block. */
  lemma WrittenIsAncestorAgreesIff(t: Tree, id: BlockId, a: BlockId)
    requires Sound(t) && HopsFall(t)
    ensures IsAncestor(AsWritten, t, id, a) == IsAncestor(AsDocumented, t, id, a) <==>
            id !in t.blocks || a !in t.blocks || t.blocks[a].depth >= t.blocks[id].depth
  {
    if a in t.blocks {
      QueryFindsAncestor(t, id, t.blocks[a].depth);
      WrittenQuery(t, id, t.blocks[a].depth);
    }
  }

  /**
   At equal depths `is_ancestor` compares ids, whichever comparison heads the query: it is true for
   the block itself and for no other.
   */
  lemma EqualDepthsCompareIds(g: Guard, t: Tree, id: BlockId, a: BlockId)
    requires Sound(t) && Terminates(g, t) && id in t.blocks && a in t.blocks
    requires t.blocks[a].depth == t.blocks[id].depth
    ensures IsAncestor(g, t, id, a) == Ok(a == id)
  {
    assert GoodLink(t, id);
  }

  // ----- Insertion -----

  /** A depth divisible by four always has a pointer to resolve. */
  lemma SomeSkip(depth: nat)
    requires depth >= 4 && depth % 4 == 0
    ensures AncestorDepths(depth) != []
  {
    assert Pow4(1) == 4 by { assert Pow4(0) == 1; }
    assert ReachedBy(depth, Pow4(1), depth - 4);
    AncestorDepthsExact(depth, depth - 4);
  }

  /** Pointers to depths strictly above the parent are all refused. */
  lemma WrittenCollectFails(t: Tree, parent: BlockId, targets: seq<nat>)
    requires parent in t.blocks && targets != []
    requires forall i :: 0 <= i < |targets| ==> targets[i] < t.blocks[parent].depth
    ensures CollectAncestors(AsWritten, t, parent, targets, []) == Err(InvalidAncestorDepth)
  {
  }

  /** On any tree at all: insertion succeeds exactly for roots and under parents of depth not 3 modulo 4. */
  lemma WrittenInsert(t: Tree, block: Block)
    ensures Insert(AsWritten, t, block) ==
            match block.parentId
            case None => (WithItem(t, Item(block, 0, [], [])), Ok(Unit))
            case Some(p) =>
              if p !in t.blocks then (t, Err(UnknownParent))
              else if t.blocks[p].depth % 4 == 3 then (WithChild(t, p, block.id), Err(Query(InvalidAncestorDepth)))
              else (WithItem(WithChild(t, p, block.id), Item(block, t.blocks[p].depth + 1, [], [])), Ok(Unit))
  {
    if block.parentId.Some? && block.parentId.value in t.blocks {
      var p := block.parentId.value;
      var depth := t.blocks[p].depth + 1;
      if depth % 4 != 0 {
        InsertWithoutSkips(AsWritten, t, p, block);
      } else {
        WrittenInsertRefused(t, p, block);
      }
    }
  }

  lemma WrittenInsertRefused(t: Tree, p: BlockId, block: Block)
    requires block.parentId == Some(p) && p in t.blocks && t.blocks[p].depth % 4 == 3
    ensures Insert(AsWritten, t, block) == (WithChild(t, p, block.id), Err(Query(InvalidAncestorDepth)))
  {
    var depth := t.blocks[p].depth + 1;
    SomeSkip(depth);
    TargetsAboveParent(depth);
    WrittenCollectFails(WithChild(t, p, block.id), p, AncestorDepths(depth));
  }

  lemma TargetsAboveParent(depth: nat)
    ensures forall i :: 0 <= i < |AncestorDepths(depth)| ==> AncestorDepths(depth)[i] < depth - 1
  {
    forall i | 0 <= i < |AncestorDepths(depth)| ensures AncestorDepths(depth)[i] < depth - 1 {
      var k := PointerLevel(depth, AncestorDepths(depth)[i]);
      assert Pow4(k) == 4 * Pow4(k - 1);
    }
  }

  lemma NewItemWithoutSkips(t: Tree, p: BlockId, block: Block)
    requires Linked(t) && block.parentId == Some(p) && p in t.blocks && t.blocks[p].depth % 4 != 3
    ensures NewItem(t, block) == Item(block, t.blocks[p].depth + 1, [], [])
  {
    NoSkips(t.blocks[p].depth + 1);
  }

  /** On a sound tree it does what the documented insertion does, except under depths 3 modulo 4. */
  lemma WrittenInsertAgreesIff(t: Tree, block: Block)
    requires Sound(t) && HopsFall(t)
    ensures Insert(AsWritten, t, block) == Insert(AsDocumented, t, block) <==>
            !(block.parentId.Some? && block.parentId.value in t.blocks &&
              t.blocks[block.parentId.value].depth % 4 == 3)
  {
    if block.parentId.Some? && block.parentId.value in t.blocks {
      var p := block.parentId.value;
      var written, documented := Insert(AsWritten, t, block), Insert(AsDocumented, t, block);
      assert documented == (WithItem(WithChild(t, p, block.id), NewItem(t, block)), Ok(Unit)) by {
        InsertChildResult(t, p, block);
      }
      if t.blocks[p].depth % 4 == 3 {
        assert written.1.Err? by { WrittenInsert(t, block); }
      } else {
        assert written == documented by { WrittenInsert(t, block); NewItemWithoutSkips(t, p, block); }
      }
    }
  }

  // ----- Runs, with any ids -----

  function WrittenRun(t: Tree, blocks: seq<Block>): Tree
    decreases |blocks|
  {
    if blocks == [] then t else WrittenRun(Insert(AsWritten, t, blocks[0]).0, blocks[1..])
  }

  predicate Shallow(t: Tree) {
    forall id :: id in t.blocks ==> t.blocks[id].depth <= 3
  }

  lemma WrittenInsertStaysShallow(t: Tree, block: Block)
    requires Shallow(t)
    ensures Shallow(Insert(AsWritten, t, block).0)
  {
    WrittenInsert(t, block);
  }

  lemma {:induction false} RunStaysShallow(t: Tree, blocks: seq<Block>)
    requires Shallow(t)
    ensures Shallow(WrittenRun(t, blocks))
    decreases |blocks|
  {
    if blocks != [] {
      WrittenInsertStaysShallow(t, blocks[0]);
      RunStaysShallow(Insert(AsWritten, t, blocks[0]).0, blocks[1..]);
    }
  }

  /**
   No run of insertions from the empty tree, even one that repeats ids, stores a block of depth 4
   or more: every insertion under a depth-3 parent reports a query error, after that parent has
   already recorded the child.
   */
  lemma ChainStopsAtDepthThree(blocks: seq<Block>, block: Block)
    ensures var t := WrittenRun(EMPTY_TREE, blocks);
            && (forall id :: id in t.blocks ==> t.blocks[id].depth <= 3)
            && (forall p :: p in t.blocks && t.blocks[p].depth == 3 && block.parentId == Some(p) ==>
                  && Insert(AsWritten, t, block).1 == Err(Query(InvalidAncestorDepth))
                  && Insert(AsWritten, t, block).0 == WithChild(t, p, block.id)
                  && block.id in Insert(AsWritten, t, block).0.blocks[p].children)
  {
    RunStaysShallow(EMPTY_TREE, blocks);
    WrittenInsert(WrittenRun(EMPTY_TREE, blocks), block);
  }
}
