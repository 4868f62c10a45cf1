/** The smallest inputs on which a documented or intended property fails, each built by insertions. */
module SmallTrees {
  import opened Types
  import opened ForkTree
  import opened AncestorWalk
  import opened ForkTreeInsert
  import opened WrittenGuard

  const A := BlockId(0, 0)
  const B := BlockId(0, 1)
  const C := BlockId(1, 1)

  function Named(id: BlockId, parentId: Option<BlockId>): Block {
    Block(ValidSeal, id, parentId, id.number, [])
  }

  function RootOnly(): Tree {
    Tree(map[A := Item(Named(A, None), 0, [], [])], map[0 := [A]])
  }

  function TwoBlocks(): Tree {
    Tree(
      map[A := Item(Named(A, None), 0, [B], []), B := Item(Named(B, Some(A)), 1, [], [])],
      map[0 := [A], 1 := [B]])
  }

  function Siblings(): Tree {
    Tree(
      map[A := Item(Named(A, None), 0, [B, C], []),
          B := Item(Named(B, Some(A)), 1, [], []),
          C := Item(Named(C, Some(A)), 1, [], [])],
      map[0 := [A], 1 := [B, C]])
  }

  function Looping(): Tree {
    Tree(
      map[A := Item(Named(A, Some(B)), 2, [], []), B := Item(Named(B, Some(A)), 1, [A], [])],
      map[0 := [A], 1 := [B], 2 := [A]])
  }

  // ----- How they are reached, with either comparison -----

  lemma RootOnlyReached(g: Guard)
    ensures Terminates(g, EMPTY_TREE) && Insert(g, EMPTY_TREE, Named(A, None)).0 == RootOnly()
    ensures Valid(RootOnly()) && HopsFall(RootOnly())
  {
    EmptyTreeValid();
    SoundHopsFall(EMPTY_TREE);
    InsertFresh(EMPTY_TREE, Named(A, None));
    assert [] + [A] == [A];
    assert Insert(g, EMPTY_TREE, Named(A, None)).0 == RootOnly();
    SoundHopsFall(RootOnly());
  }

  lemma TwoBlocksReached(g: Guard)
    ensures Terminates(g, RootOnly()) && Insert(g, RootOnly(), Named(B, Some(A))).0 == TwoBlocks()
    ensures Valid(TwoBlocks()) && HopsFall(TwoBlocks())
  {
    RootOnlyReached(g);
    assert [] + [B] == [B];
    GrowsTo(g, RootOnly(), A, Named(B, Some(A)), TwoBlocks());
  }

  lemma SiblingsReached(g: Guard)
    ensures Terminates(g, TwoBlocks()) && Insert(g, TwoBlocks(), Named(C, Some(A))).0 == Siblings()
    ensures Valid(Siblings()) && HopsFall(Siblings())
  {
    SecondChild();
    TwoBlocksReached(g);
    GrowsTo(g, TwoBlocks(), A, Named(C, Some(A)), Siblings());
  }

  lemma LoopingReached(g: Guard)
    ensures Terminates(g, TwoBlocks()) && Insert(g, TwoBlocks(), Named(A, Some(B))).0 == Looping()
  {
    RootBelowChild();
    TwoBlocksReached(g);
    BecomesTree(g, TwoBlocks(), B, Named(A, Some(B)), Looping());
  }

  /** The tree after the child has been recorded and filed without back-pointers. */
  function WithLeaf(t: Tree, parent: BlockId, block: Block): Tree
    requires parent in t.blocks
  {
    WithItem(WithChild(t, parent, block.id), Item(block, t.blocks[parent].depth + 1, [], []))
  }

  lemma SecondChild()
    ensures C !in TwoBlocks().blocks && A in TwoBlocks().blocks && TwoBlocks().blocks[A].depth == 0
    ensures WithLeaf(TwoBlocks(), A, Named(C, Some(A))) == Siblings()
  {
    assert [B] + [C] == [B, C];
  }

  lemma RootBelowChild()
    ensures B in TwoBlocks().blocks && TwoBlocks().blocks[B].depth == 1
    ensures WithLeaf(TwoBlocks(), B, Named(A, Some(B))) == Looping()
  {
    assert [] + [A] == [A];
  }

  /** Insertion where no back-pointer is due, with the outcome spelt out. */
  lemma BecomesTree(g: Guard, t: Tree, parent: BlockId, block: Block, t': Tree)
    requires HopsFall(t) && block.parentId == Some(parent) && parent in t.blocks && t.blocks[parent].depth < 3
    requires t' == WithLeaf(t, parent, block)
    ensures Insert(g, t, block).0 == t'
  {
    InsertWithoutSkips(g, t, parent, block);
  }

  lemma GrowsTo(g: Guard, t: Tree, parent: BlockId, block: Block, t': Tree)
    requires Valid(t) && HopsFall(t) && block.id !in t.blocks
    requires block.parentId == Some(parent) && parent in t.blocks && t.blocks[parent].depth < 3
    requires t' == WithLeaf(t, parent, block)
    ensures Insert(g, t, block).0 == t' && Valid(t') && HopsFall(t')
  {
    BecomesTree(g, t, parent, block, t');
    BecomesTree(AsDocumented, t, parent, block, t');
    InsertKeepsValidIffFresh(t, block);
    SoundHopsFall(t');
  }

  // ----- What fails on them -----

  /** As written, a child is refused its own parent. */
  lemma ChildCannotFindParent()
    ensures Valid(TwoBlocks()) && Ancestor(TwoBlocks(), B, 0) == Ok(A)
    ensures AncestorIdAtDepth(AsWritten, TwoBlocks(), B, 0) == Err(InvalidAncestorDepth)
  {
    var t := TwoBlocks();
    TwoBlocksReached(AsWritten);
    assert GoodLink(t, A) && GoodLink(t, B);
    assert Path(t, A) == [A];
  }

  /** The block with number `n` of a chain without forks. */
  function Link(n: nat): Block {
    Named(BlockId(0, n), if n == 0 then None else Some(BlockId(0, n - 1)))
  }

  /** As written, a chain grows by a block while that is not the fifth. */
  lemma LinkAdded(t: Tree, n: nat)
    requires 1 <= n <= 3 && BlockId(0, n - 1) in t.blocks && t.blocks[BlockId(0, n - 1)].depth == n - 1
    ensures var (t', r) := Insert(AsWritten, t, Link(n));
            r == Ok(Unit) && BlockId(0, n) in t'.blocks && t'.blocks[BlockId(0, n)].depth == n
    ensures forall id :: id in Insert(AsWritten, t, Link(n)).0.blocks ==> id in t.blocks || id == BlockId(0, n)
  {
    WrittenInsert(t, Link(n));
  }

  /**
   As written, the fifth block of a chain is refused although its parent is known, and is left behind
   as a child of that parent without being stored.
   */
  lemma FifthBlockRefused()
    ensures var t := WrittenRun(EMPTY_TREE, [Link(0), Link(1), Link(2), Link(3)]);
            var parent, id := BlockId(0, 3), BlockId(0, 4);
            && parent in t.blocks && t.blocks[parent].depth == 3
            && Insert(AsWritten, t, Link(4)).1 == Err(Query(InvalidAncestorDepth))
            && id !in Insert(AsWritten, t, Link(4)).0.blocks
            && id in Insert(AsWritten, t, Link(4)).0.blocks[parent].children
  {
    var t0 := Insert(AsWritten, EMPTY_TREE, Link(0)).0;
    LinkAdded(t0, 1);
    var t1 := Insert(AsWritten, t0, Link(1)).0;
    LinkAdded(t1, 2);
    var t2 := Insert(AsWritten, t1, Link(2)).0;
    LinkAdded(t2, 3);
    var t3 := Insert(AsWritten, t2, Link(3)).0;
    RunOfFour(EMPTY_TREE, Link(0), Link(1), Link(2), Link(3));
    WrittenInsert(t3, Link(4));
  }

  lemma RunOfFour(t: Tree, a: Block, b: Block, c: Block, d: Block)
    ensures WrittenRun(t, [a, b, c, d]) ==
            Insert(AsWritten, Insert(AsWritten, Insert(AsWritten, Insert(AsWritten, t, a).0, b).0, c).0, d).0
  {
    var t1 := Insert(AsWritten, t, a).0;
    var t2 := Insert(AsWritten, t1, b).0;
    assert [a, b, c, d][1..] == [b, c, d] && [b, c, d][1..] == [c, d] && [c, d][1..] == [d] && [d][1..] == [];
    assert WrittenRun(t, [a, b, c, d]) == WrittenRun(t1, [b, c, d]);
    assert WrittenRun(t1, [b, c, d]) == WrittenRun(t2, [c, d]);
    var t3 := Insert(AsWritten, t2, c).0;
    assert WrittenRun(t2, [c, d]) == WrittenRun(t3, [d]);
    assert WrittenRun(t3, [d]) == WrittenRun(Insert(AsWritten, t3, d).0, []);
  }

  /** With either comparison, a sibling is at the same depth and is not called an ancestor. */
  lemma SiblingIsNoAncestor(g: Guard)
    ensures Valid(Siblings()) && Terminates(g, Siblings())
    ensures Siblings().blocks[B].depth == Siblings().blocks[C].depth
    ensures IsAncestor(g, Siblings(), B, C) == Ok(false)
  {
    SiblingsReached(g);
    EqualDepthsCompareIds(g, Siblings(), B, C);
  }

  /** Where the walk stands after `n` moves, if it is still moving. */
  ghost function After(t: Tree, id: BlockId, target: nat, n: nat): (r: Option<BlockId>)
    requires id in t.blocks
    ensures r.Some? ==> r.value in t.blocks
  {
    if n == 0 then Some(id)
    else match After(t, id, target, n - 1)
      case None => None
      case Some(at) =>
        match LoopBody(t, at, target)
        case Return(_) => None
        case Continue(next) => Some(next)
  }

  /**
   With either comparison, reusing an id can leave a cycle of parent links; on it the walk to depth
   0, which the documented comparison lets through, never ends.
   */
  lemma RepeatedIdLoopsForever(g: Guard, n: nat)
    ensures Terminates(g, TwoBlocks()) && Insert(g, TwoBlocks(), Named(A, Some(B))).0 == Looping()
    ensures !Rejects(AsDocumented, Looping().blocks[A].depth, 0)
    ensures After(Looping(), A, 0, n) == Some(if n % 2 == 0 then A else B)
  {
    LoopingReached(g);
    LoopFrom(n);
  }

  lemma {:induction false} LoopFrom(n: nat)
    ensures After(Looping(), A, 0, n) == Some(if n % 2 == 0 then A else B)
  {
    if n > 0 {
      LoopFrom(n - 1);
    }
  }
}
