/**
 A fork tree and a flat state used without a transaction: insertions, which may fail half-way, and
 applications of changesets, in any order.  Which readings hold on everything they reach.
 */
module StoreRuns {
  import opened Types
  import opened ForkTree
  import opened AncestorWalk
  import opened ForkTreeInsert
  import opened FlatState
  import opened MemoryForkTree
  import opened MemoryFlatState
  import opened WrittenGuard
  import opened SearchOrder
  import opened SmallTrees

  datatype Store = Store(tree: Tree, state: State)

  datatype Op = Insertion(block: Block) | Application(changes: seq<Change>, id: BlockId)

  const EMPTY_STORE := Store(EMPTY_TREE, map[])

  /** One operation, whatever its outcome; a failed insertion may leave a recorded child behind. */
  function StoreStep(g: Guard, s: Store, op: Op): Store
    requires Terminates(g, s.tree)
  {
    match op
    case Insertion(block) => s.(tree := Insert(g, s.tree, block).0)
    case Application(changes, id) =>
      match BlockDepth(s.tree, id)
      case Err(_) => s
      case Ok(d) => s.(state := ApplyChanges(s.state, changes, d, id))
  }

  // ----- Runs with fresh ids -----

  /** The conditions under which every reading of a known block is the promised one. */
  ghost predicate Readable(s: Store) {
    Sound(s.tree) && Placed(s.tree, s.state)
  }

  /** A block is not accepted under a known id. */
  ghost predicate FreshOp(g: Guard, s: Store, op: Op)
    requires Terminates(g, s.tree)
  {
    op.Insertion? && Insert(g, s.tree, op.block).1.Ok? ==> op.block.id !in s.tree.blocks
  }

  lemma RootKeepsSound(t: Tree, block: Block)
    requires Sound(t) && block.parentId.None? && block.id !in t.blocks
    ensures Sound(WithItem(t, Item(block, 0, [], []))) && Extends(t, WithItem(t, Item(block, 0, [], [])))
  {
    NoSkips(0);
    WithItemSound(t, Item(block, 0, [], []));
  }

  lemma ChildKeepsSound(t: Tree, p: BlockId, block: Block)
    requires Sound(t) && block.parentId == Some(p) && p in t.blocks && block.id !in t.blocks
    ensures var t' := WithItem(WithChild(t, p, block.id), NewItem(t, block)); Sound(t') && Extends(t, t')
  {
    var recorded := WithChild(t, p, block.id);
    WithChildSound(t, p, block.id);
    PathStable(t, recorded, p);
    WithItemSound(recorded, NewItem(t, block));
  }

  /** Insertion keeps queries sound with either comparison, also where it fails and leaves a child recorded. */
  lemma InsertKeepsSound(g: Guard, t: Tree, block: Block)
    requires Sound(t) && HopsFall(t)
    requires Insert(g, t, block).1.Ok? ==> block.id !in t.blocks
    ensures Sound(Insert(g, t, block).0) && Extends(t, Insert(g, t, block).0)
  {
    if block.parentId.None? {
      RootKeepsSound(t, block);
    } else if block.parentId.value in t.blocks {
      var p := block.parentId.value;
      WrittenInsert(t, block);
      InsertChildResult(t, p, block);
      WithChildSound(t, p, block.id);
      if g.AsDocumented? || t.blocks[p].depth % 4 != 3 {
        WrittenInsertAgreesIff(t, block);
        ChildKeepsSound(t, p, block);
      }
    }
  }

  lemma StepKeepsReadable(g: Guard, s: Store, op: Op)
    requires Readable(s) && HopsFall(s.tree) && FreshOp(g, s, op)
    ensures Readable(StoreStep(g, s, op)) && Extends(s.tree, StoreStep(g, s, op).tree)
  {
    match op
    case Insertion(block) => InsertKeepsSound(g, s.tree, block);
    case Application(changes, id) =>
      if id in s.tree.blocks {
        ApplyKeepsPlaced(s.tree, s.state, changes, id);
      }
  }

  ghost predicate FreshOps(g: Guard, s: Store, ops: seq<Op>)
    requires Readable(s)
    decreases |ops|
  {
    ops != [] ==>
      && (SoundHopsFall(s.tree); FreshOp(g, s, ops[0]))
      && (SoundHopsFall(s.tree); StepKeepsReadable(g, s, ops[0]); FreshOps(g, StoreStep(g, s, ops[0]), ops[1..]))
  }

  ghost function StoreRun(g: Guard, s: Store, ops: seq<Op>): (r: Store)
    requires Readable(s) && FreshOps(g, s, ops)
    decreases |ops|
  {
    if ops == [] then s
    else
      SoundHopsFall(s.tree);
      StepKeepsReadable(g, s, ops[0]);
      StoreRun(g, StoreStep(g, s, ops[0]), ops[1..])
  }

  /**
   Every tree and state that insertions and applications with fresh ids reach, failing insertions
   included, meet the conditions under which a query has its promised outcome.
   */
  lemma {:induction false} EveryStoreReadable(g: Guard, s: Store, ops: seq<Op>)
    requires Readable(s) && FreshOps(g, s, ops)
    ensures Readable(StoreRun(g, s, ops)) && HopsFall(StoreRun(g, s, ops).tree)
    decreases |ops|
  {
    SoundHopsFall(s.tree);
    if ops != [] {
      StepKeepsReadable(g, s, ops[0]);
      EveryStoreReadable(g, StoreStep(g, s, ops[0]), ops[1..]);
    }
  }

  lemma EmptyStoreReadable()
    ensures Readable(EMPTY_STORE)
  {
  }

  // ----- Runs with any ids, as written -----

  function WrittenStoreRun(s: Store, ops: seq<Op>): Store
    decreases |ops|
  {
    if ops == [] then s else WrittenStoreRun(StoreStep(AsWritten, s, ops[0]), ops[1..])
  }

  lemma WrittenInsertKeepsFiled(t: Tree, block: Block)
    requires Filed(t)
    ensures Filed(Insert(AsWritten, t, block).0) && t.blocks.Keys <= Insert(AsWritten, t, block).0.blocks.Keys
  {
    WrittenInsert(t, block);
  }

  /**
   On every tree and state reached as written, whatever ids are reused, blocks are filed under their
   own ids and writers are known.
   */
  lemma {:induction false} WrittenRunsStayFiled(s: Store, ops: seq<Op>)
    requires Filed(s.tree) && KnownWriters(s.tree, s.state)
    ensures Filed(WrittenStoreRun(s, ops).tree)
    ensures KnownWriters(WrittenStoreRun(s, ops).tree, WrittenStoreRun(s, ops).state)
    decreases |ops|
  {
    if ops != [] {
      match ops[0] {
        case Insertion(block) => WrittenInsertKeepsFiled(s.tree, block);
        case Application(changes, id) =>
          if id in s.tree.blocks {
            ApplyKeepsWriters(s.tree, s.state, changes, id);
          }
      }
      WrittenRunsStayFiled(StoreStep(AsWritten, s, ops[0]), ops[1..]);
    }
  }

  // ----- Queries on what runs reach -----

  /** On every store that a run with fresh ids reaches, a query has its promised outcome. */
  method Query(g: Guard, s: Store, ghost ops: seq<Op>, key: Key, id: BlockId)
    returns (r: Result<Option<Value>, QueryError>)
    requires (EmptyStoreReadable(); FreshOps(g, EMPTY_STORE, ops) && s == StoreRun(g, EMPTY_STORE, ops))
    requires id in s.tree.blocks
    ensures Readable(s) && r == Promised(g, s.tree, s.state, key, id)
  {
    EveryStoreReadable(g, EMPTY_STORE, ops);
    var tree := new MemoryForkTree.Of(s.tree);
    var state := new MemoryFlatState.Of(s.state);
    r := state.Get(g, key, id, tree);
  }

  /**
   On every store that a run as written reaches, with any ids, a query of a known block returns one of
   the outcomes of the deepest depth that decides, and inherits nothing.
   */
  method WrittenStoreQuery(s: Store, ghost ops: seq<Op>, key: Key, id: BlockId)
    returns (r: Result<Option<Value>, QueryError>)
    requires s == WrittenStoreRun(EMPTY_STORE, ops)
    ensures Filed(s.tree) && KnownWriters(s.tree, s.state)
    ensures id in s.tree.blocks ==> WrittenOutcome(s.tree, s.state, key, id, r)
    ensures id !in s.tree.blocks ==> r == if key in s.state then Err(UnknownBlock) else Ok(None)
  {
    WrittenRunsStayFiled(EMPTY_STORE, ops);
    var tree := new MemoryForkTree.Of(s.tree);
    var state := new MemoryFlatState.Of(s.state);
    r := state.Get(AsWritten, key, id, tree);
  }

  // ----- An outcome that depends on the order -----

  /** Two roots write the key, and then the second is inserted again, below the first. */
  function MovedRoot(k: Key, v: Value): seq<Op> {
    [Insertion(Named(A, None)), Insertion(Named(B, None)),
     Application([(k, Some(v))], A), Application([(k, Some(v))], B), Insertion(Named(B, Some(A)))]
  }

  lemma RunStep(s: Store, ops: seq<Op>)
    requires ops != []
    ensures WrittenStoreRun(s, ops) == WrittenStoreRun(StoreStep(AsWritten, s, ops[0]), ops[1..])
  {
  }

  function TwoWrites(k: Key, v: Value): State {
    ApplyChanges(ApplyChanges(map[], [(k, Some(v))], 0, A), [(k, Some(v))], 0, B)
  }

  lemma MovedRootReached(k: Key, v: Value)
    ensures var s := WrittenStoreRun(EMPTY_STORE, MovedRoot(k, v));
            && Filed(s.tree) && A in s.tree.blocks && B in s.tree.blocks
            && s.tree.blocks[A].depth == 0 && s.tree.blocks[B].depth == 1 && s.state == TwoWrites(k, v)
  {
    var ops := MovedRoot(k, v);
    var s1 := StoreStep(AsWritten, EMPTY_STORE, ops[0]);
    var s2 := StoreStep(AsWritten, s1, ops[1]);
    var s3 := StoreStep(AsWritten, s2, ops[2]);
    var s4 := StoreStep(AsWritten, s3, ops[3]);
    RunStep(EMPTY_STORE, ops);
    RunStep(s1, ops[1..]);
    RunStep(s2, ops[2..]);
    RunStep(s3, ops[3..]);
    RunStep(s4, ops[4..]);
    WrittenInsert(s4.tree, Named(B, Some(A)));
  }

  lemma TwoWriters(k: Key, v: Value, at: BlockId)
    ensures Entry(TwoWrites(k, v), k, 0, at) == if at in {A, B} then Some(Some(v)) else None
  {
    ApplyEntry(map[], [(k, Some(v))], 0, A, k, 0, at);
    ApplyEntry(ApplyChanges(map[], [(k, Some(v))], 0, A), [(k, Some(v))], 0, B, k, 0, at);
  }

  /** As written, the first root then reads its own write or gets an error, as the hash map has it. */
  lemma ReadDependsOnOrder(k: Key, v: Value)
    ensures var s := WrittenStoreRun(EMPTY_STORE, MovedRoot(k, v));
            && A in s.tree.blocks && Ambiguous(s.tree, s.state, k, A)
            && Returns(s.tree, s.state, k, A, [[A, B]], Ok(Some(v)))
            && Returns(s.tree, s.state, k, A, [[B, A]], Err(InvalidAncestorDepth))
  {
    MovedRootReached(k, v);
    var s := WrittenStoreRun(EMPTY_STORE, MovedRoot(k, v));
    forall at ensures Entry(s.state, k, 0, at) == if at in {A, B} then Some(Some(v)) else None {
      TwoWriters(k, v, at);
    }
    assert Writers(s.state, k, 0) == {A, B};
    assert OwnDecides(s.tree, s.state, k, A, 0);
    OnlyItself(s.tree, A, A);
    OnlyItself(s.tree, A, B);
  }
}
