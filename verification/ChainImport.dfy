/**
 Block import: fork tree, overlay, flat state and transaction together.  The chain refines a
 ledger that simply gives every block its own state, obtained by executing the block on the
 state of its parent.
 */
module ChainImport {
  import opened Types
  import opened ForkTree
  import opened AncestorWalk
  import opened ForkTreeInsert
  import opened FlatState
  import opened MemoryFlatState
  import opened OverlayCommit
  import opened Transactional
  import WrittenGuard
  import opened SmallTrees

  datatype ChainData = ChainData(tree: Tree, state: State)

  datatype ChainError =
    | InvalidSeal
    | CantImportGenesis
    | ForkTreeInsert(insert: InsertError)
    | ForkTreeQuery(query: QueryError)

  datatype Genesis = Genesis(block: Block, changes: seq<Change>)

  const EMPTY_DATA := ChainData(EMPTY_TREE, map[])

  // ----- Import as the source does it -----

  /** The changeset that executing the extrinsics leaves in the overlay. */
  function ExtrinsicChanges(extrinsics: seq<Extrinsic>): map<Key, Option<Value>> {
    if extrinsics == [] then map[]
    else
      var last := extrinsics[|extrinsics| - 1];
      Overlaid(ExtrinsicChanges(extrinsics[..|extrinsics| - 1]), Put(last.key, last.value))
  }

  /** The body of the import transaction. */
  function ImportInto(g: Guard, data: ChainData, block: Block): (ChainData, Result<Unit, ChainError>)
    requires Terminates(g, data.tree)
  {
    if block.parentId.None? then (data, Err(CantImportGenesis))
    else
      var (tree, inserted) := Insert(g, data.tree, block);
      match inserted
      case Err(e) => (data.(tree := tree), Err(ForkTreeInsert(e)))
      case Ok(_) =>
        match BlockDepth(tree, block.id)
        case Err(e) => (data.(tree := tree), Err(ForkTreeQuery(e)))
        case Ok(d) =>
          (ChainData(tree, Commit(data.state, ExtrinsicChanges(block.extrinsics), d, block.id)), Ok(Unit))
  }

  function ImportOf(g: Guard, block: Block): Operation<ChainData, Unit, ChainError> {
    (data: ChainData) requires Terminates(g, data.tree) => ImportInto(g, data, block)
  }

  function Import(g: Guard, c: Copies<ChainData>, block: Block): (Copies<ChainData>, Result<Unit, ChainError>)
    requires Terminates(g, c.first.tree) && Terminates(g, c.second.tree)
  {
    if block.seal != ValidSeal then (c, Err(ChainError.InvalidSeal)) else ApplyBoth(c, ImportOf(g, block))
  }

  /** The body of the genesis transaction. */
  function GenesisInto(g: Guard, data: ChainData, genesis: Genesis): (ChainData, Result<Unit, ChainError>)
    requires Terminates(g, data.tree)
  {
    var (tree, inserted) := Insert(g, data.tree, genesis.block);
    match inserted
    case Err(e) => (data.(tree := tree), Err(ForkTreeInsert(e)))
    case Ok(_) =>
      match BlockDepth(tree, genesis.block.id)
      case Err(e) => (data.(tree := tree), Err(ForkTreeQuery(e)))
      case Ok(d) => (ChainData(tree, ApplyChanges(data.state, genesis.changes, d, genesis.block.id)), Ok(Unit))
  }

  function GenesisOf(g: Guard, genesis: Genesis): Operation<ChainData, Unit, ChainError> {
    (data: ChainData) requires Terminates(g, data.tree) => GenesisInto(g, data, genesis)
  }

  /** The chain after its genesis block and genesis state have been entered. */
  function Start(genesis: Genesis): ChainData {
    ChainData(
      WithItem(EMPTY_TREE, Item(genesis.block, 0, [], [])),
      ApplyChanges(map[], genesis.changes, 0, genesis.block.id))
  }

  // ----- The ledger -----

  datatype Account = Account(depth: nat, state: map<Key, Value>)

  type Ledger = map<BlockId, Account>

  function Execute(state: map<Key, Value>, extrinsics: seq<Extrinsic>): map<Key, Value> {
    if extrinsics == [] then state
    else
      var last := extrinsics[|extrinsics| - 1];
      Execute(state, extrinsics[..|extrinsics| - 1])[last.key := last.value]
  }

  function GenesisState(changes: seq<Change>): map<Key, Value> {
    if changes == [] then map[]
    else
      var (k, v) := changes[|changes| - 1];
      var before := GenesisState(changes[..|changes| - 1]);
      if v.Some? then before[k := v.value] else before - {k}
  }

  function LedgerStart(genesis: Genesis): Ledger {
    map[genesis.block.id := Account(0, GenesisState(genesis.changes))]
  }

  /** The ledger with the executed block added. */
  function LedgerGrown(ledger: Ledger, block: Block): Ledger
    requires block.parentId.Some? && block.parentId.value in ledger
  {
    var parent := ledger[block.parentId.value];
    ledger[block.id := Account(parent.depth + 1, Execute(parent.state, block.extrinsics))]
  }

  /** Importing into the ledger: refuse, or execute the block on the state of its parent. */
  function LedgerImport(g: Guard, ledger: Ledger, block: Block): (Ledger, Result<Unit, ChainError>) {
    if block.seal != ValidSeal then (ledger, Err(ChainError.InvalidSeal))
    else match block.parentId
      case None => (ledger, Err(CantImportGenesis))
      case Some(p) =>
        if p !in ledger then (ledger, Err(ForkTreeInsert(UnknownParent)))
        else if g.AsWritten? && ledger[p].depth % 4 == 3 then
          (ledger, Err(ForkTreeInsert(Query(InvalidAncestorDepth))))
        else
          (LedgerGrown(ledger, block), Ok(Unit))
  }

  /** The chain holds exactly the blocks of the ledger and reads at each of them its own state. */
  ghost predicate Refines(data: ChainData, ledger: Ledger) {
    && Valid(data.tree) && Placed(data.tree, data.state)
    && data.tree.blocks.Keys == ledger.Keys
    && (forall id :: id in ledger ==> data.tree.blocks[id].depth == ledger[id].depth)
    && (forall id, k :: id in ledger ==> ReadAt(data.tree, data.state, k, id) == Lookup(ledger[id].state, k))
  }

  // ----- Executing is overlaying -----

  lemma {:induction false} ExecuteIsOverlay(state: map<Key, Value>, extrinsics: seq<Extrinsic>, k: Key)
    ensures Lookup(Execute(state, extrinsics), k) ==
            if k in ExtrinsicChanges(extrinsics) then ExtrinsicChanges(extrinsics)[k] else Lookup(state, k)
  {
    if extrinsics != [] {
      ExecuteIsOverlay(state, extrinsics[..|extrinsics| - 1], k);
    }
  }

  /** The last extrinsic on a key. */
  function LastSet(extrinsics: seq<Extrinsic>, k: Key): (r: Option<nat>)
    ensures r.Some? ==> r.value < |extrinsics| && extrinsics[r.value].key == k
    ensures r.Some? ==> forall j :: r.value < j < |extrinsics| ==> extrinsics[j].key != k
    ensures r.None? ==> forall j :: 0 <= j < |extrinsics| ==> extrinsics[j].key != k
  {
    if extrinsics == [] then None
    else if extrinsics[|extrinsics| - 1].key == k then Some(|extrinsics| - 1)
    else LastSet(extrinsics[..|extrinsics| - 1], k)
  }

  /** Executing leaves under each key the value of the last extrinsic on it, and otherwise what was there. */
  lemma {:induction false} LastSetIsRead(state: map<Key, Value>, extrinsics: seq<Extrinsic>, k: Key)
    ensures Lookup(Execute(state, extrinsics), k) ==
            match LastSet(extrinsics, k)
            case Some(i) => Some(extrinsics[i].value)
            case None => Lookup(state, k)
  {
    if extrinsics != [] {
      LastSetIsRead(state, extrinsics[..|extrinsics| - 1], k);
    }
  }

  lemma {:induction false} GenesisReads(changes: seq<Change>, k: Key)
    ensures Lookup(GenesisState(changes), k) ==
            if LastChange(changes, k).Some? then LastChange(changes, k).value else None
  {
    if changes != [] {
      GenesisReads(changes[..|changes| - 1], k);
    }
  }

  lemma {:induction false} SomeOrder(changeset: map<Key, Option<Value>>) returns (changes: seq<Change>)
    ensures Enumerates(changes, changeset)
    decreases |changeset|
  {
    if changeset == map[] {
      changes := [];
    } else {
      var k :| k in changeset;
      var rest := changeset - {k};
      assert rest.Keys == changeset.Keys - {k};
      assert rest[k := changeset[k]] == changeset;
      changes := SomeOrder(rest);
      EnumerateOneMore(changes, rest, k, changeset[k]);
      changes := changes + [(k, changeset[k])];
    }
  }

  // ----- Refinement -----

  lemma GenesisStarts(g: Guard, genesis: Genesis)
    requires genesis.block.parentId.None?
    ensures Terminates(g, EMPTY_TREE)
    ensures GenesisInto(g, EMPTY_DATA, genesis) == (Start(genesis), Ok(Unit))
  {
  }

  lemma StartRefines(genesis: Genesis)
    requires genesis.block.parentId.None?
    ensures Refines(Start(genesis), LedgerStart(genesis))
  {
    var data, id := Start(genesis), genesis.block.id;
    EmptyTreeValid();
    SoundHopsFall(EMPTY_TREE);
    InsertFresh(EMPTY_TREE, genesis.block);
    var tree := Insert(AsDocumented, EMPTY_TREE, genesis.block).0;
    assert tree == data.tree;
    assert Path(tree, id) == [id];
    assert Placed(tree, map[]);
    ApplyKeepsPlaced(tree, map[], genesis.changes, id);
    forall k ensures ReadAt(tree, data.state, k, id) == Lookup(GenesisState(genesis.changes), k) {
      NearestAfterApply([id], map[], genesis.changes, 0, id, k);
      NoWriterNoValue([id], map[], k);
      GenesisReads(genesis.changes, k);
    }
  }

  /** When the ledger accepts a block, so does the fork tree, and it grows by that block. */
  lemma AcceptedGrows(g: Guard, t: Tree, block: Block)
    requires Valid(t) && block.id !in t.blocks && block.parentId.Some? && block.parentId.value in t.blocks
    requires g.AsWritten? ==> t.blocks[block.parentId.value].depth % 4 != 3
    ensures HopsFall(t) && Insert(g, t, block).1 == Ok(Unit) && Grown(t, block, Insert(g, t, block).0)
  {
    InsertFresh(t, block);
    WrittenGuard.WrittenInsertAgreesIff(t, block);
  }

  /** The state after the changeset of a new block has been written. */
  function Committed(t': Tree, s: State, block: Block): State
    requires block.id in t'.blocks
  {
    Commit(s, ExtrinsicChanges(block.extrinsics), t'.blocks[block.id].depth, block.id)
  }

  lemma CommittedInSomeOrder(t': Tree, s: State, block: Block) returns (changes: seq<Change>)
    requires block.id in t'.blocks
    ensures Enumerates(changes, ExtrinsicChanges(block.extrinsics))
    ensures Committed(t', s, block) == ApplyChanges(s, changes, t'.blocks[block.id].depth, block.id)
  {
    changes := SomeOrder(ExtrinsicChanges(block.extrinsics));
    ApplyAnyOrder(s, changes, ExtrinsicChanges(block.extrinsics), t'.blocks[block.id].depth, block.id);
  }

  lemma CommittedPlaced(t: Tree, t': Tree, s: State, block: Block)
    requires Grown(t, block, t') && Placed(t, s)
    ensures Placed(t', Committed(t', s, block))
  {
    var changes := CommittedInSomeOrder(t', s, block);
    assert Placed(t', s);
    ApplyKeepsPlaced(t', s, changes, block.id);
  }

  /** The new block reads its changeset over the readings of its parent. */
  lemma CommittedReadsNew(t: Tree, t': Tree, s: State, block: Block, k: Key)
    requires Grown(t, block, t') && block.id !in t.blocks && block.parentId.Some? && Placed(t, s)
    ensures ReadAt(t', Committed(t', s, block), k, block.id) ==
            if k in ExtrinsicChanges(block.extrinsics) then ExtrinsicChanges(block.extrinsics)[k]
            else ReadAt(t, s, k, block.parentId.value)
  {
    var changes := CommittedInSomeOrder(t', s, block);
    EnumerationLooksUp(changes, ExtrinsicChanges(block.extrinsics), k);
    ChildReads(t, t', s, block, changes, k);
  }

  /** Every other block reads what it read. */
  lemma CommittedReadsOld(t: Tree, t': Tree, s: State, block: Block, id: BlockId, k: Key)
    requires Grown(t, block, t') && block.id !in t.blocks && id in t.blocks
    ensures ReadAt(t', Committed(t', s, block), k, id) == ReadAt(t, s, k, id)
  {
    var changes := CommittedInSomeOrder(t', s, block);
    ForkIsolation(t', s, changes, block.id, id, k);
    PathStable(t, t', id);
    OldPathsAvoid(t, id, block.id);
  }

  lemma OldPathsAvoid(t: Tree, id: BlockId, newId: BlockId)
    requires Linked(t) && id in t.blocks && newId !in t.blocks
    ensures newId !in Path(t, id)
  {
    if newId in Path(t, id) {
      var i :| 0 <= i < |Path(t, id)| && Path(t, id)[i] == newId;
      PathPrefix(t, id, i);
    }
  }

  /** The block is refused or has an id that the ledger does not have yet. */
  predicate Fresh(g: Guard, ledger: Ledger, block: Block) {
    block.id !in ledger || LedgerImport(g, ledger, block).1.Err?
  }

  /** One import step: same outcome as the ledger, and the chain again refines it. */
  lemma ImportRefines(g: Guard, data: ChainData, ledger: Ledger, block: Block)
    requires Refines(data, ledger) && Fresh(g, ledger, block)
    ensures Terminates(g, data.tree)
    ensures var (c, r) := Import(g, Copies(data, data), block);
            var (ledger', r') := LedgerImport(g, ledger, block);
            && r == r' && c.first == c.second && Refines(c.first, ledger')
            && (r.Err? ==> c == Copies(data, data))
  {
    SoundHopsFall(data.tree);
    var (c, r) := Import(g, Copies(data, data), block);
    var (ledger', r') := LedgerImport(g, ledger, block);
    if r'.Ok? {
      AcceptRefines(g, data, ledger, block);
    } else if block.seal == ValidSeal && block.parentId.Some? && block.parentId.value in ledger {
      WrittenGuard.WrittenInsert(data.tree, block);
    }
  }

  /**
   What an import reports, in the order the checks are made, and which blocks the chain then holds: the
   new one, as it was given, if it was accepted, and every other as before.
   */
  lemma ImportOutcome(g: Guard, data: ChainData, ledger: Ledger, block: Block)
    requires Refines(data, ledger) && Fresh(g, ledger, block)
    ensures Terminates(g, data.tree)
    ensures Import(g, Copies(data, data), block).1 ==
            if block.seal == Seal.InvalidSeal then Err(ChainError.InvalidSeal)
            else match block.parentId
              case None => Err(CantImportGenesis)
              case Some(p) =>
                if p !in data.tree.blocks then Err(ForkTreeInsert(UnknownParent))
                else if g.AsWritten? && data.tree.blocks[p].depth % 4 == 3 then
                  Err(ForkTreeInsert(Query(InvalidAncestorDepth)))
                else Ok(Unit)
    ensures var (c, r) := Import(g, Copies(data, data), block);
            forall id :: BlockOf(c.first.tree, id) ==
                         if r.Ok? && id == block.id then Ok(block)
                         else if id in data.tree.blocks then Ok(data.tree.blocks[id].block) else Err(UnknownBlock)
  {
    ImportRefines(g, data, ledger, block);
    if LedgerImport(g, ledger, block).1.Ok? {
      AcceptedGrows(g, data.tree, block);
      ImportAccepted(g, data, block);
    }
  }

  /** Accepting a block under a known id is the one thing that breaks the refinement. */
  lemma ImportRefinesIffFresh(g: Guard, data: ChainData, ledger: Ledger, block: Block)
    requires Refines(data, ledger)
    ensures Terminates(g, data.tree)
    ensures Refines(Import(g, Copies(data, data), block).0.first, LedgerImport(g, ledger, block).0) <==>
            Fresh(g, ledger, block)
  {
    SoundHopsFall(data.tree);
    if Fresh(g, ledger, block) {
      ImportRefines(g, data, ledger, block);
    } else {
      var t' := Insert(g, data.tree, block).0;
      WrittenGuard.WrittenInsertAgreesIff(data.tree, block);
      InsertKeepsValidIffFresh(data.tree, block);
      InsertChildResult(data.tree, block.parentId.value, block);
      ImportAccepted(g, data, block);
      assert Import(g, Copies(data, data), block).0.first.tree == t';
    }
  }

  lemma AcceptRefines(g: Guard, data: ChainData, ledger: Ledger, block: Block)
    requires Refines(data, ledger) && block.id !in ledger && Terminates(g, data.tree)
    requires LedgerImport(g, ledger, block).1.Ok?
    ensures ImportInto(g, data, block).1 == Ok(Unit)
    ensures Refines(ImportInto(g, data, block).0, LedgerImport(g, ledger, block).0)
  {
    AcceptedGrows(g, data.tree, block);
    var t' := Insert(g, data.tree, block).0;
    ImportAccepted(g, data, block);
    GrownRefines(data, t', ledger, block);
    assert LedgerImport(g, ledger, block).0 == LedgerGrown(ledger, block);
  }

  lemma ImportAccepted(g: Guard, data: ChainData, block: Block)
    requires Terminates(g, data.tree) && block.parentId.Some?
    requires Insert(g, data.tree, block).1.Ok? && block.id in Insert(g, data.tree, block).0.blocks
    ensures var t' := Insert(g, data.tree, block).0;
            ImportInto(g, data, block) == (ChainData(t', Committed(t', data.state, block)), Ok(Unit))
  {
  }

  lemma GrownRefines(data: ChainData, t': Tree, ledger: Ledger, block: Block)
    requires Refines(data, ledger) && block.id !in ledger && block.parentId.Some? && Grown(data.tree, block, t')
    ensures Refines(ChainData(t', Committed(t', data.state, block)), LedgerGrown(ledger, block))
  {
    var s', ledger' := Committed(t', data.state, block), LedgerGrown(ledger, block);
    assert |Path(t', block.id)| == |Path(data.tree, block.parentId.value)| + 1;
    forall id, k | id in ledger' ensures ReadAt(t', s', k, id) == Lookup(ledger'[id].state, k) {
      GrownReads(data, t', ledger, block, id, k);
    }
    CommittedPlaced(data.tree, t', data.state, block);
  }

  lemma GrownReads(data: ChainData, t': Tree, ledger: Ledger, block: Block, id: BlockId, k: Key)
    requires Refines(data, ledger) && block.id !in ledger && block.parentId.Some? && Grown(data.tree, block, t')
    requires id in LedgerGrown(ledger, block)
    ensures ReadAt(t', Committed(t', data.state, block), k, id) == Lookup(LedgerGrown(ledger, block)[id].state, k)
  {
    if id == block.id {
      CommittedReadsNew(data.tree, t', data.state, block, k);
      ExecuteIsOverlay(ledger[block.parentId.value].state, block.extrinsics, k);
    } else {
      CommittedReadsOld(data.tree, t', data.state, block, id, k);
    }
  }

  // ----- The state along a path -----

  /** The blocks from the root down to `id`. */
  ghost function BlocksTo(t: Tree, id: BlockId): (r: seq<Block>)
    requires Linked(t) && id in t.blocks
    ensures |r| == |Path(t, id)|
    ensures forall i :: 0 <= i < |r| ==> Path(t, id)[i] in t.blocks && r[i] == t.blocks[Path(t, id)[i]].block
    decreases t.blocks[id].depth
  {
    assert GoodLink(t, id);
    match t.blocks[id].block.parentId
    case None => [t.blocks[id].block]
    case Some(p) => BlocksTo(t, p) + [t.blocks[id].block]
  }

  function ExecuteAll(state: map<Key, Value>, blocks: seq<Block>): map<Key, Value> {
    if blocks == [] then state
    else Execute(ExecuteAll(state, blocks[..|blocks| - 1]), blocks[|blocks| - 1].extrinsics)
  }

  /** The state of a block: the genesis state, with the blocks of its path executed in order. */
  ghost function StateAt(t: Tree, genesis: Genesis, id: BlockId): map<Key, Value>
    requires Linked(t) && id in t.blocks
  {
    ExecuteAll(GenesisState(genesis.changes), BlocksTo(t, id)[1..])
  }

  /** Every path starts at the genesis block, and the ledger holds the state along it. */
  ghost predicate FollowsPaths(t: Tree, genesis: Genesis, ledger: Ledger) {
    && Linked(t) && t.blocks.Keys == ledger.Keys
    && forall id {:trigger FollowsPath(t, genesis, id, ledger[id].state)} :: id in ledger ==>
         FollowsPath(t, genesis, id, ledger[id].state)
  }

  ghost predicate FollowsPath(t: Tree, genesis: Genesis, id: BlockId, state: map<Key, Value>)
    requires Linked(t) && id in t.blocks
  {
    BlocksTo(t, id)[0] == genesis.block && state == StateAt(t, genesis, id)
  }

  lemma BlocksToStable(t: Tree, t': Tree, id: BlockId)
    requires Linked(t) && Linked(t') && Extends(t, t') && id in t.blocks
    ensures BlocksTo(t', id) == BlocksTo(t, id)
  {
    PathStable(t, t', id);
  }

  /** The path of a new block is that of its parent, followed by the block. */
  lemma ChildFollows(t: Tree, t': Tree, genesis: Genesis, block: Block, state: map<Key, Value>)
    requires Linked(t) && Linked(t') && Extends(t, t') && block.id in t'.blocks
    requires block.parentId.Some? && block.parentId.value in t.blocks && t'.blocks[block.id].block == block
    requires FollowsPath(t, genesis, block.parentId.value, state)
    ensures FollowsPath(t', genesis, block.id, Execute(state, block.extrinsics))
  {
    var p := block.parentId.value;
    BlocksToStable(t, t', p);
    assert GoodLink(t', block.id);
    var blocks := BlocksTo(t', block.id);
    assert blocks == BlocksTo(t, p) + [block];
    assert blocks[1..][..|blocks| - 2] == BlocksTo(t, p)[1..];
  }

  lemma GrownFollows(t: Tree, t': Tree, genesis: Genesis, ledger: Ledger, block: Block)
    requires Grown(t, block, t') && block.id !in t.blocks && block.parentId.Some?
    requires FollowsPaths(t, genesis, ledger)
    ensures FollowsPaths(t', genesis, LedgerGrown(ledger, block))
  {
    var ledger' := LedgerGrown(ledger, block);
    forall id | id in ledger' ensures FollowsPath(t', genesis, id, ledger'[id].state) {
      if id == block.id {
        assert FollowsPath(t, genesis, block.parentId.value, ledger[block.parentId.value].state);
        ChildFollows(t, t', genesis, block, ledger[block.parentId.value].state);
      } else {
        assert FollowsPath(t, genesis, id, ledger[id].state);
        BlocksToStable(t, t', id);
      }
    }
  }

  /** One import step keeps the ledger equal to the states along the paths. */
  lemma ImportFollows(g: Guard, data: ChainData, genesis: Genesis, ledger: Ledger, block: Block)
    requires Refines(data, ledger) && Fresh(g, ledger, block) && FollowsPaths(data.tree, genesis, ledger)
    ensures Terminates(g, data.tree)
    ensures FollowsPaths(Import(g, Copies(data, data), block).0.first.tree, genesis, LedgerImport(g, ledger, block).0)
  {
    ImportRefines(g, data, ledger, block);
    if LedgerImport(g, ledger, block).1.Ok? {
      AcceptFollows(g, data, genesis, ledger, block);
    }
  }

  lemma AcceptFollows(g: Guard, data: ChainData, genesis: Genesis, ledger: Ledger, block: Block)
    requires Valid(data.tree) && Terminates(g, data.tree) && FollowsPaths(data.tree, genesis, ledger)
    requires LedgerImport(g, ledger, block).1.Ok? && block.id !in ledger
    requires block.parentId.value in data.tree.blocks
    requires data.tree.blocks[block.parentId.value].depth == ledger[block.parentId.value].depth
    ensures FollowsPaths(ImportInto(g, data, block).0.tree, genesis, LedgerImport(g, ledger, block).0)
  {
    AcceptedGrows(g, data.tree, block);
    ImportAccepted(g, data, block);
    GrownFollows(data.tree, Insert(g, data.tree, block).0, genesis, ledger, block);
  }

  // ----- Runs -----

  /** No block is accepted under an id that the ledger already has. */
  predicate FreshRun(g: Guard, ledger: Ledger, blocks: seq<Block>)
    decreases |blocks|
  {
    blocks != [] ==>
      Fresh(g, ledger, blocks[0]) && FreshRun(g, LedgerImport(g, ledger, blocks[0]).0, blocks[1..])
  }

  function LedgerRun(g: Guard, ledger: Ledger, blocks: seq<Block>): (Ledger, seq<Result<Unit, ChainError>>)
    decreases |blocks|
  {
    if blocks == [] then (ledger, [])
    else
      var (next, r) := LedgerImport(g, ledger, blocks[0]);
      var (last, rs) := LedgerRun(g, next, blocks[1..]);
      (last, [r] + rs)
  }

  ghost function ChainRun(g: Guard, c: Copies<ChainData>, ledger: Ledger, blocks: seq<Block>)
    : (Copies<ChainData>, seq<Result<Unit, ChainError>>)
    requires c.first == c.second && Refines(c.first, ledger) && FreshRun(g, ledger, blocks)
    decreases |blocks|
  {
    if blocks == [] then (c, [])
    else
      ImportRefines(g, c.first, ledger, blocks[0]);
      var (next, r) := Import(g, c, blocks[0]);
      var (last, rs) := ChainRun(g, next, LedgerImport(g, ledger, blocks[0]).0, blocks[1..]);
      (last, [r] + rs)
  }

  lemma {:induction false} RunRefines(g: Guard, c: Copies<ChainData>, ledger: Ledger, blocks: seq<Block>)
    requires c.first == c.second && Refines(c.first, ledger) && FreshRun(g, ledger, blocks)
    ensures var (c', rs) := ChainRun(g, c, ledger, blocks);
            var (ledger', rs') := LedgerRun(g, ledger, blocks);
            rs == rs' && c'.first == c'.second && Refines(c'.first, ledger')
    decreases |blocks|
  {
    if blocks != [] {
      ImportRefines(g, c.first, ledger, blocks[0]);
      RunRefines(g, Import(g, c, blocks[0]).0, LedgerImport(g, ledger, blocks[0]).0, blocks[1..]);
    }
  }

  lemma {:induction false} RunFollows(
    g: Guard, c: Copies<ChainData>, genesis: Genesis, ledger: Ledger, blocks: seq<Block>)
    requires c.first == c.second && Refines(c.first, ledger) && FreshRun(g, ledger, blocks)
    requires FollowsPaths(c.first.tree, genesis, ledger)
    ensures var data, ledger' := ChainRun(g, c, ledger, blocks).0.first, LedgerRun(g, ledger, blocks).0;
            FollowsPaths(data.tree, genesis, ledger')
    decreases |blocks|
  {
    if blocks != [] {
      ImportRefines(g, c.first, ledger, blocks[0]);
      ImportFollows(g, c.first, genesis, ledger, blocks[0]);
      RunFollows(g, Import(g, c, blocks[0]).0, genesis, LedgerImport(g, ledger, blocks[0]).0, blocks[1..]);
    }
  }

  lemma StartFollows(genesis: Genesis)
    requires genesis.block.parentId.None?
    ensures Refines(Start(genesis), LedgerStart(genesis))
    ensures FollowsPaths(Start(genesis).tree, genesis, LedgerStart(genesis))
  {
    StartRefines(genesis);
    var t := Start(genesis).tree;
    assert BlocksTo(t, genesis.block.id) == [genesis.block];
  }

  /** Every block reads, for every key, what executing the blocks of its own path leaves there. */
  ghost predicate ReadsItsPath(data: ChainData, genesis: Genesis)
    requires Linked(data.tree)
  {
    && (forall id :: id in data.tree.blocks ==> BlocksTo(data.tree, id)[0] == genesis.block)
    && (forall id, k :: id in data.tree.blocks ==>
          ReadAt(data.tree, data.state, k, id) == Lookup(StateAt(data.tree, genesis, id), k))
  }

  lemma PathsAreRead(data: ChainData, genesis: Genesis, ledger: Ledger)
    requires Refines(data, ledger) && FollowsPaths(data.tree, genesis, ledger)
    ensures ReadsItsPath(data, genesis)
  {
    forall id | id in data.tree.blocks ensures BlocksTo(data.tree, id)[0] == genesis.block {
      assert FollowsPath(data.tree, genesis, id, ledger[id].state);
    }
    forall id, k: Key | id in data.tree.blocks
      ensures ReadAt(data.tree, data.state, k, id) == Lookup(StateAt(data.tree, genesis, id), k)
    {
      assert FollowsPath(data.tree, genesis, id, ledger[id].state);
    }
  }

  /**
   From any genesis and for any run of imports, successful or failed, with fresh ids: every import
   has the outcome the ledger gives it, both copies end equal, and every block of the final tree reads
   for every key what executing the blocks from the genesis down to it leaves there.
   */
  lemma EveryBlockReadsItsExecution(g: Guard, genesis: Genesis, blocks: seq<Block>)
    requires genesis.block.parentId.None? && FreshRun(g, LedgerStart(genesis), blocks)
    ensures Refines(Start(genesis), LedgerStart(genesis))
    ensures var (c, rs) := ChainRun(g, Copies(Start(genesis), Start(genesis)), LedgerStart(genesis), blocks);
            var (ledger, rs') := LedgerRun(g, LedgerStart(genesis), blocks);
            && rs == rs' && c.first == c.second && Refines(c.first, ledger)
            && ReadsItsPath(c.first, genesis)
  {
    StartFollows(genesis);
    var start := Copies(Start(genesis), Start(genesis));
    RunRefines(g, start, LedgerStart(genesis), blocks);
    RunFollows(g, start, genesis, LedgerStart(genesis), blocks);
    PathsAreRead(ChainRun(g, start, LedgerStart(genesis), blocks).0.first, genesis,
                 LedgerRun(g, LedgerStart(genesis), blocks).0);
  }

  /** Pairwise distinct ids, none of them known, make a fresh run. */
  lemma {:induction false} DistinctIdsAreFresh(g: Guard, ledger: Ledger, blocks: seq<Block>)
    requires forall i, j :: 0 <= i < j < |blocks| ==> blocks[i].id != blocks[j].id
    requires forall i :: 0 <= i < |blocks| ==> blocks[i].id !in ledger
    ensures FreshRun(g, ledger, blocks)
    decreases |blocks|
  {
    if blocks != [] {
      DistinctIdsAreFresh(g, LedgerImport(g, ledger, blocks[0]).0, blocks[1..]);
    }
  }

  // ----- Reading with the comparison as written -----

  /**
   On every chain a run reaches, a query as written returns the executed value exactly when the block
   wrote the key itself or no shallower block of any fork did; otherwise it reports an error.
   */
  lemma WrittenChainReadIff(data: ChainData, ledger: Ledger, k: Key, id: BlockId)
    requires Refines(data, ledger) && id in ledger
    ensures WrittenRead(data.tree, data.state, k, id) == Ok(Lookup(ledger[id].state, k)) <==>
            Entry(data.state, k, ledger[id].depth, id).Some? || !WrittenAbove(data.state, k, ledger[id].depth)
    ensures WrittenRead(data.tree, data.state, k, id) != Ok(Lookup(ledger[id].state, k)) ==>
            WrittenRead(data.tree, data.state, k, id) == Err(InvalidAncestorDepth)
  {
    WrittenReadAgreesIff(data.tree, data.state, k, id);
  }

  /** A genesis that writes one value. */
  function OneValue(k: Key, v: Value): Genesis {
    Genesis(Named(A, None), [(k, Some(v))])
  }

  /** The chain after a child that writes nothing. */
  function WithSilentChild(k: Key, v: Value): (Copies<ChainData>, Result<Unit, ChainError>) {
    Import(AsWritten, Copies(Start(OneValue(k, v)), Start(OneValue(k, v))), Named(B, Some(A)))
  }

  lemma SilentChildImported(k: Key, v: Value)
    ensures var (c, r) := WithSilentChild(k, v);
            var ledger := LedgerImport(AsWritten, LedgerStart(OneValue(k, v)), Named(B, Some(A))).0;
            && r == Ok(Unit) && Refines(c.first, ledger)
            && B in c.first.tree.blocks && c.first.state == Start(OneValue(k, v)).state
  {
    var start, block := Start(OneValue(k, v)), Named(B, Some(A));
    StartRefines(OneValue(k, v));
    ImportRefines(AsWritten, start, LedgerStart(OneValue(k, v)), block);
    AcceptedGrows(AsWritten, start.tree, block);
    ImportAccepted(AsWritten, start, block);
    var changes := CommittedInSomeOrder(WithSilentChild(k, v).0.first.tree, start.state, block);
    assert |changes| == 0;
  }

  /** As written, a child that writes nothing, imported after the genesis, cannot read a genesis value. */
  lemma InheritedReadFails(k: Key, v: Value)
    ensures var (c, r) := WithSilentChild(k, v);
            var ledger := LedgerImport(AsWritten, LedgerStart(OneValue(k, v)), Named(B, Some(A))).0;
            && r == Ok(Unit) && Refines(c.first, ledger) && B in ledger
            && Lookup(ledger[B].state, k) == Some(v)
            && WrittenRead(c.first.tree, c.first.state, k, B) == Err(InvalidAncestorDepth)
  {
    hide WithSilentChild;
    SilentChildImported(k, v);
    ApplyEntry(map[], OneValue(k, v).changes, 0, A, k, 0, A);
    ApplyEntry(map[], OneValue(k, v).changes, 0, A, k, 1, B);
    GenesisReads(OneValue(k, v).changes, k);
  }
}
