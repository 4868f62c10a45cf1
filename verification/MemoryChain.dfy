/** The chain as the object the source keeps, and the import transaction run on its parts. */
module MemoryChain {
  import opened Types
  import opened ForkTree
  import opened AncestorWalk
  import opened FlatState
  import opened MemoryForkTree
  import opened MemoryFlatState
  import opened Transactional
  import opened ChainImport

  /** The transaction body on the objects: insert, execute into an overlay, apply the changeset. */
  method ImportBody(g: Guard, tree: MemoryForkTree, state: MemoryFlatState, block: Block)
    returns (r: Result<Unit, ChainError>)
    requires Terminates(g, tree.View())
    modifies tree, state
    ensures (ChainData(tree.View(), state.state), r) ==
            ImportInto(g, old(ChainData(tree.View(), state.state)), block)
  {
    if block.parentId.None? {
      return Err(CantImportGenesis);
    }
    var inserted := tree.InsertBlock(g, block);
    if inserted.Err? {
      return Err(ForkTreeInsert(inserted.error));
    }
    var overlay := new OverlayedFlatState(state, block.parentId.value, tree);
    for i := 0 to |block.extrinsics|
      invariant overlay.changeset == ExtrinsicChanges(block.extrinsics[..i])
      invariant state.state == old(state.state) && tree.View() == Insert(g, old(tree.View()), block).0
    {
      assert block.extrinsics[..i + 1][..i] == block.extrinsics[..i];
      overlay.Insert(block.extrinsics[i].key, block.extrinsics[i].value);
    }
    assert block.extrinsics[..|block.extrinsics|] == block.extrinsics;
    var changes := overlay.IntoChangeset();
    var applied := state.Apply(changes, block.id, tree);
    ApplyAnyOrder(old(state.state), changes, ExtrinsicChanges(block.extrinsics), tree.blocks[block.id].depth, block.id);
    r := match applied case Err(e) => Err(ForkTreeQuery(e)) case Ok(_) => Ok(Unit);
  }

  class Chain {
    const data: MemoryTransactional<ChainData>
    ghost var ledger: Ledger

    /** Both copies are in step and hold, at every block, the state the ledger gives it. */
    ghost predicate Valid()
      reads this, data
    {
      data.first == data.second && Refines(data.first, ledger)
    }

    constructor (g: Guard, genesis: Genesis)
      requires genesis.block.parentId.None?
      ensures Valid() && fresh(data) && ledger == LedgerStart(genesis)
    {
      GenesisStarts(g, genesis);
      var transactional := new MemoryTransactional(EMPTY_DATA);
      var _ := transactional.Apply(GenesisOf(g, genesis));
      data, ledger := transactional, LedgerStart(genesis);
      new;
      StartRefines(genesis);
    }

    method Import(g: Guard, block: Block) returns (r: Result<Unit, ChainError>)
      requires Valid() && Fresh(g, ledger, block)
      modifies this, data
      ensures Valid() && (ledger, r) == LedgerImport(g, old(ledger), block)
    {
      ImportRefines(g, data.first, ledger, block);
      if block.seal != ValidSeal {
        return Err(ChainError.InvalidSeal);
      }
      r := data.Apply(ImportOf(g, block));
      ledger := LedgerImport(g, ledger, block).0;
    }

    /** With the documented comparison, a query gives the value in the executed state of the block. */
    method Get(g: Guard, key: Key, id: BlockId) returns (r: Result<Option<Value>, QueryError>)
      requires Valid() && id in ledger
      ensures g.AsDocumented? ==> r == Ok(Lookup(ledger[id].state, key))
      ensures g.AsWritten? ==> r == WrittenRead(data.first.tree, data.first.state, key, id)
    {
      SoundHopsFall(data.first.tree);
      var tree := new MemoryForkTree.Of(data.first.tree);
      var state := new MemoryFlatState.Of(data.first.state);
      r := state.Get(g, key, id, tree);
    }
  }
}
