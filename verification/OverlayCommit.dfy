/** Reading through an overlay and reading after committing it to a child block are the same. */
module OverlayCommit {
  import opened Types
  import opened ForkTree
  import opened ForkTreeInsert
  import opened FlatState
  import opened MemoryFlatState

  /** Writing at a block just inserted: it reads its own changes over the readings of its parent. */
  lemma ChildReads(t: Tree, t': Tree, s: State, block: Block, changes: seq<Change>, k: Key)
    requires Grown(t, block, t') && block.id !in t.blocks && block.parentId.Some? && Placed(t, s)
    ensures ReadAt(t', ApplyChanges(s, changes, t'.blocks[block.id].depth, block.id), k, block.id) ==
            if LastChange(changes, k).Some? then LastChange(changes, k).value
            else ReadAt(t, s, k, block.parentId.value)
  {
    var path := Path(t', block.id);
    var d := t'.blocks[block.id].depth;
    NearestAfterApply(path, s, changes, d, block.id, k);
    assert Entry(s, k, d, block.id).None?;
    assert path[..d] == Path(t, block.parentId.value);
  }

  /**
   After any inserts and removes over a parent, inserting a fresh child and applying the changeset
   to it, in whatever order, makes the child read what the overlay read: what the last operation on
   the key leaves, none after a removal, and without one what the parent reads.
   */
  lemma CommitReadsBack(t: Tree, s: State, ops: seq<OverlayOp>, block: Block, changes: seq<Change>, k: Key)
    requires Valid(t) && Placed(t, s)
    requires block.id !in t.blocks && block.parentId.Some? && block.parentId.value in t.blocks
    requires Enumerates(changes, OverlayAll(ops))
    ensures HopsFall(t)
    ensures var t' := Insert(AsDocumented, t, block).0;
            && Valid(t') && block.id in t'.blocks
            && ReadAt(t', ApplyChanges(s, changes, t'.blocks[block.id].depth, block.id), k, block.id) ==
               OverlayRead(OverlayAll(ops), t, s, k, block.parentId.value)
    ensures OverlayRead(OverlayAll(ops), t, s, k, block.parentId.value) ==
            match LastOp(ops, k)
            case Some(i) => Leaves(ops[i])
            case None => ReadAt(t, s, k, block.parentId.value)
  {
    PendingIsLastOp(ops, k);
    InsertFresh(t, block);
    ChildReads(t, Insert(AsDocumented, t, block).0, s, block, changes, k);
    EnumerationLooksUp(changes, OverlayAll(ops), k);
  }
}
