/** Which block the tree returns for an id: the last one that was accepted under it. */
module StoredBlocks {
  import opened Types
  import opened ForkTree
  import opened AncestorWalk
  import opened ForkTreeInsert
  import opened WrittenGuard

  /** On any tree, an accepted block is returned under its id, and every other id is answered as before. */
  lemma StoredAfterInsert(g: Guard, t: Tree, block: Block, id: BlockId)
    requires Terminates(g, t)
    ensures var (t', r) := Insert(g, t, block);
            BlockOf(t', id) == if r.Ok? && id == block.id then Ok(block) else BlockOf(t, id)
  {
  }

  // ----- Runs, with any ids, as long as every walk ends -----

  ghost predicate Ends(g: Guard, t: Tree, blocks: seq<Block>)
    decreases |blocks|
  {
    Terminates(g, t) && (blocks != [] ==> Ends(g, Insert(g, t, blocks[0]).0, blocks[1..]))
  }

  ghost function Run(g: Guard, t: Tree, blocks: seq<Block>): Tree
    requires Ends(g, t, blocks)
    decreases |blocks|
  {
    if blocks == [] then t else Run(g, Insert(g, t, blocks[0]).0, blocks[1..])
  }

  /** Whether each block of the run was accepted. */
  ghost function Accepted(g: Guard, t: Tree, blocks: seq<Block>): (r: seq<bool>)
    requires Ends(g, t, blocks)
    ensures |r| == |blocks|
    decreases |blocks|
  {
    if blocks == [] then []
    else [Insert(g, t, blocks[0]).1.Ok?] + Accepted(g, Insert(g, t, blocks[0]).0, blocks[1..])
  }

  predicate AcceptedAs(blocks: seq<Block>, accepted: seq<bool>, i: nat, id: BlockId)
    requires |accepted| == |blocks| && i < |blocks|
  {
    accepted[i] && blocks[i].id == id
  }

  /** The last block accepted under an id. */
  function LastAccepted(blocks: seq<Block>, accepted: seq<bool>, id: BlockId): (r: Option<nat>)
    requires |accepted| == |blocks|
    ensures r.Some? ==> r.value < |blocks| && AcceptedAs(blocks, accepted, r.value, id)
    ensures r.Some? ==> forall j :: r.value < j < |blocks| ==> !AcceptedAs(blocks, accepted, j, id)
    ensures r.None? ==> forall j :: 0 <= j < |blocks| ==> !AcceptedAs(blocks, accepted, j, id)
  {
    if blocks == [] then None
    else
      var n := |blocks| - 1;
      if AcceptedAs(blocks, accepted, n, id) then Some(n)
      else
        var r := LastAccepted(blocks[..n], accepted[..n], id);
        assert forall j :: 0 <= j < n ==>
                 AcceptedAs(blocks, accepted, j, id) == AcceptedAs(blocks[..n], accepted[..n], j, id);
        r
  }

  /** The last one of a run is the last one of its rest, or else the first if that was accepted under the id. */
  lemma LastOfRest(blocks: seq<Block>, accepted: seq<bool>, id: BlockId)
    requires |accepted| == |blocks| && blocks != []
    ensures LastAccepted(blocks, accepted, id) ==
            match LastAccepted(blocks[1..], accepted[1..], id)
            case Some(i) => Some(i + 1)
            case None => if AcceptedAs(blocks, accepted, 0, id) then Some(0) else None
  {
    var rest, tail := blocks[1..], accepted[1..];
    assert forall j :: 1 <= j < |blocks| ==>
             AcceptedAs(blocks, accepted, j, id) == AcceptedAs(rest, tail, j - 1, id);
    var last, inRest := LastAccepted(blocks, accepted, id), LastAccepted(rest, tail, id);
    if inRest.Some? {
      assert AcceptedAs(blocks, accepted, inRest.value + 1, id);
    }
    if last.Some? && last.value > 0 {
      assert AcceptedAs(rest, tail, last.value - 1, id);
    }
  }

  lemma {:induction false} StoredIsLastAccepted(g: Guard, t: Tree, blocks: seq<Block>, id: BlockId)
    requires Ends(g, t, blocks)
    ensures BlockOf(Run(g, t, blocks), id) ==
            match LastAccepted(blocks, Accepted(g, t, blocks), id)
            case Some(i) => Ok(blocks[i])
            case None => BlockOf(t, id)
    decreases |blocks|
  {
    if blocks != [] {
      var t' := Insert(g, t, blocks[0]).0;
      StoredIsLastAccepted(g, t', blocks[1..], id);
      StoredAfterInsert(g, t, blocks[0], id);
      LastOfRest(blocks, Accepted(g, t, blocks), id);
      assert Accepted(g, t, blocks)[1..] == Accepted(g, t', blocks[1..]);
    }
  }

  /**
   On every tree that a run from the empty one reaches, the block returned for an id is the last that was
   accepted under it, and an id is unknown exactly if no block was.
   */
  lemma EveryAcceptedBlockIsFound(g: Guard, blocks: seq<Block>, id: BlockId)
    requires Ends(g, EMPTY_TREE, blocks)
    ensures BlockOf(Run(g, EMPTY_TREE, blocks), id) ==
            match LastAccepted(blocks, Accepted(g, EMPTY_TREE, blocks), id)
            case Some(i) => Ok(blocks[i])
            case None => Err(UnknownBlock)
  {
    StoredIsLastAccepted(g, EMPTY_TREE, blocks, id);
  }

  // ----- Which runs these are -----

  /** As written, all of them. */
  lemma {:induction false} WrittenRunEnds(t: Tree, blocks: seq<Block>)
    ensures Ends(AsWritten, t, blocks) && Run(AsWritten, t, blocks) == WrittenRun(t, blocks)
    decreases |blocks|
  {
    if blocks != [] {
      WrittenRunEnds(Insert(AsWritten, t, blocks[0]).0, blocks[1..]);
    }
  }

  /** As documented, those in which no block is accepted under a known id. */
  lemma {:induction false} FreshRunEnds(t: Tree, blocks: seq<Block>)
    requires Valid(t) && FreshRun(t, blocks)
    ensures Ends(AsDocumented, t, blocks) && Run(AsDocumented, t, blocks) == InsertAll(t, blocks)
    decreases |blocks|
  {
    SoundHopsFall(t);
    if blocks != [] {
      InsertKeepsValidIffFresh(t, blocks[0]);
      FreshRunEnds(Insert(AsDocumented, t, blocks[0]).0, blocks[1..]);
    }
  }
}
