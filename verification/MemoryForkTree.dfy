/** The fork tree as the object the source keeps: methods that loop and update in place. */
module MemoryForkTree {
  import opened Types
  import opened Powers
  import opened ForkTree
  import opened AncestorWalk
  import opened ForkTreeInsert
  import HopBound
  import HopWorstCase

  class MemoryForkTree {
    var blocks: map<BlockId, Item>
    var depths: map<nat, seq<BlockId>>

    ghost function View(): Tree
      reads this
    {
      Tree(blocks, depths)
    }

    constructor ()
      ensures View() == EMPTY_TREE && Valid(View())
    {
      blocks, depths := map[], map[];
      new;
      EmptyTreeValid();
    }

    /** A clone of the given tree. */
    constructor Of(t: Tree)
      ensures View() == t
    {
      blocks, depths := t.blocks, t.depths;
    }

    method GetBlock(id: BlockId) returns (r: Result<Block, QueryError>)
      ensures r == BlockOf(View(), id)
      ensures r.Ok? <==> id in blocks
      ensures r.Ok? ==> r.value == blocks[id].block
    {
      r := if id in blocks then Ok(blocks[id].block) else Err(UnknownBlock);
    }

    method GetDepth(id: BlockId) returns (r: Result<nat, QueryError>)
      ensures r == BlockDepth(View(), id)
    {
      r := if id in blocks then Ok(blocks[id].depth) else Err(UnknownBlock);
    }

    /** The loop of the ancestor walk, from a known block. */
    method WalkUp(id: BlockId, target: nat) returns (r: Result<BlockId, QueryError>, ghost hops: nat)
      requires id in blocks && (HopsFall(View()) || blocks[id].depth <= target)
      ensures r == Walk(View(), id, target) && hops == Hops(View(), id, target)
    {
      var current := id;
      hops := 0;
      while true
        invariant current in blocks
        invariant HopsFall(View()) || blocks[current].depth <= target
        invariant Walk(View(), current, target) == Walk(View(), id, target)
        invariant hops + Hops(View(), current, target) == Hops(View(), id, target)
        decreases blocks[current].depth
      {
        var item := blocks[current];
        if item.depth < target {
          return Err(InvalidAncestorDepth), hops;
        }
        if item.depth == target {
          return Ok(item.block.id), hops;
        }
        if item.block.parentId.None? {
          return Err(InvalidAncestorDepth), hops;
        }
        var lowest := LowestAtLeast(item.ancestors, target);
        var next := if lowest.Some? then lowest.value.1 else item.block.parentId.value;
        if next !in blocks {
          return Err(UnknownBlock), hops;
        }
        assert LoopBody(View(), current, target) == Continue(next);
        current, hops := next, hops + 1;
      }
    }

    /**
     The ancestor query.  On a sound tree with the documented comparison it returns the ancestor
     that parent links lead to, or the documented error, within the logarithmic number of hops.
     */
    method AncestorId(g: Guard, id: BlockId, target: nat) returns (r: Result<BlockId, QueryError>, ghost hops: nat)
      requires Terminates(g, View())
      ensures r == AncestorIdAtDepth(g, View(), id, target)
      ensures Sound(View()) && g.AsDocumented? ==> r == Ancestor(View(), id, target)
      ensures Sound(View()) && r.Ok? ==> WithinBounds(hops, blocks[id].depth - target)
    {
      if id !in blocks {
        return Err(UnknownBlock), 0;
      }
      if Rejects(g, blocks[id].depth, target) {
        return Err(InvalidAncestorDepth), 0;
      }
      r, hops := WalkUp(id, target);
      if Sound(View()) {
        AnswerMeetsPromise(g, View(), id, target);
      }
    }

    method CheckAncestor(g: Guard, id: BlockId, ancestor: BlockId) returns (r: Result<bool, QueryError>)
      requires Terminates(g, View())
      ensures r == IsAncestor(g, View(), id, ancestor)
    {
      var depth := GetDepth(ancestor);
      if depth.Err? {
        return Err(depth.error);
      }
      var found, _ := AncestorId(g, id, depth.value);
      if found.Err? {
        return Err(found.error);
      }
      return Ok(found.value == ancestor);
    }

    /** Looks up the ancestors of a new child at the given depths, up to the first failure. */
    method ResolvePointers(g: Guard, parent: BlockId, targets: seq<nat>)
      returns (r: Result<seq<(nat, BlockId)>, QueryError>)
      requires Terminates(g, View())
      ensures r == CollectAncestors(g, View(), parent, targets, [])
    {
      var ancestors := [];
      for i := 0 to |targets|
        invariant |ancestors| == i && Found(g, View(), parent, targets, ancestors)
        invariant CollectAncestors(g, View(), parent, targets, ancestors) ==
                  CollectAncestors(g, View(), parent, targets, [])
      {
        var found, _ := AncestorId(g, parent, targets[i]);
        if found.Err? {
          return Err(found.error);
        }
        ancestors := ancestors + [(targets[i], found.value)];
      }
      return Ok(ancestors);
    }

    /** Records the child with its parent, resolves the back-pointers, then files the new item. */
    method InsertBlock(g: Guard, block: Block) returns (r: Result<Unit, InsertError>)
      requires Terminates(g, View())
      modifies this
      ensures (View(), r) == Insert(g, old(View()), block)
    {
      var depth, ancestors := 0, [];
      if block.parentId.Some? {
        var p := block.parentId.value;
        if p !in blocks {
          return Err(UnknownParent);
        }
        WithChildKeepsQueries(View(), p, block.id);
        blocks := blocks[p := blocks[p].(children := blocks[p].children + [block.id])];
        depth := blocks[p].depth + 1;
        var resolved := ResolvePointers(g, p, AncestorDepths(depth));
        if resolved.Err? {
          return Err(Query(resolved.error));
        }
        ancestors := resolved.value;
      }
      var listed := if depth in depths then depths[depth] else [];
      depths := depths[depth := listed + [block.id]];
      blocks := blocks[block.id := Item(block, depth, [], ancestors)];
      return Ok(Unit);
    }
  }

  /** At most 96 hops and one for each 4^16 of the gap; at most 3 for a gap below 4, and 6n - 4 for one below 4^n. */
  ghost predicate WithinBounds(hops: nat, gap: nat) {
    && hops <= 96 + gap / Pow4(16)
    && forall n :: 1 <= n <= 17 && gap < Pow4(n) ==> hops <= if n == 1 then 3 else 6 * n - 4
  }

  lemma AnswerMeetsPromise(g: Guard, t: Tree, id: BlockId, target: nat)
    requires Terminates(g, t) && Sound(t) && id in t.blocks && !Rejects(g, t.blocks[id].depth, target)
    ensures g.AsDocumented? ==> Walk(t, id, target) == Ancestor(t, id, target)
    ensures Walk(t, id, target).Ok? ==>
              t.blocks[id].depth >= target && WithinBounds(Hops(t, id, target), t.blocks[id].depth - target)
  {
    if g.AsDocumented? {
      QueryFindsAncestor(t, id, target);
    }
    if Walk(t, id, target).Ok? {
      BoundHops(t, id, target);
    }
  }

  lemma BoundHops(t: Tree, id: BlockId, target: nat)
    requires Sound(t) && id in t.blocks && target <= t.blocks[id].depth
    requires HopsFall(t) || t.blocks[id].depth <= target
    ensures WithinBounds(Hops(t, id, target), t.blocks[id].depth - target)
  {
    SoundHopsFall(t);
    HopBound.HopsAnyGap(t, id, target);
    forall n | 1 <= n <= 17 && t.blocks[id].depth - target < Pow4(n)
      ensures Hops(t, id, target) <= if n == 1 then 3 else 6 * n - 4
    {
      HopBound.HopsLogarithmic(t, id, target, n);
      if n >= 2 {
        HopWorstCase.HopsSharp(t, id, target, n);
      }
    }
  }
}
