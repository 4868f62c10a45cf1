/** The flat state and its overlay as the objects the source keeps. */
module MemoryFlatState {
  import opened Types
  import opened ForkTree
  import opened AncestorWalk
  import opened FlatState
  import opened SearchOrder
  import opened MemoryForkTree

  /** What a read of a known block must return, for either comparison. */
  ghost function Promised(g: Guard, t: Tree, s: State, k: Key, id: BlockId): Result<Option<Value>, QueryError>
    requires Linked(t) && id in t.blocks
  {
    match g
    case AsDocumented => Ok(ReadAt(t, s, k, id))
    case AsWritten => WrittenRead(t, s, k, id)
  }

  /** The search has passed every depth from `d` on without finding an ancestor's write. */
  ghost predicate Passed(g: Guard, t: Tree, s: State, k: Key, id: BlockId, d: nat)
    requires Linked(t) && id in t.blocks && d <= t.blocks[id].depth + 1
  {
    match g
    case AsDocumented => Nearest(Path(t, id), s, k) == Nearest(Path(t, id)[..d], s, k)
    case AsWritten =>
      && (d <= t.blocks[id].depth ==> Entry(s, k, t.blocks[id].depth, id).None?)
      && forall d', id' :: d <= d' < t.blocks[id].depth ==> Entry(s, k, d', id').None?
  }

  /** No write at depth `d` is by an ancestor. */
  ghost predicate Skipped(g: Guard, t: Tree, s: State, k: Key, id: BlockId, d: nat)
    requires Linked(t) && id in t.blocks && d <= t.blocks[id].depth
  {
    match g
    case AsDocumented => Entry(s, k, d, Path(t, id)[d]).None?
    case AsWritten =>
      && (d == t.blocks[id].depth ==> Entry(s, k, d, id).None?)
      && (d < t.blocks[id].depth ==> forall at :: Entry(s, k, d, at).None?)
  }

  lemma StartSearch(g: Guard, t: Tree, s: State, k: Key, id: BlockId)
    requires Linked(t) && id in t.blocks
    ensures Passed(g, t, s, k, id, t.blocks[id].depth + 1)
  {
    assert Path(t, id)[..t.blocks[id].depth + 1] == Path(t, id);
  }

  lemma PassDepth(g: Guard, t: Tree, s: State, k: Key, id: BlockId, d: nat)
    requires Linked(t) && id in t.blocks && d <= t.blocks[id].depth
    requires Passed(g, t, s, k, id, d + 1) && Skipped(g, t, s, k, id, d)
    ensures Passed(g, t, s, k, id, d)
  {
    assert Path(t, id)[..d + 1][..d] == Path(t, id)[..d];
  }

  /** A write whose block the tree calls an ancestor is the one promised; an error is the promised one. */
  lemma CheckedWrite(g: Guard, t: Tree, s: State, k: Key, id: BlockId, d: nat, at: BlockId)
    requires Sound(t) && HopsFall(t) && Placed(t, s) && id in t.blocks && d <= t.blocks[id].depth
    requires Passed(g, t, s, k, id, d + 1) && Entry(s, k, d, at).Some?
    ensures IsAncestor(g, t, id, at) == Ok(true) ==> Promised(g, t, s, k, id) == Ok(Entry(s, k, d, at).value)
    ensures IsAncestor(g, t, id, at) == Ok(false) ==>
              (g.AsDocumented? ==> at != Path(t, id)[d]) && (g.AsWritten? ==> at != id && d == t.blocks[id].depth)
    ensures IsAncestor(g, t, id, at).Err? ==> Promised(g, t, s, k, id) == Err(IsAncestor(g, t, id, at).error)
  {
    if g.AsDocumented? {
      CheckedWriteAsDocumented(t, s, k, id, d, at);
    } else {
      CheckedWriteAsWritten(t, s, k, id, d, at);
    }
  }

  lemma CheckedWriteAsDocumented(t: Tree, s: State, k: Key, id: BlockId, d: nat, at: BlockId)
    requires Sound(t) && HopsFall(t) && Placed(t, s) && id in t.blocks && d <= t.blocks[id].depth
    requires Passed(AsDocumented, t, s, k, id, d + 1) && Entry(s, k, d, at).Some?
    ensures IsAncestor(AsDocumented, t, id, at) == Ok(at == Path(t, id)[d])
    ensures at == Path(t, id)[d] ==> ReadAt(t, s, k, id) == Entry(s, k, d, at).value
  {
    IsAncestorDecidesAbove(t, id, at);
    AboveIsPrefix(t, at, id);
  }

  lemma CheckedWriteAsWritten(t: Tree, s: State, k: Key, id: BlockId, d: nat, at: BlockId)
    requires Linked(t) && Placed(t, s) && id in t.blocks && d <= t.blocks[id].depth && Entry(s, k, d, at).Some?
    requires Passed(AsWritten, t, s, k, id, d + 1)
    ensures IsAncestor(AsWritten, t, id, at) ==
            if d < t.blocks[id].depth then Err(InvalidAncestorDepth) else Ok(id == at)
    ensures d < t.blocks[id].depth ==> WrittenRead(t, s, k, id) == Err(InvalidAncestorDepth)
    ensures d == t.blocks[id].depth && id == at ==> WrittenRead(t, s, k, id) == Ok(Entry(s, k, d, at).value)
  {
    assert GoodLink(t, id);
  }

  /** Checking one depth, below which nothing was found, gives what is promised or lets the search go on. */
  lemma DepthPromised(
    g: Guard, t: Tree, s: State, k: Key, id: BlockId, d: nat, r: Result<Option<Option<Value>>, QueryError>)
    requires Sound(t) && HopsFall(t) && Placed(t, s) && id in t.blocks && d <= t.blocks[id].depth
    requires Passed(g, t, s, k, id, d + 1) && DepthOutcome(g, t, s, k, id, d, Writers(s, k, d), r)
    ensures match r
            case Err(e) => Promised(g, t, s, k, id) == Err(e)
            case Ok(Some(v)) => Promised(g, t, s, k, id) == Ok(v)
            case Ok(None) => Passed(g, t, s, k, id, d)
  {
    match r {
      case Err(e) =>
        var at :| at in Writers(s, k, d) && IsAncestor(g, t, id, at) == Err(e);
        CheckedWrite(g, t, s, k, id, d, at);
      case Ok(Some(v)) =>
        var at :| at in Writers(s, k, d) && IsAncestor(g, t, id, at) == Ok(true) && Entry(s, k, d, at) == Some(v);
        CheckedWrite(g, t, s, k, id, d, at);
      case Ok(None) =>
        forall at | Entry(s, k, d, at).Some? ensures IsAncestor(g, t, id, at) == Ok(false) &&
                                                     (g.AsDocumented? ==> at != Path(t, id)[d]) &&
                                                     (g.AsWritten? ==> at != id && d == t.blocks[id].depth) {
          CheckedWrite(g, t, s, k, id, d, at);
        }
        assert Skipped(g, t, s, k, id, d);
        PassDepth(g, t, s, k, id, d);
    }
  }

  lemma EndSearch(g: Guard, t: Tree, s: State, k: Key, id: BlockId)
    requires Linked(t) && id in t.blocks && Passed(g, t, s, k, id, 0)
    ensures Promised(g, t, s, k, id) == Ok(None)
  {
  }

  class MemoryFlatState {
    var state: State

    constructor ()
      ensures state == map[]
    {
      state := map[];
    }

    /** A clone of the given state. */
    constructor Of(s: State)
      ensures state == s
    {
      state := s;
    }

    /** Checks the writes of a key at one depth, in any order, up to the first by an ancestor. */
    method SearchDepth(g: Guard, key: Key, blockId: BlockId, tree: MemoryForkTree, d: nat)
      returns (r: Result<Option<Option<Value>>, QueryError>)
      requires Terminates(g, tree.View()) && key in state && blockId in tree.blocks && d <= tree.blocks[blockId].depth
      ensures DepthOutcome(g, tree.View(), state, key, blockId, d, Writers(state, key, d), r)
    {
      ghost var t := tree.View();
      var rest := Writers(state, key, d);
      while rest != {}
        invariant rest <= Writers(state, key, d)
        invariant forall at :: at in Writers(state, key, d) - rest ==> IsAncestor(g, t, blockId, at) == Ok(false)
      {
        var id :| id in rest;
        var above := tree.CheckAncestor(g, blockId, id);
        if above.Err? {
          return Err(above.error);
        }
        if above.value {
          return Ok(Some(state[key][d][id]));
        }
        rest := rest - {id};
      }
      return Ok(None);
    }

    /**
     Searches the depths downwards and, at each depth, the writes in any order.  For a known block
     the outcome is the promised one whatever that order.  As written, and on trees where ids were
     reused too, it is one of those of the deepest depth that decides.
     */
    method Get(g: Guard, key: Key, blockId: BlockId, tree: MemoryForkTree)
      returns (r: Result<Option<Value>, QueryError>)
      requires Terminates(g, tree.View())
      ensures key !in state ==> r == Ok(None)
      ensures key in state && blockId !in tree.blocks ==> r == Err(UnknownBlock)
      ensures Sound(tree.View()) && Placed(tree.View(), state) && blockId in tree.blocks ==>
                r == Promised(g, tree.View(), state, key, blockId)
      ensures g.AsWritten? && Filed(tree.View()) && blockId in tree.blocks ==>
                WrittenOutcome(tree.View(), state, key, blockId, r)
    {
      ghost var t := tree.View();
      ghost var ok := Sound(t) && Placed(t, state) && blockId in t.blocks;
      if key !in state {
        if ok {
          NothingWritten(g, t, state, key, blockId);
        }
        return Ok(None);
      }
      var depth := tree.GetDepth(blockId);
      if depth.Err? {
        return Err(depth.error);
      }
      ghost var filed := g.AsWritten? && Filed(t);
      if ok {
        SoundHopsFall(t);
        StartSearch(g, t, state, key, blockId);
      }
      var d := depth.value + 1;
      while d > 0
        invariant d <= depth.value + 1
        invariant ok ==> Passed(g, t, state, key, blockId, d)
        invariant filed ==> Clear(t, state, key, blockId, d)
      {
        d := d - 1;
        var found := SearchDepth(g, key, blockId, tree, d);
        if ok {
          DepthPromised(g, t, state, key, blockId, d, found);
        }
        if filed {
          DepthWritten(t, state, key, blockId, d, found);
        }
        if found.Err? {
          return Err(found.error);
        }
        if found.value.Some? {
          return Ok(found.value.value);
        }
      }
      if ok {
        EndSearch(g, t, state, key, blockId);
      }
      return Ok(None);
    }

    /** Enters the changes under the depth of the block; nothing happens if the block is unknown. */
    method Apply(changes: seq<Change>, blockId: BlockId, tree: MemoryForkTree) returns (r: Result<Unit, QueryError>)
      modifies this
      ensures blockId !in tree.blocks ==> r == Err(UnknownBlock) && state == old(state)
      ensures blockId in tree.blocks ==>
                r == Ok(Unit) && state == ApplyChanges(old(state), changes, tree.blocks[blockId].depth, blockId)
    {
      var depth := tree.GetDepth(blockId);
      if depth.Err? {
        return Err(depth.error);
      }
      for i := 0 to |changes|
        invariant state == ApplyChanges(old(state), changes[..i], depth.value, blockId)
      {
        var (key, value) := changes[i];
        var writes := if key in state then state[key] else map[];
        var at := if depth.value in writes then writes[depth.value] else map[];
        state := state[key := writes[depth.value := at[blockId := value]]];
        assert changes[..i + 1][..i] == changes[..i];
      }
      assert changes[..|changes|] == changes;
      return Ok(Unit);
    }
  }

  lemma {:induction false} NothingWritten(g: Guard, t: Tree, s: State, k: Key, id: BlockId)
    requires Linked(t) && id in t.blocks && k !in s
    ensures Promised(g, t, s, k, id) == Ok(None)
  {
    if g.AsDocumented? {
      NoWriterNoValue(Path(t, id), s, k);
    }
  }

  /** A changeset under construction over a fixed block. */
  class OverlayedFlatState {
    const flatState: MemoryFlatState
    const forkTree: MemoryForkTree
    const blockId: BlockId
    var changeset: map<Key, Option<Value>>

    constructor (flatState: MemoryFlatState, blockId: BlockId, forkTree: MemoryForkTree)
      ensures this.flatState == flatState && this.forkTree == forkTree && this.blockId == blockId
      ensures changeset == map[]
    {
      this.flatState, this.forkTree, this.blockId := flatState, forkTree, blockId;
      changeset := map[];
    }

    /** Reads the pending change if there is one, and otherwise the state of the block below. */
    method Get(g: Guard, key: Key) returns (r: Result<Option<Value>, QueryError>)
      requires Terminates(g, forkTree.View())
      ensures key in changeset ==> r == Ok(changeset[key])
      ensures key !in changeset && Sound(forkTree.View()) && Placed(forkTree.View(), flatState.state) &&
              blockId in forkTree.blocks ==>
                r == Promised(g, forkTree.View(), flatState.state, key, blockId)
      ensures key !in changeset && key !in flatState.state ==> r == Ok(None)
      ensures key !in changeset && key in flatState.state && blockId !in forkTree.blocks ==> r == Err(UnknownBlock)
    {
      if key in changeset {
        return Ok(changeset[key]);
      }
      r := flatState.Get(g, key, blockId, forkTree);
    }

    method Insert(key: Key, value: Value)
      modifies this`changeset
      ensures changeset == Overlaid(old(changeset), Put(key, value))
      ensures changeset == old(changeset)[key := Some(value)]
    {
      changeset := changeset[key := Some(value)];
    }

    /** The removal is itself a pending change, which hides what the state holds. */
    method Remove(key: Key)
      modifies this`changeset
      ensures changeset == Overlaid(old(changeset), Delete(key))
      ensures changeset == old(changeset)[key := None]
    {
      changeset := changeset[key := None];
    }

    /** The changes, in any order. */
    method IntoChangeset() returns (changes: seq<Change>)
      ensures Enumerates(changes, changeset)
    {
      changes := [];
      var rest := changeset;
      while rest != map[]
        invariant rest.Keys <= changeset.Keys && forall k :: k in rest ==> rest[k] == changeset[k]
        invariant Enumerates(changes, changeset - rest.Keys)
        decreases |rest|
      {
        var k :| k in rest;
        ghost var done := changeset - rest.Keys;
        changes := changes + [(k, rest[k])];
        rest := rest - {k};
        assert changeset - rest.Keys == done[k := changeset[k]];
        EnumerateOneMore(changes[..|changes| - 1], done, k, changeset[k]);
      }
      assert changeset - rest.Keys == changeset;
    }
  }

  lemma EnumerateOneMore(changes: seq<Change>, changeset: map<Key, Option<Value>>, k: Key, v: Option<Value>)
    requires Enumerates(changes, changeset) && k !in changeset
    ensures Enumerates(changes + [(k, v)], changeset[k := v])
  {
    var more, grown := changes + [(k, v)], changeset[k := v];
    forall k' | k' in grown ensures exists i :: 0 <= i < |more| && more[i].0 == k' {
      if k' == k {
        assert more[|changes|].0 == k;
      } else {
        var i :| 0 <= i < |changes| && changes[i].0 == k';
        assert more[i].0 == k';
      }
    }
  }

  // ----- The overlay as a fold -----

  datatype OverlayOp = Put(key: Key, value: Value) | Delete(key: Key)

  function Overlaid(changeset: map<Key, Option<Value>>, op: OverlayOp): map<Key, Option<Value>> {
    match op
    case Put(k, v) => changeset[k := Some(v)]
    case Delete(k) => changeset[k := None]
  }

  function OverlayAll(ops: seq<OverlayOp>): map<Key, Option<Value>> {
    if ops == [] then map[] else Overlaid(OverlayAll(ops[..|ops| - 1]), ops[|ops| - 1])
  }

  /** The last operation on a key. */
  function LastOp(ops: seq<OverlayOp>, k: Key): (r: Option<nat>)
    ensures r.Some? ==> r.value < |ops| && ops[r.value].key == k
    ensures r.Some? ==> forall j :: r.value < j < |ops| ==> ops[j].key != k
    ensures r.None? ==> forall j :: 0 <= j < |ops| ==> ops[j].key != k
  {
    if ops == [] then None
    else if ops[|ops| - 1].key == k then Some(|ops| - 1)
    else LastOp(ops[..|ops| - 1], k)
  }

  /** The value that an operation leaves; a removal leaves none. */
  function Leaves(op: OverlayOp): Option<Value> {
    match op
    case Put(_, v) => Some(v)
    case Delete(_) => None
  }

  /** The pending change of a key is what the last operation on it leaves; without one there is no change. */
  lemma {:induction false} PendingIsLastOp(ops: seq<OverlayOp>, k: Key)
    ensures match LastOp(ops, k)
            case None => k !in OverlayAll(ops)
            case Some(i) => k in OverlayAll(ops) && OverlayAll(ops)[k] == Leaves(ops[i])
  {
    if ops != [] {
      PendingIsLastOp(ops[..|ops| - 1], k);
    }
  }

  /** What reading through the overlay gives. */
  ghost function OverlayRead(changeset: map<Key, Option<Value>>, t: Tree, s: State, k: Key, id: BlockId): Option<Value>
    requires Linked(t) && id in t.blocks
  {
    if k in changeset then changeset[k] else ReadAt(t, s, k, id)
  }
}
