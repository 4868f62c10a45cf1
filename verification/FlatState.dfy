/**
 The flat state as a value: every write is kept under its key, its depth and its block, and a
 block reads the write of its nearest ancestor.
 */
module FlatState {
  import opened Types
  import opened ForkTree
  import opened AncestorWalk
  import opened ForkTreeInsert

  /** The writes of one key, by depth and block; `None` marks a removal. */
  type Writes = map<nat, map<BlockId, Option<Value>>>

  type State = map<Key, Writes>

  type Change = (Key, Option<Value>)

  function Entry(s: State, k: Key, d: nat, id: BlockId): Option<Option<Value>> {
    if k in s && d in s[k] && id in s[k][d] then Some(s[k][d][id]) else None
  }

  // ----- Applying a changeset -----

  function PutWrite(w: Writes, d: nat, id: BlockId, v: Option<Value>): Writes {
    var at := if d in w then w[d] else map[];
    w[d := at[id := v]]
  }

  function WritesOf(s: State, k: Key): Writes {
    if k in s then s[k] else map[]
  }

  function WithEntry(s: State, d: nat, id: BlockId, change: Change): State {
    s[change.0 := PutWrite(WritesOf(s, change.0), d, id, change.1)]
  }

  /** The changes applied one after another at the given block. */
  function ApplyChanges(s: State, changes: seq<Change>, d: nat, id: BlockId): State {
    if changes == [] then s
    else
      var n := |changes| - 1;
      WithEntry(ApplyChanges(s, changes[..n], d, id), d, id, changes[n])
  }

  /** The change that counts for a key: the last one. */
  function LastChange(changes: seq<Change>, k: Key): Option<Option<Value>> {
    if changes == [] then None
    else
      var n := |changes| - 1;
      if changes[n].0 == k then Some(changes[n].1) else LastChange(changes[..n], k)
  }

  /** No other change of the key comes after it. */
  lemma {:induction false} LastChangeIsLast(changes: seq<Change>, k: Key, i: nat)
    requires i < |changes| && changes[i].0 == k && forall j :: i < j < |changes| ==> changes[j].0 != k
    ensures LastChange(changes, k) == Some(changes[i].1)
  {
    if i < |changes| - 1 {
      LastChangeIsLast(changes[..|changes| - 1], k, i);
    }
  }

  lemma {:induction false} ApplyAtKey(s: State, changes: seq<Change>, d: nat, id: BlockId, k: Key)
    ensures var s' := ApplyChanges(s, changes, d, id);
            match LastChange(changes, k)
            case None => (k in s' <==> k in s) && WritesOf(s', k) == WritesOf(s, k)
            case Some(v) => k in s' && s'[k] == PutWrite(WritesOf(s, k), d, id, v)
  {
    if changes != [] {
      var n := |changes| - 1;
      ApplyAtKey(s, changes[..n], d, id, k);
      if changes[n].0 == k {
        var w := WritesOf(s, k);
        var last := LastChange(changes[..n], k);
        if last.Some? {
          var at := if d in w then w[d] else map[];
          assert at[id := last.value][id := changes[n].1] == at[id := changes[n].1];
          assert PutWrite(PutWrite(w, d, id, last.value), d, id, changes[n].1) == PutWrite(w, d, id, changes[n].1);
        }
      }
    }
  }

  /** Applying changes at a block writes its last change for each key there, and nothing else anywhere. */
  lemma ApplyEntry(s: State, changes: seq<Change>, d: nat, id: BlockId, k: Key, d': nat, id': BlockId)
    ensures Entry(ApplyChanges(s, changes, d, id), k, d', id') ==
            if d' == d && id' == id && LastChange(changes, k).Some? then LastChange(changes, k)
            else Entry(s, k, d', id')
  {
    ApplyAtKey(s, changes, d, id, k);
  }

  // ----- Changesets in any order -----

  /** The changes list every entry of the changeset once, in some order. */
  ghost predicate Enumerates(changes: seq<Change>, changeset: map<Key, Option<Value>>) {
    && (forall i :: 0 <= i < |changes| ==> changes[i].0 in changeset && changeset[changes[i].0] == changes[i].1)
    && (forall k :: k in changeset ==> exists i :: 0 <= i < |changes| && changes[i].0 == k)
    && (forall i, j :: 0 <= i < j < |changes| ==> changes[i].0 != changes[j].0)
  }

  lemma {:induction false} LastChangeFound(changes: seq<Change>, k: Key)
    ensures LastChange(changes, k).Some? <==> exists i :: 0 <= i < |changes| && changes[i].0 == k
    ensures LastChange(changes, k).Some? ==> (k, LastChange(changes, k).value) in changes
  {
    if changes != [] {
      var n := |changes| - 1;
      LastChangeFound(changes[..n], k);
      if i :| 0 <= i < |changes| && changes[i].0 == k {
        assert i < n ==> changes[..n][i].0 == k;
      }
    }
  }

  function Lookup<K, V>(m: map<K, V>, k: K): Option<V> {
    if k in m then Some(m[k]) else None
  }

  lemma EnumerationLooksUp(changes: seq<Change>, changeset: map<Key, Option<Value>>, k: Key)
    requires Enumerates(changes, changeset)
    ensures LastChange(changes, k) == Lookup(changeset, k)
  {
    LastChangeFound(changes, k);
    if LastChange(changes, k).Some? {
      var i :| 0 <= i < |changes| && changes[i] == (k, LastChange(changes, k).value);
    }
  }

  /** The whole changeset entered at once. */
  function Commit(s: State, changeset: map<Key, Option<Value>>, d: nat, id: BlockId): State {
    map k | k in s.Keys + changeset.Keys ::
      if k in changeset then PutWrite(WritesOf(s, k), d, id, changeset[k]) else s[k]
  }

  /** Whatever order the changeset is iterated in, the outcome is the same. */
  lemma ApplyAnyOrder(s: State, changes: seq<Change>, changeset: map<Key, Option<Value>>, d: nat, id: BlockId)
    requires Enumerates(changes, changeset)
    ensures ApplyChanges(s, changes, d, id) == Commit(s, changeset, d, id)
  {
    var s', c := ApplyChanges(s, changes, d, id), Commit(s, changeset, d, id);
    forall k ensures (k in s' <==> k in c) && (k in s' ==> s'[k] == c[k]) {
      ApplyAtKey(s, changes, d, id, k);
      EnumerationLooksUp(changes, changeset, k);
      assert k in s ==> WritesOf(s, k) == s[k];
      assert k in s' ==> WritesOf(s', k) == s'[k];
    }
  }

  // ----- Reading -----

  /** Every write is filed under the depth of a known block. */
  ghost predicate Placed(t: Tree, s: State) {
    forall k, d, id :: Entry(s, k, d, id).Some? ==> id in t.blocks && t.blocks[id].depth == d
  }

  /** The write of the nearest block on a path that wrote the key; a removal reads as none. */
  function Nearest(path: seq<BlockId>, s: State, k: Key): Option<Value> {
    if path == [] then None
    else
      var n := |path| - 1;
      match Entry(s, k, n, path[n])
      case Some(v) => v
      case None => Nearest(path[..n], s, k)
  }

  /** What the state promises for a known block. */
  ghost function ReadAt(t: Tree, s: State, k: Key, id: BlockId): Option<Value>
    requires Linked(t) && id in t.blocks
  {
    Nearest(Path(t, id), s, k)
  }

  /** No block of the path below index `d` wrote the key. */
  ghost predicate UnwrittenBelow(path: seq<BlockId>, s: State, k: Key, d: int) {
    forall j :: d < j < |path| && j >= 0 ==> Entry(s, k, j, path[j]).None?
  }

  /** The reading is that of the deepest writer on the path. */
  lemma {:induction false} DeepestWriterRead(path: seq<BlockId>, s: State, k: Key, i: nat)
    requires i < |path| && Entry(s, k, i, path[i]).Some? && UnwrittenBelow(path, s, k, i)
    ensures Nearest(path, s, k) == Entry(s, k, i, path[i]).value
  {
    var n := |path| - 1;
    if i < n {
      assert Entry(s, k, n, path[n]).None?;
      DeepestWriterRead(path[..n], s, k, i);
    }
  }

  /** If nobody on the path wrote, nothing is read. */
  lemma {:induction false} NoWriterNoValue(path: seq<BlockId>, s: State, k: Key)
    requires UnwrittenBelow(path, s, k, -1)
    ensures Nearest(path, s, k) == None
  {
    if path != [] {
      var n := |path| - 1;
      assert Entry(s, k, n, path[n]).None?;
      NoWriterNoValue(path[..n], s, k);
    }
  }

  // ----- Fork isolation -----

  lemma {:induction false} NearestAfterApply(
    path: seq<BlockId>, s: State, changes: seq<Change>, d: nat, id: BlockId, k: Key)
    ensures Nearest(path, ApplyChanges(s, changes, d, id), k) ==
            if d < |path| && path[d] == id && LastChange(changes, k).Some? && UnwrittenBelow(path, s, k, d)
            then LastChange(changes, k).value else Nearest(path, s, k)
  {
    if path != [] {
      var n := |path| - 1;
      NearestAfterApply(path[..n], s, changes, d, id, k);
      ApplyEntry(s, changes, d, id, k, n, path[n]);
      assert UnwrittenBelow(path, s, k, d) ==> UnwrittenBelow(path[..n], s, k, d);
      if UnwrittenBelow(path[..n], s, k, d) && (n <= d || Entry(s, k, n, path[n]).None?) {
        forall j | d < j < |path| ensures Entry(s, k, j, path[j]).None? {
          assert j < n ==> path[..n][j] == path[j];
        }
        assert UnwrittenBelow(path, s, k, d);
      }
    }
  }

  /**
   Applying a changeset at `b` changes what `c` reads for `k` only if `b` is on the path of `c`, the
   changeset has `k`, and no block below `b` on that path wrote `k`; and then `c` reads the change.
   */
  lemma ForkIsolation(t: Tree, s: State, changes: seq<Change>, b: BlockId, c: BlockId, k: Key)
    requires Linked(t) && b in t.blocks && c in t.blocks
    ensures ReadAt(t, ApplyChanges(s, changes, t.blocks[b].depth, b), k, c) ==
            if Above(t, b, c) && LastChange(changes, k).Some? && UnwrittenBelow(Path(t, c), s, k, t.blocks[b].depth)
            then LastChange(changes, k).value else ReadAt(t, s, k, c)
  {
    AboveIsPrefix(t, b, c);
    NearestAfterApply(Path(t, c), s, changes, t.blocks[b].depth, b, k);
  }

  lemma ApplyKeepsPlaced(t: Tree, s: State, changes: seq<Change>, b: BlockId)
    requires Placed(t, s) && b in t.blocks
    ensures Placed(t, ApplyChanges(s, changes, t.blocks[b].depth, b))
  {
    var s' := ApplyChanges(s, changes, t.blocks[b].depth, b);
    forall k, d, id | Entry(s', k, d, id).Some? ensures id in t.blocks && t.blocks[id].depth == d {
      ApplyEntry(s, changes, t.blocks[b].depth, b, k, d, id);
    }
  }

  /** Growth of the tree changes no reading at an old block. */
  lemma GrowthKeepsReadings(t: Tree, t': Tree, s: State, k: Key, id: BlockId)
    requires Linked(t) && Linked(t') && Extends(t, t') && id in t.blocks
    ensures ReadAt(t', s, k, id) == ReadAt(t, s, k, id)
    ensures Placed(t, s) ==> Placed(t', s)
  {
    PathStable(t, t', id);
  }

  /** Nor does any run of insertions. */
  lemma RunsKeepReadings(t: Tree, blocks: seq<Block>, s: State, k: Key, id: BlockId)
    requires Valid(t) && FreshRun(t, blocks) && id in t.blocks
    ensures id in InsertAll(t, blocks).blocks && ReadAt(InsertAll(t, blocks), s, k, id) == ReadAt(t, s, k, id)
    ensures Placed(t, s) ==> Placed(InsertAll(t, blocks), s)
  {
    RunExtends(t, blocks);
    PathStable(t, InsertAll(t, blocks), id);
  }

  // ----- Reading with the comparison as written -----

  ghost predicate WrittenAbove(s: State, k: Key, depth: nat) {
    exists d: nat, id :: d < depth && Entry(s, k, d, id).Some?
  }

  /** Reading as the source does it: a block sees its own write, or an error as soon as any fork wrote earlier. */
  ghost function WrittenRead(t: Tree, s: State, k: Key, id: BlockId): Result<Option<Value>, QueryError>
    requires id in t.blocks
  {
    var own := Entry(s, k, t.blocks[id].depth, id);
    if own.Some? then Ok(own.value)
    else if WrittenAbove(s, k, t.blocks[id].depth) then Err(InvalidAncestorDepth)
    else Ok(None)
  }

  /** Such a reading is right exactly when the block wrote the key itself or no shallower block did. */
  lemma WrittenReadAgreesIff(t: Tree, s: State, k: Key, id: BlockId)
    requires Linked(t) && id in t.blocks
    ensures WrittenRead(t, s, k, id) == Ok(ReadAt(t, s, k, id)) <==>
            Entry(s, k, t.blocks[id].depth, id).Some? || !WrittenAbove(s, k, t.blocks[id].depth)
  {
    var path := Path(t, id);
    if Entry(s, k, t.blocks[id].depth, id).None? && !WrittenAbove(s, k, t.blocks[id].depth) {
      assert UnwrittenBelow(path, s, k, -1);
      NoWriterNoValue(path, s, k);
    }
  }

  // ----- Reading as written, whatever ids were inserted -----

  /** Every writer is a known block. */
  ghost predicate KnownWriters(t: Tree, s: State) {
    forall k, d, id :: Entry(s, k, d, id).Some? ==> id in t.blocks
  }

  lemma ApplyKeepsWriters(t: Tree, s: State, changes: seq<Change>, b: BlockId)
    requires KnownWriters(t, s) && b in t.blocks
    ensures KnownWriters(t, ApplyChanges(s, changes, t.blocks[b].depth, b))
  {
    var s' := ApplyChanges(s, changes, t.blocks[b].depth, b);
    forall k, d, id | Entry(s', k, d, id).Some? ensures id in t.blocks {
      ApplyEntry(s, changes, t.blocks[b].depth, b, k, d, id);
    }
  }
}
