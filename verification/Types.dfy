/** Values shared by the chain modules: results, identifiers and blocks. */
module Types {
  datatype Option<+T> = None | Some(value: T)

  datatype Result<+R, +E> = Ok(value: R) | Err(error: E)

  /** The `Ok(())` payload. */
  datatype Unit = Unit

  /** A block hash: a fork number and a block number. */
  datatype BlockId = BlockId(fork: nat, number: nat)

  datatype Seal = ValidSeal | InvalidSeal

  type Key = nat
  type Value = nat

  datatype Extrinsic = Set(key: Key, value: Value)

  datatype Block = Block(
    seal: Seal,
    id: BlockId,
    parentId: Option<BlockId>,
    number: nat,
    extrinsics: seq<Extrinsic>)

  predicate NoDup<T(==)>(s: seq<T>) {
    forall i, j :: 0 <= i < j < |s| ==> s[i] != s[j]
  }

  lemma AppendKeepsNoDup<T>(s: seq<T>, x: T)
    ensures NoDup(s + [x]) <==> NoDup(s) && x !in s
  {
    var r := s + [x];
    if NoDup(r) {
      forall i, j | 0 <= i < j < |s| ensures s[i] != s[j] {
        assert r[i] != r[j];
      }
      forall i | 0 <= i < |s| ensures s[i] != x {
        assert r[i] != r[|s|];
      }
    }
  }
}
