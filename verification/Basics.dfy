/** Vocabulary shared by all parts of the model. */
module Basics {

  datatype Option<+T> = None | Some(value: T)

  /** Largest value of the source's 64-bit unsigned integers. */
  const MAX_U64: nat := 0xFFFF_FFFF_FFFF_FFFF

  type U64 = x: nat | x <= 0xFFFF_FFFF_FFFF_FFFF

  type I64 = x: int | -0x8000_0000_0000_0000 <= x < 0x8000_0000_0000_0000

  /** Transport address of a replica. */
  type Uid = string

  /** Identity of a shared event. An empty origin is how the source spells "no shared identity". */
  datatype SharedEventId = SharedEventId(originUid: Uid, originSequence: nat) {
    predicate IsShared() {
      originUid != ""
    }
  }

  /** The identity of a node's own, unshared events. */
  const NO_IDENTITY: SharedEventId := SharedEventId("", 0)

  ghost function SeqToSet<T>(s: seq<T>): set<T> {
    set x | x in s
  }
}
