/** What every part of the model shares. */
module Basics {

  datatype Option<+T> = None | Some(value: T)

  newtype Byte = x: int | 0 <= x < 256

  type Bytes = seq<Byte>

  /** A number that no member of a set is. */
  lemma {:induction false} Unused(ids: set<nat>) returns (unused: nat)
    ensures forall id :: id in ids ==> id < unused
    decreases |ids|
  {
    unused := 0;
    if ids != {} {
      var id :| id in ids;
      var other := Unused(ids - {id});
      unused := if other <= id then id + 1 else other;
      assert forall k :: k in ids ==> k == id || k in ids - {id};
    }
  }
}
