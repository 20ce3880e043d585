/**
 * Vocabulary shared by every module: the fixed-width integer ranges of the
 * Rust program and the Option type it uses for absent values.
 */
module Common {

  /** Rust's `Option<T>`. */
  datatype Option<+T> = None | Some(value: T)

  /** The range of Rust's `i32`. */
  type i32 = x: int | -0x8000_0000 <= x < 0x8000_0000

  /** The range of Rust's `u32`. */
  type u32 = x: int | 0 <= x < 0x1_0000_0000

  /** The range of Rust's `u16`. */
  type u16 = x: int | 0 <= x < 0x1_0000

  /** A key set is empty or has a member. */
  lemma {:induction false} EmptyOrMember<T>(keys: set<T>)
    ensures keys == {} || exists k :: k in keys
  {
    if forall k :: k !in keys {
      assert keys == {};
    }
  }

  /** Some key of a non-empty key set: one step of a map iteration whose order is not modelled. */
  method PickKey<T>(keys: set<T>) returns (k: T)
    requires keys != {}
    ensures k in keys
  {
    EmptyOrMember(keys);
    k :| k in keys;
  }
}
