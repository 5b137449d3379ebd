/** Optional values, computations that may panic, and Rust's unsigned
    integer types. A Rust `panic!`, an `unwrap` of `None`, an out-of-range
    index, an arithmetic overflow in a debug build or a failed
    `parse().unwrap()` all abort the program; the model returns `Panic`
    with the reason instead. */
module Outcomes {

  /** `u8`. */
  type U8 = x: int | 0 <= x < 0x100

  /** `u32`. */
  type U32 = x: int | 0 <= x < 0x1_0000_0000

  datatype Option<T> = None | Some(value: T)

  /** The messages of the panics the puzzles can hit. */
  const UnwrapNone: string := "called `Option::unwrap()` on a `None` value"
  const UnwrapErr: string := "called `Result::unwrap()` on an `Err` value"
  const OutOfBounds: string := "index out of bounds"

  datatype Result<T> = Ok(value: T) | Panic(reason: string) {

    predicate IsFailure() {
      Panic?
    }

    function PropagateFailure<U>(): Result<U>
      requires Panic?
    {
      Panic(reason)
    }

    function Extract(): T
      requires Ok?
    {
      value
    }
  }

  /** `filter_map(...).collect()` into a map: a None entry is skipped, a
      panic stops the collection, and a later pair for a key replaces the
      earlier value. */
  function CollectMap<K(==), V>(entries: seq<Option<Result<(K, V)>>>): Result<map<K, V>> {
    if |entries| == 0 then Ok(map[])
    else
      var m :- CollectMap(entries[..|entries| - 1]);
      var last := entries[|entries| - 1];
      if last.None? then Ok(m)
      else if last.value.Panic? then Panic(last.value.reason)
      else Ok(m[last.value.value.0 := last.value.value.1])
  }

  predicate Kept<K(==), V>(entry: Option<Result<(K, V)>>, key: K) {
    entry.Some? && entry.value.Ok? && entry.value.value.0 == key
  }

  /** Entry `i` is the last one that keeps `key`, and keeps it with `value`. */
  ghost predicate LastKept<K, V>(entries: seq<Option<Result<(K, V)>>>, i: int, key: K, value: V) {
    && 0 <= i < |entries|
    && entries[i] == Some(Ok((key, value)))
    && forall j | i < j < |entries| :: !Kept(entries[j], key)
  }

  /** The collection panics exactly when some entry is a panic. */
  lemma {:induction false} CollectMapPanics<K, V>(entries: seq<Option<Result<(K, V)>>>)
    ensures CollectMap(entries).Panic? <==> exists i | 0 <= i < |entries| :: entries[i].Some? && entries[i].value.Panic?
    decreases |entries|
  {
    if |entries| != 0 {
      var init := entries[..|entries| - 1];
      CollectMapPanics(init);
      assert forall i | 0 <= i < |init| :: entries[i] == init[i];
    }
  }

  /** Otherwise the keys are exactly the kept keys, each with the value of
      the last entry that keeps it. */
  lemma {:induction false} CollectMapLastWins<K, V>(entries: seq<Option<Result<(K, V)>>>)
    requires CollectMap(entries).Ok?
    ensures forall i, k | 0 <= i < |entries| && Kept(entries[i], k) :: k in CollectMap(entries).value
    ensures forall k | k in CollectMap(entries).value :: exists i :: LastKept(entries, i, k, CollectMap(entries).value[k])
    decreases |entries|
  {
    if |entries| != 0 {
      var init, last := entries[..|entries| - 1], entries[|entries| - 1];
      CollectMapLastWins(init);
      var m := CollectMap(init).value;
      assert forall i | 0 <= i < |init| :: entries[i] == init[i];
      if last.Some? {
        var (key, value) := last.value.value;
        var next := m[key := value];
        assert CollectMap(entries) == Ok(next);
        forall k | k in next ensures exists i :: LastKept(entries, i, k, next[k]) {
          if k == key {
            assert LastKept(entries, |entries| - 1, k, next[k]);
          } else {
            var i :| LastKept(init, i, k, m[k]);
            assert LastKept(entries, i, k, next[k]);
          }
        }
      } else {
        forall k | k in m ensures exists i :: LastKept(entries, i, k, m[k]) {
          var i :| LastKept(init, i, k, m[k]);
          assert LastKept(entries, i, k, m[k]);
        }
      }
    }
  }
}
