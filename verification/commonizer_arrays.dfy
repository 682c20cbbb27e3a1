/** The per-slot arrays of lists the metadata visitor collects into: one
    mutable list per slot of a node, filled from the slot-indexed results
    of the node's children. */
module SlotArrays {
  import opened Wrappers

  /** `createArray`: one empty list per slot. */
  function CreateArray<T>(dimension: nat): (r: seq<seq<T>>)
    ensures |r| == dimension
    ensures forall k | 0 <= k < |r| :: r[k] == []
  {
    seq(dimension, (k: int) => [])
  }

  /** What `list` contributes to slot `k` from position `from` on: its
      entry at `k`, when there is one and it is not null. */
  function AddedAt<T>(list: seq<Option<T>>, from: nat, k: nat): seq<T> {
    if from <= k < |list| && list[k].Some? then [list[k].value] else []
  }

  /** `plusAssign`, from position `from` of `list` on: each non-null entry
      is appended to the list of its own slot; a null entry is skipped
      without touching the array, so only a non-null entry past the last
      slot fails. */
  function PlusAssignFrom<T>(arr: seq<seq<T>>, list: seq<Option<T>>, from: nat): (r: Result<seq<seq<T>>>)
    requires from <= |list|
    ensures r.Ok? <==> forall i | from <= i < |list| :: list[i].Some? ==> i < |arr|
    ensures r.Fail? ==> r.failure == IndexOutOfBounds
    ensures r.Ok? ==> |r.value| == |arr| && forall k | 0 <= k < |arr| :: r.value[k] == arr[k] + AddedAt(list, from, k)
    decreases |list| - from
  {
    if from == |list| then Ok(arr)
    else match list[from]
      case None => PlusAssignFrom(arr, list, from + 1)
      case Some(v) =>
        if from < |arr| then PlusAssignFrom(arr[from := arr[from] + [v]], list, from + 1)
        else Fail(IndexOutOfBounds)
  }

  function PlusAssign<T>(arr: seq<seq<T>>, list: seq<Option<T>>): Result<seq<seq<T>>> {
    PlusAssignFrom(arr, list, 0)
  }

  /** A list no longer than the array always fits, and adds exactly its
      non-null entries, each to its own slot. */
  lemma PlusAssignFits<T>(arr: seq<seq<T>>, list: seq<Option<T>>)
    requires |list| <= |arr|
    ensures PlusAssign(arr, list).Ok?
    ensures forall k | 0 <= k < |arr| ::
              PlusAssign(arr, list).value[k] == arr[k] + (if k < |list| && list[k].Some? then [list[k].value] else [])
  {
  }

  // ---------------------------------------------------------------------
  // Maps built from pairs.

  /** The keys of a list of pairs. */
  function Keys<K, V>(pairs: seq<(K, V)>): set<K> {
    set i | 0 <= i < |pairs| :: pairs[i].0
  }

  /** Kotlin's `toMap`: pairs inserted in order, so a later pair with the
      same key replaces an earlier one. */
  function ToMap<K, V>(pairs: seq<(K, V)>): map<K, V> {
    if |pairs| == 0 then map[]
    else ToMap(pairs[..|pairs| - 1])[pairs[|pairs| - 1].0 := pairs[|pairs| - 1].1]
  }

  /** The map has exactly the keys of the pairs. */
  lemma {:induction false} ToMapKeys<K, V>(pairs: seq<(K, V)>)
    ensures ToMap(pairs).Keys == Keys(pairs)
  {
    if |pairs| > 0 {
      var init := pairs[..|pairs| - 1];
      ToMapKeys(init);
      forall key | key in Keys(pairs) ensures key in Keys(init) + {pairs[|pairs| - 1].0} {
        var i :| 0 <= i < |pairs| && pairs[i].0 == key;
        if i < |init| { assert init[i].0 == key; }
      }
      forall key | key in Keys(init) ensures key in Keys(pairs) {
        var i :| 0 <= i < |init| && init[i].0 == key;
        assert pairs[i].0 == key;
      }
    }
  }

  /** A key maps to the value of its last pair. */
  lemma {:induction false} ToMapLastWins<K, V>(pairs: seq<(K, V)>, i: nat)
    requires i < |pairs|
    requires forall j | i < j < |pairs| :: pairs[j].0 != pairs[i].0
    ensures pairs[i].0 in ToMap(pairs) && ToMap(pairs)[pairs[i].0] == pairs[i].1
  {
    if i < |pairs| - 1 {
      var init := pairs[..|pairs| - 1];
      assert init[i] == pairs[i];
      forall j | i < j < |init| ensures init[j].0 != init[i].0 {
        assert init[j] == pairs[j];
      }
      ToMapLastWins(init, i);
      assert pairs[|pairs| - 1].0 != pairs[i].0;
    }
  }
}
