/**
 * `arrayMove`, the helper the agenda uses to reorder stages after a drag: it
 * pads the array with undefined entries up to `newIndex` when needed, takes
 * the element at `oldIndex` out and inserts it at `newIndex`. Arrays of
 * possibly-undefined values are `seq<Option<T>>` with `None` for undefined.
 */
module AgendaMove {
  import opened Wrappers
  import opened Splice

  /** `arr` after the padding loop: undefined entries up to and including `newIndex`. */
  function Padded<T>(arr: seq<Option<T>>, newIndex: nat): (p: seq<Option<T>>)
    ensures |p| == if newIndex >= |arr| then newIndex + 1 else |arr|
    ensures p[..|arr|] == arr
    ensures forall j :: |arr| <= j < |p| ==> p[j] == None
  {
    if newIndex >= |arr| then arr + seq(newIndex - |arr| + 1, _ => None) else arr
  }

  /** The array `arrayMove(arr, oldIndex, newIndex)` leaves behind. */
  function Moved<T>(arr: seq<Option<T>>, oldIndex: nat, newIndex: nat): (r: seq<Option<T>>)
    ensures oldIndex < |Padded(arr, newIndex)| ==> |r| == |Padded(arr, newIndex)|
    ensures oldIndex >= |Padded(arr, newIndex)| ==> |r| == |Padded(arr, newIndex)| + 1
  {
    var p := Padded(arr, newIndex);
    InsertAt(RemoveAt(p, oldIndex), newIndex, if oldIndex < |p| then p[oldIndex] else None)
  }

  /** arrayMove, step by step: the `while (k--)` padding loop, then the two splices. */
  method ArrayMove<T>(arr: seq<Option<T>>, oldIndex: nat, newIndex: nat) returns (r: seq<Option<T>>)
    ensures r == Moved(arr, oldIndex, newIndex)
  {
    r := arr;
    if newIndex >= |r| {
      var k := newIndex - |r| + 1;
      while k > 0
        invariant 0 <= k <= newIndex - |arr| + 1
        invariant r == arr + seq(newIndex - |arr| + 1 - k, _ => None)
      {
        ghost var n := newIndex - |arr| + 1 - k;
        ghost var pad: seq<Option<T>> := seq(n, _ => None);
        assert pad + [None] == seq(n + 1, _ => None);
        r := r + [None];
        k := k - 1;
      }
    }
    assert r == Padded(arr, newIndex);
    var removed := if oldIndex < |r| then [r[oldIndex]] else [];
    r := RemoveAt(r, oldIndex);
    r := InsertAt(r, newIndex, if removed != [] then removed[0] else None);
  }

  /**
   * The element that was at `oldIndex` (undefined when there was none) ends up
   * at `newIndex`; a move from inside the array grows it only as far as
   * `newIndex`.
   */
  lemma MovedPlacesElement<T>(arr: seq<Option<T>>, oldIndex: nat, newIndex: nat)
    ensures newIndex < |Moved(arr, oldIndex, newIndex)|
    ensures Moved(arr, oldIndex, newIndex)[newIndex] == if oldIndex < |arr| then arr[oldIndex] else None
    ensures oldIndex < |arr| ==> |Moved(arr, oldIndex, newIndex)| == if newIndex >= |arr| then newIndex + 1 else |arr|
  {
    var p := Padded(arr, newIndex);
    if oldIndex < |arr| {
      assert p[oldIndex] == p[..|arr|][oldIndex];
    }
  }

  /** A move between two positions of the array permutes it. */
  lemma MovedIsPermutation<T>(arr: seq<Option<T>>, oldIndex: nat, newIndex: nat)
    requires oldIndex < |arr| && newIndex < |arr|
    ensures multiset(Moved(arr, oldIndex, newIndex)) == multiset(arr)
  {
    var q := RemoveAt(arr, oldIndex);
    assert Padded(arr, newIndex) == arr;
    assert Moved(arr, oldIndex, newIndex) == InsertAt(q, newIndex, arr[oldIndex]);
    assert arr == arr[..oldIndex] + [arr[oldIndex]] + arr[oldIndex + 1..];
    assert multiset(arr) == multiset(q) + multiset{arr[oldIndex]};
  }

  /** Every element other than the moved one keeps its relative order. */
  lemma MovedKeepsOrderOfOthers<T>(arr: seq<Option<T>>, oldIndex: nat, newIndex: nat)
    ensures RemoveAt(Moved(arr, oldIndex, newIndex), newIndex) == RemoveAt(Padded(arr, newIndex), oldIndex)
  {
    var p := Padded(arr, newIndex);
    RemoveInserted(RemoveAt(p, oldIndex), newIndex, if oldIndex < |p| then p[oldIndex] else None);
  }

  /**
   * Position by position, inside the array: outside the range between the two
   * indices nothing moves, and inside it the other elements shift by one
   * towards `oldIndex`.
   */
  lemma MovedShifts<T>(arr: seq<Option<T>>, oldIndex: nat, newIndex: nat, j: nat)
    requires oldIndex < |arr| && newIndex < |arr| && j < |arr|
    ensures |Moved(arr, oldIndex, newIndex)| == |arr|
    ensures Moved(arr, oldIndex, newIndex)[j] ==
      if j == newIndex then arr[oldIndex]
      else if j < oldIndex && j < newIndex then arr[j]
      else if j > oldIndex && j > newIndex then arr[j]
      else if oldIndex < newIndex then arr[j + 1]
      else arr[j - 1]
  {
    var q := RemoveAt(arr, oldIndex);
    var r := InsertAt(q, newIndex, arr[oldIndex]);
    assert r == Moved(arr, oldIndex, newIndex);
    if j < newIndex {
      assert r[j] == q[j];
    } else if j > newIndex {
      assert r[j] == q[j - 1];
    }
  }

  /** The defined entries of `s`, as an array that may hold undefined. */
  function Lift<T>(s: seq<T>): (r: seq<Option<T>>)
    ensures |r| == |s|
    ensures forall j :: 0 <= j < |s| ==> r[j] == Some(s[j])
  {
    seq(|s|, j requires 0 <= j < |s| => Some(s[j]))
  }

  /** The entries of an array in which every entry is defined. */
  function Unlift<T>(r: seq<Option<T>>): (s: seq<T>)
    requires forall j :: 0 <= j < |r| ==> r[j].Some?
    ensures Lift(s) == r
  {
    seq(|r|, j requires 0 <= j < |r| => r[j].value)
  }

  /** Moving between positions of a fully defined array leaves it fully defined. */
  lemma MovedStaysDefined<T>(s: seq<T>, oldIndex: nat, newIndex: nat)
    requires oldIndex < |s| && newIndex < |s|
    ensures forall j :: 0 <= j < |Moved(Lift(s), oldIndex, newIndex)| ==> Moved(Lift(s), oldIndex, newIndex)[j].Some?
  {
    var r := Moved(Lift(s), oldIndex, newIndex);
    MovedIsPermutation(Lift(s), oldIndex, newIndex);
    assert None !in Lift(s);
    assert multiset(Lift(s))[None] == 0;
    forall j | 0 <= j < |r| ensures r[j].Some? {
      assert r[j] in multiset(r);
    }
  }
}
