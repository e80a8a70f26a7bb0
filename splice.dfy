/**
 * The two uses of `Array.prototype.splice` that the editors make, on values:
 * `a.splice(i, 1)` (remove one element) and `a.splice(i, 0, x)` (insert one).
 * Indices are natural numbers; a start index past the end behaves as
 * JavaScript does (removal does nothing, insertion appends).
 */
module Splice {

  /** `s.splice(i, 1)`: the array without its element at `i`. */
  function RemoveAt<T>(s: seq<T>, i: nat): (r: seq<T>)
    ensures i < |s| ==> |r| == |s| - 1
    ensures i < |s| ==> forall j :: 0 <= j < |r| ==> r[j] == (if j < i then s[j] else s[j + 1])
    ensures i >= |s| ==> r == s
    ensures multiset(r) <= multiset(s)
  {
    if i < |s| then
      assert s == s[..i] + [s[i]] + s[i + 1..];
      s[..i] + s[i + 1..]
    else s
  }

  /** `s.splice(i, 0, x)`: `x` inserted before position `i`, or appended when `i >= |s|`. */
  function InsertAt<T>(s: seq<T>, i: nat, x: T): (r: seq<T>)
    ensures |r| == |s| + 1
    ensures i <= |s| ==> r[i] == x
    ensures i > |s| ==> r[|s|] == x
    ensures forall j :: 0 <= j < |s| ==> r[if j < i then j else j + 1] == s[j]
    ensures multiset(r) == multiset(s) + multiset{x}
  {
    var k := if i <= |s| then i else |s|;
    assert s == s[..k] + s[k..];
    s[..k] + [x] + s[k..]
  }

  /** Removing what was just inserted gives the array back. */
  lemma RemoveInserted<T>(s: seq<T>, i: nat, x: T)
    requires i <= |s|
    ensures RemoveAt(InsertAt(s, i, x), i) == s
  {
    var r := InsertAt(s, i, x);
    var q := RemoveAt(r, i);
    assert |q| == |s|;
    forall j | 0 <= j < |s| ensures q[j] == s[j] {
      if j < i {
        assert q[j] == r[j];
      } else {
        assert q[j] == r[j + 1];
      }
    }
  }
}
