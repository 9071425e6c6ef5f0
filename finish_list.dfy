/**
 * frontend/rally-timing-frontend/src/lib/stores.ts: a list of finish times,
 * newest first. `addFinish` replaces the list by `[n, ...v]` and
 * `clearFinishes` by `[]`. The element type is left generic.
 */
module FinishList {
  /** `addFinish(n)`: `n` at index 0, the old list after it, in the same order. */
  function AddFinish<T>(v: seq<T>, n: T): (r: seq<T>)
    ensures |r| == |v| + 1
    ensures r[0] == n && r[1..] == v
  {
    [n] + v
  }

  /** `clearFinishes()`. */
  function ClearFinishes<T>(v: seq<T>): (r: seq<T>)
    ensures r == []
  {
    []
  }

  /** `addFinish` called with each of `ns` in turn. */
  function AddAll<T>(v: seq<T>, ns: seq<T>): seq<T>
    decreases |ns|
  {
    if ns == [] then v else AddAll(AddFinish(v, ns[0]), ns[1..])
  }

  function Reverse<T>(s: seq<T>): (r: seq<T>)
    ensures |r| == |s|
    ensures forall i :: 0 <= i < |s| ==> r[i] == s[|s| - 1 - i]
  {
    if s == [] then [] else Reverse(s[1..]) + [s[0]]
  }

  /** Adding several finishes leaves the newest first: the list is the additions reversed, then the old list. */
  lemma {:induction false} AddAllReverses<T>(v: seq<T>, ns: seq<T>)
    ensures AddAll(v, ns) == Reverse(ns) + v
    decreases |ns|
  {
    if ns != [] {
      AddAllReverses(AddFinish(v, ns[0]), ns[1..]);
      assert Reverse(ns) == Reverse(ns[1..]) + [ns[0]];
      assert Reverse(ns[1..]) + ([ns[0]] + v) == Reverse(ns) + v;
    }
  }
}
