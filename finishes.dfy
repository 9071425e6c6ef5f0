/**
 * The finish queue and tag association of frontend/src/lib/stores/finishes.ts.
 *
 * The store holds an array of finishes, oldest first. `pushIso`, `trim` and
 * `clear` replace the array with a new one; `associateTag` scans the current
 * array oldest-first and writes at most one element in place. The pure
 * function `Associate` is the reference definition of that scan.
 */
module Finishes {
  import opened Wrappers

  /** `Finish`; `ts` is kept as the ISO text the `Date` was built from. */
  datatype Finish = Finish(ts: string, gateId: string, id: Option<string>)

  /** `!q[i].id`: no id, or the empty string (which is falsy too). */
  predicate Unassigned(f: Finish) {
    f.id == None || f.id == Some("")
  }

  /** The scan stops at an entry that already carries the tag or has no id. */
  predicate StopsScan(f: Finish, tag: string) {
    f.id == Some(tag) || Unassigned(f)
  }

  function Tagged(f: Finish, tag: string): Finish {
    f.(id := Some(tag))
  }

  /** Reference definition of `associateTag(tag)` on the queue's contents. */
  function Associate(q: seq<Finish>, tag: string): (r: seq<Finish>)
    ensures |r| == |q|
  {
    if q == [] then []
    else if q[0].id == Some(tag) then q
    else if Unassigned(q[0]) then [Tagged(q[0], tag)] + q[1..]
    else [q[0]] + Associate(q[1..], tag)
  }

  /** The index where the scan stops, or |q| when it runs off the end. */
  function StopIndex(q: seq<Finish>, tag: string): (i: nat)
    ensures i <= |q|
    ensures forall j :: 0 <= j < i ==> !StopsScan(q[j], tag)
    ensures i < |q| ==> StopsScan(q[i], tag)
  {
    if q == [] then 0
    else if StopsScan(q[0], tag) then 0
    else 1 + StopIndex(q[1..], tag)
  }

  /**
   * The entry tagged is the first one with no id, provided no earlier entry
   * already carries the tag; when the scan meets the tag first, or no entry is
   * untagged, the queue is unchanged.
   */
  lemma {:induction false} AssociateAtStop(q: seq<Finish>, tag: string)
    ensures var i := StopIndex(q, tag);
      Associate(q, tag) ==
        if i < |q| && q[i].id != Some(tag) then q[i := Tagged(q[i], tag)] else q
  {
    if q != [] && !StopsScan(q[0], tag) {
      var rest := q[1..];
      AssociateAtStop(rest, tag);
      assert Associate(q, tag) == [q[0]] + Associate(rest, tag);
      var i := StopIndex(rest, tag);
      assert StopIndex(q, tag) == i + 1;
      assert q == [q[0]] + rest;
      if i < |rest| && rest[i].id != Some(tag) {
        ConsUpdate(q[0], rest, i, Tagged(rest[i], tag));
      }
    }
  }

  lemma ConsUpdate<T>(x: T, rest: seq<T>, i: nat, v: T)
    requires i < |rest|
    ensures [x] + rest[i := v] == ([x] + rest)[i + 1 := v]
  {
  }

  /**
   * `associateTag` keeps the length and the order, changes at most one entry,
   * and in that entry only the `id`, which it sets to the tag.
   */
  lemma ChangesAtMostOne(q: seq<Finish>, tag: string)
    ensures forall j :: 0 <= j < |q| ==>
      Associate(q, tag)[j].ts == q[j].ts && Associate(q, tag)[j].gateId == q[j].gateId
    ensures forall j, k :: 0 <= j < k < |q| && Associate(q, tag)[j] != q[j] ==> Associate(q, tag)[k] == q[k]
    ensures forall j :: 0 <= j < |q| && Associate(q, tag)[j] != q[j] ==>
      Unassigned(q[j]) && Associate(q, tag)[j].id == Some(tag)
  {
    AssociateAtStop(q, tag);
  }

  /** An id that is set (non-empty) is never overwritten. */
  lemma NeverOverwrites(q: seq<Finish>, tag: string, j: nat)
    requires j < |q| && !Unassigned(q[j])
    ensures Associate(q, tag)[j] == q[j]
  {
    AssociateAtStop(q, tag);
  }

  /** A second `associateTag` with the same tag changes nothing. */
  lemma Idempotent(q: seq<Finish>, tag: string)
    ensures Associate(Associate(q, tag), tag) == Associate(q, tag)
  {
    AssociateAtStop(q, tag);
    var i := StopIndex(q, tag);
    var r := Associate(q, tag);
    AssociateAtStop(r, tag);
    if i < |q| && q[i].id != Some(tag) {
      assert forall j :: 0 <= j < i ==> r[j] == q[j];
      assert r[i].id == Some(tag);
      assert StopIndex(r, tag) == i;
    } else {
      assert r == q;
    }
  }

  /** `trim(max)`: the newest `max` entries when there are more, else the queue itself. */
  function Trimmed(q: seq<Finish>, max: int): seq<Finish> {
    if |q| > max then (if max >= 0 then q[|q| - max..] else []) else q
  }

  const DefaultTrimMax: int := 200

  /** `trim` keeps exactly the newest `min(|q|, max)` entries, in order. */
  lemma TrimKeepsNewest(q: seq<Finish>, max: nat)
    ensures |Trimmed(q, max)| == if |q| > max then max else |q|
    ensures Trimmed(q, max) == q[|q| - |Trimmed(q, max)|..]
  {
  }

  /** Builds a fresh array holding `s`. */
  method FromSeq(s: seq<Finish>) returns (a: array<Finish>)
    ensures fresh(a) && a[..] == s
  {
    a := new Finish[|s|](i requires 0 <= i < |s| => s[i]);
  }

  /** The value of the `finishes` store. */
  class FinishQueue {
    var q: array<Finish>

    /** `createFinishes()`: the store starts empty. */
    constructor ()
      ensures q[..] == []
    {
      q := new Finish[0];
    }

    /** `pushIso(iso, gate_id)`: a new array with one untagged finish appended. */
    method PushIso(iso: string, gateId: string)
      modifies this
      ensures fresh(q)
      ensures q[..] == old(q[..]) + [Finish(iso, gateId, None)]
    {
      q := FromSeq(q[..] + [Finish(iso, gateId, None)]);
    }

    /** `clear()`. */
    method Clear()
      modifies this
      ensures q[..] == []
    {
      q := new Finish[0];
    }

    /** `associateTag(tag)`: the oldest-first scan, writing one element in place. */
    method AssociateTag(tag: string)
      modifies q
      ensures q[..] == Associate(old(q[..]), tag)
    {
      var i := 0;
      while i < q.Length
        invariant 0 <= i <= q.Length
        invariant q[..] == old(q[..])
        invariant forall j :: 0 <= j < i ==> !StopsScan(q[j], tag)
      {
        if q[i].id == Some(tag) {
          break;
        }
        if q[i].id == None || q[i].id == Some("") {
          q[i] := q[i].(id := Some(tag));
          break;
        }
        i := i + 1;
      }
      AssociateAtStop(old(q[..]), tag);
      assert StopIndex(old(q[..]), tag) == i;
    }

    /** `trim(max)`; `None` is a call without an argument (`max = 200`). */
    method Trim(max: Option<int>)
      modifies this
      ensures q[..] == Trimmed(old(q[..]), max.GetOr(DefaultTrimMax))
    {
      var m := max.GetOr(DefaultTrimMax);
      if q.Length > m {
        q := FromSeq(Trimmed(q[..], m));
      }
    }
  }
}
