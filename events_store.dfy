/**
 * rally-timer-app/src/lib/stores/events.ts: the client's list of events,
 * loaded from the NDJSON log, extended optimistically on `push` and then
 * reconciled with the record the server saved, and emptied on `clear`.
 *
 * `fetch` is replaced by its outcome, `JSON.parse` and `randomUUID()` are
 * parameters, and the store cell is the field `items`. `push` is two steps
 * because other updates may run between its optimistic append and its
 * reconciliation: `PushOptimistic` and `Reconcile`.
 */
module EventsStore {
  import opened Wrappers
  import opened Json
  import Ndjson
  import Text

  // ------------------------------------------------------------------ parseNdjson

  /** `JSON.parse` of every line, or `None` as soon as one of them throws. */
  function ParseAll(lines: seq<string>, parse: string -> Option<Json>): (r: Option<seq<Json>>)
    ensures r.Some? <==> forall i :: 0 <= i < |lines| ==> parse(lines[i]).Some?
    ensures r.Some? ==> |r.value| == |lines|
    ensures r.Some? ==> forall i :: 0 <= i < |lines| ==> r.value[i] == parse(lines[i]).value
  {
    if lines == [] then Some([])
    else
      var rest := ParseAll(lines[1..], parse);
      if parse(lines[0]).None? || rest.None? then None
      else Some([parse(lines[0]).value] + rest.value)
  }

  /** `parseNdjson`: `None` stands for the exception a malformed line raises. */
  function ParseNdjson(text: string, parse: string -> Option<Json>): Option<seq<Json>> {
    ParseAll(Ndjson.Lines(text), parse)
  }

  /** What `hydrate` stores: the parsed log, or `[]` on any failure. */
  function Hydrated(reply: Ndjson.FetchReply, parse: string -> Option<Json>): seq<Json> {
    match reply
    case Fetched(text) => ParseNdjson(text, parse).GetOr([])
    case _ => []
  }

  /** A blank log (only whitespace) holds no events. */
  lemma BlankLog(text: string, parse: string -> Option<Json>)
    requires Text.AllOf(text, Text.IsJsSpace)
    ensures ParseNdjson(text, parse) == Some([])
  {
    Ndjson.BlankHasNoLines(text);
  }

  /**
   * Hydration keeps the log's events in order, one per non-empty line, and
   * falls back to the empty list when the request fails or any line does not
   * parse.
   */
  lemma HydratedIff(reply: Ndjson.FetchReply, parse: string -> Option<Json>)
    ensures var h := Hydrated(reply, parse);
      && (!reply.Fetched? ==> h == [])
      && (reply.Fetched? && ParseNdjson(reply.text, parse).None? ==> h == [])
      && (reply.Fetched? && ParseNdjson(reply.text, parse).Some? ==>
            var ls := Ndjson.Lines(reply.text);
            |h| == |ls| && forall i :: 0 <= i < |ls| ==> h[i] == parse(ls[i]).value)
  {
  }

  /** Reading back a log the server built from encoded events gives those events. */
  lemma HydrateRoundTrip(evs: seq<Json>, stringify: Json -> string, parse: string -> Option<Json>)
    requires forall i :: 0 <= i < |evs| ==> parse(stringify(evs[i])) == Some(evs[i])
    requires forall i :: 0 <= i < |evs| ==> Ndjson.IsRecordLine(stringify(evs[i]))
    ensures Hydrated(Ndjson.Fetched(Ndjson.Unlines(seq(|evs|, i requires 0 <= i < |evs| => stringify(evs[i])))), parse) == evs
  {
    var lines := seq(|evs|, i requires 0 <= i < |evs| => stringify(evs[i]));
    assert Ndjson.RecordLines(lines);
    Ndjson.LinesOfUnlines(lines);
    var r := ParseAll(lines, parse);
    assert r.Some?;
    assert r.value == evs;
  }

  // ------------------------------------------------------------------ push and reconciliation

  /** `{ ...e, id: \`prov_${uuid}\` }`. */
  function Provisional(e: seq<Field>, uuid: string): (p: Json)
    ensures p.JObj? && Get(p.fields, "id") == Some(JStr("prov_" + uuid))
    ensures forall k :: k != "id" ==> Get(p.fields, k) == Get(e, k)
  {
    SetOthers(e, "id", JStr("prov_" + uuid));
    JObj(Set(e, "id", JStr("prov_" + uuid)))
  }

  /**
   * `===` on two property reads. `undefined` equals `undefined`; primitives
   * compare by value; two arrays or objects read from different values are
   * different references, so they are never equal here.
   */
  predicate StrictEq(a: Option<Json>, b: Option<Json>) {
    match a
    case None => b.None?
    case Some(x) => b.Some? && !x.JArr? && !x.JObj? && x == b.value
  }

  /** The `findIndex` test: the provisional id, or the same `type`, `ts` and `src` as the pushed event. */
  predicate Matches(x: Json, provId: string, e: seq<Field>) {
    StrictEq(Member(x, "id"), Some(JStr(provId)))
    || (StrictEq(Member(x, "type"), Get(e, "type")) && StrictEq(Member(x, "ts"), Get(e, "ts"))
        && StrictEq(Member(x, "src"), Get(e, "src")))
  }

  /** The callback given to `findIndex`: reading a property of `null` throws (`None`). */
  function MatchTest(provId: string, e: seq<Field>): Json -> Option<bool> {
    (x: Json) => if x.JNull? then None else Some(Matches(x, provId, e))
  }

  /** `findIndex` finds an index, finds nothing, or its callback throws. */
  datatype Found = At(i: nat) | NotFound | Threw

  /** `q.findIndex(test)` started at index `k`. */
  function FindFrom(q: seq<Json>, k: nat, test: Json -> Option<bool>): (r: Found)
    requires k <= |q|
    ensures r.At? ==> k <= r.i < |q| && test(q[r.i]) == Some(true)
    ensures r.At? ==> forall j :: k <= j < r.i ==> test(q[j]) == Some(false)
    ensures r.NotFound? ==> forall j :: k <= j < |q| ==> test(q[j]) == Some(false)
    ensures r.Threw? ==> exists j :: k <= j < |q| && test(q[j]).None? && ThrowsAt(q, k, j, test)
    decreases |q| - k
  {
    if k == |q| then NotFound
    else if test(q[k]).None? then Threw
    else if test(q[k]).value then At(k)
    else FindFrom(q, k + 1, test)
  }

  /** `q.findIndex(test)`, scanning from the front. */
  method FindIndex(q: seq<Json>, test: Json -> Option<bool>) returns (r: Found)
    ensures r == FindFrom(q, 0, test)
  {
    var i := 0;
    while i < |q|
      invariant 0 <= i <= |q|
      invariant FindFrom(q, 0, test) == FindFrom(q, i, test)
    {
      var t := test(q[i]);
      if t.None? {
        return Threw;
      } else if t.value {
        return At(i);
      }
      i := i + 1;
    }
    return NotFound;
  }

  /** Every element from `k` up to `j` was tested without a match. */
  predicate ThrowsAt(q: seq<Json>, k: nat, j: nat, test: Json -> Option<bool>)
    requires k <= j < |q|
  {
    forall m :: k <= m < j ==> test(q[m]) == Some(false)
  }

  /** The answer to the POST: it failed or threw, or it returned the saved record. */
  datatype PostReply = PostFailed | PostSaved(saved: Json)

  /** The list after reconciliation. */
  function Reconciled(q: seq<Json>, provId: string, e: seq<Field>, reply: PostReply): seq<Json> {
    match reply
    case PostFailed => q
    case PostSaved(saved) =>
      match FindFrom(q, 0, MatchTest(provId, e))
      case At(i) => q[i := saved]
      case NotFound => q + [saved]
      case Threw => q
  }

  /**
   * Reconciliation changes at most one element, replacing it by the saved
   * record, or appends the saved record; nothing else changes.
   */
  lemma ReconcileChangesAtMostOne(q: seq<Json>, provId: string, e: seq<Field>, reply: PostReply)
    ensures var r := Reconciled(q, provId, e, reply);
      || r == q
      || (reply.PostSaved? && r == q + [reply.saved])
      || (reply.PostSaved? && |r| == |q|
          && exists i :: 0 <= i < |q| && r[i] == reply.saved && forall j :: 0 <= j < |q| && j != i ==> r[j] == q[j])
  {
    if reply.PostSaved? && FindFrom(q, 0, MatchTest(provId, e)).At? {
      var i := FindFrom(q, 0, MatchTest(provId, e)).i;
      assert Reconciled(q, provId, e, reply) == q[i := reply.saved];
    }
  }

  /**
   * Pushed onto a list where nothing matches, the provisional event is the one
   * replaced by the saved record; if the POST fails it stays.
   */
  lemma PushThenReconcile(q: seq<Json>, e: seq<Field>, uuid: string, reply: PostReply)
    requires FindFrom(q, 0, MatchTest("prov_" + uuid, e)).NotFound?
    ensures reply.PostSaved? ==> Reconciled(q + [Provisional(e, uuid)], "prov_" + uuid, e, reply) == q + [reply.saved]
    ensures reply.PostFailed? ==> Reconciled(q + [Provisional(e, uuid)], "prov_" + uuid, e, reply) == q + [Provisional(e, uuid)]
  {
    var p := Provisional(e, uuid);
    var test := MatchTest("prov_" + uuid, e);
    assert test(p) == Some(true) by {
      assert Matches(p, "prov_" + uuid, e);
    }
    FindPastEnd(q, p, 0, test);
    if reply.PostSaved? {
      assert (q + [p])[|q| := reply.saved] == q + [reply.saved];
    }
  }

  /** A search that found nothing in `q` finds a matching element appended to it. */
  lemma {:induction false} FindPastEnd(q: seq<Json>, p: Json, k: nat, test: Json -> Option<bool>)
    requires k <= |q| && FindFrom(q, k, test).NotFound? && test(p) == Some(true)
    ensures FindFrom(q + [p], k, test) == At(|q|)
    decreases |q| - k
  {
    var q' := q + [p];
    if k < |q| {
      assert q'[k] == q[k];
      FindPastEnd(q, p, k + 1, test);
    } else {
      assert q'[k] == p;
    }
  }

  /** A search stops at the latest at a matching element, once the elements before it cannot throw. */
  lemma {:induction false} FindNoLater(q: seq<Json>, k: nat, t: nat, test: Json -> Option<bool>)
    requires k <= t < |q| && test(q[t]) == Some(true)
    requires forall j :: k <= j < t ==> test(q[j]).Some?
    ensures FindFrom(q, k, test).At? && FindFrom(q, k, test).i <= t
    decreases t - k
  {
    if k < t && test(q[k]) == Some(false) {
      FindNoLater(q, k + 1, t, test);
    }
  }

  /**
   * The twin-event hazard: when an earlier element has the pushed event's
   * `type`, `ts` and `src` (or its provisional id) and no `null` precedes it,
   * the saved record replaces that element or an even earlier one, and the
   * provisional entry stays in the list.
   */
  lemma TwinEventHazard(q: seq<Json>, e: seq<Field>, uuid: string, saved: Json, t: nat)
    requires t < |q| && Matches(q[t], "prov_" + uuid, e)
    requires forall j :: 0 <= j <= t ==> !q[j].JNull?
    ensures var q' := q + [Provisional(e, uuid)];
      var f := FindFrom(q', 0, MatchTest("prov_" + uuid, e));
      var r := Reconciled(q', "prov_" + uuid, e, PostSaved(saved));
      && f.At? && f.i <= t && r == q'[f.i := saved]
      && |r| == |q| + 1 && r[|q|] == Provisional(e, uuid)
  {
    var q' := q + [Provisional(e, uuid)];
    var test := MatchTest("prov_" + uuid, e);
    forall j | 0 <= j <= t
      ensures test(q'[j]).Some?
    {
      assert q'[j] == q[j];
    }
    assert q'[t] == q[t];
    FindNoLater(q', 0, t, test);
    var i := FindFrom(q', 0, test).i;
    assert Reconciled(q', "prov_" + uuid, e, PostSaved(saved)) == q'[i := saved];
  }

  // ------------------------------------------------------------------ the store

  /** The writable store. */
  class Store {
    var items: seq<Json>

    constructor ()
      ensures items == []
    {
      items := [];
    }

    /** `hydrate`. */
    method Hydrate(reply: Ndjson.FetchReply, parse: string -> Option<Json>)
      modifies this
      ensures items == Hydrated(reply, parse)
    {
      if !reply.Fetched? {
        items := [];
        return;
      }
      var parsed := ParseNdjson(reply.text, parse);
      if parsed.None? {
        items := [];
      } else {
        items := parsed.value;
      }
    }

    /** The first half of `push`: the provisional event appended. */
    method PushOptimistic(e: seq<Field>, uuid: string) returns (provisional: Json)
      modifies this
      ensures provisional == Provisional(e, uuid)
      ensures items == old(items) + [provisional]
    {
      provisional := JObj(Set(e, "id", JStr("prov_" + uuid)));
      items := items + [provisional];
    }

    /** The second half of `push`: `findIndex`, then `copy[idx] = saved` or an append. */
    method Reconcile(e: seq<Field>, provId: string, reply: PostReply)
      modifies this
      ensures items == Reconciled(old(items), provId, e, reply)
    {
      if reply.PostFailed? {
        return;
      }
      var found := FindIndex(items, MatchTest(provId, e));
      match found
      case At(idx) => items := items[idx := reply.saved];
      case NotFound => items := items + [reply.saved];
      case Threw =>
    }

    /** `clear`: the store is emptied before the DELETE is sent, whatever it answers. */
    method Clear()
      modifies this
      ensures items == []
    {
      items := [];
    }
  }
}
