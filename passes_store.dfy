/**
 * frontend/src/lib/stores/passes.ts: the client's list of gate passings,
 * loaded from the gate-passings log, extended on `push` (which then POSTs the
 * passing) and emptied on `clear`.
 *
 * `fetch` is replaced by its outcome; `JSON.parse`, `new Date(x)` and
 * `Date.prototype.toISOString` are parameters. A `Date` is its time value in
 * milliseconds, or the invalid date.
 */
module PassesStore {
  import opened Wrappers
  import opened Json
  import Ndjson
  import FileRoutes
  import GatePassingsEndpoint

  /** A `Date`: a time value in milliseconds, or `Invalid Date`. */
  datatype Instant = InvalidDate | At(ms: int)

  /** `GatePassing`. */
  datatype GatePassing = GatePassing(ts: Instant, gateId: string)

  /**
   * One line of the log: `JSON.parse` may throw (`None`), and reading `o.ts`
   * of a parsed `null` throws too, as do `new Date(o.ts)` and
   * `String(o.gate_id)` on a value that does not coerce; otherwise the passing
   * is built from `o.ts` and `String(o.gate_id)`.
   */
  function ParseLine(line: string, parse: string -> Option<Json>, newDate: Option<Json> -> Instant): (r: Option<GatePassing>)
    ensures r.Some? <==>
      && parse(line).Some? && !parse(line).value.JNull?
      && Coerces(Member(parse(line).value, "ts")) && Coerces(Member(parse(line).value, "gate_id"))
    ensures r.Some? ==> r.value.gateId == ToJsString(Member(parse(line).value, "gate_id"))
    ensures r.Some? ==> r.value.ts == newDate(Member(parse(line).value, "ts"))
  {
    match parse(line)
    case None => None
    case Some(o) =>
      if o.JNull? || !Coerces(Member(o, "ts")) || !Coerces(Member(o, "gate_id")) then None
      else Some(GatePassing(newDate(Member(o, "ts")), ToJsString(Member(o, "gate_id"))))
  }

  /** All lines, or `None` as soon as one of them throws. */
  function ParseLines(lines: seq<string>, parse: string -> Option<Json>, newDate: Option<Json> -> Instant): (r: Option<seq<GatePassing>>)
    ensures r.Some? <==> forall i :: 0 <= i < |lines| ==> ParseLine(lines[i], parse, newDate).Some?
    ensures r.Some? ==> |r.value| == |lines|
    ensures r.Some? ==> forall i :: 0 <= i < |lines| ==> r.value[i] == ParseLine(lines[i], parse, newDate).value
  {
    if lines == [] then Some([])
    else
      var first := ParseLine(lines[0], parse, newDate);
      var rest := ParseLines(lines[1..], parse, newDate);
      if first.None? || rest.None? then None else Some([first.value] + rest.value)
  }

  /** `parseNdjson`. */
  function ParseNdjson(text: string, parse: string -> Option<Json>, newDate: Option<Json> -> Instant): Option<seq<GatePassing>> {
    ParseLines(Ndjson.Lines(text), parse, newDate)
  }

  /** What `hydrateFromFile` stores: the parsed log, or `[]` on any failure. */
  function Hydrated(reply: Ndjson.FetchReply, parse: string -> Option<Json>, newDate: Option<Json> -> Instant): seq<GatePassing> {
    match reply
    case Fetched(text) => ParseNdjson(text, parse, newDate).GetOr([])
    case _ => []
  }

  /** Parsing one more line extends the result by that line's passing. */
  lemma {:induction false} ParseLinesSnoc(lines: seq<string>, l: string, parse: string -> Option<Json>, newDate: Option<Json> -> Instant)
    ensures var a := ParseLines(lines, parse, newDate);
      var b := ParseLine(l, parse, newDate);
      ParseLines(lines + [l], parse, newDate) == if a.Some? && b.Some? then Some(a.value + [b.value]) else None
  {
    var a := ParseLines(lines, parse, newDate);
    var b := ParseLine(l, parse, newDate);
    var r := ParseLines(lines + [l], parse, newDate);
    if a.Some? && b.Some? {
      assert r.Some?;
      assert r.value == a.value + [b.value];
    } else if a.None? {
      var i :| 0 <= i < |lines| && ParseLine(lines[i], parse, newDate).None?;
      assert (lines + [l])[i] == lines[i];
    } else {
      assert (lines + [l])[|lines|] == l;
    }
  }

  /**
   * A log with a `null` line, a line that does not parse, or a line whose `ts`
   * or `gate_id` does not coerce, hydrates to nothing.
   */
  lemma BadLineEmptiesStore(text: string, k: nat, parse: string -> Option<Json>, newDate: Option<Json> -> Instant)
    requires k < |Ndjson.Lines(text)|
    requires var p := parse(Ndjson.Lines(text)[k]);
      p.None? || p == Some(JNull) || (p.Some? && !Coerces(Member(p.value, "ts")))
      || (p.Some? && !Coerces(Member(p.value, "gate_id")))
    ensures Hydrated(Ndjson.Fetched(text), parse, newDate) == []
  {
  }

  /**
   * A `gate_id` object with its own `toString`, as in
   * `{"ts":"x","gate_id":{"toString":0}}`, makes the line throw.
   */
  lemma OwnToStringThrows(line: string, parse: string -> Option<Json>, newDate: Option<Json> -> Instant)
    requires parse(line) == Some(JObj([Field("ts", JStr("x")), Field("gate_id", JObj([Field("toString", JNum("0"))]))]))
    ensures ParseLine(line, parse, newDate).None?
  {
    assert Keys([Field("toString", JNum("0"))]) == ["toString"];
  }

  /** `{ ts: new Date(time), gate_id }`. */
  function Record(time: string, gateId: string, newDate: Option<Json> -> Instant): GatePassing {
    GatePassing(newDate(Some(JStr(time))), gateId)
  }

  /**
   * The body `push` POSTs: `{ ts: record.ts.toISOString(), gate_id }`, or
   * nothing, because `toISOString` throws on an invalid date before the
   * request is made.
   */
  function PostBody(record: GatePassing, toIso: int -> string): (b: Option<Json>)
    ensures b.Some? <==> record.ts.At?
    ensures b.Some? ==> GatePassingsEndpoint.ValidPassing(b.value)
  {
    match record.ts
    case InvalidDate => None
    case At(ms) =>
      GatePassingsEndpoint.PassingShape(JStr(toIso(ms)), JStr(record.gateId));
      Some(JObj([Field("ts", JStr(toIso(ms))), Field("gate_id", JStr(record.gateId))]))
  }

  /**
   * The cross-file round trip: the body `push` sends is accepted by the
   * gate-passings endpoint, which appends it unchanged, and hydrating from the
   * file afterwards gives the earlier passings and then the pushed one —
   * provided `JSON.parse` inverts `JSON.stringify` on it, that writes one
   * line, and `new Date` inverts `toISOString`.
   */
  lemma PushReadBack(lines: seq<string>, time: string, gateId: string, stringify: Json -> string,
                     parse: string -> Option<Json>, newDate: Option<Json> -> Instant, toIso: int -> string)
    requires Ndjson.RecordLines(lines)
    requires Record(time, gateId, newDate).ts.At?
    requires var b := PostBody(Record(time, gateId, newDate), toIso).value;
      parse(stringify(b)) == Some(b) && Ndjson.IsRecordLine(stringify(b))
    requires newDate(Some(JStr(toIso(Record(time, gateId, newDate).ts.ms)))) == Record(time, gateId, newDate).ts
    requires ParseNdjson(Ndjson.Unlines(lines), parse, newDate).Some?
    ensures var b := PostBody(Record(time, gateId, newDate), toIso).value;
      var o := GatePassingsEndpoint.Post(Some(Ndjson.Unlines(lines)), FileRoutes.Body(b), stringify);
      && o.response.status == 204
      && ParseNdjson(o.content.value, parse, newDate)
         == Some(ParseNdjson(Ndjson.Unlines(lines), parse, newDate).value + [Record(time, gateId, newDate)])
  {
    var rec := Record(time, gateId, newDate);
    var b := PostBody(rec, toIso).value;
    var o := GatePassingsEndpoint.Post(Some(Ndjson.Unlines(lines)), FileRoutes.Body(b), stringify);
    GatePassingsEndpoint.PassingShape(JStr(toIso(rec.ts.ms)), JStr(gateId));
    assert GatePassingsEndpoint.PassingRecord(b) == b;
    GatePassingsEndpoint.PostReadBack(lines, b, stringify);
    Ndjson.LinesOfUnlines(lines);
    var l := stringify(b);
    assert Ndjson.Lines(o.content.value) == lines + [l];
    BodyReadsBack(rec, b, toIso, newDate);
    assert ParseLine(l, parse, newDate) == Some(rec);
    ParseLinesSnoc(lines, l, parse, newDate);
  }

  /** The posted body, read back, names the same time and gate. */
  lemma BodyReadsBack(rec: GatePassing, b: Json, toIso: int -> string, newDate: Option<Json> -> Instant)
    requires rec.ts.At? && PostBody(rec, toIso) == Some(b)
    requires newDate(Some(JStr(toIso(rec.ts.ms)))) == rec.ts
    ensures newDate(Member(b, "ts")) == rec.ts
    ensures ToJsString(Member(b, "gate_id")) == rec.gateId
    ensures Coerces(Member(b, "ts")) && Coerces(Member(b, "gate_id"))
  {
    GatePassingsEndpoint.PassingShape(JStr(toIso(rec.ts.ms)), JStr(rec.gateId));
  }

  /** The writable store. */
  class Store {
    var items: seq<GatePassing>

    constructor ()
      ensures items == []
    {
      items := [];
    }

    /** `hydrateFromFile`. */
    method Hydrate(reply: Ndjson.FetchReply, parse: string -> Option<Json>, newDate: Option<Json> -> Instant)
      modifies this
      ensures items == Hydrated(reply, parse, newDate)
    {
      if !reply.Fetched? {
        items := [];
        return;
      }
      var parsed := ParseNdjson(reply.text, parse, newDate);
      if parsed.None? {
        items := [];
      } else {
        items := parsed.value;
      }
    }

    /**
     * `push`: the record is appended before anything is sent, and stays
     * whatever the POST answers; `posted` is the body sent, if any.
     */
    method Push(time: string, gateId: string, newDate: Option<Json> -> Instant, toIso: int -> string)
      returns (posted: Option<Json>)
      modifies this
      ensures items == old(items) + [Record(time, gateId, newDate)]
      ensures posted == PostBody(Record(time, gateId, newDate), toIso)
    {
      var record := GatePassing(newDate(Some(JStr(time))), gateId);
      items := items + [record];
      if record.ts.InvalidDate? {
        posted := None;
      } else {
        posted := Some(JObj([Field("ts", JStr(toIso(record.ts.ms))), Field("gate_id", JStr(gateId))]));
      }
    }

    /** `clear`: emptied before the DELETE is sent, whatever it answers. */
    method Clear()
      modifies this
      ensures items == []
    {
      items := [];
    }
  }
}
