/**
 * POST of frontend/src/routes/api/gate-passings/+server.ts: a passing with
 * string `ts` and `gate_id` is appended as the one-line JSON object of those
 * two fields, and anything else in the body is dropped. GET and DELETE are
 * `FileRoutes.Read` and `FileRoutes.Truncate`.
 *
 * `request.json()` is the `RequestBody` it produced (or the error it threw);
 * `JSON.stringify` is a parameter.
 */
module GatePassingsEndpoint {
  import opened Wrappers
  import opened Json
  import Ndjson
  import opened FileRoutes

  const BadPassing: string := "Bad payload: expected { ts: ISO string, gate_id: string }"

  predicate IsString(x: Option<Json>) {
    x.Some? && x.value.JStr?
  }

  /** `!body || typeof body.gate_id !== 'string' || typeof body.ts !== 'string'` is false. */
  predicate ValidPassing(body: Json) {
    Truthy(Some(body)) && IsString(Member(body, "gate_id")) && IsString(Member(body, "ts"))
  }

  /** `{ ts: body.ts, gate_id: body.gate_id }`. */
  function PassingRecord(body: Json): Json
    requires ValidPassing(body)
  {
    JObj([Field("ts", Member(body, "ts").value), Field("gate_id", Member(body, "gate_id").value)])
  }

  /** The POST handler: the file afterwards and the answer. */
  function Post(content: Option<string>, req: RequestBody, stringify: Json -> string): Outcome {
    var c := Ensured(content).value;
    match req
    case Malformed(m) => Outcome(Some(c), Response(500, Some("Write error: " + m)))
    case Body(b) =>
      if !ValidPassing(b) then Outcome(Some(c), Response(400, Some(BadPassing)))
      else Outcome(Some(c + stringify(PassingRecord(b)) + "\n"), Response(204, None))
  }

  /**
   * Only objects pass validation, and exactly those whose `ts` and `gate_id`
   * are strings, empty ones included.
   */
  lemma ValidPassingIff(body: Json)
    ensures ValidPassing(body) <==>
      body.JObj? && Get(body.fields, "ts").Some? && Get(body.fields, "ts").value.JStr?
      && Get(body.fields, "gate_id").Some? && Get(body.fields, "gate_id").value.JStr?
  {
  }

  /** The passing `{ ts: "", gate_id: "" }` is accepted. */
  lemma EmptyStringsAccepted(content: Option<string>, stringify: Json -> string)
    ensures Post(content, Body(JObj([Field("ts", JStr("")), Field("gate_id", JStr(""))])), stringify).response.status == 204
  {
    var fs := [Field("ts", JStr("")), Field("gate_id", JStr(""))];
    assert "ts" != "gate_id" by {
      assert |"ts"| != |"gate_id"|;
    }
    assert fs[1..][0].key == "gate_id";
  }

  /** The two properties of a `{ ts, gate_id }` object. */
  lemma PassingShape(ts: Json, gateId: Json)
    ensures Member(JObj([Field("ts", ts), Field("gate_id", gateId)]), "ts") == Some(ts)
    ensures Member(JObj([Field("ts", ts), Field("gate_id", gateId)]), "gate_id") == Some(gateId)
  {
    var fs := [Field("ts", ts), Field("gate_id", gateId)];
    assert "ts" != "gate_id" by {
      assert |"ts"| != |"gate_id"|;
    }
    var rest := [Field("gate_id", gateId)];
    assert fs[1..] == rest;
    assert Get(rest, "gate_id") == Some(gateId);
    assert Get(fs, "gate_id") == Get(rest, "gate_id");
  }

  /**
   * The record written holds exactly `ts` and then `gate_id`, with the body's
   * values, whatever else the body had.
   */
  lemma PassingRecordFields(body: Json)
    requires ValidPassing(body)
    ensures var r := PassingRecord(body);
      && Keys(r.fields) == ["ts", "gate_id"]
      && Member(r, "ts") == Member(body, "ts")
      && Member(r, "gate_id") == Member(body, "gate_id")
  {
    var r := PassingRecord(body);
    assert "ts" != "gate_id" by {
      assert |"ts"| != |"gate_id"|;
    }
    var rest := [Field("gate_id", Member(body, "gate_id").value)];
    assert r.fields[1..] == rest;
    assert Get(rest, "gate_id") == Member(body, "gate_id");
    assert Get(r.fields, "gate_id") == Get(rest, "gate_id");
    var ks := Keys(r.fields);
    assert |ks| == 2 && ks[0] == "ts" && ks[1] == "gate_id";
    assert ks == ["ts", "gate_id"];
  }

  /**
   * The answer is 204 exactly for a valid passing, 400 for any other parsed
   * body and 500 for one that did not parse; except on 204 the file is what
   * `ensureFile` left, and on 204 exactly one line is appended.
   */
  lemma PostStatus(content: Option<string>, req: RequestBody, stringify: Json -> string)
    ensures var o := Post(content, req, stringify);
      && (o.response.status == 204 <==> req.Body? && ValidPassing(req.json))
      && (o.response.status == 400 <==> req.Body? && !ValidPassing(req.json))
      && (o.response.status == 500 <==> req.Malformed?)
      && (o.response.status != 204 ==> o.content == Ensured(content))
      && (o.response.status == 204 ==>
            o.content == Some(content.GetOr("") + stringify(PassingRecord(req.json)) + "\n")
            && o.response.body.None?)
  {
  }

  /** Reading the file back gives the earlier records and then the new one. */
  lemma PostReadBack(lines: seq<string>, b: Json, stringify: Json -> string)
    requires Ndjson.RecordLines(lines)
    requires ValidPassing(b) && Ndjson.IsRecordLine(stringify(PassingRecord(b)))
    ensures Ndjson.Lines(Post(Some(Ndjson.Unlines(lines)), Body(b), stringify).content.value)
      == lines + [stringify(PassingRecord(b))]
  {
    var o := Post(Some(Ndjson.Unlines(lines)), Body(b), stringify);
    PostStatus(Some(Ndjson.Unlines(lines)), Body(b), stringify);
    AppendedRecord(o, lines, stringify(PassingRecord(b)));
  }

  /** The gate-passings log file. */
  class PassingsFile {
    const file: DataFile

    constructor (initial: Option<string>)
      ensures fresh(file) && file.content == initial
    {
      file := new DataFile(initial);
    }

    /** The POST handler, step by step: `ensureFile`, validation, `appendFile`. */
    method HandlePost(req: RequestBody, stringify: Json -> string) returns (response: Response)
      modifies file
      ensures Outcome(file.content, response) == Post(old(file.content), req, stringify)
    {
      file.EnsureFile();
      if req.Malformed? {
        return Response(500, Some("Write error: " + req.message));
      }
      var body := req.json;
      if !Truthy(Some(body)) || !IsString(Member(body, "gate_id")) || !IsString(Member(body, "ts")) {
        return Response(400, Some(BadPassing));
      }
      ghost var c := file.content.value;
      var line := stringify(JObj([Field("ts", Member(body, "ts").value), Field("gate_id", Member(body, "gate_id").value)]));
      file.Append(line + "\n");
      assert c + (line + "\n") == c + line + "\n";
      response := Response(204, None);
    }
  }
}
