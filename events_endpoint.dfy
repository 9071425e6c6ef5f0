/**
 * POST of rally-timer-app/src/routes/api/events/+server.ts: validate the
 * event, give it an id and a receive time, append it as one NDJSON line and
 * answer with the saved record. GET and DELETE are `FileRoutes.Read` and
 * `FileRoutes.Truncate`.
 *
 * `request.json()` is the `RequestBody` it produced (or the error it threw);
 * `randomUUID()`, `new Date().toISOString()` and `JSON.stringify` are
 * parameters.
 */
module EventsEndpoint {
  import opened Wrappers
  import opened Json
  import Ndjson
  import opened FileRoutes

  const BadPayload: string := "Bad payload: expected { ts, src, type } strings"

  /** `isNonEmptyString`: a string of length at least one. */
  predicate IsNonEmptyString(x: Option<Json>) {
    x.Some? && x.value.JStr? && |x.value.s| > 0
  }

  /** `ts`, `src` and `type` are all non-empty strings (`body?.x` is undefined on null). */
  predicate ValidEvent(body: Json) {
    IsNonEmptyString(Member(body, "ts")) && IsNonEmptyString(Member(body, "src"))
    && IsNonEmptyString(Member(body, "type"))
  }

  /** `body.id && isNonEmptyString(body.id) ? body.id : randomUUID()`. */
  function SavedId(body: Json, uuid: string): (id: string)
    ensures IsNonEmptyString(Member(body, "id")) ==> Member(body, "id") == Some(JStr(id))
    ensures !IsNonEmptyString(Member(body, "id")) ==> id == uuid
  {
    var x := Member(body, "id");
    if Truthy(x) && IsNonEmptyString(x) then x.value.s else uuid
  }

  /** `body.payload ?? undefined`: a null payload is dropped like a missing one. */
  function SavedPayload(body: Json): seq<Field> {
    var p := Member(body, "payload");
    if p.None? || p.value.JNull? then [] else [Field("payload", p.value)]
  }

  /**
   * The `saved` record as `JSON.stringify` sees it: its properties in the
   * order they are written, with an undefined payload left out.
   */
  function Saved(body: Json, uuid: string, recvTs: string): Json
    requires ValidEvent(body)
  {
    JObj(SavedHead(body, uuid) + SavedPayload(body) + [Field("recv_ts", JStr(recvTs))])
  }

  /** `id`, `ts`, `src` and `type`, the properties every saved record starts with. */
  function SavedHead(body: Json, uuid: string): seq<Field>
    requires ValidEvent(body)
  {
    [Field("id", JStr(SavedId(body, uuid))), Field("ts", Member(body, "ts").value),
     Field("src", Member(body, "src").value), Field("type", Member(body, "type").value)]
  }

  /** The POST handler: the file afterwards and the answer. */
  function Post(content: Option<string>, req: RequestBody, uuid: string, recvTs: string,
                stringify: Json -> string): Outcome
  {
    var c := Ensured(content).value;
    match req
    case Malformed(m) => Outcome(Some(c), Response(500, Some("Write error: " + m)))
    case Body(b) =>
      if !ValidEvent(b) then Outcome(Some(c), Response(400, Some(BadPayload)))
      else
        var text := stringify(Saved(b, uuid, recvTs));
        Outcome(Some(c + text + "\n"), Response(201, Some(text)))
  }

  /**
   * The saved record keeps the event's `ts`, `src` and `type`, and carries the
   * chosen id and the server's receive time.
   */
  lemma SavedFields(body: Json, uuid: string, recvTs: string)
    requires ValidEvent(body)
    ensures Member(Saved(body, uuid, recvTs), "id") == Some(JStr(SavedId(body, uuid)))
    ensures Member(Saved(body, uuid, recvTs), "ts") == Member(body, "ts")
    ensures Member(Saved(body, uuid, recvTs), "src") == Member(body, "src")
    ensures Member(Saved(body, uuid, recvTs), "type") == Member(body, "type")
    ensures Member(Saved(body, uuid, recvTs), "recv_ts") == Some(JStr(recvTs))
  {
    var head := SavedHead(body, uuid);
    var tail := SavedPayload(body) + [Field("recv_ts", JStr(recvTs))];
    assert Saved(body, uuid, recvTs).fields == head + tail;
    KeysDistinct();
    HeadFields(head, tail);
    SkipHead(head, tail, "recv_ts");
    TailFields(body, recvTs);
  }

  /** The saved record has a payload exactly when the body had a non-null one, and then the same. */
  lemma SavedPayloadKept(body: Json, uuid: string, recvTs: string)
    requires ValidEvent(body)
    ensures var p := Member(Saved(body, uuid, recvTs), "payload");
      && (p.Some? <==> Member(body, "payload").Some? && !Member(body, "payload").value.JNull?)
      && (p.Some? ==> p == Member(body, "payload"))
  {
    var head := SavedHead(body, uuid);
    var tail := SavedPayload(body) + [Field("recv_ts", JStr(recvTs))];
    assert Saved(body, uuid, recvTs).fields == head + tail;
    KeysDistinct();
    SkipHead(head, tail, "payload");
    TailFields(body, recvTs);
  }

  /** The first four properties of a saved record, whatever follows them. */
  lemma HeadFields(head: seq<Field>, tail: seq<Field>)
    requires |head| == 4
    requires head[0].key == "id" && head[1].key == "ts" && head[2].key == "src" && head[3].key == "type"
    ensures Get(head + tail, "id") == Some(head[0].value)
    ensures Get(head + tail, "ts") == Some(head[1].value)
    ensures Get(head + tail, "src") == Some(head[2].value)
    ensures Get(head + tail, "type") == Some(head[3].value)
  {
    KeysDistinct();
    var f := head + tail;
    assert f[1..][1..][1..][0] == head[3];
    assert Get(f, "ts") == Get(f[1..], "ts");
    assert Get(f, "src") == Get(f[1..], "src") == Get(f[1..][1..], "src");
    assert Get(f, "type") == Get(f[1..], "type") == Get(f[1..][1..], "type") == Get(f[1..][1..][1..], "type");
  }

  /** A key none of the first four properties has is looked up in the rest. */
  lemma SkipHead(head: seq<Field>, tail: seq<Field>, k: string)
    requires |head| == 4
    requires head[0].key != k && head[1].key != k && head[2].key != k && head[3].key != k
    ensures Get(head + tail, k) == Get(tail, k)
  {
    var f := head + tail;
    assert f[1..][1..][1..][1..] == tail;
    assert Get(f, k) == Get(f[1..], k) == Get(f[1..][1..], k) == Get(f[1..][1..][1..], k);
  }

  /** The optional payload and the receive time that end a saved record. */
  lemma TailFields(body: Json, recvTs: string)
    ensures var tail := SavedPayload(body) + [Field("recv_ts", JStr(recvTs))];
      && Get(tail, "recv_ts") == Some(JStr(recvTs))
      && (Get(tail, "payload").Some? <==> Member(body, "payload").Some? && !Member(body, "payload").value.JNull?)
      && (Get(tail, "payload").Some? ==> Get(tail, "payload") == Member(body, "payload"))
  {
    KeysDistinct();
    var tail := SavedPayload(body) + [Field("recv_ts", JStr(recvTs))];
    var last := [Field("recv_ts", JStr(recvTs))];
    assert Get(last, "recv_ts") == Some(JStr(recvTs));
    assert Get(last, "payload") == None by {
      assert last[1..] == [];
    }
    if SavedPayload(body) != [] {
      assert tail == [Field("payload", Member(body, "payload").value)] + last;
      assert tail[1..] == last;
      assert Get(tail, "recv_ts") == Get(last, "recv_ts");
    } else {
      assert tail == last;
    }
  }

  /** The property names of a saved record are pairwise different. */
  lemma KeysDistinct()
    ensures "id" != "ts" && "id" != "src" && "id" != "type" && "id" != "recv_ts" && "id" != "payload"
    ensures "ts" != "src" && "ts" != "type" && "ts" != "recv_ts" && "ts" != "payload"
    ensures "src" != "type" && "src" != "recv_ts" && "src" != "payload"
    ensures "type" != "recv_ts" && "type" != "payload" && "recv_ts" != "payload"
  {
    assert "id"[0] != "ts"[0];
    assert |"src"| != |"type"| && |"type"| != |"recv_ts"|;
    assert "recv_ts"[0] != "payload"[0];
    assert "type"[0] != "recv_ts"[0];
  }

  /**
   * The answer is 201 exactly for a well-formed body with valid fields, 400
   * for any other well-formed body and 500 for a body that did not parse;
   * except on 201 the file is what `ensureFile` left.
   */
  lemma PostStatus(content: Option<string>, req: RequestBody, uuid: string, recvTs: string,
                   stringify: Json -> string)
    ensures var o := Post(content, req, uuid, recvTs, stringify);
      && (o.response.status == 201 <==> req.Body? && ValidEvent(req.json))
      && (o.response.status == 400 <==> req.Body? && !ValidEvent(req.json))
      && (o.response.status == 500 <==> req.Malformed?)
      && (o.response.status != 201 ==> o.content == Ensured(content))
  {
  }

  /**
   * A saved event is appended as exactly one line, `JSON.stringify(saved)`
   * and a newline, after the untouched earlier content; the answer's body is
   * that same text.
   */
  lemma PostAppendsSaved(content: Option<string>, b: Json, uuid: string, recvTs: string,
                         stringify: Json -> string)
    requires ValidEvent(b)
    ensures var o := Post(content, Body(b), uuid, recvTs, stringify);
      && o.response == Response(201, Some(stringify(Saved(b, uuid, recvTs))))
      && o.content == Some(content.GetOr("") + o.response.body.value + "\n")
  {
  }

  /**
   * A client reading the log back sees the records it held before and then
   * the saved record's line, provided `JSON.stringify` writes one line that is
   * not blank.
   */
  lemma PostReadBack(lines: seq<string>, b: Json, uuid: string, recvTs: string,
                     stringify: Json -> string)
    requires Ndjson.RecordLines(lines)
    requires ValidEvent(b) && Ndjson.IsRecordLine(stringify(Saved(b, uuid, recvTs)))
    ensures Ndjson.Lines(Post(Some(Ndjson.Unlines(lines)), Body(b), uuid, recvTs, stringify).content.value)
      == lines + [stringify(Saved(b, uuid, recvTs))]
  {
    var text := stringify(Saved(b, uuid, recvTs));
    var o := Post(Some(Ndjson.Unlines(lines)), Body(b), uuid, recvTs, stringify);
    PostAppendsSaved(Some(Ndjson.Unlines(lines)), b, uuid, recvTs, stringify);
    AppendedRecord(o, lines, text);
  }

  /** The events log file. */
  class EventsFile {
    const file: DataFile

    constructor (initial: Option<string>)
      ensures fresh(file) && file.content == initial
    {
      file := new DataFile(initial);
    }

    /** The POST handler, step by step: `ensureFile`, validation, `appendFile`. */
    method HandlePost(req: RequestBody, uuid: string, recvTs: string, stringify: Json -> string)
      returns (response: Response)
      modifies file
      ensures Outcome(file.content, response) == Post(old(file.content), req, uuid, recvTs, stringify)
    {
      file.EnsureFile();
      if req.Malformed? {
        return Response(500, Some("Write error: " + req.message));
      }
      var body := req.json;
      if !IsNonEmptyString(Member(body, "ts")) || !IsNonEmptyString(Member(body, "src"))
         || !IsNonEmptyString(Member(body, "type")) {
        return Response(400, Some(BadPayload));
      }
      ghost var c := file.content.value;
      var text := stringify(Saved(body, uuid, recvTs));
      file.Append(text + "\n");
      assert c + (text + "\n") == c + text + "\n";
      response := Response(201, Some(text));
    }
  }
}
