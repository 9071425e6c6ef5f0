/**
 * What the two SvelteKit NDJSON endpoints
 * (rally-timer-app/src/routes/api/events/+server.ts and
 * frontend/src/routes/api/gate-passings/+server.ts) share: the data file
 * that `ensureFile` creates when it is missing, the GET that returns its text
 * and the DELETE that truncates it. Each handler runs `ensureFile` first.
 *
 * The file is `None` while it does not exist and `Some(text)` afterwards.
 * A failing file-system call (the handlers' 500 answers for read, write and
 * truncate errors) is not modelled.
 */
module FileRoutes {
  import opened Wrappers
  import Ndjson
  import opened Json

  /** The parsed request body, or the message of the error `request.json()` threw. */
  datatype RequestBody = Malformed(message: string) | Body(json: Json)

  /** An HTTP response: the status and the body text, if any. */
  datatype Response = Response(status: nat, body: Option<string>)

  /** The file after a handler ran, and the handler's answer. */
  datatype Outcome = Outcome(content: Option<string>, response: Response)

  /** The file after `ensureFile`: created empty when missing, untouched otherwise. */
  function Ensured(content: Option<string>): (r: Option<string>)
    ensures r.Some?
    ensures content.Some? ==> r == content
    ensures content.None? ==> r == Some("")
  {
    Some(content.GetOr(""))
  }

  /** GET: the file's text, verbatim, with status 200. */
  function Read(content: Option<string>): (o: Outcome)
    ensures o.content == Ensured(content)
    ensures o.response == Response(200, Some(content.GetOr("")))
  {
    var c := Ensured(content);
    Outcome(c, Response(200, Some(c.value)))
  }

  /** DELETE: the file truncated to the empty string, status 204 and no body. */
  function Truncate(content: Option<string>): (o: Outcome)
    ensures o.content == Some("") && o.response == Response(204, None)
  {
    Outcome(Some(""), Response(204, None))
  }

  /** `ensureFile` twice is `ensureFile` once. */
  lemma EnsuredIdempotent(content: Option<string>)
    ensures Ensured(Ensured(content)) == Ensured(content)
  {
  }

  /** GET changes nothing that exists, and a second GET answers the same. */
  lemma ReadTwice(content: Option<string>)
    ensures Read(Read(content).content) == Read(content)
  {
  }

  /** DELETE is idempotent, and a GET after it returns the empty text, which holds no records. */
  lemma TruncateIdempotent(content: Option<string>)
    ensures Truncate(Truncate(content).content) == Truncate(content)
    ensures Read(Truncate(content).content).response == Response(200, Some(""))
    ensures Ndjson.Lines(Truncate(content).content.value) == []
  {
    Ndjson.BlankHasNoLines("");
  }

  /** A handler that appended one record line to a file of record lines: reading it back gives them all. */
  lemma AppendedRecord(o: Outcome, lines: seq<string>, line: string)
    requires Ndjson.RecordLines(lines)
    requires Ndjson.IsRecordLine(line)
    requires o.content == Some(Ndjson.Unlines(lines) + line + "\n")
    ensures Ndjson.Lines(o.content.value) == lines + [line]
  {
    Ndjson.AppendedLines(lines, line);
  }

  /** The data file on disk. */
  class DataFile {
    var content: Option<string>

    constructor (initial: Option<string>)
      ensures content == initial
    {
      content := initial;
    }

    /** `ensureFile`: `stat`, and `writeFile(FILEPATH, '')` when that fails. */
    method EnsureFile()
      modifies this
      ensures content == Ensured(old(content))
    {
      if content.None? {
        content := Some("");
      }
    }

    /** `appendFile(FILEPATH, line)`, creating the file when it is missing. */
    method Append(line: string)
      modifies this
      ensures content == Some(old(content).GetOr("") + line)
    {
      content := Some(content.GetOr("") + line);
    }

    /** The GET handler. */
    method Get() returns (response: Response)
      modifies this
      ensures Outcome(content, response) == Read(old(content))
    {
      EnsureFile();
      var text := content.value;
      response := Response(200, Some(text));
    }

    /** The DELETE handler: `ensureFile`, then `writeFile(FILEPATH, '')`. */
    method Delete() returns (response: Response)
      modifies this
      ensures Outcome(content, response) == Truncate(old(content))
    {
      EnsureFile();
      content := Some("");
      response := Response(204, None);
    }
  }
}
