/**
 * Reading the backend's NDJSON pass log: `get_passes` in
 * backend/src/routes/passes.rs (and its copy in backend/src/main.rs).
 *
 * The log file is a sequence of lines as `BufRead::lines` yields them: each
 * line is either read successfully or fails to read (for instance, it is not
 * valid UTF-8). `serde_json::from_str::<PassEvent>` is the `decode` parameter.
 */
module PassLog {
  import opened Wrappers

  /** `PassEvent { ts_utc }`, the instant as milliseconds since the Unix epoch. */
  datatype PassEvent = PassEvent(tsUtc: int)

  /** One item of `reader.lines()`. */
  datatype LineRead = LineOk(text: string) | LineErr

  /** `.map_while(Result::ok)`: the lines before the first read error. */
  function OkPrefix(lines: seq<LineRead>): (r: seq<string>)
    ensures |r| <= |lines|
    ensures forall i :: 0 <= i < |r| ==> lines[i] == LineOk(r[i])
    ensures |r| < |lines| ==> lines[|r|] == LineErr
  {
    if lines == [] || lines[0] == LineErr then []
    else [lines[0].text] + OkPrefix(lines[1..])
  }

  /** `.filter_map(|line| from_str(&line).ok())`: every line that decodes, in order. */
  function DecodeAll(lines: seq<string>, decode: string -> Option<PassEvent>): (r: seq<PassEvent>)
    ensures |r| <= |lines|
    ensures forall e :: e in r ==> exists l :: l in lines && decode(l) == Some(e)
  {
    if lines == [] then []
    else
      var rest := DecodeAll(lines[1..], decode);
      assert forall e :: e in rest ==> exists l :: l in lines && decode(l) == Some(e) by {
        forall e | e in rest ensures exists l :: l in lines && decode(l) == Some(e) {
          var l :| l in lines[1..] && decode(l) == Some(e);
          assert l in lines;
        }
      }
      match decode(lines[0])
      case Some(e) => [e] + rest
      case None => rest
  }

  /**
   * `get_passes`: `None` is a log file that cannot be opened, which yields
   * the empty list rather than an error.
   */
  function GetPasses(file: Option<seq<LineRead>>, decode: string -> Option<PassEvent>): (r: seq<PassEvent>)
    ensures file.None? ==> r == []
    ensures file.Some? ==> |r| <= |file.value|
  {
    match file
    case None => []
    case Some(lines) => DecodeAll(OkPrefix(lines), decode)
  }

  /** Decoding keeps file order: the lines of `a` come before those of `b`. */
  lemma {:induction false} DecodeAllAppend(a: seq<string>, b: seq<string>, decode: string -> Option<PassEvent>)
    ensures DecodeAll(a + b, decode) == DecodeAll(a, decode) + DecodeAll(b, decode)
  {
    if a == [] {
      assert a + b == b;
    } else {
      assert (a + b)[0] == a[0] && (a + b)[1..] == a[1..] + b;
      DecodeAllAppend(a[1..], b, decode);
    }
  }

  /** A line that does not decode is skipped; one that does contributes its event. */
  lemma DecodeOne(l: string, decode: string -> Option<PassEvent>)
    ensures DecodeAll([l], decode) == if decode(l).Some? then [decode(l).value] else []
  {
    assert [l][1..] == [];
  }

  /** Reading stops at the first line that fails to read: nothing after it is returned. */
  lemma {:induction false} StopsAtFirstError(lines: seq<LineRead>, k: nat, decode: string -> Option<PassEvent>)
    requires k < |lines| && lines[k] == LineErr
    ensures GetPasses(Some(lines), decode) == GetPasses(Some(lines[..k]), decode)
  {
    if lines[0] != LineErr {
      assert lines[..k][1..] == lines[1..][..k - 1];
      StopsAtFirstError(lines[1..], k - 1, decode);
    }
  }

  /** serde's decoding inverts its encoding. */
  ghost predicate RoundTrips(encode: PassEvent -> string, decode: string -> Option<PassEvent>) {
    forall e :: decode(encode(e)) == Some(e)
  }

  /** The log lines `writeln!` produces for a list of events. */
  function Encoded(es: seq<PassEvent>, encode: PassEvent -> string): (lines: seq<string>)
    ensures |lines| == |es|
    ensures forall i :: 0 <= i < |es| ==> lines[i] == encode(es[i])
  {
    seq(|es|, i requires 0 <= i < |es| => encode(es[i]))
  }

  function AsRead(lines: seq<string>): (r: seq<LineRead>)
    ensures |r| == |lines|
    ensures forall i :: 0 <= i < |lines| ==> r[i] == LineOk(lines[i])
  {
    seq(|lines|, i requires 0 <= i < |lines| => LineOk(lines[i]))
  }

  lemma OkPrefixAll(lines: seq<string>)
    ensures OkPrefix(AsRead(lines)) == lines
  {
  }

  /** Round trip: a log made of the encodings of `es` reads back as exactly `es`. */
  lemma {:induction false} ReadBackEncoded(es: seq<PassEvent>, encode: PassEvent -> string,
                                           decode: string -> Option<PassEvent>)
    requires RoundTrips(encode, decode)
    ensures DecodeAll(Encoded(es, encode), decode) == es
  {
    if es != [] {
      assert Encoded(es, encode)[1..] == Encoded(es[1..], encode);
      ReadBackEncoded(es[1..], encode, decode);
    }
  }

  lemma GetPassesRoundTrip(es: seq<PassEvent>, encode: PassEvent -> string,
                           decode: string -> Option<PassEvent>)
    requires RoundTrips(encode, decode)
    ensures GetPasses(Some(AsRead(Encoded(es, encode))), decode) == es
  {
    OkPrefixAll(Encoded(es, encode));
    ReadBackEncoded(es, encode, decode);
  }
}
