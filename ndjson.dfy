/**
 * Newline-delimited JSON as the JavaScript sources write and read it: every
 * writer appends `JSON.stringify(x) + '\n'`, and the client stores'
 * `parseNdjson` returns nothing for a blank text and otherwise takes
 * `text.split('\n').filter(Boolean)` (the non-empty segments, in order).
 */
module Ndjson {
  import Text

  /** `.filter(Boolean)` on strings: the empty ones removed, order kept. */
  function NonEmpty(parts: seq<string>): (r: seq<string>)
    ensures |r| <= |parts|
    ensures forall i :: 0 <= i < |r| ==> r[i] != [] && r[i] in parts
  {
    if parts == [] then []
    else (if parts[0] == [] then [] else [parts[0]]) + NonEmpty(parts[1..])
  }

  /** The lines `parseNdjson` hands to `JSON.parse`, in order. */
  function Lines(text: string): (ls: seq<string>)
    ensures forall i :: 0 <= i < |ls| ==> ls[i] != [] && '\n' !in ls[i]
  {
    if Text.JsTrim(text) == [] then [] else NonEmpty(Text.Split(text, '\n'))
  }

  /** The text of a file that the writers built from `lines`, one append per line. */
  function Unlines(lines: seq<string>): string {
    if lines == [] then [] else lines[0] + "\n" + Unlines(lines[1..])
  }

  /** The outcome of a client's GET of a log and of `res.text()`. */
  datatype FetchReply = FetchThrew | NotOk(status: nat) | Fetched(text: string)

  /** What a writer can append as one record: a non-blank line without a newline in it. */
  predicate IsRecordLine(l: string) {
    '\n' !in l && !Text.AllOf(l, Text.IsJsSpace)
  }

  /** A file's worth of record lines. */
  predicate RecordLines(lines: seq<string>) {
    forall i :: 0 <= i < |lines| ==> IsRecordLine(lines[i])
  }

  lemma {:induction false} UnlinesAppend(lines: seq<string>, l: string)
    ensures Unlines(lines + [l]) == Unlines(lines) + l + "\n"
  {
    if lines == [] {
      assert [] + [l] == [l];
    } else {
      assert (lines + [l])[1..] == lines[1..] + [l];
      UnlinesAppend(lines[1..], l);
    }
  }

  lemma {:induction false} UnlinesAsJoin(lines: seq<string>)
    ensures Unlines(lines) == Text.Join(lines + [[]], '\n')
  {
    if lines != [] {
      assert (lines + [[]])[1..] == lines[1..] + [[]];
      UnlinesAsJoin(lines[1..]);
    }
  }

  lemma {:induction false} NonEmptyKeeps(parts: seq<string>)
    requires forall i :: 0 <= i < |parts| ==> parts[i] != []
    ensures NonEmpty(parts + [[]]) == parts
  {
    if parts != [] {
      assert (parts + [[]])[1..] == parts[1..] + [[]];
      NonEmptyKeeps(parts[1..]);
    } else {
      assert NonEmpty([[]]) == [] + NonEmpty([]);
    }
  }

  /** A blank text (only ECMAScript whitespace) has no lines. */
  lemma BlankHasNoLines(text: string)
    requires Text.AllOf(text, Text.IsJsSpace)
    ensures Lines(text) == []
  {
    Text.TrimEmptyIff(text, Text.IsJsSpace);
  }

  /**
   * Reading back what the writers appended gives exactly the lines appended,
   * in order.
   */
  lemma LinesOfUnlines(lines: seq<string>)
    requires RecordLines(lines)
    ensures Lines(Unlines(lines)) == lines
  {
    if lines != [] {
      NotBlank(lines);
      SplitUnlines(lines);
      forall i | 0 <= i < |lines| ensures lines[i] != [] {
        assert !Text.AllOf(lines[i], Text.IsJsSpace);
      }
      NonEmptyKeeps(lines);
    }
  }

  lemma NotBlank(lines: seq<string>)
    requires |lines| > 0 && IsRecordLine(lines[0])
    ensures Text.JsTrim(Unlines(lines)) != []
  {
    var text := Unlines(lines);
    var l := lines[0];
    assert text == l + ("\n" + Unlines(lines[1..]));
    var k :| 0 <= k < |l| && !Text.IsJsSpace(l[k]);
    assert text[k] == l[k];
    Text.TrimEmptyIff(text, Text.IsJsSpace);
  }

  lemma SplitUnlines(lines: seq<string>)
    requires forall i :: 0 <= i < |lines| ==> '\n' !in lines[i]
    ensures Text.Split(Unlines(lines), '\n') == lines + [[]]
  {
    UnlinesAsJoin(lines);
    forall i | 0 <= i < |lines + [[]]| ensures '\n' !in (lines + [[]])[i] {
      if i < |lines| {
        assert (lines + [[]])[i] == lines[i];
      }
    }
    Text.SplitJoin(lines + [[]], '\n');
  }

  /** Appending one record line to a file of record lines adds exactly that line when read back. */
  lemma AppendOneLine(lines: seq<string>, l: string)
    requires RecordLines(lines)
    requires IsRecordLine(l)
    ensures Lines(Unlines(lines) + l + "\n") == Lines(Unlines(lines)) + [l]
  {
    UnlinesAppend(lines, l);
    LinesOfUnlines(lines);
    LinesOfUnlines(lines + [l]);
  }

  /** The same, read from the file: its records, then the appended one. */
  lemma AppendedLines(lines: seq<string>, l: string)
    requires RecordLines(lines)
    requires IsRecordLine(l)
    ensures Lines(Unlines(lines) + l + "\n") == lines + [l]
  {
    AppendOneLine(lines, l);
    LinesOfUnlines(lines);
  }
}
