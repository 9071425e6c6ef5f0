/**
 * The backend's serial pass reader: `serial_reader_loop` in
 * backend/src/serial.rs (duplicated in backend/src/main.rs).
 *
 * The finish-line sensor writes a line "P" on the serial port for every pass.
 * The loop keeps `last_emit`; a "P" that comes less than `debounce_ms` after
 * the last emitted pass is dropped, otherwise it becomes a `PassEvent` that is
 * appended to the NDJSON log, flushed, and then sent to the broadcast channel.
 *
 * Each iteration's inputs are explicit: the outcome of `read_line`, the value
 * of `Utc::now()` (milliseconds) and whether the append and flush succeed. The
 * log and the channel are recorded together, in order, as a trace of effects.
 */
module SerialPass {
  import Text
  import opened Wrappers
  import opened PassLog

  /** The outcome of one `reader.read_line(&mut line)`. */
  datatype ReadResult =
    | ReadZero                  // Ok(0): the port timed out without data
    | ReadLine(text: string)    // Ok(n), n > 0: the line read, terminator included
    | ReadFailed(timedOut: bool)

  /** How the `writeln!` and `flush` of one event turn out. */
  datatype AppendOutcome = AppendOk | WriteFailed | FlushFailed

  /** One loop iteration's inputs. */
  datatype Input = Input(read: ReadResult, now: int, append: AppendOutcome)

  /** What reaches the log file and the broadcast channel, in order. */
  datatype Effect = Wrote(line: string) | Flushed | Sent(ev: PassEvent)

  /** The loop's state: `last_emit`, whether the loop still runs, and the effects so far. */
  datatype ReaderState = ReaderState(lastEmit: int, running: bool, effects: seq<Effect>)

  /** Only a line that trims (Rust `str::trim`) to "P" is a pass. */
  predicate IsPassLine(text: string) {
    Text.RustTrim(text) == "P"
  }

  /** The earliest instant chrono's `DateTime<Utc>` holds, -262143-01-01T00:00:00Z, in Unix milliseconds. */
  const ChronoMinMs: int := -8_334_601_315_200_000

  /**
   * The loop gets past its set-up: `debounce_ms as i64` is below 2^63 (at 2^63
   * it becomes `i64::MIN` and `TimeDelta::milliseconds` panics), and
   * `Utc::now()` minus that many milliseconds is still a date chrono holds.
   */
  predicate StartsUp(debounceMs: nat, startTime: int) {
    debounceMs < 0x8000_0000_0000_0000 && startTime - debounceMs >= ChronoMinMs
  }

  /** `last_emit` starts `debounce_ms` before the loop starts. */
  function Start(debounceMs: nat, startTime: int): ReaderState {
    ReaderState(startTime - debounceMs, true, [])
  }

  /**
   * One iteration of the loop. An emitted pass updates `last_emit` before the
   * append; a failing `writeln!` or `flush` ends the loop (the `?`).
   */
  function Step(debounceMs: nat, encode: PassEvent -> string, s: ReaderState, inp: Input): ReaderState {
    if !inp.read.ReadLine? || !IsPassLine(inp.read.text) then s
    else if inp.now - s.lastEmit < debounceMs then s
    else Emit(encode, s, inp.now, inp.append)
  }

  /** An emitted pass at `now`: `last_emit` moves to `now`, then the append, the flush and the send. */
  function Emit(encode: PassEvent -> string, s: ReaderState, now: int, append: AppendOutcome): ReaderState {
    var ev := PassEvent(now);
    match append
    case AppendOk => ReaderState(now, true, s.effects + [Wrote(encode(ev)), Flushed, Sent(ev)])
    case WriteFailed => ReaderState(now, false, s.effects)
    case FlushFailed => ReaderState(now, false, s.effects + [Wrote(encode(ev))])
  }

  /** The loop over a finite prefix of its inputs; it stops consuming once it has ended. */
  function Run(debounceMs: nat, encode: PassEvent -> string, s: ReaderState, inputs: seq<Input>): ReaderState
    decreases |inputs|
  {
    if inputs == [] || !s.running then s
    else Run(debounceMs, encode, Step(debounceMs, encode, s, inputs[0]), inputs[1..])
  }

  // ------------------------------------------------------------------ effects

  /** The events broadcast, in order. */
  function Sents(effects: seq<Effect>): seq<PassEvent> {
    if effects == [] then []
    else (if effects[0].Sent? then [effects[0].ev] else []) + Sents(effects[1..])
  }

  /** The lines written to the log, in order. */
  function Written(effects: seq<Effect>): seq<string> {
    if effects == [] then []
    else (if effects[0].Wrote? then [effects[0].line] else []) + Written(effects[1..])
  }

  lemma {:induction false} SentsAppend(a: seq<Effect>, b: seq<Effect>)
    ensures Sents(a + b) == Sents(a) + Sents(b)
  {
    if a == [] {
      assert a + b == b;
    } else {
      assert (a + b)[0] == a[0] && (a + b)[1..] == a[1..] + b;
      SentsAppend(a[1..], b);
    }
  }

  lemma {:induction false} WrittenAppend(a: seq<Effect>, b: seq<Effect>)
    ensures Written(a + b) == Written(a) + Written(b)
  {
    if a == [] {
      assert a + b == b;
    } else {
      assert (a + b)[0] == a[0] && (a + b)[1..] == a[1..] + b;
      WrittenAppend(a[1..], b);
    }
  }

  /** Each event's block: its line written, the file flushed, then the event sent. */
  function Blocks(es: seq<PassEvent>, encode: PassEvent -> string): seq<Effect> {
    if es == [] then []
    else Blocks(es[..|es| - 1], encode) + [Wrote(encode(es[|es| - 1])), Flushed, Sent(es[|es| - 1])]
  }

  /** What one block, and a lone written line, contribute. */
  lemma BlockEffects(line: string, ev: PassEvent)
    ensures Sents([Wrote(line), Flushed, Sent(ev)]) == [ev] && Written([Wrote(line), Flushed, Sent(ev)]) == [line]
    ensures Sents([Wrote(line)]) == [] && Written([Wrote(line)]) == [line]
  {
    var b := [Wrote(line), Flushed, Sent(ev)];
    assert b[1..] == [Flushed, Sent(ev)] && b[1..][1..] == [Sent(ev)] && b[1..][1..][1..] == [];
    assert Sents([Sent(ev)]) == [ev] && Written([Sent(ev)]) == [];
    assert Sents([Flushed, Sent(ev)]) == [ev] && Written([Flushed, Sent(ev)]) == [];
    assert [Wrote(line)][1..] == [];
  }

  lemma {:induction false} BlocksContents(es: seq<PassEvent>, encode: PassEvent -> string)
    ensures Sents(Blocks(es, encode)) == es
    ensures Written(Blocks(es, encode)) == Encoded(es, encode)
  {
    if es != [] {
      var init := es[..|es| - 1];
      var e := es[|es| - 1];
      var block := [Wrote(encode(e)), Flushed, Sent(e)];
      BlocksContents(init, encode);
      SentsAppend(Blocks(init, encode), block);
      WrittenAppend(Blocks(init, encode), block);
      BlockEffects(encode(e), e);
      assert init + [e] == es;
      assert Encoded(init, encode) + [encode(e)] == Encoded(es, encode);
    }
  }

  /**
   * Emitted passes are at least `debounce_ms` apart, the log is exactly the
   * encodings of the events sent, each written and flushed before it is sent,
   * and `last_emit` is not before the last event sent. When the loop ended on
   * a failed flush, the last event's line is in the log but was never sent.
   */
  ghost predicate Inv(debounceMs: nat, encode: PassEvent -> string, s: ReaderState) {
    var sent := Sents(s.effects);
    && (forall i, j :: 0 <= i < j < |sent| ==> sent[j].tsUtc - sent[i].tsUtc >= debounceMs)
    && (forall i :: 0 <= i < |sent| ==> sent[i].tsUtc <= s.lastEmit)
    && (s.effects == Blocks(sent, encode)
        || (!s.running && s.effects == Blocks(sent, encode) + [Wrote(encode(PassEvent(s.lastEmit)))]))
  }

  lemma StartInv(debounceMs: nat, encode: PassEvent -> string, startTime: int)
    ensures Inv(debounceMs, encode, Start(debounceMs, startTime))
  {
  }

  lemma StepKeepsInv(debounceMs: nat, encode: PassEvent -> string, s: ReaderState, inp: Input)
    requires s.running && Inv(debounceMs, encode, s)
    ensures Inv(debounceMs, encode, Step(debounceMs, encode, s, inp))
  {
    var t := Step(debounceMs, encode, s, inp);
    if t != s {
      var sent := Sents(s.effects);
      var ev := PassEvent(inp.now);
      var block := [Wrote(encode(ev)), Flushed, Sent(ev)];
      assert s.effects == Blocks(sent, encode);
      assert inp.now - s.lastEmit >= debounceMs;
      BlockEffects(encode(ev), ev);
      if inp.append == AppendOk {
        SentsAppend(s.effects, block);
        var sent' := sent + [ev];
        assert Sents(t.effects) == sent';
        assert sent'[..|sent|] == sent;
        assert t.effects == Blocks(sent', encode);
        forall i, j | 0 <= i < j < |sent'|
          ensures sent'[j].tsUtc - sent'[i].tsUtc >= debounceMs
        {
          if j == |sent| {
            assert sent'[i] == sent[i];
          } else {
            assert sent'[i] == sent[i] && sent'[j] == sent[j];
          }
        }
      } else if inp.append == FlushFailed {
        SentsAppend(s.effects, [Wrote(encode(ev))]);
        assert Sents(t.effects) == sent;
      }
    }
  }

  /** The invariant holds after any run of the loop from any state that satisfies it. */
  lemma {:induction false} RunKeepsInv(debounceMs: nat, encode: PassEvent -> string, s: ReaderState, inputs: seq<Input>)
    requires Inv(debounceMs, encode, s)
    ensures Inv(debounceMs, encode, Run(debounceMs, encode, s, inputs))
    decreases |inputs|
  {
    if inputs != [] && s.running {
      StepKeepsInv(debounceMs, encode, s, inputs[0]);
      RunKeepsInv(debounceMs, encode, Step(debounceMs, encode, s, inputs[0]), inputs[1..]);
    }
  }

  // ------------------------------------------------------------------ single iterations

  /** Lines that do not trim to "P", zero-length reads and read errors change nothing. */
  lemma NonPassChangesNothing(debounceMs: nat, encode: PassEvent -> string, s: ReaderState, inp: Input)
    requires !(inp.read.ReadLine? && IsPassLine(inp.read.text))
    ensures Step(debounceMs, encode, s, inp) == s
  {
  }

  /** A pass line is "P" surrounded by whitespace only. */
  lemma PassLineShape(text: string)
    ensures IsPassLine(text) <==>
      exists k :: 0 <= k < |text| && text[k] == 'P'
        && Text.AllOf(text[..k], Text.IsRustSpace) && Text.AllOf(text[k + 1..], Text.IsRustSpace)
  {
    Text.TrimSingleIff(text, Text.IsRustSpace, 'P');
  }

  /**
   * A pass is dropped, leaving `last_emit` as it was, exactly when it comes
   * less than `debounce_ms` after the last emitted pass.
   */
  lemma DebounceDecision(debounceMs: nat, encode: PassEvent -> string, s: ReaderState, text: string,
                         now: int, append: AppendOutcome)
    requires IsPassLine(text) && s.running
    ensures Step(debounceMs, encode, s, Input(ReadLine(text), now, append)) == s
      <==> now - s.lastEmit < debounceMs
    ensures now - s.lastEmit >= debounceMs ==>
      Step(debounceMs, encode, s, Input(ReadLine(text), now, append)).lastEmit == now
  {
  }

  /** The first pass after start is emitted, given a clock that does not go back. */
  lemma FirstPassEmitted(debounceMs: nat, encode: PassEvent -> string, startTime: int, text: string, now: int)
    requires IsPassLine(text) && now >= startTime
    ensures Sents(Step(debounceMs, encode, Start(debounceMs, startTime), Input(ReadLine(text), now, AppendOk)).effects)
      == [PassEvent(now)]
  {
    var block := [Wrote(encode(PassEvent(now))), Flushed, Sent(PassEvent(now))];
    assert [] + block == block;
    BlockEffects(encode(PassEvent(now)), PassEvent(now));
  }

  /**
   * Over any run from start: consecutive passes sent are `debounce_ms` apart,
   * and while the loop runs the log holds exactly the encodings of the events
   * sent, in the same order, each written and flushed before it was sent.
   */
  lemma RunFromStart(debounceMs: nat, encode: PassEvent -> string, startTime: int, inputs: seq<Input>)
    ensures var s := Run(debounceMs, encode, Start(debounceMs, startTime), inputs);
      var sent := Sents(s.effects);
      && (forall i, j :: 0 <= i < j < |sent| ==> sent[j].tsUtc - sent[i].tsUtc >= debounceMs)
      && (s.running ==> s.effects == Blocks(sent, encode) && Written(s.effects) == Encoded(sent, encode))
  {
    StartInv(debounceMs, encode, startTime);
    RunKeepsInv(debounceMs, encode, Start(debounceMs, startTime), inputs);
    var s := Run(debounceMs, encode, Start(debounceMs, startTime), inputs);
    BlocksContents(Sents(s.effects), encode);
  }

  /**
   * What `get_passes` returns after the loop: with serde's decoding inverting
   * its encoding, a log that was empty when the loop started reads back as
   * exactly the passes that were broadcast.
   */
  lemma LogReadsBackAsBroadcast(debounceMs: nat, encode: PassEvent -> string, decode: string -> Option<PassEvent>,
                                startTime: int, inputs: seq<Input>)
    requires RoundTrips(encode, decode)
    ensures var s := Run(debounceMs, encode, Start(debounceMs, startTime), inputs);
      s.running ==> GetPasses(Some(AsRead(Written(s.effects))), decode) == Sents(s.effects)
  {
    RunFromStart(debounceMs, encode, startTime, inputs);
    var s := Run(debounceMs, encode, Start(debounceMs, startTime), inputs);
    GetPassesRoundTrip(Sents(s.effects), encode, decode);
  }

  // ------------------------------------------------------------------ the loop as a class

  /** `serial_reader_loop`'s state once the log and the port are open. */
  class SerialReader {
    const debounceMs: nat
    const encode: PassEvent -> string
    const existing: seq<string>
    var lastEmit: int
    var running: bool
    var log: seq<string>
    var channel: seq<PassEvent>
    ghost var effects: seq<Effect>

    ghost function State(): ReaderState
      reads this
    {
      ReaderState(lastEmit, running, effects)
    }

    /** The log file holds what was there before plus what this loop wrote; the channel what it sent. */
    ghost predicate Valid()
      reads this
    {
      log == existing + Written(effects) && channel == Sents(effects)
    }

    /**
     * The loop's set-up at time `startTime`, appending to a log that already
     * holds `existing`; the set-up panics unless `StartsUp` holds.
     */
    constructor (debounceMs: nat, encode: PassEvent -> string, startTime: int, existing: seq<string>)
      requires StartsUp(debounceMs, startTime)
      ensures Valid() && State() == Start(debounceMs, startTime)
      ensures this.debounceMs == debounceMs && this.encode == encode && this.existing == existing
      ensures log == existing && channel == []
    {
      this.debounceMs := debounceMs;
      this.encode := encode;
      this.existing := existing;
      lastEmit := startTime - debounceMs;
      running := true;
      log := existing;
      channel := [];
      effects := [];
    }

    /** One iteration of the loop body. */
    method Iterate(inp: Input)
      requires Valid() && running
      modifies this
      ensures Valid() && State() == Step(debounceMs, encode, old(State()), inp)
    {
      if !inp.read.ReadLine? {
        return;
      }
      var t := Text.RustTrim(inp.read.text);
      if t != "P" {
        return;
      }
      var now := inp.now;
      if now - lastEmit < debounceMs {
        return;
      }
      EmitPass(now, inp.append);
    }

    /** The emitting branch of the loop body. */
    method EmitPass(now: int, append: AppendOutcome)
      requires Valid() && running
      modifies this
      ensures Valid() && State() == Emit(encode, old(State()), now, append)
    {
      lastEmit := now;
      var ev := PassEvent(now);
      var json := encode(ev);
      if append == WriteFailed {
        running := false;
        return;
      }
      log := log + [json];
      BlockEffects(json, ev);
      if append == FlushFailed {
        WrittenAppend(effects, [Wrote(json)]);
        SentsAppend(effects, [Wrote(json)]);
        effects := effects + [Wrote(json)];
        running := false;
        return;
      }
      channel := channel + [ev];
      WrittenAppend(effects, [Wrote(json), Flushed, Sent(ev)]);
      SentsAppend(effects, [Wrote(json), Flushed, Sent(ev)]);
      effects := effects + [Wrote(json), Flushed, Sent(ev)];
    }

    /** The `loop`, over a finite prefix of its inputs; it ends early on a failed append. */
    method ReadLoop(inputs: seq<Input>)
      requires Valid()
      modifies this
      ensures Valid() && State() == Run(debounceMs, encode, old(State()), inputs)
    {
      var i := 0;
      while i < |inputs| && running
        invariant 0 <= i <= |inputs|
        invariant Valid()
        invariant Run(debounceMs, encode, State(), inputs[i..]) == Run(debounceMs, encode, old(State()), inputs)
      {
        assert inputs[i..][1..] == inputs[i + 1..];
        Iterate(inputs[i]);
        i := i + 1;
      }
    }
  }
}
