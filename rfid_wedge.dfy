/**
 * The RFID keyboard-wedge decoder (frontend/src/lib/input/rfidWedge.ts).
 *
 * An RFID reader that acts as a keyboard types a tag as a fast burst of
 * characters followed by Enter or Tab. `startRfidWedge` keeps a small session
 * (`buf`, `startTs`, `lastTs` and an idle timer) in closure variables and
 * updates it on every keydown. Here the session is the class `Wedge`; the
 * clock (`performance.now()`) is the `now` argument of each key event and the
 * idle timer firing is an explicit event. The pure function `Step` is the
 * specification of one event; `Run` folds it over a sequence of events.
 */
module RfidWedge {
  import opened Wrappers

  const DefaultMinLength: int := 5
  const DefaultIdleResetMs: int := 120
  const DefaultMaxBurstMs: int := 700
  const DefaultTerminators: seq<string> := ["Enter", "Tab"]

  /** The default allowed pattern `/^[0-9A-Za-z]$/`, for one character. */
  predicate IsAlphanumeric(c: char) {
    '0' <= c <= '9' || 'A' <= c <= 'Z' || 'a' <= c <= 'z'
  }

  /** `RfidOptions`: every option may be left out. */
  datatype Options = Options(
    minLength: Option<int>,
    idleResetMs: Option<int>,
    maxBurstMs: Option<int>,
    terminators: Option<seq<string>>,
    allowed: Option<char -> bool>)

  const NoOptions: Options := Options(None, None, None, None, None)

  /** The options once the defaults (`??`) are applied. */
  datatype Config = Config(
    minLength: int,
    idleResetMs: int,
    maxBurstMs: int,
    terminators: seq<string>,
    allowed: char -> bool)

  function ApplyDefaults(o: Options): Config {
    Config(
      o.minLength.GetOr(DefaultMinLength),
      o.idleResetMs.GetOr(DefaultIdleResetMs),
      o.maxBurstMs.GetOr(DefaultMaxBurstMs),
      o.terminators.GetOr(DefaultTerminators),
      o.allowed.GetOr(IsAlphanumeric))
  }

  /** The idle timer: either cleared or due at an absolute time. */
  datatype Timer = Cleared | Armed(deadline: int)

  /** The closure state of one `startRfidWedge` call. */
  datatype WedgeState = WedgeState(
    buf: string,
    startTs: int,
    lastTs: int,
    timer: Timer,
    listening: bool)

  /** The state right after `startRfidWedge` registered its listener. */
  const Started: WedgeState := WedgeState("", 0, 0, Cleared, true)

  /** `reset()`. */
  function AfterReset(s: WedgeState): WedgeState {
    s.(buf := "", startTs := 0, lastTs := 0, timer := Cleared)
  }

  /** The parts of a `KeyboardEvent` the decoder reads. */
  datatype KeyEvent = KeyEvent(key: string, isComposing: bool)

  datatype Event =
    | KeyDown(e: KeyEvent, now: int)   // a keydown, handled at time `now`
    | IdleTimerFired                   // the `setTimeout(reset, idleResetMs)` callback runs
    | StopCalled                       // the returned stop function is called

  /** A single-character key that matches the allowed pattern. */
  predicate IsCaptureKey(cfg: Config, key: string) {
    |key| == 1 && cfg.allowed(key[0])
  }

  datatype Output = Output(next: WedgeState, tag: Option<string>)

  /** What one event does to the session, and the tag passed to `onTag`, if any. */
  function Step(cfg: Config, s: WedgeState, ev: Event): Output {
    match ev
    case KeyDown(e, now) =>
      if !s.listening || e.isComposing then Output(s, None)
      else if IsCaptureKey(cfg, e.key) then
        Output(WedgeState(s.buf + e.key, if s.startTs == 0 then now else s.startTs, now,
                          Armed(now + cfg.idleResetMs), true), None)
      else if e.key in cfg.terminators then
        Output(AfterReset(s),
               if |s.buf| >= cfg.minLength && now - s.startTs <= cfg.maxBurstMs
               then Some(s.buf) else None)
      else if s.buf != "" then Output(AfterReset(s), None)
      else Output(s, None)
    case IdleTimerFired =>
      if s.timer.Armed? then Output(AfterReset(s), None) else Output(s, None)
    case StopCalled =>
      Output(AfterReset(s).(listening := false), None)
  }

  /** The final state and every tag emitted, in order, over a sequence of events. */
  datatype Trace = Trace(final: WedgeState, tags: seq<string>)

  function Run(cfg: Config, s: WedgeState, evs: seq<Event>): Trace
    decreases |evs|
  {
    if evs == [] then Trace(s, [])
    else
      var o := Step(cfg, s, evs[0]);
      var rest := Run(cfg, o.next, evs[1..]);
      Trace(rest.final, (if o.tag.Some? then [o.tag.value] else []) + rest.tags)
  }

  // ------------------------------------------------------------------ invariant

  predicate AllAllowed(cfg: Config, s: string) {
    forall i :: 0 <= i < |s| ==> cfg.allowed(s[i])
  }

  /**
   * The session invariant: the buffer holds only allowed characters; an empty
   * buffer means IDLE (zero timestamps, no timer); a non-empty buffer means
   * CAPTURING with the timer due `idleResetMs` after the last key; a stopped
   * decoder holds nothing.
   */
  ghost predicate Inv(cfg: Config, s: WedgeState) {
    && AllAllowed(cfg, s.buf)
    && (s.buf == "" ==> s.startTs == 0 && s.lastTs == 0 && s.timer == Cleared)
    && (s.buf != "" ==> s.timer == Armed(s.lastTs + cfg.idleResetMs))
    && (!s.listening ==> s.buf == "")
  }

  /** A tag as the decoder may hand it to `onTag`. */
  ghost predicate ValidTag(cfg: Config, t: string) {
    |t| >= cfg.minLength && AllAllowed(cfg, t)
  }

  lemma StepKeepsInv(cfg: Config, s: WedgeState, ev: Event)
    requires Inv(cfg, s)
    ensures Inv(cfg, Step(cfg, s, ev).next)
    ensures Step(cfg, s, ev).tag.Some? ==> ValidTag(cfg, Step(cfg, s, ev).tag.value)
  {
  }

  /**
   * Over any run from a state satisfying the invariant, the invariant still
   * holds at the end and every emitted tag is at least `minLength` long and
   * made of allowed characters only.
   */
  lemma {:induction false} RunKeepsInv(cfg: Config, s: WedgeState, evs: seq<Event>)
    requires Inv(cfg, s)
    ensures Inv(cfg, Run(cfg, s, evs).final)
    ensures forall t :: t in Run(cfg, s, evs).tags ==> ValidTag(cfg, t)
    decreases |evs|
  {
    if evs != [] {
      StepKeepsInv(cfg, s, evs[0]);
      RunKeepsInv(cfg, Step(cfg, s, evs[0]).next, evs[1..]);
    }
  }

  lemma StartedInv(cfg: Config)
    ensures Inv(cfg, Started)
  {
  }

  /** Running two event sequences one after the other. */
  lemma {:induction false} RunAppend(cfg: Config, s: WedgeState, a: seq<Event>, b: seq<Event>)
    ensures Run(cfg, s, a + b) ==
      Trace(Run(cfg, Run(cfg, s, a).final, b).final,
            Run(cfg, s, a).tags + Run(cfg, Run(cfg, s, a).final, b).tags)
    decreases |a|
  {
    if a == [] {
      assert a + b == b;
    } else {
      assert (a + b)[0] == a[0] && (a + b)[1..] == a[1..] + b;
      RunAppend(cfg, Step(cfg, s, a[0]).next, a[1..], b);
    }
  }

  // ------------------------------------------------------------------ single events

  /** An allowed key appends to `buf`, sets `startTs` only if unset, always sets `lastTs`, re-arms the timer. */
  lemma CaptureKeyAppends(cfg: Config, s: WedgeState, e: KeyEvent, now: int)
    requires s.listening && !e.isComposing && IsCaptureKey(cfg, e.key)
    ensures Step(cfg, s, KeyDown(e, now)).next.buf == s.buf + e.key
    ensures Step(cfg, s, KeyDown(e, now)).next.startTs == if s.startTs == 0 then now else s.startTs
    ensures Step(cfg, s, KeyDown(e, now)).next.lastTs == now
    ensures Step(cfg, s, KeyDown(e, now)).next.timer == Armed(now + cfg.idleResetMs)
    ensures Step(cfg, s, KeyDown(e, now)).tag == None
  {
  }

  /**
   * A terminator emits the buffer exactly when it is at least `minLength` long
   * and at most `maxBurstMs` passed from the first character to the terminator;
   * either way the session is reset.
   */
  lemma TerminatorEmitsIff(cfg: Config, s: WedgeState, e: KeyEvent, now: int)
    requires s.listening && !e.isComposing && !IsCaptureKey(cfg, e.key) && e.key in cfg.terminators
    ensures Step(cfg, s, KeyDown(e, now)).tag.Some? <==>
      |s.buf| >= cfg.minLength && now - s.startTs <= cfg.maxBurstMs
    ensures Step(cfg, s, KeyDown(e, now)).tag.Some? ==> Step(cfg, s, KeyDown(e, now)).tag.value == s.buf
    ensures Step(cfg, s, KeyDown(e, now)).next == AfterReset(s)
  {
  }

  /** Any other key resets a capture in progress and is ignored when idle. */
  lemma OtherKeyResets(cfg: Config, s: WedgeState, e: KeyEvent, now: int)
    requires !e.isComposing && !IsCaptureKey(cfg, e.key) && e.key !in cfg.terminators
    ensures Step(cfg, s, KeyDown(e, now)).tag == None
    ensures Step(cfg, s, KeyDown(e, now)).next ==
      if s.listening && s.buf != "" then AfterReset(s) else s
  {
  }

  /** Composition (IME) events and events after the stop function change nothing. */
  lemma IgnoredKeys(cfg: Config, s: WedgeState, e: KeyEvent, now: int)
    requires e.isComposing || !s.listening
    ensures Step(cfg, s, KeyDown(e, now)) == Output(s, None)
  {
  }

  /** Only an allowed key arms the timer; its firing resets without emitting. */
  lemma TimerArmedOnlyByCaptureKeys(cfg: Config, s: WedgeState, ev: Event)
    requires Step(cfg, s, ev).next.timer.Armed? && Step(cfg, s, ev).next.timer != s.timer
    ensures ev.KeyDown? && !ev.e.isComposing && IsCaptureKey(cfg, ev.e.key)
    ensures Step(cfg, s, ev).next.timer == Armed(ev.now + cfg.idleResetMs)
  {
  }

  lemma TimerFiringResets(cfg: Config, s: WedgeState)
    requires s.timer.Armed?
    ensures Step(cfg, s, IdleTimerFired) == Output(AfterReset(s), None)
  {
  }

  lemma Defaults()
    ensures ApplyDefaults(NoOptions).minLength == 5
    ensures ApplyDefaults(NoOptions).idleResetMs == 120
    ensures ApplyDefaults(NoOptions).maxBurstMs == 700
    ensures ApplyDefaults(NoOptions).terminators == ["Enter", "Tab"]
    ensures forall c :: ApplyDefaults(NoOptions).allowed(c) <==> IsAlphanumeric(c)
  {
  }

  // ------------------------------------------------------------------ whole scans

  /** The keydowns of a burst: one single-character key per character, at the given times. */
  function Burst(keys: string, times: seq<int>): (evs: seq<Event>)
    requires |times| == |keys|
    ensures |evs| == |keys|
    ensures forall i :: 0 <= i < |keys| ==> evs[i] == KeyDown(KeyEvent([keys[i]], false), times[i])
  {
    seq(|keys|, i requires 0 <= i < |keys| => KeyDown(KeyEvent([keys[i]], false), times[i]))
  }

  /**
   * A burst of allowed characters appends all of them to the buffer, keeps
   * the first timestamp as `startTs` and the last as `lastTs`, and emits nothing.
   */
  lemma {:induction false} RunBurst(cfg: Config, s: WedgeState, keys: string, times: seq<int>)
    requires s.listening && |keys| == |times| >= 1
    requires AllAllowed(cfg, keys)
    requires s.startTs != 0 || times[0] != 0
    ensures Run(cfg, s, Burst(keys, times)) ==
      Trace(WedgeState(s.buf + keys, if s.startTs == 0 then times[0] else s.startTs,
                       times[|times| - 1], Armed(times[|times| - 1] + cfg.idleResetMs), true), [])
    decreases |keys|
  {
    var evs := Burst(keys, times);
    var e0 := KeyEvent([keys[0]], false);
    assert evs[0] == KeyDown(e0, times[0]);
    assert IsCaptureKey(cfg, e0.key) by {
      assert e0.key[0] == keys[0];
    }
    CaptureKeyAppends(cfg, s, e0, times[0]);
    var start := if s.startTs == 0 then times[0] else s.startTs;
    var s1 := WedgeState(s.buf + [keys[0]], start, times[0], Armed(times[0] + cfg.idleResetMs), true);
    assert Step(cfg, s, evs[0]) == Output(s1, None);
    RunQuiet(cfg, s, evs);
    if |keys| == 1 {
      assert evs[1..] == [];
      assert keys == [keys[0]];
    } else {
      assert evs[1..] == Burst(keys[1..], times[1..]);
      assert AllAllowed(cfg, keys[1..]) by {
        forall i | 0 <= i < |keys[1..]| ensures cfg.allowed(keys[1..][i]) {
          assert keys[1..][i] == keys[i + 1];
        }
      }
      RunBurst(cfg, s1, keys[1..], times[1..]);
      assert s1.startTs != 0;
      assert times[1..][|times[1..]| - 1] == times[|times| - 1];
      ConsAppend(s.buf, keys);
    }
  }

  lemma ConsAppend(b: string, k: string)
    requires |k| >= 1
    ensures b + k == (b + [k[0]]) + k[1..]
  {
    assert k == [k[0]] + k[1..];
  }

  /**
   * A whole scan: from IDLE, a burst of allowed characters and then a
   * terminator emit exactly one tag, the burst itself, when it is at least
   * `minLength` long and the terminator comes at most `maxBurstMs` after the
   * first character; otherwise nothing. The decoder is IDLE afterwards.
   */
  lemma ScanEmitsIff(cfg: Config, s: WedgeState, keys: string, times: seq<int>, term: string, t: int)
    requires Inv(cfg, s) && s.listening && s.buf == ""
    requires |keys| == |times| >= 1 && times[0] != 0
    requires AllAllowed(cfg, keys)
    requires term in cfg.terminators && !IsCaptureKey(cfg, term)
    ensures Run(cfg, s, Burst(keys, times) + [KeyDown(KeyEvent(term, false), t)]) ==
      Trace(Started, if |keys| >= cfg.minLength && t - times[0] <= cfg.maxBurstMs then [keys] else [])
  {
    var ev := KeyDown(KeyEvent(term, false), t);
    var burst := Burst(keys, times);
    RunBurst(cfg, s, keys, times);
    assert s.startTs == 0;
    var mid := Run(cfg, s, burst).final;
    assert mid.buf == keys && mid.startTs == times[0] && mid.listening;
    RunThrough(cfg, s, burst, [ev]);
    TerminatorRun(cfg, mid, term, t);
  }

  /** An event that emits nothing hands its next state on to the events after it. */
  lemma RunQuiet(cfg: Config, s: WedgeState, evs: seq<Event>)
    requires evs != [] && Step(cfg, s, evs[0]).tag.None?
    ensures Run(cfg, s, evs) == Run(cfg, Step(cfg, s, evs[0]).next, evs[1..])
  {
  }

  /** Events that emit nothing only hand their final state on to the ones after them. */
  lemma RunThrough(cfg: Config, s: WedgeState, a: seq<Event>, b: seq<Event>)
    requires Run(cfg, s, a).tags == []
    ensures Run(cfg, s, a + b) == Run(cfg, Run(cfg, s, a).final, b)
  {
    RunAppend(cfg, s, a, b);
    assert [] + Run(cfg, Run(cfg, s, a).final, b).tags == Run(cfg, Run(cfg, s, a).final, b).tags;
  }

  /** A lone terminator on a listening session: the verdict on its buffer, then IDLE. */
  lemma TerminatorRun(cfg: Config, s: WedgeState, term: string, t: int)
    requires s.listening && term in cfg.terminators && !IsCaptureKey(cfg, term)
    ensures Run(cfg, s, [KeyDown(KeyEvent(term, false), t)]) ==
      Trace(Started, if |s.buf| >= cfg.minLength && t - s.startTs <= cfg.maxBurstMs then [s.buf] else [])
  {
    var ev := KeyDown(KeyEvent(term, false), t);
    TerminatorEmitsIff(cfg, s, KeyEvent(term, false), t);
    assert AfterReset(s) == Started;
    RunOne(cfg, s, ev);
  }

  lemma RunOne(cfg: Config, s: WedgeState, ev: Event)
    ensures Run(cfg, s, [ev]) ==
      Trace(Step(cfg, s, ev).next, if Step(cfg, s, ev).tag.Some? then [Step(cfg, s, ev).tag.value] else [])
  {
    assert [ev][1..] == [];
  }

  /**
   * An idle timeout in the middle of a scan discards everything typed before
   * it: the outcome is decided by the characters after the timeout alone.
   */
  lemma TimeoutDiscardsPrefix(cfg: Config, s: WedgeState, k1: string, t1: seq<int>,
                              k2: string, t2: seq<int>, term: string, t: int)
    requires Inv(cfg, s) && s.listening && s.buf == ""
    requires |k1| == |t1| >= 1 && t1[0] != 0 && AllAllowed(cfg, k1)
    requires |k2| == |t2| >= 1 && t2[0] != 0 && AllAllowed(cfg, k2)
    requires term in cfg.terminators && !IsCaptureKey(cfg, term)
    ensures Run(cfg, s, Burst(k1, t1) + [IdleTimerFired] + (Burst(k2, t2) + [KeyDown(KeyEvent(term, false), t)])) ==
      Trace(Started, if |k2| >= cfg.minLength && t - t2[0] <= cfg.maxBurstMs then [k2] else [])
  {
    var head := Burst(k1, t1) + [IdleTimerFired];
    var tail := Burst(k2, t2) + [KeyDown(KeyEvent(term, false), t)];
    RunBurst(cfg, s, k1, t1);
    RunAppend(cfg, s, Burst(k1, t1), [IdleTimerFired]);
    assert Run(cfg, s, head).final == Started && Run(cfg, s, head).tags == [];
    StartedInv(cfg);
    ScanEmitsIff(cfg, Started, k2, t2, term, t);
    RunAppend(cfg, s, head, tail);
  }

  /** The reader burst "A1B2C" then Enter within 50 ms yields the tag "A1B2C" with the defaults. */
  lemma ExampleAccepted()
    ensures Run(ApplyDefaults(NoOptions), Started,
                Burst("A1B2C", [10, 20, 30, 40, 50]) + [KeyDown(KeyEvent("Enter", false), 55)]).tags == ["A1B2C"]
  {
    StartedInv(ApplyDefaults(NoOptions));
    ScanEmitsIff(ApplyDefaults(NoOptions), Started, "A1B2C", [10, 20, 30, 40, 50], "Enter", 55);
  }

  /** "AB" then Enter is below the minimum length and yields nothing. */
  lemma ExampleTooShort()
    ensures Run(ApplyDefaults(NoOptions), Started,
                Burst("AB", [10, 20]) + [KeyDown(KeyEvent("Enter", false), 30)]).tags == []
  {
    StartedInv(ApplyDefaults(NoOptions));
    ScanEmitsIff(ApplyDefaults(NoOptions), Started, "AB", [10, 20], "Enter", 30);
  }

  // ------------------------------------------------------------------ the closure as a class

  /** One `startRfidWedge` call: its options and its closure variables. */
  class Wedge {
    const cfg: Config
    var buf: string
    var lastTs: int
    var startTs: int
    var idleTimer: Timer
    var listening: bool

    function State(): WedgeState
      reads this
    {
      WedgeState(buf, startTs, lastTs, idleTimer, listening)
    }

    /** `startRfidWedge(onTag, opts)`: applies the defaults and registers the listener. */
    constructor (opts: Options)
      ensures cfg == ApplyDefaults(opts)
      ensures State() == Started
    {
      cfg := ApplyDefaults(opts);
      buf := "";
      lastTs := 0;
      startTs := 0;
      idleTimer := Cleared;
      listening := true;
    }

    /** `reset()`. */
    method Reset()
      modifies this
      ensures State() == AfterReset(old(State()))
    {
      buf := "";
      lastTs := 0;
      startTs := 0;
      if idleTimer.Armed? {
        idleTimer := Cleared;
      }
    }

    /** `armIdleTimer()`, called at time `now`. */
    method ArmIdleTimer(now: int)
      modifies this
      ensures State() == old(State()).(timer := Armed(now + cfg.idleResetMs))
    {
      idleTimer := Armed(now + cfg.idleResetMs);
    }

    /** `onKeyDown(e)` at time `now`; the result is the argument of `onTag`, if it is called. */
    method OnKeyDown(e: KeyEvent, now: int) returns (tag: Option<string>)
      modifies this
      ensures Output(State(), tag) == Step(cfg, old(State()), KeyDown(e, now))
    {
      tag := None;
      if !listening || e.isComposing {
        return;
      }
      if |e.key| == 1 && cfg.allowed(e.key[0]) {
        if startTs == 0 {
          startTs := now;
        }
        lastTs := now;
        buf := buf + e.key;
        ArmIdleTimer(now);
        return;
      }
      if e.key in cfg.terminators {
        if |buf| >= cfg.minLength {
          var burst := now - startTs;
          if burst <= cfg.maxBurstMs {
            tag := Some(buf);
          }
        }
        Reset();
        return;
      }
      if buf != "" {
        Reset();
      }
    }

    /** The idle timer's callback. */
    method IdleTimerFires()
      modifies this
      ensures State() == Step(cfg, old(State()), IdleTimerFired).next
    {
      if idleTimer.Armed? {
        Reset();
      }
    }

    /** The stop function returned by `startRfidWedge`. */
    method Stop()
      modifies this
      ensures State() == Step(cfg, old(State()), StopCalled).next
    {
      listening := false;
      Reset();
    }
  }
}
