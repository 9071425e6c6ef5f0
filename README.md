# rally-timer: verified model of the pass-log core

A rally-timing system turns raw finish-gate and RFID-reader input into an
ordered log of passes. This project models that core in Dafny and proves
properties of it. The modelled parts are:

- **RFID keyboard-wedge decoder** (`RfidWedge`). The browser-side state
  machine turns fast key bursts ending in Enter or Tab into tags.
- **Finish/tag association queue** (`Finishes`). It tags the oldest untagged
  finish, in place.
- **Prepend-newest store** (`FinishList`).
- **Rust backend** (`SerialPass`, `PassLog`, `BackendMain`):
  - the serial reader, which keeps only "P" lines and debounces them, then
    appends each pass to the NDJSON log before broadcasting it;
  - `get_passes`, which reads the log back;
  - the `debounce_ms` argument.
- **Gate server** (`GateServer`). It publishes MQTT status and pass messages
  under a topic prefix.
- **MQTT archiver** (`MqttArchiver`). It maps a pass topic back to its gate,
  normalises the record, and appends it to a per-gate, per-day NDJSON
  partition.
- **Topic round trip** (`TopicRoundTrip`). It joins the gate server and the
  archiver.
- **SvelteKit NDJSON endpoints** (`FileRoutes`, `EventsEndpoint`,
  `GatePassingsEndpoint`). POST validates and appends one line, GET returns
  the file, DELETE truncates it.
- **Client stores** (`EventsStore`, `PassesStore`). They parse the log,
  hydrate, push optimistically, and reconcile or POST.

Helper modules: `Wrappers` (Option), `Text` (JS and Rust whitespace trimming,
splitting on a character, `trim_end_matches`, decimal digits), `Json` (an
abstract JSON value with ordered object properties, truthiness, `String()`
coercion) and `Ndjson` (the split, filter and join of NDJSON text).

Code that changes state step by step is modelled as classes whose methods are
proved against pure specification functions:

| Class | Specification | Source |
|---|---|---|
| `RfidWedge.Wedge` | `Step` / `Run` | the closure variables |
| `Finishes.FinishQueue` | `Associate` | an array written in place |
| `SerialPass.SerialReader` | `Step` / `Run` | the reader loop |
| `MqttArchiver.Archiver` | `OnMessage` | the partition files |
| `FileRoutes.DataFile` | — | the data file |
| `EventsStore.Store` | `Hydrated` / `Reconciled` | — |
| `PassesStore.Store` | `Hydrated` / `PostBody` | — |

The following are parameters of the model: clocks (milliseconds, or a
`Clock` of date and ISO text), UUIDs, `JSON.parse`/`JSON.stringify`, serde,
`toISOString`/`new Date`, `to_rfc3339`, and the outcome of each I/O call.

Behaviour worth knowing:

- **RFID burst time.** The burst is measured from `startTs` to the
  terminator's own timestamp, not to `lastTs` (rfidWedge.ts:55).
- **`!startTs`.** This test is modelled literally. A capture whose first key
  came at time 0 restarts its `startTs` on the next key.
- **Empty strings are falsy.** An empty string counts as "no id" in
  `associateTag` (finishes.ts:27). An empty gate from `gateFromTopic` drops
  the message (mqtt-archiver.js:50).
- **Non-object payloads.** A payload that parses to `null` or another JSON
  primitive makes the archiver's handler throw. For `null`, reading
  `record.ts_utc` throws (mqtt-archiver.js:60); for other primitives,
  assigning to one of their properties throws in strict mode. This is
  modelled as `Threw`, which writes nothing.

## Model

| member | source | states |
|---|---|---|
| RfidWedge.Defaults | frontend/src/lib/input/rfidWedge.ts:11-16 | The defaults are minLength 5, idleResetMs 120, maxBurstMs 700, terminators Enter and Tab, and the allowed pattern is exactly the ASCII letters and digits. |
| RfidWedge.CaptureKeyAppends | frontend/src/lib/input/rfidWedge.ts:43-50 | An allowed single-character key appends to `buf`. `startTs` is set to now only when it was 0, `lastTs` becomes now, the idle timer is re-armed for now + idleResetMs, and nothing is emitted. |
| RfidWedge.TerminatorEmitsIff | frontend/src/lib/input/rfidWedge.ts:53-65 | A terminator emits a tag iff `buf` is at least minLength long and now − startTs ≤ maxBurstMs. The tag is `buf`, and the state is always reset. |
| RfidWedge.OtherKeyResets | frontend/src/lib/input/rfidWedge.ts:68 | Any other key emits nothing. It resets a non-empty capture and leaves an idle state unchanged. |
| RfidWedge.IgnoredKeys | frontend/src/lib/input/rfidWedge.ts:38-40 | A composing event, or any key after stop, changes nothing and emits nothing. |
| RfidWedge.TimerArmedOnlyByCaptureKeys | frontend/src/lib/input/rfidWedge.ts:33-36 | Only an allowed capture key (re)arms the idle timer, and it is then due idleResetMs after that key. |
| RfidWedge.TimerFiringResets | frontend/src/lib/input/rfidWedge.ts:23-36 | The idle timer firing resets the session without emitting. |
| RfidWedge.StepKeepsInv | frontend/src/lib/input/rfidWedge.ts:23-69 | Every event preserves the session invariant: `buf` holds only allowed characters, an empty `buf` means zero timestamps and no timer, and a non-empty one has its timer due idleResetMs after `lastTs`. Every emitted tag is at least minLength long and fully allowed. |
| RfidWedge.RunKeepsInv | frontend/src/lib/input/rfidWedge.ts:38-69 | Over any event sequence the invariant holds, and every emitted tag is valid. |
| RfidWedge.StartedInv | frontend/src/lib/input/rfidWedge.ts:18-21 | The initial state satisfies the invariant. |
| RfidWedge.RunAppend | frontend/src/lib/input/rfidWedge.ts:38-69 | Running two event sequences one after the other equals running their concatenation; the tags concatenate. |
| RfidWedge.RunBurst | frontend/src/lib/input/rfidWedge.ts:43-50 | A burst of allowed keys appends all of them to `buf`. `startTs` becomes the first key's time only if it was 0, `lastTs` and the timer follow the last key, and nothing is emitted. |
| RfidWedge.ScanEmitsIff | frontend/src/lib/input/rfidWedge.ts:43-65 | From idle, a burst followed by a terminator emits exactly the burst iff it is at least minLength long and the terminator comes within maxBurstMs of the first key. It always ends idle. |
| RfidWedge.TimeoutDiscardsPrefix | frontend/src/lib/input/rfidWedge.ts:33-36 | A burst cut short by the idle timer is discarded: only the following burst can be emitted. |
| RfidWedge.TerminatorRun | frontend/src/lib/input/rfidWedge.ts:53-65 | A terminator run on its own emits `buf` under the length and burst-time condition and ends in the started state. |
| RfidWedge.ExampleAccepted | frontend/src/lib/input/rfidWedge.ts:53-61 | With the defaults, "A1B2C" typed over 45 ms and ended with Enter is emitted. |
| RfidWedge.ExampleTooShort | frontend/src/lib/input/rfidWedge.ts:53-61 | With the defaults, "AB" followed by Enter emits nothing. |
| RfidWedge.Wedge.constructor | frontend/src/lib/input/rfidWedge.ts:11-21 | A new decoder has the options with their defaults applied and the started state. |
| RfidWedge.Wedge.Reset | frontend/src/lib/input/rfidWedge.ts:23-31 | `reset` clears `buf`, both timestamps and the timer. |
| RfidWedge.Wedge.ArmIdleTimer | frontend/src/lib/input/rfidWedge.ts:33-36 | `armIdleTimer` replaces any pending timer with one due idleResetMs from now. |
| RfidWedge.Wedge.OnKeyDown | frontend/src/lib/input/rfidWedge.ts:38-69 | The handler's new state and its `onTag` argument are exactly `Step` of a key event. |
| RfidWedge.Wedge.IdleTimerFires | frontend/src/lib/input/rfidWedge.ts:35 | The timer callback's new state is `Step` of the timer event. |
| RfidWedge.Wedge.Stop | frontend/src/lib/input/rfidWedge.ts:72-75 | The stop function resets the session and stops listening. |
| Finishes.StopIndex | frontend/src/lib/stores/finishes.ts:25-30 | The scan stops at the first entry that already carries the tag or has no id. No entry before it does either. |
| Finishes.AssociateAtStop | frontend/src/lib/stores/finishes.ts:22-33 | `associateTag` changes only the entry where the scan stops, and only if that entry is untagged; otherwise the queue is unchanged. |
| Finishes.ChangesAtMostOne | frontend/src/lib/stores/finishes.ts:22-33 | Association keeps every `ts` and `gateId`, changes at most one entry, and the changed entry was unassigned and now carries the tag. |
| Finishes.NeverOverwrites | frontend/src/lib/stores/finishes.ts:27-28 | An entry with a (truthy) id is never changed. |
| Finishes.Idempotent | frontend/src/lib/stores/finishes.ts:25-30 | Associating the same tag twice is the same as once. |
| Finishes.TrimKeepsNewest | frontend/src/lib/stores/finishes.ts:36-37 | `trim(max)` keeps the newest max entries when longer and the whole queue otherwise, as a suffix. |
| Finishes.FinishQueue.constructor | frontend/src/lib/stores/finishes.ts:10 | The queue starts empty. |
| Finishes.FinishQueue.PushIso | frontend/src/lib/stores/finishes.ts:15-16 | `pushIso` appends exactly one untagged finish at the end of a fresh array. |
| Finishes.FinishQueue.Clear | frontend/src/lib/stores/finishes.ts:18 | `clear` yields the empty queue. |
| Finishes.FinishQueue.AssociateTag | frontend/src/lib/stores/finishes.ts:22-33 | The in-place loop leaves the array equal to `Associate` of its old contents. |
| Finishes.FinishQueue.Trim | frontend/src/lib/stores/finishes.ts:36-37 | `trim` leaves `Trimmed` of the old contents, with max defaulting to 200. |
| FinishList.AddFinish | frontend/rally-timing-frontend/src/lib/stores.ts:6-8 | `addFinish` puts the new value at index 0 with the old list, in order, as the tail, so the length grows by one. |
| FinishList.ClearFinishes | frontend/rally-timing-frontend/src/lib/stores.ts:9-11 | `clearFinishes` yields the empty list whatever it started from, so applying it twice is the same as once. |
| FinishList.AddAllReverses | frontend/rally-timing-frontend/src/lib/stores.ts:6-8 | Adding a sequence of finishes one by one leaves them newest-first ahead of the old list. |
| SerialPass.StartInv | backend/src/serial.rs:32 | The starting state (`last_emit` = start − debounce, nothing written or sent) satisfies the reader invariant. |
| SerialPass.StepKeepsInv | backend/src/serial.rs:36-68 | Each iteration keeps the invariant. Sent passes are at least debounce_ms apart, none is after `last_emit`, and the effects are exactly one write, flush, send block per sent pass, with at most one trailing unflushed line when a flush failed. |
| SerialPass.RunKeepsInv | backend/src/serial.rs:36-68 | The invariant holds over any sequence of iterations. |
| SerialPass.NonPassChangesNothing | backend/src/serial.rs:39-42 | A zero-length read, a read error or a line that does not trim to "P" changes nothing. |
| SerialPass.PassLineShape | backend/src/serial.rs:41-42 | A line is a pass iff it is one "P" surrounded only by Rust whitespace. |
| SerialPass.DebounceDecision | backend/src/serial.rs:43-47 | A "P" changes nothing iff it comes less than debounce_ms after the last emitted pass; otherwise `last_emit` moves to now. |
| SerialPass.FirstPassEmitted | backend/src/serial.rs:32 | With a clock not before the start time, the first "P" is always emitted. |
| SerialPass.RunFromStart | backend/src/serial.rs:43-57 | From the start, sent passes are spaced at least debounce_ms apart. While the loop runs, the log holds exactly their encodings, each written and flushed before it is sent. |
| SerialPass.LogReadsBackAsBroadcast | backend/src/serial.rs:52-57 | If decode inverts encode, reading the written log with `get_passes` gives exactly the passes broadcast. |
| SerialPass.BlocksContents | backend/src/serial.rs:52-57 | Per-pass blocks send the passes in order and write their encodings in order. |
| SerialPass.SerialReader.constructor | backend/src/serial.rs:32 | The set-up, allowed only when it does not panic (`StartsUp`), starts with `last_emit` debounce_ms before the start time, the log as it was and nothing sent. |
| SerialPass.SerialReader.Iterate | backend/src/serial.rs:37-67 | One loop iteration leaves the reader state equal to `Step` of the old state. |
| SerialPass.SerialReader.EmitPass | backend/src/serial.rs:47-57 | The emit path sets `last_emit` and then appends, flushes and sends, stopping at a failed write or flush, as `Emit` says. |
| SerialPass.SerialReader.ReadLoop | backend/src/main.rs:145-177 | The loop over a sequence of inputs leaves the state equal to `Run`. |
| BackendMain.ParseU64 | backend/src/main.rs:58-61 | A parsed debounce value is a u64. |
| BackendMain.ParseU64Iff | backend/src/main.rs:58-61 | `parse::<u64>()` gives n iff the argument is an optional '+', any number of '0's, then n in decimal, and n < 2^64. |
| BackendMain.DebounceArg | backend/src/main.rs:58-61 | The debounce is always a u64. |
| BackendMain.ParseRendering | backend/src/main.rs:60 | Every u64 written in decimal, with or without a leading '+', parses back to itself. |
| BackendMain.ParseRejects | backend/src/main.rs:60 | `str::parse::<u64>` fails exactly on an empty digit string, a non-digit, or a value ≥ 2^64. |
| BackendMain.MinusRejected | backend/src/main.rs:60 | A leading '-' never parses. |
| BackendMain.DebounceDefaults | backend/src/main.rs:58-61 | debounce_ms is 150 when the argument is missing or does not parse, and the parsed value otherwise. |
| BackendMain.DebounceRoundTrip | backend/src/main.rs:58-61 | An argument that is the decimal form of a u64 gives back that u64. |
| BackendMain.DebounceExamples | backend/src/main.rs:58-61 | "", "-5" and "1e3" give 150, and "0200" gives 200. |
| PassLog.OkPrefix | backend/src/routes/passes.rs:19 | `map_while(Result::ok)` keeps the lines up to the first read error, in order. |
| PassLog.DecodeAll | backend/src/routes/passes.rs:20 | Every kept event is the decoding of some line. |
| PassLog.GetPasses | backend/src/routes/passes.rs:10-23 | A missing file gives no passes, and there are never more passes than lines. |
| PassLog.DecodeAllAppend | backend/src/routes/passes.rs:17-21 | Decoding is in file order: decoding two concatenated runs of lines concatenates their results. |
| PassLog.DecodeOne | backend/src/routes/passes.rs:20 | A single line gives its event if it decodes and is skipped otherwise. |
| PassLog.StopsAtFirstError | backend/src/routes/passes.rs:19 | Lines after the first read error never contribute. |
| PassLog.OkPrefixAll | backend/src/routes/passes.rs:19 | Without read errors every line is kept. |
| PassLog.ReadBackEncoded | backend/src/routes/passes.rs:17-21 | If decode inverts encode, decoding the encodings gives back the events. |
| PassLog.GetPassesRoundTrip | backend/src/main.rs:110-123 | If decode inverts encode, `get_passes` of a log of encoded events returns exactly those events, in order. |
| GateServer.LastWill | finish-gate-server/src/main.rs:62-70 | The last will is "DOWN", retained, at-most-once, on the status topic. |
| GateServer.OnConnAck | finish-gate-server/src/main.rs:81-88 | Every ConnAck publishes "UP", retained, at-least-once, on the same status topic. |
| GateServer.AsU64 | finish-gate-server/src/main.rs:124 | `timestamp_millis() as u64` is the value itself when non-negative and wraps to 2^64 + ms when negative. |
| GateServer.OnSerialRead | finish-gate-server/src/main.rs:116-134 | A publish happens iff the read returned bytes and the line trims to "P". It is non-retained, QoS 1, on the pass topic, with the RFC 3339 time, the millisecond time and the device id. |
| GateServer.Published | finish-gate-server/src/main.rs:114-137 | Over a run, one publish per queued "P" line, each on the pass topic, non-retained and naming this device. |
| GateServer.PublishedSnoc | finish-gate-server/src/main.rs:114-137 | Each iteration adds its publish, if any and if queued, at the end. |
| GateServer.SerialLoop | finish-gate-server/src/main.rs:114-137 | The imperative serial loop hands the client exactly `Published`. |
| GateServer.TrailingSlashesIrrelevant | finish-gate-server/src/main.rs:63-66 | Any number of trailing '/' on the prefix give the same pass and status topics. |
| GateServer.TopicSegments | finish-gate-server/src/main.rs:127 | If the device id and the leaf have no '/', the topic splits into the trimmed prefix's segments followed by the device id and the leaf. |
| GateServer.DefaultPrefixSegments | finish-gate-server/src/main.rs:40-42 | The default prefix trims to "rally/v1/gates", which splits into those three segments. |
| GateServer.DefaultTopics | finish-gate-server/src/main.rs:17-18 | With the defaults the topics are "rally/v1/gates/gate01/pass" and "…/status". |
| MqttArchiver.GateFromTopic | rally-timer-app/scripts/mqtt-archiver.js:19-23 | A gate read from a topic never contains '/'. |
| MqttArchiver.GateFromTopicIff | rally-timer-app/scripts/mqtt-archiver.js:19-23 | `gateFromTopic` returns g iff the topic splits into at least five segments "rally", "v1", "gates", g, "pass". |
| MqttArchiver.GateFromTopicComplete | rally-timer-app/scripts/mqtt-archiver.js:19-23 | Every topic of that shape yields its gate. |
| MqttArchiver.GateFromTopicSound | rally-timer-app/scripts/mqtt-archiver.js:19-23 | Every gate yielded comes from a topic of that shape. |
| MqttArchiver.DefaultFilterDelivers | rally-timer-app/scripts/mqtt-archiver.js:9 | Under the default subscription rally/v1/gates/+/pass, the broker delivers a topic iff it has exactly five levels and `gateFromTopic` accepts it. |
| MqttArchiver.MatchWithoutHash | rally-timer-app/scripts/mqtt-archiver.js:42 | A topic filter without '#' matches exactly the topics with as many levels, each equal to the filter's level or under a '+'. |
| MqttArchiver.PassTopicSegments | rally-timer-app/scripts/mqtt-archiver.js:21 | "rally/v1/gates/g/pass" splits into its five segments. |
| MqttArchiver.YyyymmddDigits | rally-timer-app/scripts/mqtt-archiver.js:12-17 | For a four-digit year, `yyyymmdd` is 8 digits whose value is year·10000 + month·100 + day. |
| MqttArchiver.YyyymmddOrder | rally-timer-app/scripts/mqtt-archiver.js:12-17 | An earlier date gives a numerically smaller partition name, and the names are equal iff the dates are. |
| MqttArchiver.TwoDigits | rally-timer-app/scripts/mqtt-archiver.js:14-15 | `padStart(2, '0')` of a month or day gives two digits with that value. |
| MqttArchiver.Normalize | rally-timer-app/scripts/mqtt-archiver.js:60-62 | Normalisation succeeds exactly on objects and arrays, leaves an array unchanged (its property writes are invisible to `JSON.stringify`), and keeps an object an object. |
| MqttArchiver.NormalizeObject | rally-timer-app/scripts/mqtt-archiver.js:60-62 | A falsy or missing `ts_utc` becomes the receipt time and a truthy one is kept. A falsy `gate_id` becomes the topic's gate and a truthy one is kept. `type` is "pass". Every other property is kept, and the existing keys stay first in order. |
| MqttArchiver.NormalizeRaw | rally-timer-app/scripts/mqtt-archiver.js:58-62 | The raw fallback `{ts_utc: s}` becomes `{ts_utc, gate_id, type: "pass"}`, with an empty `s` replaced by the receipt time. |
| MqttArchiver.DroppedIff | rally-timer-app/scripts/mqtt-archiver.js:48-66 | A message is dropped iff its topic yields no gate or the empty gate. An appended record goes to `<DATA_DIR>/gates/<gate>/pass-<yyyymmdd(receipt)>.ndjson`. |
| MqttArchiver.PartitionByReceiptDay | rally-timer-app/scripts/mqtt-archiver.js:52-66 | Two messages on one topic received on the same UTC day go to the same partition, whatever their `ts_utc`. |
| MqttArchiver.RawPayload | rally-timer-app/scripts/mqtt-archiver.js:53-67 | A non-JSON payload is archived as its trimmed text in `ts_utc`, with the gate and type "pass". |
| MqttArchiver.BlankPayload | rally-timer-app/scripts/mqtt-archiver.js:53-67 | A blank payload is archived with the receipt time as `ts_utc`. |
| MqttArchiver.NonObjectPayloadThrows | rally-timer-app/scripts/mqtt-archiver.js:56-62 | A payload parsing to a string, number, boolean or null makes the handler throw before anything is written. |
| MqttArchiver.AppendsNormalized | rally-timer-app/scripts/mqtt-archiver.js:60-67 | A message whose record normalises is appended, as its JSON plus one newline, to its gate's partition. |
| MqttArchiver.AppendOnly | rally-timer-app/scripts/mqtt-archiver.js:24-28 | `appendNdjson` only extends files: every existing file keeps its content as a prefix, only the target file changes, and it gains exactly the line. |
| MqttArchiver.AssignFields | rally-timer-app/scripts/mqtt-archiver.js:60-62 | The three property assignments, applied in turn to an object, give `Normalize`. |
| MqttArchiver.Decide | rally-timer-app/scripts/mqtt-archiver.js:48-67 | The handler's decision, step by step, is exactly `OnMessage`. |
| MqttArchiver.Archiver.HandleMessage | rally-timer-app/scripts/mqtt-archiver.js:48-68 | Handling a message returns `OnMessage` and applies it to the partition files. |
| TopicRoundTrip.DefaultPrefixArchived | finish-gate-server/src/main.rs:41 | The gate server's default prefix is one the archiver recognises. |
| TopicRoundTrip.PassTopicMapsBack | finish-gate-server/src/main.rs:127 | If the prefix trims to rally/v1/gates and the device id has no '/', the archiver's `gateFromTopic` of the gate's pass topic is the device id. |
| TopicRoundTrip.StatusTopicIgnored | finish-gate-server/src/main.rs:63-66 | The archiver never takes the gate's status topic for a pass. |
| TopicRoundTrip.PassArchivedUnderDevice | rally-timer-app/scripts/mqtt-archiver.js:48-66 | A gate's pass is dropped iff its device id is empty, and is otherwise filed in that device's partition for the receipt day. |
| TopicRoundTrip.PassTopicDelivered | rally-timer-app/scripts/mqtt-archiver.js:42 | Under the default subscription, the broker delivers every pass a gate publishes under an archived prefix with a device id without '/'. |
| TopicRoundTrip.SlashedIdNotDelivered | finish-gate-server/src/main.rs:127 | The gate server accepts a device id containing '/'. The id "g/pass" publishes on a six-level topic, which the default subscription never delivers. |
| TopicRoundTrip.SlashedIdMisfiled | finish-gate-server/src/main.rs:127 | Only under a subscription such as rally/v1/gates/# is that topic delivered, and then the archiver files it under gate g. |
| Ndjson.Lines | rally-timer-app/src/lib/stores/events.ts:16-22 | The non-empty '\n'-separated segments have no newline and are not empty. |
| Ndjson.BlankHasNoLines | rally-timer-app/src/lib/stores/events.ts:17 | Whitespace-only text has no lines. |
| Ndjson.LinesOfUnlines | rally-timer-app/src/lib/stores/events.ts:18-21 | Joining record lines with trailing newlines and splitting again gives them back. |
| Ndjson.AppendedLines | rally-timer-app/src/routes/api/events/+server.ts:65-66 | Appending one record line and a newline to such a file adds exactly that line at the end. |
| FileRoutes.Ensured | rally-timer-app/src/routes/api/events/+server.ts:20-27 | `ensureFile` creates an empty file only when it is missing and never alters existing content. |
| FileRoutes.Read | rally-timer-app/src/routes/api/events/+server.ts:33-44 | GET returns the file text verbatim with status 200. |
| FileRoutes.Truncate | frontend/src/routes/api/gate-passings/+server.ts:51-59 | DELETE leaves the empty file and answers 204 with no body. |
| FileRoutes.EnsuredIdempotent | frontend/src/routes/api/gate-passings/+server.ts:10-17 | `ensureFile` twice is `ensureFile` once. |
| FileRoutes.ReadTwice | frontend/src/routes/api/gate-passings/+server.ts:19-30 | A second GET changes nothing and answers the same. |
| FileRoutes.TruncateIdempotent | rally-timer-app/src/routes/api/events/+server.ts:78-86 | DELETE is idempotent, and a GET after it returns "", which holds no records. |
| FileRoutes.AppendedRecord | frontend/src/routes/api/gate-passings/+server.ts:42-43 | A handler that appended one record line to a file of record lines reads back as the old lines plus the new one. |
| FileRoutes.DataFile.EnsureFile | rally-timer-app/src/routes/api/events/+server.ts:20-27 | The step-by-step `ensureFile` gives `Ensured`. |
| FileRoutes.DataFile.Append | rally-timer-app/src/routes/api/events/+server.ts:66 | `appendFile` extends the file, creating it when missing. |
| FileRoutes.DataFile.Get | rally-timer-app/src/routes/api/events/+server.ts:33-44 | The GET handler's file and answer are `Read`. |
| FileRoutes.DataFile.Delete | rally-timer-app/src/routes/api/events/+server.ts:78-86 | The DELETE handler's file and answer are `Truncate`. |
| EventsEndpoint.SavedId | rally-timer-app/src/routes/api/events/+server.ts:57 | The saved id is the body's id when that is a non-empty string, and the fresh UUID otherwise. |
| EventsEndpoint.SavedFields | rally-timer-app/src/routes/api/events/+server.ts:56-63 | The saved record has the chosen id, the body's `ts`, `src` and `type`, and the server's `recv_ts`. |
| EventsEndpoint.SavedPayloadKept | rally-timer-app/src/routes/api/events/+server.ts:61 | The saved record has a payload iff the body has a non-null one, and it is the body's. |
| EventsEndpoint.PostStatus | rally-timer-app/src/routes/api/events/+server.ts:46-76 | POST answers 201 iff `ts`, `src` and `type` are non-empty strings, 400 for any other parsed body, and 500 when the body does not parse. Except on 201 the file is only what `ensureFile` left. |
| EventsEndpoint.PostAppendsSaved | rally-timer-app/src/routes/api/events/+server.ts:65-72 | A valid POST answers 201 with the saved record's JSON and appends exactly that text plus one newline. |
| EventsEndpoint.PostReadBack | rally-timer-app/src/routes/api/events/+server.ts:65-66 | Reading the file after a valid POST gives the earlier lines and then the saved record's line. |
| EventsEndpoint.EventsFile.HandlePost | rally-timer-app/src/routes/api/events/+server.ts:46-76 | The step-by-step handler's file and answer are `Post`. |
| GatePassingsEndpoint.ValidPassingIff | frontend/src/routes/api/gate-passings/+server.ts:37-39 | A passing is accepted iff it is an object whose `ts` and `gate_id` are strings, empty ones included. |
| GatePassingsEndpoint.EmptyStringsAccepted | frontend/src/routes/api/gate-passings/+server.ts:37-45 | `{ts: "", gate_id: ""}` is accepted with 204. |
| GatePassingsEndpoint.PassingShape | frontend/src/routes/api/gate-passings/+server.ts:42 | The `{ts, gate_id}` object has those two properties. |
| GatePassingsEndpoint.PassingRecordFields | frontend/src/routes/api/gate-passings/+server.ts:42 | The written record has exactly the keys `ts` then `gate_id`, with the body's values; every other property is dropped. |
| GatePassingsEndpoint.PostStatus | frontend/src/routes/api/gate-passings/+server.ts:32-49 | POST answers 204 iff the passing is valid, 400 for any other parsed body and 500 for an unparsable one. Except on 204 the file is only what `ensureFile` left; on 204 exactly one line is appended and there is no body. |
| GatePassingsEndpoint.PostReadBack | frontend/src/routes/api/gate-passings/+server.ts:42-45 | After a valid POST the file reads back as the earlier lines plus the new record's line. |
| GatePassingsEndpoint.PassingsFile.HandlePost | frontend/src/routes/api/gate-passings/+server.ts:32-49 | The step-by-step handler's file and answer are `Post`. |
| EventsStore.ParseAll | rally-timer-app/src/lib/stores/events.ts:18-21 | The parse succeeds iff every line parses, and it then gives one event per line, in order. |
| EventsStore.BlankLog | rally-timer-app/src/lib/stores/events.ts:17 | Whitespace-only text parses to []. |
| EventsStore.HydratedIff | rally-timer-app/src/lib/stores/events.ts:27-38 | A failed fetch or a bad line leaves [], and otherwise the store holds one event per non-empty line, in order. |
| EventsStore.HydrateRoundTrip | rally-timer-app/src/lib/stores/events.ts:16-38 | If parse inverts stringify on single-line records, hydrating a log of stringified events gives them back. |
| EventsStore.Provisional | rally-timer-app/src/lib/stores/events.ts:50 | The provisional event has id "prov_" + uuid and otherwise the pushed event's properties. |
| EventsStore.FindFrom | rally-timer-app/src/lib/stores/events.ts:69-73 | `findIndex` returns the first index whose test holds, with all earlier tests false. Not found means every test was false, and it throws at the first element whose test throws. |
| EventsStore.FindIndex | rally-timer-app/src/lib/stores/events.ts:69-73 | The imperative scan gives `FindFrom` from 0. |
| EventsStore.ReconcileChangesAtMostOne | rally-timer-app/src/lib/stores/events.ts:68-81 | Reconciliation leaves the list unchanged, appends the saved record, or replaces exactly one element by it, with all others unchanged. |
| EventsStore.PushThenReconcile | rally-timer-app/src/lib/stores/events.ts:48-84 | If no earlier element matches, a successful POST replaces the just-appended provisional event by the saved one, and a failed POST leaves the provisional event in place. |
| EventsStore.TwinEventHazard | rally-timer-app/src/lib/stores/events.ts:69-73 | If an earlier event has the same `type`, `ts` and `src` and no `null` precedes it, the saved record replaces the first matching element, which is that one or an earlier one, and the provisional entry stays last. |
| EventsStore.Store.constructor | rally-timer-app/src/lib/stores/events.ts:25 | The store starts empty. |
| EventsStore.Store.Hydrate | rally-timer-app/src/lib/stores/events.ts:27-38 | `hydrate` sets the store to `Hydrated`. |
| EventsStore.Store.PushOptimistic | rally-timer-app/src/lib/stores/events.ts:50-51 | `push` first appends exactly one provisional event at the end. |
| EventsStore.Store.Reconcile | rally-timer-app/src/lib/stores/events.ts:60-81 | The reconciliation update leaves `Reconciled` of the old list. |
| EventsStore.Store.Clear | rally-timer-app/src/lib/stores/events.ts:88-89 | `clear` empties the store before and regardless of the DELETE. |
| PassesStore.ParseLine | frontend/src/lib/stores/passes.ts:16-19 | A line gives a passing iff it parses to something other than null whose `ts` and `gate_id` both coerce: `new Date` and `String` throw a TypeError on an object with its own `toString`, also inside an array. The passing has `new Date(o.ts)` and `String(o.gate_id)`. |
| PassesStore.OwnToStringThrows | frontend/src/lib/stores/passes.ts:18 | The line `{"ts":"x","gate_id":{"toString":0}}` throws instead of giving a passing. |
| PassesStore.ParseLines | frontend/src/lib/stores/passes.ts:13-19 | All lines parse, one passing each and in order, or the whole parse throws. |
| PassesStore.ParseLinesSnoc | frontend/src/lib/stores/passes.ts:13-19 | One more line extends the result by that line's passing, or makes it throw. |
| PassesStore.BadLineEmptiesStore | frontend/src/lib/stores/passes.ts:26-37 | A log with an unparsable or null line, or a line whose `ts` or `gate_id` does not coerce, hydrates to the empty store. |
| PassesStore.PostBody | frontend/src/lib/stores/passes.ts:55-60 | A body is sent iff the record's date is valid, and every body sent passes the endpoint's validation. |
| PassesStore.BodyReadsBack | frontend/src/lib/stores/passes.ts:59 | The posted body, parsed back, names the same time and gate. |
| PassesStore.PushReadBack | frontend/src/lib/stores/passes.ts:48-60 | The body `push` sends is accepted with 204. If stringify, parse and Date round-trip, hydrating afterwards gives the earlier passings and then the pushed one. |
| PassesStore.Store.constructor | frontend/src/lib/stores/passes.ts:23 | The store starts empty. |
| PassesStore.Store.Hydrate | frontend/src/lib/stores/passes.ts:26-37 | `hydrateFromFile` sets the store to the parsed log, or [] on any failure. |
| PassesStore.Store.Push | frontend/src/lib/stores/passes.ts:48-67 | `push` appends exactly one record at the end, with no rollback, and sends `PostBody` of it. |
| PassesStore.Store.Clear | frontend/src/lib/stores/passes.ts:70-80 | `clear` empties the store regardless of the DELETE's outcome. |

## Left out

- SSE and broadcast servers: backend/src/server.rs, backend/src/routes/events.rs and mod.rs, and finish-gate-server/src/server.rs. They are routing and tokio channels; the model records a broadcast as a `Sent` effect only.
- The MQTT connection lifecycle: connect, reconnect, keep-alive, subscribe and the event-loop task. Only the publishes the code asks for are modelled, together with `try_publish`'s queueing outcome.
- Serial-port opening, threads and sleeps. The per-line decision is modelled, with the read result and the time as inputs.
- SQLite routes, rally-timer-app/src/lib/stores/passes.ts (an EventSource wrapper), page loaders and zod schemas: they are library plumbing.
- Real JSON, ISO 8601 and RFC 3339 encoding. These are parameters, and where a property needs one to invert the other, that is a `requires`.
- The wall clock and timer APIs: times are inputs, and the idle timeout is an explicit event.
- File-system failures (the 500 answers for read, write and truncate errors), directory creation and `path.join` normalisation. The archiver's asynchronous append errors are only logged by the source and are not modelled.
- The order in which `JSON.stringify` emits integer-like keys, and duplicate keys in parsed JSON: an object is an ordered list of distinct properties.
- EventsStore.Matches: `===` on two arrays or objects is modelled as never equal. The source compares references, which two values read from different events never share.
- The interleaving of other store updates between `push`'s optimistic append and its reconciliation. Each half is modelled as one step.
- The prepend-newest store's element type `number` is generic.
- SerialPass.SerialReader.constructor: requires `StartsUp`, i.e. debounce_ms below 2^63 and `Utc::now()` minus debounce_ms no earlier than -262143-01-01T00:00:00Z, the earliest date chrono holds (backend/src/main.rs:141, backend/src/serial.rs:32). Outside that range the loop panics before its first read. At exactly 2^63, `debounce_ms as i64` is `i64::MIN` and `TimeDelta::milliseconds` panics. Above 2^63 it wraps to a negative delta, so `last_emit` lands after now and the date range is left again for all but values close to 2^64; those few wrapped values are not modelled either.
- SerialPass.SerialReader: `existing` is a sequence of whole lines, which assumes the log file ends with a newline. If it does not, the first `writeln!` (backend/src/main.rs:162) continues its last line.
- MqttArchiver.Archiver.HandleMessage, MqttArchiver.AppendOnly and FileRoutes.DataFile.Append apply each append whole and in the order the calls are made. The archiver's `appendFile` is not awaited (rally-timer-app/scripts/mqtt-archiver.js:25), and concurrent POSTs reach the appends at rally-timer-app/src/routes/api/events/+server.ts:66 and frontend/src/routes/api/gate-passings/+server.ts:43, so in the source two appends can complete in either order.
- SerialPass.Emit: a failed `writeln!` is modelled as writing nothing. In the source (backend/src/main.rs:162, backend/src/serial.rs:54) it writes the JSON and the newline in separate `write_all` calls, so a failure such as a full disk can leave part of the line, or the line without its newline, in the file; `SerialReader.Valid`'s log then no longer describes the file after the loop has ended. The model also keeps a `FlushFailed` outcome although `File::flush` does nothing and cannot fail that way, which only adds a case.
- RfidWedge.Wedge.OnKeyDown: `onTag` is assumed to return. If it throws (frontend/src/lib/input/rfidWedge.ts:58), the `reset()` at line 63 is skipped and `buf`, `startTs` and the armed timer survive until the timer fires; `TerminatorEmitsIff`'s unconditional reset holds only for an `onTag` that returns.
- RfidWedge.Wedge: `performance.now()` is a fractional double (frontend/src/lib/input/rfidWedge.ts:44 and 55); the model's times are integers.
- RfidWedge.IsCaptureKey: `e.key.length === 1` counts UTF-16 code units, while `|key| == 1` counts Unicode scalar values. The two differ only for a custom `allowed` pattern that matches a character outside the Basic Multilingual Plane.
- Console output: the `println!`/`eprintln!` lines of backend/src/main.rs and finish-gate-server/src/main.rs, and the `console.log`/`console.error` calls of the stores and the archiver, are not modelled; they change no state the model tracks.
- SerialPass.Step: chrono's `num_milliseconds` truncation of sub-millisecond differences is not modelled, because times are whole milliseconds.
