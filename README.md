# EPG board: verified model of the streaming and control core

This project models, in Dafny, the core of the EPG (electrical penetration graph) recording system: an nRF5340 board that digitises the insect-plant circuit and streams samples over Bluetooth LE, the Python host that receives, buffers, displays and labels them, and the probe finder of the machine-learning evaluation script.

The model covers:

- **Host BLE streaming**:
  - the `\r\n` frame parser;
  - the `BLEIOHandler` connection state machine: connect, disconnect, reconnect backoff, notification handling, batching of parsed samples, the bounded buffer with its drop policy, and the command writer and its encoding;
  - the older `new_BLEIO` and live-view `BluetoothIO` helpers.
- **Firmware**:
  - the command decoder behind the writable GATT characteristic (`write_custom_value`);
  - the UART line reader that waits for `START` and `ON`;
  - the ADC block callback, which averages a block, takes its minimum and maximum, and stages up to `SAADC_BUFFER_SIZE` (3000) samples in `g_ble_buf`; the work handler then sends them in payloads of at most 40 samples.
- **Control settings**:
  - the spec loader, which parses the control table and its types, ranges and defaults;
  - the control state with validation and change notification;
  - the relations engine, which stages and applies dependent updates;
  - the persistent settings store.
- **Live view and labelling**:
  - the device panel and its dialogs (names, MAC addresses, the device store);
  - the peak-preserving downsampling used by both plot windows;
  - the live data window's buffering;
  - the label window's nearest-sample search, label intervals and comments.
- **Probe finder**: how `model_evaluation.py` turns per-sample labels into probes, the maximal runs of labels other than `N` and `Z`.
- **Cross-checks**: the commands the host encodes are the ones the firmware decodes. The firmware's binary sample notifications are not the host's `\r\n` text lines, so the host does not parse them as samples (`SamplesAreNotLines`, `NegativeSampleIsNotUtf8`).

Python values that change type at run time are modelled by a small dynamic value type (`PyValue`). `int()`, `float()`, `str()`, `strip()` and `split()` are written out for the cases the source uses (`PyText`). UTF-8 is modelled with its round trip (`Utf8`). C integer widths and truncating division are written out explicitly; `atoi` is written out on unbounded integers, without C's `int` overflow.

Asynchronous code is modelled as atomic steps between `await` points. Whatever the event loop or the radio decides is a parameter: whether a connection attempt succeeds, when a notification arrives, and which worker finishes first.

## Model

| member | source | states |
|---|---|---|
| FrameParser.FindSep | software/cs/gui/epg_board/bluetooth/BLEFrameParser.py:44 | the position of the first `\r\n`; none exactly when the text holds no separator |
| FrameParser.Rest | software/cs/gui/epg_board/bluetooth/BLEFrameParser.py:49 | what is kept after the last separator is a suffix of the buffer that holds no separator |
| FrameParser.NonEmpty | software/cs/gui/epg_board/bluetooth/BLEFrameParser.py:53 | the filtered line list holds only non-empty lines |
| FrameParser.BLEFrameParser.constructor | software/cs/gui/epg_board/bluetooth/BLEFrameParser.py:24-26 | a new parser has an empty buffer |
| FrameParser.BLEFrameParser.Feed | software/cs/gui/epg_board/bluetooth/BLEFrameParser.py:28-30 | `feed` only appends: the new buffer is the old one followed by the data, and nothing is parsed |
| FrameParser.BLEFrameParser.TakeFrames | software/cs/gui/epg_board/bluetooth/BLEFrameParser.py:32-89 | the two returned lists and the new buffer are the frames and leftover of the old buffer as specified by `Drain` |
| FrameParser.ClassifyLine | software/cs/gui/epg_board/bluetooth/BLEFrameParser.py:60-87 | one pass of the classification loop yields the frames of the line's kind, and counts it as malformed exactly when both shape tests pass but `int()` fails |
| FrameParser.RFindSep | software/cs/gui/epg_board/bluetooth/BLEFrameParser.py:44-45 | `rfind` gives -1 exactly when there is no separator, else the last separator's position |
| FrameParser.NoSepDrain | software/cs/gui/epg_board/bluetooth/BLEFrameParser.py:40-46 | an empty buffer or one without `\r\n` yields two empty lists and is kept unchanged |
| FrameParser.DrainByRegion | software/cs/gui/epg_board/bluetooth/BLEFrameParser.py:43-53 | cutting after the last separator, splitting and dropping empty pieces gives exactly the frames and leftover of `Drain` |
| FrameParser.RegionSplit | software/cs/gui/epg_board/bluetooth/BLEFrameParser.py:48-52 | splitting the complete region gives the complete lines and one trailing empty piece; the leftover is what follows the last separator |
| FrameParser.RegionLines | software/cs/gui/epg_board/bluetooth/BLEFrameParser.py:48-49 | the complete region holds the same lines as the whole buffer |
| FrameParser.SplitIsLinesAndRest | software/cs/gui/epg_board/bluetooth/BLEFrameParser.py:52 | `split` gives the terminated lines followed by the unterminated rest |
| FrameParser.LinesAppend | software/cs/gui/epg_board/bluetooth/BLEFrameParser.py:44-50 | the lines of a concatenation are the lines of the first part, then those of its rest joined to the second part |
| FrameParser.FramesOfNonEmpty | software/cs/gui/epg_board/bluetooth/BLEFrameParser.py:53-63 | dropping empty lines changes neither output list |
| FrameParser.DrainAppend | software/cs/gui/epg_board/bluetooth/BLEFrameParser.py:44-50 | draining between two feeds gives the same frames, in the same order, and the same leftover as draining once after both |
| FrameParser.ChunkingInvariance | software/cs/gui/epg_board/bluetooth/BLEFrameParser.py:28-50 | however the stream is cut into notifications, feeding each with `take_frames` between gives the frames of the whole stream |
| FrameParser.TimestampsNonNegative | software/cs/gui/epg_board/bluetooth/BLEFrameParser.py:66-76 | every data frame taken from any buffer has a non-negative timestamp |
| FrameParser.ClassifyData | software/cs/gui/epg_board/bluetooth/BLEFrameParser.py:66-77 | a line is data exactly when its stripped text is `digits "," [sign] digits`; the frame holds the decimal values of the two parts |
| FrameParser.SignedText | software/cs/gui/epg_board/bluetooth/BLEFrameParser.py:71-75 | after the shape test, `int()` of the value succeeds exactly when at most one sign precedes the digits |
| FrameParser.ClassifyMalformed | software/cs/gui/epg_board/bluetooth/BLEFrameParser.py:58-80 | a line is malformed exactly when it passes the shape test but is no data text; it yields neither data nor management |
| FrameParser.ClassifyManagement | software/cs/gui/epg_board/bluetooth/BLEFrameParser.py:82-87 | every other non-blank line yields exactly one management frame of its stripped text and no data |
| FrameParser.ClassifyFormatted | software/cs/gui/epg_board/bluetooth/BLEFrameParser.py:66-77 | a sample formatted as `ts,mv` is classified back as the same data frame |
| FrameParser.DrainFormatted | software/cs/gui/epg_board/bluetooth/BLEFrameParser.py:32-89 | round trip: formatted samples followed by an unterminated tail drain to exactly those samples, no management, and the tail |
| FrameParser.DrainLine | software/cs/gui/epg_board/bluetooth/BLEFrameParser.py:52-63 | a complete line contributes its frames ahead of those of the lines after it, so input order is kept |
| FrameParser.ExampleTwoSamples | software/cs/gui/epg_board/bluetooth/BLEFrameParser.py:32-89 | `12,34\r\n56,-78\r\n9` gives two data frames, no management frame, and leaves `9` |
| FrameParser.MalformedLineDropped | software/cs/gui/epg_board/bluetooth/BLEFrameParser.py:73-80 | a malformed line leaves no trace: the buffer drains as if the line were absent |
| FrameParser.StatusLineKept | software/cs/gui/epg_board/bluetooth/BLEFrameParser.py:82-87 | a management line becomes one management frame ahead of those after it, with the data untouched |
| FrameParser.ClassifyDoubleSign | software/cs/gui/epg_board/bluetooth/BLEFrameParser.py:66-80 | `1,+-2` passes the shape test, fails `int()` and is malformed |
| FrameParser.ClassifyStatus | software/cs/gui/epg_board/bluetooth/BLEFrameParser.py:82-87 | `OK` is a management frame with payload `OK` |
| BleIoHandler.ParseDropPolicy | software/cs/gui/epg_board/bluetooth/BLEIOHandler.py:206-212 | the policy is NEWEST or BLOCK exactly for those names, and OLDEST for every other name |
| BleIoHandler.FirstFrom | software/cs/gui/epg_board/bluetooth/BLEIOHandler.py:485-489 | the first index at or after the start whose timestamp reaches the cutoff; all before it are below the cutoff |
| BleIoHandler.FindDropIndex | software/cs/gui/epg_board/bluetooth/BLEIOHandler.py:485-489 | the search loop finds the first timestamp at or above the cutoff, and 0 when there is none |
| BleIoHandler.DropCountWithinBudget | software/cs/gui/epg_board/bluetooth/BLEIOHandler.py:476-482 | an empty batch, or one whose span is within `max_buffer_seconds`, loses nothing |
| BleIoHandler.DropCountOverBudget | software/cs/gui/epg_board/bluetooth/BLEIOHandler.py:484-495 | an over-long batch drops exactly the prefix before the first timestamp reaching `last - int(max*1000)`, always keeps the last sample, and for nondecreasing timestamps the survivors span at most the window |
| BleIoHandler.CommandPayloadDecodes | software/cs/gui/epg_board/bluetooth/BLEIOHandler.py:519 | the payload ends in NUL and the bytes before it decode back to the command text |
| BleIoHandler.Timestamps | software/cs/gui/epg_board/bluetooth/BLEIOHandler.py:461 | the timestamp list has one entry per data frame, in order |
| BleIoHandler.Millivolts | software/cs/gui/epg_board/bluetooth/BLEIOHandler.py:462 | the value list has one entry per data frame, in order |
| BleIoHandler.Payloads | software/cs/gui/epg_board/bluetooth/BLEIOHandler.py:452-456 | the management payload list has one entry per frame, in order |
| BleIoHandler.TickEventsAccount | software/cs/gui/epg_board/bluetooth/BLEIOHandler.py:441-474 | management payloads come first exactly when some were drained; no data batch is emitted exactly when no data was drained or the `uint64`/`int32` casts of the kept samples raise, and then only the drop signal follows; otherwise the last signal is the batch, the drained frames minus the dropped prefix, paired and within the cast ranges |
| BleIoHandler.KeptPairs | software/cs/gui/epg_board/bluetooth/BLEIOHandler.py:476-495 | backpressure keeps a non-empty suffix of the drained frames, its timestamps and values still paired |
| BleIoHandler.WideValueStopsBatching | software/cs/gui/epg_board/bluetooth/BLEIOHandler.py:467-468 | a drained data frame at 1 ms holding 3000000000 mV makes the `int32` cast raise: the tick emits no batch |
| BleIoHandler.RoundEnds | software/cs/gui/epg_board/bluetooth/BLEIOHandler.py:303-327 | a failed round attempted; a preempted one leaves preempted controls; a successful one attempted with ready controls, its transport succeeded and its last signal is CONNECTED |
| BleIoHandler.PlayRoundsStops | software/cs/gui/epg_board/bluetooth/BLEIOHandler.py:303-327 | once a round has not failed, later backoff rounds change nothing |
| BleIoHandler.QuietRound | software/cs/gui/epg_board/bluetooth/BLEIOHandler.py:303-327 | a round with no interfering call, for the current sticky target, attempts, keeps the controls, and succeeds exactly when the controls are ready and connecting succeeds |
| BleIoHandler.QuietRounds | software/cs/gui/epg_board/bluetooth/BLEIOHandler.py:303-327 | with no interfering call the reconnect loop is never preempted and keeps the controls; all rounds are played when all fail, and a success is the last round played |
| BleIoHandler.QuietReadyRounds | software/cs/gui/epg_board/bluetooth/BLEIOHandler.py:303-327 | with no interfering call and the UUIDs set, the rounds run out exactly when every attempt fails, and a success follows only failures |
| BleIoHandler.RoundAnnounced | software/cs/gui/epg_board/bluetooth/BLEIOHandler.py:303-327 | a round's signals start with RECONNECTING, and an attempted round emits at least one RECONNECTING |
| BleIoHandler.AttemptsAnnounced | software/cs/gui/epg_board/bluetooth/BLEIOHandler.py:303-327 | each attempt of the reconnect loop is preceded by RECONNECTING: every other signal directly follows a RECONNECTING, and there are at least as many RECONNECTING signals as attempts |
| BleIoHandler.ResistanceTableBijective | software/cs/gui/epg_board/bluetooth/BLEIOHandler.py:536-546 | the resistance table maps its eight names injectively onto `M:0`..`M:7` |
| BleIoHandler.ResistanceCommands | software/cs/gui/epg_board/bluetooth/BLEIOHandler.py:534-547 | an input-resistance command exists exactly for the eight table names, and it is one of `M:0`..`M:7` |
| BleIoHandler.FrequencyCommands | software/cs/gui/epg_board/bluetooth/BLEIOHandler.py:574-581 | frequency `"0"` gives `DDSOFF`, `"1000"` gives `SDDS:1000`, `"1"` gives `SDDS:1`, and every other value gives None |
| BleIoHandler.Handler.constructor | software/cs/gui/epg_board/bluetooth/BLEIOHandler.py:68-116 | the tunables as given, IDLE, no target, the default UUIDs, not sticky, no tasks, no device and an empty parser |
| BleIoHandler.Handler.ConnectTo | software/cs/gui/epg_board/bluetooth/BLEIOHandler.py:161-170 | the target and UUIDs are set and the handler becomes sticky; nothing else changes |
| BleIoHandler.Handler.DisconnectFrom | software/cs/gui/epg_board/bluetooth/BLEIOHandler.py:172-176 | only stickiness is cleared |
| BleIoHandler.Handler.ApplyCall | software/cs/gui/epg_board/bluetooth/BLEIOHandler.py:161-176 | a `connectTo` or `disconnectFrom` arriving between two await points changes only the control fields, as those slots do |
| BleIoHandler.Handler.SetBatchInterval | software/cs/gui/epg_board/bluetooth/BLEIOHandler.py:202-204 | the interval is clamped to at least 1 ms; other tunables are kept |
| BleIoHandler.Handler.SetDropPolicy | software/cs/gui/epg_board/bluetooth/BLEIOHandler.py:206-212 | the stored policy is the parsed name, OLDEST for an invalid one |
| BleIoHandler.Handler.SetMaxBufferedSeconds | software/cs/gui/epg_board/bluetooth/BLEIOHandler.py:214-216 | the budget is clamped to at least 0.1 s |
| BleIoHandler.Handler.SetWriteModeSync | software/cs/gui/epg_board/bluetooth/BLEIOHandler.py:218-220 | only the default write mode changes |
| BleIoHandler.Handler.SetState | software/cs/gui/epg_board/bluetooth/BLEIOHandler.py:242-244 | the state is set and a state change is emitted on every call, even a repeated one |
| BleIoHandler.Handler.EmitError | software/cs/gui/epg_board/bluetooth/BLEIOHandler.py:246-247 | one error event with code 0 is emitted and nothing else changes |
| BleIoHandler.Handler.OneAttempt | software/cs/gui/epg_board/bluetooth/BLEIOHandler.py:367-390 | without target and UUIDs the attempt reports the missing-target error, fails and leaves controls and device alone; otherwise the device is made for the captured address, the call arriving during `connect()` is applied after the check, and the attempt succeeds exactly when the transport does, a failure reporting the reason and leaving no device |
| BleIoHandler.Handler.ConnectBegin | software/cs/gui/epg_board/bluetooth/BLEIOHandler.py:258-272 | tasks cancelled and device closed; a missing address or UUID gives an error and ERROR, otherwise the address snapshot is taken and CONNECTING emitted |
| BleIoHandler.Handler.ConnectFinish | software/cs/gui/epg_board/bluetooth/BLEIOHandler.py:275-294 | a preempted sequence changes nothing; otherwise failure schedules a reconnect and success starts batching and emits CONNECTED |
| BleIoHandler.Handler.ConnectSequence | software/cs/gui/epg_board/bluetooth/BLEIOHandler.py:258-294 | ERROR with no attempt when the target is missing; otherwise the exact trace CONNECTING, the attempt's error if any, CONNECTED on success, with the call that lands during `connect()` applied after the target check; preemption is judged on the controls after that call, success starts batching and failure schedules a reconnect or disconnects |
| BleIoHandler.Handler.DisconnectSequence | software/cs/gui/epg_board/bluetooth/BLEIOHandler.py:331-351 | tasks cancelled, device closed, fresh parser, target, UUIDs and stickiness cleared, DISCONNECTED emitted, then the reason if non-empty |
| BleIoHandler.Handler.ForgetLink | software/cs/gui/epg_board/bluetooth/BLEIOHandler.py:332-347 | the first part of the disconnect: control fields, tasks, device and parser reset, state and events untouched |
| BleIoHandler.Handler.ReconnectRound | software/cs/gui/epg_board/bluetooth/BLEIOHandler.py:303-327 | one backoff round played exactly as `RoundSpec` says: the preemption test, RECONNECTING, the call during the sleep, the test again, the attempt with the call during `connect()`, the test once more, then CONNECTED and batching on success; the device is the snapshot's on success |
| BleIoHandler.Handler.Reconnect | software/cs/gui/epg_board/bluetooth/BLEIOHandler.py:296-329 | aborts to DISCONNECTED without target or stickiness; otherwise its attempts, its end and its exact signal trace are those of `PlayRounds` over the backoff rounds, followed on exhaustion by DISCONNECTED and the reason; success leaves the device connected to the snapshot; without interference it is never preempted and is exhausted exactly when every attempt fails |
| BleIoHandler.Handler.ReconnectRounds | software/cs/gui/epg_board/bluetooth/BLEIOHandler.py:301-329 | with the target and stickiness known, the rounds are those of `PlayRounds`, and exhaustion disconnects with its reason and leaves no device or task |
| BleIoHandler.Handler.PlayReconnectRounds | software/cs/gui/epg_board/bluetooth/BLEIOHandler.py:303-327 | the backoff loop's attempts, end, controls and signals are those of `PlayRounds`; success leaves CONNECTED, batching, and the device connected to the snapshot |
| BleIoHandler.Handler.PlayNextRound | software/cs/gui/epg_board/bluetooth/BLEIOHandler.py:303-327 | one more round after rounds that all failed extends the play of `PlayRounds` by that round |
| BleIoHandler.Handler.OnNotifyBytes | software/cs/gui/epg_board/bluetooth/BLEIOHandler.py:424-426 | the notified bytes are appended to the parser's buffer |
| BleIoHandler.Handler.ApplyBackpressure | software/cs/gui/epg_board/bluetooth/BLEIOHandler.py:476-495 | both lists lose the same prefix of `DropCount` entries, and `droppedSamples` is emitted only when it is positive |
| BleIoHandler.Handler.BatchTick | software/cs/gui/epg_board/bluetooth/BLEIOHandler.py:443-474 | the parser keeps only the leftover, the tick emits the events of the drained frames, and the batch task survives exactly when the NumPy casts do not raise |
| BleIoHandler.Handler.EmitFrames | software/cs/gui/epg_board/bluetooth/BLEIOHandler.py:447-474 | management payloads first, then the data events; the batch task ends when the casts raise |
| BleIoHandler.Handler.EmitData | software/cs/gui/epg_board/bluetooth/BLEIOHandler.py:459-474 | backpressure, then the data batch unless the casts raise, in which case no batch is emitted and the batch task ends |
| BleIoHandler.Handler.EmitCast | software/cs/gui/epg_board/bluetooth/BLEIOHandler.py:467-470 | the batch is emitted exactly when the kept samples fit `uint64` and `int32`; otherwise the batch task ends |
| BleIoHandler.Handler.SendCommandAsync | software/cs/gui/epg_board/bluetooth/BLEIOHandler.py:510-528 | no connected device: no write, and `writeCompleted(False)` unless nowait; otherwise the NUL-terminated UTF-8 payload is written and the result reported unless nowait |
| BleIoHandler.Handler.SendCommand | software/cs/gui/epg_board/bluetooth/BLEIOHandler.py:190-200 | the write waits for a response, and reports, exactly when the default mode is sync |
| LegacyBleIo.SplitCompleteLines | software/cs/gui/epg_board/new_BLEIO.py:673-704 | `_split_complete_lines` computes `CompleteLines`; an empty buffer gives no lines and an empty leftover, a buffer without CRLF gives no lines and the whole buffer |
| LegacyBleIo.LinesHaveNoSep | software/cs/gui/epg_board/new_BLEIO.py:696-702 | no complete line holds a CRLF |
| LegacyBleIo.CompleteLinesClean | software/cs/gui/epg_board/new_BLEIO.py:673-704 | the returned lines are non-empty and hold no CRLF; the leftover holds none and is what follows the last one |
| LegacyBleIo.Reassemble | software/cs/gui/epg_board/new_BLEIO.py:696-697 | the complete lines with their terminators, followed by the leftover, are the buffer: nothing is lost by the cut |
| LegacyBleIo.SplitTerminated | software/cs/gui/epg_board/new_BLEIO.py:673-704 | the converse round trip: non-empty CRLF-free lines written with terminators, then a CRLF-free tail, split back into those lines and that tail |
| LegacyBleIo.ExampleSplit | software/cs/gui/epg_board/new_BLEIO.py:678-681 | the documented example `1,10\r\n2,20\r\n3,3` gives lines `1,10`, `2,20` and leftover `3,3` |
| LegacyBleIo.ParseAll | software/cs/gui/epg_board/new_BLEIO.py:707-747 | the two lists have equal length, and each non-blank line contributes either one sample or one malformed count |
| LegacyBleIo.ParseLinesLoop | software/cs/gui/epg_board/new_BLEIO.py:713-740 | the counter and append loop computes `ParseAll` |
| LegacyBleIo.MalformedEvents | software/cs/gui/epg_board/new_BLEIO.py:742-745 | at most one error signal per parse, present exactly when some line was malformed |
| LegacyBleIo.ParseFormatted | software/cs/gui/epg_board/new_BLEIO.py:724-740 | a formatted sample, a negative timestamp included, parses back to itself |
| LegacyBleIo.ParseAllFormatted | software/cs/gui/epg_board/new_BLEIO.py:707-747 | round trip: formatted samples parse back to the same two lists with nothing malformed |
| LegacyBleIo.NegativeTimestamp | software/cs/gui/epg_board/new_BLEIO.py:731-740 | a line with a negative timestamp is a sample here, while the newer parser makes it a management frame |
| LegacyBleIo.NoCommaMalformed | software/cs/gui/epg_board/new_BLEIO.py:724-727 | a non-blank line without a comma is malformed here, while the newer parser makes it a management frame |
| LegacyBleIo.TickEventsShape | software/cs/gui/epg_board/new_BLEIO.py:618-670 | a tick emits the malformed error first; no batch exactly when no line was a sample or the casts raise; otherwise the batch is the last signal |
| LegacyBleIo.SampleEventsShape | software/cs/gui/epg_board/new_BLEIO.py:647-663 | no batch exactly when there are no samples or the casts of the kept samples raise; otherwise the last signal is a batch of the newest samples, still paired, within the cast ranges, and holding the last sample |
| LegacyBleIo.TickOfFormatted | software/cs/gui/epg_board/new_BLEIO.py:618-670 | samples written as device lines parse back to themselves, and come out of one tick as the drop signal and one batch, the batch present exactly when the kept samples fit the casts |
| LegacyBleIo.NegativeTimestampStopsBatching | software/cs/gui/epg_board/new_BLEIO.py:659 | a line with a negative timestamp parses as a sample but makes the `uint64` cast raise: the tick emits no batch and the batch task ends |
| LegacyBleIo.Handler.constructor | software/cs/gui/epg_board/new_BLEIO.py:98-150 | IDLE, no target, the default UUIDs, not sticky, an empty byte buffer and no batch task |
| LegacyBleIo.Handler.SetState | software/cs/gui/epg_board/new_BLEIO.py:300-306 | the signal carries True exactly for CONNECTED and False for every other state |
| LegacyBleIo.Handler.OnNotifyBytes | software/cs/gui/epg_board/new_BLEIO.py:583-588 | the bytes are appended to the buffer and nothing is emitted |
| LegacyBleIo.Handler.ParseLines | software/cs/gui/epg_board/new_BLEIO.py:707-747 | the samples of `ParseAll`, and the one error signal when lines were malformed |
| LegacyBleIo.Handler.ApplyBackpressure | software/cs/gui/epg_board/new_BLEIO.py:750-775 | the same prefix is dropped from both lists, and `droppedSamples` only when positive |
| LegacyBleIo.Handler.BatchTick | software/cs/gui/epg_board/new_BLEIO.py:631-670 | the buffer is replaced by the leftover tail, the tick's signals are emitted, and the batch task survives exactly when the casts do not raise |
| LegacyBleIo.Handler.EmitLines | software/cs/gui/epg_board/new_BLEIO.py:647-663 | parse, backpressure, then the batch unless the casts raise, which ends the batch task; the events are those `LineEvents` states |
| LegacyBleIo.Handler.EmitCast | software/cs/gui/epg_board/new_BLEIO.py:658-663 | the batch is emitted exactly when the kept samples fit `uint64` and `int32`; otherwise the batch task ends |
| LegacyBleIo.Handler.StartBatching | software/cs/gui/epg_board/new_BLEIO.py:590-602 | with an event loop a batch task runs afterwards, whether it was running or is started; without one nothing changes |
| LegacyBleIo.Handler.DisconnectSequence | software/cs/gui/epg_board/new_BLEIO.py:421-455 | the batch task is cancelled and the byte buffer cleared, so no partial line survives; target, UUIDs and stickiness cleared; False then the reason emitted |
| LegacyBleIo.Handler.SendCommandAsync | software/cs/gui/epg_board/new_BLEIO.py:804-826 | the stub writes nothing and emits nothing in any state |
| LiveBluetoothIo.Chunk | software/cs/gui/live_view/BluetoothIO.py:344-346 | the generator's loop yields exactly `Chunks(b, size)` |
| LiveBluetoothIo.ChunksConcat | software/cs/gui/live_view/BluetoothIO.py:344-346 | concatenating the chunks reproduces the payload exactly |
| LiveBluetoothIo.ChunkSizes | software/cs/gui/live_view/BluetoothIO.py:344-346 | every chunk is non-empty and at most `size` long, and all but the last are exactly `size` |
| LiveBluetoothIo.ChunkCount | software/cs/gui/live_view/BluetoothIO.py:344-346 | there are `ceil(len/size)` chunks, none for an empty payload |
| LiveBluetoothIo.NextBackoff | software/cs/gui/live_view/BluetoothIO.py:248-256 | the next delay never exceeds 5 s and is double the current one while that stays within 5 s |
| LiveBluetoothIo.BackoffSchedule | software/cs/gui/live_view/BluetoothIO.py:256-260 | from 0.5 s the delays are 1, 2, 4, then 5 for ever: nondecreasing and never above 5 s |
| LiveBluetoothIo.BluetoothIO.constructor | software/cs/gui/live_view/BluetoothIO.py:60-84 | no thread, no loop, no address, no client, no queue |
| LiveBluetoothIo.BluetoothIO.Start | software/cs/gui/live_view/BluetoothIO.py:86-96 | a start while a thread exists changes nothing; otherwise the address is taken and a thread exists |
| LiveBluetoothIo.BluetoothIO.Stop | software/cs/gui/live_view/BluetoothIO.py:99-110 | without a thread nothing happens; otherwise stop is asked of a running loop and the thread is dropped |
| LiveBluetoothIo.BluetoothIO.Send | software/cs/gui/live_view/BluetoothIO.py:112-117 | the payload joins the queue when the loop runs and has one, and is lost otherwise |
| LiveBluetoothIo.BluetoothIO.WriterStep | software/cs/gui/live_view/BluetoothIO.py:314-334 | one payload leaves the queue; it is dropped silently unless a client is connected, else its chunks of at most 180 bytes are written in order up to a failing write, which emits an error |
| LiveBluetoothIo.BluetoothIO.OnNotify | software/cs/gui/live_view/BluetoothIO.py:336-342 | valid UTF-8 is emitted as its text; a decode error emits nothing |
| LiveBluetoothIo.BluetoothIO.SessionStart | software/cs/gui/live_view/BluetoothIO.py:206-209 | the client is kept, connected is signalled, and `ON` then `START` are queued NUL-terminated |
| LiveBluetoothIo.NotifyText | software/cs/gui/live_view/BluetoothIO.py:336-342 | a notification holding UTF-8-encoded text is decoded back to that text |
| LiveBluetoothIo.SessionCommandOneChunk | software/cs/gui/live_view/BluetoothIO.py:325-326 | a short session command is written whole, as one chunk |
| FirmwareBle.PrefixesExclusive | firmware/src/bluetooth.c:70-187 | no buffer passes two of the thirteen prefix tests, so at most one command branch fires per write |
| FirmwareBle.FirstMatchIsTheMatch | firmware/src/bluetooth.c:70-189 | the `if`/`else if` chain takes a branch exactly when that branch's prefix test holds, and falls off the end exactly when no test holds |
| FirmwareBle.SkipCSpace | firmware/src/bluetooth.c:71-116 | `atoi` skips exactly the leading `isspace` bytes |
| FirmwareBle.AtoiOfDigits | firmware/src/bluetooth.c:71-116 | `atoi` of a decimal numeral ended by a non-digit (such as the stored NUL) is the numeral's value |
| FirmwareBle.U16 | firmware/src/bluetooth.c:71-101 | a `uint16_t` assigned an `int` holds its value modulo 2^16 |
| FirmwareBle.PgaGuard | firmware/src/bluetooth.c:99-112 | a PGA command is applied exactly when its number is 1 or 2 and its setting, taken modulo 2^16, is 0..7, and then configures that PGA |
| FirmwareBle.PgaSettingWraps | firmware/src/bluetooth.c:101-108 | `P1:65539` wraps before the range test and configures PGA 1 to setting 3 |
| FirmwareBle.DigipotGuard | firmware/src/bluetooth.c:114-127 | a digipot command is applied exactly when its channel is 0..3 and its value 0..255 |
| FirmwareBle.MuxAlwaysApplies | firmware/src/bluetooth.c:129-138 | `M:` followed by `0`..`7` always sets the mux to that digit; the inner range check cannot fail |
| FirmwareBle.FloatGuards | firmware/src/bluetooth.c:76-160 | DDSA applies only within [MIN, MAX], DDSO and SCO only within [-3.3, 3.3], SCA only within [1, 7000] |
| FirmwareBle.UpdatePreservesRange | firmware/src/bluetooth.c:35-182 | every command keeps the PGA and digipot statics in range, never clears a flag, and changes those statics only through an in-range command for them |
| FirmwareBle.FlagCommands | firmware/src/bluetooth.c:172-182 | `ON` sets `on_received` and powers up; `START` sets `start_received` and calls no driver |
| FirmwareBle.Stored | firmware/src/bluetooth.c:66-68 | after the copy and the NUL store the buffer starts with the write, then NUL, and keeps its old bytes after that |
| FirmwareBle.WrittenIndices | firmware/src/bluetooth.c:66-68 | as written the callback stores at indices `0..len`, one more than the write's length |
| FirmwareBle.AsWrittenOverflow | firmware/src/bluetooth.c:23-68 | the stores stay inside `write_buffer` exactly when `len < 20`; a 20-byte write stores its NUL at index 20, one past the end |
| FirmwareBle.Board.constructor | firmware/src/bluetooth.c:32-42 | every static starts at zero or false |
| FirmwareBle.Board.Store | firmware/src/bluetooth.c:66-68 | the copy and NUL store of a write that fits leave the buffer `Stored` |
| FirmwareBle.Board.WriteCustomValue | firmware/src/bluetooth.c:62-189 | (bounds-checked) a write that fits is stored, returns its length exactly when some branch matches, makes the one driver call `Decode` gives and updates the statics by `Update`; a longer write changes nothing |
| FirmwareBle.Board.Connected | firmware/src/bluetooth.c:236-242 | a connection without error sets `ble_connected`; a failed one changes nothing |
| FirmwareBle.Board.Disconnected | firmware/src/bluetooth.c:244-249 | a disconnect clears both `ble_connected` and `notify_enabled` |
| FirmwareBle.Board.CccChanged | firmware/src/bluetooth.c:204-208 | notifications are enabled exactly when the client wrote the NOTIFY value |
| FirmwareBle.Board.SendAdcChunk | firmware/src/bluetooth.c:261-274 | the payload is notified exactly when connected and subscribed; nothing else changes |
| FirmwareAdc.IntervalTruncates | firmware/src/adc.c:21-28 | `SAADC_INTERVAL_US` is 333 by integer division, so 3000 intervals fall short of one second |
| FirmwareAdc.PackSample | firmware/src/adc.c:73-79 | reading the low and high byte back as an `int16_t` recovers the sample |
| FirmwareAdc.UnpackSample | firmware/src/adc.c:77-78 | every byte pair is the packing of exactly one sample |
| FirmwareAdc.Pack | firmware/src/adc.c:73-81 | two bytes per sample: `payload[2i]` the low byte and `payload[2i+1]` the high byte |
| FirmwareAdc.Unpack | firmware/src/adc.c:73-81 | an even-length payload reads back as half as many samples |
| FirmwareAdc.UnpackPack | firmware/src/adc.c:73-81 | unpacking a packed block gives the samples back |
| FirmwareAdc.PackUnpack | firmware/src/adc.c:73-81 | packing the samples of an even-length payload gives the payload back |
| FirmwareAdc.PackByIndex | firmware/src/adc.c:73-79 | bytes filled index by index as the inner loop does are the packing of the samples |
| FirmwareAdc.PayloadsInOrder | firmware/src/adc.c:64-87 | the payloads carry every staged sample exactly once and in order |
| FirmwareAdc.PayloadSizes | firmware/src/adc.c:67-81 | every payload holds an even number of bytes between 2 and 80, and all but the last exactly 80 |
| FirmwareAdc.PayloadCount | firmware/src/adc.c:64-87 | `ble_send_adc_chunk` is called `ceil(g_ble_len/40)` times, never for an empty block |
| FirmwareAdc.MinOf | firmware/src/adc.c:158-168 | the minimum is a sample of the block and no sample is below it |
| FirmwareAdc.MaxOf | firmware/src/adc.c:157-165 | the maximum is a sample of the block and no sample is above it |
| FirmwareAdc.TruncDivBetween | firmware/src/adc.c:170 | C's truncating division keeps the quotient between the scaled bounds of its dividend |
| FirmwareAdc.AverageBetween | firmware/src/adc.c:156-172 | for a non-empty block, minimum ≤ truncated average ≤ maximum, so the average fits the `int16_t` it is logged as |
| FirmwareAdc.BlockStats | firmware/src/adc.c:156-170 | the accumulation loop yields the block's minimum, maximum and truncated average, in that order of size |
| FirmwareAdc.Adc.constructor | firmware/src/adc.c:52-97 | counter 0, nothing handed out, nothing staged |
| FirmwareAdc.Adc.BufReq | firmware/src/adc.c:138-147 | buffers are handed out alternately 0, 1, 0, … while the 32-bit counter post-increments |
| FirmwareAdc.Adc.Done | firmware/src/adc.c:149-191 | the block's statistics are logged, at most `SAADC_BUFFER_SIZE` samples are staged so `g_ble_len ≤ 3000`, and one work item is submitted |
| FirmwareAdc.Adc.CopyToStaging | firmware/src/adc.c:186 | the `memcpy` stages the first `n` samples |
| FirmwareAdc.Adc.WorkHandler | firmware/src/adc.c:57-88 | the payloads sent are `Payloads` of the staged samples, notified only while connected and subscribed |
| FirmwareAdc.Adc.PackChunk | firmware/src/adc.c:70-81 | the inner loop packs `chunk_samples` samples from `idx` into the first `2*chunk_samples` bytes |
| FirmwareAdc.CounterParity | firmware/src/adc.c:97-141 | the 32-bit counter keeps the parity of the number of requests, so the alternation survives wrap-around |
| FirmwareUart.Ascii | firmware/src/main.c:73-76 | the command literals as bytes, one per character |
| FirmwareUart.CString | firmware/src/main.c:71-76 | what `strcmp` compares: the bytes before the first NUL |
| FirmwareUart.CStringAt | firmware/src/main.c:71 | after the NUL store at `cmd_index - 1`, the C string is exactly the characters stored before it |
| FirmwareUart.StepInvariant | firmware/src/main.c:58-89 | one RX_RDY event keeps the line within the buffer and free of carriage returns, and never clears a flag |
| FirmwareUart.RunInvariant | firmware/src/main.c:54-81 | over any input the flags are only ever set |
| FirmwareUart.RunAppends | firmware/src/main.c:64-67 | stored characters that fit are appended to the line; the flags do not move |
| FirmwareUart.CompletedLine | firmware/src/main.c:70-85 | a line ended by `\r` sets `start_received` exactly when it is `START` and `on_recieved` exactly when it is `ON`, and resets the index |
| FirmwareUart.RejectedBeforeCr | firmware/src/main.c:86-88 | a rejected character, lower case included, empties the line, so `start` then `\r` sets nothing |
| FirmwareUart.RunAsWrittenAppends | firmware/src/main.c:64-67 | as written, stored characters are appended without any bound |
| FirmwareUart.AsWrittenOverflow | firmware/src/main.c:52-67 | as written, after 32 stored characters without `\r` the next stored character lands at index 32, past the end of `command_buffer` |
| FirmwareUart.StepAgrees | firmware/src/main.c:58-89 | within the buffer the bounds-checked reader does exactly what the code as written does |
| FirmwareUart.Uart.constructor | firmware/src/main.c:52-55 | index 0 and both flags false |
| FirmwareUart.Uart.RxRdy | firmware/src/main.c:58-89 | only the byte at `offset` is read; the new line and flags are `Step` of the old ones, and a `\r` slot is overwritten with NUL |
| SpecLoader.KeyOfName | software/cs/gui/epg_board/SpecLoader.py:121 | the enum member looked up by name carries that name |
| SpecLoader.KeyNameRoundTrip | software/cs/gui/epg_board/SpecLoader.py:119-123 | every member is found by its own name, so distinct members have distinct names |
| SpecLoader.CoerceKey | software/cs/gui/epg_board/SpecLoader.py:119-123 | `_coerce_key` succeeds exactly for a member name and gives the member of that name |
| SpecLoader.CoerceKeys | software/cs/gui/epg_board/SpecLoader.py:214-243 | a list of names coerces exactly when every name does, giving the members in order |
| SpecLoader.CoerceTypeExactly | software/cs/gui/epg_board/SpecLoader.py:106-117 | `_coerce_type` accepts exactly `int`, `float` and `str` and raises ValueError for anything else |
| SpecLoader.CoerceCurrentTypeExactly | software/cs/gui/epg_board/SpecLoader.py:108-129 | `_coerce_current_type` accepts exactly `AC` and `DC` and raises ValueError for anything else |
| SpecLoader.SliderBlockAccepted | software/cs/gui/epg_board/SpecLoader.py:132-139 | a slider block passes exactly when both bounds are present, numeric and min ≤ max (equal bounds pass); otherwise ValueError |
| SpecLoader.ValidateCombo | software/cs/gui/epg_board/SpecLoader.py:141-144 | a combo block passes exactly when `choices` is a non-empty list |
| SpecLoader.ValidateWidget | software/cs/gui/epg_board/SpecLoader.py:177-184 | sliders and combo boxes are validated, toggles pass, and any other widget type is rejected |
| SpecLoader.DefaultUnit | software/cs/gui/epg_board/SpecLoader.py:146-148 | None becomes the empty string; anything else is kept |
| SpecLoader.ParseEngineeringControl | software/cs/gui/epg_board/SpecLoader.py:170-199 | a parsed control is well formed and keyed by its name; a missing label is the key with `_` as spaces, title-cased; a missing or None unit is `""` |
| SpecLoader.UnknownWidgetRejected | software/cs/gui/epg_board/SpecLoader.py:177-184 | an unknown `widget_type` rejects the control whatever else the node holds |
| SpecLoader.ParseControlEntries | software/cs/gui/epg_board/SpecLoader.py:170-199 | the loop only ever yields well-formed controls |
| SpecLoader.ParsedControlKeys | software/cs/gui/epg_board/SpecLoader.py:168-201 | the parsed map holds a control for every entry's key and no other key |
| SpecLoader.ParseEngineeringControls | software/cs/gui/epg_board/SpecLoader.py:166-201 | the engineering section parses to well-formed controls only |
| SpecLoader.ParseTarget | software/cs/gui/epg_board/SpecLoader.py:221-228 | a target parses exactly when it is a mapping with a member key and a non-blank formula string |
| SpecLoader.ParseTargets | software/cs/gui/epg_board/SpecLoader.py:220-228 | the targets parse exactly when each does, in order |
| SpecLoader.ParseRelationItem | software/cs/gui/epg_board/SpecLoader.py:203-230 | a parsed relation has a non-empty name and at least one target |
| SpecLoader.RelationItemAccepted | software/cs/gui/epg_board/SpecLoader.py:203-230 | a relation item parses exactly when it has a non-empty name, coercible triggers and a non-empty list of valid targets; formulas are non-blank and missing triggers give `[]` |
| SpecLoader.ParseRelationItems | software/cs/gui/epg_board/SpecLoader.py:239 | the relation list parses exactly when every item does, in order |
| SpecLoader.ParseAffineMapping | software/cs/gui/epg_board/SpecLoader.py:151-158 | an empty mapping gives `a = 1`, `b = 0`, `round_to_int = False` |
| SpecLoader.ParseDefaultEntries | software/cs/gui/epg_board/SpecLoader.py:265-321 | the default-controls map holds every entry's name and no other |
| SpecLoader.AnyNotDefault | software/cs/gui/epg_board/SpecLoader.py:355 | no UI-order name is missing exactly when every name is a defined default control |
| SpecLoader.CheckOrders | software/cs/gui/epg_board/SpecLoader.py:351-357 | the order checks pass exactly when every engineering UI-order key and every entomologist UI-order name is defined |
| SpecLoader.LoadSpec | software/cs/gui/epg_board/SpecLoader.py:329-366 | a loaded spec is valid: well-formed controls and UI orders that name only defined controls |
| SpecLoader.UnknownOrderEntryRejected | software/cs/gui/epg_board/SpecLoader.py:352-354 | an engineering UI-order key naming no control fails loading with ValueError |
| SpecLoader.UnknownDefaultOrderEntryRejected | software/cs/gui/epg_board/SpecLoader.py:355-357 | an entomologist UI-order name naming no default control fails loading |
| EpgControlState.Lookup | software/cs/gui/epg_board/EPGControlState.py:34-47 | `d.get(k)` finds a value exactly when some entry has key k |
| EpgControlState.Assign | software/cs/gui/epg_board/EPGControlState.py:36-49 | after `d[k] = v` the key k holds v and every other key is unchanged |
| EpgControlState.AssignKeepsUnique | software/cs/gui/epg_board/EPGControlState.py:48-49 | assignment keeps a dictionary's keys distinct |
| EpgControlState.SetChangesOnlyKey | software/cs/gui/epg_board/EPGControlState.py:28-37 | `set` changes no other key; a failed coercion (TypeError) or an undefined key leaves the values alone and emits nothing; TypeError happens exactly when the coercion fails; on success the key holds the coerced value; a signal is emitted exactly when the values change |
| EpgControlState.SetTwiceIsQuiet | software/cs/gui/epg_board/EPGControlState.py:35-37 | setting the same value a second time changes nothing and emits nothing |
| EpgControlState.BatchEvents | software/cs/gui/epg_board/EPGControlState.py:50-53 | the batch signals are emitted exactly when something changed |
| EpgControlState.BatchStopsAtError | software/cs/gui/epg_board/EPGControlState.py:41-46 | once an entry fails, later entries are never looked at |
| EpgControlState.BatchNoRollback | software/cs/gui/epg_board/EPGControlState.py:41-53 | when an entry fails, the values are exactly those the earlier entries wrote (no rollback), and no signal is emitted |
| EpgControlState.BatchWritesChanged | software/cs/gui/epg_board/EPGControlState.py:40-49 | after a successful batch each key holds its value in `changed` if it has one and its old value otherwise; `changed` holds each key once and only keys of the updates |
| EpgControlState.BatchOfCurrentValuesIsQuiet | software/cs/gui/epg_board/EPGControlState.py:47-53 | a batch whose values are already current changes nothing and emits nothing |
| EpgControlState.UnknownNamesIgnored | software/cs/gui/epg_board/EPGControlState.py:62-66 | a name that is not a control key makes no difference to the updates |
| EpgControlState.ControlState.constructor | software/cs/gui/epg_board/EPGControlState.py:20-23 | each control of the spec starts at its default value; no signals |
| EpgControlState.ControlState.Get | software/cs/gui/epg_board/EPGControlState.py:25-26 | `get` succeeds exactly for keys the spec defines and returns the stored value |
| EpgControlState.ControlState.Set | software/cs/gui/epg_board/EPGControlState.py:28-37 | the new values, signals and error are those of the `set` outcome |
| EpgControlState.ControlState.SetBatch | software/cs/gui/epg_board/EPGControlState.py:39-53 | the loop yields the values, signals and error of the `set_batch` outcome |
| EpgControlState.ControlState.LoadFromDict | software/cs/gui/epg_board/EPGControlState.py:60-68 | unknown names are skipped; a batch is set only when some name is known |
| RelationsEngine.Clamp | software/cs/gui/epg_board/RelationsEngine.py:8-10 | the result lies in [low, high] when low ≤ high, is x when x is in range, low when x is below it, high when above; low wins when low > high |
| RelationsEngine.MakeEnv | software/cs/gui/epg_board/RelationsEngine.py:49-53 | the environment maps every control's name to its current value |
| RelationsEngine.NamesInjective | software/cs/gui/epg_board/RelationsEngine.py:51-69 | distinct keys have distinct names, so environment entries never collide |
| RelationsEngine.Pending | software/cs/gui/epg_board/RelationsEngine.py:43-46 | pending holds exactly the relations with a trigger in the changed set, and is empty when none has one |
| RelationsEngine.RunTargetsAppend | software/cs/gui/epg_board/RelationsEngine.py:61-69 | running two runs of targets in turn is running them all |
| RelationsEngine.FailingTargetSkipped | software/cs/gui/epg_board/RelationsEngine.py:62-66 | a target whose formula fails is skipped and affects nothing else |
| RelationsEngine.RelationEffect | software/cs/gui/epg_board/RelationsEngine.py:58-69 | a relation overwrites only the keys its own targets set and keeps what earlier relations staged; its environment shows its own values and otherwise the state's |
| RelationsEngine.LaterWriteWins | software/cs/gui/epg_board/RelationsEngine.py:58-69 | a key staged by a later relation takes that relation's value |
| RelationsEngine.KeysOf | software/cs/gui/epg_board/RelationsEngine.py:38 | a key is in the set exactly when some batch entry has it |
| RelationsEngine.Engine.constructor | software/cs/gui/epg_board/RelationsEngine.py:19-26 | the engine starts not applying, on the given state |
| RelationsEngine.Engine.OnChanged | software/cs/gui/epg_board/RelationsEngine.py:28-32 | while applying, a change does nothing; otherwise the relations of that key are applied |
| RelationsEngine.Engine.OnBatch | software/cs/gui/epg_board/RelationsEngine.py:34-38 | the same for the keys of a batch |
| RelationsEngine.Engine.Deliver | software/cs/gui/epg_board/RelationsEngine.py:30-37 | signals delivered while applying change nothing |
| RelationsEngine.Engine.Stage | software/cs/gui/epg_board/RelationsEngine.py:55-69 | the staging loops compute the staged updates of the changed set |
| RelationsEngine.Engine.RunRelation | software/cs/gui/epg_board/RelationsEngine.py:61-69 | the inner loop computes the targets' run |
| RelationsEngine.Engine.ApplyRelations | software/cs/gui/epg_board/RelationsEngine.py:40-76 | nothing when nothing is staged; otherwise one `set_batch` of the staged updates with `_applying` set around it and cleared afterwards |
| SettingsStore.Name | software/cs/gui/settings/Settings.py:133 | `QColor.name()` is always seven characters starting with `#` |
| SettingsStore.ParseColor | software/cs/gui/settings/Settings.py:101 | a colour parsed from text is valid whenever it is not the invalid colour |
| SettingsStore.Hex2RoundTrip | software/cs/gui/settings/Settings.py:101-133 | a component written as two hex digits reads back as itself |
| SettingsStore.ColorNameRoundTrip | software/cs/gui/settings/Settings.py:101-133 | a valid colour stored by name and read back is the same colour |
| SettingsStore.RawValue | software/cs/gui/settings/Settings.py:91-98 | the raw value is the default when nothing is stored or the stored value is null-like (None, "none", "null", blank), and the stored value otherwise |
| SettingsStore.LoadStops | software/cs/gui/settings/Settings.py:90-112 | once a key raises, `load` sets no later key |
| SettingsStore.Prepare | software/cs/gui/settings/Settings.py:128-141 | preparing cannot fail except for the label table; a colour is stored by its name |
| SettingsStore.ProjectColorTable | software/cs/gui/settings/Settings.py:134-140 | a label table whose entries hold LIGHT and DARK keeps its entries when projected for storage |
| SettingsStore.SaveLoadRoundTrip | software/cs/gui/settings/Settings.py:75-141 | a well-typed value stored under its key loads back as itself, unless the stored form is null-like, which loads as the default |
| SettingsStore.DefaultsReload | software/cs/gui/settings/Settings.py:31-125 | every value of `DEFAULT_SETTINGS` as declared, stored as `reset` stores it, loads back as itself |
| SettingsStore.ReloadTheme | software/cs/gui/settings/Settings.py:32-106 | the default theme loads back as itself |
| SettingsStore.ReloadLabelColors | software/cs/gui/settings/Settings.py:33-108 | the default (empty) label table loads back as itself |
| SettingsStore.ReloadLineColor | software/cs/gui/settings/Settings.py:34-101 | the default line colour loads back as itself |
| SettingsStore.ReloadLine | software/cs/gui/settings/Settings.py:35-110 | the default line width and grid flags load back as themselves |
| SettingsStore.ReloadFlags | software/cs/gui/settings/Settings.py:38-103 | the default label, duration and comment flags load back as themselves |
| SettingsStore.ReloadDirs | software/cs/gui/settings/Settings.py:41-110 | the default directories load back as themselves |
| SettingsStore.ReloadNumbers | software/cs/gui/settings/Settings.py:43-110 | the default range and voltage bounds load back as themselves |
| SettingsStore.ThemeChoice | software/cs/gui/settings/Settings.py:104-106 | a theme dict without NAME is the light theme; loading succeeds exactly when NAME is a string; the light theme is chosen exactly when NAME upper-cases to LIGHT |
| SettingsStore.ThemeNeedsDict | software/cs/gui/settings/Settings.py:105 | a stored theme that is not a dict makes `load` raise |
| SettingsStore.BoolSpellings | software/cs/gui/settings/Settings.py:103 | "Yes", "ON" and 1 read as true; "off", 2 and a colour read as false |
| SettingsStore.Inverted | software/cs/gui/settings/Settings.py:155-158 | the other theme's component stays within 0..255: 80 darker from a light theme (clamped at 0), 80 lighter otherwise (clamped at 255) |
| SettingsStore.InvertedColor | software/cs/gui/settings/Settings.py:155-162 | the inverted colour of a valid colour is valid |
| SettingsStore.ColorEntry | software/cs/gui/settings/Settings.py:160-163 | the entry written for a label holds a LIGHT and a DARK colour name |
| SettingsStore.WithEntry | software/cs/gui/settings/Settings.py:146-148 | a missing label gets the generated entry; a present label and all other labels keep theirs |
| SettingsStore.SetThenGetLabelColor | software/cs/gui/settings/Settings.py:145-164 | the colour set for a label is the one read back under the same theme, and the other theme reads its inverse |
| SettingsStore.ReadEntry | software/cs/gui/settings/Settings.py:149-150 | reading a label looks the theme name up in that label's entry |
| SettingsStore.ColorEntryRead | software/cs/gui/settings/Settings.py:160-163 | the written entry holds the colour under the current theme and its inverse under the other |
| SettingsStore.SetItemKeepsTable | software/cs/gui/settings/Settings.py:160-186 | writing a well-formed entry keeps the label table well formed |
| SettingsStore.DeleteIdempotent | software/cs/gui/settings/Settings.py:190 | deleting a label twice is deleting it once |
| SettingsStore.Settings.constructor | software/cs/gui/settings/Settings.py:65-67 | the object starts with the given store, nothing loaded or emitted, and the class-level label default still the empty dict |
| SettingsStore.Settings.Get | software/cs/gui/settings/Settings.py:72-73 | `get` succeeds exactly for a loaded attribute and returns it |
| SettingsStore.Settings.Load | software/cs/gui/settings/Settings.py:89-112 | each key of the type map is parsed in order until one raises; the store is not written; the label table is a fresh dict, not the class-level default |
| SettingsStore.Settings.LoadKeys | software/cs/gui/settings/Settings.py:90-112 | the key loop of `load` computes `LoadAll` and writes neither the store nor the signals |
| SettingsStore.Settings.Set | software/cs/gui/settings/Settings.py:75-83 | the attribute is written; the prepared value is stored and the change emitted, unless preparing raises; a new `label_colors` value is no longer the class-level default dict |
| SettingsStore.Settings.Publish | software/cs/gui/settings/Settings.py:75-83 | write, store and emit as `set` does, keeping the label table's identity |
| SettingsStore.Settings.Reset | software/cs/gui/settings/Settings.py:114-125 | the store is cleared and every default set, stored and emitted in order, the label table being the class-level default dict with whatever was written into it; afterwards the theme is the light one and `label_colors` is that dict |
| SettingsStore.Settings.SetAll | software/cs/gui/settings/Settings.py:122-125 | each default pair is set, stored and emitted in order, and the class-level label default is untouched |
| SettingsStore.Settings.GetLabelColor | software/cs/gui/settings/Settings.py:145-150 | the table gains the generated entry for a missing label, in the class-level default too when `label_colors` is that dict; nothing is stored; the colour for the current theme is returned |
| SettingsStore.Settings.SetLabelColor | software/cs/gui/settings/Settings.py:152-164 | the label's entry gets the colour and its inverse, written into the class-level default too when `label_colors` is that dict, then the table is set, stored and emitted |
| SettingsStore.Settings.RenameLabel | software/cs/gui/settings/Settings.py:184-187 | the entry moves to the upper-cased new name, in the class-level default too when `label_colors` is that dict; a missing old name raises KeyError and changes nothing |
| SettingsStore.Settings.DeleteLabel | software/cs/gui/settings/Settings.py:189-191 | the upper-cased label is removed if present, from the class-level default too when `label_colors` is that dict, and the table is set either way |
| SettingsStore.ResetDefaults | software/cs/gui/settings/Settings.py:31-47 | `DEFAULT_SETTINGS` as `reset` sees it: the declared defaults with the class-level label dict in its current state |
| SettingsStore.ResetDefaultsAt | software/cs/gui/settings/Settings.py:31-33 | the theme and label table `reset` sets are the ones it reads back from the defaults |
| SettingsStore.ResetAfterLabelEdit | software/cs/gui/settings/Settings.py:114-164 | `reset(); set_label_color("a", c); reset()` leaves label `A` in the table, because the first `reset` makes `label_colors` the class-level default dict |
| DeviceWidgets.GroupsArePositions | software/cs/gui/live_view/device_panel/DevicePanelWidgets.py:24 | the regular expression's repeated groups match exactly the text with hex digits and colons at the fixed positions |
| DeviceWidgets.IsValidMac | software/cs/gui/live_view/device_panel/DevicePanelWidgets.py:24-26 | an address is valid exactly when its stripped text is six hex pairs joined by colons, which makes it 17 characters |
| DeviceWidgets.UpperStrip | software/cs/gui/live_view/device_panel/DevicePanelWidgets.py:261-262 | upper-casing commutes with stripping |
| DeviceWidgets.UpperKeepsColonHex | software/cs/gui/live_view/device_panel/DevicePanelWidgets.py:261-262 | upper-casing keeps a valid address valid |
| DeviceWidgets.EditedMacIsValid | software/cs/gui/live_view/device_panel/DevicePanelWidgets.py:261-272 | an accepted MAC dialog yields a valid, unpadded, upper-case address of 17 characters |
| DeviceWidgets.GetValues | software/cs/gui/live_view/device_panel/DevicePanelWidgets.py:310-313 | the MAC is upper-cased but not stripped; the name is stripped, or "Unnamed Device" when blank |
| DeviceWidgets.AddedValuesValid | software/cs/gui/live_view/device_panel/DevicePanelWidgets.py:300-313 | an accepted add dialog yields a non-empty, valid address and a non-empty name |
| DeviceWidgets.DeviceWidget.constructor | software/cs/gui/live_view/device_panel/DevicePanelWidgets.py:76-104 | an empty name shows the MAC; the disconnect button starts hidden; no requests |
| DeviceWidgets.DeviceWidget.SetStatus | software/cs/gui/live_view/device_panel/DevicePanelWidgets.py:158-161 | the disconnect button is visible exactly when the status is "Connected"; nothing else changes |
| DeviceWidgets.DeviceWidget.LeftClick | software/cs/gui/live_view/device_panel/DevicePanelWidgets.py:140-145 | a left click requests a connection except on the connected device |
| DeviceWidgets.DeviceWidget.EditName | software/cs/gui/live_view/device_panel/DevicePanelWidgets.py:167-171 | a confirmed, non-blank name replaces the old one, stripped, and is announced; otherwise nothing changes |
| DeviceWidgets.DeviceWidget.EditMac | software/cs/gui/live_view/device_panel/DevicePanelWidgets.py:173-179 | an accepted dialog replaces the MAC with the normalised text and announces the old MAC |
| DeviceWidgets.DeviceWidget.ConfirmForget | software/cs/gui/live_view/device_panel/DevicePanelWidgets.py:181-190 | only a "Yes" asks to forget the device |
| DeviceWidgets.AddDeviceWidget.constructor | software/cs/gui/live_view/device_panel/DevicePanelWidgets.py:200-221 | the entry starts enabled with nothing added |
| DeviceWidgets.AddDeviceWidget.LeftClick | software/cs/gui/live_view/device_panel/DevicePanelWidgets.py:223-230 | a click on the enabled entry with an accepted dialog and a non-empty MAC announces the device; otherwise nothing |
| DevicePanel.RecordOf | software/cs/gui/live_view/device_panel/DevicePanel.py:74-75 | the MAC is the stored one or None; the name is the stored one or "Unnamed Device" |
| DevicePanel.Collect | software/cs/gui/live_view/device_panel/DevicePanel.py:72-78 | loading raises exactly when some item is not an object; every kept record has a truthy MAC |
| DevicePanel.Save | software/cs/gui/live_view/device_panel/DevicePanel.py:80-81 | the saved list has one object per device, in order |
| DevicePanel.SaveLoadRoundTrip | software/cs/gui/live_view/device_panel/DevicePanel.py:64-83 | loading what was saved gives back every device with a non-empty MAC, name included |
| DevicePanel.CollectSaved | software/cs/gui/live_view/device_panel/DevicePanel.py:72-81 | the load loop over the saved list keeps exactly the devices with a non-empty MAC |
| DevicePanel.OrElse | software/cs/gui/live_view/device_panel/DevicePanel.py:576-597 | `a or b` is a when a is present and b otherwise |
| DevicePanel.FindFrom | software/cs/gui/live_view/device_panel/DevicePanel.py:515-519 | the result is the first entry at or after k with the MAC, or none when no such entry exists |
| DevicePanel.Find | software/cs/gui/live_view/device_panel/DevicePanel.py:512-519 | a missing address finds nothing; otherwise the first entry with the MAC |
| DevicePanel.WithStatus | software/cs/gui/live_view/device_panel/DevicePanel.py:521-525 | only the entry found for the MAC takes the status; MACs and names are unchanged |
| DevicePanel.ClearOthers | software/cs/gui/live_view/device_panel/DevicePanel.py:527-531 | the kept device and every entry not showing "Connected" are unchanged; afterwards only the kept MAC can show "Connected" |
| DevicePanel.Records | software/cs/gui/live_view/device_panel/DevicePanel.py:501-507 | the (mac, name) pairs of every entry, in order |
| DevicePanel.RemoveFirst | software/cs/gui/live_view/device_panel/DevicePanel.py:553-558 | a missing MAC leaves the list alone; otherwise exactly one entry goes |
| DevicePanel.RemoveForgets | software/cs/gui/live_view/device_panel/DevicePanel.py:553-558 | with distinct MACs the removed device is gone and every other device stays |
| DevicePanel.ConnectedLeavesOneConnected | software/cs/gui/live_view/device_panel/DevicePanel.py:573-583 | after a connection the address is the pending (else connected) one, its entry shows "Connected", every "Connected" entry has that address, and with distinct MACs at most one entry shows "Connected" |
| DevicePanel.SameMacsSameFind | software/cs/gui/live_view/device_panel/DevicePanel.py:512-519 | finding depends on the MACs only |
| DevicePanel.Panel.constructor | software/cs/gui/live_view/device_panel/DevicePanel.py:412-497 | one disconnected entry per loaded record; nothing connected or pending; nothing saved |
| DevicePanel.Panel.FindDeviceWidget | software/cs/gui/live_view/device_panel/DevicePanel.py:512-519 | the loop finds what `Find` specifies |
| DevicePanel.Panel.SetDeviceStatus | software/cs/gui/live_view/device_panel/DevicePanel.py:521-525 | the device list becomes `WithStatus`; nothing else changes |
| DevicePanel.Panel.ClearOtherDevicesConnected | software/cs/gui/live_view/device_panel/DevicePanel.py:527-531 | the device list becomes `ClearOthers`; nothing else changes |
| DevicePanel.Panel.SaveDevices | software/cs/gui/live_view/device_panel/DevicePanel.py:509-510 | the saved file holds the current records |
| DevicePanel.Panel.AddDevice | software/cs/gui/live_view/device_panel/DevicePanel.py:535-544 | a disconnected entry is appended, and the list is saved when asked |
| DevicePanel.Panel.AddDeviceDialog | software/cs/gui/live_view/device_panel/DevicePanel.py:546-551 | an accepted dialog with a non-empty MAC adds and saves the device; otherwise nothing changes |
| DevicePanel.Panel.RemoveDevice | software/cs/gui/live_view/device_panel/DevicePanel.py:553-564 | the first entry with the MAC goes, the list is saved, and a connected or pending address equal to the MAC is cleared |
| DevicePanel.Panel.EditName | software/cs/gui/live_view/device_panel/DevicePanel.py:223-227 | a confirmed, non-blank name is stored stripped and the list saved |
| DevicePanel.Panel.EditMac | software/cs/gui/live_view/device_panel/DevicePanel.py:229-235 | an accepted address replaces the MAC and the list is saved; the connected and pending addresses are not remapped |
| DevicePanel.Panel.DisconnectClicked | software/cs/gui/live_view/device_panel/DevicePanel.py:566-569 | only the connected device's button marks it "Disconnecting..." and stops the link |
| DevicePanel.Panel.OnConnectedChanged | software/cs/gui/live_view/device_panel/DevicePanel.py:573-588 | on connect, the pending (else connected) address becomes the connected one and shows "Connected", and the pending address is cleared; on disconnect, when not switching, the connected entry shows "Disconnected" and the address is forgotten |
| DevicePanel.Panel.OnReconnectingChanged | software/cs/gui/live_view/device_panel/DevicePanel.py:590-594 | while reconnecting, the connected (else pending) entry shows "Reconnecting..." |
| DevicePanel.Panel.OnError | software/cs/gui/live_view/device_panel/DevicePanel.py:596-599 | the connected (else pending) entry shows "Error" |
| DevicePanel.Panel.OnStateChanged | software/cs/gui/live_view/device_panel/DevicePanel.py:601-631 | a present but disabled adapter stops the link, marks both addresses "Bluetooth OFF" and forgets them; the status text, button and section follow the adapter state |
| DevicePanel.Panel.OnDeviceClicked | software/cs/gui/live_view/device_panel/DevicePanel.py:634-665 | an unconfirmed click or a click on the connected device does nothing; otherwise the link is stopped, the previous device shows "Disconnected", and the clicked one becomes pending, shows "Connecting..." and is started |
| Sampling.Times | software/cs/gui/live_view/LiveDataWindow.py:263 | the time column holds each sample's time, in order |
| Sampling.Zip | software/cs/gui/live_view/LiveDataWindow.py:263-264 | the samples pair the two columns index by index |
| Sampling.Volts | software/cs/gui/live_view/LiveDataWindow.py:264 | the voltage column holds each sample's voltage, in order |
| Sampling.ZipAppend | software/cs/gui/live_view/LiveDataWindow.py:260-264 | appending a run to both columns appends it to the recording |
| Sampling.SearchLeft | software/cs/gui/live_view/LiveDataWindow.py:471 | `searchsorted(side="left")`: every value before the index is below v, the value at it is at least v, and on a sorted axis so is every later one |
| Sampling.SearchRight | software/cs/gui/live_view/LiveDataWindow.py:472 | `searchsorted(side="right")`: every value before the index is at most v, the value at it exceeds v, and on a sorted axis so does every later one |
| Sampling.SliceBounds | software/cs/gui/live_view/LiveDataWindow.py:467-484 | the bounds lie within the recording; without a range the whole recording is taken |
| Sampling.VisibleSliceCovers | software/cs/gui/live_view/LiveDataWindow.py:468-481 | on a sorted recording every sample in [lo, hi] is in the slice, and any other sample in it is the one extra sample just before or after the range |
| Sampling.EveryNth | software/cs/gui/live_view/LiveDataWindow.py:496-497 | `x[::stride]` is no longer than x |
| Sampling.EveryNthPicks | software/cs/gui/live_view/LiveDataWindow.py:496-497 | `x[::stride]` holds exactly the samples at multiples of the stride, in order |
| Sampling.ExtremesOfWindow | software/cs/gui/live_view/LiveDataWindow.py:517-518 | a window's maximum and minimum are voltages in the window that bound all its voltages |
| Sampling.SumBetween | software/cs/gui/live_view/LiveDataWindow.py:504 | a window's sum lies between its size times any lower bound and its size times any upper bound |
| Sampling.MeanBetween | software/cs/gui/live_view/LiveDataWindow.py:504 | a window's mean lies within any bounds on its voltages |
| Sampling.PeakPairs | software/cs/gui/live_view/LiveDataWindow.py:513-520 | peak mode emits pairs sharing a time, the maximum first |
| Sampling.WindowCounts | software/cs/gui/live_view/LiveDataWindow.py:501-513 | `n // stride` windows: one point each in mean mode, two in peak mode |
| Sampling.SliceOfSuffix | software/cs/gui/live_view/LiveDataWindow.py:503-509 | a slice of a suffix is the shifted slice of the whole |
| Sampling.OffsetIsProduct | software/cs/gui/live_view/LiveDataWindow.py:503-509 | window j starts at offset `j * stride` |
| Sampling.PeakLayout | software/cs/gui/live_view/LiveDataWindow.py:505-520 | peak point `2j` is the maximum and `2j+1` the minimum of the window at offset `j*stride`, both at the time of the sample `stride // 2` into it |
| Sampling.PeakWindowAt | software/cs/gui/live_view/LiveDataWindow.py:509-520 | peak window j is the first window of the samples from its offset on |
| Sampling.PeakWindowsShift | software/cs/gui/live_view/LiveDataWindow.py:509-520 | past the first window, peak points are those of the samples after it |
| Sampling.MeanLayout | software/cs/gui/live_view/LiveDataWindow.py:499-504 | mean point j is the mean of the window at offset `j*stride`, at the time of the sample `stride // 2` into it |
| Sampling.MeanWindowAt | software/cs/gui/live_view/LiveDataWindow.py:503-504 | mean window j is the first window of the samples from its offset on |
| Sampling.MeanWindowsShift | software/cs/gui/live_view/LiveDataWindow.py:503-504 | past the first window, mean points are those of the samples after it |
| Sampling.WindowsIgnoreTail | software/cs/gui/live_view/LiveDataWindow.py:504-510 | samples that do not fill a window change nothing |
| Sampling.PeakStride | software/cs/gui/live_view/LiveDataWindow.py:506 | the peak stride is at least 1 and, when downsampling is needed, at most n |
| Sampling.StrideFits | software/cs/gui/live_view/LiveDataWindow.py:495-500 | the subsampling and mean stride is between 1 and n when downsampling is needed |
| Sampling.Reduce | software/cs/gui/live_view/LiveDataWindow.py:494-544 | an unknown method is a ValueError; the only other failure is ZeroDivisionError, exactly for peak with max_points < 2 or subsampling/mean with max_points = 0 |
| Sampling.EveryNthSorted | software/cs/gui/live_view/LiveDataWindow.py:496-497 | subsampling a time-sorted recording keeps it sorted and never goes before the first sample |
| Sampling.MeanWindowsSorted | software/cs/gui/live_view/LiveDataWindow.py:502-504 | mean mode keeps a time-sorted recording sorted |
| Sampling.PeakWindowsSorted | software/cs/gui/live_view/LiveDataWindow.py:509-520 | peak mode keeps a time-sorted recording sorted |
| Sampling.Insert | software/cs/gui/live_view/LiveDataWindow.py:550 | insertion adds exactly one sample: the result is a permutation of the input plus it |
| Sampling.InsertSorted | software/cs/gui/live_view/LiveDataWindow.py:550 | inserting into a time-sorted recording keeps it sorted |
| Sampling.SortByTime | software/cs/gui/live_view/LiveDataWindow.py:549-552 | the sorted result is time-sorted and a permutation of the input; an already sorted input is unchanged |
| Sampling.LiveDownsample | software/cs/gui/live_view/LiveDataWindow.py:446-552 | the slice as it is when small enough, else its reduction sorted by time; reduction errors propagate |
| Sampling.LabelDownsample | software/cs/gui/label_view/DataWindow.py:738-810 | the slice as it is when small enough or shorter than two samples, else its reduction, unsorted |
| Sampling.VisibleSliceSorted | software/cs/gui/live_view/LiveDataWindow.py:480-481 | a slice of a sorted recording is sorted |
| Sampling.SliceSorted | software/cs/gui/live_view/LiveDataWindow.py:480-481 | any contiguous slice of a sorted recording is sorted |
| Sampling.ReduceSorted | software/cs/gui/live_view/LiveDataWindow.py:494-544 | every reduction of a time-sorted recording is time-sorted |
| Sampling.DownsamplersAgreeOnSortedData | software/cs/gui/label_view/DataWindow.py:738-810 | on sorted data with max_points ≥ 1, the live and label windows render the same points: the final sort changes nothing |
| Sampling.NearestTime | software/cs/gui/live_view/LiveDataWindow.py:711-741 | an empty axis is an IndexError; otherwise the result is a time on the axis |
| Sampling.NearestTimeIsNearest | software/cs/gui/live_view/LiveDataWindow.py:722-741 | on a sorted axis the snapped time is a nearest time, and the earliest of the nearest |
| Sampling.ArgNearestFrom | software/cs/gui/label_view/DataWindow.py:678 | the index is a nearest one at or after k, and the first such |
| Sampling.NearestIndex | software/cs/gui/label_view/DataWindow.py:674-680 | no rows is a ValueError; otherwise the first row nearest t and its time |
| Sampling.NearestSearchesAgree | software/cs/gui/live_view/LiveDataWindow.py:711-741 | on a sorted axis the two windows snap a time to the same sample time |
| LiveView.CommentDialog | software/cs/gui/live_view/LiveDataWindow.py:554-588 | nothing exactly when the dialog is cancelled or the text is blank; otherwise the stripped, non-empty text |
| LiveView.LiveWindow.constructor | software/cs/gui/live_view/LiveDataWindow.py:89-155 | no samples, no comments, nothing buffered or backed up, time 0, not modified |
| LiveView.LiveWindow.Receive | software/cs/gui/live_view/LiveViewTab.py:399-402 | one received sample is appended to the buffer and its time becomes the current time; the recording, comments and backup are untouched |
| LiveView.LiveWindow.IntegrateBuffer | software/cs/gui/live_view/LiveDataWindow.py:244-264 | a non-empty buffer is appended, in order, to the recording, emptied, and marks the data modified; an empty buffer changes nothing |
| LiveView.LiveWindow.PeriodicSave | software/cs/gui/live_view/LiveDataWindow.py:286-339 | the samples after the last saved index are appended to the backup, so afterwards it holds the whole recording; a non-empty comment dictionary replaces the comment backup; the modified flag is cleared |
| LiveView.LiveWindow.TriggerPeriodicSave | software/cs/gui/live_view/LiveDataWindow.py:276-284 | a backup runs only when something changed since the last one |
| LiveView.LiveWindow.DownsampleVisible | software/cs/gui/live_view/LiveDataWindow.py:446-552 | the rendered copy is the downsampled slice, or unchanged when the reduction raises; a time-sorted recording renders time-sorted |
| LiveView.LiveWindow.TimedPlotUpdate | software/cs/gui/live_view/LiveDataWindow.py:341-378 | the buffer is integrated and the rendered copy recomputed with the window's point budget in peak mode, which never raises; a sorted recording renders sorted |
| LiveView.LiveWindow.AddCommentAtClick | software/cs/gui/live_view/LiveDataWindow.py:590-611 | with nothing rendered snapping raises IndexError; an accepted, non-blank text is stored at the nearest rendered time and marks the data modified |
| LiveView.LiveWindow.AddCommentLive | software/cs/gui/live_view/LiveDataWindow.py:613-633 | an accepted, non-blank text is stored at the current time (the time of the last received sample) and marks the data modified |
| LiveView.LiveWindow.MoveComment | software/cs/gui/live_view/LiveDataWindow.py:654-680 | a missing time raises KeyError; the comment moves to the nearest rendered time keeping its text; with nothing rendered the pop has already happened, so the comment is lost |
| LiveView.LiveWindow.EditComment | software/cs/gui/live_view/LiveDataWindow.py:682-694 | the text at an existing time is replaced and the set of times is unchanged; a missing time raises KeyError |
| LiveView.LiveWindow.DeleteComment | software/cs/gui/live_view/LiveDataWindow.py:696-709 | the time is removed; a missing time raises KeyError and changes nothing |
| LabelView.MaxOf | software/cs/gui/label_view/DataWindow.py:846 | Python's `max` of a non-empty list bounds every element and is one of them |
| LabelView.DurationsFrom | software/cs/gui/label_view/DataWindow.py:841-846 | one entry per transition with its time and label; each lasts until the next transition, the last until the recording's last time |
| LabelView.Durations | software/cs/gui/label_view/DataWindow.py:834-846 | no transitions is an IndexError, no times a ValueError; otherwise one entry per transition |
| LabelView.DurationsTelescope | software/cs/gui/label_view/DataWindow.py:841-846 | the durations add up to the time from the first transition to the end of the recording |
| LabelView.DurationsNonNegative | software/cs/gui/label_view/DataWindow.py:841-846 | with transitions in time order, ending by the last time, no duration is negative |
| LabelView.AreasOf | software/cs/gui/label_view/DataWindow.py:848-852 | one area per labelled entry, in order; entries without a label make none |
| LabelView.AreasTile | software/cs/gui/label_view/DataWindow.py:841-852 | when every transition is labelled, the areas tile the recording without gaps from the first transition to the last time |
| LabelView.Ends | software/cs/gui/label_view/DataWindow.py:1015 | the end of each area, in order |
| LabelView.ClosestLabelArea | software/cs/gui/label_view/DataWindow.py:1001-1019 | none exactly when there are no areas or x lies before the first start or after the last end; otherwise the first area ending at or after x |
| LabelView.ClosestAreaCovers | software/cs/gui/label_view/DataWindow.py:1001-1019 | on gap-free areas the area found covers x |
| LabelView.RowSpans | software/cs/gui/label_view/DataWindow.py:1053-1064 | the row span of each area, in order |
| LabelView.Names | software/cs/gui/label_view/DataWindow.py:1056 | the label of each area, in order |
| LabelView.Paint | software/cs/gui/label_view/DataWindow.py:1066-1067 | exactly the rows of the span take the label; the others are unchanged |
| LabelView.Painted | software/cs/gui/label_view/DataWindow.py:1051-1067 | painting keeps the column's length |
| LabelView.LastCover | software/cs/gui/label_view/DataWindow.py:1053-1067 | the last of the first n spans that includes the row, or none when none does |
| LabelView.PaintedIsLastCover | software/cs/gui/label_view/DataWindow.py:1051-1067 | each row holds the name of the last span covering it, NaN when none does |
| LabelView.LabelsColumnCell | software/cs/gui/label_view/DataWindow.py:1039-1073 | row k of the labels column holds the label of the last area whose rows include it, NaN when none |
| LabelView.InRowSpanByTime | software/cs/gui/label_view/DataWindow.py:1058-1064 | on a time column in order, area i covers exactly the rows with start ≤ t < end, and start ≤ t ≤ end for the last area |
| LabelView.ClearAt | software/cs/gui/label_view/DataWindow.py:638-667 | exactly the rows at that time lose their comment |
| LabelView.ColumnCommentsAgree | software/cs/gui/label_view/DataWindow.py:549-553 | every comment read from the column sits on a row with that time and text, and every commented row is read |
| LabelView.LabelWindow.constructor | software/cs/gui/label_view/DataWindow.py:48 | no frame, no comments, no labels, nothing rendered |
| LabelView.LabelWindow.PlotRecording | software/cs/gui/label_view/DataWindow.py:492-527 | the frame is taken over, with an all-None comments column when it has none, and the whole recording is downsampled for drawing |
| LabelView.LabelWindow.DownsampleVisible | software/cs/gui/label_view/DataWindow.py:738-810 | the drawn copy is the downsampled slice, or unchanged when the reduction raises |
| LabelView.LabelWindow.PlotComments | software/cs/gui/label_view/DataWindow.py:541-555 | every commented row's text is added under its time, without clearing the dictionary first; from an empty dictionary, the dictionary agrees with the column |
| LabelView.LabelWindow.PlotTransitions | software/cs/gui/label_view/DataWindow.py:812-855 | when no entry of the label column holds a label, no areas are made; a failing duration computation raises with no areas; otherwise one area per labelled duration entry |
| LabelView.LabelWindow.UpdateLabelsColumn | software/cs/gui/label_view/DataWindow.py:1039-1073 | without a frame nothing happens; otherwise the labels column becomes the painted column of the areas |
| LabelView.LabelWindow.NearestRow | software/cs/gui/label_view/DataWindow.py:674-680 | without a frame a TypeError; otherwise the first row nearest t and its time |
| LabelView.LabelWindow.MoveComment | software/cs/gui/label_view/DataWindow.py:632-650 | rows at the old time lose their comment, the nearest row gets the text, and the dictionary entry moves to that row's time; the dictionary keeps agreeing with the column |
| LabelView.LabelWindow.EditComment | software/cs/gui/label_view/DataWindow.py:652-663 | the nearest row's text is replaced first, so a missing time raises KeyError after the column has changed |
| LabelView.LabelWindow.DeleteComment | software/cs/gui/label_view/DataWindow.py:665-672 | rows at that time lose their comment, then the time is removed; a missing time raises KeyError; without a frame an AttributeError |
| ProbeFinder.NonProbingLabels | machine-learning/sharpshooter/model_evaluation.py:110-113 | a label is non-probing exactly when it is N or Z in either case; NaN counts as probing |
| ProbeFinder.Mask | machine-learning/sharpshooter/model_evaluation.py:112-113 | the mask is true exactly at the probing labels |
| ProbeFinder.SetIndicesFrom | machine-learning/sharpshooter/model_evaluation.py:114 | `np.where(mask)[0]` yields indices within the mask |
| ProbeFinder.SetIndicesSound | machine-learning/sharpshooter/model_evaluation.py:114 | the indices are of set entries, in increasing order |
| ProbeFinder.SetIndicesComplete | machine-learning/sharpshooter/model_evaluation.py:114 | every set entry's index is among them |
| ProbeFinder.BreaksFrom | machine-learning/sharpshooter/model_evaluation.py:119 | each break is a position with a following index |
| ProbeFinder.BreaksSound | machine-learning/sharpshooter/model_evaluation.py:119 | the breaks are positions where the indices jump by more than one, in increasing order |
| ProbeFinder.BreaksComplete | machine-learning/sharpshooter/model_evaluation.py:119 | every jump is among the breaks |
| ProbeFinder.BreaksAreJumps | machine-learning/sharpshooter/model_evaluation.py:119 | the breaks are exactly the jumps, in increasing order |
| ProbeFinder.Zipped | machine-learning/sharpshooter/model_evaluation.py:120-123 | one pair per break plus one; pair i runs from the index after break i-1 (or the first) to the index at break i (or the last) |
| ProbeFinder.RunIsConsecutive | machine-learning/sharpshooter/model_evaluation.py:119-123 | inside a run the set indices go up by exactly one |
| ProbeFinder.ZippedRunInside | machine-learning/sharpshooter/model_evaluation.py:120-123 | each pair is an inclusive run of set entries inside the mask |
| ProbeFinder.ZippedRunBounded | machine-learning/sharpshooter/model_evaluation.py:120-123 | the indices just outside each pair are not set indices |
| ProbeFinder.ZippedRunsOrdered | machine-learning/sharpshooter/model_evaluation.py:120-123 | later pairs start more than one index after earlier ones end |
| ProbeFinder.ZippedRunsCover | machine-learning/sharpshooter/model_evaluation.py:120-123 | every set index lies in some pair |
| ProbeFinder.IndexRunInside | machine-learning/sharpshooter/model_evaluation.py:114-123 | each run of the set indices is an inclusive run of set entries |
| ProbeFinder.IndexRunBounded | machine-learning/sharpshooter/model_evaluation.py:114-123 | the indices just outside each run are not set indices |
| ProbeFinder.RunIsSet | machine-learning/sharpshooter/model_evaluation.py:112-123 | each run lies within the mask and is all set |
| ProbeFinder.RunIsMaximal | machine-learning/sharpshooter/model_evaluation.py:112-123 | the entries just before and just after each run are unset, or lie outside the mask |
| ProbeFinder.RunsOrdered | machine-learning/sharpshooter/model_evaluation.py:119-123 | the runs come in increasing order with an unset entry between any two |
| ProbeFinder.RunsCover | machine-learning/sharpshooter/model_evaluation.py:112-123 | every set entry lies in some run |
| ProbeFinder.SegmentIsMaximalRun | machine-learning/sharpshooter/model_evaluation.py:105-123 | each pair is a maximal run of probing labels: all probing inside, N or Z (or the recording's edge) just outside |
| ProbeFinder.SegmentsOrdered | machine-learning/sharpshooter/model_evaluation.py:105-123 | the pairs are increasing and disjoint, with an N or Z label between any two |
| ProbeFinder.ProbingIndexCovered | machine-learning/sharpshooter/model_evaluation.py:105-123 | every probing index lies in exactly one pair |
| ProbeFinder.FinderEmptyIffNoProbing | machine-learning/sharpshooter/model_evaluation.py:116-117 | the finder returns nothing exactly when every label is N or Z |
| ProbeFinder.ILoc | machine-learning/sharpshooter/model_evaluation.py:69 | `df.iloc[s:e]` within the frame is the rows from s up to but not including e |
| ProbeFinder.ProbesFrom | machine-learning/sharpshooter/model_evaluation.py:68-72 | one probe per pair |
| ProbeFinder.NamesFrom | machine-learning/sharpshooter/model_evaluation.py:68-73 | one name per probe |
| ProbeFinder.ProbeOmitsLastSample | machine-learning/sharpshooter/model_evaluation.py:68-123 | the probe omits its run's last sample, since the finder's end is inclusive and `iloc` excludes it; a one-sample run gives an empty probe |
| ProbeFinder.ProbeNamesDistinct | machine-learning/sharpshooter/model_evaluation.py:73 | different probes of one file get different names |
| ProbeFinder.CutProbes | machine-learning/sharpshooter/model_evaluation.py:68-73 | the loop yields one probe and one name per pair, in order |
| ProbeFinder.ProcessDf | machine-learning/sharpshooter/model_evaluation.py:60-75 | the probes and names of the runs found in the labels, in run order |
| ProbeFinder.AllNamesAligned | machine-learning/sharpshooter/model_evaluation.py:98-100 | the name list and the probe list have the same length |
| ProbeFinder.GetProbes | machine-learning/sharpshooter/model_evaluation.py:78-102 | the probes and names of every recording, in the completion order given, with one name per probe |
| CrossChecks.Received | firmware/src/bluetooth.c:66-68 | the firmware's receive buffer keeps its size after a host write |
| CrossChecks.AsciiArrives | software/cs/gui/epg_board/bluetooth/BLEIOHandler.py:519 | an ASCII command that fits arrives in the firmware's buffer byte for byte, NUL-terminated |
| CrossChecks.MuxCommand | firmware/src/bluetooth.c:129-138 | `M:` and a digit 0..7 selects that mux channel |
| CrossChecks.ResistanceCommandsAccepted | software/cs/gui/epg_board/bluetooth/BLEIOHandler.py:536-547 | every resistance the host offers reaches the firmware as the mux channel its table names |
| CrossChecks.DigitBytesValue | firmware/src/bluetooth.c:71-116 | bytes spelling a digit string carry the same value for `atoi` as for Python's `int()` |
| CrossChecks.NumberArrives | software/cs/gui/epg_board/bluetooth/BLEIOHandler.py:550-569 | a prefix followed by the decimal digits of n arrives so that `atoi` after the prefix gives n |
| CrossChecks.PgaCommandAccepted | software/cs/gui/epg_board/bluetooth/BLEIOHandler.py:550-553 | the host's `P1:`/`P2:` command for a non-negative setting configures that PGA exactly when the setting, modulo 2^16, is 0..7 |
| CrossChecks.DigipotCommandAccepted | software/cs/gui/epg_board/bluetooth/BLEIOHandler.py:562-569 | the host's `D0:`..`D3:` command sets that digipot channel exactly when the value is 0..255 |
| CrossChecks.FrequencyOffAccepted | software/cs/gui/epg_board/bluetooth/BLEIOHandler.py:576 | the host's frequency "0" (`DDSOFF`) puts the board's DDS to sleep |
| CrossChecks.FrequencySetAccepted | software/cs/gui/epg_board/bluetooth/BLEIOHandler.py:573-578 | `SDDS:` and a frequency reach the board as that frequency modulo 2^16; the host's 1000 and 1 arrive unchanged |
| CrossChecks.SessionCommandsAccepted | software/cs/gui/live_view/BluetoothIO.py:208-209 | the live view's `ON` powers the board up and sets `on_received`; `START` sets `start_received` and calls no driver |
| CrossChecks.SamplesAreNotLines | firmware/src/adc.c:64-87 | a sample payload with no carriage-return byte yields no frame in the host's parser and stays whole in its buffer |
| CrossChecks.PackAvoids | firmware/src/adc.c:73-81 | a byte value that is neither half of any sample appears nowhere in the packed payload |
| CrossChecks.NegativeSampleIsNotUtf8 | software/cs/gui/live_view/BluetoothIO.py:336-342 | a sample of -1 packs to `FF FF`, which strict UTF-8 rejects, so the live view's handler drops it |
| Utf8.DecodeEncode | software/cs/gui/live_view/BluetoothIO.py:338 | decoding the UTF-8 encoding of any text gives the text back |
| Utf8.EncodeDecode | software/cs/gui/epg_board/bluetooth/BLEIOHandler.py:519 | a decodable byte sequence is the encoding of what it decodes to |
| Utf8.EncodeAscii | software/cs/gui/epg_board/bluetooth/BLEIOHandler.py:519 | ASCII text encodes byte for byte |
| PyText.Strip | software/cs/gui/settings/Settings.py:97 | `strip()` gives a trimmed text no longer than its input |
| PyText.StripPadded | software/cs/gui/settings/Settings.py:97 | `strip()` removes exactly the whitespace padding around a trimmed text |
| PyText.SplitOnce | software/cs/gui/epg_board/bluetooth/BLEFrameParser.py:67 | `split(sep, 1)` gives one part exactly when there is no separator, and otherwise the text before the first separator and the rest |
| PyText.PyIntOfSignedDigits | software/cs/gui/epg_board/bluetooth/BLEFrameParser.py:74-75 | `int()` of one sign followed by digits is the signed value |
| PyText.PyIntRejectsTwoSigns | software/cs/gui/epg_board/bluetooth/BLEFrameParser.py:74-75 | `int()` rejects two leading signs |
| PyText.IntDecimalRoundTrip | software/cs/gui/epg_board/bluetooth/BLEIOHandler.py:551 | `int(str(n)) == n` for every integer |
| PyValue.Trunc | software/cs/gui/epg_board/bluetooth/BLEIOHandler.py:484 | `int()` of a float truncates toward zero |
| PyValue.SetItem | software/cs/gui/settings/Settings.py:160 | `d[k] = v` makes k hold v and leaves every other key alone; an existing key keeps its place, a new one goes last |
| PyValue.Remove | software/cs/gui/settings/Settings.py:190 | `d.pop(k, None)` removes k and leaves every other key alone |

## Left out

- Qt widgets, signals, timers and the asyncio event loop: each `await` is a step boundary, and the outcome of every attempt (connect, write, notify) is a parameter of the step.
- The BLE transport (`BLEDeviceClient`, Bleak) appears only as an abstract success or failure of each call.
- The firmware's hardware setup and drivers (GPIO, SAADC, timers, PGA, digipot, DDS, mux) are recorded as driver actions only. BLE stack initialisation and advertising are left out.
- The race between the ADC callback and the work item that notifies `g_ble_buf` is left out. The model runs the two in sequence. The polling loops in `main.c` are left out too.
- Floating point is modelled as reals, so rounding is lost. `f"{v:.3f}"` formatting, `atof` values and the `MIN/MAX_DDS_AMPLIFICATION` constants of `dds.h` are parameters. `dds.h` is not part of this model.
- `eval()` of relation expressions in the relations engine is a parameter evaluator that returns a value or a failure.
- Rendering in both plot windows is left out: drawing, mouse and keyboard handlers, and the redraw conditions of `update_plot`.
- `DataWindow.add_comment_at_click` and the `export_*` methods are left out. They are UI wrappers around the comment and label operations that are modelled.
- File and settings I/O is left out. This covers CSV backup writes and renames, the device store's JSON file, QSettings persistence, and YAML and file reading in `load_spec`. Each store is modelled as an in-memory map or sequence.
- The `isclose` edge clearing of the label window (software/cs/gui/label_view/DataWindow.py:1069-1071) is left out, because it compares floats.
- `numpy.searchsorted` is modelled by a linear search with the same result. `argsort` stability is not modelled.
- `max_points` is a `nat`, so a negative point budget is not modelled.
- `Path.stem` is a parameter of the probe finder. The completion order of `ThreadPoolExecutor` is a parameter. The `tqdm` progress display is left out.
- Python `NaN` and `None` labels are both modelled as the string `"nan"`.
- `upper`, `lower`, `title` and `strip` are ASCII-only; the Unicode tables are not modelled.
- UTF-8 decoding with replacement characters is not modelled. Management payloads keep one character per byte.
- Colour spellings other than `#rrggbb` give `InvalidColor`; the other spellings QColor accepts are not modelled.
- Random generation of label colours is left out; the colours are a parameter.
- `EPGControlState.to_dict` and `as_env` are left out, because nothing in the core calls them.
- `Settings.save_all` is left out, because it only writes to QSettings.
- `FirmwareBle.Board.WriteCustomValue`: when no command branch matches, the C function returns an undefined value. The model returns `None` for that value.
- `FirmwareAdc.Adc.Done` requires a non-empty block, because the C code divides by the block size and an empty block divides by zero.
- The firmware's UART driver fills `command_buffer` by DMA (`uart_rx_enable` at firmware/src/main.c:92, 106 and 121) while `uart_cb` writes the same buffer. The model gives the reader its own line, so that sharing is left out.
- The `_run_manager` loop of `BluetoothIO` (software/cs/gui/live_view/BluetoothIO.py:258-312) is left out: device resolution, the grace reconnect window and the backoff sleeps. `LiveBluetoothIo` models its single steps and the backoff schedule only.
- `LiveBluetoothIo.BluetoothIO.SessionStart` queues `ON` and `START` at once. The source posts each through `call_soon_threadsafe`, so their order relative to a `send` from another thread is not captured.
- `BLEFrameParser`'s `line_separator` is fixed at its default `\r\n`. That is the only value `BLEIOHandler` uses (software/cs/gui/epg_board/bluetooth/BLEIOHandler.py:111 and 340), and `new_BLEIO` hard-codes it.
- The `uint64` and `int32` casts of each batch raise `OverflowError` on an out-of-range value, as NumPy 2 does. Older NumPy versions wrap the value instead; that behaviour is not modelled.
- `DEFAULT_SETTINGS["label_colors"]` is a class attribute, shared by every `Settings` object. The model holds it in each object (`sharedLabelDefault`), so a second `Settings` object does not see edits made through the first. `load` reads it as it is at `__init__`, still empty.
- The label dicts sent with `settingChanged` are the live table, which later edits mutate. The model logs the value at the time of the signal.
- The relations re-run after a batch that reaches the engine from outside it, such as the one `load_from_dict` emits. The model makes that re-run its own step, `OnBatch`, which the caller runs after `LoadFromDict`; no single method chains the two.
- The background save thread of the live data window and its lock are left out. Backups are modelled as steps.

## Findings

| source | as written | input that shows it | evidently intended | confidence | as-written member | corrected member |
|---|---|---|---|---|---|---|
| firmware/src/bluetooth.c:23-68 | `write_custom_value` copies `len` bytes into the 20-byte `write_buffer` and then writes a NUL at `write_buffer[len]`, with no bound on `len` | a 20-byte write, which stores the NUL at index 20, one past the end | refuse writes of 20 bytes or more with an invalid-length error and leave the buffer unchanged | not executed | FirmwareBle.AsWrittenOverflow | FirmwareBle.Board.WriteCustomValue |
| firmware/src/main.c:52-67 | `uart_cb` stores each accepted character at `command_buffer[cmd_index++]` in the 32-byte buffer, with no bound on `cmd_index` | 32 accepted characters with no carriage return; the next accepted character is stored at index 32 | discard the line once it would overflow, as a rejected character does | not executed | FirmwareUart.AsWrittenOverflow | FirmwareUart.Step |
