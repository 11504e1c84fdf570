/**
 * The host's BLE I/O handler: a connection state machine with sticky
 * reconnection over a fixed backoff list, a periodic batching step that drains
 * the frame parser and drops the oldest samples when a batch spans too much
 * time, and the encoder from engineering controls to device commands.
 *
 * Each asynchronous sequence is split at its `await` points. What other code
 * may do while a sequence is suspended is limited to the two control slots
 * (`connectTo`, `disconnectFrom`), passed in as `ControlCall` values; the
 * outcome of a connection attempt or a write is a parameter.
 */
module BleIoHandler {
  import opened Wrappers
  import opened PyText
  import Utf8
  import PyValue
  import FP = FrameParser

  datatype ConnectionState = Idle | Connecting | Connected | Reconnecting | Disconnected | Error

  datatype DropPolicy = Oldest | Newest | Block

  const NotifyCharacteristicUuid: string := "445817D2-9E86-1078-1F76-703DC002EF42"
  const WriteCharacteristicUuid: string := "445817D2-9E86-1078-1F76-703DC002EF43"

  /** The signals the handler emits, in emission order. */
  datatype Event =
    | StateChanged(state: ConnectionState)
    | ErrorOccurred(message: string, code: int)
    | DataBatch(timestamps: seq<int>, millivolts: seq<int>)
    | SamplesDropped(count: nat)
    | WriteCompleted(ok: bool, tag: string)
    | ManagementFramesReceived(payloads: seq<string>)

  /** The device client: absent, or created for an address with the link up or down. */
  datatype DeviceLink = NoDevice | Device(address: string, connected: bool)

  /** A GATT write issued to the device. */
  datatype GattWrite = GattWrite(payload: seq<Utf8.uint8>, withResponse: bool)

  /** How a connection attempt (connect, then subscribe) ends. */
  datatype Attempt = Succeeds | Fails(reason: string)

  /** A control slot invoked from the GUI thread while a sequence is suspended. */
  datatype ControlCall = NoCall | ConnectToCall(address: string, notifyUuid: string, writeUuid: string) | DisconnectFromCall

  /** What the GUI does during one reconnect round, and how that round's attempt ends. */
  datatype Round = Round(duringSleep: ControlCall, duringAttempt: ControlCall, outcome: Attempt)

  datatype ConnectEnd = MissingTarget | ConnectPreempted | ConnectOk | ReconnectScheduled
  datatype ReconnectEnd = Aborted | ReconnectPreempted | Reconnected | Exhausted
  datatype RoundEnd = RoundPreempted | RoundFailed | RoundSucceeded

  /** Python truthiness of an optional string: present and non-empty. */
  predicate Truthy(s: Option<string>)
  {
    s.Some? && |s.value| > 0
  }

  /** No control slot is invoked during any of the rounds. */
  predicate Quiet(rounds: seq<Round>)
  {
    forall i :: 0 <= i < |rounds| ==> rounds[i].duringSleep == NoCall && rounds[i].duringAttempt == NoCall
  }

  /** `DropPolicy(name)`, falling back to `OLDEST` for a name that is not a policy value. */
  function ParseDropPolicy(name: string): (p: DropPolicy)
    ensures name == "newest" <==> p == Newest
    ensures name == "block" <==> p == Block
  {
    if name == "newest" then Newest else if name == "block" then Block else Oldest
  }

  // ---------------------------------------------------------------------------
  // Backpressure

  /** The first index at or after `i` whose timestamp reaches `cutoff`, or `|ts|`. */
  function FirstFrom(ts: seq<int>, cutoff: int, i: nat): (j: nat)
    requires i <= |ts|
    ensures i <= j <= |ts| && (j < |ts| ==> ts[j] >= cutoff)
    ensures forall k :: i <= k < j ==> ts[k] < cutoff
    decreases |ts| - i
  {
    if i == |ts| || ts[i] >= cutoff then i else FirstFrom(ts, cutoff, i + 1)
  }

  /** `drop_idx`: the index of the first timestamp at or after the cutoff, 0 when there is none. */
  function DropIndex(ts: seq<int>, cutoff: int): nat
  {
    var j := FirstFrom(ts, cutoff, 0);
    if j == |ts| then 0 else j
  }

  /** The number of samples backpressure removes from the front of a batch. */
  function DropCount(ts: seq<int>, maxSeconds: real): nat
  {
    if |ts| == 0 || (ts[|ts| - 1] - ts[0]) as real / 1000.0 <= maxSeconds then 0
    else DropIndex(ts, ts[|ts| - 1] - PyValue.Trunc(maxSeconds * 1000.0))
  }

  predicate NonDecreasing(ts: seq<int>)
  {
    forall i, j :: 0 <= i <= j < |ts| ==> ts[i] <= ts[j]
  }

  /** The search loop of `_apply_backpressure_if_needed`: the first timestamp at or after the cutoff. */
  method FindDropIndex(ts: seq<int>, cutoff: int) returns (d: nat)
    ensures (exists i :: 0 <= i < |ts| && ts[i] >= cutoff) ==>
      d < |ts| && ts[d] >= cutoff && forall j :: 0 <= j < d ==> ts[j] < cutoff
    ensures (forall i :: 0 <= i < |ts| ==> ts[i] < cutoff) ==> d == 0
    ensures d == DropIndex(ts, cutoff)
  {
    d := 0;
    var i := 0;
    while i < |ts|
      invariant 0 <= i <= |ts| && d == 0
      invariant forall j :: 0 <= j < i ==> ts[j] < cutoff
      invariant FirstFrom(ts, cutoff, 0) == FirstFrom(ts, cutoff, i)
    {
      if ts[i] >= cutoff {
        d := i;
        break;
      }
      i := i + 1;
    }
  }

  /** Backpressure never changes a batch within budget, and never touches an empty one. */
  lemma DropCountWithinBudget(ts: seq<int>, maxSeconds: real)
    requires |ts| == 0 || (ts[|ts| - 1] - ts[0]) as real / 1000.0 <= maxSeconds
    ensures DropCount(ts, maxSeconds) == 0
  {
  }

  /**
   * Over budget, backpressure removes exactly the samples before the first one
   * at or after `last - int(max * 1000)`, and always keeps the last sample; when
   * that window is not negative, the survivors lie within it.
   */
  lemma DropCountOverBudget(ts: seq<int>, maxSeconds: real)
    requires |ts| > 0 && (ts[|ts| - 1] - ts[0]) as real / 1000.0 > maxSeconds
    ensures var d := DropCount(ts, maxSeconds);
      var window := PyValue.Trunc(maxSeconds * 1000.0);
      && d < |ts|
      && (window >= 0 ==> forall j :: 0 <= j < d ==> ts[j] < ts[|ts| - 1] - window)
      && (window >= 0 ==> ts[d] >= ts[|ts| - 1] - window)
      && (window >= 0 && NonDecreasing(ts) ==> forall j :: d <= j < |ts| ==> ts[|ts| - 1] - window <= ts[j] <= ts[|ts| - 1])
  {
    var window := PyValue.Trunc(maxSeconds * 1000.0);
    var cutoff := ts[|ts| - 1] - window;
    var j := FirstFrom(ts, cutoff, 0);
    if window >= 0 {
      assert ts[|ts| - 1] >= cutoff;
    }
  }

  /** `_send_command_async`'s payload: the UTF-8 text followed by a NUL byte. */
  function CommandPayload(text: string): seq<Utf8.uint8>
  {
    Utf8.Encode(text) + [0]
  }

  /** The payload ends in NUL, and the bytes before it decode back to the command text. */
  lemma CommandPayloadDecodes(text: string)
    ensures var p := CommandPayload(text);
      |p| > 0 && p[|p| - 1] == 0 && Utf8.Decode(p[..|p| - 1]) == Some(text)
  {
    var p := CommandPayload(text);
    assert p[..|p| - 1] == Utf8.Encode(text);
    Utf8.DecodeEncode(text);
  }

  function Timestamps(frames: seq<FP.DataFrame>): (r: seq<int>)
    ensures |r| == |frames| && forall i :: 0 <= i < |frames| ==> r[i] == frames[i].timestampMs
  {
    seq(|frames|, i requires 0 <= i < |frames| => frames[i].timestampMs)
  }

  function Millivolts(frames: seq<FP.DataFrame>): (r: seq<int>)
    ensures |r| == |frames| && forall i :: 0 <= i < |frames| ==> r[i] == frames[i].millivolts
  {
    seq(|frames|, i requires 0 <= i < |frames| => frames[i].millivolts)
  }

  function Payloads(frames: seq<FP.ManagementFrame>): (r: seq<string>)
    ensures |r| == |frames| && forall i :: 0 <= i < |frames| ==> r[i] == frames[i].payload
  {
    seq(|frames|, i requires 0 <= i < |frames| => frames[i].payload)
  }

  /** The bounds of NumPy's `uint64` and `int32`. */
  const UInt64Limit: int := 0x1_0000_0000_0000_0000
  const Int32Min: int := -0x8000_0000
  const Int32Max: int := 0x7FFF_FFFF

  /**
   * `np.asarray(ts, dtype=np.uint64)` and `np.asarray(vs, dtype=np.int32)`
   * both succeed: every timestamp fits an unsigned 64-bit integer and every
   * value a signed 32-bit one. Otherwise NumPy raises `OverflowError`.
   */
  predicate CastsFit(ts: seq<int>, vs: seq<int>)
  {
    && (forall i :: 0 <= i < |ts| ==> 0 <= ts[i] < UInt64Limit)
    && (forall i :: 0 <= i < |vs| ==> Int32Min <= vs[i] <= Int32Max)
  }

  /** The samples a tick keeps after backpressure, as two columns. */
  function KeptTimestamps(data: seq<FP.DataFrame>, maxSeconds: real): seq<int>
  {
    Timestamps(data)[DropCount(Timestamps(data), maxSeconds)..]
  }

  function KeptMillivolts(data: seq<FP.DataFrame>, maxSeconds: real): seq<int>
  {
    Millivolts(data)[DropCount(Timestamps(data), maxSeconds)..]
  }

  /**
   * The casts of a tick raise: data frames were drained and a kept sample does
   * not fit. The batch loop catches only `CancelledError`, so this ends the
   * batch task.
   */
  predicate CastRaises(data: seq<FP.DataFrame>, maxSeconds: real)
  {
    |data| > 0 && !CastsFit(KeptTimestamps(data, maxSeconds), KeptMillivolts(data, maxSeconds))
  }

  /** The signals one tick of the batch loop emits for the frames it drained. */
  function TickEvents(taken: FP.Taken, maxSeconds: real): seq<Event>
  {
    MgmtEvents(taken.mgmt) + DataEvents(taken.data, maxSeconds)
  }

  function MgmtEvents(mgmt: seq<FP.ManagementFrame>): seq<Event>
  {
    if |mgmt| > 0 then [ManagementFramesReceived(Payloads(mgmt))] else []
  }

  function DropEvents(d: nat): seq<Event>
  {
    if d > 0 then [SamplesDropped(d)] else []
  }

  /** The drop signal, then the batch unless the casts raise. */
  function DataEvents(data: seq<FP.DataFrame>, maxSeconds: real): seq<Event>
  {
    if |data| == 0 then []
    else
      var ts, vs := KeptTimestamps(data, maxSeconds), KeptMillivolts(data, maxSeconds);
      DropEvents(DropCount(Timestamps(data), maxSeconds)) + (if CastsFit(ts, vs) then [DataBatch(ts, vs)] else [])
  }

  /**
   * A tick emits one batch exactly when data frames were drained and the kept
   * samples fit the NumPy types; the batch is the newest part of the frames,
   * timestamps and values still paired, and together with the drop count it
   * accounts for every drained frame. When the casts raise, the drop signal
   * is the last thing the tick emits.
   */
  lemma TickEventsAccount(taken: FP.Taken, maxSeconds: real)
    ensures var ev := TickEvents(taken, maxSeconds);
      && (|taken.data| == 0 || CastRaises(taken.data, maxSeconds) <==> forall e :: e in ev ==> !e.DataBatch?)
      && (|taken.mgmt| > 0 <==> |ev| > 0 && ev[0] == ManagementFramesReceived(Payloads(taken.mgmt)))
      && (CastRaises(taken.data, maxSeconds) ==>
            ev == MgmtEvents(taken.mgmt) + DropEvents(DropCount(Timestamps(taken.data), maxSeconds)))
      && (|taken.data| > 0 && !CastRaises(taken.data, maxSeconds) ==>
            var b := ev[|ev| - 1];
            var d := DropCount(Timestamps(taken.data), maxSeconds);
            && b.DataBatch?
            && d < |taken.data|
            && |b.timestamps| == |b.millivolts| == |taken.data| - d
            && CastsFit(b.timestamps, b.millivolts)
            && forall i :: 0 <= i < |b.timestamps| ==>
                 FP.DataFrame(b.timestamps[i], b.millivolts[i]) == taken.data[d + i])
  {
    var ev := TickEvents(taken, maxSeconds);
    var m, de := MgmtEvents(taken.mgmt), DataEvents(taken.data, maxSeconds);
    assert ev == m + de;
    if |taken.data| > 0 {
      KeptPairs(taken.data, maxSeconds);
      var d := DropCount(Timestamps(taken.data), maxSeconds);
      if !CastRaises(taken.data, maxSeconds) {
        assert de == DropEvents(d) + [DataBatch(KeptTimestamps(taken.data, maxSeconds), KeptMillivolts(taken.data, maxSeconds))];
        assert ev[|ev| - 1] == de[|de| - 1];
        assert ev[|ev| - 1] in ev;
      } else {
        assert de == DropEvents(d);
      }
    }
    forall e | e in ev && e.DataBatch?
      ensures |taken.data| > 0 && !CastRaises(taken.data, maxSeconds)
    {
      assert e in m || e in de;
    }
  }

  /** Backpressure keeps a non-empty, paired suffix of the drained frames. */
  lemma KeptPairs(data: seq<FP.DataFrame>, maxSeconds: real)
    requires |data| > 0
    ensures var d := DropCount(Timestamps(data), maxSeconds);
      && d < |data|
      && |KeptTimestamps(data, maxSeconds)| == |KeptMillivolts(data, maxSeconds)| == |data| - d
      && forall i :: 0 <= i < |data| - d ==>
           FP.DataFrame(KeptTimestamps(data, maxSeconds)[i], KeptMillivolts(data, maxSeconds)[i]) == data[d + i]
  {
    var ts := Timestamps(data);
    if DropCount(ts, maxSeconds) > 0 {
      DropCountOverBudget(ts, maxSeconds);
    }
  }

  /**
   * The line `1,3000000000` is a data frame, but its value does not fit
   * `int32`: the tick that drains it emits no batch and ends the batch task.
   */
  lemma WideValueStopsBatching(taken: FP.Taken, maxSeconds: real)
    requires taken.data == [FP.DataFrame(1, 3000000000)]
    ensures CastRaises(taken.data, maxSeconds)
    ensures forall e :: e in TickEvents(taken, maxSeconds) ==> !e.DataBatch?
  {
    assert DropCount(Timestamps(taken.data), maxSeconds) == 0;
    assert KeptMillivolts(taken.data, maxSeconds)[0] == 3000000000;
  }

  // ---------------------------------------------------------------------------
  // Commands for engineering controls

  datatype ControlKey =
    | InputResistance | Pga1 | Pga2 | SignalChainAmplification | SignalChainOffset
    | DdsAmplification | DdsOffset
    | DigipotChannel0 | DigipotChannel1 | DigipotChannel2 | DigipotChannel3
    | ExcitationFrequency

  /** A control value as the GUI passes it. */
  datatype Value = Text(text: string) | Integer(number: int) | Float(magnitude: real)

  /** The command for a key, none for an unknown value, or the `ValueError` of formatting text with `.3f`. */
  datatype CommandResult = Command(command: string) | NoCommand | FormatError

  const ResistanceConversion: map<string, string> := map[
    "100K" := "M:0", "1M" := "M:1", "10M" := "M:2", "100M" := "M:3",
    "1G" := "M:6", "10G" := "M:4", "SR" := "M:5", "Loopback" := "M:7"]

  const FrequencyConversion: map<string, string> := map["1000" := "SDDS:1000", "1" := "SDDS:1", "0" := "DDSOFF"]

  /** `table.get(value)`: only a string key can match. */
  function Lookup(table: map<string, string>, v: Value): CommandResult
  {
    if v.Text? && v.text in table then Command(table[v.text]) else NoCommand
  }

  /** `f"{value}"`; how a float is written is left to `floatText`. */
  function Str(v: Value, floatText: real -> string): string
  {
    match v
    case Text(s) => s
    case Integer(n) => IntToDecimal(n)
    case Float(r) => floatText(r)
  }

  /** `f"{value:.3f}"`, whose digits are left to `fixed3`; a string has no `f` format. */
  function Fixed3(prefix: string, v: Value, fixed3: real -> string): CommandResult
  {
    match v
    case Text(_) => FormatError
    case Integer(n) => Command(prefix + fixed3(n as real))
    case Float(r) => Command(prefix + fixed3(r))
  }

  /** `write_command_from_key`. */
  function CommandFromKey(key: ControlKey, v: Value, floatText: real -> string, fixed3: real -> string): CommandResult
  {
    match key
    case InputResistance => Lookup(ResistanceConversion, v)
    case Pga1 => Command("P1:" + Str(v, floatText))
    case Pga2 => Command("P2:" + Str(v, floatText))
    case SignalChainAmplification => Command("SCA:" + Str(v, floatText))
    case SignalChainOffset => Fixed3("SCO:", v, fixed3)
    case DdsAmplification => Fixed3("DDSA:", v, fixed3)
    case DdsOffset => Fixed3("DDSO:", v, fixed3)
    case DigipotChannel0 => Command("D0:" + Str(v, floatText))
    case DigipotChannel1 => Command("D1:" + Str(v, floatText))
    case DigipotChannel2 => Command("D2:" + Str(v, floatText))
    case DigipotChannel3 => Command("D3:" + Str(v, floatText))
    case ExcitationFrequency => Lookup(FrequencyConversion, v)
  }

  /** The mux channel each resistance command selects. */
  const MuxChannel: map<string, nat> := map[
    "M:0" := 0, "M:1" := 1, "M:2" := 2, "M:3" := 3, "M:4" := 4, "M:5" := 5, "M:6" := 6, "M:7" := 7]

  /** The resistance name behind each mux command. */
  const ResistanceName: map<string, string> := map[
    "M:0" := "100K", "M:1" := "1M", "M:2" := "10M", "M:3" := "100M",
    "M:4" := "10G", "M:5" := "SR", "M:6" := "1G", "M:7" := "Loopback"]

  /** Every resistance command is a mux command whose name leads back to the resistance. */
  lemma ResistanceNamed(a: string)
    requires a in ResistanceConversion
    ensures ResistanceConversion[a] in MuxChannel && ResistanceConversion[a] in ResistanceName
    ensures ResistanceName[ResistanceConversion[a]] == a
  {
  }

  /** Every mux command is the resistance command of its name. */
  lemma MuxNamed(c: string)
    requires c in MuxChannel
    ensures c in ResistanceName && ResistanceName[c] in ResistanceConversion
    ensures ResistanceConversion[ResistanceName[c]] == c && MuxChannel[c] < 8
  {
  }

  /** Each named resistance selects its own mux channel, and every channel 0..7 is named once. */
  lemma ResistanceTableBijective()
    ensures forall a :: a in ResistanceConversion ==> ResistanceConversion[a] in MuxChannel
    ensures forall a, b :: a in ResistanceConversion && b in ResistanceConversion && a != b ==>
      ResistanceConversion[a] != ResistanceConversion[b]
    ensures forall c :: c in MuxChannel ==> c in ResistanceConversion.Values && MuxChannel[c] < 8
  {
    forall a | a in ResistanceConversion
      ensures ResistanceConversion[a] in MuxChannel && ResistanceName[ResistanceConversion[a]] == a
    {
      ResistanceNamed(a);
    }
    forall c | c in MuxChannel ensures c in ResistanceConversion.Values && MuxChannel[c] < 8 {
      MuxNamed(c);
    }
  }

  /** A resistance command exists exactly for the eight names of the table. */
  lemma ResistanceCommands(v: Value, floatText: real -> string, fixed3: real -> string)
    ensures var r := CommandFromKey(InputResistance, v, floatText, fixed3);
      && (r.Command? <==> v.Text? && v.text in ResistanceConversion)
      && (r.Command? ==> r.command in MuxChannel)
  {
    ResistanceTableBijective();
  }

  /** Frequency `"0"` turns the generator off; `"1000"` and `"1"` set it; anything else, including the integer 1000, gives no command. */
  lemma FrequencyCommands(v: Value, floatText: real -> string, fixed3: real -> string)
    ensures var r := CommandFromKey(ExcitationFrequency, v, floatText, fixed3);
      && (v == Text("0") ==> r == Command("DDSOFF"))
      && (v == Text("1000") ==> r == Command("SDDS:1000"))
      && (v == Text("1") ==> r == Command("SDDS:1"))
      && (r.Command? <==> v.Text? && v.text in {"0", "1", "1000"})
  {
  }

  /** The fields a command or a batch tick leaves alone, gathered for frame conditions. */
  datatype Control = Control(target: Option<string>, notifyUuid: Option<string>, writeUuid: Option<string>, sticky: bool)
  datatype Tunables = Tunables(batchIntervalMs: int, dropPolicy: DropPolicy, maxBufferSeconds: real, defaultWriteSync: bool)

  /** The target address and both UUIDs are set and non-empty. */
  predicate Ready(c: Control)
  {
    Truthy(c.target) && Truthy(c.notifyUuid) && Truthy(c.writeUuid)
  }

  /** `_sequence_preempted`: the user gave up on, or switched away from, the address a sequence started with. */
  predicate Preempted(c: Control, snapshot: string)
  {
    !c.sticky || c.target.None? || c.target.value != snapshot
  }

  /** The control fields after `call`. */
  function AfterCall(c: Control, call: ControlCall): Control
  {
    match call
    case NoCall => c
    case ConnectToCall(a, n, w) => Control(Some(a), Some(n), Some(w), true)
    case DisconnectFromCall => c.(sticky := false)
  }

  /** The signals of `_one_attempt`: the missing-target error, the failure, or nothing. */
  function AttemptEvents(ready: bool, outcome: Attempt): seq<Event>
  {
    if !ready then [ErrorOccurred("Missing BLE target address or UUIDs", 0)]
    else if outcome.Fails? then [ErrorOccurred("BLE connection attempt failed: " + outcome.reason, 0)]
    else []
  }

  /** What one reconnect round does: whether it attempted, how it ended, the controls it leaves, its signals. */
  datatype RoundPlay = RoundPlay(attempted: bool, end: RoundEnd, control: Control, events: seq<Event>)

  /**
   * One round of `_begin_reconnect`'s loop from control fields `c`: the
   * preemption test, RECONNECTING, the sleep (during which `duringSleep`
   * lands), the preemption test again, the attempt (during whose connection
   * `duringAttempt` lands), the preemption test once more, and CONNECTED on
   * success.
   */
  function RoundSpec(c: Control, snapshot: string, round: Round): RoundPlay
  {
    if Preempted(c, snapshot) then RoundPlay(false, RoundPreempted, c, [])
    else
      var c1 := AfterCall(c, round.duringSleep);
      if Preempted(c1, snapshot) then RoundPlay(false, RoundPreempted, c1, [StateChanged(Reconnecting)])
      else
        var ready := Ready(c1);
        var c2 := if ready then AfterCall(c1, round.duringAttempt) else c1;
        var end := if Preempted(c2, snapshot) then RoundPreempted
                   else if ready && round.outcome == Succeeds then RoundSucceeded
                   else RoundFailed;
        RoundPlay(true, end, c2,
          [StateChanged(Reconnecting)] + AttemptEvents(ready, round.outcome) + (if end == RoundSucceeded then [StateChanged(Connected)] else []))
  }

  /** Rounds played so far: the attempts made, how the last round ended unless every round failed, the controls, the signals. */
  datatype RoundsPlay = RoundsPlay(attempts: nat, end: Option<RoundEnd>, control: Control, events: seq<Event>)

  /** The rounds of `_begin_reconnect`'s loop from control fields `c`, played in order until one does not fail. */
  function PlayRounds(c: Control, snapshot: string, rounds: seq<Round>): RoundsPlay
    decreases |rounds|
  {
    if |rounds| == 0 then RoundsPlay(0, None, c, [])
    else
      var before := PlayRounds(c, snapshot, rounds[..|rounds| - 1]);
      if before.end.Some? then before
      else
        var r := RoundSpec(before.control, snapshot, rounds[|rounds| - 1]);
        RoundsPlay(before.attempts + (if r.attempted then 1 else 0), if r.end == RoundFailed then None else Some(r.end),
          r.control, before.events + r.events)
  }

  /** How a round's end shows in the rest of its play. */
  lemma RoundEnds(c: Control, snapshot: string, round: Round)
    ensures var r := RoundSpec(c, snapshot, round);
      && (r.end == RoundFailed ==> r.attempted)
      && (r.end == RoundPreempted ==> Preempted(r.control, snapshot))
      && (r.end == RoundSucceeded ==>
            && r.attempted && round.outcome == Succeeds && Ready(AfterCall(c, round.duringSleep))
            && |r.events| > 0 && r.events[|r.events| - 1] == StateChanged(Connected))
  {
  }

  /** Playing one more round after rounds that all failed. */
  lemma PlayRoundsSnoc(c: Control, snapshot: string, rounds: seq<Round>, i: nat)
    requires i < |rounds| && PlayRounds(c, snapshot, rounds[..i]).end.None?
    ensures var before := PlayRounds(c, snapshot, rounds[..i]);
      var r := RoundSpec(before.control, snapshot, rounds[i]);
      PlayRounds(c, snapshot, rounds[..i + 1])
        == RoundsPlay(before.attempts + (if r.attempted then 1 else 0), if r.end == RoundFailed then None else Some(r.end),
             r.control, before.events + r.events)
  {
    assert rounds[..i + 1][..i] == rounds[..i] && rounds[..i + 1][i] == rounds[i];
  }

  /** Once a round has not failed, later rounds change nothing. */
  lemma {:induction false} PlayRoundsStops(c: Control, snapshot: string, rounds: seq<Round>, k: nat, n: nat)
    requires k <= n <= |rounds| && PlayRounds(c, snapshot, rounds[..k]).end.Some?
    ensures PlayRounds(c, snapshot, rounds[..n]) == PlayRounds(c, snapshot, rounds[..k])
    decreases n
  {
    if n > k {
      PlayRoundsStops(c, snapshot, rounds, k, n - 1);
      assert rounds[..n][..n - 1] == rounds[..n - 1];
    }
  }

  /**
   * With no interfering call, a sequence for the current sticky target is never
   * preempted and leaves the controls alone; with the UUIDs set, every round
   * attempts, and the rounds run out exactly when every attempt fails.
   */
  lemma {:induction false} QuietRounds(c: Control, snapshot: string, rounds: seq<Round>)
    requires Quiet(rounds) && c.target == Some(snapshot) && c.sticky
    ensures var p := PlayRounds(c, snapshot, rounds);
      && p.end != Some(RoundPreempted) && p.end != Some(RoundFailed) && p.control == c
      && p.attempts <= |rounds| && (p.end.None? ==> p.attempts == |rounds|)
      && (p.end == Some(RoundSucceeded) ==> 1 <= p.attempts && rounds[p.attempts - 1].outcome == Succeeds)
    decreases |rounds|
  {
    if |rounds| > 0 {
      var n := |rounds| - 1;
      QuietPrefixOf(rounds, n);
      QuietRounds(c, snapshot, rounds[..n]);
      if PlayRounds(c, snapshot, rounds[..n]).end.None? {
        QuietRound(c, snapshot, rounds[n]);
      } else {
        QuietRoundsKept(rounds, n, n);
      }
    }
  }

  /** With the UUIDs set as well, the rounds run out exactly when every attempt fails, and a success follows only failures. */
  lemma {:induction false} QuietReadyRounds(c: Control, snapshot: string, rounds: seq<Round>)
    requires Quiet(rounds) && c.target == Some(snapshot) && c.sticky && Ready(c)
    ensures var p := PlayRounds(c, snapshot, rounds);
      && (p.end.None? <==> forall j :: 0 <= j < |rounds| ==> rounds[j].outcome.Fails?)
      && (p.end == Some(RoundSucceeded) ==> forall j :: 0 <= j < |rounds| && j < p.attempts - 1 ==> rounds[j].outcome.Fails?)
    decreases |rounds|
  {
    QuietRounds(c, snapshot, rounds);
    if |rounds| > 0 {
      var n := |rounds| - 1;
      QuietPrefixOf(rounds, n);
      QuietRounds(c, snapshot, rounds[..n]);
      QuietReadyRounds(c, snapshot, rounds[..n]);
      QuietRoundsKept(rounds, n, n);
      if PlayRounds(c, snapshot, rounds[..n]).end.None? {
        QuietRound(c, snapshot, rounds[n]);
      }
    }
  }

  lemma QuietPrefixOf(rounds: seq<Round>, n: nat)
    requires n < |rounds| && Quiet(rounds)
    ensures Quiet(rounds[..n]) && rounds[n].duringSleep == NoCall && rounds[n].duringAttempt == NoCall
  {
    assert forall j :: 0 <= j < n ==> rounds[..n][j] == rounds[j];
  }

  /** One round with no interfering call, for the current sticky target: it attempts, keeps the controls, and succeeds exactly when ready and connecting succeeds. */
  lemma QuietRound(c: Control, snapshot: string, round: Round)
    requires round.duringSleep == NoCall && round.duringAttempt == NoCall && c.target == Some(snapshot) && c.sticky
    ensures var r := RoundSpec(c, snapshot, round);
      && r.attempted && r.control == c
      && r.end == (if Ready(c) && round.outcome == Succeeds then RoundSucceeded else RoundFailed)
  {
  }

  /** A prefix of the rounds sees the same rounds. */
  lemma QuietRoundsKept(rounds: seq<Round>, n: nat, k: nat)
    requires k <= n <= |rounds|
    ensures forall j :: 0 <= j < k ==> rounds[..n][j] == rounds[j]
  {
  }

  /** Every signal that is not RECONNECTING directly follows a RECONNECTING. */
  predicate Announced(trace: seq<Event>)
  {
    forall j :: 0 <= j < |trace| && trace[j] != StateChanged(Reconnecting) ==> 0 < j && trace[j - 1] == StateChanged(Reconnecting)
  }

  /** The number of RECONNECTING signals in a trace. */
  function ReconnectingCount(trace: seq<Event>): nat
    decreases |trace|
  {
    if |trace| == 0 then 0
    else ReconnectingCount(trace[..|trace| - 1]) + (if trace[|trace| - 1] == StateChanged(Reconnecting) then 1 else 0)
  }

  lemma {:induction false} ReconnectingCountAppend(a: seq<Event>, b: seq<Event>)
    ensures ReconnectingCount(a + b) == ReconnectingCount(a) + ReconnectingCount(b)
    decreases |b|
  {
    if |b| > 0 {
      var b' := b[..|b| - 1];
      assert (a + b)[..|a + b| - 1] == a + b';
      ReconnectingCountAppend(a, b');
    } else {
      assert a + b == a;
    }
  }

  lemma AnnouncedAppend(a: seq<Event>, b: seq<Event>)
    requires Announced(a) && Announced(b)
    ensures Announced(a + b)
  {
    forall j | 0 <= j < |a + b| && (a + b)[j] != StateChanged(Reconnecting)
      ensures 0 < j && (a + b)[j - 1] == StateChanged(Reconnecting)
    {
      if j >= |a| {
        assert b[j - |a|] == (a + b)[j];
        if j > |a| {
          assert (a + b)[j - 1] == b[j - |a| - 1];
        }
      } else {
        assert (a + b)[j] == a[j];
      }
    }
  }

  /**
   * RECONNECTING is signalled before each attempt of the reconnect loop:
   * every other signal of the rounds directly follows a RECONNECTING, and
   * there are at least as many RECONNECTING signals as attempts.
   */
  lemma {:induction false} AttemptsAnnounced(c: Control, snapshot: string, rounds: seq<Round>)
    ensures Announced(PlayRounds(c, snapshot, rounds).events)
    ensures PlayRounds(c, snapshot, rounds).attempts <= ReconnectingCount(PlayRounds(c, snapshot, rounds).events)
    decreases |rounds|
  {
    if |rounds| > 0 {
      var before := PlayRounds(c, snapshot, rounds[..|rounds| - 1]);
      AttemptsAnnounced(c, snapshot, rounds[..|rounds| - 1]);
      if before.end.None? {
        var r := RoundSpec(before.control, snapshot, rounds[|rounds| - 1]);
        RoundAnnounced(before.control, snapshot, rounds[|rounds| - 1]);
        AnnouncedAppend(before.events, r.events);
        ReconnectingCountAppend(before.events, r.events);
      }
    }
  }

  /** One round's signals start with RECONNECTING whenever it has any, and an attempt always has them. */
  lemma RoundAnnounced(c: Control, snapshot: string, round: Round)
    ensures var r := RoundSpec(c, snapshot, round);
      Announced(r.events) && (r.attempted ==> ReconnectingCount(r.events) >= 1)
  {
    var r := RoundSpec(c, snapshot, round);
    if r.attempted {
      ReconnectingCountAppend([StateChanged(Reconnecting)], r.events[1..]);
      assert [StateChanged(Reconnecting)] + r.events[1..] == r.events;
      assert ReconnectingCount([StateChanged(Reconnecting)]) == 1 by {
        assert [StateChanged(Reconnecting)][..0] == [];
      }
    }
  }

  class Handler {
    var batchIntervalMs: int
    var dropPolicy: DropPolicy
    var maxBufferSeconds: real
    const reconnectBackoff: seq<real>
    var defaultWriteSync: bool

    var state: ConnectionState
    var target: Option<string>
    var notifyUuid: Option<string>
    var writeUuid: Option<string>
    var sticky: bool

    /** Whether a reconnect task, and a batch task, is scheduled and not done. */
    var reconnectTask: bool
    var batchTask: bool

    var device: DeviceLink
    var parser: FP.BLEFrameParser

    /** Every signal emitted so far, and every GATT write issued. */
    var events: seq<Event>
    var writes: seq<GattWrite>

    function ControlFields(): Control
      reads this
    {
      Control(target, notifyUuid, writeUuid, sticky)
    }

    function TunableFields(): Tunables
      reads this
    {
      Tunables(batchIntervalMs, dropPolicy, maxBufferSeconds, defaultWriteSync)
    }

    constructor(batchIntervalMs: int, dropPolicy: DropPolicy, maxBufferSeconds: real, reconnectBackoff: seq<real>, defaultWriteSync: bool)
      ensures TunableFields() == Tunables(batchIntervalMs, dropPolicy, maxBufferSeconds, defaultWriteSync)
      ensures this.reconnectBackoff == reconnectBackoff
      ensures state == Idle && ControlFields() == Control(None, Some(NotifyCharacteristicUuid), Some(WriteCharacteristicUuid), false)
      ensures !reconnectTask && !batchTask && device == NoDevice
      ensures fresh(parser) && parser.buffer == [] && events == [] && writes == []
    {
      this.batchIntervalMs := batchIntervalMs;
      this.dropPolicy := dropPolicy;
      this.maxBufferSeconds := maxBufferSeconds;
      this.reconnectBackoff := reconnectBackoff;
      this.defaultWriteSync := defaultWriteSync;
      state := Idle;
      target := None;
      notifyUuid := Some(NotifyCharacteristicUuid);
      writeUuid := Some(WriteCharacteristicUuid);
      sticky := false;
      reconnectTask := false;
      batchTask := false;
      device := NoDevice;
      parser := new FP.BLEFrameParser();
      events := [];
      writes := [];
    }

    predicate SequencePreempted(snapshot: string)
      reads this
    {
      Preempted(ControlFields(), snapshot)
    }

    predicate HasTargetAndUuids()
      reads this
    {
      Ready(ControlFields())
    }

    // ---- Control slots ----

    /** `connectTo`: a sticky connection to `address`; the connect sequence is then run separately. */
    method ConnectTo(address: string, notify: string, write: string)
      modifies this
      ensures ControlFields() == Control(Some(address), Some(notify), Some(write), true)
      ensures state == old(state) && TunableFields() == old(TunableFields()) && reconnectTask == old(reconnectTask) && batchTask == old(batchTask)
      ensures device == old(device) && parser == old(parser) && events == old(events) && writes == old(writes)
    {
      target := Some(address);
      notifyUuid := Some(notify);
      writeUuid := Some(write);
      sticky := true;
    }

    /** `disconnectFrom`: stop being sticky; the disconnect sequence is then run separately. */
    method DisconnectFrom()
      modifies this
      ensures ControlFields() == old(ControlFields()).(sticky := false)
      ensures state == old(state) && TunableFields() == old(TunableFields()) && reconnectTask == old(reconnectTask) && batchTask == old(batchTask)
      ensures device == old(device) && parser == old(parser) && events == old(events) && writes == old(writes)
    {
      sticky := false;
    }

    method ApplyCall(call: ControlCall)
      modifies this
      ensures call.NoCall? ==> ControlFields() == old(ControlFields())
      ensures call.ConnectToCall? ==> ControlFields() == Control(Some(call.address), Some(call.notifyUuid), Some(call.writeUuid), true)
      ensures call.DisconnectFromCall? ==> ControlFields() == old(ControlFields()).(sticky := false)
      ensures ControlFields() == AfterCall(old(ControlFields()), call)
      ensures state == old(state) && TunableFields() == old(TunableFields()) && reconnectTask == old(reconnectTask) && batchTask == old(batchTask)
      ensures device == old(device) && parser == old(parser) && events == old(events) && writes == old(writes)
    {
      match call
      case NoCall =>
      case ConnectToCall(a, n, w) => ConnectTo(a, n, w);
      case DisconnectFromCall => DisconnectFrom();
    }

    // ---- Tunables ----

    method SetBatchInterval(ms: int)
      modifies this
      ensures batchIntervalMs == (if ms < 1 then 1 else ms) && batchIntervalMs >= 1
      ensures TunableFields() == old(TunableFields()).(batchIntervalMs := batchIntervalMs)
    {
      batchIntervalMs := if ms < 1 then 1 else ms;
    }

    method SetDropPolicy(policy: string)
      modifies this
      ensures dropPolicy == ParseDropPolicy(policy)
      ensures TunableFields() == old(TunableFields()).(dropPolicy := dropPolicy)
    {
      dropPolicy := ParseDropPolicy(policy);
    }

    method SetMaxBufferedSeconds(seconds: real)
      modifies this
      ensures maxBufferSeconds == (if seconds < 0.1 then 0.1 else seconds) && maxBufferSeconds >= 0.1
      ensures TunableFields() == old(TunableFields()).(maxBufferSeconds := maxBufferSeconds)
    {
      maxBufferSeconds := if seconds < 0.1 then 0.1 else seconds;
    }

    method SetWriteModeSync(sync: bool)
      modifies this
      ensures TunableFields() == old(TunableFields()).(defaultWriteSync := sync)
    {
      defaultWriteSync := sync;
    }

    // ---- State helpers ----

    /** `_set_state` emits on every call, even when the state does not change. */
    method SetState(s: ConnectionState)
      modifies this
      ensures state == s && events == old(events) + [StateChanged(s)]
      ensures ControlFields() == old(ControlFields()) && TunableFields() == old(TunableFields()) && reconnectTask == old(reconnectTask) && batchTask == old(batchTask)
      ensures device == old(device) && parser == old(parser) && writes == old(writes)
    {
      state := s;
      events := events + [StateChanged(s)];
    }

    method EmitError(message: string)
      modifies this
      ensures events == old(events) + [ErrorOccurred(message, 0)]
      ensures state == old(state) && ControlFields() == old(ControlFields()) && TunableFields() == old(TunableFields()) && reconnectTask == old(reconnectTask) && batchTask == old(batchTask)
      ensures device == old(device) && parser == old(parser) && writes == old(writes)
    {
      events := events + [ErrorOccurred(message, 0)];
    }

    // ---- Sequences ----

    /**
     * `_one_attempt`: without a target and UUIDs it reports the fact and fails
     * at once, awaiting nothing. Otherwise it captures the address, creates
     * the device for it and awaits the connection, during which the control
     * call `during` may land; connect-and-subscribe then ends as `outcome`,
     * and a failure is reported and closes the device.
     */
    method OneAttempt(during: ControlCall, outcome: Attempt) returns (ok: bool)
      modifies this
      ensures ok <==> old(HasTargetAndUuids()) && outcome == Succeeds
      ensures events == old(events) + AttemptEvents(old(HasTargetAndUuids()), outcome)
      ensures ControlFields() == if old(HasTargetAndUuids()) then AfterCall(old(ControlFields()), during) else old(ControlFields())
      ensures device == if !old(HasTargetAndUuids()) then old(device) else if ok then Device(old(target).value, true) else NoDevice
      ensures state == old(state) && TunableFields() == old(TunableFields()) && reconnectTask == old(reconnectTask) && batchTask == old(batchTask)
      ensures parser == old(parser) && writes == old(writes)
    {
      if !HasTargetAndUuids() {
        EmitError("Missing BLE target address or UUIDs");
        return false;
      }
      var address := target.value;
      device := Device(address, false);
      ApplyCall(during);
      match outcome
      case Succeeds =>
        device := Device(address, true);
        ok := true;
      case Fails(reason) =>
        EmitError("BLE connection attempt failed: " + reason);
        device := NoDevice;
        ok := false;
    }

    /**
     * `_connect_sequence` up to its attempt: cancel the running tasks and close
     * the device, then fail for want of a target, or remember the target
     * address and go CONNECTING.
     */
    method ConnectBegin() returns (snapshot: Option<string>)
      modifies this
      ensures snapshot.None? <==> !old(HasTargetAndUuids())
      ensures !reconnectTask && !batchTask && device == NoDevice && ControlFields() == old(ControlFields())
      ensures snapshot.None? ==>
        state == Error && events == old(events) + [ErrorOccurred("Cannot connect: no target address or UUIDs set", 0), StateChanged(Error)]
      ensures snapshot.Some? ==> snapshot == old(target) && state == Connecting && events == old(events) + [StateChanged(Connecting)]
      ensures TunableFields() == old(TunableFields()) && parser == old(parser) && writes == old(writes)
    {
      reconnectTask := false;
      batchTask := false;
      device := NoDevice;
      if !HasTargetAndUuids() {
        EmitError("Cannot connect: no target address or UUIDs set");
        SetState(Error);
        return None;
      }
      snapshot := target;
      SetState(Connecting);
    }

    /**
     * `_connect_sequence` after its attempt: a preempted sequence changes
     * nothing; otherwise a failed attempt schedules a reconnect (unless one is
     * already running) and a successful one starts batching and goes CONNECTED.
     */
    method ConnectFinish(snapshot: string, ok: bool) returns (finish: ConnectEnd)
      modifies this
      ensures finish == ConnectPreempted <==> old(SequencePreempted(snapshot))
      ensures finish == ConnectPreempted ==>
        state == old(state) && reconnectTask == old(reconnectTask) && batchTask == old(batchTask) && events == old(events)
      ensures finish == ReconnectScheduled <==> !old(SequencePreempted(snapshot)) && !ok
      ensures finish == ReconnectScheduled ==>
        state == old(state) && reconnectTask && batchTask == old(batchTask) && events == old(events)
      ensures finish == ConnectOk <==> !old(SequencePreempted(snapshot)) && ok
      ensures finish == ConnectOk ==>
        state == Connected && reconnectTask == old(reconnectTask) && batchTask && events == old(events) + [StateChanged(Connected)]
      ensures finish != MissingTarget
      ensures ControlFields() == old(ControlFields()) && TunableFields() == old(TunableFields())
      ensures device == old(device) && parser == old(parser) && writes == old(writes)
    {
      if SequencePreempted(snapshot) {
        return ConnectPreempted;
      }
      if !ok {
        // Not preempted, so the handler is sticky with a target: the source's
        // fallback to DISCONNECTED on this path cannot be taken.
        if !reconnectTask {
          reconnectTask := true;
        }
        return ReconnectScheduled;
      }
      batchTask := true;
      SetState(Connected);
      return ConnectOk;
    }

    /**
     * `_connect_sequence` whole, with `call` landing while the connection is
     * awaited: the attempt uses the address captured before the call, and the
     * preemption test after it sees the call.
     */
    method ConnectSequence(call: ControlCall, outcome: Attempt) returns (finish: ConnectEnd)
      modifies this
      ensures finish == MissingTarget <==> !old(HasTargetAndUuids())
      ensures finish == MissingTarget ==>
        && state == Error && device == NoDevice && !reconnectTask && !batchTask && ControlFields() == old(ControlFields())
        && events == old(events) + [ErrorOccurred("Cannot connect: no target address or UUIDs set", 0), StateChanged(Error)]
      ensures finish != MissingTarget ==>
        && ControlFields() == AfterCall(old(ControlFields()), call)
        && device == (if outcome == Succeeds then Device(old(target).value, true) else NoDevice)
        && (finish == ConnectPreempted <==> SequencePreempted(old(target).value))
        && (finish == ConnectOk <==> !SequencePreempted(old(target).value) && outcome == Succeeds)
        && (finish == ReconnectScheduled <==> !SequencePreempted(old(target).value) && outcome.Fails?)
        && events == old(events) + [StateChanged(Connecting)] + AttemptEvents(true, outcome)
                     + (if finish == ConnectOk then [StateChanged(Connected)] else [])
        && state == (if finish == ConnectOk then Connected else Connecting)
        && (reconnectTask <==> finish == ReconnectScheduled) && (batchTask <==> finish == ConnectOk)
      ensures finish != MissingTarget && call == NoCall && old(sticky) ==>
        (finish == ConnectOk <==> outcome == Succeeds) && (finish == ReconnectScheduled <==> outcome.Fails?)
      ensures TunableFields() == old(TunableFields()) && parser == old(parser) && writes == old(writes)
    {
      var snapshot := ConnectBegin();
      if snapshot.None? {
        return MissingTarget;
      }
      var ok := OneAttempt(call, outcome);
      finish := ConnectFinish(snapshot.value, ok);
    }

    /** `_disconnect_sequence`: cancel everything, close the device, install a fresh parser and forget the target. */
    method DisconnectSequence(reason: string)
      modifies this
      ensures state == Disconnected && ControlFields() == Control(None, None, None, false)
      ensures !reconnectTask && !batchTask && device == NoDevice && fresh(parser) && parser.buffer == []
      ensures events == old(events) + [StateChanged(Disconnected)] + (if |reason| > 0 then [ErrorOccurred(reason, 0)] else [])
      ensures TunableFields() == old(TunableFields()) && writes == old(writes)
    {
      ForgetLink();
      SetState(Disconnected);
      if |reason| > 0 {
        EmitError(reason);
      }
    }

    /** The first steps of `_disconnect_sequence`: the tasks are cancelled, the device closed, the parser replaced and the target cleared. */
    method ForgetLink()
      modifies this
      ensures ControlFields() == Control(None, None, None, false)
      ensures !reconnectTask && !batchTask && device == NoDevice && fresh(parser) && parser.buffer == []
      ensures state == old(state) && events == old(events) && TunableFields() == old(TunableFields()) && writes == old(writes)
    {
      reconnectTask := false;
      batchTask := false;
      device := NoDevice;
      parser := new FP.BLEFrameParser();
      target := None;
      notifyUuid := None;
      writeUuid := None;
      sticky := false;
    }

    /** One round of `_begin_reconnect`'s loop, as `RoundSpec` describes it; a success that is not preempted starts batching. */
    method ReconnectRound(snapshot: string, round: Round) returns (attempted: bool, finish: RoundEnd)
      modifies this
      ensures var r := RoundSpec(old(ControlFields()), snapshot, round);
        && attempted == r.attempted && finish == r.end && ControlFields() == r.control
        && events == old(events) + r.events
        && state == (if finish == RoundSucceeded then Connected else if r.events == [] then old(state) else Reconnecting)
      ensures batchTask == (old(batchTask) || finish == RoundSucceeded)
      ensures var c1 := AfterCall(old(ControlFields()), round.duringSleep);
        device == if attempted && Ready(c1) then (if round.outcome == Succeeds then Device(snapshot, true) else NoDevice) else old(device)
      ensures TunableFields() == old(TunableFields()) && parser == old(parser) && writes == old(writes)
      ensures reconnectTask == old(reconnectTask)
    {
      if SequencePreempted(snapshot) {
        return false, RoundPreempted;
      }
      SetState(Reconnecting);
      ApplyCall(round.duringSleep);
      if SequencePreempted(snapshot) {
        return false, RoundPreempted;
      }
      var ok := OneAttempt(round.duringAttempt, round.outcome);
      if SequencePreempted(snapshot) {
        return true, RoundPreempted;
      }
      if ok {
        batchTask := true;
        SetState(Connected);
        return true, RoundSucceeded;
      }
      return true, RoundFailed;
    }

    /**
     * `_begin_reconnect`: without stickiness or a target it disconnects at
     * once; otherwise it plays one round per backoff delay, stopping on success
     * or preemption, and disconnects when every round has failed.
     */
    method Reconnect(rounds: seq<Round>) returns (attempts: nat, finish: ReconnectEnd)
      requires |rounds| >= |reconnectBackoff|
      modifies this
      ensures attempts <= |reconnectBackoff|
      ensures finish == Aborted <==> !(old(sticky) && Truthy(old(target)))
      ensures finish == Aborted ==>
        && attempts == 0 && state == Disconnected && ControlFields() == Control(None, None, None, false)
        && events == old(events) + [StateChanged(Disconnected), ErrorOccurred("Reconnect aborted: no target or not sticky", 0)]
      ensures finish != Aborted ==>
        var p := PlayRounds(old(ControlFields()), old(target).value, rounds[..|reconnectBackoff|]);
        && attempts == p.attempts
        && (finish == ReconnectPreempted <==> p.end == Some(RoundPreempted))
        && (finish == Reconnected <==> p.end == Some(RoundSucceeded))
        && (finish == Exhausted <==> p.end.None?)
        && events == old(events) + p.events
             + (if finish == Exhausted then [StateChanged(Disconnected), ErrorOccurred("Reconnect attempts exhausted", 0)] else [])
      ensures finish == ReconnectPreempted ==>
        && SequencePreempted(old(target).value) && batchTask == old(batchTask)
        && (state == old(state) || state == Reconnecting)
      ensures finish == Reconnected ==>
        && 1 <= attempts && rounds[attempts - 1].outcome == Succeeds
        && state == Connected && batchTask && device == Device(old(target).value, true)
        && |events| > 0 && events[|events| - 1] == StateChanged(Connected)
      ensures finish == Exhausted ==>
        && attempts == |reconnectBackoff| && state == Disconnected && ControlFields() == Control(None, None, None, false)
        && !reconnectTask && !batchTask && device == NoDevice
      ensures finish != Aborted && Quiet(rounds[..|reconnectBackoff|]) ==> finish != ReconnectPreempted
      ensures finish != Aborted && Quiet(rounds[..|reconnectBackoff|]) && old(Truthy(notifyUuid) && Truthy(writeUuid)) ==>
        && (finish == Exhausted <==> forall j :: 0 <= j < |reconnectBackoff| ==> rounds[j].outcome.Fails?)
        && (finish == Reconnected ==> forall j :: 0 <= j < attempts - 1 ==> rounds[j].outcome.Fails?)
      ensures TunableFields() == old(TunableFields()) && writes == old(writes)
    {
      if !sticky || !Truthy(target) {
        DisconnectSequence("Reconnect aborted: no target or not sticky");
        return 0, Aborted;
      }
      ghost var control := ControlFields();
      attempts, finish := ReconnectRounds(target.value, rounds);
      if Quiet(rounds[..|reconnectBackoff|]) {
        QuietRounds(control, old(target).value, rounds[..|reconnectBackoff|]);
        if Ready(control) {
          QuietReadyRounds(control, old(target).value, rounds[..|reconnectBackoff|]);
        }
        QuietRoundsKept(rounds, |reconnectBackoff|, |reconnectBackoff|);
      }
    }

    /** `_begin_reconnect` once the target and stickiness are known: the rounds, then the disconnect when all failed. */
    method ReconnectRounds(snapshot: string, rounds: seq<Round>) returns (attempts: nat, finish: ReconnectEnd)
      requires |rounds| >= |reconnectBackoff| && target == Some(snapshot) && Truthy(target) && sticky
      modifies this
      ensures attempts <= |reconnectBackoff| && finish != Aborted
      ensures var p := PlayRounds(old(ControlFields()), snapshot, rounds[..|reconnectBackoff|]);
        && attempts == p.attempts
        && (finish == ReconnectPreempted <==> p.end == Some(RoundPreempted))
        && (finish == Reconnected <==> p.end == Some(RoundSucceeded))
        && (finish == Exhausted <==> p.end.None?)
        && events == old(events) + p.events
             + (if finish == Exhausted then [StateChanged(Disconnected), ErrorOccurred("Reconnect attempts exhausted", 0)] else [])
      ensures finish == ReconnectPreempted ==>
        && SequencePreempted(snapshot) && batchTask == old(batchTask)
        && (state == old(state) || state == Reconnecting)
      ensures finish == Reconnected ==>
        && 1 <= attempts && rounds[attempts - 1].outcome == Succeeds
        && state == Connected && batchTask && device == Device(snapshot, true)
        && |events| > 0 && events[|events| - 1] == StateChanged(Connected)
      ensures finish == Exhausted ==>
        && attempts == |reconnectBackoff| && state == Disconnected && ControlFields() == Control(None, None, None, false)
        && !reconnectTask && !batchTask && device == NoDevice
      ensures TunableFields() == old(TunableFields()) && writes == old(writes)
    {
      var end;
      attempts, end := PlayReconnectRounds(snapshot, rounds);
      if end == Some(RoundPreempted) {
        return attempts, ReconnectPreempted;
      }
      if end == Some(RoundSucceeded) {
        return attempts, Reconnected;
      }
      DisconnectSequence("Reconnect attempts exhausted");
      return attempts, Exhausted;
    }

    /** The loop of `_begin_reconnect`: one round per backoff delay, until a round does not fail. */
    method PlayReconnectRounds(snapshot: string, rounds: seq<Round>) returns (attempts: nat, end: Option<RoundEnd>)
      requires |rounds| >= |reconnectBackoff| && target == Some(snapshot) && Truthy(target) && sticky
      modifies this
      ensures var p := PlayRounds(old(ControlFields()), snapshot, rounds[..|reconnectBackoff|]);
        && attempts == p.attempts && end == p.end && ControlFields() == p.control && events == old(events) + p.events
      ensures attempts <= |reconnectBackoff| && (end.None? ==> attempts == |reconnectBackoff|) && (end.Some? ==> end.value != RoundFailed)
      ensures end == Some(RoundPreempted) ==> SequencePreempted(snapshot)
      ensures end == Some(RoundSucceeded) ==>
        && 1 <= attempts && rounds[attempts - 1].outcome == Succeeds
        && state == Connected && batchTask && device == Device(snapshot, true)
        && |events| > 0 && events[|events| - 1] == StateChanged(Connected)
      ensures end != Some(RoundSucceeded) ==> (state == old(state) || state == Reconnecting) && batchTask == old(batchTask)
      ensures TunableFields() == old(TunableFields()) && writes == old(writes) && reconnectTask == old(reconnectTask)
    {
      ghost var control := ControlFields();
      attempts := 0;
      var i := 0;
      while i < |reconnectBackoff|
        invariant 0 <= i <= |reconnectBackoff| && attempts == i
        invariant control == old(ControlFields())
        invariant state == old(state) || state == Reconnecting
        invariant batchTask == old(batchTask)
        invariant TunableFields() == old(TunableFields()) && writes == old(writes) && reconnectTask == old(reconnectTask)
        invariant var p := PlayRounds(control, snapshot, rounds[..i]);
          && p.end.None? && p.attempts == attempts && ControlFields() == p.control && events == old(events) + p.events
      {
        var attempted, roundEnd := PlayNextRound(control, old(events), snapshot, rounds, i);
        if attempted {
          attempts := attempts + 1;
        }
        if roundEnd != RoundFailed {
          PlayRoundsStops(control, snapshot, rounds, i + 1, |reconnectBackoff|);
          return attempts, Some(roundEnd);
        }
        i := i + 1;
      }
      assert rounds[..|reconnectBackoff|] == rounds[..i];
      return attempts, None;
    }

    /** Round `i` of the loop, after rounds that all failed: the play of the rounds so far grows by that round. */
    method PlayNextRound(ghost control: Control, ghost start: seq<Event>, snapshot: string, rounds: seq<Round>, i: nat)
      returns (attempted: bool, roundEnd: RoundEnd)
      requires i < |rounds|
      requires var p := PlayRounds(control, snapshot, rounds[..i]);
        p.end.None? && ControlFields() == p.control && events == start + p.events
      modifies this
      ensures var before := PlayRounds(control, snapshot, rounds[..i]);
        var p := PlayRounds(control, snapshot, rounds[..i + 1]);
        && p.attempts == before.attempts + (if attempted then 1 else 0)
        && (if roundEnd == RoundFailed then p.end.None? else p.end == Some(roundEnd))
        && ControlFields() == p.control && events == start + p.events
      ensures roundEnd == RoundFailed ==> attempted
      ensures roundEnd == RoundPreempted ==> SequencePreempted(snapshot)
      ensures roundEnd == RoundSucceeded ==>
        && attempted && rounds[i].outcome == Succeeds
        && state == Connected && batchTask && device == Device(snapshot, true)
        && |events| > 0 && events[|events| - 1] == StateChanged(Connected)
      ensures roundEnd != RoundSucceeded ==> (state == old(state) || state == Reconnecting) && batchTask == old(batchTask)
      ensures TunableFields() == old(TunableFields()) && writes == old(writes) && reconnectTask == old(reconnectTask)
    {
      ghost var before := PlayRounds(control, snapshot, rounds[..i]);
      attempted, roundEnd := ReconnectRound(snapshot, rounds[i]);
      PlayRoundsSnoc(control, snapshot, rounds, i);
      RoundEnds(before.control, snapshot, rounds[i]);
      ghost var r := RoundSpec(before.control, snapshot, rounds[i]);
      assert events == start + (before.events + r.events);
    }

    // ---- Notifications, batching and backpressure ----

    /** `_on_notify_bytes`: hand the bytes to the parser. */
    method OnNotifyBytes(data: seq<Byte>)
      modifies parser
      ensures parser.buffer == old(parser.buffer) + data
    {
      parser.Feed(data);
    }

    /** `_apply_backpressure_if_needed`: drop the oldest samples of an over-long batch from both lists in step. */
    method ApplyBackpressure(ts: seq<int>, vs: seq<int>) returns (keptTs: seq<int>, keptVs: seq<int>)
      requires |ts| == |vs|
      modifies this
      ensures var d := DropCount(ts, maxBufferSeconds);
        && keptTs == ts[d..] && keptVs == vs[d..]
        && events == old(events) + (if d > 0 then [SamplesDropped(d)] else [])
      ensures state == old(state) && ControlFields() == old(ControlFields()) && TunableFields() == old(TunableFields())
      ensures reconnectTask == old(reconnectTask) && batchTask == old(batchTask)
      ensures device == old(device) && parser == old(parser) && writes == old(writes)
    {
      if |ts| == 0 {
        return ts, vs;
      }
      var duration := (ts[|ts| - 1] - ts[0]) as real / 1000.0;
      if duration <= maxBufferSeconds {
        return ts, vs;
      }
      var cutoff := ts[|ts| - 1] - PyValue.Trunc(maxBufferSeconds * 1000.0);
      var dropIdx := FindDropIndex(ts, cutoff);
      keptTs, keptVs := ts, vs;
      if dropIdx > 0 {
        keptTs := ts[dropIdx..];
        keptVs := vs[dropIdx..];
        events := events + [SamplesDropped(dropIdx)];
      }
    }

    /**
     * One iteration of `_batch_loop` after its sleep: drain the parser and emit
     * what it held. When the NumPy casts raise, the exception escapes the loop
     * and the batch task is over.
     */
    method BatchTick()
      requires batchTask
      modifies this, parser
      ensures parser == old(parser)
      ensures var taken := FP.Drain(old(parser.buffer));
        && parser.buffer == taken.leftover
        && events == old(events) + TickEvents(taken, maxBufferSeconds)
        && (batchTask <==> !CastRaises(taken.data, maxBufferSeconds))
      ensures state == old(state) && ControlFields() == old(ControlFields()) && TunableFields() == old(TunableFields())
      ensures reconnectTask == old(reconnectTask)
      ensures device == old(device) && writes == old(writes)
    {
      ghost var taken := FP.Drain(parser.buffer);
      var dataFrames, mgmtFrames := parser.TakeFrames();
      EmitFrames(dataFrames, mgmtFrames);
    }

    /** The emitting part of a batch tick: management payloads first, then the data batch after backpressure. */
    method EmitFrames(dataFrames: seq<FP.DataFrame>, mgmtFrames: seq<FP.ManagementFrame>)
      modifies this
      ensures events == old(events) + TickEvents(FP.Taken(dataFrames, mgmtFrames, []), maxBufferSeconds)
      ensures batchTask == (old(batchTask) && !CastRaises(dataFrames, maxBufferSeconds))
      ensures state == old(state) && ControlFields() == old(ControlFields()) && TunableFields() == old(TunableFields())
      ensures reconnectTask == old(reconnectTask)
      ensures device == old(device) && parser == old(parser) && writes == old(writes)
    {
      // The source skips a tick that drained nothing; both tests below are then false as well.
      if |mgmtFrames| > 0 {
        events := events + [ManagementFramesReceived(Payloads(mgmtFrames))];
      }
      EmitData(dataFrames);
      assert events == old(events) + MgmtEvents(mgmtFrames) + DataEvents(dataFrames, maxBufferSeconds);
    }

    /** Backpressure, then the casts: a batch of the kept samples when they fit, the end of the batch task when they do not. */
    method EmitData(dataFrames: seq<FP.DataFrame>)
      modifies this
      ensures events == old(events) + DataEvents(dataFrames, maxBufferSeconds)
      ensures batchTask == (old(batchTask) && !CastRaises(dataFrames, maxBufferSeconds))
      ensures state == old(state) && ControlFields() == old(ControlFields()) && TunableFields() == old(TunableFields())
      ensures reconnectTask == old(reconnectTask)
      ensures device == old(device) && parser == old(parser) && writes == old(writes)
    {
      if |dataFrames| > 0 {
        var ts, vs := Timestamps(dataFrames), Millivolts(dataFrames);
        var keptTs, keptVs := ApplyBackpressure(ts, vs);
        // Backpressure always keeps the newest sample, so the source's
        // `if not ts_list: continue` never skips the casts.
        EmitCast(keptTs, keptVs);
      }
    }

    /** The NumPy casts of the kept samples: a batch when they fit, the end of the batch task when they raise. */
    method EmitCast(keptTs: seq<int>, keptVs: seq<int>)
      modifies this
      ensures events == old(events) + (if CastsFit(keptTs, keptVs) then [DataBatch(keptTs, keptVs)] else [])
      ensures batchTask == (old(batchTask) && CastsFit(keptTs, keptVs))
      ensures state == old(state) && ControlFields() == old(ControlFields()) && TunableFields() == old(TunableFields())
      ensures reconnectTask == old(reconnectTask)
      ensures device == old(device) && parser == old(parser) && writes == old(writes)
    {
      if !CastsFit(keptTs, keptVs) {
        batchTask := false;
        return;
      }
      events := events + [DataBatch(keptTs, keptVs)];
    }

    // ---- Writes ----

    /**
     * `_send_command_async`: with no connected device a waited-for write
     * reports failure and a fire-and-forget one reports nothing; otherwise the
     * NUL-terminated UTF-8 payload is written, asking for a response unless
     * `nowait`, and the result is reported unless `nowait`.
     */
    method SendCommandAsync(text: string, nowait: bool, tag: string, failure: Option<string>)
      modifies this
      ensures !(old(device).Device? && old(device).connected) ==>
        && writes == old(writes)
        && events == old(events) + (if nowait then [] else [WriteCompleted(false, tag)])
      ensures old(device).Device? && old(device).connected ==>
        && writes == old(writes) + [GattWrite(CommandPayload(text), !nowait)]
        && events == old(events)
             + (if failure.Some? then [ErrorOccurred("BLE write failed: " + failure.value, 0)] else [])
             + (if nowait then [] else [WriteCompleted(failure.None?, tag)])
      ensures state == old(state) && ControlFields() == old(ControlFields()) && TunableFields() == old(TunableFields())
      ensures reconnectTask == old(reconnectTask) && batchTask == old(batchTask) && device == old(device) && parser == old(parser)
    {
      if !(device.Device? && device.connected) {
        if !nowait {
          events := events + [WriteCompleted(false, tag)];
        }
        return;
      }
      var payload := Utf8.Encode(text) + [0];
      writes := writes + [GattWrite(payload, !nowait)];
      if failure.None? {
        if !nowait {
          events := events + [WriteCompleted(true, tag)];
        }
      } else {
        EmitError("BLE write failed: " + failure.value);
        if !nowait {
          events := events + [WriteCompleted(false, tag)];
        }
      }
    }

    /** `sendCommand`: the write waits for a response exactly when the default write mode is sync. */
    method SendCommand(text: string, tag: string, failure: Option<string>)
      modifies this
      ensures old(device).Device? && old(device).connected ==>
        writes == old(writes) + [GattWrite(CommandPayload(text), old(defaultWriteSync))]
      ensures !(old(device).Device? && old(device).connected) ==> writes == old(writes)
      ensures events == old(events)
        + (if old(device).Device? && old(device).connected && failure.Some? then [ErrorOccurred("BLE write failed: " + failure.value, 0)] else [])
        + (if old(defaultWriteSync) then [WriteCompleted(old(device).Device? && old(device).connected && failure.None?, tag)] else [])
      ensures state == old(state) && ControlFields() == old(ControlFields()) && TunableFields() == old(TunableFields())
      ensures reconnectTask == old(reconnectTask) && batchTask == old(batchTask) && device == old(device) && parser == old(parser)
    {
      SendCommandAsync(text, !defaultWriteSync, tag, failure);
    }
  }
}
