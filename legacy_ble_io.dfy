/**
 * The earlier BLE I/O handler (`new_BLEIO.py`), kept beside the newer one: it
 * assembles notification bytes in its own receive buffer, cuts that buffer at
 * CRLF terminators, and parses every complete line as `<ts>,<mv>`. Unlike the
 * newer frame parser, a line that is not a sample counts as malformed (there
 * are no management frames) and both fields go through `int()` unchecked, so a
 * signed timestamp is accepted.
 *
 * Only the framing, parsing, backpressure and buffer handling of this handler
 * are modelled; its connection sequences are those of the newer handler.
 */
module LegacyBleIo {
  import opened Wrappers
  import opened PyText
  import FP = FrameParser
  import BH = BleIoHandler
  import PyValue

  /** The signals this handler emits; the connection signal carries only whether the state is CONNECTED. */
  datatype Event =
    | ConnectionChanged(connected: bool)
    | ErrorOccurred(message: string, code: int)
    | DataBatch(timestamps: seq<int>, millivolts: seq<int>)
    | SamplesDropped(count: nat)

  // ---------------------------------------------------------------------------
  // Cutting the receive buffer into lines

  /** What `_split_complete_lines` returns: the non-empty complete lines, and the partial tail. */
  datatype Lines = Lines(lines: seq<string>, leftover: string)

  /** The specification of `_split_complete_lines`. */
  function CompleteLines(buf: string): Lines
  {
    Lines(FP.NonEmpty(FP.Lines(buf)), FP.Rest(buf))
  }

  /** `_split_complete_lines`: cut after the last CRLF, split the complete region at CRLF and drop the empty pieces. */
  method SplitCompleteLines(buf: string) returns (lines: seq<string>, leftover: string)
    ensures Lines(lines, leftover) == CompleteLines(buf)
    ensures |buf| == 0 ==> lines == [] && leftover == []
    ensures FP.NoSep(buf) ==> lines == [] && leftover == buf
  {
    if |buf| == 0 {
      return [], [];
    }
    var data := buf;
    var lastIdx := FP.RFindSep(data);
    if lastIdx == -1 {
      return [], data;
    }
    var completeRegion := data[..lastIdx + 2];
    leftover := data[lastIdx + 2..];
    var rawLines := FP.Split(completeRegion);
    lines := FP.NonEmpty(rawLines);
    FP.RegionSplit(data, lastIdx);
    NonEmptyDropsBlankTail(FP.Lines(data));
  }

  lemma NonEmptyDropsBlankTail(lines: seq<string>)
    ensures FP.NonEmpty(lines + [[]]) == FP.NonEmpty(lines)
  {
    assert (lines + [[]])[..|lines|] == lines;
  }

  /** Every complete line is free of separators, and so is the leftover. */
  lemma {:induction false} LinesHaveNoSep(s: string)
    ensures forall l :: l in FP.Lines(s) ==> FP.NoSep(l)
    decreases |s|
  {
    match FP.FindSep(s)
    case None =>
    case Some(i) =>
      LinesHaveNoSep(s[i + 2..]);
      var head := s[..i];
      forall k | 0 <= k < |head| ensures !FP.SepAt(head, k) {
        assert !FP.SepAt(s, k);
      }
  }

  lemma {:induction false} NonEmptyIsSublist(lines: seq<string>)
    ensures forall l :: l in FP.NonEmpty(lines) ==> l in lines
  {
    if |lines| > 0 {
      NonEmptyIsSublist(lines[..|lines| - 1]);
    }
  }

  /**
   * The returned lines are non-empty and hold no CRLF; the leftover holds no
   * CRLF and is exactly what follows the last one in the buffer.
   */
  lemma CompleteLinesClean(buf: string)
    ensures var r := CompleteLines(buf);
      && (forall l :: l in r.lines ==> |l| > 0 && FP.NoSep(l))
      && FP.NoSep(r.leftover) && r.leftover == buf[|buf| - |r.leftover|..]
  {
    LinesHaveNoSep(buf);
    NonEmptyIsSublist(FP.Lines(buf));
  }

  /** Nothing is lost by the cut: the complete lines with their terminators, then the leftover, are the buffer. */
  lemma {:induction false} Reassemble(s: string)
    ensures FP.Terminated(FP.Lines(s)) + FP.Rest(s) == s
    decreases |s|
  {
    match FP.FindSep(s)
    case None =>
      assert FP.Terminated([]) == [];
    case Some(i) =>
      var t := s[i + 2..];
      Reassemble(t);
      FP.LinesAppendStep(s, [], i);
      TerminatedCons(s[..i], FP.Lines(t));
      FP.ConcatAssoc(s[..i] + "\r\n", FP.Terminated(FP.Lines(t)), FP.Rest(t));
      CutAtSep(s, i);
  }

  lemma TerminatedCons(line: string, lines: seq<string>)
    ensures FP.Terminated([line] + lines) == line + "\r\n" + FP.Terminated(lines)
  {
    assert ([line] + lines)[1..] == lines;
  }

  lemma CutAtSep(s: string, i: nat)
    requires FP.SepAt(s, i)
    ensures s == s[..i] + "\r\n" + s[i + 2..]
  {
    assert s[i..i + 2] == "\r\n";
    assert s == s[..i] + s[i..i + 2] + s[i + 2..];
  }

  /** Conversely, separator-free non-empty lines written with terminators, then a separator-free tail, split back into themselves. */
  lemma {:induction false} SplitTerminated(lines: seq<string>, tail: string)
    requires forall l :: l in lines ==> |l| > 0 && FP.NoSep(l)
    requires FP.NoSep(tail)
    ensures CompleteLines(FP.Terminated(lines) + tail) == Lines(lines, tail)
  {
    LinesOfTerminated(lines, tail);
    NonEmptyOfNonEmpty(lines);
  }

  lemma {:induction false} LinesOfTerminated(lines: seq<string>, tail: string)
    requires forall l :: l in lines ==> FP.NoSep(l)
    requires FP.NoSep(tail)
    ensures FP.Lines(FP.Terminated(lines) + tail) == lines && FP.Rest(FP.Terminated(lines) + tail) == tail
    decreases |lines|
  {
    if |lines| == 0 {
      assert FP.Terminated(lines) + tail == tail;
    } else {
      var more := FP.Terminated(lines[1..]) + tail;
      assert lines[0] in lines;
      LinesOfTerminated(lines[1..], tail);
      FP.ConcatAssoc(lines[0] + "\r\n", FP.Terminated(lines[1..]), tail);
      FP.LinesCons(lines[0], more);
      FP.HeadTail(lines);
    }
  }

  lemma {:induction false} NonEmptyOfNonEmpty(lines: seq<string>)
    requires forall l :: l in lines ==> |l| > 0
    ensures FP.NonEmpty(lines) == lines
  {
    if |lines| > 0 {
      var init := lines[..|lines| - 1];
      assert forall l :: l in init ==> l in lines;
      NonEmptyOfNonEmpty(init);
      assert lines[|lines| - 1] in lines;
      assert init + [lines[|lines| - 1]] == lines;
    }
  }

  /** The example of the method's documentation: two complete lines and a partial third. */
  lemma ExampleSplit(buf: string)
    requires buf == "1,10\r\n2,20\r\n3,3"
    ensures CompleteLines(buf) == Lines(["1,10", "2,20"], "3,3")
  {
    var a, b, c := "1,10", "2,20", "3,3";
    assert FP.NoSep(a) && FP.NoSep(b) && FP.NoSep(c);
    TerminatedCons(b, []);
    TerminatedCons(a, [b]);
    assert FP.Terminated([]) == [];
    assert buf == FP.Terminated([a, b]) + c;
    SplitTerminated([a, b], c);
  }

  // ---------------------------------------------------------------------------
  // Parsing lines

  /** How `_parse_lines` treats one line. */
  datatype Parsed = Sample(timestampMs: int, millivolts: int) | Blank | Malformed

  function ParseLine(line: string): Parsed
  {
    var stripped := Strip(line);
    if |stripped| == 0 then Blank
    else
      var parts := SplitOnce(stripped, ',');
      if |parts| != 2 then Malformed
      else SampleOrMalformed(PyInt(parts[0]), PyInt(parts[1]))
  }

  function SampleOrMalformed(ts: Option<int>, mv: Option<int>): Parsed
  {
    if ts.Some? && mv.Some? then Sample(ts.value, mv.value) else Malformed
  }

  /** The two lists and the malformed count of `_parse_lines`. */
  datatype Batch = Batch(timestamps: seq<int>, millivolts: seq<int>, malformed: nat)

  function Add(b: Batch, p: Parsed): Batch
  {
    match p
    case Sample(ts, mv) => Batch(b.timestamps + [ts], b.millivolts + [mv], b.malformed)
    case Blank => b
    case Malformed => b.(malformed := b.malformed + 1)
  }

  /** The number of lines that are not blank after stripping. */
  function NonBlankCount(lines: seq<string>): nat
  {
    if |lines| == 0 then 0
    else NonBlankCount(lines[..|lines| - 1]) + (if |Strip(lines[|lines| - 1])| > 0 then 1 else 0)
  }

  /**
   * The specification of `_parse_lines`: the two lists stay the same length,
   * and every non-blank line yields either one sample or one malformed count.
   */
  function ParseAll(lines: seq<string>): (r: Batch)
    ensures |r.timestamps| == |r.millivolts|
    ensures |r.timestamps| + r.malformed == NonBlankCount(lines)
  {
    if |lines| == 0 then Batch([], [], 0)
    else Add(ParseAll(lines[..|lines| - 1]), ParseLine(lines[|lines| - 1]))
  }

  /** The loop of `_parse_lines`. */
  method ParseLinesLoop(lines: seq<string>) returns (ts: seq<int>, vs: seq<int>, malformed: nat)
    ensures Batch(ts, vs, malformed) == ParseAll(lines)
  {
    ts, vs, malformed := [], [], 0;
    var i := 0;
    while i < |lines|
      invariant 0 <= i <= |lines|
      invariant Batch(ts, vs, malformed) == ParseAll(lines[..i])
    {
      assert lines[..i + 1][..i] == lines[..i];
      var stripped := Strip(lines[i]);
      i := i + 1;
      if |stripped| == 0 {
        continue;
      }
      var parts := SplitOnce(stripped, ',');
      if |parts| != 2 {
        malformed := malformed + 1;
        continue;
      }
      var tsVal := PyInt(parts[0]);
      var vVal := PyInt(parts[1]);
      if tsVal.None? || vVal.None? {
        malformed := malformed + 1;
        continue;
      }
      ts, vs := ts + [tsVal.value], vs + [vVal.value];
    }
    assert lines[..i] == lines;
  }

  /** The one error signal of a parse, present only when some line was malformed. */
  function MalformedEvents(count: nat): (r: seq<Event>)
    ensures |r| <= 1 && (|r| == 1 <==> count > 0)
  {
    if count > 0 then [ErrorOccurred("Skipped " + NatToDecimal(count) + " malformed ADC line(s) in BLE stream", 0)] else []
  }

  /** The line a device would send for one sample, timestamp sign included. */
  function FormatSample(ts: int, mv: int): string
  {
    IntToDecimal(ts) + "," + IntToDecimal(mv)
  }

  /** A formatted sample parses back to itself, a negative timestamp included. */
  lemma ParseFormatted(ts: int, mv: int)
    ensures ParseLine(FormatSample(ts, mv)) == Sample(ts, mv)
  {
    FP.DecimalShape(ts);
    FP.DecimalShape(mv);
    SignedLine(IntToDecimal(ts), IntToDecimal(mv));
    IntDecimalRoundTrip(ts);
    IntDecimalRoundTrip(mv);
  }

  /** A text of digits and minus signs ending in a digit. */
  predicate DecimalText(s: string)
  {
    |s| > 0 && IsDigit(s[|s| - 1]) && forall i :: 0 <= i < |s| ==> IsDigit(s[i]) || s[i] == '-'
  }

  lemma SignedLine(a: string, b: string)
    requires DecimalText(a) && DecimalText(b)
    ensures var line := a + "," + b;
      Strip(line) == line && SplitOnce(line, ',') == [a, b] && FP.NoSep(line)
  {
    var line := a + "," + b;
    assert line[0] == a[0] && (IsDigit(a[0]) || a[0] == '-');
    assert line[|line| - 1] == b[|b| - 1];
    StripTrimmed(line);
    assert ',' !in a by { forall i | 0 <= i < |a| ensures a[i] != ',' { assert IsDigit(a[i]) || a[i] == '-'; } }
    assert line == a + [','] + b;
    assert line[..|a|] == a && line[|a| + 1..] == b;
    assert FP.NoSep(line) by {
      forall i | 0 <= i < |line| ensures line[i] != '\r' {
        if i < |a| { assert a[i] == line[i]; } else if i > |a| { assert line[i] == b[i - |a| - 1]; }
      }
    }
  }

  function FormatSamples(ts: seq<int>, vs: seq<int>): (lines: seq<string>)
    requires |ts| == |vs|
    ensures |lines| == |ts|
  {
    if |ts| == 0 then [] else FormatSamples(ts[..|ts| - 1], vs[..|vs| - 1]) + [FormatSample(ts[|ts| - 1], vs[|vs| - 1])]
  }

  /** Round trip: formatted samples parse back to the same two lists with nothing malformed. */
  lemma {:induction false} ParseAllFormatted(ts: seq<int>, vs: seq<int>)
    requires |ts| == |vs|
    ensures ParseAll(FormatSamples(ts, vs)) == Batch(ts, vs, 0)
  {
    if |ts| > 0 {
      var n := |ts| - 1;
      var prefix := FormatSamples(ts[..n], vs[..n]);
      ParseAllFormatted(ts[..n], vs[..n]);
      ParseAllSnoc(prefix, FormatSample(ts[n], vs[n]));
      ParseFormatted(ts[n], vs[n]);
      InitLast(ts);
      InitLast(vs);
    }
  }

  lemma InitLast<T>(s: seq<T>)
    requires |s| > 0
    ensures s[..|s| - 1] + [s[|s| - 1]] == s
  {
  }

  lemma ParseAllSnoc(lines: seq<string>, line: string)
    ensures ParseAll(lines + [line]) == Add(ParseAll(lines), ParseLine(line))
  {
    assert (lines + [line])[..|lines|] == lines;
  }

  /** The newer parser turns the line of a negative timestamp into a management frame, where this one reads a sample. */
  lemma NegativeTimestamp(ts: int, mv: int)
    requires ts < 0
    ensures ParseLine(FormatSample(ts, mv)) == Sample(ts, mv)
    ensures FP.Classify(FormatSample(ts, mv)) == FP.Management(FP.ManagementFrame(FormatSample(ts, mv)))
  {
    ParseFormatted(ts, mv);
    var a, b := IntToDecimal(ts), IntToDecimal(mv);
    FP.DecimalShape(ts);
    FP.DecimalShape(mv);
    SignedLine(a, b);
    assert a[0] == '-';
    assert !FP.LooksLikeData([a, b]);
  }

  /** A line without a comma is malformed here, where the newer parser would make it a management frame. */
  lemma NoCommaMalformed(line: string)
    requires |Strip(line)| > 0 && ',' !in Strip(line)
    ensures ParseLine(line) == Malformed
    ensures FP.Classify(line) == FP.Management(FP.ManagementFrame(Strip(line)))
  {
  }

  // ---------------------------------------------------------------------------
  // One tick of the batch loop

  /** The signals one tick emits for the bytes it found buffered. */
  function TickEvents(buf: string, maxSeconds: real): seq<Event>
  {
    LineEvents(CompleteLines(buf).lines, maxSeconds)
  }

  /** The signals for a run of complete lines: the parse error, if any, then the samples. */
  function LineEvents(lines: seq<string>, maxSeconds: real): seq<Event>
  {
    var b := ParseAll(lines);
    MalformedEvents(b.malformed) + SampleEvents(b.timestamps, b.millivolts, maxSeconds)
  }

  /** The drop signal, then the batch unless the NumPy casts of the kept samples raise. */
  function SampleEvents(ts: seq<int>, vs: seq<int>, maxSeconds: real): seq<Event>
    requires |ts| == |vs|
  {
    if |ts| == 0 then []
    else
      var d := BH.DropCount(ts, maxSeconds);
      (if d > 0 then [SamplesDropped(d)] else []) + (if BH.CastsFit(ts[d..], vs[d..]) then [DataBatch(ts[d..], vs[d..])] else [])
  }

  /**
   * The casts of a tick raise: some line held a sample and a kept sample does
   * not fit `uint64` and `int32`. Only `CancelledError` is caught, so the
   * batch task ends.
   */
  predicate SamplesRaise(ts: seq<int>, vs: seq<int>, maxSeconds: real)
    requires |ts| == |vs|
  {
    |ts| > 0 && !BH.CastsFit(ts[BH.DropCount(ts, maxSeconds)..], vs[BH.DropCount(ts, maxSeconds)..])
  }

  predicate TickRaises(buf: string, maxSeconds: real)
  {
    var b := ParseAll(CompleteLines(buf).lines);
    SamplesRaise(b.timestamps, b.millivolts, maxSeconds)
  }

  /**
   * A tick emits at most one error, then a batch exactly when some line held a
   * sample and the casts fit; the batch is the newest part of the samples,
   * still paired, and always holds the last one.
   */
  lemma TickEventsShape(buf: string, maxSeconds: real)
    ensures var b := ParseAll(CompleteLines(buf).lines);
      var ev := TickEvents(buf, maxSeconds);
      && ev == MalformedEvents(b.malformed) + SampleEvents(b.timestamps, b.millivolts, maxSeconds)
      && (|b.timestamps| == 0 ==> ev == MalformedEvents(b.malformed))
      && (|b.timestamps| == 0 || TickRaises(buf, maxSeconds) <==> forall e :: e in ev ==> !e.DataBatch?)
      && (|b.timestamps| > 0 && !TickRaises(buf, maxSeconds) ==>
            |ev| > 0 && ev[|ev| - 1] == SampleEvents(b.timestamps, b.millivolts, maxSeconds)[|SampleEvents(b.timestamps, b.millivolts, maxSeconds)| - 1])
  {
    var b := ParseAll(CompleteLines(buf).lines);
    SampleEventsShape(b.timestamps, b.millivolts, maxSeconds);
    var ev := TickEvents(buf, maxSeconds);
    var m := MalformedEvents(b.malformed);
    var se := SampleEvents(b.timestamps, b.millivolts, maxSeconds);
    assert ev == m + se;
    assert forall e :: e in m ==> !e.DataBatch?;
    assert forall e :: e in ev <==> e in m || e in se;
  }

  /**
   * Samples give a batch as the last signal unless the casts raise, and then
   * no batch at all; the batch is the newest part of the samples, still
   * paired, fits the casts, and always holds the last one.
   */
  lemma SampleEventsShape(ts: seq<int>, vs: seq<int>, maxSeconds: real)
    requires |ts| == |vs|
    ensures var ev := SampleEvents(ts, vs, maxSeconds);
      && (|ts| == 0 ==> ev == [])
      && (|ts| == 0 || SamplesRaise(ts, vs, maxSeconds) <==> forall e :: e in ev ==> !e.DataBatch?)
      && (|ts| > 0 && !SamplesRaise(ts, vs, maxSeconds) ==>
            var last := ev[|ev| - 1];
            && last.DataBatch?
            && |last.timestamps| == |last.millivolts| > 0
            && BH.CastsFit(last.timestamps, last.millivolts)
            && last.timestamps[|last.timestamps| - 1] == ts[|ts| - 1]
            && last.timestamps == ts[|ts| - |last.timestamps|..]
            && last.millivolts == vs[|vs| - |last.millivolts|..])
  {
    if |ts| > 0 {
      var d := BH.DropCount(ts, maxSeconds);
      if d > 0 {
        BH.DropCountOverBudget(ts, maxSeconds);
      }
      var ev := SampleEvents(ts, vs, maxSeconds);
      if !SamplesRaise(ts, vs, maxSeconds) {
        assert ev[|ev| - 1] == DataBatch(ts[d..], vs[d..]);
        assert ev[|ev| - 1] in ev;
      } else {
        assert ev == (if d > 0 then [SamplesDropped(d)] else []);
      }
    }
  }

  /**
   * A line with a negative timestamp is a sample here, but `uint64` cannot
   * hold it: the tick emits no batch and the batch task ends.
   */
  lemma NegativeTimestampStopsBatching(t: int, v: int, maxSeconds: real)
    requires t < 0
    ensures TickRaises(FP.Terminated(FormatSamples([t], [v])), maxSeconds)
    ensures forall e :: e in TickEvents(FP.Terminated(FormatSamples([t], [v])), maxSeconds) ==> !e.DataBatch?
  {
    var buf := FP.Terminated(FormatSamples([t], [v]));
    assert buf + "" == buf;
    TickOfFormatted([t], [v], "", maxSeconds);
    assert BH.DropCount([t], maxSeconds) == 0;
    assert !BH.CastsFit([t], [v]);
  }

  /** Samples written as device lines come out of one tick as one batch, cut only by backpressure. */
  lemma TickOfFormatted(ts: seq<int>, vs: seq<int>, tail: string, maxSeconds: real)
    requires |ts| == |vs| > 0 && FP.NoSep(tail)
    ensures ParseAll(CompleteLines(FP.Terminated(FormatSamples(ts, vs)) + tail).lines) == Batch(ts, vs, 0)
    ensures var d := BH.DropCount(ts, maxSeconds);
      TickEvents(FP.Terminated(FormatSamples(ts, vs)) + tail, maxSeconds)
        == (if d > 0 then [SamplesDropped(d)] else [])
           + (if BH.CastsFit(ts[d..], vs[d..]) then [DataBatch(ts[d..], vs[d..])] else [])
  {
    var lines := FormatSamples(ts, vs);
    forall l | l in lines ensures |l| > 0 && FP.NoSep(l) {
      FormattedLineClean(ts, vs, l);
    }
    SplitTerminated(lines, tail);
    ParseAllFormatted(ts, vs);
  }

  lemma {:induction false} FormattedLineClean(ts: seq<int>, vs: seq<int>, l: string)
    requires |ts| == |vs| && l in FormatSamples(ts, vs)
    ensures |l| > 0 && FP.NoSep(l)
  {
    var n := |ts| - 1;
    if l == FormatSample(ts[n], vs[n]) {
      FP.DecimalShape(ts[n]);
      FP.DecimalShape(vs[n]);
      SignedLine(IntToDecimal(ts[n]), IntToDecimal(vs[n]));
    } else {
      FormattedLineClean(ts[..n], vs[..n], l);
    }
  }

  // ---------------------------------------------------------------------------
  // The handler

  class Handler {
    var maxBufferSeconds: real
    var state: BH.ConnectionState
    var target: Option<string>
    var notifyUuid: Option<string>
    var writeUuid: Option<string>
    var sticky: bool

    /** The receive buffer: bytes of notifications not yet cut into lines. */
    var rxBytes: seq<Byte>

    /** Whether `_batch_task` is running. */
    var batchTask: bool

    var events: seq<Event>

    constructor(maxBufferSeconds: real)
      ensures this.maxBufferSeconds == maxBufferSeconds && state == BH.Idle
      ensures target == None && notifyUuid == Some(BH.NotifyCharacteristicUuid) && writeUuid == Some(BH.WriteCharacteristicUuid)
      ensures !sticky && rxBytes == [] && events == [] && !batchTask
    {
      this.maxBufferSeconds := maxBufferSeconds;
      state := BH.Idle;
      target := None;
      notifyUuid := Some(BH.NotifyCharacteristicUuid);
      writeUuid := Some(BH.WriteCharacteristicUuid);
      sticky := false;
      rxBytes := [];
      events := [];
      batchTask := false;
    }

    /** `_set_state`: the signal says only whether the new state is CONNECTED. */
    method SetState(s: BH.ConnectionState)
      modifies this
      ensures state == s && events == old(events) + [ConnectionChanged(s == BH.Connected)]
      ensures maxBufferSeconds == old(maxBufferSeconds) && rxBytes == old(rxBytes) && batchTask == old(batchTask)
      ensures target == old(target) && notifyUuid == old(notifyUuid) && writeUuid == old(writeUuid) && sticky == old(sticky)
    {
      state := s;
      events := events + [ConnectionChanged(s == BH.Connected)];
    }

    /** `_on_notify_bytes`: append, nothing more. */
    method OnNotifyBytes(data: seq<Byte>)
      modifies this
      ensures rxBytes == old(rxBytes) + data
      ensures events == old(events) && state == old(state) && maxBufferSeconds == old(maxBufferSeconds) && batchTask == old(batchTask)
    {
      rxBytes := rxBytes + data;
    }

    /** `_parse_lines`: the samples of the lines, and one error signal if any line was malformed. */
    method ParseLines(lines: seq<string>) returns (ts: seq<int>, vs: seq<int>)
      modifies this
      ensures ts == ParseAll(lines).timestamps && vs == ParseAll(lines).millivolts
      ensures events == old(events) + MalformedEvents(ParseAll(lines).malformed)
      ensures state == old(state) && rxBytes == old(rxBytes) && maxBufferSeconds == old(maxBufferSeconds) && batchTask == old(batchTask)
    {
      var malformed;
      ts, vs, malformed := ParseLinesLoop(lines);
      if malformed > 0 {
        events := events + [ErrorOccurred("Skipped " + NatToDecimal(malformed) + " malformed ADC line(s) in BLE stream", 0)];
      }
    }

    /** `_apply_backpressure_if_needed`, on lists it returns rather than edits. */
    method ApplyBackpressure(ts: seq<int>, vs: seq<int>) returns (keptTs: seq<int>, keptVs: seq<int>)
      requires |ts| == |vs|
      modifies this
      ensures var d := BH.DropCount(ts, maxBufferSeconds);
        && keptTs == ts[d..] && keptVs == vs[d..]
        && events == old(events) + (if d > 0 then [SamplesDropped(d)] else [])
      ensures state == old(state) && rxBytes == old(rxBytes) && maxBufferSeconds == old(maxBufferSeconds) && batchTask == old(batchTask)
    {
      keptTs, keptVs := ts, vs;
      if |ts| == 0 {
        return;
      }
      if (ts[|ts| - 1] - ts[0]) as real / 1000.0 <= maxBufferSeconds {
        return;
      }
      var cutoff := ts[|ts| - 1] - PyValue.Trunc(maxBufferSeconds * 1000.0);
      var dropIdx := BH.FindDropIndex(ts, cutoff);
      if dropIdx > 0 {
        keptTs, keptVs := ts[dropIdx..], vs[dropIdx..];
        events := events + [SamplesDropped(dropIdx)];
      }
    }

    /** `_start_batching`: with an event loop, a batch task runs afterwards, whether it was running or is started. */
    method StartBatching(hasLoop: bool)
      modifies this
      ensures batchTask == (old(batchTask) || hasLoop)
      ensures events == old(events) && state == old(state) && rxBytes == old(rxBytes) && maxBufferSeconds == old(maxBufferSeconds)
    {
      if !hasLoop {
        return;
      }
      if !batchTask {
        batchTask := true;
      }
    }

    /**
     * One tick of `_batch_loop`: the buffer keeps only its partial tail, and
     * the tick's signals are emitted. When the NumPy casts raise, the
     * exception escapes the loop and the batch task is over.
     */
    method BatchTick()
      requires batchTask
      modifies this
      ensures rxBytes == CompleteLines(old(rxBytes)).leftover
      ensures events == old(events) + TickEvents(old(rxBytes), maxBufferSeconds)
      ensures batchTask <==> !TickRaises(old(rxBytes), maxBufferSeconds)
      ensures state == old(state) && maxBufferSeconds == old(maxBufferSeconds)
    {
      if |rxBytes| == 0 {
        return;
      }
      var lines, leftover := SplitCompleteLines(rxBytes);
      rxBytes := leftover;
      if |lines| == 0 {
        return;
      }
      EmitLines(lines);
    }

    /** The part of a tick after the cut: parse, apply backpressure, then the casts and the batch. */
    method EmitLines(lines: seq<string>)
      modifies this
      ensures events == old(events) + LineEvents(lines, maxBufferSeconds)
      ensures batchTask == (old(batchTask) && !SamplesRaise(ParseAll(lines).timestamps, ParseAll(lines).millivolts, maxBufferSeconds))
      ensures state == old(state) && rxBytes == old(rxBytes) && maxBufferSeconds == old(maxBufferSeconds)
    {
      var ts, vs := ParseLines(lines);
      ghost var afterParse := events;
      if |ts| == 0 {
        return;
      }
      // Backpressure always keeps the last sample, so the casts always run here.
      var keptTs, keptVs := ApplyBackpressure(ts, vs);
      ghost var drops := events[|afterParse|..];
      EmitCast(keptTs, keptVs);
      ghost var batch := events[|afterParse| + |drops|..];
      FP.ConcatAssoc(afterParse, drops, batch);
      FP.ConcatAssoc(old(events), MalformedEvents(ParseAll(lines).malformed), drops + batch);
    }

    /** The NumPy casts of the kept samples: a batch when they fit, the end of the batch task when they raise. */
    method EmitCast(keptTs: seq<int>, keptVs: seq<int>)
      modifies this
      ensures events == old(events) + (if BH.CastsFit(keptTs, keptVs) then [DataBatch(keptTs, keptVs)] else [])
      ensures batchTask == (old(batchTask) && BH.CastsFit(keptTs, keptVs))
      ensures state == old(state) && rxBytes == old(rxBytes) && maxBufferSeconds == old(maxBufferSeconds)
    {
      if !BH.CastsFit(keptTs, keptVs) {
        batchTask := false;
        return;
      }
      events := events + [DataBatch(keptTs, keptVs)];
    }

    /** The buffer handling of `_disconnect_sequence`: no partial line survives a disconnect. */
    method DisconnectSequence(reason: string)
      modifies this
      ensures rxBytes == [] && state == BH.Disconnected && !batchTask
      ensures target == None && notifyUuid == None && writeUuid == None && !sticky
      ensures events == old(events) + [ConnectionChanged(false)] + (if |reason| > 0 then [ErrorOccurred(reason, 0)] else [])
      ensures maxBufferSeconds == old(maxBufferSeconds)
    {
      batchTask := false;
      rxBytes := [];
      target, notifyUuid, writeUuid, sticky := None, None, None, false;
      SetState(BH.Disconnected);
      if |reason| > 0 {
        events := events + [ErrorOccurred(reason, 0)];
      }
    }

    /** `_send_command_async` is a stub in this handler: no write and no signal, whatever the state. */
    method SendCommandAsync(text: string, nowait: bool, tag: string)
      ensures events == old(events) && state == old(state) && rxBytes == old(rxBytes)
    {
    }
  }
}
