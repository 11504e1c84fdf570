/**
 * The host-side BLE frame parser: raw notification bytes are accumulated in a
 * buffer, split into CRLF-terminated lines, and each line becomes a data frame
 * (`timestamp,millivolts`) or a management frame (any other text).
 */
module FrameParser {
  import opened Wrappers
  import opened PyText

  datatype DataFrame = DataFrame(timestampMs: int, millivolts: int)

  /** A non-data line; its payload is the stripped line, one character per byte. */
  datatype ManagementFrame = ManagementFrame(payload: string)

  /** What one call of `take_frames` yields and leaves in the buffer. */
  datatype Taken = Taken(data: seq<DataFrame>, mgmt: seq<ManagementFrame>, leftover: string)

  /** The separator `\r\n` starts at position `i` of `s`. */
  predicate SepAt(s: string, i: int)
  {
    0 <= i && i + 1 < |s| && s[i] == '\r' && s[i + 1] == '\n'
  }

  predicate NoSep(s: string)
  {
    forall i :: 0 <= i < |s| ==> !SepAt(s, i)
  }

  /** `s.find(b"\r\n")`. */
  function FindSep(s: string): (r: Option<nat>)
    ensures r.None? <==> NoSep(s)
    ensures r.Some? ==> SepAt(s, r.value) && forall i :: i < r.value ==> !SepAt(s, i)
  {
    if |s| < 2 then None
    else if s[0] == '\r' && s[1] == '\n' then assert SepAt(s, 0); Some(0)
    else
      var t := s[1..];
      var r := FindSep(t);
      assert forall j :: 0 < j < |s| ==> SepAt(s, j) == SepAt(t, j - 1);
      match r
      case None =>
        assert NoSep(s) by {
          forall j | 0 <= j < |s| ensures !SepAt(s, j) {
            if j > 0 { assert !SepAt(t, j - 1); }
          }
        }
        None
      case Some(i) =>
        assert SepAt(s, i + 1);
        Some(i + 1)
  }

  /** `s.split(b"\r\n")`: the pieces between separators, always at least one. */
  function Split(s: string): (parts: seq<string>)
    ensures |parts| >= 1
    decreases |s|
  {
    match FindSep(s)
    case None => [s]
    case Some(i) => [s[..i]] + Split(s[i + 2..])
  }

  /** The CRLF-terminated lines at the front of `s`, in order, without their separators. */
  function Lines(s: string): seq<string>
    decreases |s|
  {
    match FindSep(s)
    case None => []
    case Some(i) => [s[..i]] + Lines(s[i + 2..])
  }

  /** What follows the last separator of `s`; all of `s` when it has none. */
  function Rest(s: string): (r: string)
    ensures NoSep(r) && |r| <= |s| && r == s[|s| - |r|..]
    decreases |s|
  {
    match FindSep(s)
    case None => s
    case Some(i) => Rest(s[i + 2..])
  }

  /** The lines written back with their terminators. */
  function Terminated(lines: seq<string>): string
  {
    if |lines| == 0 then [] else lines[0] + "\r\n" + Terminated(lines[1..])
  }

  /** How one complete line is classified by `take_frames`. */
  datatype LineKind = Blank | Data(dataFrame: DataFrame) | Malformed | Management(mgmtFrame: ManagementFrame)

  /** A stripped line looks like data: digits, a comma, then digits after any run of signs. */
  predicate LooksLikeData(parts: seq<string>)
  {
    |parts| == 2 && IsDigitString(parts[0]) && IsDigitString(LStripSigns(parts[1]))
  }

  function Classify(line: string): LineKind
  {
    ClassifyStripped(Strip(line))
  }

  function ClassifyStripped(stripped: string): LineKind
  {
    if |stripped| == 0 then Blank else ClassifyParts(stripped, SplitOnce(stripped, ','))
  }

  function ClassifyParts(stripped: string, parts: seq<string>): LineKind
  {
    if LooksLikeData(parts) then DataOrMalformed(PyInt(parts[0]), PyInt(parts[1]))
    else Management(ManagementFrame(stripped))
  }

  /** Both numbers must convert, otherwise the line is counted as malformed and dropped. */
  function DataOrMalformed(ts: Option<int>, mv: Option<int>): LineKind
  {
    if ts.Some? && mv.Some? then Data(DataFrame(ts.value, mv.value)) else Malformed
  }

  function KindData(k: LineKind): seq<DataFrame>
  {
    if k.Data? then [k.dataFrame] else []
  }

  function KindMgmt(k: LineKind): seq<ManagementFrame>
  {
    if k.Management? then [k.mgmtFrame] else []
  }

  function DataOf(line: string): seq<DataFrame>
  {
    KindData(Classify(line))
  }

  function MgmtOf(line: string): seq<ManagementFrame>
  {
    KindMgmt(Classify(line))
  }

  /** The outputs of `f` over a run of lines, concatenated in line order. */
  function FlatMap<T>(f: string -> seq<T>, lines: seq<string>): seq<T>
  {
    if |lines| == 0 then [] else FlatMap(f, lines[..|lines| - 1]) + f(lines[|lines| - 1])
  }

  /** The data frames of a run of lines, in line order. */
  function DataFrames(lines: seq<string>): seq<DataFrame>
  {
    FlatMap(DataOf, lines)
  }

  /** The management frames of a run of lines, in line order. */
  function MgmtFrames(lines: seq<string>): seq<ManagementFrame>
  {
    FlatMap(MgmtOf, lines)
  }

  /** The lines of a list that are not empty (`[line for line in raw_lines if line]`). */
  function NonEmpty(lines: seq<string>): (r: seq<string>)
    ensures forall l :: l in r ==> |l| > 0
  {
    if |lines| == 0 then []
    else NonEmpty(lines[..|lines| - 1]) + (if |lines[|lines| - 1]| > 0 then [lines[|lines| - 1]] else [])
  }

  /** Specification of `take_frames` on a buffer. */
  function Drain(buffer: string): Taken
  {
    Taken(DataFrames(Lines(buffer)), MgmtFrames(Lines(buffer)), Rest(buffer))
  }

  class BLEFrameParser {
    var buffer: seq<Byte>

    constructor()
      ensures buffer == []
    {
      buffer := [];
    }

    /** Appends the bytes of one notification. */
    method Feed(data: seq<Byte>)
      modifies this
      ensures buffer == old(buffer) + data
    {
      buffer := buffer + data;
    }

    /** Consumes every complete line of the buffer, keeping the trailing partial line. */
    method TakeFrames() returns (dataFrames: seq<DataFrame>, mgmtFrames: seq<ManagementFrame>)
      modifies this
      ensures Taken(dataFrames, mgmtFrames, buffer) == Drain(old(buffer))
    {
      if |buffer| == 0 {
        NoSepDrain(buffer);
        return [], [];
      }
      var data := buffer;
      ghost var spec := Drain(data);
      var lastIdx := RFindSep(data);
      if lastIdx == -1 {
        NoSepDrain(data);
        return [], [];
      }
      var completeRegion := data[..lastIdx + 2];
      var leftover := data[lastIdx + 2..];
      DrainByRegion(data, lastIdx);
      assert leftover == spec.leftover;
      buffer := leftover;
      var rawLines := Split(completeRegion);
      var lines := NonEmpty(rawLines);
      dataFrames, mgmtFrames := [], [];
      var malformedCount := 0;
      var i := 0;
      while i < |lines|
        invariant 0 <= i <= |lines|
        invariant buffer == leftover
        invariant dataFrames == DataFrames(lines[..i])
        invariant mgmtFrames == MgmtFrames(lines[..i])
      {
        var lineData, lineMgmt, malformed := ClassifyLine(lines[i]);
        dataFrames, mgmtFrames := dataFrames + lineData, mgmtFrames + lineMgmt;
        if malformed {
          malformedCount := malformedCount + 1;
        }
        FlatMapStep(DataOf, lines, i);
        FlatMapStep(MgmtOf, lines, i);
        i := i + 1;
      }
      assert lines[..i] == lines;
    }
  }

  /** The body of the classification loop of `take_frames` for one line. */
  method ClassifyLine(line: string) returns (lineData: seq<DataFrame>, lineMgmt: seq<ManagementFrame>, malformed: bool)
    ensures lineData == DataOf(line) && lineMgmt == MgmtOf(line)
    ensures malformed <==> Classify(line).Malformed?
  {
    lineData, lineMgmt, malformed := [], [], false;
    var stripped := Strip(line);
    if |stripped| > 0 {
      var parts := SplitOnce(stripped, ',');
      if LooksLikeData(parts) {
        var ts := PyInt(parts[0]);
        var mv := PyInt(parts[1]);
        if ts.Some? && mv.Some? {
          lineData := [DataFrame(ts.value, mv.value)];
        } else {
          malformed := true;
        }
        assert Classify(line) == DataOrMalformed(ts, mv);
      } else {
        lineMgmt := [ManagementFrame(stripped)];
        assert Classify(line) == Management(ManagementFrame(stripped));
      }
    } else {
      assert Classify(line) == Blank;
    }
  }

  /** `data.rfind(b"\r\n")`, or -1. */
  method RFindSep(s: string) returns (idx: int)
    ensures idx == -1 <==> NoSep(s)
    ensures idx != -1 ==> SepAt(s, idx) && forall k :: idx < k ==> !SepAt(s, k)
  {
    var i := |s|;
    while i >= 2 && !(s[i - 2] == '\r' && s[i - 1] == '\n')
      invariant 0 <= i <= |s|
      invariant forall k :: i - 2 < k ==> !SepAt(s, k)
    {
      i := i - 1;
    }
    idx := if i >= 2 then i - 2 else -1;
    assert idx != -1 ==> SepAt(s, idx);
  }

  lemma NoSepDrain(s: string)
    requires NoSep(s)
    ensures Drain(s) == Taken([], [], s)
  {
  }

  /** `take_frames` as written (cut after the last separator, split, drop empty pieces) computes `Drain`. */
  lemma DrainByRegion(data: string, j: int)
    requires SepAt(data, j) && forall k :: j < k ==> !SepAt(data, k)
    ensures Drain(data) == Taken(DataFrames(NonEmpty(Split(data[..j + 2]))), MgmtFrames(NonEmpty(Split(data[..j + 2]))), data[j + 2..])
  {
    var rawLines := Split(data[..j + 2]);
    RegionSplit(data, j);
    FramesOfNonEmpty(rawLines);
    FramesAppend(Lines(data), [[]]);
    assert Strip([]) == [];
    assert DataFrames([[]]) == [] && MgmtFrames([[]]) == [];
    ConcatEmpty(DataFrames(Lines(data)));
    ConcatEmpty(MgmtFrames(Lines(data)));
  }

  /** Cutting the buffer after its last separator: `split` of the complete region gives the lines and one empty piece. */
  lemma RegionSplit(data: string, j: int)
    requires SepAt(data, j) && forall k :: j < k ==> !SepAt(data, k)
    ensures Split(data[..j + 2]) == Lines(data) + [[]]
    ensures data[j + 2..] == Rest(data)
  {
    var region := data[..j + 2];
    RegionLines(data, j);
    RestOfRegion(data, j);
    SplitIsLinesAndRest(region);
  }

  /** The complete region has the same lines as the whole buffer. */
  lemma RegionLines(data: string, j: int)
    requires SepAt(data, j) && forall k :: j < k ==> !SepAt(data, k)
    ensures Lines(data) == Lines(data[..j + 2]) && Rest(data) == data[j + 2..]
  {
    RestOfRegion(data, j);
    NoSepAfterLast(data, j);
    SplitAt(data, j + 2);
    LinesAppendClean(data[..j + 2], data[j + 2..]);
  }

  lemma SplitAt(s: string, k: nat)
    requires k <= |s|
    ensures s == s[..k] + s[k..]
  {
  }

  /** Appending a text without separators after a text that ends in one adds no line. */
  lemma LinesAppendClean(b: string, c: string)
    requires Rest(b) == [] && NoSep(c)
    ensures Lines(b + c) == Lines(b) && Rest(b + c) == c
  {
    LinesAppend(b, c);
    assert Rest(b) + c == c;
    assert Lines(c) == [] && Rest(c) == c;
    ConcatEmpty(Lines(b));
  }

  lemma RestOfRegion(data: string, j: int)
    requires SepAt(data, j)
    ensures Rest(data[..j + 2]) == []
  {
    var s := data[..j + 2];
    assert SepAt(s, |s| - 2);
    RestOfTerminated(s);
  }

  lemma NoSepAfterLast(data: string, j: int)
    requires SepAt(data, j) && forall k :: j < k ==> !SepAt(data, k)
    ensures NoSep(data[j + 2..]) && Lines(data[j + 2..]) == [] && Rest(data[j + 2..]) == data[j + 2..]
  {
    var tail := data[j + 2..];
    forall k | 0 <= k < |tail| ensures !SepAt(tail, k) {
      assert !SepAt(data, j + 2 + k);
    }
  }

  lemma HeadTail<T>(a: seq<T>)
    requires |a| > 0
    ensures [a[0]] + a[1..] == a
  {
  }

  lemma ConcatEmpty<T>(a: seq<T>)
    ensures a + [] == a
  {
  }

  lemma AppendAssoc<T>(a: seq<T>, b: seq<T>, c: seq<T>)
    ensures (a + b) + c == a + (b + c)
  {
  }

  /** A text ending in the separator leaves nothing after its last separator. */
  lemma RestOfTerminated(s: string)
    requires SepAt(s, |s| - 2)
    ensures Rest(s) == []
  {
    var x := s[..|s| - 2];
    assert s == x + "\r\n";
    LinesAppend(x, "\r\n");
    var y := Rest(x);
    assert SepAt(y + "\r\n", |y|);
    assert forall k :: k < |y| ==> !SepAt(y + "\r\n", k) by {
      forall k | k < |y| ensures !SepAt(y + "\r\n", k) {
        if SepAt(y + "\r\n", k) && k + 1 < |y| { assert SepAt(y, k); }
      }
    }
    assert (y + "\r\n")[|y| + 2..] == [];
  }

  /** `split` yields the complete lines followed by the rest. */
  lemma {:induction false} SplitIsLinesAndRest(s: string)
    ensures Split(s) == Lines(s) + [Rest(s)]
    decreases |s|
  {
    match FindSep(s)
    case None =>
    case Some(i) =>
      var t := s[i + 2..];
      SplitIsLinesAndRest(t);
      assert Split(s) == [s[..i]] + Split(t);
      assert Lines(s) == [s[..i]] + Lines(t);
      assert Rest(s) == Rest(t);
      AppendAssoc([s[..i]], Lines(t), [Rest(t)]);
  }

  /** The first separator of `b` is the first separator of `b + c`. */
  lemma FindSepPrefix(b: string, c: string)
    requires FindSep(b).Some?
    ensures FindSep(b + c) == FindSep(b)
  {
    var i := FindSep(b).value;
    assert SepAt(b + c, i);
    forall k | 0 <= k < i ensures !SepAt(b + c, k) {
      assert !SepAt(b, k);
    }
  }

  lemma {:induction false} LinesAppend(b: string, c: string)
    ensures Lines(b + c) == Lines(b) + Lines(Rest(b) + c)
    ensures Rest(b + c) == Rest(Rest(b) + c)
    decreases |b|
  {
    if FindSep(b).None? {
      assert Lines(b) == [] && Rest(b) == b;
    } else {
      var i := FindSep(b).value;
      var t := b[i + 2..];
      LinesAppendStep(b, c, i);
      LinesAppend(t, c);
      var l0, lt, lr := [b[..i]], Lines(t), Lines(Rest(t) + c);
      assert Lines(b + c) == l0 + (lt + lr);
      ConcatAssoc(l0, lt, lr);
    }
  }

  lemma ConcatAssoc<T>(a: seq<T>, b: seq<T>, c: seq<T>)
    ensures a + (b + c) == (a + b) + c
  {
  }

  lemma LinesAppendStep(b: string, c: string, i: nat)
    requires FindSep(b) == Some(i)
    ensures Lines(b) == [b[..i]] + Lines(b[i + 2..]) && Rest(b) == Rest(b[i + 2..])
    ensures Lines(b + c) == [b[..i]] + Lines(b[i + 2..] + c) && Rest(b + c) == Rest(b[i + 2..] + c)
  {
    FindSepPrefix(b, c);
    assert (b + c)[..i] == b[..i];
    assert (b + c)[i + 2..] == b[i + 2..] + c;
  }

  lemma FlatMapStep<T>(f: string -> seq<T>, lines: seq<string>, i: nat)
    requires i < |lines|
    ensures FlatMap(f, lines[..i + 1]) == FlatMap(f, lines[..i]) + f(lines[i])
  {
    assert lines[..i + 1][..i] == lines[..i];
  }

  lemma {:induction false} FlatMapAppend<T>(f: string -> seq<T>, x: seq<string>, y: seq<string>)
    ensures FlatMap(f, x + y) == FlatMap(f, x) + FlatMap(f, y)
    decreases |y|
  {
    if |y| == 0 {
      assert x + y == x;
    } else {
      assert (x + y)[..|x + y| - 1] == x + y[..|y| - 1];
      FlatMapAppend(f, x, y[..|y| - 1]);
    }
  }

  lemma FramesAppend(x: seq<string>, y: seq<string>)
    ensures DataFrames(x + y) == DataFrames(x) + DataFrames(y)
    ensures MgmtFrames(x + y) == MgmtFrames(x) + MgmtFrames(y)
  {
    FlatMapAppend(DataOf, x, y);
    FlatMapAppend(MgmtOf, x, y);
  }

  /** Dropping empty lines first does not change the outputs of a map that yields nothing for them. */
  lemma {:induction false} FlatMapNonEmpty<T>(f: string -> seq<T>, lines: seq<string>)
    requires f([]) == []
    ensures FlatMap(f, NonEmpty(lines)) == FlatMap(f, lines)
  {
    if |lines| > 0 {
      var init, last := lines[..|lines| - 1], lines[|lines| - 1];
      FlatMapNonEmpty(f, init);
      FlatMapAppend(f, NonEmpty(init), if |last| > 0 then [last] else []);
      assert [last][..0] == [];
    }
  }

  lemma FramesOfNonEmpty(lines: seq<string>)
    ensures DataFrames(NonEmpty(lines)) == DataFrames(lines)
    ensures MgmtFrames(NonEmpty(lines)) == MgmtFrames(lines)
  {
    assert Strip([]) == [];
    FlatMapNonEmpty(DataOf, lines);
    FlatMapNonEmpty(MgmtOf, lines);
  }

  // ---------------------------------------------------------------------------
  // Properties of take_frames

  /** Feeding `b` then `c` with a `take_frames` in between yields the same frames, in the same order, as one call on `b + c`. */
  lemma DrainAppend(b: string, c: string)
    ensures Drain(b + c).data == Drain(b).data + Drain(Drain(b).leftover + c).data
    ensures Drain(b + c).mgmt == Drain(b).mgmt + Drain(Drain(b).leftover + c).mgmt
    ensures Drain(b + c).leftover == Drain(Drain(b).leftover + c).leftover
  {
    LinesAppend(b, c);
    FramesAppend(Lines(b), Lines(Rest(b) + c));
  }

  /** The frames and final buffer of a parser fed `chunks` one at a time from `buffer`, with `take_frames` after each. */
  function RunChunks(buffer: string, chunks: seq<string>): Taken
    decreases |chunks|
  {
    if |chunks| == 0 then Taken([], [], buffer)
    else
      var first := Drain(buffer + chunks[0]);
      var rest := RunChunks(first.leftover, chunks[1..]);
      Taken(first.data + rest.data, first.mgmt + rest.mgmt, rest.leftover)
  }

  function Concat(chunks: seq<string>): string
  {
    if |chunks| == 0 then [] else chunks[0] + Concat(chunks[1..])
  }

  /** However the byte stream is cut into notifications, the frames are those of the whole stream. */
  lemma {:induction false} ChunkingInvariance(buffer: string, chunks: seq<string>)
    requires NoSep(buffer)
    ensures RunChunks(buffer, chunks) == Drain(buffer + Concat(chunks))
    decreases |chunks|
  {
    if |chunks| == 0 {
      ConcatEmpty(buffer);
      NoSepDrain(buffer);
    } else {
      var first := Drain(buffer + chunks[0]);
      var c := Concat(chunks[1..]);
      ChunkingInvariance(first.leftover, chunks[1..]);
      ConcatAssoc(buffer, chunks[0], c);
      DrainAppend(buffer + chunks[0], c);
    }
  }

  /** Every data frame comes from a data line and carries a non-negative timestamp. */
  lemma TimestampsNonNegative(buffer: string)
    ensures forall f :: f in Drain(buffer).data ==> f.timestampMs >= 0
  {
    forall line ensures forall f :: f in DataOf(line) ==> f.timestampMs >= 0 {
      ClassifyData(line);
    }
    FlatMapAll(DataOf, Lines(buffer), (f: DataFrame) => f.timestampMs >= 0);
  }

  lemma {:induction false} FlatMapAll<T>(f: string -> seq<T>, lines: seq<string>, p: T -> bool)
    requires forall line, x :: x in f(line) ==> p(x)
    ensures forall x :: x in FlatMap(f, lines) ==> p(x)
  {
    if |lines| > 0 {
      FlatMapAll(f, lines[..|lines| - 1], p);
    }
  }

  /** The text of a data line: digits, a comma, then digits with at most one leading sign. */
  predicate IsDataText(t: string)
  {
    var parts := SplitOnce(t, ',');
    && |parts| == 2 && IsDigitString(parts[0])
    && (IsDigitString(parts[1]) || (|parts[1]| > 0 && IsSign(parts[1][0]) && IsDigitString(parts[1][1..])))
  }

  /** A line yields a data frame exactly when its stripped text is a data text; the frame holds the two decimal values. */
  lemma ClassifyData(line: string)
    ensures Classify(line).Data? <==> IsDataText(Strip(line))
    ensures Classify(line).Data? ==>
      var parts := SplitOnce(Strip(line), ',');
      && Classify(line).dataFrame.timestampMs == DigitsValue(parts[0]) >= 0
      && PyInt(parts[1]) == Some(Classify(line).dataFrame.millivolts)
  {
    ClassifyTextData(Strip(line));
  }

  lemma ClassifyTextData(t: string)
    ensures ClassifyStripped(t).Data? <==> IsDataText(t)
    ensures ClassifyStripped(t).Data? ==>
      var parts := SplitOnce(t, ',');
      && ClassifyStripped(t).dataFrame.timestampMs == DigitsValue(parts[0]) >= 0
      && PyInt(parts[1]) == Some(ClassifyStripped(t).dataFrame.millivolts)
  {
    var parts := SplitOnce(t, ',');
    if |t| == 0 {
      assert |parts| == 1;
    } else if LooksLikeData(parts) {
      PyIntOfDigits(parts[0]);
      SignedText(parts[1]);
    } else if |parts| == 2 && IsDataText(t) {
      SignsThenDigits(parts[1]);
    }
  }

  /** A data text passes the looks-like-data test. */
  lemma SignsThenDigits(p: string)
    requires IsDigitString(p) || (|p| > 0 && IsSign(p[0]) && IsDigitString(p[1..]))
    ensures IsDigitString(LStripSigns(p))
  {
    var r := LStripSigns(p);
    var n := |p| - |r|;
    if IsSign(p[0]) {
      assert n == 1 by { if |p| > 1 { assert p[1..][0] == p[1]; } }
      assert r == p[1..];
    } else {
      assert n == 0;
    }
  }

  /** `int()` of a text that is digits after its leading signs succeeds exactly when there is at most one sign. */
  lemma SignedText(p: string)
    requires IsDigitString(LStripSigns(p))
    ensures PyInt(p).Some? <==> (IsDigitString(p) || (|p| > 0 && IsSign(p[0]) && IsDigitString(p[1..])))
  {
    var d := LStripSigns(p);
    var n := |p| - |d|;
    assert p[n..] == d;
    if n == 0 {
      PyIntOfDigits(p);
    } else if n == 1 {
      OneSign(p, d);
    } else {
      TwoSigns(p, d);
    }
  }

  lemma OneSign(p: string, d: string)
    requires IsDigitString(d) && |p| == |d| + 1 && p[1..] == d && IsSign(p[0])
    ensures PyInt(p).Some? && !IsDigitString(p)
  {
    assert p == [p[0]] + d;
    PyIntOfSignedDigits(p[0], d);
  }

  lemma TwoSigns(p: string, d: string)
    requires IsDigitString(d) && |p| >= |d| + 2 && p[|p| - |d|..] == d
    requires forall i :: 0 <= i < |p| - |d| ==> IsSign(p[i])
    ensures PyInt(p).None? && !IsDigitString(p) && !IsDigitString(p[1..])
  {
    assert IsSign(p[0]) && IsSign(p[1]);
    assert p[|p| - 1] == d[|d| - 1];
    assert p == [p[0], p[1]] + p[2..];
    PyIntRejectsTwoSigns(p[0], p[1], p[2..]);
    assert p[1..][0] == p[1];
  }

  /** A line that looks like data but has two or more signs before the millivolts is malformed: it yields no frame at all. */
  lemma ClassifyMalformed(line: string)
    ensures Classify(line).Malformed? <==>
      var t := Strip(line);
      |t| > 0 && LooksLikeData(SplitOnce(t, ',')) && !IsDataText(t)
    ensures Classify(line).Malformed? ==> DataOf(line) == [] && MgmtOf(line) == []
  {
    ClassifyData(line);
  }

  /** Every other non-blank line becomes one management frame holding the stripped line. */
  lemma ClassifyManagement(line: string)
    ensures Classify(line).Management? <==> |Strip(line)| > 0 && !LooksLikeData(SplitOnce(Strip(line), ','))
    ensures Classify(line).Management? ==> MgmtOf(line) == [ManagementFrame(Strip(line))] && DataOf(line) == []
  {
  }

  /** The line a device would send for one sample, terminator included. */
  function FormatLine(f: DataFrame): string
    requires f.timestampMs >= 0
  {
    NatToDecimal(f.timestampMs) + "," + IntToDecimal(f.millivolts)
  }

  function FormatFrames(frames: seq<DataFrame>): string
    requires forall f :: f in frames ==> f.timestampMs >= 0
  {
    if |frames| == 0 then [] else FormatLine(frames[0]) + "\r\n" + FormatFrames(frames[1..])
  }

  /** A formatted sample is read back as the same data frame. */
  lemma ClassifyFormatted(f: DataFrame)
    requires f.timestampMs >= 0
    ensures Classify(FormatLine(f)) == Data(f) && NoSep(FormatLine(f))
  {
    var ts, mv := NatToDecimal(f.timestampMs), IntToDecimal(f.millivolts);
    DecimalShape(f.millivolts);
    FormattedLine(ts, mv);
    IntDecimalRoundTrip(f.millivolts);
    PyIntOfDigits(ts);
  }

  /** `str(n)` is digits after an optional minus sign. */
  lemma DecimalShape(n: int)
    ensures var s := IntToDecimal(n);
      && |s| > 0 && IsDigit(s[|s| - 1]) && IsDigitString(LStripSigns(s))
      && forall i :: 0 <= i < |s| ==> IsDigit(s[i]) || s[i] == '-'
  {
    var s := IntToDecimal(n);
    if n < 0 {
      var d := NatToDecimal(-n);
      assert s[1..] == d;
      assert !IsSign(d[0]);
      assert s[1] == d[0];
    }
  }

  /** A line `ts,mv` of digits (and a minus sign) is already stripped, splits at its comma and holds no separator. */
  lemma FormattedLine(ts: string, mv: string)
    requires IsDigitString(ts) && |mv| > 0 && IsDigit(mv[|mv| - 1])
    requires forall i :: 0 <= i < |mv| ==> IsDigit(mv[i]) || mv[i] == '-'
    ensures var line := ts + "," + mv;
      Strip(line) == line && SplitOnce(line, ',') == [ts, mv] && NoSep(line)
  {
    var line := ts + "," + mv;
    assert line[0] == ts[0];
    assert line[|line| - 1] == mv[|mv| - 1];
    StripTrimmed(line);
    assert ',' !in ts by { forall i | 0 <= i < |ts| ensures ts[i] != ',' { assert IsDigit(ts[i]); } }
    assert line == ts + [','] + mv;
    assert line[..|ts|] == ts && line[|ts| + 1..] == mv;
    assert NoSep(line) by {
      forall i | 0 <= i < |line| ensures line[i] != '\r' {
        if i < |ts| { assert IsDigit(ts[i]); } else if i > |ts| { assert line[i] == mv[i - |ts| - 1]; }
      }
    }
  }

  /** Round trip: the formatted samples, followed by any unterminated tail, drain to exactly those samples and the tail. */
  lemma {:induction false} DrainFormatted(frames: seq<DataFrame>, tail: string)
    requires forall f :: f in frames ==> f.timestampMs >= 0
    requires NoSep(tail)
    ensures Drain(FormatFrames(frames) + tail) == Taken(frames, [], tail)
  {
    if |frames| == 0 {
      assert FormatFrames(frames) + tail == tail;
      NoSepDrain(tail);
    } else {
      var line := FormatLine(frames[0]);
      var more := FormatFrames(frames[1..]) + tail;
      ClassifyFormatted(frames[0]);
      DrainFormatted(frames[1..], tail);
      assert FormatFrames(frames) == (line + "\r\n") + FormatFrames(frames[1..]);
      AppendAssoc(line + "\r\n", FormatFrames(frames[1..]), tail);
      DrainLine(line, more);
      HeadTail(frames);
    }
  }

  /** One complete line in front of a buffer contributes its own frames first. */
  lemma DrainLine(line: string, more: string)
    requires NoSep(line)
    ensures Drain(line + "\r\n" + more) == Taken(DataOf(line) + Drain(more).data, MgmtOf(line) + Drain(more).mgmt, Drain(more).leftover)
  {
    LinesCons(line, more);
    FramesAppend([line], Lines(more));
    FlatMapSingle(DataOf, line);
    FlatMapSingle(MgmtOf, line);
  }

  lemma LinesCons(line: string, more: string)
    requires NoSep(line)
    ensures Lines(line + "\r\n" + more) == [line] + Lines(more)
    ensures Rest(line + "\r\n" + more) == Rest(more)
  {
    var s := line + "\r\n" + more;
    assert SepAt(s, |line|);
    forall k | 0 <= k < |line| ensures !SepAt(s, k) {
      assert !SepAt(line, k);
      if k + 1 == |line| { assert s[k + 1] == '\r'; }
    }
    assert FindSep(s) == Some(|line|);
    assert s[..|line|] == line;
    assert s[|line| + 2..] == more;
  }

  lemma FlatMapSingle<T>(f: string -> seq<T>, line: string)
    ensures FlatMap(f, [line]) == f(line)
  {
    assert [line][..0] == [];
  }

  /** The example from the frame format: two samples, a signed one, and a partial third line kept for later. */
  lemma ExampleTwoSamples()
    ensures Drain("12,34\r\n56,-78\r\n9") == Taken([DataFrame(12, 34), DataFrame(56, -78)], [], "9")
  {
    var frames := [DataFrame(12, 34), DataFrame(56, -78)];
    assert NatToDecimal(12) == "12" && NatToDecimal(56) == "56";
    assert IntToDecimal(34) == "34" && IntToDecimal(-78) == "-78";
    assert FormatFrames(frames) + "9" == "12,34\r\n56,-78\r\n9";
    assert NoSep("9");
    DrainFormatted(frames, "9");
  }

  /** A malformed line (such as `1,+-2`) is skipped: the buffer drains as if it were not there. */
  lemma {:induction false} MalformedLineDropped(line: string, more: string)
    requires NoSep(line) && Classify(line) == Malformed
    ensures Drain(line + "\r\n" + more) == Drain(more)
  {
    DrainLine(line, more);
    LineOutputs(line);
    ConcatEmptyLeft(Drain(more).data);
    ConcatEmptyLeft(Drain(more).mgmt);
  }

  /** What one line yields, by its kind. */
  lemma LineOutputs(line: string)
    ensures Classify(line) == Malformed ==> DataOf(line) == [] && MgmtOf(line) == []
    ensures Classify(line).Management? ==> DataOf(line) == [] && MgmtOf(line) == [Classify(line).mgmtFrame]
  {
  }

  lemma ConcatEmptyLeft<T>(a: seq<T>)
    ensures [] + a == a
  {
  }

  /** A status line (such as `OK`) is kept as a management frame ahead of those after it. */
  lemma {:induction false} StatusLineKept(line: string, more: string)
    requires NoSep(line) && Classify(line).Management?
    ensures Drain(line + "\r\n" + more)
      == Taken(Drain(more).data, [Classify(line).mgmtFrame] + Drain(more).mgmt, Drain(more).leftover)
  {
    DrainLine(line, more);
    LineOutputs(line);
    ConcatEmptyLeft(Drain(more).data);
  }

  /** `1,+-2` carries a doubly signed value, which `int()` refuses, so the line is malformed. */
  lemma ClassifyDoubleSign()
    ensures Classify("1,+-2") == Malformed && NoSep("1,+-2")
  {
    var m := "1,+-2";
    StripTrimmed(m);
    SplitDoubleSign();
    DoubleSignRejected();
    PyIntOfDigits("1");
  }

  lemma SplitDoubleSign()
    ensures SplitOnce("1,+-2", ',') == ["1", "+-2"]
  {
    var m := "1,+-2";
    assert IndexOf(m[1..], ',') == Some(0);
    assert IndexOf(m, ',') == Some(1);
    assert m[..1] == "1" && m[2..] == "+-2";
  }

  lemma DoubleSignRejected()
    ensures LStripSigns("+-2") == "2" && PyInt("+-2") == None
  {
    assert SkipSigns("+-2", 2) == 2;
    PyIntRejectsTwoSigns('+', '-', "2");
    assert ['+', '-'] + "2" == "+-2";
  }

  /** `OK` is a status line. */
  lemma ClassifyStatus()
    ensures Classify("OK") == Management(ManagementFrame("OK")) && NoSep("OK")
  {
    StripTrimmed("OK");
    assert SplitOnce("OK", ',') == ["OK"];
  }
}
