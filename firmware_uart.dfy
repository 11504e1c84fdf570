/**
 * The UART command reader of the nRF5340 firmware (firmware/src/main.c,
 * `uart_cb`): each RX_RDY event hands it one character, which it appends to
 * `command_buffer` when it is a digit, an upper-case letter, `:`, `-`, `.` or
 * carriage return. A carriage return ends the line: the line `START` sets
 * `start_received`, the line `ON` sets `on_recieved`. Any other character
 * discards the line.
 *
 * The UART driver, the re-enabling of reception on RX_DISABLED and the use of
 * `command_buffer` as the driver's DMA buffer are left out; the polling loops
 * in `wait_for_start_command`/`wait_for_on_command` are concurrency.
 */
module FirmwareUart {
  import opened Wrappers
  import Utf8

  type Byte = Utf8.uint8

  /** The length of `command_buffer`. */
  const CommandBufferSize: nat := 32
  const Cr: Byte := 13

  /** The characters `uart_cb` stores. */
  predicate Accepted(c: Byte)
  {
    ('0' as int <= c <= '9' as int) || c == ':' as int || c == '-' as int
    || ('A' as int <= c <= 'Z' as int) || c == Cr || c == '.' as int
  }

  /** The bytes of an ASCII text. */
  function Ascii(s: string): (b: seq<Byte>)
    requires forall i :: 0 <= i < |s| ==> s[i] as int < 256
    ensures |b| == |s| && forall i :: 0 <= i < |s| ==> b[i] == s[i] as int
  {
    seq(|s|, i requires 0 <= i < |s| => s[i] as int)
  }

  /** The C string stored at the start of `a`: everything before the first NUL. */
  function CString(a: seq<Byte>): (s: seq<Byte>)
    ensures |s| <= |a| && s == a[..|s|] && (forall i :: 0 <= i < |s| ==> s[i] != 0)
    ensures |s| < |a| ==> a[|s|] == 0
  {
    if |a| == 0 || a[0] == 0 then [] else [a[0]] + CString(a[1..])
  }

  /** A NUL at `n` with none before it ends the C string at `n`. */
  lemma {:induction false} CStringAt(a: seq<Byte>, n: nat)
    requires n < |a| && a[n] == 0 && forall i :: 0 <= i < n ==> a[i] != 0
    ensures CString(a) == a[..n]
  {
    if n > 0 {
      CStringAt(a[1..], n - 1);
      assert [a[0]] + a[1..][..n - 1] == a[..n];
    }
  }

  /** What the reader keeps between events: the characters of the current line, and the two flags. */
  datatype Reader = Reader(line: seq<Byte>, startReceived: bool, onReceived: bool)

  const Idle := Reader([], false, false)

  /**
   * One RX_RDY event carrying `c`, with the bounds check `uart_cb` lacks: a
   * character that would land past the end of `command_buffer` discards the
   * line, as a rejected character does.
   */
  function Step(r: Reader, c: Byte): Reader
  {
    if !Accepted(c) || |r.line| >= CommandBufferSize then r.(line := [])
    else if c == Cr then
      Reader([], r.startReceived || r.line == Ascii("START"), r.onReceived || r.line == Ascii("ON"))
    else r.(line := r.line + [c])
  }

  /** A sequence of RX_RDY events. */
  function Run(r: Reader, input: seq<Byte>): Reader
    decreases |input|
  {
    if |input| == 0 then r else Run(Step(r, input[0]), input[1..])
  }

  /** The line never holds more than 32 characters, each of them stored and none a carriage return. */
  predicate Wellformed(r: Reader)
  {
    |r.line| <= CommandBufferSize && forall i :: 0 <= i < |r.line| ==> Accepted(r.line[i]) && r.line[i] != Cr
  }

  /** Every event keeps the line well formed and never clears a flag. */
  lemma StepInvariant(r: Reader, c: Byte)
    requires Wellformed(r)
    ensures Wellformed(Step(r, c))
    ensures r.startReceived ==> Step(r, c).startReceived
    ensures r.onReceived ==> Step(r, c).onReceived
  {
  }

  /** The same over any input: the flags are only ever set. */
  lemma {:induction false} RunInvariant(r: Reader, input: seq<Byte>)
    requires Wellformed(r)
    ensures Wellformed(Run(r, input))
    ensures r.startReceived ==> Run(r, input).startReceived
    ensures r.onReceived ==> Run(r, input).onReceived
    decreases |input|
  {
    if |input| > 0 {
      StepInvariant(r, input[0]);
      RunInvariant(Step(r, input[0]), input[1..]);
    }
  }

  /** Stored characters that fit are appended to the line; the flags do not move. */
  lemma {:induction false} RunAppends(r: Reader, text: seq<Byte>)
    requires |r.line| + |text| <= CommandBufferSize
    requires forall i :: 0 <= i < |text| ==> Accepted(text[i]) && text[i] != Cr
    ensures Run(r, text) == r.(line := r.line + text)
    decreases |text|
  {
    if |text| > 0 {
      RunAppends(Step(r, text[0]), text[1..]);
      assert r.line + [text[0]] + text[1..] == r.line + text;
    } else {
      assert r.line + text == r.line;
    }
  }

  /** A line ended by carriage return sets `start_received` exactly when it is `START` and `on_recieved` exactly when it is `ON`. */
  lemma CompletedLine(r: Reader, text: seq<Byte>)
    requires r.line == [] && |text| < CommandBufferSize
    requires forall i :: 0 <= i < |text| ==> Accepted(text[i]) && text[i] != Cr
    ensures Run(r, text + [Cr]) == Reader([], r.startReceived || text == Ascii("START"), r.onReceived || text == Ascii("ON"))
  {
    RunAppends(r, text);
    RunSnoc(r, text, Cr);
  }

  lemma {:induction false} RunSnoc(r: Reader, input: seq<Byte>, c: Byte)
    ensures Run(r, input + [c]) == Step(Run(r, input), c)
    decreases |input|
  {
    if |input| == 0 {
      assert input + [c] == [c];
    } else {
      assert (input + [c])[1..] == input[1..] + [c];
      RunSnoc(Step(r, input[0]), input[1..], c);
    }
  }

  /** A rejected character (lower case included) right before the carriage return empties the line, so the line sets no flag: `start` then carriage return changes nothing. */
  lemma RejectedBeforeCr(r: Reader, text: seq<Byte>, c: Byte)
    requires !Accepted(c)
    ensures Run(r, text + [c] + [Cr]) == Run(r, text).(line := [])
  {
    RunSnoc(r, text, c);
    RunSnoc(r, text + [c], Cr);
  }

  // ---------------------------------------------------------------------------
  // As written

  /** `uart_cb` as written: no bound on `cmd_index`. */
  function StepAsWritten(r: Reader, c: Byte): Reader
  {
    if !Accepted(c) then r.(line := [])
    else if c == Cr then
      Reader([], r.startReceived || r.line == Ascii("START"), r.onReceived || r.line == Ascii("ON"))
    else r.(line := r.line + [c])
  }

  function RunAsWritten(r: Reader, input: seq<Byte>): Reader
    decreases |input|
  {
    if |input| == 0 then r else RunAsWritten(StepAsWritten(r, input[0]), input[1..])
  }

  /** The index `command_buffer[cmd_index++]` writes for `c`, as written: `None` when nothing is stored. */
  function StoreIndexAsWritten(r: Reader, c: Byte): Option<nat>
  {
    if Accepted(c) then Some(|r.line|) else None
  }

  lemma {:induction false} RunAsWrittenAppends(r: Reader, text: seq<Byte>)
    requires forall i :: 0 <= i < |text| ==> Accepted(text[i]) && text[i] != Cr
    ensures RunAsWritten(r, text) == r.(line := r.line + text)
    decreases |text|
  {
    if |text| > 0 {
      RunAsWrittenAppends(StepAsWritten(r, text[0]), text[1..]);
      assert r.line + [text[0]] + text[1..] == r.line + text;
    } else {
      assert r.line + text == r.line;
    }
  }

  /** As written, 32 stored characters without a carriage return make the next stored character land at index 32, past the end of the 32-byte `command_buffer`. */
  lemma AsWrittenOverflow(text: seq<Byte>, c: Byte)
    requires |text| == CommandBufferSize && Accepted(c)
    requires forall i :: 0 <= i < |text| ==> Accepted(text[i]) && text[i] != Cr
    ensures StoreIndexAsWritten(RunAsWritten(Idle, text), c) == Some(CommandBufferSize)
  {
    RunAsWrittenAppends(Idle, text);
  }

  /** Within the buffer the bounds-checked reader behaves as written. */
  lemma StepAgrees(r: Reader, c: Byte)
    requires |r.line| < CommandBufferSize
    ensures Step(r, c) == StepAsWritten(r, c)
  {
  }

  // ---------------------------------------------------------------------------
  // The callback

  /** `command_buffer`, `cmd_index` and the two flags of main.c. */
  class Uart {
    var commandBuffer: array<Byte>
    var cmdIndex: nat
    var startReceived: bool
    var onReceived: bool

    predicate Valid()
      reads this, commandBuffer
    {
      commandBuffer.Length == CommandBufferSize && cmdIndex <= CommandBufferSize
      && forall i :: 0 <= i < cmdIndex ==> Accepted(commandBuffer[i]) && commandBuffer[i] != Cr
    }

    /** The reader state the fields stand for. */
    function State(): Reader
      reads this, commandBuffer
      requires Valid()
    {
      Reader(commandBuffer[..cmdIndex], startReceived, onReceived)
    }

    constructor ()
      ensures Valid() && fresh(commandBuffer) && State() == Idle
    {
      commandBuffer := new Byte[CommandBufferSize](_ => 0);
      cmdIndex := 0;
      startReceived, onReceived := false, false;
    }

    /** `uart_cb` on RX_RDY: only the byte at `offset` is read; the new state is `Step` of the old one. */
    method RxRdy(buf: seq<Byte>, offset: nat)
      requires Valid() && offset < |buf|
      modifies this, commandBuffer
      ensures Valid() && commandBuffer == old(commandBuffer)
      ensures State() == Step(old(State()), buf[offset])
      ensures buf[offset] == Cr && old(cmdIndex) < CommandBufferSize ==> commandBuffer[old(cmdIndex)] == 0
    {
      var c := buf[offset];
      if !Accepted(c) || cmdIndex >= CommandBufferSize {
        cmdIndex := 0;
        return;
      }
      commandBuffer[cmdIndex] := c;
      cmdIndex := cmdIndex + 1;
      if c == Cr {
        commandBuffer[cmdIndex - 1] := 0;
        CStringAt(commandBuffer[..], cmdIndex - 1);
        var line := CString(commandBuffer[..]);
        assert line == old(State()).line;
        if line == Ascii("START") {
          startReceived := true;
        } else if line == Ascii("ON") {
          onReceived := true;
        }
        cmdIndex := 0;
      }
    }
  }
}
