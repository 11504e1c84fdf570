/**
 * The BLE side of the nRF5340 firmware (firmware/src/bluetooth.c): the GATT
 * write callback that copies a write into the 20-byte `write_buffer` and
 * decodes the ASCII command in it into one driver call, the connection and
 * notification flags, and `ble_send_adc_chunk`, which forwards a sample
 * payload as a notification only while a client is connected and subscribed.
 *
 * The drivers (DDS, PGA, digipot, mux, signal chain, power) are opaque: a call
 * to one is recorded as an `Action`. `atof` and the DDS amplification limits
 * (declared in dds.h) are parameters, grouped in `Analog`.
 */
module FirmwareBle {
  import opened Wrappers
  import Utf8

  type Byte = Utf8.uint8

  /** RECEIVE_BUFF_SIZE: the length of `write_buffer`. */
  const ReceiveBuffSize: nat := 20
  /** BT_GATT_CCC_NOTIFY: the CCC value a client writes to subscribe to notifications. */
  const CccNotify: int := 1
  /** BT_GATT_ERR(BT_ATT_ERR_INVALID_ATTRIBUTE_LEN): the error the bounds-checked callback returns for an over-long write. */
  const InvalidAttributeLen: int := -13

  /** The command branches of `write_custom_value`, in the order it tests them. */
  datatype Branch = Sdds | Ddsa | Ddso | Pga | Digipot | Mux | Sco | Sca | Idds | DdsOff | On | Start | Off

  /** The opaque driver calls a command can make. */
  datatype Action =
    | ChangeDdsVal(frequency: int)
    | SetDdsAmplification(amplification: real)
    | SetDdsOffset(offset: real)
    | ConfigurePga(number: int, setting: int)
    | DigipotWiperSet(channel: int, value: int)
    | SetMux(setting: int)
    | SetSignalChainOffset(offset: real)
    | SetSignalChainAmplification(gain: real)
    | StartDds(frequency: int)
    | DdsSleep
    | PowerUp
    | PowerDown

  /** `atof` applied to the C string starting at a given byte, and MIN/MAX_DDS_AMPLIFICATION. */
  datatype Analog = Analog(atof: seq<Byte> -> real, minAmplification: real, maxAmplification: real)

  /** The static registers the callback keeps besides `write_buffer`. */
  datatype Registers = Registers(
    digipotChannel: int, digipotSetting: int,
    pgaNumber: int, pgaSetting: int,
    startReceived: bool, onReceived: bool)

  /** Byte `i` of the buffer is the ASCII character `c`. */
  predicate At(w: seq<Byte>, i: nat, c: char)
  {
    i < |w| && w[i] == c as int
  }

  /** The prefix test of branch `b` holds on buffer `w`. */
  predicate Matches(w: seq<Byte>, b: Branch)
  {
    match b
    case Sdds => At(w, 0, 'S') && At(w, 1, 'D') && At(w, 2, 'D') && At(w, 3, 'S') && At(w, 4, ':')
    case Ddsa => At(w, 0, 'D') && At(w, 1, 'D') && At(w, 2, 'S') && At(w, 3, 'A') && At(w, 4, ':')
    case Ddso => At(w, 0, 'D') && At(w, 1, 'D') && At(w, 2, 'S') && At(w, 3, 'O') && At(w, 4, ':')
    case Pga => At(w, 0, 'P') && At(w, 2, ':')
    case Digipot => At(w, 0, 'D') && At(w, 2, ':')
    case Mux => At(w, 0, 'M') && At(w, 1, ':') && 2 < |w| && '0' as int <= w[2] <= '7' as int
    case Sco => At(w, 0, 'S') && At(w, 1, 'C') && At(w, 2, 'O') && At(w, 3, ':')
    case Sca => At(w, 0, 'S') && At(w, 1, 'C') && At(w, 2, 'A') && At(w, 3, ':')
    case Idds => At(w, 0, 'I') && At(w, 1, 'D') && At(w, 2, 'D') && At(w, 3, 'S')
    case DdsOff => At(w, 0, 'D') && At(w, 1, 'D') && At(w, 2, 'S') && At(w, 3, 'O') && At(w, 4, 'F') && At(w, 5, 'F')
    case On => At(w, 0, 'O') && At(w, 1, 'N')
    case Start => At(w, 0, 'S') && At(w, 1, 'T') && At(w, 2, 'A') && At(w, 3, 'R') && At(w, 4, 'T')
    case Off => At(w, 0, 'O') && At(w, 1, 'F') && At(w, 2, 'F')
  }

  /** The branch the `if`/`else if` chain takes, or `None` when control reaches the end of the callback. */
  function FirstMatch(w: seq<Byte>): Option<Branch>
  {
    if Matches(w, Sdds) then Some(Sdds)
    else if Matches(w, Ddsa) then Some(Ddsa)
    else if Matches(w, Ddso) then Some(Ddso)
    else if Matches(w, Pga) then Some(Pga)
    else if Matches(w, Digipot) then Some(Digipot)
    else if Matches(w, Mux) then Some(Mux)
    else if Matches(w, Sco) then Some(Sco)
    else if Matches(w, Sca) then Some(Sca)
    else if Matches(w, Idds) then Some(Idds)
    else if Matches(w, DdsOff) then Some(DdsOff)
    else if Matches(w, On) then Some(On)
    else if Matches(w, Start) then Some(Start)
    else if Matches(w, Off) then Some(Off)
    else None
  }

  /** No buffer passes two prefix tests: the order of the chain decides nothing. */
  lemma PrefixesExclusive(w: seq<Byte>, a: Branch, b: Branch)
    requires Matches(w, a) && Matches(w, b)
    ensures a == b
  {
  }

  /** The chain takes branch `b` exactly when `b`'s prefix test holds, and falls off the end exactly when no test holds. */
  lemma FirstMatchIsTheMatch(w: seq<Byte>, b: Branch)
    ensures FirstMatch(w) == Some(b) <==> Matches(w, b)
    ensures FirstMatch(w) == None <==> forall c :: !Matches(w, c)
  {
    FirstMatchSound(w);
    FirstMatchNone(w);
    if Matches(w, b) {
      PrefixesExclusive(w, b, FirstMatch(w).value);
    }
  }

  lemma FirstMatchSound(w: seq<Byte>)
    ensures FirstMatch(w).Some? ==> Matches(w, FirstMatch(w).value)
  {
  }

  lemma FirstMatchNone(w: seq<Byte>)
    ensures FirstMatch(w) == None <==> forall c :: !Matches(w, c)
  {
    if FirstMatch(w) == None {
      forall c ensures !Matches(w, c) {
        match c
        case Sdds => case Ddsa => case Ddso => case Pga => case Digipot => case Mux => case Sco =>
        case Sca => case Idds => case DdsOff => case On => case Start => case Off =>
      }
    }
  }

  // ---------------------------------------------------------------------------
  // atoi

  predicate IsCSpace(b: int) { b == ' ' as int || 9 <= b <= 13 }

  predicate IsCDigit(b: int) { '0' as int <= b <= '9' as int }

  /** The index of the first byte at or after `i` that `isspace` rejects. */
  function SkipCSpace(w: seq<Byte>, i: nat): (j: nat)
    ensures i <= j && (j < |w| ==> !IsCSpace(w[j]))
    ensures forall k :: i <= k < j && k < |w| ==> IsCSpace(w[k])
    decreases |w| - i
  {
    if i < |w| && IsCSpace(w[i]) then SkipCSpace(w, i + 1) else i
  }

  /** `acc` extended by the run of decimal digits starting at `i`, most significant first. */
  function DigitRun(w: seq<Byte>, i: nat, acc: int): int
    decreases |w| - i
  {
    if i < |w| && IsCDigit(w[i]) then DigitRun(w, i + 1, acc * 10 + (w[i] - '0' as int)) else acc
  }

  /** The value of a sequence of decimal digits, most significant first. */
  function DigitsValue(ds: seq<Byte>): int
  {
    if |ds| == 0 then 0 else DigitsValue(ds[..|ds| - 1]) * 10 + (ds[|ds| - 1] - '0' as int)
  }

  /** C's `atoi(&w[i])`: leading white space, an optional sign, then the longest run of digits; 0 when there is none. */
  function Atoi(w: seq<Byte>, i: nat): int
  {
    var j := SkipCSpace(w, i);
    if j < |w| && w[j] == '-' as int then -DigitRun(w, j + 1, 0)
    else if j < |w| && w[j] == '+' as int then DigitRun(w, j + 1, 0)
    else DigitRun(w, j, 0)
  }

  /** The digit run from `i` up to the first non-digit `k` reads as the value of `w[i..k]`, appended to the digits already read. */
  lemma {:induction false} DigitRunValue(w: seq<Byte>, i: nat, k: nat, p: seq<Byte>)
    requires i <= k <= |w|
    requires forall m :: i <= m < k ==> IsCDigit(w[m])
    requires k == |w| || !IsCDigit(w[k])
    ensures DigitRun(w, i, DigitsValue(p)) == DigitsValue(p + w[i..k])
    decreases k - i
  {
    if i < k {
      var q := p + [w[i]];
      assert q[..|q| - 1] == p;
      DigitRunValue(w, i + 1, k, q);
      assert q + w[i + 1..k] == p + w[i..k];
    } else {
      assert p + w[i..k] == p;
    }
  }

  /** `atoi` of an unsigned decimal numeral followed by a non-digit (such as the NUL the callback stores) is the numeral's value. */
  lemma AtoiOfDigits(w: seq<Byte>, i: nat, k: nat)
    requires i < k <= |w|
    requires forall m :: i <= m < k ==> IsCDigit(w[m])
    requires k == |w| || !IsCDigit(w[k])
    ensures Atoi(w, i) == DigitsValue(w[i..k])
  {
    assert SkipCSpace(w, i) == i;
    DigitRunValue(w, i, k, []);
    assert [] + w[i..k] == w[i..k];
  }

  /** A `uint16_t` variable assigned an `int`: reduced modulo 2^16. */
  function U16(x: int): (r: int)
    ensures 0 <= r < 0x1_0000 && (x - r) % 0x1_0000 == 0
  {
    x % 0x1_0000
  }

  // ---------------------------------------------------------------------------
  // The decoder

  /** The driver call the command in `w` makes, `None` when its value is out of range or no branch matches. */
  function Decode(w: seq<Byte>, env: Analog): Option<Action>
  {
    match FirstMatch(w)
    case None => None
    case Some(b) =>
      match b
      case Sdds => Some(ChangeDdsVal(U16(Atoi(w, 5))))
      case Ddsa =>
        var a := env.atof(w[5..]);
        if env.minAmplification <= a <= env.maxAmplification then Some(SetDdsAmplification(a)) else None
      case Ddso =>
        var o := env.atof(w[5..]);
        if -3.3 <= o <= 3.3 then Some(SetDdsOffset(o)) else None
      case Pga =>
        var number := U16(w[1] - '0' as int);
        var setting := U16(Atoi(w, 3));
        if 1 <= number <= 2 && 0 <= setting <= 7 then Some(ConfigurePga(number, setting)) else None
      case Digipot =>
        var channel := w[1] - '0' as int;
        var value := Atoi(w, 3);
        if 0 <= channel <= 3 && 0 <= value <= 255 then Some(DigipotWiperSet(channel, value)) else None
      case Mux =>
        var setting := w[2] - '0' as int;
        if 0 <= setting <= 7 then Some(SetMux(setting)) else None
      case Sco =>
        var o := env.atof(w[4..]);
        if -3.3 <= o <= 3.3 then Some(SetSignalChainOffset(o)) else None
      case Sca =>
        var g := env.atof(w[4..]);
        if 1.0 <= g <= 7000.0 then Some(SetSignalChainAmplification(g)) else None
      case Idds => Some(StartDds(1000))
      case DdsOff => Some(DdsSleep)
      case On => Some(PowerUp)
      case Start => None
      case Off => Some(PowerDown)
  }

  /** The registers after the command in `w`: PGA and digipot only on an in-range command, the two flags only ever set. */
  function Update(r: Registers, w: seq<Byte>, env: Analog): Registers
  {
    match FirstMatch(w)
    case Some(Pga) =>
      (match Decode(w, env)
       case Some(ConfigurePga(n, s)) => r.(pgaNumber := n, pgaSetting := s)
       case _ => r)
    case Some(Digipot) =>
      (match Decode(w, env)
       case Some(DigipotWiperSet(c, v)) => r.(digipotChannel := c, digipotSetting := v)
       case _ => r)
    case Some(On) => r.(onReceived := true)
    case Some(Start) => r.(startReceived := true)
    case _ => r
  }

  /** The ranges the register values stay in: PGA number 0 (never set), 1 or 2 and setting 0..7; digipot channel 0..3 and value 0..255. */
  predicate InRange(r: Registers)
  {
    0 <= r.pgaNumber <= 2 && 0 <= r.pgaSetting <= 7 && 0 <= r.digipotChannel <= 3 && 0 <= r.digipotSetting <= 255
  }

  /** A PGA command is applied exactly when its number is 1 or 2 and its setting, taken modulo 2^16, is 0..7. */
  lemma PgaGuard(w: seq<Byte>, env: Analog)
    requires FirstMatch(w) == Some(Pga)
    ensures Decode(w, env).Some? <==> (1 <= U16(w[1] - '0' as int) <= 2 && U16(Atoi(w, 3)) <= 7)
    ensures Decode(w, env).Some? ==> Decode(w, env) == Some(ConfigurePga(w[1] - '0' as int, U16(Atoi(w, 3))))
  {
  }

  /** `uint16_t setting = atoi(...)` wraps before the range test: `P1:65539` configures PGA 1 to setting 3. */
  lemma PgaSettingWraps(w: seq<Byte>, env: Analog)
    requires |w| >= 9 && w[..9] == ['P' as int, '1' as int, ':' as int, '6' as int, '5' as int, '5' as int, '3' as int, '9' as int, 0]
    ensures Decode(w, env) == Some(ConfigurePga(1, 3))
  {
    assert w[3..8] == w[..9][3..8];
    AtoiOfDigits(w, 3, 8);
    var d1: seq<Byte> := [54];
    var d2: seq<Byte> := d1 + [53];
    var d3: seq<Byte> := d2 + [53];
    var d4: seq<Byte> := d3 + [51];
    var d5: seq<Byte> := d4 + [57];
    assert w[3..8] == d5;
    assert DigitsValue(d1) == 6 by {
      assert d1[..0] == [];
    }
    assert DigitsValue(d2) == 65 by {
      assert d2[..1] == d1;
    }
    assert DigitsValue(d3) == 655 by {
      assert d3[..2] == d2;
    }
    assert DigitsValue(d4) == 6553 by {
      assert d4[..3] == d3;
    }
    assert DigitsValue(d5) == 65539 by {
      assert d5[..4] == d4;
    }
  }

  /** A digipot command is applied exactly when its channel is 0..3 and its value 0..255. */
  lemma DigipotGuard(w: seq<Byte>, env: Analog)
    requires FirstMatch(w) == Some(Digipot)
    ensures Decode(w, env).Some? <==> (0 <= w[1] - '0' as int <= 3 && 0 <= Atoi(w, 3) <= 255)
  {
  }

  /** `M:` followed by a digit 0..7 always sets the mux to that digit: the inner range check cannot fail. */
  lemma MuxAlwaysApplies(w: seq<Byte>, env: Analog)
    requires FirstMatch(w) == Some(Mux)
    ensures Decode(w, env) == Some(SetMux(w[2] - '0' as int))
  {
  }

  /** The float-valued commands are applied only within their ranges. */
  lemma FloatGuards(w: seq<Byte>, env: Analog)
    ensures Decode(w, env).Some? && Decode(w, env).value.SetDdsAmplification? ==>
      env.minAmplification <= Decode(w, env).value.amplification <= env.maxAmplification
    ensures Decode(w, env).Some? && Decode(w, env).value.SetDdsOffset? ==> -3.3 <= Decode(w, env).value.offset <= 3.3
    ensures Decode(w, env).Some? && Decode(w, env).value.SetSignalChainOffset? ==> -3.3 <= Decode(w, env).value.offset <= 3.3
    ensures Decode(w, env).Some? && Decode(w, env).value.SetSignalChainAmplification? ==>
      1.0 <= Decode(w, env).value.gain <= 7000.0
  {
  }

  /** Every command keeps the registers in range, never clears a flag, and leaves the PGA and digipot registers alone unless it applies to them. */
  lemma UpdatePreservesRange(r: Registers, w: seq<Byte>, env: Analog)
    requires InRange(r)
    ensures InRange(Update(r, w, env))
    ensures r.startReceived ==> Update(r, w, env).startReceived
    ensures r.onReceived ==> Update(r, w, env).onReceived
    ensures (Update(r, w, env).pgaNumber, Update(r, w, env).pgaSetting) != (r.pgaNumber, r.pgaSetting) ==>
      Decode(w, env) == Some(ConfigurePga(Update(r, w, env).pgaNumber, Update(r, w, env).pgaSetting))
    ensures (Update(r, w, env).digipotChannel, Update(r, w, env).digipotSetting) != (r.digipotChannel, r.digipotSetting) ==>
      Decode(w, env) == Some(DigipotWiperSet(Update(r, w, env).digipotChannel, Update(r, w, env).digipotSetting))
  {
  }

  /** `ON` sets `on_received` and `START` sets `start_received`, whatever the bytes after them. */
  lemma FlagCommands(r: Registers, w: seq<Byte>, env: Analog)
    ensures At(w, 0, 'O') && At(w, 1, 'N') ==> Update(r, w, env).onReceived && Decode(w, env) == Some(PowerUp)
    ensures Matches(w, Start) ==> Update(r, w, env).startReceived && Decode(w, env).None?
  {
    if At(w, 0, 'O') && At(w, 1, 'N') {
      FirstMatchIsTheMatch(w, On);
    }
    if Matches(w, Start) {
      FirstMatchIsTheMatch(w, Start);
    }
  }

  // ---------------------------------------------------------------------------
  // The write buffer

  /** `write_buffer` after `memcpy(write_buffer, buf, len)` and `write_buffer[len] = 0`: bytes past the NUL keep their old values. */
  function Stored(old_: seq<Byte>, buf: seq<Byte>): (w: seq<Byte>)
    requires |buf| < |old_|
    ensures |w| == |old_| && w[..|buf|] == buf && w[|buf|] == 0 && w[|buf| + 1..] == old_[|buf| + 1..]
  {
    buf + [0] + old_[|buf| + 1..]
  }

  /** The indices of `write_buffer` the callback writes as written: `0..len-1` by `memcpy`, then `len` for the NUL. */
  function WrittenIndices(len: nat): (s: seq<nat>)
    ensures |s| == len + 1 && forall i :: 0 <= i < |s| ==> s[i] == i
  {
    seq(len + 1, i => i)
  }

  /** As written, the callback stays inside `write_buffer` exactly when `len < RECEIVE_BUFF_SIZE`; a 20-byte write stores its NUL at index 20, one past the end. */
  lemma AsWrittenOverflow(len: nat)
    ensures (forall j :: 0 <= j < |WrittenIndices(len)| ==> WrittenIndices(len)[j] < ReceiveBuffSize) <==> len < ReceiveBuffSize
    ensures len >= ReceiveBuffSize ==> WrittenIndices(len)[ReceiveBuffSize] == ReceiveBuffSize
  {
    if len >= ReceiveBuffSize {
      assert WrittenIndices(len)[len] == len;
    }
  }

  /** The firmware's BLE state: `write_buffer`, the static registers, the link flags, and what the callbacks have sent out. */
  class Board {
    var writeBuffer: array<Byte>
    var digipotChannel: int
    var digipotSetting: int
    var pgaNumber: int
    var pgaSetting: int
    var startReceived: bool
    var onReceived: bool
    var bleConnected: bool
    var notifyEnabled: bool
    /** The driver calls made so far. */
    var driverCalls: seq<Action>
    /** The payloads handed to `bt_gatt_notify`. */
    var notified: seq<seq<Byte>>

    predicate Valid()
      reads this
    {
      writeBuffer.Length == ReceiveBuffSize
    }

    function Regs(): Registers
      reads this
    {
      Registers(digipotChannel, digipotSetting, pgaNumber, pgaSetting, startReceived, onReceived)
    }

    /** Power-on state: every static zero or false. */
    constructor ()
      ensures Valid() && fresh(writeBuffer)
      ensures forall i :: 0 <= i < writeBuffer.Length ==> writeBuffer[i] == 0
      ensures Regs() == Registers(0, 0, 0, 0, false, false) && InRange(Regs())
      ensures !bleConnected && !notifyEnabled && driverCalls == [] && notified == []
    {
      writeBuffer := new Byte[ReceiveBuffSize](_ => 0);
      digipotChannel, digipotSetting := 0, 0;
      pgaNumber, pgaSetting := 0, 0;
      startReceived, onReceived := false, false;
      bleConnected, notifyEnabled := false, false;
      driverCalls, notified := [], [];
    }

    /** The copy and the NUL store, for a write that fits. */
    method Store(buf: seq<Byte>)
      requires Valid() && |buf| < ReceiveBuffSize
      modifies writeBuffer
      ensures writeBuffer[..] == Stored(old(writeBuffer[..]), buf)
    {
      var i := 0;
      while i < |buf|
        invariant 0 <= i <= |buf|
        invariant forall k :: 0 <= k < i ==> writeBuffer[k] == buf[k]
        invariant forall k :: i <= k < writeBuffer.Length ==> writeBuffer[k] == old(writeBuffer[k])
      {
        writeBuffer[i] := buf[i];
        i := i + 1;
      }
      writeBuffer[|buf|] := 0;
      assert writeBuffer[..] == Stored(old(writeBuffer[..]), buf);
    }

    /**
     * `write_custom_value` with the bounds check it lacks: a write of
     * RECEIVE_BUFF_SIZE bytes or more is refused and changes nothing. `None`
     * is the undefined value returned when no branch matches.
     */
    method WriteCustomValue(buf: seq<Byte>, env: Analog) returns (ret: Option<int>)
      requires Valid()
      modifies this, writeBuffer
      ensures Valid() && writeBuffer == old(writeBuffer)
      ensures |buf| >= ReceiveBuffSize ==>
        ret == Some(InvalidAttributeLen) && writeBuffer[..] == old(writeBuffer[..])
        && Regs() == old(Regs()) && driverCalls == old(driverCalls)
      ensures |buf| < ReceiveBuffSize ==>
        var w := Stored(old(writeBuffer[..]), buf);
        && writeBuffer[..] == w
        && (ret.Some? <==> FirstMatch(w).Some?)
        && (ret.Some? ==> ret.value == |buf|)
        && driverCalls == old(driverCalls) + (if Decode(w, env).Some? then [Decode(w, env).value] else [])
        && Regs() == Update(old(Regs()), w, env)
      ensures bleConnected == old(bleConnected) && notifyEnabled == old(notifyEnabled) && notified == old(notified)
    {
      if |buf| >= ReceiveBuffSize {
        return Some(InvalidAttributeLen);
      }
      Store(buf);
      var w := writeBuffer[..];
      var branch := FirstMatch(w);
      if branch.None? {
        return None;
      }
      ret := Some(|buf|);
      var call := Decode(w, env);
      match branch.value {
        case Pga =>
          if call.Some? {
            pgaNumber, pgaSetting := call.value.number, call.value.setting;
          }
        case Digipot =>
          if call.Some? {
            digipotChannel, digipotSetting := call.value.channel, call.value.value;
          }
        case On =>
          onReceived := true;
        case Start =>
          startReceived := true;
        case _ =>
      }
      if call.Some? {
        driverCalls := driverCalls + [call.value];
      }
    }

    /** `connected`: a successful connection sets `ble_connected`; a failed one changes nothing. */
    method Connected(err: int)
      modifies this
      ensures bleConnected == (old(bleConnected) || err == 0)
      ensures notifyEnabled == old(notifyEnabled) && Regs() == old(Regs())
      ensures driverCalls == old(driverCalls) && notified == old(notified)
    {
      if err == 0 {
        bleConnected := true;
      }
    }

    /** `disconnected`: clears both the connection and the subscription flag. */
    method Disconnected()
      modifies this
      ensures !bleConnected && !notifyEnabled
      ensures Regs() == old(Regs()) && driverCalls == old(driverCalls) && notified == old(notified)
    {
      bleConnected := false;
      notifyEnabled := false;
    }

    /** `adc_ccc_cfg_changed`: notifications are enabled exactly when the client wrote the NOTIFY value. */
    method CccChanged(value: int)
      modifies this
      ensures notifyEnabled == (value == CccNotify)
      ensures bleConnected == old(bleConnected) && Regs() == old(Regs())
      ensures driverCalls == old(driverCalls) && notified == old(notified)
    {
      notifyEnabled := value == CccNotify;
    }

    /** `ble_send_adc_chunk`: the payload is notified exactly when a client is connected and subscribed; a failed notify is only logged. */
    method SendAdcChunk(data: seq<Byte>)
      modifies this
      ensures notified == old(notified) + (if bleConnected && notifyEnabled then [data] else [])
      ensures bleConnected == old(bleConnected) && notifyEnabled == old(notifyEnabled)
      ensures Regs() == old(Regs()) && driverCalls == old(driverCalls)
    {
      if !bleConnected || !notifyEnabled {
        return;
      }
      notified := notified + [data];
    }
  }
}
