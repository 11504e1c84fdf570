/**
 * The host and the firmware side by side: what the firmware's GATT write
 * callback makes of the commands the host sends, and what the host's
 * notification handlers make of the sample payloads the firmware sends.
 *
 * A host command travels as its UTF-8 bytes followed by NUL, and lands in
 * `write_buffer` over whatever the previous write left there.
 */
module CrossChecks {
  import opened Wrappers
  import Utf8
  import PyText
  import FP = FrameParser
  import BH = BleIoHandler
  import LB = LiveBluetoothIo
  import Ble = FirmwareBle
  import Adc = FirmwareAdc

  /** `write_buffer` after the host writes command `text` over the buffer `before`. */
  function Received(before: seq<Ble.Byte>, text: string): (w: seq<Ble.Byte>)
    requires |before| == Ble.ReceiveBuffSize && |BH.CommandPayload(text)| < Ble.ReceiveBuffSize
    ensures |w| == Ble.ReceiveBuffSize
  {
    Ble.Stored(before, BH.CommandPayload(text))
  }

  predicate IsAscii(text: string)
  {
    forall i :: 0 <= i < |text| ==> text[i] as int < 0x80
  }

  /** An ASCII command short enough to fit arrives byte for byte, NUL-terminated. */
  lemma AsciiArrives(before: seq<Ble.Byte>, text: string)
    requires |before| == Ble.ReceiveBuffSize && IsAscii(text) && |text| + 1 < Ble.ReceiveBuffSize
    ensures |BH.CommandPayload(text)| == |text| + 1
    ensures var w := Received(before, text);
      (forall i :: 0 <= i < |text| ==> w[i] == text[i] as int) && w[|text|] == 0
  {
    Utf8.EncodeAscii(text);
    var p := BH.CommandPayload(text);
    var w := Received(before, text);
    assert w[..|p|] == p;
    forall i | 0 <= i < |text|
      ensures w[i] == text[i] as int
    {
      assert w[i] == w[..|p|][i] == p[i] == Utf8.Encode(text)[i];
    }
  }

  // ---------------------------------------------------------------------------
  // Commands

  /** `M:` followed by the digit `d` selects mux channel `d`. */
  lemma MuxCommand(before: seq<Ble.Byte>, d: nat, env: Ble.Analog)
    requires |before| == Ble.ReceiveBuffSize && d < 8
    ensures var text := "M:" + [PyText.DigitChar(d)];
      |BH.CommandPayload(text)| < Ble.ReceiveBuffSize
      && Ble.Decode(Received(before, text), env) == Some(Ble.SetMux(d))
  {
    var text := "M:" + [PyText.DigitChar(d)];
    AsciiArrives(before, text);
    var w := Received(before, text);
    assert w[0] == 'M' as int && w[1] == ':' as int && w[2] == '0' as int + d;
    Ble.FirstMatchIsTheMatch(w, Ble.Mux);
    Ble.MuxAlwaysApplies(w, env);
  }

  /** Every resistance the host offers reaches the firmware as the mux channel the host's table names for it. */
  lemma ResistanceCommandsAccepted(before: seq<Ble.Byte>, name: string, env: Ble.Analog)
    requires |before| == Ble.ReceiveBuffSize && name in BH.ResistanceConversion
    ensures var text := BH.ResistanceConversion[name];
      text in BH.MuxChannel && |BH.CommandPayload(text)| < Ble.ReceiveBuffSize
      && Ble.Decode(Received(before, text), env) == Some(Ble.SetMux(BH.MuxChannel[text]))
  {
    BH.ResistanceTableBijective();
    var text := BH.ResistanceConversion[name];
    var d := BH.MuxChannel[text];
    assert text == "M:" + [PyText.DigitChar(d)];
    MuxCommand(before, d, env);
  }

  /** Bytes that spell a digit string carry its value for `atoi` as for Python's `int()`. */
  lemma {:induction false} DigitBytesValue(b: seq<Ble.Byte>, s: string)
    requires PyText.AllDigits(s) && |b| == |s| && forall i :: 0 <= i < |s| ==> b[i] == s[i] as int
    ensures Ble.DigitsValue(b) == PyText.DigitsValue(s)
    decreases |s|
  {
    if |s| > 0 {
      DigitBytesValue(b[..|b| - 1], s[..|s| - 1]);
    }
  }

  /** A host command of an ASCII prefix followed by the decimal digits of `n` gives `atoi(&write_buffer[|prefix|]) == n`. */
  lemma NumberArrives(before: seq<Ble.Byte>, prefix: string, n: nat)
    requires |before| == Ble.ReceiveBuffSize && IsAscii(prefix)
    requires |prefix + PyText.NatToDecimal(n)| + 1 < Ble.ReceiveBuffSize
    ensures var text := prefix + PyText.NatToDecimal(n);
      IsAscii(text) && |BH.CommandPayload(text)| == |text| + 1
      && var w := Received(before, text);
      (forall i :: 0 <= i < |prefix| ==> w[i] == prefix[i] as int) && Ble.Atoi(w, |prefix|) == n
  {
    var ds := PyText.NatToDecimal(n);
    var text := prefix + ds;
    var p := |prefix|;
    assert forall i :: 0 <= i < |ds| ==> text[p + i] == ds[i];
    assert IsAscii(text) by {
      forall i | 0 <= i < |text|
        ensures text[i] as int < 0x80
      {
        if i >= p { assert PyText.IsDigit(ds[i - p]); } else { assert text[i] == prefix[i]; }
      }
    }
    AsciiArrives(before, text);
    var w := Received(before, text);
    var k := p + |ds|;
    assert w[k] == 0;
    forall m | p <= m < k
      ensures Ble.IsCDigit(w[m])
    {
      assert w[m] == text[m] as int == ds[m - p] as int;
    }
    Ble.AtoiOfDigits(w, p, k);
    DigitBytesValue(w[p..k], ds);
    forall i | 0 <= i < p
      ensures w[i] == prefix[i] as int
    {
      assert text[i] == prefix[i];
    }
  }

  /** The host's `P1:`/`P2:` command for a non-negative integer setting configures that PGA exactly when the setting, modulo 2^16, is 0..7. */
  lemma PgaCommandAccepted(before: seq<Ble.Byte>, pga: nat, n: nat, env: Ble.Analog)
    requires |before| == Ble.ReceiveBuffSize && 1 <= pga <= 2
    requires |PyText.NatToDecimal(n)| <= 15
    ensures var text := "P" + [PyText.DigitChar(pga)] + ":" + PyText.NatToDecimal(n);
      |BH.CommandPayload(text)| < Ble.ReceiveBuffSize
      && Ble.Decode(Received(before, text), env)
         == (if n % 0x1_0000 <= 7 then Some(Ble.ConfigurePga(pga, n % 0x1_0000)) else None)
  {
    var prefix := "P" + [PyText.DigitChar(pga)] + ":";
    NumberArrives(before, prefix, n);
    var text := prefix + PyText.NatToDecimal(n);
    assert text == "P" + [PyText.DigitChar(pga)] + ":" + PyText.NatToDecimal(n);
    var w := Received(before, text);
    assert Ble.Atoi(w, 3) == n;
    assert w[0] == 'P' as int && w[2] == ':' as int && w[1] == '0' as int + pga;
    assert Ble.Matches(w, Ble.Pga);
    Ble.FirstMatchIsTheMatch(w, Ble.Pga);
    assert Ble.FirstMatch(w) == Some(Ble.Pga);
    assert Ble.U16(w[1] - '0' as int) == pga;
    assert Ble.U16(Ble.Atoi(w, 3)) == n % 0x1_0000;
  }

  /** The host's `D0:`..`D3:` command for a non-negative integer sets that digipot channel exactly when the value is 0..255. */
  lemma DigipotCommandAccepted(before: seq<Ble.Byte>, channel: nat, n: nat, env: Ble.Analog)
    requires |before| == Ble.ReceiveBuffSize && channel <= 3
    requires |PyText.NatToDecimal(n)| <= 15
    ensures var text := "D" + [PyText.DigitChar(channel)] + ":" + PyText.NatToDecimal(n);
      |BH.CommandPayload(text)| < Ble.ReceiveBuffSize
      && Ble.Decode(Received(before, text), env)
         == (if n <= 255 then Some(Ble.DigipotWiperSet(channel, n)) else None)
  {
    var prefix := "D" + [PyText.DigitChar(channel)] + ":";
    NumberArrives(before, prefix, n);
    var text := prefix + PyText.NatToDecimal(n);
    assert text == "D" + [PyText.DigitChar(channel)] + ":" + PyText.NatToDecimal(n);
    var w := Received(before, text);
    assert Ble.Atoi(w, 3) == n;
    assert w[0] == 'D' as int && w[2] == ':' as int && w[1] == '0' as int + channel;
    assert Ble.Matches(w, Ble.Digipot);
    Ble.FirstMatchIsTheMatch(w, Ble.Digipot);
    assert Ble.FirstMatch(w) == Some(Ble.Digipot);
  }

  /** Frequency `"0"` stops the generator on the board. */
  lemma FrequencyOffAccepted(before: seq<Ble.Byte>, env: Ble.Analog)
    requires |before| == Ble.ReceiveBuffSize
    ensures |BH.CommandPayload("DDSOFF")| < Ble.ReceiveBuffSize
    ensures Ble.Decode(Received(before, "DDSOFF"), env) == Some(Ble.DdsSleep)
  {
    AsciiArrives(before, "DDSOFF");
    var w := Received(before, "DDSOFF");
    assert w[..6] == ['D' as int, 'D' as int, 'S' as int, 'O' as int, 'F' as int, 'F' as int];
    Ble.FirstMatchIsTheMatch(w, Ble.DdsOff);
  }

  /** `SDDS:` and a frequency reach the board as `changeDDSVal` of that frequency modulo 2^16; the host's `"1000"` and `"1"` arrive unchanged. */
  lemma FrequencySetAccepted(before: seq<Ble.Byte>, n: nat, env: Ble.Analog)
    requires |before| == Ble.ReceiveBuffSize && |PyText.NatToDecimal(n)| <= 13
    ensures |BH.CommandPayload("SDDS:" + PyText.NatToDecimal(n))| < Ble.ReceiveBuffSize
    ensures Ble.Decode(Received(before, "SDDS:" + PyText.NatToDecimal(n)), env) == Some(Ble.ChangeDdsVal(n % 0x1_0000))
    ensures n == 1000 || n == 1 ==> Ble.Decode(Received(before, "SDDS:" + PyText.NatToDecimal(n)), env) == Some(Ble.ChangeDdsVal(n))
  {
    var prefix := "SDDS:";
    NumberArrives(before, prefix, n);
    var text := prefix + PyText.NatToDecimal(n);
    var w := Received(before, text);
    assert Ble.Atoi(w, 5) == n;
    assert w[..5] == ['S' as int, 'D' as int, 'D' as int, 'S' as int, ':' as int];
    assert Ble.Matches(w, Ble.Sdds);
    Ble.FirstMatchIsTheMatch(w, Ble.Sdds);
    assert Ble.FirstMatch(w) == Some(Ble.Sdds);
  }

  /** The live view's session opener: `ON` powers the board up and sets `on_received`; `START` sets `start_received` and calls no driver. */
  lemma SessionCommandsAccepted(before: seq<Ble.Byte>, r: Ble.Registers, env: Ble.Analog)
    requires |before| == Ble.ReceiveBuffSize
    ensures LB.SessionCommand("ON") == BH.CommandPayload("ON") && LB.SessionCommand("START") == BH.CommandPayload("START")
    ensures Ble.Decode(Received(before, "ON"), env) == Some(Ble.PowerUp)
    ensures Ble.Update(r, Received(before, "ON"), env).onReceived
    ensures Ble.Decode(Received(before, "START"), env).None?
    ensures Ble.Update(r, Received(before, "START"), env).startReceived
  {
    AsciiArrives(before, "ON");
    AsciiArrives(before, "START");
    var on, start := Received(before, "ON"), Received(before, "START");
    assert Ble.At(on, 0, 'O') && Ble.At(on, 1, 'N');
    assert Ble.Matches(start, Ble.Start);
    Ble.FlagCommands(r, on, env);
    Ble.FlagCommands(r, start, env);
  }

  // ---------------------------------------------------------------------------
  // Notifications

  /** Raw bytes as the host's byte strings. */
  function AsText(b: seq<Utf8.uint8>): (s: string)
    ensures |s| == |b| && forall i :: 0 <= i < |b| ==> s[i] as int == b[i]
  {
    seq(|b|, i requires 0 <= i < |b| => b[i] as char)
  }

  /**
   * The firmware's sample notifications are not the lines the host's frame
   * parser looks for: a payload with no carriage-return byte yields no frame
   * at all and stays whole in the parser's buffer.
   */
  lemma SamplesAreNotLines(samples: seq<Adc.Int16>)
    requires forall i :: 0 <= i < |samples| ==> Adc.Lo(samples[i]) != 13 && Adc.Hi(samples[i]) != 13
    ensures var text := AsText(Adc.Pack(samples));
      FP.Drain(text) == FP.Taken([], [], text)
  {
    PackAvoids(samples, 13);
    var p := Adc.Pack(samples);
    var text := AsText(p);
    assert FP.NoSep(text) by {
      forall i | 0 <= i < |text|
        ensures !FP.SepAt(text, i)
      {
        assert text[i] as int == p[i] != 13;
      }
    }
    FP.NoSepDrain(text);
  }

  /** A byte value that is neither half of any sample appears nowhere in the packed payload. */
  lemma {:induction false} PackAvoids(samples: seq<Adc.Int16>, v: Utf8.uint8)
    requires forall i :: 0 <= i < |samples| ==> Adc.Lo(samples[i]) != v && Adc.Hi(samples[i]) != v
    ensures forall j :: 0 <= j < |Adc.Pack(samples)| ==> Adc.Pack(samples)[j] != v
    decreases |samples|
  {
    if |samples| > 0 {
      PackAvoids(samples[1..], v);
      var p := Adc.Pack(samples);
      assert p == [Adc.Lo(samples[0]), Adc.Hi(samples[0])] + Adc.Pack(samples[1..]);
      forall j | 2 <= j < |p|
        ensures p[j] != v
      {
        assert p[j] == Adc.Pack(samples[1..])[j - 2];
      }
    }
  }

  /** A sample of -1 packs to `FF FF`, which strict UTF-8 rejects, so the live view's notification handler drops it without a trace. */
  lemma NegativeSampleIsNotUtf8()
    ensures Adc.Pack([-1]) == [0xFF, 0xFF]
    ensures Utf8.Decode(Adc.Pack([-1])).None?
  {
    assert Adc.Pack([-1]) == [Adc.Lo(-1), Adc.Hi(-1)] + Adc.Pack([]);
  }
}
