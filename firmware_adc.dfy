/**
 * The sampling side of the nRF5340 firmware (firmware/src/adc.c): the SAADC
 * event handler that hands out the two DMA buffers alternately and, for each
 * filled block, computes its average, minimum and maximum and stages it for
 * BLE; and the work handler that sends the staged block as notifications of
 * at most 40 little-endian int16 samples each.
 *
 * Timer, SAADC and PPI set-up, logging and the RTT copy are left out; the
 * work queue is modelled by calling the work handler as a separate step.
 */
module FirmwareAdc {
  import Utf8
  import Ble = FirmwareBle
  import LB = LiveBluetoothIo
  import FP = FrameParser

  type Byte = Utf8.uint8
  type Int16 = x: int | -0x8000 <= x < 0x8000

  const AdcSampleRateHz: nat := 3000
  /** SAADC_BUFFER_SIZE: samples per block, and the length of `g_ble_buf`. */
  const SaadcBufferSize: nat := 3000
  /** SAMPLES_PER_NOTIFY. */
  const SamplesPerNotify: nat := 40
  /** SAADC_INTERVAL_US, by C integer division. */
  const SaadcIntervalUs: nat := 1000000 / AdcSampleRateHz

  /** The sampling interval truncates to 333 microseconds, so the timer runs slightly fast of 3000 Hz. */
  lemma IntervalTruncates()
    ensures SaadcIntervalUs == 333 && SaadcIntervalUs * AdcSampleRateHz < 1000000
  {
  }

  function Min(a: nat, b: nat): nat { if a < b then a else b }

  // ---------------------------------------------------------------------------
  // Little-endian packing

  /** `(uint8_t)(sample & 0xFF)` on a two's-complement `int16_t`. */
  function Lo(s: Int16): Byte { s % 256 }

  /** `(uint8_t)((sample >> 8) & 0xFF)`, with `>>` an arithmetic shift. */
  function Hi(s: Int16): Byte { (s / 256) % 256 }

  /** The `int16_t` whose little-endian bytes are `lo`, `hi`. */
  function AsInt16(lo: Byte, hi: Byte): Int16
  {
    var v := hi * 256 + lo;
    if v >= 0x8000 then v - 0x1_0000 else v
  }

  /** Reading the two packed bytes back as an `int16_t` recovers the sample. */
  lemma PackSample(s: Int16)
    ensures AsInt16(Lo(s), Hi(s)) == s
  {
    if s < 0 {
      assert s / 256 < 0 && s / 256 >= -128;
      assert Hi(s) == s / 256 + 256;
    } else {
      assert s / 256 < 128;
    }
  }

  /** Every pair of bytes is the packing of exactly one sample. */
  lemma UnpackSample(lo: Byte, hi: Byte)
    ensures Lo(AsInt16(lo, hi)) == lo && Hi(AsInt16(lo, hi)) == hi
  {
    var v := hi * 256 + lo;
    assert v % 256 == lo && v / 256 == hi;
    if v >= 0x8000 {
      assert (v - 0x1_0000) % 256 == lo;
      assert (v - 0x1_0000) / 256 == hi - 256;
    }
  }

  /** The samples packed two bytes each, low byte first. */
  function Pack(s: seq<Int16>): (p: seq<Byte>)
    ensures |p| == 2 * |s|
    ensures forall i :: 0 <= i < |s| ==> p[2 * i] == Lo(s[i]) && p[2 * i + 1] == Hi(s[i])
  {
    if |s| == 0 then [] else [Lo(s[0]), Hi(s[0])] + Pack(s[1..])
  }

  /** A received notification read back as `int16_t` samples. */
  function Unpack(p: seq<Byte>): (s: seq<Int16>)
    requires |p| % 2 == 0
    ensures |s| == |p| / 2
  {
    seq(|p| / 2, i requires 0 <= i < |p| / 2 => AsInt16(p[2 * i], p[2 * i + 1]))
  }

  /** Unpacking a packed block gives the samples back. */
  lemma UnpackPack(s: seq<Int16>)
    ensures Unpack(Pack(s)) == s
  {
    var u := Unpack(Pack(s));
    forall i | 0 <= i < |s|
      ensures u[i] == s[i]
    {
      PackSample(s[i]);
    }
  }

  /** Packing the samples read from an even-length payload gives the payload back. */
  lemma PackUnpack(p: seq<Byte>)
    requires |p| % 2 == 0
    ensures Pack(Unpack(p)) == p
  {
    var u := Unpack(p);
    var q := Pack(u);
    forall k | 0 <= k < |p|
      ensures q[k] == p[k]
    {
      var i := k / 2;
      UnpackSample(p[2 * i], p[2 * i + 1]);
      assert u[i] == AsInt16(p[2 * i], p[2 * i + 1]);
    }
  }

  lemma {:induction false} PackAppend(a: seq<Int16>, b: seq<Int16>)
    ensures Pack(a + b) == Pack(a) + Pack(b)
    decreases |a|
  {
    if |a| > 0 {
      assert (a + b)[1..] == a[1..] + b;
      PackAppend(a[1..], b);
    } else {
      assert a + b == b;
    }
  }

  /** A byte sequence holding each sample's low and high byte in turn is the packing of the samples. */
  lemma PackByIndex(s: seq<Int16>, p: seq<Byte>)
    requires |p| == 2 * |s|
    requires forall k :: 0 <= k < |s| ==> p[2 * k] == Lo(s[k]) && p[2 * k + 1] == Hi(s[k])
    ensures p == Pack(s)
  {
    var q := Pack(s);
    forall j | 0 <= j < |p|
      ensures p[j] == q[j]
    {
      var k := j / 2;
      if j == 2 * k {
        assert p[j] == Lo(s[k]) == q[j];
      } else {
        assert j == 2 * k + 1;
        assert p[j] == Hi(s[k]) == q[j];
      }
    }
  }

  // ---------------------------------------------------------------------------
  // The notification chunks

  /** The payloads the work handler passes to `ble_send_adc_chunk`: consecutive runs of at most 40 samples, packed. */
  function Payloads(s: seq<Int16>): seq<seq<Byte>>
    decreases |s|
  {
    if |s| == 0 then []
    else
      var n := Min(|s|, SamplesPerNotify);
      [Pack(s[..n])] + Payloads(s[n..])
  }

  /** The payloads carry every sample exactly once and in order. */
  lemma {:induction false} PayloadsInOrder(s: seq<Int16>)
    ensures LB.Flatten(Payloads(s)) == Pack(s)
    decreases |s|
  {
    if |s| > 0 {
      var n := Min(|s|, SamplesPerNotify);
      PayloadsInOrder(s[n..]);
      var ps := Payloads(s);
      assert ps[0] == Pack(s[..n]) && ps[1..] == Payloads(s[n..]);
      PackAppend(s[..n], s[n..]);
      assert s[..n] + s[n..] == s;
    }
  }

  /** Every payload holds an even number of bytes, between 2 and 80; all but the last hold exactly 80. */
  lemma {:induction false} PayloadSizes(s: seq<Int16>)
    ensures forall i :: 0 <= i < |Payloads(s)| ==> 2 <= |Payloads(s)[i]| <= 2 * SamplesPerNotify && |Payloads(s)[i]| % 2 == 0
    ensures forall i :: 0 <= i < |Payloads(s)| - 1 ==> |Payloads(s)[i]| == 2 * SamplesPerNotify
    decreases |s|
  {
    if |s| > 0 {
      var n := Min(|s|, SamplesPerNotify);
      var rest := Payloads(s[n..]);
      PayloadSizes(s[n..]);
      var ps := Payloads(s);
      assert ps == [Pack(s[..n])] + rest;
      forall i | 0 <= i < |ps|
        ensures 2 <= |ps[i]| <= 2 * SamplesPerNotify && |ps[i]| % 2 == 0
        ensures i < |ps| - 1 ==> |ps[i]| == 2 * SamplesPerNotify
      {
        if i == 0 {
          assert ps[0] == Pack(s[..n]) && |s[..n]| == n;
          assert |ps[0]| == 2 * n;
          if |s| <= SamplesPerNotify {
            assert |s[n..]| == 0 && rest == [];
          }
        } else {
          assert ps[i] == rest[i - 1];
        }
      }
    }
  }

  /** `ble_send_adc_chunk` is called `ceil(len / 40)` times: never for an empty block. */
  lemma {:induction false} PayloadCount(s: seq<Int16>)
    ensures |Payloads(s)| == (|s| + SamplesPerNotify - 1) / SamplesPerNotify
    decreases |s|
  {
    if |s| > SamplesPerNotify {
      PayloadCount(s[SamplesPerNotify..]);
      assert |Payloads(s)| == 1 + |Payloads(s[SamplesPerNotify..])|;
    } else if |s| > 0 {
      assert |s[Min(|s|, SamplesPerNotify)..]| == 0;
    }
  }

  // ---------------------------------------------------------------------------
  // Block statistics

  function Sum(s: seq<Int16>): int
  {
    if |s| == 0 then 0 else Sum(s[..|s| - 1]) + s[|s| - 1]
  }

  function MinOf(s: seq<Int16>): (m: Int16)
    requires |s| > 0
    ensures forall i :: 0 <= i < |s| ==> m <= s[i]
    ensures exists i :: 0 <= i < |s| && m == s[i]
  {
    if |s| == 1 then s[0]
    else
      var m := MinOf(s[..|s| - 1]);
      assert forall i :: 0 <= i < |s| - 1 ==> s[..|s| - 1][i] == s[i];
      if s[|s| - 1] < m then s[|s| - 1] else m
  }

  function MaxOf(s: seq<Int16>): (m: Int16)
    requires |s| > 0
    ensures forall i :: 0 <= i < |s| ==> s[i] <= m
    ensures exists i :: 0 <= i < |s| && m == s[i]
  {
    if |s| == 1 then s[0]
    else
      var m := MaxOf(s[..|s| - 1]);
      assert forall i :: 0 <= i < |s| - 1 ==> s[..|s| - 1][i] == s[i];
      if s[|s| - 1] > m then s[|s| - 1] else m
  }

  /** C's `/` on integers: truncation toward zero. */
  function TruncDiv(x: int, n: int): int
    requires n > 0
  {
    if x >= 0 then x / n else -((-x) / n)
  }

  lemma {:induction false} SumBounds(s: seq<Int16>, lo: int, hi: int)
    requires forall i :: 0 <= i < |s| ==> lo <= s[i] <= hi
    ensures |s| * lo <= Sum(s) <= |s| * hi
    decreases |s|
  {
    if |s| > 0 {
      SumBounds(s[..|s| - 1], lo, hi);
    }
  }

  lemma DivAtLeast(x: int, n: int, m: int)
    requires n > 0 && x >= n * m
    ensures x / n >= m
  {
    var q, r := x / n, x % n;
    if q < m {
      LB.MulMono(q + 1, m, n);
      assert false;
    }
  }

  lemma DivAtMost(x: int, n: int, m: int)
    requires n > 0 && x <= n * m
    ensures x / n <= m
  {
    var q, r := x / n, x % n;
    if q > m {
      LB.MulMono(m + 1, q, n);
      assert false;
    }
  }

  lemma NegMul(n: int, m: int)
    ensures n * -m == -(n * m)
  {
  }

  /** Truncating division keeps a quotient between the bounds its dividend is between, scaled. */
  lemma TruncDivBetween(x: int, n: int, lo: int, hi: int)
    requires n > 0 && n * lo <= x <= n * hi
    ensures lo <= TruncDiv(x, n) <= hi
  {
    if x >= 0 {
      DivAtLeast(x, n, lo);
      DivAtMost(x, n, hi);
    } else {
      NegMul(n, lo);
      NegMul(n, hi);
      DivAtMost(-x, n, -lo);
      DivAtLeast(-x, n, -hi);
    }
  }

  /** The truncated average of a non-empty block lies between its minimum and maximum, so it also fits the `int16_t` it is logged as. */
  lemma AverageBetween(s: seq<Int16>)
    requires |s| > 0
    ensures MinOf(s) <= TruncDiv(Sum(s), |s|) <= MaxOf(s)
  {
    SumBounds(s, MinOf(s), MaxOf(s));
    TruncDivBetween(Sum(s), |s|, MinOf(s), MaxOf(s));
  }

  /** The sum/min/max loop of the DONE branch; `size` is never 0 for a filled block, and 0 would divide by zero. */
  method BlockStats(s: seq<Int16>) returns (average: int, mn: Int16, mx: Int16)
    requires |s| > 0
    ensures mn == MinOf(s) && mx == MaxOf(s) && average == TruncDiv(Sum(s), |s|)
    ensures mn <= average <= mx
  {
    var total := 0;
    mx, mn := -0x8000, 0x7FFF;
    var i := 0;
    while i < |s|
      invariant 0 <= i <= |s|
      invariant total == Sum(s[..i])
      invariant i == 0 ==> mx == -0x8000 && mn == 0x7FFF
      invariant i > 0 ==> mn == MinOf(s[..i]) && mx == MaxOf(s[..i])
    {
      var v := s[i];
      assert s[..i + 1][..i] == s[..i];
      total := total + v;
      if v > mx {
        mx := v;
      }
      if v < mn {
        mn := v;
      }
      i := i + 1;
    }
    assert s[..i] == s;
    average := TruncDiv(total, |s|);
    AverageBetween(s);
  }

  // ---------------------------------------------------------------------------
  // The handlers

  /** `saadc_current_buffer` is a `uint32_t`. */
  const Uint32Modulus: nat := 0x1_0000_0000

  /** The buffers handed out so far alternate 0, 1, 0, ... */
  predicate Alternates(handed: seq<nat>)
  {
    forall i :: 0 <= i < |handed| ==> handed[i] == i % 2
  }

  /** The SAADC and BLE staging state of adc.c. */
  class Adc {
    var saadcCurrentBuffer: nat
    /** The indices of `saadc_sample_buffer` passed to `nrfx_saadc_buffer_set` by BUF_REQ. */
    var handed: seq<nat>
    var gBleBuf: array<Int16>
    var gBleLen: nat
    /** The number of `k_work_submit` calls. */
    var submitted: nat
    /** (average, min, max) of each completed block, as logged. */
    var stats: seq<(int, int, int)>

    predicate Valid()
      reads this
    {
      gBleBuf.Length == SaadcBufferSize && gBleLen <= SaadcBufferSize
      && saadcCurrentBuffer == |handed| % Uint32Modulus && Alternates(handed)
    }

    constructor ()
      ensures Valid() && fresh(gBleBuf)
      ensures saadcCurrentBuffer == 0 && handed == [] && gBleLen == 0 && submitted == 0 && stats == []
    {
      saadcCurrentBuffer := 0;
      handed := [];
      gBleBuf := new Int16[SaadcBufferSize](_ => 0);
      gBleLen := 0;
      submitted := 0;
      stats := [];
    }

    /** BUF_REQ: hand out buffer `saadc_current_buffer % 2` and post-increment the 32-bit counter. */
    method BufReq()
      requires Valid()
      modifies this
      ensures Valid()
      ensures handed == old(handed) + [|old(handed)| % 2]
      ensures saadcCurrentBuffer == (old(saadcCurrentBuffer) + 1) % Uint32Modulus
      ensures gBleBuf == old(gBleBuf) && gBleLen == old(gBleLen) && submitted == old(submitted) && stats == old(stats)
    {
      var which := saadcCurrentBuffer % 2;
      assert which == |handed| % 2 by {
        CounterParity(|handed|);
      }
      handed := handed + [which];
      saadcCurrentBuffer := (saadcCurrentBuffer + 1) % Uint32Modulus;
      CounterStep(|old(handed)|);
    }

    /** DONE: log the block's statistics, stage at most SAADC_BUFFER_SIZE samples for BLE and submit the work item. */
    method Done(block: seq<Int16>)
      requires Valid() && |block| > 0
      modifies this, gBleBuf
      ensures Valid() && gBleBuf == old(gBleBuf)
      ensures gBleLen == Min(|block|, SaadcBufferSize)
      ensures gBleBuf[..gBleLen] == block[..gBleLen]
      ensures stats == old(stats) + [(TruncDiv(Sum(block), |block|), MinOf(block), MaxOf(block))]
      ensures MinOf(block) <= stats[|stats| - 1].0 <= MaxOf(block)
      ensures submitted == old(submitted) + 1
      ensures saadcCurrentBuffer == old(saadcCurrentBuffer) && handed == old(handed)
    {
      var average, mn, mx := BlockStats(block);
      stats := stats + [(average, mn as int, mx as int)];
      var n := |block|;
      if n > SaadcBufferSize {
        n := SaadcBufferSize;
      }
      CopyToStaging(block, n);
      gBleLen := n;
      submitted := submitted + 1;
    }

    /** `memcpy(g_ble_buf, buf, n * sizeof(int16_t))`. */
    method CopyToStaging(block: seq<Int16>, n: nat)
      requires Valid() && n <= |block| && n <= SaadcBufferSize
      modifies gBleBuf
      ensures gBleBuf[..n] == block[..n]
    {
      var i := 0;
      while i < n
        invariant 0 <= i <= n
        invariant forall k :: 0 <= k < i ==> gBleBuf[k] == block[k]
      {
        gBleBuf[i] := block[i];
        i := i + 1;
      }
    }

    /** The work handler: every staged sample goes to `ble_send_adc_chunk`, in order, in payloads of at most 40 samples. */
    method WorkHandler(ble: Ble.Board) returns (payloads: seq<seq<Byte>>)
      requires Valid()
      modifies ble
      ensures payloads == Payloads(gBleBuf[..gBleLen])
      ensures ble.notified == old(ble.notified) + (if ble.bleConnected && ble.notifyEnabled then payloads else [])
      ensures ble.bleConnected == old(ble.bleConnected) && ble.notifyEnabled == old(ble.notifyEnabled)
      ensures ble.Regs() == old(ble.Regs()) && ble.driverCalls == old(ble.driverCalls)
    {
      var samples := gBleBuf[..gBleLen];
      var gated := ble.bleConnected && ble.notifyEnabled;
      payloads := [];
      var idx := 0;
      while idx < gBleLen
        invariant 0 <= idx <= gBleLen
        invariant gBleBuf[..gBleLen] == samples
        invariant payloads + Payloads(samples[idx..]) == Payloads(samples)
        invariant ble.notified == old(ble.notified) + (if gated then payloads else [])
        invariant ble.bleConnected == old(ble.bleConnected) && ble.notifyEnabled == old(ble.notifyEnabled)
        invariant ble.Regs() == old(ble.Regs()) && ble.driverCalls == old(ble.driverCalls)
        decreases gBleLen - idx
      {
        var chunk := Min(gBleLen - idx, SamplesPerNotify);
        var payload := PackChunk(idx, chunk);
        ble.SendAdcChunk(payload);
        assert Payloads(samples[idx..]) == [payload] + Payloads(samples[idx + chunk..]) by {
          var rest := samples[idx..];
          assert |rest| > 0 && Min(|rest|, SamplesPerNotify) == chunk;
          assert rest[..chunk] == samples[idx..idx + chunk] == gBleBuf[idx..idx + chunk];
          assert rest[chunk..] == samples[idx + chunk..];
        }
        FP.ConcatAssoc(payloads, [payload], Payloads(samples[idx + chunk..]));
        if gated {
          FP.ConcatAssoc(old(ble.notified), payloads, [payload]);
        }
        payloads := payloads + [payload];
        idx := idx + chunk;
      }
      assert samples[idx..] == [];
    }

    /** The inner loop: pack `count` staged samples from `idx` into an 80-byte payload and return its first `2 * count` bytes. */
    method PackChunk(idx: nat, count: nat) returns (payload: seq<Byte>)
      requires Valid() && idx + count <= gBleLen && count <= SamplesPerNotify
      ensures payload == Pack(gBleBuf[idx..idx + count])
    {
      var buffer := new Byte[2 * SamplesPerNotify];
      var i := 0;
      while i < count
        invariant 0 <= i <= count
        invariant forall k :: 0 <= k < i ==> buffer[2 * k] == Lo(gBleBuf[idx + k]) && buffer[2 * k + 1] == Hi(gBleBuf[idx + k])
      {
        var sample := gBleBuf[idx + i];
        buffer[2 * i] := Lo(sample);
        buffer[2 * i + 1] := Hi(sample);
        i := i + 1;
      }
      payload := buffer[..2 * count];
      PackByIndex(gBleBuf[idx..idx + count], payload);
    }
  }

  /** The counter reduced modulo 2^32 still has the parity of the number of requests. */
  lemma CounterParity(n: nat)
    ensures (n % Uint32Modulus) % 2 == n % 2
  {
    var q := n / Uint32Modulus;
    assert n == q * Uint32Modulus + n % Uint32Modulus;
    assert q * Uint32Modulus == 2 * (q * 0x8000_0000);
  }

  /** Post-incrementing the reduced counter is reducing the incremented count. */
  lemma CounterStep(n: nat)
    ensures (n % Uint32Modulus + 1) % Uint32Modulus == (n + 1) % Uint32Modulus
  {
    var q := n / Uint32Modulus;
    assert n == q * Uint32Modulus + n % Uint32Modulus;
    if n % Uint32Modulus + 1 == Uint32Modulus {
      LB.DivUnique(n + 1, Uint32Modulus, q + 1, 0);
    } else {
      LB.DivUnique(n + 1, Uint32Modulus, q, n % Uint32Modulus + 1);
    }
  }
}
