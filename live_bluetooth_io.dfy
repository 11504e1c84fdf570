/**
 * The live view's earlier BLE manager (`BluetoothIO.py`): notifications are
 * decoded as UTF-8 text lines, and outgoing payloads are queued and written in
 * chunks of at most `MAX_PACKET` bytes, but only while a client is connected.
 *
 * The Qt thread, the asyncio loop and the connection manager are not modelled;
 * what remains is the state those pieces read and write: whether a thread
 * exists, whether its loop runs, the write queue, the client link, and the
 * writes and signals produced.
 */
module LiveBluetoothIo {
  import opened Wrappers
  import Utf8
  import FP = FrameParser

  type Bytes = seq<Utf8.uint8>

  const MaxPacket: nat := 180
  const InitialBackoff: real := 0.5
  const MaxBackoff: real := 5.0

  // ---------------------------------------------------------------------------
  // Chunking

  function Min(a: nat, b: nat): nat { if a < b then a else b }

  /** The chunks `_chunk` yields: consecutive slices of `size` bytes, the last one possibly shorter. */
  function Chunks(b: Bytes, size: nat): seq<Bytes>
    requires size > 0
    decreases |b|
  {
    if |b| == 0 then [] else [b[..Min(size, |b|)]] + Chunks(b[Min(size, |b|)..], size)
  }

  function Flatten(chunks: seq<Bytes>): Bytes
  {
    if |chunks| == 0 then [] else chunks[0] + Flatten(chunks[1..])
  }

  /** `_chunk(b, size)`: the generator's loop, collecting what it yields. */
  method Chunk(b: Bytes, size: nat) returns (chunks: seq<Bytes>)
    requires size > 0
    ensures chunks == Chunks(b, size)
  {
    chunks := [];
    var i := 0;
    while i < |b|
      invariant 0 <= i
      invariant chunks + Chunks(b[Min(i, |b|)..], size) == Chunks(b, size)
      decreases |b| - i
    {
      var rest := b[i..];
      assert rest[..Min(size, |rest|)] == b[i..Min(i + size, |b|)];
      assert rest[Min(size, |rest|)..] == b[Min(i + size, |b|)..];
      FP.ConcatAssoc(chunks, [b[i..Min(i + size, |b|)]], Chunks(b[Min(i + size, |b|)..], size));
      chunks := chunks + [b[i..Min(i + size, |b|)]];
      i := i + size;
    }
    assert b[Min(i, |b|)..] == [];
  }

  /** Concatenating the chunks gives the payload back. */
  lemma {:induction false} ChunksConcat(b: Bytes, size: nat)
    requires size > 0
    ensures Flatten(Chunks(b, size)) == b
    decreases |b|
  {
    if |b| > 0 {
      var k := Min(size, |b|);
      ChunksConcat(b[k..], size);
      var cs := Chunks(b, size);
      assert cs[0] == b[..k] && cs[1..] == Chunks(b[k..], size);
      assert b[..k] + b[k..] == b;
    }
  }

  /** Every chunk is non-empty and at most `size` long, and all but the last are exactly `size`. */
  lemma {:induction false} ChunkSizes(b: Bytes, size: nat)
    requires size > 0
    ensures var cs := Chunks(b, size);
      && (forall i :: 0 <= i < |cs| ==> 0 < |cs[i]| <= size)
      && (forall i :: 0 <= i < |cs| - 1 ==> |cs[i]| == size)
    decreases |b|
  {
    if |b| > 0 {
      var k := Min(size, |b|);
      ChunkSizes(b[k..], size);
      var cs := Chunks(b, size);
      assert forall i :: 1 <= i < |cs| ==> cs[i] == Chunks(b[k..], size)[i - 1];
      if |b| <= size {
        assert |b[k..]| == 0 && |cs| == 1;
      }
    }
  }

  /** There are `ceil(len / size)` chunks, so none for an empty payload. */
  lemma {:induction false} ChunkCount(b: Bytes, size: nat)
    requires size > 0
    ensures |Chunks(b, size)| == (|b| + size - 1) / size
    decreases |b|
  {
    if |b| == 0 {
      DivUnique(size - 1, size, 0, size - 1);
    } else if |b| <= size {
      assert |b[Min(size, |b|)..]| == 0;
      DivOne(|b| + size - 1, size);
    } else {
      ChunkCount(b[size..], size);
      assert |Chunks(b, size)| == 1 + |Chunks(b[size..], size)|;
      DivStep(|b| + size - 1, size);
    }
  }

  lemma DivOne(x: nat, size: nat)
    requires size > 0 && size <= x < 2 * size
    ensures x / size == 1
  {
    DivUnique(x, size, 1, x - size);
  }

  lemma DivStep(x: nat, size: nat)
    requires size > 0 && x >= size
    ensures x / size == (x - size) / size + 1
  {
    var q, r := (x - size) / size, (x - size) % size;
    assert x == (q + 1) * size + r;
    DivUnique(x, size, q + 1, r);
  }

  /** Euclidean division has one quotient for each remainder in range. */
  lemma DivUnique(x: int, d: int, q: int, r: int)
    requires d > 0 && 0 <= r < d && x == q * d + r
    ensures x / d == q
  {
    var q', r' := x / d, x % d;
    if q' > q {
      MulMono(q + 1, q', d);
      assert false;
    } else if q' < q {
      MulMono(q' + 1, q, d);
      assert false;
    }
  }

  lemma MulMono(a: int, b: int, d: int)
    requires a <= b && d >= 0
    ensures a * d <= b * d
  {
    assert b * d - a * d == (b - a) * d;
  }

  // ---------------------------------------------------------------------------
  // Backoff

  /** The value `_backoff_sleep` returns: double the delay, capped at five seconds. */
  function NextBackoff(backoff: real): (r: real)
    ensures r <= MaxBackoff
    ensures backoff <= MaxBackoff / 2.0 ==> r == 2.0 * backoff
  {
    if backoff * 2.0 < MaxBackoff then backoff * 2.0 else MaxBackoff
  }

  /** The delay after `n` sleeps of the manager, starting from half a second. */
  function Backoff(n: nat): real
  {
    if n == 0 then InitialBackoff else NextBackoff(Backoff(n - 1))
  }

  /** From half a second the delays are 1, 2, 4, then 5 for ever: never decreasing and never above five seconds. */
  lemma {:induction false} BackoffSchedule(n: nat)
    ensures 0.5 <= Backoff(n) <= MaxBackoff
    ensures Backoff(n) <= Backoff(n + 1)
    ensures n == 1 ==> Backoff(n) == 1.0
    ensures n == 2 ==> Backoff(n) == 2.0
    ensures n == 3 ==> Backoff(n) == 4.0
    ensures n >= 4 ==> Backoff(n) == MaxBackoff
  {
    if n > 0 {
      BackoffSchedule(n - 1);
    }
  }

  // ---------------------------------------------------------------------------
  // The manager's observable state

  /** The signals the manager emits. */
  datatype Event =
    | ConnectedChanged(connected: bool)
    | ReconnectingChanged(reconnecting: bool)
    | LineReceived(text: string)
    | ErrorEmitted(message: string)

  /** The client: none, or one whose link is up or down. */
  datatype Client = NoClient | Client(isConnected: bool)

  /** A write that raises at chunk `atChunk`, with the exception's text. */
  datatype WriteFailure = WriteFailure(atChunk: nat, reason: string)

  class BluetoothIO {
    var thread: bool
    var loopRunning: bool
    var stopRequested: bool
    var address: Option<string>
    var client: Client
    /** The write queue; `None` when the loop has not created it. */
    var queue: Option<seq<Bytes>>
    /** Every chunk written to the write characteristic, in order. */
    var writes: seq<Bytes>
    var events: seq<Event>

    constructor()
      ensures !thread && !loopRunning && !stopRequested && address == None && client == NoClient
      ensures queue == None && writes == [] && events == []
    {
      thread, loopRunning, stopRequested := false, false, false;
      address, client, queue := None, NoClient, None;
      writes, events := [], [];
    }

    /** `start`: a second start while a thread exists changes nothing. */
    method Start(addr: string)
      modifies this
      ensures old(thread) ==> address == old(address)
      ensures !old(thread) ==> address == Some(addr)
      ensures thread
      ensures loopRunning == old(loopRunning) && stopRequested == old(stopRequested) && client == old(client)
      ensures queue == old(queue) && writes == old(writes) && events == old(events)
    {
      if thread {
        return;
      }
      address := Some(addr);
      thread := true;
    }

    /** `stop`: without a thread nothing happens; otherwise stop is asked of a running loop and the thread is dropped. */
    method Stop()
      modifies this
      ensures !old(thread) ==> stopRequested == old(stopRequested) && thread == old(thread)
      ensures old(thread) ==> !thread && stopRequested == (old(stopRequested) || old(loopRunning))
      ensures address == old(address) && loopRunning == old(loopRunning) && client == old(client)
      ensures queue == old(queue) && writes == old(writes) && events == old(events)
    {
      if !thread {
        return;
      }
      if loopRunning && !stopRequested {
        stopRequested := true;
      }
      thread := false;
    }

    /** `send`: the payload is queued when the loop runs and has a queue, and is lost otherwise. */
    method Send(payload: Bytes)
      modifies this
      ensures queue == (if loopRunning && old(queue).Some? then Some(old(queue).value + [payload]) else old(queue))
      ensures thread == old(thread) && loopRunning == old(loopRunning) && stopRequested == old(stopRequested)
      ensures address == old(address) && client == old(client) && writes == old(writes) && events == old(events)
    {
      if loopRunning && queue.Some? {
        queue := Some(queue.value + [payload]);
      }
    }

    /**
     * One turn of `_run_writer` once the queue holds a payload: the payload is
     * dropped silently unless a client is connected; otherwise its chunks are
     * written in order, up to a write that raises, which emits an error.
     */
    method WriterStep(failure: Option<WriteFailure>)
      requires queue.Some? && |queue.value| > 0
      modifies this
      ensures queue == Some(old(queue).value[1..])
      ensures !(old(client).Client? && old(client).isConnected) ==> writes == old(writes) && events == old(events)
      ensures old(client).Client? && old(client).isConnected ==>
        var chunks := Chunks(old(queue).value[0], MaxPacket);
        if failure.Some? && failure.value.atChunk < |chunks| then
          && writes == old(writes) + chunks[..failure.value.atChunk]
          && events == old(events) + [ErrorEmitted("Write failed: " + failure.value.reason)]
        else
          writes == old(writes) + chunks && events == old(events)
      ensures thread == old(thread) && loopRunning == old(loopRunning) && stopRequested == old(stopRequested)
      ensures address == old(address) && client == old(client)
    {
      var payload := queue.value[0];
      queue := Some(queue.value[1..]);
      if client.NoClient? || !client.isConnected {
        return;
      }
      var chunks := Chunk(payload, MaxPacket);
      var i := 0;
      while i < |chunks|
        invariant 0 <= i <= |chunks|
        invariant failure.Some? && failure.value.atChunk < |chunks| ==> i <= failure.value.atChunk
        invariant writes == old(writes) + chunks[..i] && events == old(events)
        invariant queue == Some(old(queue).value[1..]) && client == old(client)
        invariant thread == old(thread) && loopRunning == old(loopRunning) && stopRequested == old(stopRequested)
        invariant address == old(address)
      {
        if failure.Some? && failure.value.atChunk == i {
          events := events + [ErrorEmitted("Write failed: " + failure.value.reason)];
          return;
        }
        assert chunks[..i + 1] == chunks[..i] + [chunks[i]];
        writes := writes + [chunks[i]];
        i := i + 1;
      }
      assert chunks[..i] == chunks;
    }

    /** `_on_notify`: valid UTF-8 is emitted as text; a decode error emits nothing. */
    method OnNotify(data: Bytes)
      modifies this
      ensures Utf8.Decode(data).None? ==> events == old(events)
      ensures Utf8.Decode(data).Some? ==> events == old(events) + [LineReceived(Utf8.Decode(data).value)]
      ensures thread == old(thread) && loopRunning == old(loopRunning) && queue == old(queue) && writes == old(writes) && client == old(client)
    {
      var text := Utf8.Decode(data);
      if text.None? {
        return;
      }
      events := events + [LineReceived(text.value)];
    }

    /** The start of `_connected_session_loop`: the client is kept, CONNECTED is signalled, and `ON` then `START` are sent. */
    method SessionStart()
      modifies this
      ensures client == Client(true) && events == old(events) + [ConnectedChanged(true)]
      ensures queue == (if loopRunning && old(queue).Some? then Some(old(queue).value + [SessionCommand("ON"), SessionCommand("START")]) else old(queue))
      ensures thread == old(thread) && loopRunning == old(loopRunning) && writes == old(writes)
    {
      client := Client(true);
      events := events + [ConnectedChanged(true)];
      Send(SessionCommand("ON"));
      Send(SessionCommand("START"));
      if loopRunning && old(queue).Some? {
        assert old(queue).value + [SessionCommand("ON")] + [SessionCommand("START")]
          == old(queue).value + [SessionCommand("ON"), SessionCommand("START")];
      }
    }
  }

  /** A session command: its UTF-8 text and a NUL byte. */
  function SessionCommand(text: string): Bytes
  {
    Utf8.Encode(text) + [0]
  }

  /** A notification of text encoded as UTF-8 is emitted as that text. */
  lemma NotifyText(text: string)
    ensures Utf8.Decode(Utf8.Encode(text)) == Some(text)
  {
    Utf8.DecodeEncode(text);
  }

  /** Session commands fit in one write, so each is written whole, as one chunk. */
  lemma SessionCommandOneChunk(text: string)
    requires |Utf8.Encode(text)| < MaxPacket
    ensures Chunks(SessionCommand(text), MaxPacket) == [SessionCommand(text)]
  {
    var p := SessionCommand(text);
    assert p[Min(MaxPacket, |p|)..] == [];
    assert p[..Min(MaxPacket, |p|)] == p;
  }
}
