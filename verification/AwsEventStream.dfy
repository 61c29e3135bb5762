/**
 AWS event-stream framing: what a byte string means, as a one-shot parse, and the
 incremental decoder that keeps a growing, compacting buffer between chunks.
 */
module AwsEventStream {
  import opened Prelude
  import Crc32

  type bytes = seq<bv8>

  const MAX_FRAME: nat := 0x100_0000
  const MAX_TOTAL: nat := 0x400_0000
  const INITIAL_CAPACITY: nat := 0x1_0000

  datatype Error =
    | TotalLimit | PendingLimit | BadLengths | BadPreludeChecksum | BadMessageChecksum
    | HeaderTruncated | HeaderTypeUnsupported | HeaderValueTruncated | NoEventType
    | BadPayload | Partial

  /** The text decoder, the JSON parser with its object test, and the empty object. */
  datatype Codec<P> = Codec(text: bytes -> string, parse: string -> Option<P>, empty: P)

  datatype Event<P> = Event(name: string, payload: P)

  // ---- Numbers in a byte string ------------------------------------------------------------

  function Size(b: bv8): (n: nat)
    ensures n < 0x100
  {
    b as int
  }

  function U16(b: bytes, i: nat): (n: nat)
    requires i + 2 <= |b|
    ensures n < 0x1_0000
  {
    Size(b[i]) * 0x100 + Size(b[i + 1])
  }

  function U32(b: bytes, i: nat): (n: nat)
    requires i + 4 <= |b|
    ensures n < 0x1_0000_0000
  {
    U16(b, i) * 0x1_0000 + U16(b, i + 2)
  }

  lemma NumberInSlice(b: bytes, lo: nat, hi: nat, i: nat)
    requires lo <= hi <= |b|
    ensures lo + i + 2 <= hi ==> U16(b[lo..hi], i) == U16(b, lo + i)
    ensures lo + i + 4 <= hi ==> U32(b[lo..hi], i) == U32(b, lo + i)
  {}

  function Pack(a: bv8, b: bv8, c: bv8, d: bv8): bv32 {
    ((a as bv32) << 24) | ((b as bv32) << 16) | ((c as bv32) << 8) | (d as bv32)
  }

  /** A stored checksum. */
  function Checksum(b: bytes, i: nat): bv32
    requires i + 4 <= |b|
  {
    Pack(b[i], b[i + 1], b[i + 2], b[i + 3])
  }

  // ---- One frame ---------------------------------------------------------------------------

  predicate NamesEvent(name: string) {
    name == ":event-type" || name == ":exception-type"
  }

  /** The event type: the value of the first header, at or after the offset, with one of the two names. */
  function EventType<P>(codec: Codec<P>, h: bytes, at: nat): Result<string, Error>
    requires at <= |h|
    decreases |h| - at
  {
    if at == |h| then Err(NoEventType)
    else
      var value := at + 2 + Size(h[at]);
      if value > |h| then Err(HeaderTruncated)
      else if h[value - 1] != 7 then Err(HeaderTypeUnsupported)
      else if value + 2 > |h| || value + 2 + U16(h, value) > |h| then Err(HeaderValueTruncated)
      else if NamesEvent(codec.text(h[at + 1..value - 1])) then Ok(codec.text(h[value + 2..value + 2 + U16(h, value)]))
      else EventType(codec, h, value + 2 + U16(h, value))
  }

  predicate LengthsOk(b: bytes)
    requires |b| >= 16
  {
    16 <= U32(b, 0) <= MAX_FRAME && U32(b, 4) <= U32(b, 0) - 16
  }

  function Payload<P>(codec: Codec<P>, raw: bytes): Option<P> {
    var text := codec.text(raw);
    if text == "" then Some(codec.empty) else codec.parse(text)
  }

  function ParseFrame<P>(codec: Codec<P>, f: bytes): Result<Event<P>, Error>
    requires |f| >= 16 && LengthsOk(f) && |f| == U32(f, 0)
  {
    var headers := 12 + U32(f, 4);
    if Crc32.Crc(f[..8]) != Checksum(f, 8) then Err(BadPreludeChecksum)
    else if Crc32.Crc(f[..|f| - 4]) != Checksum(f, |f| - 4) then Err(BadMessageChecksum)
    else match EventType(codec, f[12..headers], 0)
      case Err(e) => Err(e)
      case Ok(name) =>
        match Payload(codec, f[headers..|f| - 4])
        case None => Err(BadPayload)
        case Some(payload) => Ok(Event(name, payload))
  }

  // ---- A whole byte string ---------------------------------------------------------------------

  /** The events found, the bytes of an incomplete last frame, and the error that ended the parse. */
  datatype Parsed<P> = Parsed(events: seq<Event<P>>, rest: bytes, error: Option<Error>)

  function Failed<P>(error: Error): Parsed<P> {
    Parsed([], [], Some(error))
  }

  function Prepend<P>(events: seq<Event<P>>, p: Parsed<P>): Parsed<P> {
    p.(events := events + p.events)
  }

  function FirstFrame<P>(codec: Codec<P>, b: bytes): Result<Event<P>, Error>
    requires |b| >= 16 && LengthsOk(b) && |b| >= U32(b, 0)
  {
    NumberInSlice(b, 0, U32(b, 0), 0);
    NumberInSlice(b, 0, U32(b, 0), 4);
    ParseFrame(codec, b[..U32(b, 0)])
  }

  lemma FirstFrameIs<P>(codec: Codec<P>, b: bytes)
    requires |b| >= 16 && LengthsOk(b) && |b| >= U32(b, 0)
    ensures var f := b[..U32(b, 0)];
      LengthsOk(f) && U32(f, 0) == |f| && FirstFrame(codec, b) == ParseFrame(codec, f)
  {
    hide U32, ParseFrame;
    NumberInSlice(b, 0, U32(b, 0), 0);
    NumberInSlice(b, 0, U32(b, 0), 4);
  }

  function Parse<P>(codec: Codec<P>, b: bytes): Parsed<P>
    decreases |b|
  {
    if |b| < 16 then Parsed([], b, None)
    else if !LengthsOk(b) then Failed(BadLengths)
    else if |b| < U32(b, 0) then Parsed([], b, None)
    else
      var total := U32(b, 0);
      match FirstFrame(codec, b)
      case Err(e) => Failed(e)
      case Ok(event) => Prepend([event], Parse(codec, b[total..]))
  }

  lemma ParseUnfold<P>(codec: Codec<P>, b: bytes)
    ensures Parse(codec, b) ==
      if |b| < 16 then Parsed([], b, None)
      else if !LengthsOk(b) then Failed(BadLengths)
      else if |b| < U32(b, 0) then Parsed([], b, None)
      else
        var frame := FirstFrame(codec, b);
        if frame.Err? then Failed(frame.error)
        else Prepend([frame.value], Parse(codec, b[U32(b, 0)..]))
  {}

  /** Decoding a byte string in one piece. */
  function OneShot<P>(codec: Codec<P>, b: bytes): (seq<Event<P>>, Option<Error>) {
    var p := Parse(codec, b);
    (p.events, if p.error.Some? then p.error else if p.rest != [] then Some(Partial) else None)
  }

  // ---- Chunk by chunk ------------------------------------------------------------------------------

  /** What one chunk yields when `pending` bytes are buffered and `received` have arrived before it. */
  function Feed<P>(codec: Codec<P>, pending: bytes, received: nat, chunk: bytes): Parsed<P> {
    if received + |chunk| > MAX_TOTAL then Failed(TotalLimit)
    else if |pending| + |chunk| > MAX_FRAME then Failed(PendingLimit)
    else Parse(codec, pending + chunk)
  }

  function Decode<P>(codec: Codec<P>, pending: bytes, received: nat, chunks: seq<bytes>): (seq<Event<P>>, Option<Error>)
    decreases |chunks|
  {
    if chunks == [] then ([], if pending != [] then Some(Partial) else None)
    else
      var p := Feed(codec, pending, received, chunks[0]);
      if p.error.Some? then (p.events, p.error)
      else
        var (events, error) := Decode(codec, p.rest, received + |chunks[0]|, chunks[1..]);
        (p.events + events, error)
  }

  lemma SliceSplits(b: bytes, i: nat, j: nat, k: nat)
    requires i <= j <= k <= |b|
    ensures b[i..k] == b[i..j] + b[j..k]
  {}

  class Decoder<P> {
    const codec: Codec<P>
    var storage: array<bv8>
    var start: nat
    var end: nat
    var received: nat

    /** The buffer's bounds, and that it never outgrows twice the bytes received. */
    ghost predicate Valid()
      reads this
    {
      && start <= end <= storage.Length
      && end <= received
      && storage.Length <= Max(INITIAL_CAPACITY, 2 * received)
    }

    ghost function Pending(): bytes
      reads this, storage
      requires Valid()
    {
      storage[start..end]
    }

    constructor (codec: Codec<P>)
      ensures Valid() && fresh(storage) && this.codec == codec && Pending() == [] && received == 0
    {
      this.codec := codec;
      storage := new bv8[INITIAL_CAPACITY];
      start, end, received := 0, 0, 0;
    }

    /** Makes room for a chunk: a larger buffer with the pending bytes moved to its front. */
    method Reserve(size: nat)
      requires start <= end <= storage.Length && end + size <= received
      requires storage.Length <= Max(INITIAL_CAPACITY, 2 * received)
      modifies this`storage, this`start, this`end
      ensures storage == old(storage) || fresh(storage)
      ensures start <= end && end + size <= storage.Length && end <= old(end)
      ensures storage[start..end] == old(storage[start..end])
      ensures storage.Length <= Max(INITIAL_CAPACITY, 2 * received)
    {
      if storage.Length - end < size {
        var pending := end - start;
        var capacity := Max(storage.Length * 2, pending + size);
        var next := new bv8[capacity];
        forall i | 0 <= i < pending {
          next[i] := storage[start + i];
        }
        forall i | 0 <= i < pending ensures next[..pending][i] == storage[start..end][i] {
        }
        assert next[0..pending] == next[..pending] == storage[start..end];
        storage, start, end := next, 0, pending;
      }
    }

    method Receive(chunk: bytes) returns (events: seq<Event<P>>, error: Option<Error>)
      requires Valid()
      modifies this, storage
      ensures storage == old(storage) || fresh(storage)
      ensures var p := Feed(codec, old(Pending()), old(received), chunk);
        && events == p.events && error == p.error
        && (error.None? ==> Valid() && Pending() == p.rest && received == old(received) + |chunk|)
    {
      events, error := [], None;
      hide Parse;
      received := received + |chunk|;
      if received > MAX_TOTAL {
        return [], Some(TotalLimit);
      }
      if end - start + |chunk| > MAX_FRAME {
        return [], Some(PendingLimit);
      }
      Append(chunk);
      events, error := Drain();
    }

    method Append(chunk: bytes)
      requires start <= end <= storage.Length && end + |chunk| <= received
      requires storage.Length <= Max(INITIAL_CAPACITY, 2 * received)
      modifies this`storage, this`start, this`end, storage
      ensures storage == old(storage) || fresh(storage)
      ensures Valid() && Pending() == old(storage[start..end]) + chunk
    {
      Reserve(|chunk|);
      ghost var pending := storage[start..end];
      forall i | 0 <= i < |chunk| {
        storage[end + i] := chunk[i];
      }
      ghost var all := storage[..];
      assert all[start..end] == pending && all[end..end + |chunk|] == chunk;
      SliceSplits(all, start, end, end + |chunk|);
      end := end + |chunk|;
      assert storage[start..end] == all[start..end];
    }

    /** Yields every complete message in the buffer, up to the first bad one. */
    method Drain() returns (events: seq<Event<P>>, error: Option<Error>)
      requires Valid()
      modifies this`start, this`end
      ensures var p := Parse(codec, old(Pending()));
        && events == p.events && error == p.error
        && (error.None? ==> Valid() && Pending() == p.rest)
    {
      hide U32, U16, Size, ParseFrame, Parse, FirstFrame;
      events, error := [], None;
      ghost var all := Pending();
      while end - start >= 16
        invariant Valid()
        invariant Parse(codec, all) == Prepend(events, Parse(codec, Pending()))
        decreases end - start
      {
        var view := storage[start..end];
        ParseUnfold(codec, view);
        var total, headersLength := U32(view, 0), U32(view, 4);
        if total < 16 || total > MAX_FRAME || headersLength > total - 16 {
          return events, Some(BadLengths);
        }
        if end - start < total {
          break;
        }
        FirstFrameIs(codec, view);
        var message := TakeMessage(total);
        var event := DecodeMessage(message);
        if event.Err? {
          return events, Some(event.error);
        }
        events := events + [event.value];
        Rewind();
      }
      ParseUnfold(codec, Pending());
    }

    method TakeMessage(total: nat) returns (message: bytes)
      requires Valid() && total <= end - start
      modifies this`start
      ensures Valid() && start == old(start) + total
      ensures message == old(Pending())[..total] && Pending() == old(Pending())[total..]
    {
      message := storage[start..start + total];
      assert message == storage[start..end][..total];
      start := start + total;
    }

    /** An empty buffer is filled from its front again. */
    method Rewind()
      requires Valid()
      modifies this`start, this`end
      ensures Valid() && Pending() == old(Pending()) && end - start == old(end - start)
    {
      if start == end {
        start, end := 0, 0;
      }
    }

    method DecodeMessage(message: bytes) returns (r: Result<Event<P>, Error>)
      requires |message| >= 16 && LengthsOk(message) && |message| == U32(message, 0)
      ensures r == ParseFrame(codec, message)
    {
      hide Crc32.Crc, Checksum, EventType, Payload, U32;
      var total := |message|;
      var headers := 12 + U32(message, 4);
      var prelude := Crc32.ComputeCrc(message[..8]);
      if prelude != Checksum(message, 8) {
        return Err(BadPreludeChecksum);
      }
      var whole := Crc32.ComputeCrc(message[..total - 4]);
      if whole != Checksum(message, total - 4) {
        return Err(BadMessageChecksum);
      }
      var name := FindEventType(message[12..headers]);
      if name.Err? {
        return Err(name.error);
      }
      var payload := Payload(codec, message[headers..total - 4]);
      r := if payload.None? then Err(BadPayload) else Ok(Event(name.value, payload.value));
    }

    method FindEventType(headers: bytes) returns (r: Result<string, Error>)
      ensures r == EventType(codec, headers, 0)
    {
      hide U16, Size;
      var offset := 0;
      while offset < |headers|
        invariant offset <= |headers|
        invariant EventType(codec, headers, 0) == EventType(codec, headers, offset)
      {
        var nameLength := Size(headers[offset]);
        if offset + 2 + nameLength > |headers| {
          return Err(HeaderTruncated);
        }
        var name := codec.text(headers[offset + 1..offset + 1 + nameLength]);
        var kind := headers[offset + 1 + nameLength];
        offset := offset + 2 + nameLength;
        if kind != 7 {
          return Err(HeaderTypeUnsupported);
        }
        if offset + 2 > |headers| {
          return Err(HeaderValueTruncated);
        }
        var length := U16(headers, offset);
        offset := offset + 2;
        if offset + length > |headers| {
          return Err(HeaderValueTruncated);
        }
        var value := codec.text(headers[offset..offset + length]);
        offset := offset + length;
        if NamesEvent(name) {
          return Ok(value);
        }
      }
      r := Err(NoEventType);
    }
  }

  /** The decoder run over a chunked body. */
  method DecodeStream<P>(codec: Codec<P>, chunks: seq<bytes>) returns (events: seq<Event<P>>, error: Option<Error>)
    ensures (events, error) == Decode(codec, [], 0, chunks)
  {
    var decoder := new Decoder(codec);
    hide Feed;
    events, error := [], None;
    assert chunks[0..] == chunks;
    for i := 0 to |chunks|
      invariant decoder.Valid() && fresh(decoder) && fresh(decoder.storage) && decoder.codec == codec && error.None?
      invariant var (later, final) := Decode(codec, decoder.Pending(), decoder.received, chunks[i..]);
        Decode(codec, [], 0, chunks).0 == events + later && Decode(codec, [], 0, chunks).1 == final
    {
      var found;
      found, error := decoder.Receive(chunks[i]);
      assert chunks[i..][1..] == chunks[i + 1..];
      events := events + found;
      if error.Some? {
        return;
      }
    }
    assert chunks[|chunks|..] == [] && events + [] == events;
    if decoder.end != decoder.start {
      error := Some(Partial);
    }
  }
}
