/** Chunk boundaries do not matter, encoded messages come back, and altered frames do not. */
module AwsEventStreamProofs {
  import opened Prelude
  import opened AwsEventStream
  import Crc32

  // ---- Chunking ---------------------------------------------------------------------------

  lemma LengthsDependOnPrelude(a: bytes, b: bytes)
    requires |a| >= 16
    ensures U32(a + b, 0) == U32(a, 0) && U32(a + b, 4) == U32(a, 4)
  {}

  /** Parsing more bytes continues where parsing the first ones stopped. */
  lemma {:induction false} ParseAppend<P>(codec: Codec<P>, a: bytes, b: bytes)
    ensures Parse(codec, a).error.Some? ==> Parse(codec, a + b) == Parse(codec, a)
    ensures Parse(codec, a).error.None? ==>
              Parse(codec, a + b) == Prepend(Parse(codec, a).events, Parse(codec, Parse(codec, a).rest + b))
    decreases |a|
  {
    hide Parse, U32, ParseFrame;
    ParseUnfold(codec, a);
    if |a| < 16 {
      PrependNothing(Parse(codec, a + b));
    } else {
      LengthsDependOnPrelude(a, b);
      ParseUnfold(codec, a + b);
      if LengthsOk(a) && |a| < U32(a, 0) {
        PrependNothing(Parse(codec, a + b));
      } else if LengthsOk(a) {
        var total := U32(a, 0);
        assert (a + b)[..total] == a[..total];
        assert (a + b)[total..] == a[total..] + b;
        ParseAppend(codec, a[total..], b);
        if FirstFrame(codec, a).Ok? {
          PrependTwice([FirstFrame(codec, a).value], Parse(codec, a[total..]).events,
                       Parse(codec, Parse(codec, a[total..]).rest + b));
        }
      }
    }
  }

  lemma PrependNothing<P>(p: Parsed<P>)
    ensures Prepend([], p) == p
  {}

  lemma PrependTwice<P>(x: seq<Event<P>>, y: seq<Event<P>>, p: Parsed<P>)
    ensures Prepend(x, Prepend(y, p)) == Prepend(x + y, p)
  {}

  function Concat(chunks: seq<bytes>): bytes {
    if chunks == [] then [] else chunks[0] + Concat(chunks[1..])
  }

  /** Neither byte limit is reached before the stream ends or fails. */
  predicate WithinLimits<P>(codec: Codec<P>, pending: bytes, received: nat, chunks: seq<bytes>)
    decreases |chunks|
  {
    chunks == [] ||
    (&& received + |chunks[0]| <= MAX_TOTAL
     && |pending| + |chunks[0]| <= MAX_FRAME
     && (var p := Parse(codec, pending + chunks[0]);
         p.error.Some? || WithinLimits(codec, p.rest, received + |chunks[0]|, chunks[1..])))
  }

  /** A buffer that holds no complete frame. */
  predicate Incomplete<P>(codec: Codec<P>, pending: bytes) {
    Parse(codec, pending) == Parsed([], pending, None)
  }

  lemma {:induction false} RestIsIncomplete<P>(codec: Codec<P>, b: bytes)
    requires Parse(codec, b).error.None?
    ensures Incomplete(codec, Parse(codec, b).rest)
    decreases |b|
  {
    hide Parse, U32, ParseFrame;
    ParseUnfold(codec, b);
    if |b| >= 16 && LengthsOk(b) && |b| >= U32(b, 0) {
      RestIsIncomplete(codec, b[U32(b, 0)..]);
    }
  }

  /**
   For every chunking that stays inside the two byte limits, the incremental decoder
   yields the same messages and ends in the same way as one parse of all the bytes.
   */
  lemma {:induction false} ChunkingDoesNotMatter<P>(codec: Codec<P>, pending: bytes, received: nat, chunks: seq<bytes>)
    requires Incomplete(codec, pending) && WithinLimits(codec, pending, received, chunks)
    ensures Decode(codec, pending, received, chunks) == OneShot(codec, pending + Concat(chunks))
    decreases |chunks|
  {
    hide Parse;
    if chunks == [] {
      assert pending + [] == pending;
    } else {
      var first, rest := pending + chunks[0], Concat(chunks[1..]);
      assert pending + Concat(chunks) == first + rest;
      ParseAppend(codec, first, rest);
      var p := Parse(codec, first);
      if p.error.None? {
        RestIsIncomplete(codec, first);
        ChunkingDoesNotMatter(codec, p.rest, received + |chunks[0]|, chunks[1..]);
      }
    }
  }

  /** The same for a fresh decoder. */
  lemma FreshDecoderRefinesOneShot<P>(codec: Codec<P>, chunks: seq<bytes>)
    requires WithinLimits(codec, [], 0, chunks)
    ensures Decode(codec, [], 0, chunks) == OneShot(codec, Concat(chunks))
  {
    ChunkingDoesNotMatter(codec, [], 0, chunks);
    assert [] + Concat(chunks) == Concat(chunks);
  }

  /** Whether or not a limit stops it, the decoder yields only messages the whole byte string holds, in order. */
  lemma {:induction false} LimitsOnlyCutShort<P>(codec: Codec<P>, pending: bytes, received: nat, chunks: seq<bytes>)
    requires Incomplete(codec, pending)
    ensures Decode(codec, pending, received, chunks).0 <= Parse(codec, pending + Concat(chunks)).events
    decreases |chunks|
  {
    hide Parse;
    if chunks != [] {
      var first, rest := pending + chunks[0], Concat(chunks[1..]);
      assert pending + Concat(chunks) == first + rest;
      ParseAppend(codec, first, rest);
      var p := Parse(codec, first);
      if p.error.None? {
        RestIsIncomplete(codec, first);
        LimitsOnlyCutShort(codec, p.rest, received + |chunks[0]|, chunks[1..]);
      }
    }
  }

  // ---- Encoding --------------------------------------------------------------------------------

  lemma NextByte(b: bv8)
    requires Size(b) < 0xff
    ensures Size(b + 1) == Size(b) + 1
  {}

  /** The byte with a given value. */
  function Byte(n: nat): (b: bv8)
    requires n < 0x100
    ensures Size(b) == n
  {
    if n == 0 then 0 else (NextByte(Byte(n - 1)); Byte(n - 1) + 1)
  }

  function Bytes2(n: nat): (b: bytes)
    requires n < 0x1_0000
    ensures |b| == 2 && U16(b, 0) == n
  {
    hide Size, Byte;
    [Byte(n / 0x100), Byte(n % 0x100)]
  }

  function Bytes4(n: nat): (b: bytes)
    requires n < 0x1_0000_0000
    ensures |b| == 4 && U32(b, 0) == n
  {
    var b := Bytes2(n / 0x1_0000) + Bytes2(n % 0x1_0000);
    assert b[0..2] == Bytes2(n / 0x1_0000) && b[2..4] == Bytes2(n % 0x1_0000);
    NumberInSlice(b, 0, 2, 0);
    NumberInSlice(b, 2, 4, 0);
    b
  }

  function ChecksumBytes(c: bv32): (b: bytes)
    ensures |b| == 4 && Checksum(b, 0) == c
  {
    PackUnpacks(c);
    [(c >> 24) as bv8, ((c >> 16) & 0xff) as bv8, ((c >> 8) & 0xff) as bv8, (c & 0xff) as bv8]
  }

  lemma PackUnpacks(c: bv32)
    ensures Pack((c >> 24) as bv8, ((c >> 16) & 0xff) as bv8, ((c >> 8) & 0xff) as bv8, (c & 0xff) as bv8) == c
  {}

  /** Bytes followed by their checksum. */
  function Signed(b: bytes): bytes {
    b + ChecksumBytes(Crc32.Crc(b))
  }

  datatype Header = Header(name: bytes, value: bytes)

  datatype Message = Message(headers: seq<Header>, payload: bytes)

  predicate HeaderFits(h: Header) {
    |h.name| < 0x100 && |h.value| < 0x1_0000
  }

  predicate MessageFits(m: Message) {
    && (forall i :: 0 <= i < |m.headers| ==> HeaderFits(m.headers[i]))
    && 16 + |EncodeHeaders(m.headers)| + |m.payload| <= MAX_FRAME
  }

  function EncodeHeader(h: Header): bytes
    requires HeaderFits(h)
  {
    [Byte(|h.name|)] + h.name + [7] + Bytes2(|h.value|) + h.value
  }

  function EncodeHeaders(hs: seq<Header>): bytes
    requires forall i :: 0 <= i < |hs| ==> HeaderFits(hs[i])
  {
    if hs == [] then [] else EncodeHeader(hs[0]) + EncodeHeaders(hs[1..])
  }

  function EncodeMessage(m: Message): bytes
    requires MessageFits(m)
  {
    var headers := EncodeHeaders(m.headers);
    Signed(Signed(Bytes4(16 + |headers| + |m.payload|) + Bytes4(|headers|)) + headers + m.payload)
  }

  function EncodeAll(ms: seq<Message>): bytes
    requires forall i :: 0 <= i < |ms| ==> MessageFits(ms[i])
  {
    if ms == [] then [] else EncodeMessage(ms[0]) + EncodeAll(ms[1..])
  }

  /** The value of the first header that names the event. */
  function EventName<P>(codec: Codec<P>, hs: seq<Header>): Option<string> {
    if hs == [] then None
    else if codec.text(hs[0].name) == ":event-type" || codec.text(hs[0].name) == ":exception-type" then Some(codec.text(hs[0].value))
    else EventName(codec, hs[1..])
  }

  /** What a message means. */
  function Meaning<P>(codec: Codec<P>, m: Message): Option<Event<P>> {
    var name, text := EventName(codec, m.headers), codec.text(m.payload);
    var payload := if text == "" then Some(codec.empty) else codec.parse(text);
    if name.Some? && payload.Some? then Some(Event(name.value, payload.value)) else None
  }

  lemma {:induction false} HeadersDecode<P>(codec: Codec<P>, before: bytes, hs: seq<Header>)
    requires forall i :: 0 <= i < |hs| ==> HeaderFits(hs[i])
    ensures EventType(codec, before + EncodeHeaders(hs), |before|) ==
              match EventName(codec, hs)
              case None => Err(NoEventType)
              case Some(name) => Ok(name)
    decreases |hs|
  {
    hide EventType, U16, EncodeHeader;
    if hs == [] {
      assert before + [] == before;
      NoMoreHeaders(codec, before);
    } else {
      var h, rest := EncodeHeader(hs[0]), EncodeHeaders(hs[1..]);
      assert before + (h + rest) == before + h + rest;
      HeaderDecodes(codec, before, hs[0], rest);
      HeadersDecode(codec, before + h, hs[1..]);
    }
  }

  lemma NoMoreHeaders<P>(codec: Codec<P>, h: bytes)
    ensures EventType(codec, h, |h|) == Err(NoEventType)
  {}

  lemma HeaderLayout(before: bytes, h: Header, after: bytes)
    requires HeaderFits(h)
    ensures var all, at := before + EncodeHeader(h) + after, |before|;
      var value := at + 2 + |h.name|;
      && |all| >= |before + EncodeHeader(h)| == value + 2 + |h.value|
      && all[at] == Byte(|h.name|) && all[at + 1..value - 1] == h.name && all[value - 1] == 7
      && all[value..value + 2] == Bytes2(|h.value|) && all[value + 2..value + 2 + |h.value|] == h.value
  {
    hide U16, Size, Byte, Bytes2;
    var length := Bytes2(|h.value|);
    assert EncodeHeader(h) == [Byte(|h.name|)] + h.name + [7] + length + h.value;
  }

  lemma EventTypeUnfold<P>(codec: Codec<P>, h: bytes, at: nat, name: bytes, value: bytes)
    requires at + 2 + |name| + 2 + |value| <= |h|
    requires Size(h[at]) == |name| && h[at + 1..at + 1 + |name|] == name && h[at + 1 + |name|] == 7
    requires U16(h, at + 2 + |name|) == |value|
    requires h[at + 4 + |name|..at + 4 + |name| + |value|] == value
    ensures EventType(codec, h, at) ==
            if NamesEvent(codec.text(name)) then Ok(codec.text(value))
            else EventType(codec, h, at + 4 + |name| + |value|)
  {
    hide U16, Size, NamesEvent;
  }

  lemma HeaderDecodes<P>(codec: Codec<P>, before: bytes, h: Header, after: bytes)
    requires HeaderFits(h)
    ensures var all := before + EncodeHeader(h) + after;
      EventType(codec, all, |before|) ==
        if NamesEvent(codec.text(h.name)) then Ok(codec.text(h.value))
        else EventType(codec, all, |before + EncodeHeader(h)|)
  {
    hide U16, Size, EncodeHeader, Byte, Bytes2, EventType, NamesEvent;
    HeaderLayout(before, h, after);
    var all, value := before + EncodeHeader(h) + after, |before| + 2 + |h.name|;
    NumberInSlice(all, value, value + 2, 0);
    EventTypeUnfold(codec, all, |before|, h.name, h.value);
  }

  // ---- Round trip -----------------------------------------------------------------------------------

  lemma SignedLayout(b: bytes)
    ensures var f := Signed(b);
      |f| == |b| + 4 && f[..|b|] == b && Checksum(f, |b|) == Crc32.Crc(b)
  {}

  lemma MessageLayout(m: Message)
    requires MessageFits(m)
    ensures var f, n := EncodeMessage(m), |EncodeHeaders(m.headers)|;
      && |f| == 16 + n + |m.payload|
      && |f[..8]| == 8 && U32(f, 0) == |f| && U32(f, 4) == n
      && f[12..12 + n] == EncodeHeaders(m.headers) && f[12 + n..|f| - 4] == m.payload
      && Checksum(f, 8) == Crc32.Crc(f[..8]) && Checksum(f, |f| - 4) == Crc32.Crc(f[..|f| - 4])
  {
    hide U32, Crc32.Crc, Signed, Bytes4, EncodeHeaders, Checksum;
    var f, headers := EncodeMessage(m), EncodeHeaders(m.headers);
    var total, length := Bytes4(16 + |headers| + |m.payload|), Bytes4(|headers|);
    var prelude := total + length;
    SignedLayout(prelude);
    var body := Signed(prelude) + headers + m.payload;
    SignedLayout(body);
    assert f == Signed(body) && f[..|f| - 4] == body;
    assert f[..8] == body[..8] == Signed(prelude)[..8] == prelude;
    assert f[8..12] == f[..|f| - 4][8..12] == body[8..12] == Signed(prelude)[8..12];
    SameChecksum(f, Signed(prelude), 8);
    PreludeNumbers(f, total, length);
    MiddleOf(f, Signed(prelude), headers, m.payload);
  }

  lemma PreludeNumbers(f: bytes, total: bytes, length: bytes)
    requires |f| >= 8 && |total| == 4 && |length| == 4 && f[..8] == total + length
    ensures U32(f, 0) == U32(total, 0) && U32(f, 4) == U32(length, 0)
  {}

  lemma MiddleOf(f: bytes, a: bytes, b: bytes, c: bytes)
    requires |f| >= 4 && f[..|f| - 4] == a + b + c
    ensures f[|a|..|a| + |b|] == b && f[|a| + |b|..|f| - 4] == c
  {}

  lemma MessageDecodes<P>(codec: Codec<P>, m: Message)
    requires MessageFits(m) && Meaning(codec, m).Some?
    ensures var f := EncodeMessage(m);
      && |f| >= 16 && LengthsOk(f) && U32(f, 0) == |f|
      && ParseFrame(codec, f) == Ok(Meaning(codec, m).value)
  {
    hide U32, Crc32.Crc, EncodeMessage, EncodeHeaders, Checksum, EventType, EventName;
    MessageLayout(m);
    HeadersDecode(codec, [], m.headers);
    assert [] + EncodeHeaders(m.headers) == EncodeHeaders(m.headers);
  }

  function Meanings<P>(codec: Codec<P>, ms: seq<Message>): seq<Event<P>>
    requires forall i :: 0 <= i < |ms| ==> Meaning(codec, ms[i]).Some?
  {
    if ms == [] then [] else [Meaning(codec, ms[0]).value] + Meanings(codec, ms[1..])
  }

  /** Decoding an encoded message list, in one piece, gives the list's meaning back and nothing else. */
  lemma {:induction false} DecodeUndoesEncode<P>(codec: Codec<P>, ms: seq<Message>)
    requires forall i :: 0 <= i < |ms| ==> MessageFits(ms[i]) && Meaning(codec, ms[i]).Some?
    ensures Parse(codec, EncodeAll(ms)) == Parsed(Meanings(codec, ms), [], None)
  {
    hide U32, ParseFrame, EncodeMessage, Parse;
    ParseUnfold(codec, EncodeAll(ms));
    if ms != [] {
      var f, rest := EncodeMessage(ms[0]), EncodeAll(ms[1..]);
      MessageDecodes(codec, ms[0]);
      LengthsDependOnPrelude(f, rest);
      assert (f + rest)[..|f|] == f && (f + rest)[|f|..] == rest;
      DecodeUndoesEncode(codec, ms[1..]);
    }
  }

  // ---- Altered frames -----------------------------------------------------------------------------------

  /** A window that stays on one side of each checksum: in the prelude, the body, or one of the two checksums. */
  predicate OneSided(total: nat, from: nat, to: nat) {
    to <= 8 || (8 <= from && to <= 12) || (12 <= from && to + 4 <= total) || total <= from + 4
  }

  lemma ChecksumIsInjective(a: bytes, b: bytes, i: nat)
    requires i + 4 <= |a| && i + 4 <= |b| && Checksum(a, i) == Checksum(b, i)
    ensures a[i..i + 4] == b[i..i + 4]
  {}

  /** What is before the window, or after it, is the same. */
  lemma OutsideWindow(p: bytes, v: bytes, w: bytes, s: bytes, i: nat, j: nat)
    requires |v| == |w| && i <= j <= |p + v + s| && (j <= |p| || |p| + |v| <= i)
    ensures (p + v + s)[i..j] == (p + w + s)[i..j]
  {}

  lemma CrcOfPrefixChanges(p: bytes, v: bytes, w: bytes, s: bytes, n: nat)
    requires |v| == |w| <= 4 && v != w && |p| + |v| <= n <= |p + v + s|
    ensures Crc32.Crc((p + v + s)[..n]) != Crc32.Crc((p + w + s)[..n])
  {
    hide Crc32.Crc;
    var t := s[..n - |p| - |v|];
    assert (p + v + s)[..n] == p + v + t && (p + w + s)[..n] == p + w + t;
    Crc32.BurstChangesCrc(p, v, w, t);
  }

  lemma SliceAcross(p: bytes, v: bytes, s: bytes, i: nat)
    requires i <= |p| && |p| + |v| <= i + 4 <= |p + v + s|
    ensures (p + v + s)[i..i + 4][|p| - i..][..|v|] == v
  {}

  lemma StoredChecksumChanges(p: bytes, v: bytes, w: bytes, s: bytes, i: nat)
    requires |v| == |w| && v != w && i <= |p| && |p| + |v| <= i + 4 <= |p + v + s|
    ensures Checksum(p + v + s, i) != Checksum(p + w + s, i)
  {
    hide Checksum;
    var f, g := p + v + s, p + w + s;
    SliceAcross(p, v, s, i);
    SliceAcross(p, w, s, i);
    if Checksum(f, i) == Checksum(g, i) {
      ChecksumIsInjective(f, g, i);
    }
  }

  lemma ChecksumInPrefix(b: bytes, n: nat, i: nat)
    requires i + 4 <= n <= |b|
    ensures Checksum(b[..n], i) == Checksum(b, i)
  {}

  /** A frame whose lengths are right and whose checksums are, as the decoder tests them. */
  predicate ChecksumsHold(f: bytes)
    requires |f| >= 16
  {
    Crc32.Crc(f[..8]) == Checksum(f, 8) && Crc32.Crc(f[..|f| - 4]) == Checksum(f, |f| - 4)
  }

  lemma YieldedFramesCheck<P>(codec: Codec<P>, f: bytes)
    requires |f| >= 16 && LengthsOk(f) && U32(f, 0) == |f| && ParseFrame(codec, f).Ok?
    ensures ChecksumsHold(f)
  {}

  /** An altered prelude or an altered prelude checksum fails the prelude test, wherever the frame then seems to end. */
  lemma PreludeFails(p: bytes, v: bytes, w: bytes, s: bytes, g': bytes)
    requires |v| == |w| <= 4 && v != w && |p| + |v| <= 12 && (|p| + |v| <= 8 || 8 <= |p|) && |p + v + s| >= 16
    requires |g'| >= 12 && g'[..12] == (p + w + s)[..12]
    requires Crc32.Crc((p + v + s)[..8]) == Checksum(p + v + s, 8)
    ensures Crc32.Crc(g'[..8]) != Checksum(g', 8)
  {
    hide Crc32.Crc, Checksum;
    var f, g := p + v + s, p + w + s;
    assert g'[..8] == g'[..12][..8] == g[..8];
    ChecksumInPrefix(g', 12, 8);
    ChecksumInPrefix(g, 12, 8);
    if |p| + |v| <= 8 {
      CrcOfPrefixChanges(p, v, w, s, 8);
      OutsideWindow(p, v, w, s, 8, 12);
      SameChecksum(f, g, 8);
    } else {
      StoredChecksumChanges(p, v, w, s, 8);
      OutsideWindow(p, v, w, s, 0, 8);
      assert f[0..8] == f[..8] && g[0..8] == g[..8];
    }
  }

  lemma SameChecksum(a: bytes, b: bytes, i: nat)
    requires i + 4 <= |a| && i + 4 <= |b| && a[i..i + 4] == b[i..i + 4]
    ensures Checksum(a, i) == Checksum(b, i)
  {
    assert a[i] == a[i..i + 4][0] && a[i + 1] == a[i..i + 4][1] && a[i + 2] == a[i..i + 4][2] && a[i + 3] == a[i..i + 4][3];
  }

  /** An altered body or message checksum fails the message test. */
  lemma BodyFails(p: bytes, v: bytes, w: bytes, s: bytes)
    requires |v| == |w| <= 4 && v != w && 12 <= |p| && |p + v + s| >= 16
    requires var n := |p + v + s|; |p| + |v| + 4 <= n || n <= |p| + 4
    requires var f := p + v + s; Crc32.Crc(f[..|f| - 4]) == Checksum(f, |f| - 4)
    ensures var g := p + w + s; Crc32.Crc(g[..|g| - 4]) != Checksum(g, |g| - 4)
  {
    hide Crc32.Crc, Checksum;
    var f, g := p + v + s, p + w + s;
    var n := |f|;
    if |p| + |v| + 4 <= n {
      CrcOfPrefixChanges(p, v, w, s, n - 4);
      OutsideWindow(p, v, w, s, n - 4, n);
      SameChecksum(f, g, n - 4);
    } else {
      StoredChecksumChanges(p, v, w, s, n - 4);
      OutsideWindow(p, v, w, s, 0, n - 4);
      assert f[0..n - 4] == f[..n - 4] && g[0..n - 4] == g[..n - 4];
    }
  }

  /**
   A frame the decoder yields, altered in one to four neighbouring bytes that do not
   straddle a checksum boundary (in particular in any single byte), is never yielded,
   whatever bytes follow it.
   */
  lemma AlteredFrameIsNotYielded<P>(codec: Codec<P>, p: bytes, v: bytes, w: bytes, s: bytes, rest: bytes)
    requires |v| == |w| <= 4 && v != w
    requires var f := p + v + s;
      |f| >= 16 && LengthsOk(f) && U32(f, 0) == |f| && ParseFrame(codec, f).Ok? && OneSided(|f|, |p|, |p| + |v|)
    ensures Parse(codec, p + w + s + rest).events == []
  {
    hide U32, Crc32.Crc, Checksum, EventType, Parse;
    var f, g := p + v + s, p + w + s;
    YieldedFramesCheck(codec, f);
    ParseUnfold(codec, g + rest);
    LengthsDependOnPrelude(g, rest);
    if LengthsOk(g + rest) && U32(g + rest, 0) <= |g + rest| {
      var h := (g + rest)[..U32(g + rest, 0)];
      assert |h| >= 16 && h[..12] == g[..12];
      if |p| + |v| <= 12 {
        PreludeFails(p, v, w, s, h);
      } else {
        OutsideWindow(p, v, w, s, 0, 12);
        SameLengths(f, g);
        assert h == g;
        BodyFails(p, v, w, s);
      }
      assert !ChecksumsHold(h);
      RejectsBadChecksums(codec, g + rest);
    }
  }

  /** In particular a yielded frame with any one byte changed is never yielded. */
  lemma OneChangedByteIsNotYielded<P>(codec: Codec<P>, f: bytes, i: nat, b: bv8, rest: bytes)
    requires |f| >= 16 && LengthsOk(f) && U32(f, 0) == |f| && ParseFrame(codec, f).Ok?
    requires i < |f| && b != f[i]
    ensures Parse(codec, f[i := b] + rest).events == []
  {
    hide Parse, ParseFrame, LengthsOk, U32;
    var p, s := f[..i], f[i + 1..];
    assert p + [f[i]] + s == f && p + [b] + s == f[i := b];
    AlteredFrameIsNotYielded(codec, p, [f[i]], [b], s, rest);
  }

  lemma SameLengths(a: bytes, b: bytes)
    requires |a| >= 12 && |b| >= 12 && a[0..12] == b[0..12]
    ensures U32(a, 0) == U32(b, 0)
  {}

  lemma RejectsBadChecksums<P>(codec: Codec<P>, b: bytes)
    requires |b| >= 16 && LengthsOk(b) && |b| >= U32(b, 0) && !ChecksumsHold(b[..U32(b, 0)])
    ensures FirstFrame(codec, b).Err?
  {}

  /** However the altered frame and what follows it are cut into chunks, the decoder yields nothing. */
  lemma AlteredFrameIsNotYieldedInChunks<P>(codec: Codec<P>, p: bytes, v: bytes, w: bytes, s: bytes, chunks: seq<bytes>)
    requires |v| == |w| <= 4 && v != w
    requires var f := p + v + s;
      |f| >= 16 && LengthsOk(f) && U32(f, 0) == |f| && ParseFrame(codec, f).Ok? && OneSided(|f|, |p|, |p| + |v|)
    requires |p + w + s| <= |Concat(chunks)| && Concat(chunks)[..|p + w + s|] == p + w + s
    ensures Decode(codec, [], 0, chunks).0 == []
  {
    hide Parse, ParseFrame, LengthsOk, U32, Decode;
    var all, n := Concat(chunks), |p + w + s|;
    assert all == p + w + s + all[n..];
    AlteredFrameIsNotYielded(codec, p, v, w, s, all[n..]);
    NothingPending(codec);
    LimitsOnlyCutShort(codec, [], 0, chunks);
    assert [] + all == all;
  }

  /**
   Wherever in a stream the altered frame stands: after any encoded messages exactly those
   are yielded, and neither the altered frame nor anything after it.
   */
  lemma MessagesBeforeAlteredFrame<P>(codec: Codec<P>, ms: seq<Message>, p: bytes, v: bytes, w: bytes, s: bytes, rest: bytes)
    requires forall i :: 0 <= i < |ms| ==> MessageFits(ms[i]) && Meaning(codec, ms[i]).Some?
    requires |v| == |w| <= 4 && v != w
    requires var f := p + v + s;
      |f| >= 16 && LengthsOk(f) && U32(f, 0) == |f| && ParseFrame(codec, f).Ok? && OneSided(|f|, |p|, |p| + |v|)
    ensures Parse(codec, EncodeAll(ms) + (p + w + s + rest)).events == Meanings(codec, ms)
  {
    hide Parse, ParseFrame, LengthsOk, U32, EncodeAll, MessageFits, Meaning, Meanings;
    var after := p + w + s + rest;
    DecodeUndoesEncode(codec, ms);
    ParseAppend(codec, EncodeAll(ms), after);
    AlteredFrameIsNotYielded(codec, p, v, w, s, rest);
    assert [] + after == after;
    assert Meanings(codec, ms) + [] == Meanings(codec, ms);
  }

  /** The same however the stream is cut: what is yielded are the first of those messages, all of them if no limit is reached. */
  lemma MessagesBeforeAlteredFrameInChunks<P>(codec: Codec<P>, ms: seq<Message>, p: bytes, v: bytes, w: bytes, s: bytes,
                                             rest: bytes, chunks: seq<bytes>)
    requires forall i :: 0 <= i < |ms| ==> MessageFits(ms[i]) && Meaning(codec, ms[i]).Some?
    requires |v| == |w| <= 4 && v != w
    requires var f := p + v + s;
      |f| >= 16 && LengthsOk(f) && U32(f, 0) == |f| && ParseFrame(codec, f).Ok? && OneSided(|f|, |p|, |p| + |v|)
    requires Concat(chunks) == EncodeAll(ms) + (p + w + s + rest)
    ensures Decode(codec, [], 0, chunks).0 <= Meanings(codec, ms)
    ensures WithinLimits(codec, [], 0, chunks) ==> Decode(codec, [], 0, chunks).0 == Meanings(codec, ms)
  {
    hide Parse, ParseFrame, LengthsOk, U32, EncodeAll, MessageFits, Meaning, Meanings, Decode, WithinLimits;
    MessagesBeforeAlteredFrame(codec, ms, p, v, w, s, rest);
    NothingPending(codec);
    LimitsOnlyCutShort(codec, [], 0, chunks);
    assert [] + Concat(chunks) == Concat(chunks);
    if WithinLimits(codec, [], 0, chunks) {
      FreshDecoderRefinesOneShot(codec, chunks);
    }
  }

  lemma NothingPending<P>(codec: Codec<P>)
    ensures Incomplete(codec, [])
  {}
}
