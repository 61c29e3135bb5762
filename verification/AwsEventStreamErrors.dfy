/** Which error a bad frame, a bad header list or too many bytes give, with the limits in numbers. */
module AwsEventStreamErrors {
  import opened Prelude
  import opened AwsEventStream
  import opened AwsEventStreamProofs
  import Crc32

  /** A number in big-endian order. */
  function BigEndian(b: bytes): nat {
    if b == [] then 0 else BigEndian(b[..|b| - 1]) * 256 + b[|b| - 1] as int
  }

  lemma {:induction false} U32IsBigEndian(b: bytes, i: nat)
    requires i + 4 <= |b|
    ensures U32(b, i) == BigEndian(b[i..i + 4])
  {
    var w := b[i..i + 4];
    assert w[..3][..2] == w[..2] && w[..2][..1] == w[..1] && w[..1][..0] == [];
    assert BigEndian(w) == BigEndian(w[..3]) * 256 + w[3] as int;
    assert BigEndian(w[..3]) == BigEndian(w[..2]) * 256 + w[2] as int;
    assert BigEndian(w[..2]) == BigEndian(w[..1]) * 256 + w[1] as int;
    assert BigEndian(w[..1]) == w[0] as int;
  }

  /**
   The first frame of a byte string: fewer than sixteen bytes, or fewer than the frame says,
   are left for later; lengths have to fit the frame and sixteen mebibytes; then come the
   checksum of the first eight bytes, that of all but the last four, the header list and the
   payload, in this order.
   */
  lemma FirstFrameMeans<P>(codec: Codec<P>, b: bytes)
    ensures var p := Parse(codec, b);
      if |b| < 16 then p == Parsed([], b, None)
      else
        var total, headers := BigEndian(b[..4]), BigEndian(b[4..8]);
        if total < 16 || total > 16 * 1024 * 1024 || headers + 16 > total then p == Parsed([], [], Some(BadLengths))
        else if |b| < total then p == Parsed([], b, None)
        else
          var list := EventType(codec, b[12..12 + headers], 0);
          var text := codec.text(b[12 + headers..total - 4]);
          var payload := if text == "" then Some(codec.empty) else codec.parse(text);
          if Crc32.Crc(b[..8]) != Checksum(b, 8) then p == Parsed([], [], Some(BadPreludeChecksum))
          else if Crc32.Crc(b[..total - 4]) != Checksum(b, total - 4) then p == Parsed([], [], Some(BadMessageChecksum))
          else if list.Err? then p == Parsed([], [], Some(list.error))
          else if payload.None? then p == Parsed([], [], Some(BadPayload))
          else p == Prepend([Event(list.value, payload.value)], Parse(codec, b[total..]))
  {
    hide U32, BigEndian, Crc32.Crc, EventType, Parse, Checksum;
    ParseUnfold(codec, b);
    if |b| >= 16 {
      U32IsBigEndian(b, 0);
      U32IsBigEndian(b, 4);
      assert b[0..4] == b[..4];
      if LengthsOk(b) && U32(b, 0) <= |b| {
        var total, headers := U32(b, 0), U32(b, 4);
        var f := b[..total];
        FirstFrameIs(codec, b);
        NumberInSlice(b, 0, total, 4);
        ChecksumInPrefix(b, total, 8);
        ChecksumInPrefix(b, total, total - 4);
        assert f[..8] == b[..8] && f[..|f| - 4] == b[..total - 4];
        assert f[12..12 + headers] == b[12..12 + headers] && f[12 + headers..|f| - 4] == b[12 + headers..total - 4];
      }
    }
  }

  lemma ChecksumInPrefix(b: bytes, n: nat, i: nat)
    requires i + 4 <= n <= |b|
    ensures Checksum(b[..n], i) == Checksum(b, i)
  {}

  /** The stored checksum is the big-endian word. */
  lemma ChecksumIsBigEndian(b: bytes, i: nat)
    requires i + 4 <= |b|
    ensures Checksum(b, i) == (b[i] as bv32 << 24) | (b[i + 1] as bv32 << 16) | (b[i + 2] as bv32 << 8) | b[i + 3] as bv32
  {}

  /** What a header list means from its next header on: nothing is left, or another header, perhaps a bad one. */
  ghost predicate NextHeaderMeans<P>(codec: Codec<P>, tail: bytes, r: Result<string, Error>) {
    if tail == [] then r == Err(NoEventType)
    else
      var n := tail[0] as int;
      if n + 2 > |tail| then r == Err(HeaderTruncated)
      else if tail[n + 1] != 7 then r == Err(HeaderTypeUnsupported)
      else if n + 4 > |tail| || n + 4 + BigEndian(tail[n + 2..n + 4]) > |tail| then r == Err(HeaderValueTruncated)
      else
        var name, value := codec.text(tail[1..n + 1]), codec.text(tail[n + 4..n + 4 + BigEndian(tail[n + 2..n + 4])]);
        name == ":event-type" || name == ":exception-type" ==> r == Ok(value)
  }

  /** What comes after headers that do not name the event. */
  lemma HeaderListMeans<P>(codec: Codec<P>, hs: seq<Header>, tail: bytes)
    requires forall i :: 0 <= i < |hs| ==> HeaderFits(hs[i])
    requires EventName(codec, hs).None?
    ensures NextHeaderMeans(codec, tail, EventType(codec, EncodeHeaders(hs) + tail, 0))
  {
    hide EventType, EncodeHeaders, NextHeaderMeans;
    HeadersSkipped(codec, [], hs, tail);
    assert [] + EncodeHeaders(hs) + tail == EncodeHeaders(hs) + tail && [] + EncodeHeaders(hs) == EncodeHeaders(hs);
    HeaderAt(codec, EncodeHeaders(hs), tail);
  }

  lemma HeaderAt<P>(codec: Codec<P>, before: bytes, tail: bytes)
    ensures NextHeaderMeans(codec, tail, EventType(codec, before + tail, |before|))
  {
    hide BigEndian, U16, EventType, Size, NextHeaderMeans;
    var h, at := before + tail, |before|;
    if tail == [] {
      assert before + [] == before;
      NoMoreHeaders(codec, before);
      NoneMeans<P>(codec);
    } else {
      var n := tail[0] as int;
      assert h[at] == tail[0] && h[at..] == tail;
      if n + 4 <= |tail| {
        TailIsRead(before, tail, n);
        HeaderRead(codec, h, at, tail, n);
      } else {
        HeaderCut(codec, h, at, tail, n);
      }
    }
  }

  lemma TailIsRead(before: bytes, tail: bytes, n: nat)
    requires n + 4 <= |tail|
    ensures var h, at, size := before + tail, |before|, U16(tail, n + 2);
      && h[at + 1 + n] == tail[n + 1] && h[at + 1..at + n + 1] == tail[1..n + 1]
      && U16(h, at + n + 2) == size == BigEndian(tail[n + 2..n + 4])
      && (n + 4 + size <= |tail| ==> h[at + n + 4..at + n + 4 + size] == tail[n + 4..n + 4 + size])
  {
    hide BigEndian, U16;
    U16IsBigEndian(tail, n + 2);
    U16InTail(before, tail, n + 2);
    SameSlice(before, tail, 1, n + 1);
    if n + 4 + U16(tail, n + 2) <= |tail| {
      SameSlice(before, tail, n + 4, n + 4 + U16(tail, n + 2));
    }
  }

  lemma NoneMeans<P>(codec: Codec<P>)
    ensures NextHeaderMeans(codec, [], Err(NoEventType))
  {}

  lemma U16InTail(before: bytes, tail: bytes, i: nat)
    requires i + 2 <= |tail|
    ensures U16(before + tail, |before| + i) == U16(tail, i)
  {}

  lemma HeaderCut<P>(codec: Codec<P>, h: bytes, at: nat, tail: bytes, n: nat)
    requires at <= |h| && |h| == at + |tail| && tail != [] && n == tail[0] as int && h[at] == tail[0] && n + 4 > |tail|
    requires h[at..] == tail
    ensures NextHeaderMeans(codec, tail, EventType(codec, h, at))
  {
    if n + 2 <= |tail| {
      assert h[at + 1 + n] == h[at..][1 + n] == tail[n + 1];
    }
  }

  lemma HeaderRead<P>(codec: Codec<P>, h: bytes, at: nat, tail: bytes, n: nat)
    requires at <= |h| && |h| == at + |tail| && n == (if tail == [] then 0 else tail[0] as int) && n + 4 <= |tail|
    requires h[at] == tail[0] && h[at + 1 + n] == tail[n + 1] && h[at + 1..at + n + 1] == tail[1..n + 1]
    requires var size := U16(tail, n + 2);
      && U16(h, at + n + 2) == size == BigEndian(tail[n + 2..n + 4])
      && (n + 4 + size <= |tail| ==> h[at + n + 4..at + n + 4 + size] == tail[n + 4..n + 4 + size])
    ensures NextHeaderMeans(codec, tail, EventType(codec, h, at))
  {
    hide BigEndian, U16;
  }

  lemma SameSlice(before: bytes, tail: bytes, lo: nat, hi: nat)
    requires lo <= hi <= |tail|
    ensures (before + tail)[|before| + lo..|before| + hi] == tail[lo..hi]
  {}

  lemma U16IsBigEndian(b: bytes, i: nat)
    requires i + 2 <= |b|
    ensures U16(b, i) == BigEndian(b[i..i + 2])
  {
    var w := b[i..i + 2];
    assert w[..1][..0] == [] && BigEndian(w[..1]) == w[0] as int && BigEndian(w) == BigEndian(w[..1]) * 256 + w[1] as int;
  }

  lemma {:induction false} HeadersSkipped<P>(codec: Codec<P>, before: bytes, hs: seq<Header>, tail: bytes)
    requires (forall i :: 0 <= i < |hs| ==> HeaderFits(hs[i])) && EventName(codec, hs).None?
    ensures EventType(codec, before + EncodeHeaders(hs) + tail, |before|) ==
            EventType(codec, before + EncodeHeaders(hs) + tail, |before + EncodeHeaders(hs)|)
    decreases |hs|
  {
    hide EventType, U16, EncodeHeader;
    if hs != [] {
      var first, more := EncodeHeader(hs[0]), EncodeHeaders(hs[1..]);
      var all := before + EncodeHeaders(hs) + tail;
      assert all == before + first + (more + tail) && all == (before + first) + more + tail;
      HeaderDecodes(codec, before, hs[0], more + tail);
      HeadersSkipped(codec, before + first, hs[1..], tail);
      assert |before + EncodeHeaders(hs)| == |before + first + more|;
    }
  }

  /** Sixty-four mebibytes in all, and sixteen pending, are taken; with a byte more the decoder stops before it looks at the chunk. */
  lemma LimitsAre<P>(codec: Codec<P>, pending: bytes, received: nat, chunk: bytes)
    ensures Feed(codec, pending, received, chunk) ==
      if received + |chunk| > 64 * 1024 * 1024 then Parsed([], [], Some(TotalLimit))
      else if |pending| + |chunk| > 16 * 1024 * 1024 then Parsed([], [], Some(PendingLimit))
      else Parse(codec, pending + chunk)
  {
    hide Parse;
  }
}
