/**
 The monitor's resynchronising stream decoder. `Scan` says what a whole buffer holds;
 `FrameDecoder` gets the same result from any division of the stream into chunks.
 */
module WtpMonitor {
  import opened Bytes
  import opened Crc32c
  import opened WtpFrame

  const MAX_BUFFER := HEADER_SIZE + MAX_PAYLOAD + 3

  /** Where the first magic begins, or -1. */
  function FindMagic(buffer: seq<byte>): (at: int)
    ensures -1 <= at
    ensures at >= 0 ==> MagicAt(buffer, at)
  {
    if |buffer| < 4 then -1
    else if MagicAt(buffer, 0) then 0
    else
      var later := FindMagic(buffer[1..]);
      if later < 0 then -1 else later + 1
  }

  lemma {:induction false} FindMagicIsFirst(buffer: seq<byte>, i: int)
    requires FindMagic(buffer) < 0 || i < FindMagic(buffer)
    ensures !MagicAt(buffer, i)
    decreases |buffer|
  {
    if 0 < i <= |buffer| - 4 {
      FindMagicIsFirst(buffer[1..], i - 1);
    }
  }

  /** The first magic is the only one with none before it. */
  lemma {:induction false} FoundAt(buffer: seq<byte>, at: int)
    requires MagicAt(buffer, at)
    requires forall i :: 0 <= i < at ==> !MagicAt(buffer, i)
    ensures FindMagic(buffer) == at
  {
    if FindMagic(buffer) < 0 || at < FindMagic(buffer) {
      FindMagicIsFirst(buffer, at);
    }
  }

  function LastThree(buffer: seq<byte>): seq<byte> {
    if |buffer| <= 3 then buffer else buffer[|buffer| - 3..]
  }

  datatype Decoded = Decoded(payloads: seq<seq<byte>>, rest: seq<byte>)

  /** The valid payloads of a buffer, and the bytes kept for a frame still to come. */
  function Scan(buffer: seq<byte>): Decoded
    decreases |buffer|, 1
  {
    var magic := FindMagic(buffer);
    if magic < 0 then Decoded([], LastThree(buffer)) else Synchronised(buffer[magic..])
  }

  function Synchronised(buffer: seq<byte>): Decoded
    requires MagicAt(buffer, 0)
    decreases |buffer|, 0
  {
    if |buffer| < HEADER_SIZE then Decoded([], buffer)
    else if !FieldsValid(buffer) then Scan(buffer[1..])
    else if |buffer| < HEADER_SIZE + Length(buffer) then Decoded([], buffer)
    else
      var later := Scan(buffer[HEADER_SIZE + Length(buffer)..]);
      if Checksum(Payload(buffer)) != ChecksumField(buffer) then later
      else After([Payload(buffer)], later)
  }

  class FrameDecoder {
    var buffer: seq<byte>

    constructor ()
      ensures buffer == []
    {
      buffer := [];
    }

    /** `overrun` is the exception for exceeding the buffer bound: it is never raised. */
    method Feed(data: seq<byte>) returns (payloads: seq<seq<byte>>, overrun: bool)
      modifies this
      ensures Decoded(payloads, buffer) == Scan(old(buffer) + data)
      ensures !overrun && |buffer| <= HEADER_SIZE + MAX_PAYLOAD - 1
    {
      hide Scan, Synchronised, Checksum, ChecksumField, FieldsValid, Length, MagicAt, Continues;
      buffer := buffer + data;
      ghost var all := buffer;
      payloads := [];
      Starts(all);
      while true
        invariant Continues(all, payloads, buffer)
        decreases |buffer|
      {
        var magic := FindMagic(buffer);
        if magic < 0 {
          NoMagic(all, payloads, buffer);
          buffer := LastThree(buffer);
          break;
        }
        SkipToMagic(all, payloads, buffer);
        assert buffer[0..] == buffer && payloads + [] == payloads;
        if magic > 0 {
          buffer := buffer[magic..];
        }
        if |buffer| < HEADER_SIZE {
          Incomplete(all, payloads, buffer);
          break;
        }
        if !FieldsValid(buffer) {
          BadHeader(all, payloads, buffer);
          buffer := buffer[1..];
          continue;
        }
        var size := HEADER_SIZE + Length(buffer);
        if |buffer| < size {
          Incomplete(all, payloads, buffer);
          break;
        }
        var payload, expected := Payload(buffer), ChecksumField(buffer);
        WholeFrame(all, payloads, buffer);
        buffer := buffer[size..];
        var crc := Compute(payload);
        if crc != expected {
          continue;
        }
        payloads := payloads + [payload];
      }
      overrun := |buffer| > MAX_BUFFER;
    }
  }

  // ---------- One turn of the loop ----------

  /** What is decoded after `payloads` have been. */
  function After(payloads: seq<seq<byte>>, later: Decoded): Decoded {
    later.(payloads := payloads + later.payloads)
  }

  lemma AfterAfter(a: seq<seq<byte>>, b: seq<seq<byte>>, later: Decoded)
    ensures After(a, After(b, later)) == After(a + b, later)
  {
    assert a + (b + later.payloads) == (a + b) + later.payloads;
  }

  /** With `payloads` delivered and `buffer` left, the rest of the answer is the buffer's. */
  ghost predicate Continues(all: seq<byte>, payloads: seq<seq<byte>>, buffer: seq<byte>) {
    Scan(all) == After(payloads, Scan(buffer))
  }

  lemma Starts(all: seq<byte>)
    ensures Continues(all, [], all)
  {}

  lemma ScanAtMagic(buffer: seq<byte>)
    requires FindMagic(buffer) == 0
    ensures Scan(buffer) == Synchronised(buffer)
  {
    assert buffer[0..] == buffer;
  }

  lemma NoMagic(all: seq<byte>, payloads: seq<seq<byte>>, buffer: seq<byte>)
    requires Continues(all, payloads, buffer) && FindMagic(buffer) < 0
    ensures Scan(all) == Decoded(payloads, LastThree(buffer))
  {
    assert payloads + [] == payloads;
  }

  lemma SkipToMagic(all: seq<byte>, payloads: seq<seq<byte>>, buffer: seq<byte>)
    requires Continues(all, payloads, buffer) && FindMagic(buffer) >= 0
    ensures FindMagic(buffer) <= |buffer|
    ensures var tail := buffer[FindMagic(buffer)..]; FindMagic(tail) == 0 && Continues(all, payloads, tail)
  {
    var tail := buffer[FindMagic(buffer)..];
    assert MagicAt(tail, 0) && tail[0..] == tail;
  }

  lemma Incomplete(all: seq<byte>, payloads: seq<seq<byte>>, buffer: seq<byte>)
    requires Continues(all, payloads, buffer) && FindMagic(buffer) == 0
    requires |buffer| < HEADER_SIZE || (FieldsValid(buffer) && |buffer| < HEADER_SIZE + Length(buffer))
    ensures Scan(all) == Decoded(payloads, buffer) && |buffer| <= HEADER_SIZE + MAX_PAYLOAD - 1
  {
    ScanAtMagic(buffer);
    assert payloads + [] == payloads;
  }

  lemma BadHeader(all: seq<byte>, payloads: seq<seq<byte>>, buffer: seq<byte>)
    requires Continues(all, payloads, buffer) && FindMagic(buffer) == 0
    requires |buffer| >= HEADER_SIZE && !FieldsValid(buffer)
    ensures Continues(all, payloads, buffer[1..])
  {
    ScanAtMagic(buffer);
  }

  lemma WholeFrame(all: seq<byte>, payloads: seq<seq<byte>>, buffer: seq<byte>)
    requires Continues(all, payloads, buffer) && FindMagic(buffer) == 0
    requires |buffer| >= HEADER_SIZE && FieldsValid(buffer) && |buffer| >= HEADER_SIZE + Length(buffer)
    ensures var delivered := if Checksum(Payload(buffer)) == ChecksumField(buffer) then [Payload(buffer)] else [];
            Continues(all, payloads + delivered, buffer[HEADER_SIZE + Length(buffer)..])
  {
    hide Checksum, ChecksumField, FieldsValid, Length;
    ScanAtMagic(buffer);
    AfterAfter(payloads, [Payload(buffer)], Scan(buffer[HEADER_SIZE + Length(buffer)..]));
    assert payloads + [] == payloads;
  }

  // ---------- The decoder is a function of the stream ----------

  /** Bytes already judged do not change what later bytes mean. */
  lemma {:induction false} ScanInPieces(a: seq<byte>, b: seq<byte>)
    ensures Scan(a + b) == Then(Scan(a), b)
    decreases |a|, 1
  {
    var magic := FindMagic(a);
    if magic < 0 {
      NoMagicBefore(a, b);
    } else {
      FindMagicAppend(a, b);
      assert (a + b)[magic..] == a[magic..] + b;
      SynchronisedInPieces(a[magic..], b);
    }
  }

  /** What a decoder that has reached `before` makes of more bytes. */
  function Then(before: Decoded, more: seq<byte>): Decoded {
    var now := Scan(before.rest + more);
    Decoded(before.payloads + now.payloads, now.rest)
  }

  lemma {:induction false} SynchronisedInPieces(a: seq<byte>, b: seq<byte>)
    requires MagicAt(a, 0)
    ensures MagicAt(a + b, 0) && Synchronised(a + b) == Then(Synchronised(a), b)
    decreases |a|, 0
  {
    StaysSynchronised(a, b);
    if |a| >= HEADER_SIZE {
      FieldsArePrefix(a, b);
      var size := HEADER_SIZE + Length(a);
      if !FieldsValid(a) {
        assert (a + b)[1..] == a[1..] + b;
        ScanInPieces(a[1..], b);
      } else if |a| >= size {
        assert (a + b)[size..] == a[size..] + b;
        ScanInPieces(a[size..], b);
        ThenPrepends(Payload(a), Scan(a[size..]), b);
      }
    }
  }

  lemma ThenPrepends(payload: seq<byte>, before: Decoded, more: seq<byte>)
    ensures var after := Then(before, more);
            Then(After([payload], before), more) == After([payload], after)
  {
    var now := Scan(before.rest + more);
    assert ([payload] + before.payloads) + now.payloads == [payload] + (before.payloads + now.payloads);
  }

  lemma StaysSynchronised(tail: seq<byte>, b: seq<byte>)
    requires MagicAt(tail, 0)
    ensures MagicAt(tail + b, 0) && FindMagic(tail + b) == 0 && Scan(tail + b) == Synchronised(tail + b)
  {
    assert (tail + b)[0..] == tail + b;
  }

  lemma FindMagicAppend(a: seq<byte>, b: seq<byte>)
    requires FindMagic(a) >= 0
    ensures FindMagic(a + b) == FindMagic(a)
  {
    forall i | 0 <= i < FindMagic(a) ensures !MagicAt(a + b, i) {
      FindMagicIsFirst(a, i);
    }
    FoundAt(a + b, FindMagic(a));
  }

  /** Without a magic, only one that starts in the last three bytes can still appear. */
  lemma NoMagicBefore(a: seq<byte>, b: seq<byte>)
    requires FindMagic(a) < 0
    ensures Scan(a + b) == Scan(LastThree(a) + b)
  {
    var skipped := a[..|a| - |LastThree(a)|];
    var kept := LastThree(a) + b;
    assert a + b == skipped + kept;
    forall i | 0 <= i < |skipped| ensures !MagicAt(skipped + kept, i) {
      FindMagicIsFirst(a, i);
    }
    ScanDropsPrefix(skipped, kept);
  }

  /** Bytes in which no magic starts may be dropped when three follow them. */
  lemma ScanDropsPrefix(skipped: seq<byte>, kept: seq<byte>)
    requires |skipped| > 0 ==> |kept| >= 3
    requires forall i :: 0 <= i < |skipped| ==> !MagicAt(skipped + kept, i)
    ensures Scan(skipped + kept) == Scan(kept)
  {
    MagicMoves(skipped, kept);
    hide FindMagic, Synchronised, MagicAt;
    var at := FindMagic(kept);
    if at >= 0 {
      DropBoth(skipped, kept, at);
    } else {
      LastThreeStay(skipped, kept);
    }
  }

  lemma DropBoth(skipped: seq<byte>, kept: seq<byte>, at: nat)
    requires at <= |kept|
    ensures (skipped + kept)[at + |skipped|..] == kept[at..]
  {}

  lemma LastThreeStay(skipped: seq<byte>, kept: seq<byte>)
    requires |skipped| > 0 ==> |kept| >= 3
    ensures LastThree(skipped + kept) == LastThree(kept)
  {}

  lemma MagicMoves(skipped: seq<byte>, kept: seq<byte>)
    requires forall i :: 0 <= i < |skipped| ==> !MagicAt(skipped + kept, i)
    ensures FindMagic(skipped + kept) == if FindMagic(kept) < 0 then -1 else FindMagic(kept) + |skipped|
  {
    var all, at := skipped + kept, FindMagic(kept);
    if at >= 0 {
      forall i | |skipped| <= i < at + |skipped| ensures !MagicAt(all, i) {
        FindMagicIsFirst(kept, i - |skipped|);
        assert MagicAt(all, i) ==> MagicAt(kept, i - |skipped|);
      }
      FoundAt(all, at + |skipped|);
    } else if FindMagic(all) >= 0 {
      FindMagicIsFirst(kept, FindMagic(all) - |skipped|);
    }
  }

  /** Successive calls of Feed on a fresh decoder. */
  function FeedAll(chunks: seq<seq<byte>>): Decoded {
    if chunks == [] then Decoded([], [])
    else
      var last := |chunks| - 1;
      Then(FeedAll(chunks[..last]), chunks[last])
  }

  /** However the stream is divided, the payloads and the kept bytes are the same. */
  lemma {:induction false} ChunkingInvariant(chunks: seq<seq<byte>>)
    ensures FeedAll(chunks) == Scan(Concat(chunks))
    decreases |chunks|
  {
    if chunks == [] {
      assert Scan([]) == Decoded([], []);
    } else {
      var last := |chunks| - 1;
      ChunkingInvariant(chunks[..last]);
      assert chunks == chunks[..last] + [chunks[last]];
      ConcatAppend(chunks[..last], [chunks[last]]);
      assert Concat([chunks[last]]) == chunks[last];
      ScanInPieces(Concat(chunks[..last]), chunks[last]);
    }
  }

  // ---------- Round trip and error detection ----------

  predicate Sendable(payload: seq<byte>) {
    1 <= |payload| <= MAX_PAYLOAD
  }

  predicate AllSendable(payloads: seq<seq<byte>>) {
    forall i :: 0 <= i < |payloads| ==> Sendable(payloads[i])
  }

  function Frames(payloads: seq<seq<byte>>): seq<byte>
    requires AllSendable(payloads)
  {
    if payloads == [] then [] else Frame(payloads[0]) + Frames(payloads[1..])
  }

  /** One frame's bytes under an intact header: delivered when the checksum holds, dropped when not. */
  lemma ScanOne(payload: seq<byte>, checksum: bv32, rest: seq<byte>)
    requires Sendable(payload)
    ensures var later := Scan(rest);
            Scan(Header(|payload|, checksum) + payload + rest)
            == if Checksum(payload) == checksum then After([payload], later) else later
  {
    hide Checksum, ChecksumField, FieldsValid, Length, Header, MagicAt;
    var buffer := Header(|payload|, checksum) + (payload + rest);
    assert Header(|payload|, checksum) + payload + rest == buffer;
    HeaderReadsBack(|payload|, checksum, payload + rest);
    StaysSynchronised(buffer, []);
    assert buffer + [] == buffer;
    assert buffer[HEADER_SIZE..HEADER_SIZE + |payload|] == payload;
    assert buffer[HEADER_SIZE + |payload|..] == rest;
  }

  lemma FirstFrame(payloads: seq<seq<byte>>, rest: seq<byte>)
    requires AllSendable(payloads) && payloads != []
    ensures Scan(Frames(payloads) + rest) == After([payloads[0]], Scan(Frames(payloads[1..]) + rest))
  {
    hide Scan, Frame;
    var p, later := payloads[0], Frames(payloads[1..]);
    assert Sendable(p);
    assert (Frame(p) + later) + rest == Frame(p) + (later + rest);
    FrameFirst(p, later + rest);
  }

  lemma {:induction false} ScanFrames(payloads: seq<seq<byte>>, rest: seq<byte>)
    requires AllSendable(payloads)
    ensures Scan(Frames(payloads) + rest) == After(payloads, Scan(rest))
    decreases |payloads|
  {
    if payloads == [] {
      assert Frames(payloads) + rest == rest;
    } else {
      FirstFrame(payloads, rest);
      ScanFrames(payloads[1..], rest);
      AfterAfter([payloads[0]], payloads[1..], Scan(rest));
      assert payloads == [payloads[0]] + payloads[1..];
    }
  }

  /** Whatever the stream, a payload is delivered only when its whole frame arrived:
      `at` is where. */
  lemma {:induction false} DeliveredWasFramed(buffer: seq<byte>, k: nat) returns (at: nat)
    requires k < |Scan(buffer).payloads|
    ensures Sendable(Scan(buffer).payloads[k]) && at <= |buffer|
    ensures Frame(Scan(buffer).payloads[k]) <= buffer[at..]
    decreases |buffer|
  {
    hide Scan, Synchronised, Checksum, ChecksumField, FieldsValid, Length, Payload, Frame;
    var skip, first := FirstDelivery(buffer);
    if k == 0 && first != [] {
      at := skip - (HEADER_SIZE + |first[0]|);
    } else {
      at := DeliveredWasFramed(buffer[skip..], k - |first|);
      assert buffer[skip..][at..] == buffer[skip + at..];
      at := skip + at;
    }
  }

  /** A scan that delivers anything first passes over some bytes, which may end in a frame. */
  lemma FirstDelivery(buffer: seq<byte>) returns (skip: nat, first: seq<seq<byte>>)
    requires Scan(buffer).payloads != []
    ensures 0 < skip <= |buffer| && |first| <= 1
    ensures Scan(buffer).payloads == first + Scan(buffer[skip..]).payloads
    ensures first != [] ==> Sendable(first[0]) && HEADER_SIZE + |first[0]| <= skip
                            && Frame(first[0]) <= buffer[skip - (HEADER_SIZE + |first[0]|)..]
  {
    hide Checksum, ChecksumField, FieldsValid, Length, Frame;
    var magic := FindMagic(buffer);
    var tail := buffer[magic..];
    assert Scan(buffer) == Synchronised(tail);
    if !FieldsValid(tail) {
      skip, first := magic + 1, [];
      assert tail[1..] == buffer[skip..];
      assert [] + Scan(buffer[skip..]).payloads == Scan(buffer[skip..]).payloads;
    } else {
      var size := HEADER_SIZE + Length(tail);
      skip := magic + size;
      assert tail[size..] == buffer[skip..];
      if Checksum(Payload(tail)) == ChecksumField(tail) {
        first := [Payload(tail)];
        WholeFrameIsFrame(tail);
      } else {
        first := [];
        assert [] + Scan(buffer[skip..]).payloads == Scan(buffer[skip..]).payloads;
      }
    }
  }

  lemma WholeFrameIsFrame(buffer: seq<byte>)
    requires |buffer| >= HEADER_SIZE && MagicAt(buffer, 0) && FieldsValid(buffer)
    requires |buffer| >= HEADER_SIZE + Length(buffer) && Checksum(Payload(buffer)) == ChecksumField(buffer)
    ensures Sendable(Payload(buffer))
    ensures Frame(Payload(buffer)) == buffer[..HEADER_SIZE + Length(buffer)]
  {
    hide Checksum, ChecksumField, Length, Header, MagicAt;
    HeaderCanonical(buffer);
    assert buffer[..HEADER_SIZE + Length(buffer)] == buffer[..HEADER_SIZE] + Payload(buffer);
  }

  lemma FramesStart(payloads: seq<seq<byte>>)
    requires AllSendable(payloads) && payloads != []
    ensures MagicAt(Frames(payloads), 0)
  {
    hide Checksum, WordBytes, BigEndian;
  }

  /** Frames are recovered exactly, after any bytes in which no magic occurs. */
  lemma RoundTrip(noise: seq<byte>, payloads: seq<seq<byte>>)
    requires forall i :: !MagicAt(noise, i)
    requires AllSendable(payloads)
    ensures Scan(noise + Frames(payloads))
            == Decoded(payloads, if payloads == [] then LastThree(noise) else [])
  {
    var frames := Frames(payloads);
    if payloads == [] {
      assert noise + frames == noise;
    } else {
      FramesStart(payloads);
      hide MagicAt, Frames;
      MagicHasNoBorder(noise, frames);
      assert (noise + frames)[|noise|..] == frames && frames + [] == frames;
      StaysSynchronised(frames, []);
      ScanFrames(payloads, []);
      assert payloads + [] == payloads;
    }
  }

  /** The magic shares no end with its own beginning, so noise cannot complete it early. */
  lemma MagicHasNoBorder(noise: seq<byte>, frames: seq<byte>)
    requires forall i :: !MagicAt(noise, i)
    requires MagicAt(frames, 0)
    ensures FindMagic(noise + frames) == |noise|
  {
    var all := noise + frames;
    assert all[|noise|] == MAGIC[0];
    forall i | 0 <= i < |noise| ensures !MagicAt(all, i) {
      assert !MagicAt(noise, i);
    }
    FoundAt(all, |noise|);
  }

  /** One frame after any bytes in which no magic occurs. */
  lemma NoisyFrame(noise: seq<byte>, payload: seq<byte>, rest: seq<byte>)
    requires forall i :: !MagicAt(noise, i)
    requires Sendable(payload)
    ensures Scan(noise + Frame(payload) + rest) == After([payload], Scan(rest))
  {
    var frames := Frame(payload) + rest;
    assert MagicAt(frames, 0);
    hide Checksum, Header, Frame, MagicAt;
    MagicHasNoBorder(noise, frames);
    assert noise + Frame(payload) + rest == noise + frames;
    assert (noise + frames)[|noise|..] == frames && frames + [] == frames;
    StaysSynchronised(frames, []);
    FrameFirst(payload, rest);
  }

  lemma FrameFirst(payload: seq<byte>, rest: seq<byte>)
    requires Sendable(payload)
    ensures Scan(Frame(payload) + rest) == After([payload], Scan(rest))
  {
    hide Checksum, Header, Scan;
    ScanOne(payload, Checksum(payload), rest);
  }

  // ---------- What noise may be ----------

  /** A frame may begin here: a magic whose header is valid or still to come. */
  predicate MayStart(buffer: seq<byte>, at: nat) {
    && MagicAt(buffer, at)
    && (|buffer| - at < HEADER_SIZE || FieldsValid(buffer[at..]))
  }

  /** Bytes are passed over exactly as long as no frame may begin at them: false magics with
      a bad header cost one byte each, and never the start of a frame behind them. */
  lemma {:induction false} OnlyHeadersMatter(buffer: seq<byte>, n: nat)
    requires n == 0 || n + 3 <= |buffer|
    requires forall at :: 0 <= at < n ==> !MayStart(buffer, at)
    ensures Scan(buffer) == Scan(buffer[n..])
    decreases n
  {
    hide Scan, Synchronised, FieldsValid, MagicAt;
    assert buffer[0..] == buffer;
    var magic := FindMagic(buffer);
    if n == 0 {
    } else if magic < 0 || magic >= n {
      assert buffer == buffer[..n] + buffer[n..];
      forall i | 0 <= i < n ensures !MagicAt(buffer, i) {
        FindMagicIsFirst(buffer, i);
      }
      ScanDropsPrefix(buffer[..n], buffer[n..]);
    } else {
      assert !MayStart(buffer, magic);
      FalseMagic(buffer, magic);
      var later := buffer[magic + 1..];
      forall at | 0 <= at < n - magic - 1 ensures !MayStart(later, at) {
        assert !MayStart(buffer, at + magic + 1);
        StartMoves(buffer, magic + 1, at);
      }
      OnlyHeadersMatter(later, n - magic - 1);
      assert later[n - magic - 1..] == buffer[n..];
    }
  }

  /** A magic with a bad header is skipped by one byte. */
  lemma FalseMagic(buffer: seq<byte>, magic: nat)
    requires FindMagic(buffer) == magic && !MayStart(buffer, magic)
    ensures magic + 1 <= |buffer| && Scan(buffer) == Scan(buffer[magic + 1..])
  {
    hide FieldsValid;
    var tail := buffer[magic..];
    assert tail[1..] == buffer[magic + 1..] && tail[0..] == tail;
  }

  lemma StartMoves(buffer: seq<byte>, from: nat, at: nat)
    requires from + at <= |buffer|
    ensures MayStart(buffer[from..], at) <==> MayStart(buffer, from + at)
  {
    hide FieldsValid;
    if at + 4 <= |buffer| - from {
      assert buffer[from..][at..] == buffer[from + at..];
    }
  }

  /** A frame is delivered behind any bytes at which no frame may begin. */
  lemma FrameIsFound(noise: seq<byte>, payload: seq<byte>, rest: seq<byte>)
    requires Sendable(payload)
    requires forall at :: 0 <= at < |noise| ==> !MayStart(noise + Frame(payload) + rest, at)
    ensures Scan(noise + Frame(payload) + rest) == After([payload], Scan(rest))
  {
    hide Scan, Checksum, Header, MayStart;
    var all := noise + Frame(payload) + rest;
    assert all[|noise|..] == Frame(payload) + rest;
    OnlyHeadersMatter(all, |noise|);
    FrameFirst(payload, rest);
  }

  /** Each payload's frame after bytes of its own. */
  function Interleaved(noises: seq<seq<byte>>, payloads: seq<seq<byte>>): seq<byte>
    requires |noises| == |payloads| && AllSendable(payloads)
  {
    if payloads == [] then []
    else noises[0] + Frame(payloads[0]) + Interleaved(noises[1..], payloads[1..])
  }

  /** Resynchronisation: bytes without a magic before any of the frames cost nothing, and
      whatever follows the last frame is judged as if it stood alone. */
  lemma {:induction false} Resynchronises(noises: seq<seq<byte>>, payloads: seq<seq<byte>>, rest: seq<byte>)
    requires |noises| == |payloads| && AllSendable(payloads)
    requires forall k, i :: 0 <= k < |noises| ==> !MagicAt(noises[k], i)
    ensures Scan(Interleaved(noises, payloads) + rest) == After(payloads, Scan(rest))
    decreases |payloads|
  {
    hide Scan, Frame, MagicAt;
    if payloads == [] {
      assert Interleaved(noises, payloads) + rest == rest;
    } else {
      var later := Interleaved(noises[1..], payloads[1..]) + rest;
      assert Interleaved(noises, payloads) + rest == noises[0] + Frame(payloads[0]) + later;
      assert Sendable(payloads[0]);
      NoisyFrame(noises[0], payloads[0], later);
      forall k, i | 0 <= k < |noises[1..]| ensures !MagicAt(noises[1..][k], i) {
        assert noises[1..][k] == noises[k + 1];
      }
      Resynchronises(noises[1..], payloads[1..], rest);
      AfterAfter([payloads[0]], payloads[1..], Scan(rest));
      assert payloads == [payloads[0]] + payloads[1..];
    }
  }

  /** A frame damaged only within four consecutive payload bytes vanishes; its neighbours do not. */
  lemma DamagedFrameDiscarded(earlier: seq<seq<byte>>, before: seq<byte>, sent: seq<byte>, received: seq<byte>,
                              after: seq<byte>, later: seq<seq<byte>>)
    requires AllSendable(earlier) && AllSendable(later) && Sendable(before + sent + after)
    requires |sent| == |received| <= 4 && sent != received
    ensures var header := Header(|before + sent + after|, Checksum(before + sent + after));
            var damaged := header + (before + received + after);
            Scan(Frames(earlier) + damaged + Frames(later)) == Decoded(earlier + later, [])
  {
    var intact, payload := before + sent + after, before + received + after;
    assert |payload| == |intact|;
    var checksum := Checksum(intact);
    assert Checksum(payload) != checksum by {
      BurstDetected(before, sent, received, after);
    }
    Skipped(earlier, checksum, payload, later);
  }

  /** A frame whose payload fails its checksum is passed over. */
  lemma Skipped(earlier: seq<seq<byte>>, checksum: bv32, payload: seq<byte>, later: seq<seq<byte>>)
    requires AllSendable(earlier) && AllSendable(later) && Sendable(payload)
    requires Checksum(payload) != checksum
    ensures Scan(Frames(earlier) + (Header(|payload|, checksum) + payload) + Frames(later))
            == Decoded(earlier + later, [])
  {
    hide Checksum, Header, Scan, Frames;
    var damaged := Header(|payload|, checksum) + payload;
    ScanOne(payload, checksum, Frames(later));
    RoundTrip([], later);
    assert [] + Frames(later) == Frames(later);
    assert Frames(earlier) + damaged + Frames(later) == Frames(earlier) + (damaged + Frames(later));
    ScanFrames(earlier, damaged + Frames(later));
  }
}
