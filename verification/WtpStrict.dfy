/**
 The two receivers that fail instead of resynchronising, and their agreement with the
 resynchronising decoder on every stream they accept.

 `accepts` stands for the JSON reader: the payloads it takes.
 */
module WtpStrict {
  import opened Bytes
  import opened Crc32c
  import opened WtpFrame
  import opened WtpMonitor

  datatype Fault = Oversize | BadHeader | BadChecksum | BadJson

  datatype Outcome<T> = Ok(value: T) | Failed(fault: Fault)

  /** What a strict receiver makes of its whole buffer. */
  function Strict(buffer: seq<byte>, accepts: seq<byte> -> bool): Outcome<Decoded>
    decreases |buffer|
  {
    if |buffer| < HEADER_SIZE then Ok(Decoded([], buffer))
    else if !MagicAt(buffer, 0) || !FieldsValid(buffer) then Failed(BadHeader)
    else
      var size := HEADER_SIZE + Length(buffer);
      if |buffer| < size then Ok(Decoded([], buffer))
      else if Checksum(Payload(buffer)) != ChecksumField(buffer) then Failed(BadChecksum)
      else if !accepts(Payload(buffer)) then Failed(BadJson)
      else Following([Payload(buffer)], Strict(buffer[size..], accepts))
  }

  /** What is decoded after `payloads` have been. */
  function Following(payloads: seq<seq<byte>>, later: Outcome<Decoded>): Outcome<Decoded> {
    match later
    case Ok(decoded) => Ok(After(payloads, decoded))
    case Failed(fault) => Failed(fault)
  }

  lemma FollowingOne(payloads: seq<seq<byte>>, payload: seq<byte>, later: Outcome<Decoded>)
    ensures Following(payloads, Following([payload], later)) == Following(payloads + [payload], later)
  {
    if later.Ok? {
      AfterAfter(payloads, [payload], later.value);
    }
  }

  /** A partial frame is all that is ever kept. */
  lemma {:induction false} KeptIsPartial(buffer: seq<byte>, accepts: seq<byte> -> bool)
    requires Strict(buffer, accepts).Ok?
    ensures |Strict(buffer, accepts).value.rest| <= HEADER_SIZE + MAX_PAYLOAD - 1
    decreases |buffer|
  {
    hide Checksum, ChecksumField, MagicAt;
    if |buffer| >= HEADER_SIZE && |buffer| >= HEADER_SIZE + Length(buffer) {
      KeptIsPartial(buffer[HEADER_SIZE + Length(buffer)..], accepts);
    }
  }

  const REASSEMBLY_BYTES := 131072

  /** The Bluetooth client's receiver: any failure empties the buffer. */
  class WtpReceiver {
    var buffer: seq<byte>
    const accepts: seq<byte> -> bool

    constructor (accepts: seq<byte> -> bool)
      ensures buffer == [] && this.accepts == accepts
    {
      buffer := [];
      this.accepts := accepts;
    }

    method Receive(value: seq<byte>) returns (result: Outcome<seq<seq<byte>>>)
      modifies this
      ensures value == [] || |old(buffer)| + |value| > REASSEMBLY_BYTES
              ==> result == Failed(Oversize) && buffer == []
      ensures value != [] && |old(buffer)| + |value| <= REASSEMBLY_BYTES ==>
                match Strict(old(buffer) + value, accepts)
                case Ok(decoded) => result == Ok(decoded.payloads) && buffer == decoded.rest
                case Failed(fault) => result == Failed(fault) && buffer == []
    {
      hide Strict, Checksum, ChecksumField, FieldsValid, Length, MagicAt, Following;
      if value == [] || |buffer| + |value| > REASSEMBLY_BYTES {
        buffer := [];
        return Failed(Oversize);
      }
      buffer := buffer + value;
      ghost var all := buffer;
      var messages := [];
      StrictStarts(all, accepts);
      while |buffer| >= HEADER_SIZE
        invariant Strict(all, accepts) == Following(messages, Strict(buffer, accepts))
        decreases |buffer|
      {
        StrictTurn(messages, buffer, accepts);
        if !MagicAt(buffer, 0) || !FieldsValid(buffer) {
          buffer := [];
          return Failed(BadHeader);
        }
        var total := HEADER_SIZE + Length(buffer);
        if |buffer| < total {
          break;
        }
        var payload, expected := Payload(buffer), ChecksumField(buffer);
        buffer := buffer[total..];
        var crc := Compute(payload);
        if crc != expected {
          buffer := [];
          return Failed(BadChecksum);
        }
        if !accepts(payload) {
          buffer := [];
          return Failed(BadJson);
        }
        messages := messages + [payload];
      }
      StrictTurn(messages, buffer, accepts);
      result := Ok(messages);
    }
  }

  const CAPACITY_BYTES := 131104

  /** A whole frame that passes every check begins the buffer. */
  predicate Ready(buffer: seq<byte>, accepts: seq<byte> -> bool) {
    && |buffer| >= HEADER_SIZE && MagicAt(buffer, 0) && FieldsValid(buffer) && |buffer| >= HEADER_SIZE + Length(buffer)
    && Checksum(Payload(buffer)) == ChecksumField(buffer) && accepts(Payload(buffer))
  }

  /** What is left when the whole frames that pass have been taken. */
  function Unread(buffer: seq<byte>, accepts: seq<byte> -> bool): seq<byte>
    decreases |buffer|
  {
    if Ready(buffer, accepts) then Unread(buffer[HEADER_SIZE + Length(buffer)..], accepts) else buffer
  }

  /** The capacity fixture's decoder: a failure leaves the bytes from the failing frame on. */
  class Decoder {
    var buffer: seq<byte>
    const accepts: seq<byte> -> bool

    constructor (accepts: seq<byte> -> bool)
      ensures buffer == [] && this.accepts == accepts
    {
      buffer := [];
      this.accepts := accepts;
    }

    method Feed(data: seq<byte>) returns (result: Outcome<seq<seq<byte>>>)
      modifies this
      ensures |old(buffer)| + |data| > CAPACITY_BYTES
              ==> result == Failed(Oversize) && buffer == old(buffer) + data
      ensures |old(buffer)| + |data| <= CAPACITY_BYTES ==>
                match Strict(old(buffer) + data, accepts)
                case Ok(decoded) => result == Ok(decoded.payloads) && buffer == decoded.rest
                case Failed(fault) => result == Failed(fault) && buffer == Unread(old(buffer) + data, accepts)
    {
      hide Strict, Checksum, ChecksumField, FieldsValid, Length, MagicAt, Following;
      buffer := buffer + data;
      if |buffer| > CAPACITY_BYTES {
        return Failed(Oversize);
      }
      ghost var all := buffer;
      var messages := [];
      StrictStarts(all, accepts);
      while |buffer| >= HEADER_SIZE
        invariant Strict(all, accepts) == Following(messages, Strict(buffer, accepts))
        invariant Unread(all, accepts) == Unread(buffer, accepts)
        decreases |buffer|
      {
        StrictTurn(messages, buffer, accepts);
        if !MagicAt(buffer, 0) || !FieldsValid(buffer) {
          return Failed(BadHeader);
        }
        var size := HEADER_SIZE + Length(buffer);
        if |buffer| < size {
          break;
        }
        var payload, expected := Payload(buffer), ChecksumField(buffer);
        var crc := Compute(payload);
        if crc != expected {
          return Failed(BadChecksum);
        }
        if !accepts(payload) {
          return Failed(BadJson);
        }
        messages := messages + [payload];
        buffer := buffer[size..];
      }
      StrictTurn(messages, buffer, accepts);
      result := Ok(messages);
    }
  }

  lemma StrictStarts(all: seq<byte>, accepts: seq<byte> -> bool)
    ensures Strict(all, accepts) == Following([], Strict(all, accepts))
  {
    if Strict(all, accepts).Ok? {
      var payloads := Strict(all, accepts).value.payloads;
      assert [] + payloads == payloads;
    }
  }

  /** One turn of either receiver's loop. */
  lemma StrictTurn(messages: seq<seq<byte>>, buffer: seq<byte>, accepts: seq<byte> -> bool)
    ensures var result := Following(messages, Strict(buffer, accepts));
            if |buffer| < HEADER_SIZE then result == Ok(Decoded(messages, buffer))
            else if !MagicAt(buffer, 0) || !FieldsValid(buffer) then result == Failed(BadHeader)
            else if |buffer| < HEADER_SIZE + Length(buffer) then result == Ok(Decoded(messages, buffer))
            else if Checksum(Payload(buffer)) != ChecksumField(buffer) then result == Failed(BadChecksum)
            else if !accepts(Payload(buffer)) then result == Failed(BadJson)
            else result == Following(messages + [Payload(buffer)],
                                     Strict(buffer[HEADER_SIZE + Length(buffer)..], accepts))
  {
    hide Checksum, ChecksumField, FieldsValid, MagicAt;
    assert messages + [] == messages;
    if |buffer| >= HEADER_SIZE && |buffer| >= HEADER_SIZE + Length(buffer) {
      FollowingOne(messages, Payload(buffer), Strict(buffer[HEADER_SIZE + Length(buffer)..], accepts));
    }
  }

  // ---------- Chunking ----------

  /** What a receiver that has reached `before` makes of more bytes. */
  function ThenStrict(before: Outcome<Decoded>, more: seq<byte>, accepts: seq<byte> -> bool): Outcome<Decoded> {
    match before
    case Ok(decoded) => Following(decoded.payloads, Strict(decoded.rest + more, accepts))
    case Failed(fault) => Failed(fault)
  }

  lemma FollowingThen(payload: seq<byte>, before: Outcome<Decoded>, more: seq<byte>, accepts: seq<byte> -> bool)
    ensures ThenStrict(Following([payload], before), more, accepts)
            == Following([payload], ThenStrict(before, more, accepts))
  {
    if before.Ok? {
      var now := Strict(before.value.rest + more, accepts);
      if now.Ok? {
        AfterAfter([payload], before.value.payloads, now.value);
      }
    }
  }

  lemma {:induction false} StrictInPieces(a: seq<byte>, b: seq<byte>, accepts: seq<byte> -> bool)
    ensures Strict(a + b, accepts) == ThenStrict(Strict(a, accepts), b, accepts)
    decreases |a|
  {
    hide Checksum, ChecksumField, FieldsValid, Length, MagicAt, Strict;
    StrictStarts(a, accepts);
    StrictStarts(a + b, accepts);
    StrictTurn([], a, accepts);
    if |a| >= HEADER_SIZE {
      FieldsArePrefix(a, b);
      MagicIsPrefix(a, b);
      StrictTurn([], a + b, accepts);
      var size := HEADER_SIZE + Length(a);
      if |a| >= size {
        var later := Strict(a[size..], accepts);
        assert (a + b)[size..] == a[size..] + b && [] + [Payload(a)] == [Payload(a)];
        StrictInPieces(a[size..], b, accepts);
        FollowingThen(Payload(a), later, b, accepts);
      }
    }
  }

  lemma MagicIsPrefix(a: seq<byte>, b: seq<byte>)
    requires |a| >= HEADER_SIZE
    ensures MagicAt(a + b, 0) == MagicAt(a, 0)
  {}

  /** The byte bound of a receiver, and whether it takes an empty chunk. */
  datatype Limits = Limits(bytes: nat, takesEmpty: bool)

  const BLUETOOTH := Limits(REASSEMBLY_BYTES, false)
  const CAPACITY := Limits(CAPACITY_BYTES, true)

  /** Successive calls on a fresh receiver, up to its first failure. */
  function ReceiveAll(chunks: seq<seq<byte>>, limits: Limits, accepts: seq<byte> -> bool): Outcome<Decoded> {
    if chunks == [] then Ok(Decoded([], []))
    else
      var last := |chunks| - 1;
      var before := ReceiveAll(chunks[..last], limits, accepts);
      if before.Failed? then before
      else if (chunks[last] == [] && !limits.takesEmpty) || |before.value.rest| + |chunks[last]| > limits.bytes
      then Failed(Oversize)
      else ThenStrict(before, chunks[last], accepts)
  }

  predicate RadioSized(chunks: seq<seq<byte>>, limits: Limits) {
    forall i :: 0 <= i < |chunks| ==> |chunks[i]| <= 64 && (chunks[i] != [] || limits.takesEmpty)
  }

  /** A receiver that has not failed read the whole stream, and with chunks of at most
      64 bytes its size bound is never why it fails. */
  lemma {:induction false} StrictStream(chunks: seq<seq<byte>>, limits: Limits, accepts: seq<byte> -> bool)
    requires limits == BLUETOOTH || limits == CAPACITY
    ensures ReceiveAll(chunks, limits, accepts).Ok? || RadioSized(chunks, limits)
            ==> ReceiveAll(chunks, limits, accepts) == Strict(Concat(chunks), accepts)
    decreases |chunks|
  {
    if chunks == [] {
    } else {
      var last := |chunks| - 1;
      StrictStream(chunks[..last], limits, accepts);
      ConcatLast(chunks);
      StrictInPieces(Concat(chunks[..last]), chunks[last], accepts);
      hide Strict;
      if Strict(Concat(chunks[..last]), accepts).Ok? {
        KeptIsPartial(Concat(chunks[..last]), accepts);
      }
    }
  }

  lemma ConcatLast(chunks: seq<seq<byte>>)
    requires chunks != []
    ensures Concat(chunks) == Concat(chunks[..|chunks| - 1]) + chunks[|chunks| - 1]
  {
    var last := |chunks| - 1;
    assert chunks == chunks[..last] + [chunks[last]];
    ConcatAppend(chunks[..last], [chunks[last]]);
    assert Concat([chunks[last]]) == chunks[last];
  }

  // ---------- Strict against resynchronising ----------

  lemma {:induction false} StrictMatchesScan(buffer: seq<byte>, accepts: seq<byte> -> bool)
    requires Strict(buffer, accepts).Ok?
    ensures Scan(buffer).payloads == Strict(buffer, accepts).value.payloads
    decreases |buffer|
  {
    hide Checksum, ChecksumField, FieldsValid, Length;
    if |buffer| < HEADER_SIZE {
    } else {
      FoundAt(buffer, 0);
      ScanAtMagic(buffer);
      if |buffer| >= HEADER_SIZE + Length(buffer) {
        StrictMatchesScan(buffer[HEADER_SIZE + Length(buffer)..], accepts);
      }
    }
  }

  /** Where a strict receiver never fails, the monitor delivers the same payloads,
      however each of them was fed. */
  lemma StrictAgreesWithMonitor(chunks: seq<seq<byte>>, other: seq<seq<byte>>, limits: Limits,
                                accepts: seq<byte> -> bool)
    requires limits == BLUETOOTH || limits == CAPACITY
    requires Concat(chunks) == Concat(other)
    requires ReceiveAll(chunks, limits, accepts).Ok?
    ensures FeedAll(other).payloads == ReceiveAll(chunks, limits, accepts).value.payloads
  {
    StrictStream(chunks, limits, accepts);
    ChunkingInvariant(other);
    StrictMatchesScan(Concat(chunks), accepts);
  }

  /** The start of a frame that has not all arrived. */
  predicate Partial(buffer: seq<byte>) {
    |buffer| < HEADER_SIZE
    || (MagicAt(buffer, 0) && FieldsValid(buffer) && |buffer| < HEADER_SIZE + Length(buffer))
  }

  lemma PartialIsKept(rest: seq<byte>, accepts: seq<byte> -> bool)
    requires Partial(rest)
    ensures Strict(rest, accepts) == Ok(Decoded([], rest))
  {
    hide Checksum, ChecksumField, FieldsValid, Length, MagicAt;
  }

  /** A strict receiver accepts exactly the streams made of acceptable frames and a partial one. */
  lemma {:induction false} StrictAcceptsFrames(payloads: seq<seq<byte>>, rest: seq<byte>, accepts: seq<byte> -> bool)
    requires AllSendable(payloads) && Partial(rest)
    requires forall i :: 0 <= i < |payloads| ==> accepts(payloads[i])
    ensures Strict(Frames(payloads) + rest, accepts) == Ok(Decoded(payloads, rest))
    decreases |payloads|
  {
    hide Checksum, ChecksumField, FieldsValid, Length, MagicAt, Strict, Frame;
    if payloads == [] {
      PartialIsKept(rest, accepts);
      assert Frames(payloads) + rest == rest;
    } else {
      var p, later := payloads[0], Frames(payloads[1..]) + rest;
      StrictAcceptsFrames(payloads[1..], rest, accepts);
      assert Sendable(p);
      var frame := Frame(p);
      assert Frames(payloads) + rest == frame + later;
      StrictFrame(p, later, accepts);
      assert payloads == [p] + payloads[1..];
    }
  }

  lemma StrictFrame(payload: seq<byte>, rest: seq<byte>, accepts: seq<byte> -> bool)
    requires Sendable(payload) && accepts(payload)
    ensures Strict(Frame(payload) + rest, accepts) == Following([payload], Strict(rest, accepts))
  {
    hide Checksum, ChecksumField, FieldsValid, Length, MagicAt, Strict, Header;
    var header := Header(|payload|, Checksum(payload));
    var buffer := header + (payload + rest);
    assert Frame(payload) + rest == buffer;
    HeaderReadsBack(|payload|, Checksum(payload), payload + rest);
    assert Payload(buffer) == payload && buffer[HEADER_SIZE + |payload|..] == rest;
    StrictStarts(buffer, accepts);
    StrictTurn([], buffer, accepts);
    assert [] + [payload] == [payload];
  }

  /** The bytes left unread come after whole accepted frames, and the strict reading of
      them alone ends as that of the whole buffer, with no payload before. */
  lemma {:induction false} UnreadAfterFrames(buffer: seq<byte>, accepts: seq<byte> -> bool)
    returns (payloads: seq<seq<byte>>)
    ensures AllSendable(payloads) && forall i :: 0 <= i < |payloads| ==> accepts(payloads[i])
    ensures buffer == Frames(payloads) + Unread(buffer, accepts)
    ensures Strict(buffer, accepts) == Following(payloads, Strict(Unread(buffer, accepts), accepts))
    ensures var left := Strict(Unread(buffer, accepts), accepts);
            left.Ok? ==> left.value == Decoded([], Unread(buffer, accepts))
    decreases |buffer|
  {
    hide Checksum, ChecksumField, FieldsValid, Length, MagicAt, Frame;
    if !Ready(buffer, accepts) {
      payloads := [];
      assert Frames(payloads) + buffer == buffer;
      StrictStarts(buffer, accepts);
    } else {
      var size := HEADER_SIZE + Length(buffer);
      var later := UnreadAfterFrames(buffer[size..], accepts);
      WholeFrameIsFrame(buffer);
      assert buffer == buffer[..size] + buffer[size..];
      FramesOfOneMore(Payload(buffer), later, Unread(buffer, accepts));
      FollowingFollowing([Payload(buffer)], later, Strict(Unread(buffer, accepts), accepts));
      payloads := [Payload(buffer)] + later;
    }
  }

  lemma FollowingFollowing(a: seq<seq<byte>>, b: seq<seq<byte>>, later: Outcome<Decoded>)
    ensures Following(a, Following(b, later)) == Following(a + b, later)
  {
    if later.Ok? { assert a + (b + later.value.payloads) == (a + b) + later.value.payloads; }
  }

  lemma FramesOfOneMore(payload: seq<byte>, payloads: seq<seq<byte>>, rest: seq<byte>)
    requires Sendable(payload) && AllSendable(payloads)
    ensures AllSendable([payload] + payloads)
    ensures Frames([payload] + payloads) + rest == Frame(payload) + (Frames(payloads) + rest)
  {
    hide Frame, Sendable;
    assert ([payload] + payloads)[1..] == payloads;
  }

  lemma {:induction false} StrictAcceptsOnlyFrames(buffer: seq<byte>, accepts: seq<byte> -> bool)
    requires Strict(buffer, accepts).Ok?
    ensures var decoded := Strict(buffer, accepts).value;
            && AllSendable(decoded.payloads) && Partial(decoded.rest)
            && (forall i :: 0 <= i < |decoded.payloads| ==> accepts(decoded.payloads[i]))
            && buffer == Frames(decoded.payloads) + decoded.rest
    decreases |buffer|
  {
    hide Checksum, ChecksumField, FieldsValid, Length, MagicAt, Frame;
    var decoded := Strict(buffer, accepts).value;
    if |buffer| < HEADER_SIZE || |buffer| < HEADER_SIZE + Length(buffer) {
      assert [] + buffer == buffer;
    } else {
      var size := HEADER_SIZE + Length(buffer);
      StrictAcceptsOnlyFrames(buffer[size..], accepts);
      var later := Strict(buffer[size..], accepts).value;
      WholeFrameIsFrame(buffer);
      assert decoded == After([Payload(buffer)], later);
      assert buffer == buffer[..size] + buffer[size..];
      FramesOfOneMore(Payload(buffer), later.payloads, later.rest);
    }
  }
}
