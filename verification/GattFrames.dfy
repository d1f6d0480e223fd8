/**
 The numbered fragments of the Bluetooth field service: how a payload is cut into
 frames, and what a receiver makes of any frames at all.
 */
module GattFrames {
  import opened Bytes

  const FRAME_BYTES := 64
  const FRAGMENT_HEADER := 4
  const FRAGMENT_PAYLOAD := 60
  const FRAME_COUNT := 16

  type Frames = seq<seq<byte>>

  /** Version 1, no unknown flag, and a length field that matches. */
  predicate WellFormed(frame: seq<byte>) {
    && FRAGMENT_HEADER <= |frame| <= FRAME_BYTES
    && frame[0] == 1 && frame[1] < 4 && frame[3] == |frame| - FRAGMENT_HEADER
  }

  predicate First(frame: seq<byte>)
    requires WellFormed(frame)
  {
    frame[1] % 2 == 1
  }

  predicate Last(frame: seq<byte>)
    requires WellFormed(frame)
  {
    frame[1] / 2 == 1
  }

  function Body(frame: seq<byte>): seq<byte>
    requires WellFormed(frame)
  {
    frame[FRAGMENT_HEADER..]
  }

  predicate AllWellFormed(run: Frames) {
    forall i :: 0 <= i < |run| ==> WellFormed(run[i])
  }

  function Bodies(run: Frames): seq<byte>
    requires AllWellFormed(run)
  {
    if run == [] then [] else Bodies(run[..|run| - 1]) + Body(run[|run| - 1])
  }

  /** Frames numbered from 0 of which exactly the first is marked first. */
  predicate Consecutive(run: Frames) {
    && AllWellFormed(run) && |run| <= FRAME_COUNT
    && forall i :: 0 <= i < |run| ==> run[i][2] == i && First(run[i]) == (i == 0) && Body(run[i]) != []
  }

  /** The start of a message: consecutive frames, none marked last. */
  predicate Unfinished(run: Frames, maximum: nat) {
    && Consecutive(run) && |Bodies(run)| <= maximum
    && forall i :: 0 <= i < |run| ==> !Last(run[i])
  }

  /** A whole message: consecutive frames of which exactly the last is marked last. */
  predicate Finished(run: Frames, maximum: nat) {
    && run != [] && Consecutive(run) && |Bodies(run)| <= maximum
    && forall i :: 0 <= i < |run| ==> Last(run[i]) == (i == |run| - 1)
  }

  datatype Reason = Invalid | Order | Oversize
  datatype Outcome = Pending | Message(bytes: seq<byte>) | Rejected(reason: Reason)

  predicate Follows(run: Frames, frame: seq<byte>)
    requires WellFormed(frame)
  {
    frame[2] == |run| < FRAME_COUNT && First(frame) == (run == [])
  }

  /** What becomes of a frame that arrives after the frames of `run`. */
  function Judge(run: Frames, frame: seq<byte>, maximum: nat): Outcome
    requires AllWellFormed(run)
  {
    if !WellFormed(frame) then Rejected(Invalid)
    else if !Follows(run, frame) then Rejected(Order)
    else if Body(frame) == [] || |Bodies(run)| + |Body(frame)| > maximum then Rejected(Oversize)
    else if Last(frame) then Message(Bodies(run) + Body(frame))
    else Pending
  }

  class FrameReceiver {
    var message: seq<byte>
    var next: nat
    var active: bool
    const maximum: nat
    /** The frames of the message being received. */
    ghost var run: Frames

    ghost predicate Valid()
      reads this
    {
      && Unfinished(run, maximum)
      && message == Bodies(run) && next == |run| && active == (run != [])
    }

    constructor (maximum: nat)
      ensures Valid() && run == [] && this.maximum == maximum
    {
      this.maximum := maximum;
      message, next, active, run := [], 0, false, [];
    }

    method Reset()
      modifies this
      ensures Valid() && run == []
    {
      message, next, active, run := [], 0, false, [];
    }

    /** A rejected or final frame leaves the receiver empty. */
    method Receive(frame: seq<byte>) returns (outcome: Outcome)
      requires Valid()
      modifies this
      ensures Valid() && outcome == Judge(old(run), frame, maximum)
      ensures run == if outcome == Pending then old(run) + [frame] else []
    {
      ghost var before := run;
      if |frame| < FRAGMENT_HEADER || |frame| > FRAME_BYTES || frame[0] != 1 || frame[1] >= 4
         || frame[3] != |frame| - FRAGMENT_HEADER {
        Reset();
        return Rejected(Invalid);
      }
      var first, last := frame[1] % 2 == 1, frame[1] / 2 == 1;
      if (first && (active || frame[2] != 0)) || (!first && !active) || frame[2] != next || frame[2] >= FRAME_COUNT {
        Reset();
        return Rejected(Order);
      }
      if first {
        Reset();
        active := true;
      }
      var payload := frame[FRAGMENT_HEADER..];
      if payload == [] || |message| + |payload| > maximum {
        Reset();
        return Rejected(Oversize);
      }
      message := message + payload;
      next := next + 1;
      run := before + [frame];
      OneMore(before, frame, maximum);
      if !last {
        return Pending;
      }
      outcome := Message(message);
      Reset();
    }
  }

  lemma BodiesAppend(run: Frames, frame: seq<byte>)
    requires AllWellFormed(run) && WellFormed(frame)
    ensures AllWellFormed(run + [frame]) && Bodies(run + [frame]) == Bodies(run) + Body(frame)
  {
    assert (run + [frame])[..|run|] == run;
  }

  /** An accepted frame extends the message, and ends it when it is marked last. */
  lemma OneMore(run: Frames, frame: seq<byte>, maximum: nat)
    requires Unfinished(run, maximum) && !Judge(run, frame, maximum).Rejected?
    ensures AllWellFormed(run + [frame]) && Bodies(run + [frame]) == Bodies(run) + Body(frame)
    ensures if Judge(run, frame, maximum) == Pending then Unfinished(run + [frame], maximum)
            else Finished(run + [frame], maximum)
  {
    BodiesAppend(run, frame);
  }

  // ---------- Any frames at all ----------

  /** What a fresh receiver holds after all of `frames`. */
  function Held(frames: Frames, maximum: nat): (run: Frames)
    ensures AllWellFormed(run)
  {
    if frames == [] then []
    else
      var before, frame := Held(frames[..|frames| - 1], maximum), frames[|frames| - 1];
      if Judge(before, frame, maximum) == Pending then before + [frame] else []
  }

  /** What it answered to the last of them. */
  function Answer(frames: Frames, maximum: nat): Outcome
    requires frames != []
  {
    Judge(Held(frames[..|frames| - 1], maximum), frames[|frames| - 1], maximum)
  }

  /** Exactly the frames that continue a message are kept and exactly those that end it deliver it. */
  lemma JudgeIsExact(run: Frames, frame: seq<byte>, maximum: nat)
    requires Unfinished(run, maximum)
    ensures Judge(run, frame, maximum) == Pending <==> Unfinished(run + [frame], maximum)
    ensures Judge(run, frame, maximum).Message? <==> Finished(run + [frame], maximum)
  {
    if !Judge(run, frame, maximum).Rejected? {
      OneMore(run, frame, maximum);
    } else if Consecutive(run + [frame]) {
      MustFollow(run, frame);
      BodiesAppend(run, frame);
    }
  }

  lemma MustFollow(run: Frames, frame: seq<byte>)
    requires Consecutive(run + [frame])
    ensures WellFormed(frame) && Follows(run, frame) && Body(frame) != []
  {
    var at := |run|;
    assert (run + [frame])[at] == frame;
  }

  predicate IsEndOf<T(==)>(run: seq<T>, all: seq<T>) {
    |run| <= |all| && run == all[|all| - |run|..]
  }

  lemma EndGrows<T>(run: seq<T>, all: seq<T>, next: T)
    requires IsEndOf(run, all)
    ensures IsEndOf(run + [next], all + [next])
  {}

  /** The frames held are the latest ones, in the order they came. */
  lemma {:induction false} HeldIsLatest(frames: Frames, maximum: nat)
    ensures Unfinished(Held(frames, maximum), maximum) && IsEndOf(Held(frames, maximum), frames)
  {
    if frames == [] {
    } else {
      var last := |frames| - 1;
      var before, frame := frames[..last], frames[last];
      HeldIsLatest(before, maximum);
      hide Unfinished, Judge, IsEndOf;
      JudgeIsExact(Held(before, maximum), frame, maximum);
      assert frames == before + [frame];
      EndGrows(Held(before, maximum), before, frame);
      HoldsNothing(frames, maximum);
    }
  }

  lemma HoldsNothing(frames: Frames, maximum: nat)
    ensures Unfinished([], maximum) && IsEndOf([], frames)
  {}

  /** A message is delivered exactly when it is the bodies of the latest frames and those
      run from the receiver's last empty state through 0..k-1 with its ends marked. */
  lemma MessageIsLatestRun(frames: Frames, maximum: nat)
    requires frames != []
    ensures var run := Held(frames[..|frames| - 1], maximum) + [frames[|frames| - 1]];
            && IsEndOf(run, frames)
            && (Answer(frames, maximum).Message? <==> Finished(run, maximum))
            && (Answer(frames, maximum).Message? ==> Answer(frames, maximum).bytes == Bodies(run))
  {
    var last := |frames| - 1;
    var before, frame := frames[..last], frames[last];
    var held := Held(before, maximum);
    HeldIsLatest(before, maximum);
    JudgeIsExact(held, frame, maximum);
    assert frames == before + [frame];
    EndGrows(held, before, frame);
    hide Unfinished, Finished, IsEndOf, Held;
    if Answer(frames, maximum).Message? {
      BodiesAppend(held, frame);
    }
  }

  // ---------- Cutting a payload ----------

  function Min(a: nat, b: nat): nat { if a < b then a else b }

  /** The number of frames a payload is cut into. */
  function Cuts(payload: seq<byte>): nat {
    (|payload| + FRAGMENT_PAYLOAD - 1) / FRAGMENT_PAYLOAD
  }

  predicate Cuttable(payload: seq<byte>) {
    0 < |payload| <= FRAGMENT_PAYLOAD * FRAME_COUNT
  }

  function Fragment(payload: seq<byte>, i: nat): (frame: seq<byte>)
    requires Cuttable(payload) && i < Cuts(payload)
  {
    var offset := FRAGMENT_PAYLOAD * i;
    var count := Min(FRAGMENT_PAYLOAD, |payload| - offset);
    [1, (if i == 0 then 1 else 0) + (if i == Cuts(payload) - 1 then 2 else 0), i, count]
    + payload[offset..offset + count]
  }

  /** None is the failure for an empty or an oversized payload. */
  method Cut(payload: seq<byte>) returns (frames: Frames, oversize: bool)
    ensures oversize <==> !Cuttable(payload)
    ensures !oversize ==>
              |frames| == Cuts(payload) && forall i :: 0 <= i < |frames| ==> frames[i] == Fragment(payload, i)
  {
    frames, oversize := [], |payload| == 0 || |payload| > FRAGMENT_PAYLOAD * FRAME_COUNT;
    if oversize {
      return;
    }
    var offset, sequence := 0, 0;
    while offset < |payload|
      invariant offset == Min(FRAGMENT_PAYLOAD * sequence, |payload|)
      invariant |frames| == sequence <= Cuts(payload)
      invariant forall i :: 0 <= i < |frames| ==> frames[i] == Fragment(payload, i)
      decreases |payload| - offset
    {
      var count := Min(FRAGMENT_PAYLOAD, |payload| - offset);
      var flags := (if offset == 0 then 1 else 0) + (if offset + count == |payload| then 2 else 0);
      frames := frames + [[1, flags, sequence, count] + payload[offset..offset + count]];
      offset, sequence := offset + count, sequence + 1;
    }
  }

  function Fragments(payload: seq<byte>, n: nat): Frames
    requires Cuttable(payload) && n <= Cuts(payload)
  {
    seq(n, i requires 0 <= i < n => Fragment(payload, i))
  }

  lemma FragmentIsWellFormed(payload: seq<byte>, i: nat)
    requires Cuttable(payload) && i < Cuts(payload)
    ensures var frame, end := Fragment(payload, i), Min(FRAGMENT_PAYLOAD * (i + 1), |payload|);
            && WellFormed(frame) && frame[2] == i < FRAME_COUNT && Body(frame) == payload[FRAGMENT_PAYLOAD * i..end]
            && Body(frame) != [] && First(frame) == (i == 0) && Last(frame) == (i == Cuts(payload) - 1)
  {}

  /** Payloads of 1 to 960 bytes are cut, into frames of 64 bytes but for a shorter last one. */
  lemma FragmentSizes(payload: seq<byte>, i: nat)
    ensures Cuttable(payload) <==> 1 <= |payload| <= 960
    ensures Cuttable(payload) && i < Cuts(payload) ==>
              |Fragment(payload, i)| == if i + 1 < Cuts(payload) then 64 else 4 + |payload| - 60 * i
  {}

  lemma OneMoreFragment(payload: seq<byte>, n: nat)
    requires Cuttable(payload) && n < Cuts(payload)
    ensures Fragments(payload, n + 1) == Fragments(payload, n) + [Fragment(payload, n)]
  {}

  lemma {:induction false} FragmentsJoin(payload: seq<byte>, n: nat)
    requires Cuttable(payload) && n <= Cuts(payload)
    ensures AllWellFormed(Fragments(payload, n))
    ensures Bodies(Fragments(payload, n)) == payload[..Min(FRAGMENT_PAYLOAD * n, |payload|)]
  {
    hide Fragment, WellFormed, Body;
    if n == 0 {
    } else {
      FragmentsJoin(payload, n - 1);
      OneMoreFragment(payload, n - 1);
      FragmentIsWellFormed(payload, n - 1);
      BodiesAppend(Fragments(payload, n - 1), Fragment(payload, n - 1));
      var cut, end := FRAGMENT_PAYLOAD * (n - 1), Min(FRAGMENT_PAYLOAD * n, |payload|);
      assert payload[..cut] + payload[cut..end] == payload[..end];
    }
  }

  /** The next fragment continues the message, or ends it when it is the last. */
  lemma NextFragment(payload: seq<byte>, n: nat, maximum: nat)
    requires Cuttable(payload) && n < Cuts(payload) && |payload| <= maximum
    requires AllWellFormed(Fragments(payload, n))
    ensures Judge(Fragments(payload, n), Fragment(payload, n), maximum)
            == if n + 1 == Cuts(payload) then Message(payload) else Pending
  {
    FragmentIsWellFormed(payload, n);
    FragmentsJoin(payload, n);
    var cut := FRAGMENT_PAYLOAD * n;
    assert |Fragments(payload, n)| == n;
    assert n + 1 == Cuts(payload) ==> payload[..cut] + payload[cut..|payload|] == payload;
  }

  /** A receiver with room gives a cut payload back at its last frame and not before. */
  lemma {:induction false} CutsGiveBack(payload: seq<byte>, n: nat, maximum: nat)
    requires Cuttable(payload) && 0 < n <= Cuts(payload) && |payload| <= maximum
    ensures Answer(Fragments(payload, n), maximum) == if n == Cuts(payload) then Message(payload) else Pending
    ensures n < Cuts(payload) ==> Held(Fragments(payload, n), maximum) == Fragments(payload, n)
  {
    hide Fragment, Fragments, Judge, AllWellFormed, Bodies;
    var frames, before := Fragments(payload, n), Fragments(payload, n - 1);
    OneMoreFragment(payload, n - 1);
    FragmentsJoin(payload, n - 1);
    assert frames[..|frames| - 1] == before;
    NextFragment(payload, n - 1, maximum);
    if n == 1 {
      NoFragments(payload);
    } else {
      CutsGiveBack(payload, n - 1, maximum);
    }
  }

  /** A receiver without room never gives anything for it. */
  lemma TooBigIsNeverDelivered(payload: seq<byte>, n: nat, maximum: nat)
    requires Cuttable(payload) && 0 < n <= Cuts(payload) && |payload| > maximum
    ensures !Answer(Fragments(payload, n), maximum).Message?
  {
    var frames := Fragments(payload, n);
    if Answer(frames, maximum).Message? {
      MessageIsLatestRun(frames, maximum);
      var run := Held(frames[..n - 1], maximum) + [frames[n - 1]];
      FragmentIsWellFormed(payload, n - |run|);
      FragmentIsWellFormed(payload, n - 1);
      OnlyTheWholeRunFinishes(frames, run, maximum);
      FragmentsJoin(payload, n);
    }
  }

  /** A receiver that holds nothing takes what follows as a fresh one does. */
  lemma {:induction false} HeldFromEmpty(before: Frames, frames: Frames, maximum: nat)
    requires Held(before, maximum) == []
    ensures Held(before + frames, maximum) == Held(frames, maximum)
    ensures frames != [] ==> Answer(before + frames, maximum) == Answer(frames, maximum)
    decreases |frames|
  {
    hide Judge;
    if frames == [] {
      assert before + frames == before;
    } else {
      var init := frames[..|frames| - 1];
      HeldFromEmpty(before, init, maximum);
      assert (before + frames)[..|before + frames| - 1] == before + init;
    }
  }

  lemma NoFragments(payload: seq<byte>)
    requires Cuttable(payload)
    ensures Fragments(payload, 0) == []
  {}

  /** A fragment that comes where no first frame has been taken, or a first one into a
      message already begun, is rejected. */
  lemma {:induction false} CutsAreRejected(before: Frames, payload: seq<byte>, n: nat, maximum: nat)
    requires Cuttable(payload) && 0 < n <= Cuts(payload) && Held(before, maximum) != []
    ensures Answer(before + Fragments(payload, n), maximum).Rejected?
    ensures Held(before + Fragments(payload, n), maximum) == []
    decreases n
  {
    hide Fragment, WellFormed, First, Last, Body, Bodies, Fragments;
    var frames, init := Fragments(payload, n), Fragments(payload, n - 1);
    OneMoreFragment(payload, n - 1);
    FragmentIsWellFormed(payload, n - 1);
    assert (before + frames)[..|before + frames| - 1] == before + init;
    if n == 1 {
      NoFragments(payload);
      assert before + init == before;
    } else {
      CutsAreRejected(before, payload, n - 1, maximum);
    }
  }

  /** Whatever came before, the last fragment delivers the payload exactly when the
      receiver held nothing before the first one and has room; earlier ones deliver nothing. */
  lemma CutsGiveBackExactly(before: Frames, payload: seq<byte>, n: nat, maximum: nat)
    requires Cuttable(payload) && 0 < n <= Cuts(payload)
    ensures Answer(before + Fragments(payload, n), maximum).Message?
            <==> n == Cuts(payload) && Held(before, maximum) == [] && |payload| <= maximum
    ensures Answer(before + Fragments(payload, n), maximum).Message?
            ==> Answer(before + Fragments(payload, n), maximum) == Message(payload)
  {
    hide Judge, Answer, Held;
    if Held(before, maximum) != [] {
      CutsAreRejected(before, payload, n, maximum);
    } else {
      HeldFromEmpty(before, Fragments(payload, n), maximum);
      if |payload| <= maximum {
        CutsGiveBack(payload, n, maximum);
      } else {
        TooBigIsNeverDelivered(payload, n, maximum);
      }
    }
  }

  /** Among fragments in order, a finished run begins with the first of them. */
  lemma OnlyTheWholeRunFinishes(frames: Frames, run: Frames, maximum: nat)
    requires IsEndOf(run, frames) && Finished(run, maximum)
    requires |frames[|frames| - |run|]| >= 3 && frames[|frames| - |run|][2] == |frames| - |run|
    ensures run == frames
  {
    assert run[0] == frames[|frames| - |run|];
  }
}
