/**
 The 15-bit callsign hash: Bob Jenkins' lookup3 with seed 146. Everything before the
 final cut is invertible, so only the cut makes two calls collide.
 */
module WsprHash {
  import opened Words

  type octet = bv8

  datatype State = State(a: bv32, b: bv32, c: bv32)

  // ---------- Words ----------

  function Plus(a: bv32, b: bv32): bv32 { a + b }

  function Minus(a: bv32, b: bv32): bv32 { a - b }

  function Rotl(a: bv32, k: nat): bv32
    requires k <= 32
  {
    a.RotateLeft(k)
  }

  lemma PlusThenMinus(a: bv32, b: bv32)
    ensures Minus(Plus(a, b), b) == a
  {
    calc {
      Minus(Plus(a, b), b);
      { assert Plus(a, b) == a + b; }
      Minus(a + b, b);
      a;
    }
  }

  lemma MinusThenPlus(a: bv32, b: bv32)
    ensures Plus(Minus(a, b), b) == a
  {
    calc {
      Plus(Minus(a, b), b);
      { assert Minus(a, b) == a - b; }
      Plus(a - b, b);
      a;
    }
  }

  lemma PlusMinus(a: bv32, b: bv32)
    ensures Minus(Plus(a, b), b) == a && Plus(Minus(a, b), b) == a
  {
    hide Plus, Minus;
    PlusThenMinus(a, b);
    MinusThenPlus(a, b);
  }

  predicate Rotations(ks: seq<nat>) {
    forall i :: 0 <= i < |ks| ==> ks[i] <= 32
  }

  /** The words take the next step's roles: what was b is now a. */
  function Left(s: State): State { State(s.b, s.c, s.a) }

  function Right(s: State): State { State(s.c, s.a, s.b) }

  // ---------- The block mix ----------

  function Turn(s: State, k: nat): State
    requires k <= 32
  {
    State(Xor(Minus(s.a, s.c), Rotl(s.c, k)), s.b, Plus(s.c, s.b))
  }

  function Unturn(s: State, k: nat): State
    requires k <= 32
  {
    var c := Minus(s.c, s.b);
    State(Plus(Xor(s.a, Rotl(c, k)), c), s.b, c)
  }

  lemma TurnInverts(s: State, k: nat)
    requires k <= 32
    ensures Unturn(Turn(s, k), k) == s && Turn(Unturn(s, k), k) == s
  {
    var t := Unturn(s, k);
    PlusMinus(s.c, s.b);
    XorLaws(Minus(s.a, s.c), Rotl(s.c, k));
    PlusMinus(s.a, s.c);
    PlusMinus(Xor(s.a, Rotl(t.c, k)), t.c);
    XorLaws(s.a, Rotl(t.c, k));
    hide Plus, Minus, Xor, Rotl;
  }

  function Turns(s: State, ks: seq<nat>): State
    requires Rotations(ks)
    decreases |ks|
  {
    if ks == [] then s else Turns(Left(Turn(s, ks[0])), ks[1..])
  }

  function Unturns(s: State, ks: seq<nat>): State
    requires Rotations(ks)
    decreases |ks|
  {
    if ks == [] then s else Unturn(Right(Unturns(s, ks[1..])), ks[0])
  }

  lemma {:induction false} TurnsInvert(s: State, ks: seq<nat>)
    requires Rotations(ks)
    ensures Unturns(Turns(s, ks), ks) == s && Turns(Unturns(s, ks), ks) == s
    decreases |ks|
  {
    if ks == [] {
    } else {
      hide Turn, Unturn;
      var next, back := Left(Turn(s, ks[0])), Right(Unturns(s, ks[1..]));
      TurnsInvert(next, ks[1..]);
      TurnInverts(s, ks[0]);
      TurnsInvert(s, ks[1..]);
      TurnInverts(back, ks[0]);
    }
  }

  const MIX: seq<nat> := [4, 6, 8, 16, 19, 4]

  function Mixed(s: State): State { Turns(s, MIX) }

  function Unmixed(s: State): State { Unturns(s, MIX) }

  /** The block mix is a bijection on the three words. */
  lemma MixIsBijection(s: State)
    ensures Unmixed(Mixed(s)) == s && Mixed(Unmixed(s)) == s
  {
    TurnsInvert(s, MIX);
  }

  method Mix(a0: bv32, b0: bv32, c0: bv32) returns (a: bv32, b: bv32, c: bv32)
    ensures State(a, b, c) == Mixed(State(a0, b0, c0))
  {
    a, b, c := a0, b0, c0;
    a := Minus(a, c);
    a := Xor(a, Rotl(c, 4));
    c := Plus(c, b);
    b := Minus(b, a);
    b := Xor(b, Rotl(a, 6));
    a := Plus(a, c);
    c := Minus(c, b);
    c := Xor(c, Rotl(b, 8));
    b := Plus(b, a);
    a := Minus(a, c);
    a := Xor(a, Rotl(c, 16));
    c := Plus(c, b);
    b := Minus(b, a);
    b := Xor(b, Rotl(a, 19));
    a := Plus(a, c);
    c := Minus(c, b);
    c := Xor(c, Rotl(b, 4));
    b := Plus(b, a);
    SixTurns(State(a0, b0, c0));
    hide Plus, Minus, Xor, Rotl, Mixed;
  }

  lemma SixTurns(s: State)
    ensures var t := Turn(Left(Turn(Left(Turn(s, 4)), 6)), 8);
            Mixed(s) == Left(Turn(Left(Turn(Left(Turn(Left(t), 16)), 19)), 4))
  {
    hide Turn;
    assert MIX[1..] == [6, 8, 16, 19, 4] && MIX[1..][1..] == [8, 16, 19, 4];
    assert [8, 16, 19, 4][1..] == [16, 19, 4] && [16, 19, 4][1..] == [19, 4] && [19, 4][1..] == [4] && [4][1..] == [];
    var s1 := Left(Turn(s, 4));
    var s2 := Left(Turn(s1, 6));
    var s3 := Left(Turn(s2, 8));
    var s4 := Left(Turn(s3, 16));
    assert Turns(s, MIX) == Turns(s1, [6, 8, 16, 19, 4]) == Turns(s2, [8, 16, 19, 4]);
    assert Turns(s2, [8, 16, 19, 4]) == Turns(s3, [16, 19, 4]) == Turns(s4, [19, 4]);
  }

  // ---------- The closing sequence ----------

  function Close(s: State, k: nat): State
    requires k <= 32
  {
    s.(c := Minus(Xor(s.c, s.b), Rotl(s.b, k)))
  }

  function Unclose(s: State, k: nat): State
    requires k <= 32
  {
    s.(c := Xor(Plus(s.c, Rotl(s.b, k)), s.b))
  }

  lemma CloseInverts(s: State, k: nat)
    requires k <= 32
    ensures Unclose(Close(s, k), k) == s && Close(Unclose(s, k), k) == s
  {
    PlusMinus(Xor(s.c, s.b), Rotl(s.b, k));
    XorLaws(s.c, s.b);
    PlusMinus(s.c, Rotl(s.b, k));
    XorLaws(Plus(s.c, Rotl(s.b, k)), s.b);
    hide Plus, Minus, Xor, Rotl;
  }

  function Closes(s: State, ks: seq<nat>): State
    requires Rotations(ks)
    decreases |ks|
  {
    if ks == [] then s else Closes(Left(Close(s, ks[0])), ks[1..])
  }

  function Uncloses(s: State, ks: seq<nat>): State
    requires Rotations(ks)
    decreases |ks|
  {
    if ks == [] then s else Unclose(Right(Uncloses(s, ks[1..])), ks[0])
  }

  lemma {:induction false} ClosesInvert(s: State, ks: seq<nat>)
    requires Rotations(ks)
    ensures Uncloses(Closes(s, ks), ks) == s && Closes(Uncloses(s, ks), ks) == s
    decreases |ks|
  {
    if ks == [] {
    } else {
      hide Close, Unclose;
      var next, back := Left(Close(s, ks[0])), Right(Uncloses(s, ks[1..]));
      ClosesInvert(next, ks[1..]);
      CloseInverts(s, ks[0]);
      ClosesInvert(s, ks[1..]);
      CloseInverts(back, ks[0]);
    }
  }

  const CLOSE: seq<nat> := [14, 11, 25, 16, 4, 14, 24]

  /** Seven steps move the roles on by one word more than full circles. */
  function Closed(s: State): State { Right(Closes(s, CLOSE)) }

  function Unclosed(s: State): State { Uncloses(Left(s), CLOSE) }

  /** The closing sequence is a bijection on the three words. */
  lemma CloseIsBijection(s: State)
    ensures Unclosed(Closed(s)) == s && Closed(Unclosed(s)) == s
  {
    ClosesInvert(s, CLOSE);
    ClosesInvert(Left(s), CLOSE);
    hide Closes, Uncloses;
  }

  lemma LastFourSteps(s: State)
    ensures Closes(s, [16, 4, 14, 24]) == Left(Close(Left(Close(Left(Close(Left(Close(s, 16)), 4)), 14)), 24))
  {
    hide Close;
    assert [16, 4, 14, 24][1..] == [4, 14, 24];
    assert [4, 14, 24][1..] == [14, 24] && [14, 24][1..] == [24] && [24][1..] == [];
    var s1 := Left(Close(s, 16));
    var s2 := Left(Close(s1, 4));
    assert Closes(s, [16, 4, 14, 24]) == Closes(s1, [4, 14, 24]) == Closes(s2, [14, 24]);
  }

  lemma SevenSteps(s: State)
    ensures var t := Close(Left(Close(Left(Close(s, 14)), 11)), 25);
            Closed(s) == Close(Left(Close(Left(Close(Left(Close(Left(t), 16)), 4)), 14)), 24)
  {
    hide Close;
    assert CLOSE[1..] == [11, 25, 16, 4, 14, 24] && CLOSE[1..][1..] == [25, 16, 4, 14, 24];
    assert [25, 16, 4, 14, 24][1..] == [16, 4, 14, 24];
    var s1 := Left(Close(s, 14));
    var s2 := Left(Close(s1, 11));
    assert Closes(s, CLOSE) == Closes(s1, [11, 25, 16, 4, 14, 24]) == Closes(s2, [25, 16, 4, 14, 24]);
    LastFourSteps(Left(Close(s2, 25)));
  }

  // ---------- Adding up to twelve bytes ----------

  const BLOCK := 12

  function Placed(b: octet, k: nat): bv32
    requires k < 4
  {
    (b as bv32) << (8 * k)
  }

  function At(block: seq<octet>, i: nat): octet {
    if i < |block| then block[i] else 0
  }

  function Quad(a: octet, b: octet, c: octet, d: octet): bv32 {
    Plus(Plus(Plus(Placed(a, 0), Placed(b, 1)), Placed(c, 2)), Placed(d, 3))
  }

  function QuadAt(block: seq<octet>, j: nat): bv32 {
    Quad(At(block, j), At(block, j + 1), At(block, j + 2), At(block, j + 3))
  }

  /** Each group of four bytes added to its word, little end first. */
  function Added(s: State, block: seq<octet>): State {
    State(Plus(s.a, QuadAt(block, 0)), Plus(s.b, QuadAt(block, 4)), Plus(s.c, QuadAt(block, 8)))
  }

  lemma PlacedZero(k: nat)
    requires k < 4
    ensures Placed(0, k) == 0
  {}

  lemma PlusZero(a: bv32)
    ensures Plus(a, 0) == a && Plus(0, a) == a
  {}

  lemma PlusAssociates(a: bv32, b: bv32, c: bv32)
    ensures Plus(Plus(a, b), c) == Plus(a, Plus(b, c))
  {
    calc {
      Plus(Plus(a, b), c);
      { assert Plus(a, b) == a + b; }
      Plus(a + b, c);
      Plus(a, b + c);
      { assert Plus(b, c) == b + c; }
      Plus(a, Plus(b, c));
    }
  }

  lemma PlusCommutes(a: bv32, b: bv32)
    ensures Plus(a, b) == Plus(b, a)
  {}

  /** A quad whose later places are empty, and the same quad with the first of them filled. */
  lemma QuadGrows(p: octet, q: octet, r: octet, b: octet, k: nat)
    requires k < 4
    ensures k == 0 ==> Quad(b, 0, 0, 0) == Plus(Quad(0, 0, 0, 0), Placed(b, 0))
    ensures k == 1 ==> Quad(p, b, 0, 0) == Plus(Quad(p, 0, 0, 0), Placed(b, 1))
    ensures k == 2 ==> Quad(p, q, b, 0) == Plus(Quad(p, q, 0, 0), Placed(b, 2))
    ensures k == 3 ==> Quad(p, q, r, b) == Plus(Quad(p, q, r, 0), Placed(b, 3))
  {
    PlacedZero(0);
    PlacedZero(1);
    PlacedZero(2);
    PlacedZero(3);
    hide Placed, Plus;
    var x, y, z := Placed(p, 0), Placed(q, 1), Placed(r, 2);
    PlusZero(0);
    PlusZero(x);
    PlusZero(Plus(x, y));
    PlusZero(Plus(Plus(x, y), z));
    PlusZero(Placed(b, k));
    PlusZero(Plus(x, Placed(b, k)));
    PlusZero(Plus(Plus(x, y), Placed(b, k)));
  }

  /** Filling the next place of a quad adds the byte there. */
  lemma QuadFillsFirst(block: seq<octet>, j: nat, b: octet)
    requires |block| == j
    ensures QuadAt(block + [b], j) == Plus(QuadAt(block, j), Placed(b, 0))
  {
    hide Placed, Plus, Quad;
    QuadGrows(At(block, j), At(block, j + 1), At(block, j + 2), b, 0);
    assert At(block + [b], j) == b;
  }

  lemma QuadFillsSecond(block: seq<octet>, j: nat, b: octet)
    requires |block| == j + 1
    ensures QuadAt(block + [b], j) == Plus(QuadAt(block, j), Placed(b, 1))
  {
    hide Placed, Plus, Quad;
    QuadGrows(At(block, j), At(block, j + 1), At(block, j + 2), b, 1);
    assert At(block + [b], j) == At(block, j);
    assert At(block + [b], j + 1) == b;
  }

  lemma QuadFillsThird(block: seq<octet>, j: nat, b: octet)
    requires |block| == j + 2
    ensures QuadAt(block + [b], j) == Plus(QuadAt(block, j), Placed(b, 2))
  {
    hide Placed, Plus, Quad;
    QuadGrows(At(block, j), At(block, j + 1), At(block, j + 2), b, 2);
    assert At(block + [b], j) == At(block, j);
    assert At(block + [b], j + 1) == At(block, j + 1);
    assert At(block + [b], j + 2) == b;
  }

  lemma QuadFillsFourth(block: seq<octet>, j: nat, b: octet)
    requires |block| == j + 3
    ensures QuadAt(block + [b], j) == Plus(QuadAt(block, j), Placed(b, 3))
  {
    hide Placed, Plus, Quad;
    QuadGrows(At(block, j), At(block, j + 1), At(block, j + 2), b, 3);
    assert At(block + [b], j) == At(block, j);
    assert At(block + [b], j + 1) == At(block, j + 1);
    assert At(block + [b], j + 2) == At(block, j + 2);
    assert At(block + [b], j + 3) == b;
  }

  lemma QuadFills(x: bv32, block: seq<octet>, j: nat, k: nat, b: octet)
    requires |block| == j + k && k < 4
    ensures Plus(x, QuadAt(block + [b], j)) == Plus(Plus(x, QuadAt(block, j)), Placed(b, k))
  {
    hide Placed, Plus, QuadAt;
    if k == 0 {
      QuadFillsFirst(block, j, b);
    } else if k == 1 {
      QuadFillsSecond(block, j, b);
    } else if k == 2 {
      QuadFillsThird(block, j, b);
    } else {
      QuadFillsFourth(block, j, b);
    }
    PlusAssociates(x, QuadAt(block, j), Placed(b, k));
  }
  lemma QuadUntouched(block: seq<octet>, j: nat, b: octet)
    requires |block| < j || j + 4 <= |block|
    ensures QuadAt(block + [b], j) == QuadAt(block, j)
  {}

  lemma QuadEmpty(x: bv32, block: seq<octet>, j: nat)
    requires |block| <= j
    ensures Plus(x, QuadAt(block, j)) == x
  {
    PlacedZero(0);
    PlacedZero(1);
    PlacedZero(2);
    PlacedZero(3);
    hide Placed, Plus;
    PlusZero(0);
    PlusZero(x);
  }

  method Add(s: State, block: seq<octet>) returns (a: bv32, b: bv32, c: bv32)
    requires |block| <= BLOCK
    ensures State(a, b, c) == Added(s, block)
  {
    hide Plus, QuadAt, Placed;
    a, b, c := s.a, s.b, s.c;
    QuadEmpty(a, [], 0);
    QuadEmpty(b, [], 4);
    QuadEmpty(c, [], 8);
    assert block[..0] == [];
    for i := 0 to |block|
      invariant State(a, b, c) == Added(s, block[..i])
    {
      ghost var before := block[..i];
      assert block[..i + 1] == before + [block[i]];
      if i < 4 {
        QuadFills(s.a, before, 0, i, block[i]);
        a := Plus(a, Placed(block[i], i % 4));
      } else {
        QuadUntouched(before, 0, block[i]);
      }
      if 4 <= i < 8 {
        QuadFills(s.b, before, 4, i - 4, block[i]);
        b := Plus(b, Placed(block[i], i % 4));
      } else if i < 4 {
        LaterQuads(s, before, block[i]);
      } else {
        QuadUntouched(before, 4, block[i]);
      }
      if i >= 8 {
        QuadFills(s.c, before, 8, i - 8, block[i]);
        c := Plus(c, Placed(block[i], i % 4));
      } else {
        LaterQuad(s, before, block[i]);
      }
    }
    assert block[..|block|] == block;
  }

  lemma LaterQuads(s: State, before: seq<octet>, b: octet)
    requires |before| < 4
    ensures QuadAt(before + [b], 4) == QuadAt(before, 4)
  {}

  lemma LaterQuad(s: State, before: seq<octet>, b: octet)
    requires |before| < 8
    ensures QuadAt(before + [b], 8) == QuadAt(before, 8)
  {}

  // ---------- The hash ----------

  function Start(length: nat): State {
    var word := Plus(Plus(0xdeadbeef, (length % 0x1_0000_0000) as bv32), 146);
    State(word, word, word)
  }

  /** The words just before the cut. */
  function Digest(s: State, call: seq<octet>): State
    decreases |call|
  {
    if |call| > BLOCK then Digest(Mixed(Added(s, call[..BLOCK])), call[BLOCK..])
    else if call == [] then s
    else Closed(Added(s, call))
  }

  function Cut(word: bv32): (hash: nat)
    ensures hash < 32768
  {
    ((word & 32767) as bv15) as nat
  }

  function Hash(call: seq<octet>): nat {
    Cut(Digest(Start(|call|), call).c)
  }

  method WsprHash(text: seq<octet>) returns (hash: nat)
    ensures hash == Hash(text) && hash < 32768
  {
    hide Added, Mixed, Closed, Start, Cut;
    var call := text;
    var start := Start(|call|);
    var a, b, c := start.a, start.b, start.c;
    while |call| > BLOCK
      invariant Digest(State(a, b, c), call) == Digest(start, text)
      decreases |call|
    {
      a, b, c := Add(State(a, b, c), call[..BLOCK]);
      a, b, c := Mix(a, b, c);
      call := call[BLOCK..];
    }
    if call != [] {
      a, b, c := Add(State(a, b, c), call);
      a, b, c := Finish(a, b, c);
    }
    hash := Cut(c);
  }

  method Finish(a0: bv32, b0: bv32, c0: bv32) returns (a: bv32, b: bv32, c: bv32)
    ensures State(a, b, c) == Closed(State(a0, b0, c0))
  {
    a, b, c := a0, b0, c0;
    c := Xor(c, b);
    c := Minus(c, Rotl(b, 14));
    a := Xor(a, c);
    a := Minus(a, Rotl(c, 11));
    b := Xor(b, a);
    b := Minus(b, Rotl(a, 25));
    c := Xor(c, b);
    c := Minus(c, Rotl(b, 16));
    a := Xor(a, c);
    a := Minus(a, Rotl(c, 4));
    b := Xor(b, a);
    b := Minus(b, Rotl(a, 14));
    c := Xor(c, b);
    c := Minus(c, Rotl(b, 24));
    SevenSteps(State(a0, b0, c0));
    hide Minus, Xor, Rotl, Closed;
  }

  // ---------- Distinct calls reach distinct words ----------

  lemma QuadInjective(a: octet, b: octet, c: octet, d: octet, e: octet, f: octet, g: octet, h: octet)
    requires Quad(a, b, c, d) == Quad(e, f, g, h)
    ensures a == e && b == f && c == g && d == h
  {
    QuadIsOr(a, b, c, d);
    QuadIsOr(e, f, g, h);
    hide Quad;
    OrInjective(a, b, c, d, e, f, g, h);
  }

  /** The four places do not overlap. */
  lemma QuadIsOr(a: octet, b: octet, c: octet, d: octet)
    ensures Quad(a, b, c, d) == (a as bv32) | ((b as bv32) << 8) | ((c as bv32) << 16) | ((d as bv32) << 24)
  {
    calc {
      Quad(a, b, c, d);
      Plus(Plus(Plus(Placed(a, 0), Placed(b, 1)), Placed(c, 2)), Placed(d, 3));
      { PlacesOf(a, b, c, d); }
      Plus(Plus(Plus(a as bv32, (b as bv32) << 8), (c as bv32) << 16), (d as bv32) << 24);
      { assert Plus(a as bv32, (b as bv32) << 8) == (a as bv32) | ((b as bv32) << 8); }
      Plus(Plus((a as bv32) | ((b as bv32) << 8), (c as bv32) << 16), (d as bv32) << 24);
      { assert Plus((a as bv32) | ((b as bv32) << 8), (c as bv32) << 16)
               == (a as bv32) | ((b as bv32) << 8) | ((c as bv32) << 16); }
      Plus((a as bv32) | ((b as bv32) << 8) | ((c as bv32) << 16), (d as bv32) << 24);
      (a as bv32) | ((b as bv32) << 8) | ((c as bv32) << 16) | ((d as bv32) << 24);
    }
  }

  lemma PlacesOf(a: octet, b: octet, c: octet, d: octet)
    ensures Placed(a, 0) == a as bv32 && Placed(b, 1) == (b as bv32) << 8
    ensures Placed(c, 2) == (c as bv32) << 16 && Placed(d, 3) == (d as bv32) << 24
  {}

  lemma OrInjective(a: octet, b: octet, c: octet, d: octet, e: octet, f: octet, g: octet, h: octet)
    requires (a as bv32) | ((b as bv32) << 8) | ((c as bv32) << 16) | ((d as bv32) << 24)
             == (e as bv32) | ((f as bv32) << 8) | ((g as bv32) << 16) | ((h as bv32) << 24)
    ensures a == e && b == f && c == g && d == h
  {}

  lemma CancelPlus(x: bv32, a: bv32, b: bv32)
    requires Plus(x, a) == Plus(x, b) || Plus(a, x) == Plus(b, x)
    ensures a == b
  {
    PlusMinus(a, x);
    PlusMinus(b, x);
    PlusCommutes(x, a);
    PlusCommutes(x, b);
    hide Plus, Minus;
  }

  lemma AddedInjective(s: State, x: seq<octet>, y: seq<octet>)
    requires |x| == |y| <= BLOCK && Added(s, x) == Added(s, y)
    ensures x == y
  {
    hide Plus, Quad;
    CancelPlus(s.a, QuadAt(x, 0), QuadAt(y, 0));
    CancelPlus(s.b, QuadAt(x, 4), QuadAt(y, 4));
    CancelPlus(s.c, QuadAt(x, 8), QuadAt(y, 8));
    QuadsAgree(x, y, 0);
    QuadsAgree(x, y, 4);
    QuadsAgree(x, y, 8);
    forall i | 0 <= i < |x| ensures x[i] == y[i] {
      assert At(x, i) == At(y, i);
    }
  }

  lemma QuadsAgree(x: seq<octet>, y: seq<octet>, j: nat)
    requires QuadAt(x, j) == QuadAt(y, j)
    ensures forall i :: j <= i < j + 4 ==> At(x, i) == At(y, i)
  {
    QuadInjective(At(x, j), At(x, j + 1), At(x, j + 2), At(x, j + 3),
                  At(y, j), At(y, j + 1), At(y, j + 2), At(y, j + 3));
  }

  lemma AddedInjectiveInState(s: State, t: State, block: seq<octet>)
    requires Added(s, block) == Added(t, block)
    ensures s == t
  {
    hide Plus, QuadAt;
    CancelPlus(QuadAt(block, 0), s.a, t.a);
    CancelPlus(QuadAt(block, 4), s.b, t.b);
    CancelPlus(QuadAt(block, 8), s.c, t.c);
  }

  lemma {:induction false} DigestInjectiveInState(s: State, t: State, call: seq<octet>)
    requires Digest(s, call) == Digest(t, call)
    ensures s == t
    decreases |call|
  {
    hide Mixed, Closed, Added, Unmixed, Unclosed;
    if |call| > BLOCK {
      var u, v := Added(s, call[..BLOCK]), Added(t, call[..BLOCK]);
      DigestInjectiveInState(Mixed(u), Mixed(v), call[BLOCK..]);
      MixIsBijection(u);
      MixIsBijection(v);
      AddedInjectiveInState(s, t, call[..BLOCK]);
    } else if call != [] {
      CloseIsBijection(Added(s, call));
      CloseIsBijection(Added(t, call));
      AddedInjectiveInState(s, t, call);
    }
  }

  /** Strings of one length that differ in one twelve-byte block only reach different words.
      For calls, which have at most twelve characters, that is any two of one length. */
  lemma {:induction false} OneBlockNeverCollides(s: State, x: seq<octet>, y: seq<octet>, k: nat)
    requires |x| == |y| && x != y
    requires forall i :: 0 <= i < |x| && i / BLOCK != k ==> x[i] == y[i]
    ensures Digest(s, x) != Digest(s, y)
    decreases |x|
  {
    hide Mixed, Closed, Added, Unmixed, Unclosed;
    if |x| > BLOCK {
      var u, v := Added(s, x[..BLOCK]), Added(s, y[..BLOCK]);
      assert x == x[..BLOCK] + x[BLOCK..] && y == y[..BLOCK] + y[BLOCK..];
      if x[..BLOCK] == y[..BLOCK] {
        forall i | 0 <= i < |x| - BLOCK && i / BLOCK != k - 1 ensures x[BLOCK..][i] == y[BLOCK..][i] {
          assert (i + BLOCK) / BLOCK == i / BLOCK + 1;
        }
        assert k > 0;
        OneBlockNeverCollides(Mixed(u), x[BLOCK..], y[BLOCK..], k - 1);
      } else {
        SameLaterBlocks(x, y, k);
        if Digest(s, x) == Digest(s, y) {
          DigestInjectiveInState(Mixed(u), Mixed(v), x[BLOCK..]);
          MixIsBijection(u);
          MixIsBijection(v);
          AddedInjective(s, x[..BLOCK], y[..BLOCK]);
        }
      }
    } else if Digest(s, x) == Digest(s, y) {
      CloseIsBijection(Added(s, x));
      CloseIsBijection(Added(s, y));
      AddedInjective(s, x, y);
    }
  }

  lemma SameLaterBlocks(x: seq<octet>, y: seq<octet>, k: nat)
    requires |x| == |y| > BLOCK && x[..BLOCK] != y[..BLOCK]
    requires forall i :: 0 <= i < |x| && i / BLOCK != k ==> x[i] == y[i]
    ensures x[BLOCK..] == y[BLOCK..]
  {
    var d :| 0 <= d < BLOCK && x[d] != y[d];
    assert d / BLOCK == 0 == k;
    forall i | BLOCK <= i < |x| ensures x[i] == y[i] {
      assert i / BLOCK >= 1;
    }
  }
}
