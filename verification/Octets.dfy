/**
 Bytes as machine octets and back, bit by bit, so that nothing rests on the solver's own
 conversion between integers and bit vectors.
 */
module Octets {
  import opened Bytes

  predicate Odd(n: nat) { n % 2 == 1 }

  function Half(n: nat): nat { n / 2 }

  function Flag(on: bool, mask: bv8): bv8 { if on then mask else 0 }

  predicate Has(octet: bv8, mask: bv8) { octet & mask != 0 }

  function Join(a: bool, b: bool, c: bool, d: bool, e: bool, f: bool, g: bool, h: bool): bv8 {
    Flag(a, 1) | Flag(b, 2) | Flag(c, 4) | Flag(d, 8) | Flag(e, 16) | Flag(f, 32) | Flag(g, 64) | Flag(h, 128)
  }

  /** One more binary digit below a number. */
  function Twice(on: bool, rest: nat): nat { 2 * rest + if on then 1 else 0 }

  function Sum(a: bool, b: bool, c: bool, d: bool, e: bool, f: bool, g: bool, h: bool): byte {
    Twice(a, Twice(b, Twice(c, Twice(d, Twice(e, Twice(f, Twice(g, Twice(h, 0))))))))
  }

  /** A byte as a machine octet. */
  function Octet(x: byte): bv8 {
    var y := Half(Half(Half(Half(x))));
    Join(Odd(x), Odd(Half(x)), Odd(Half(Half(x))), Odd(Half(Half(Half(x)))),
         Odd(y), Odd(Half(y)), Odd(Half(Half(y))), Odd(Half(Half(Half(y)))))
  }

  /** A machine octet as a byte. */
  function ByteOf(v: bv8): byte {
    Sum(Has(v, 1), Has(v, 2), Has(v, 4), Has(v, 8), Has(v, 16), Has(v, 32), Has(v, 64), Has(v, 128))
  }

  lemma JoinHas(a: bool, b: bool, c: bool, d: bool, e: bool, f: bool, g: bool, h: bool)
    ensures
      var v := Join(a, b, c, d, e, f, g, h);
      && Has(v, 1) == a && Has(v, 2) == b && Has(v, 4) == c && Has(v, 8) == d
      && Has(v, 16) == e && Has(v, 32) == f && Has(v, 64) == g && Has(v, 128) == h
  {}

  lemma HasJoin(v: bv8)
    ensures Join(Has(v, 1), Has(v, 2), Has(v, 4), Has(v, 8), Has(v, 16), Has(v, 32), Has(v, 64), Has(v, 128)) == v
  {}

  lemma TwiceInjective(a: bool, x: nat, b: bool, y: nat)
    requires Twice(a, x) == Twice(b, y)
    ensures a == b && x == y
  {}

  lemma Halves(n: nat)
    ensures n == Twice(Odd(n), Half(n))
  {}

  lemma EightHalves(x: byte)
    ensures Half(Half(Half(Half(Half(Half(Half(Half(x)))))))) == 0
  {}

  lemma ByteReadsBack(x: byte)
    ensures ByteOf(Octet(x)) == x
  {
    EightHalves(x);
    hide Odd, Half, Has, Join, Twice;
    var x1 := Half(x);
    var x2 := Half(x1);
    var x3 := Half(x2);
    var x4 := Half(x3);
    var x5 := Half(x4);
    var x6 := Half(x5);
    var x7 := Half(x6);
    JoinHas(Odd(x), Odd(x1), Odd(x2), Odd(x3), Odd(x4), Odd(x5), Odd(x6), Odd(x7));
    Halves(x);
    Halves(x1);
    Halves(x2);
    Halves(x3);
    Halves(x4);
    Halves(x5);
    Halves(x6);
    Halves(x7);
  }

  lemma SumInjective(a: bool, b: bool, c: bool, d: bool, e: bool, f: bool, g: bool, h: bool,
                     i: bool, j: bool, k: bool, l: bool, m: bool, n: bool, o: bool, p: bool)
    requires Sum(a, b, c, d, e, f, g, h) == Sum(i, j, k, l, m, n, o, p)
    ensures a == i && b == j && c == k && d == l && e == m && f == n && g == o && h == p
  {
    hide Twice;
    var x7, y7 := Twice(h, 0), Twice(p, 0);
    var x6, y6 := Twice(g, x7), Twice(o, y7);
    var x5, y5 := Twice(f, x6), Twice(n, y6);
    var x4, y4 := Twice(e, x5), Twice(m, y5);
    var x3, y3 := Twice(d, x4), Twice(l, y4);
    var x2, y2 := Twice(c, x3), Twice(k, y3);
    var x1, y1 := Twice(b, x2), Twice(j, y2);
    TwiceInjective(a, x1, i, y1);
    TwiceInjective(b, x2, j, y2);
    TwiceInjective(c, x3, k, y3);
    TwiceInjective(d, x4, l, y4);
    TwiceInjective(e, x5, m, y5);
    TwiceInjective(f, x6, n, y6);
    TwiceInjective(g, x7, o, y7);
    TwiceInjective(h, 0, p, 0);
  }

  lemma OctetReadsBack(v: bv8)
    ensures Octet(ByteOf(v)) == v
  {
    var w := Octet(ByteOf(v));
    ByteReadsBack(ByteOf(v));
    hide Has, Join, Sum, Octet;
    SumInjective(Has(v, 1), Has(v, 2), Has(v, 4), Has(v, 8), Has(v, 16), Has(v, 32), Has(v, 64), Has(v, 128),
                 Has(w, 1), Has(w, 2), Has(w, 4), Has(w, 8), Has(w, 16), Has(w, 32), Has(w, 64), Has(w, 128));
    HasJoin(v);
    HasJoin(w);
  }
}
