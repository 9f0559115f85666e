/** One's-complement sums of bytes, as in RFC 1071. */
module OnesComplement {
  import opened Basics

  /** A sum brought into 16 bits with end-around carries: zero only for zero, and otherwise in
      1 .. 65535, congruent modulo 65535. */
  function Ones(n: nat): (r: nat)
    ensures r <= 0xffff && (r == 0 <==> n == 0)
  {
    if n <= 0xffff then n else Ones(n - 0xffff)
  }

  lemma {:induction false} OnesPlus(n: nat, k: nat)
    requires n > 0
    ensures Ones(n + 0xffff * k) == Ones(n)
  {
    if k > 0 {
      OnesPlus(n, k - 1);
      assert n + 0xffff * k - 0xffff == n + 0xffff * (k - 1);
    }
  }

  lemma {:induction false} OnesAdd(a: nat, b: nat)
    ensures Ones(a + b) == Ones(Ones(a) + b)
  {
    if a > 0xffff {
      OnesAdd(a - 0xffff, b);
      OnesPlus(a - 0xffff + b, 1);
    }
  }

  lemma {:induction false} OnesAddSame(a: nat, a': nat, b: nat, b': nat)
    requires Ones(a) == Ones(a') && Ones(b) == Ones(b')
    ensures Ones(a + b) == Ones(a' + b')
  {
    OnesAdd(a, b);
    OnesAdd(a', b);
    OnesAdd(b, a');
    OnesAdd(b', a');
  }

  /** A carry out of 16 bits counts as one. */
  lemma {:induction false} OnesShift(x: nat)
    ensures Ones(0x1_0000 * x) == Ones(x)
  {
    if x > 0 {
      OnesPlus(x, x);
      assert x + 0xffff * x == 0x1_0000 * x;
    }
  }

  lemma {:induction false} OnesTimes256(a: nat)
    ensures Ones(256 * a) == Ones(256 * Ones(a))
  {
    if a > 0xffff {
      OnesTimes256(a - 0xffff);
      OnesPlus(256 * (a - 0xffff), 256);
      assert 256 * (a - 0xffff) + 0xffff * 256 == 256 * a;
    }
  }

  lemma {:induction false} OnesFold(x: nat)
    ensures Ones(x / 0x1_0000 + x % 0x1_0000) == Ones(x)
  {
    var h, l := x / 0x1_0000, x % 0x1_0000;
    OnesShift(h);
    OnesAddSame(0x1_0000 * h, h, l, l);
    assert 0x1_0000 * h + l == x;
  }

  // ---------- bytes ----------

  /** The sum of the big-endian 16-bit words; an odd last byte is padded with zero. */
  function Sum16(b: seq<Byte>): nat {
    if b == [] then 0 else if |b| == 1 then 256 * b[0] else 256 * b[0] + b[1] + Sum16(b[2..])
  }

  lemma {:induction false} Sum16Concat(a: seq<Byte>, b: seq<Byte>)
    requires |a| % 2 == 0
    ensures Sum16(a + b) == Sum16(a) + Sum16(b)
    decreases |a|
  {
    if a == [] {
      assert a + b == b;
    } else {
      assert (a + b)[2..] == a[2..] + b;
      Sum16Concat(a[2..], b);
    }
  }

  function BeVal(s: seq<Byte>): nat { if s == [] then 0 else 256 * BeVal(s[..|s| - 1]) + s[|s| - 1] }

  function LeVal(s: seq<Byte>): nat { if s == [] then 0 else s[0] + 256 * LeVal(s[1..]) }

  function Pow256(n: nat): nat { if n == 0 then 1 else 256 * Pow256(n - 1) }

  lemma {:induction false} BeValBound(s: seq<Byte>)
    ensures BeVal(s) < Pow256(|s|)
  {
    if s != [] {
      BeValBound(s[..|s| - 1]);
    }
  }

  lemma {:induction false} LeValBound(s: seq<Byte>)
    ensures LeVal(s) < Pow256(|s|)
  {
    if s != [] {
      LeValBound(s[1..]);
    }
  }

  lemma {:induction false} Pow256Small()
    ensures Pow256(2) == 0x1_0000 && Pow256(4) == 0x1_0000_0000 && Pow256(8) == 0x1_0000_0000_0000_0000
  {
    assert Pow256(1) == 256 * Pow256(0);
    assert Pow256(2) == 256 * Pow256(1);
    assert Pow256(3) == 256 * Pow256(2);
    assert Pow256(4) == 256 * Pow256(3);
    assert Pow256(5) == 256 * Pow256(4);
    assert Pow256(6) == 256 * Pow256(5);
    assert Pow256(7) == 256 * Pow256(6);
    assert Pow256(8) == 256 * Pow256(7);
  }

  /** A big-endian number of whole words is congruent to their sum. */
  lemma {:induction false} BeValSum(s: seq<Byte>)
    requires |s| % 2 == 0
    ensures Ones(BeVal(s)) == Ones(Sum16(s))
    decreases |s|
  {
    if s != [] {
      var a, w := s[..|s| - 2], s[|s| - 2..];
      BeValSum(a);
      assert s[..|s| - 1][..|s| - 2] == a;
      var hi: nat, lo: nat := w[0], w[1];
      assert BeVal(s) == 256 * (256 * BeVal(a) + hi) + lo;
      assert w[2..] == [];
      assert Sum16(w) == 256 * hi + lo;
      OnesShift(BeVal(a));
      OnesAddSame(0x1_0000 * BeVal(a), Sum16(a), Sum16(w), Sum16(w));
      Sum16Concat(a, w);
      assert a + w == s;
    }
  }

  /** Read in the other byte order it differs by the factor 256. */
  lemma {:induction false} LeValSum(s: seq<Byte>)
    requires |s| % 2 == 0
    ensures Ones(256 * LeVal(s)) == Ones(Sum16(s))
    decreases |s|
  {
    if s != [] {
      var r := s[2..];
      LeValSum(r);
      assert s[1..][1..] == r;
      var v, hi: nat, lo: nat := LeVal(r), s[0], s[1];
      assert LeVal(s) == hi + 256 * (lo + 256 * v);
      assert 256 * LeVal(s) == 256 * hi + 0x1_0000 * (lo + 256 * v);
      OnesShift(lo + 256 * v);
      OnesAddSame(0x1_0000 * (lo + 256 * v), lo + 256 * v, 256 * hi, 256 * hi);
      OnesAddSame(256 * v, Sum16(r), 256 * hi + lo, 256 * hi + lo);
    }
  }

  /** The bytes of a number. */
  function LeBytes(x: nat, n: nat): (s: seq<Byte>)
    ensures |s| == n
  {
    if n == 0 then [] else [x % 256] + LeBytes(x / 256, n - 1)
  }

  function BeBytes(x: nat, n: nat): (s: seq<Byte>)
    ensures |s| == n
  {
    if n == 0 then [] else BeBytes(x / 256, n - 1) + [x % 256]
  }

  lemma {:induction false} LeBytesVal(x: nat, n: nat)
    requires x < Pow256(n)
    ensures LeVal(LeBytes(x, n)) == x
  {
    if n > 0 {
      LeBytesVal(x / 256, n - 1);
      assert LeBytes(x, n)[1..] == LeBytes(x / 256, n - 1);
    }
  }

  lemma {:induction false} BeBytesVal(x: nat, n: nat)
    requires x < Pow256(n)
    ensures BeVal(BeBytes(x, n)) == x
  {
    if n > 0 {
      BeBytesVal(x / 256, n - 1);
      assert BeBytes(x, n)[..n - 1] == BeBytes(x / 256, n - 1);
    }
  }
}
