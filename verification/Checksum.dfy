/** The 64-bit checksum of the TUN device, on machines of either byte order. */
module Checksum {
  import opened Basics
  import opened OnesComplement

  const MOD64 := 0x1_0000_0000_0000_0000

  type U64 = x: int | 0 <= x < 0x1_0000_0000_0000_0000

  datatype ByteOrder = BigEndian | LittleEndian

  /** A number in the machine's byte order. */
  function Native(e: ByteOrder, s: seq<Byte>): nat { if e.BigEndian? then BeVal(s) else LeVal(s) }

  function NativeBytes(e: ByteOrder, x: nat, n: nat): (s: seq<Byte>)
    ensures |s| == n
  {
    if e.BigEndian? then BeBytes(x, n) else LeBytes(x, n)
  }

  /** What a sum of native words is short of by, modulo 65535. */
  function Scaled(e: ByteOrder, x: nat): nat { if e.BigEndian? then x else 256 * x }

  lemma {:induction false} NativeBound(e: ByteOrder, s: seq<Byte>)
    requires |s| in {2, 4, 8}
    ensures Native(e, s) < MOD64
  {
    BeValBound(s);
    LeValBound(s);
    Pow256Small();
  }

  lemma {:induction false} NativeSum(e: ByteOrder, s: seq<Byte>)
    requires |s| % 2 == 0
    ensures Ones(Scaled(e, Native(e, s))) == Ones(Sum16(s))
  {
    BeValSum(s);
    LeValSum(s);
  }

  lemma {:induction false} ScaledAdd(e: ByteOrder, a: nat, b: nat)
    ensures Scaled(e, a + b) == Scaled(e, a) + Scaled(e, b)
  {
  }

  /** Reading a native number as a big-endian one. */
  function Swapped(e: ByteOrder, x: U64): nat { BeVal(NativeBytes(e, x, 8)) }

  lemma {:induction false} SwappedOnes(e: ByteOrder, x: U64)
    ensures Swapped(e, x) < MOD64 && Ones(Swapped(e, x)) == Ones(Scaled(e, x))
  {
    Pow256Small();
    var s := NativeBytes(e, x, 8);
    BeValBound(s);
    if e.BigEndian? {
      BeBytesVal(x, 8);
    } else {
      LeBytesVal(x, 8);
      BeValSum(s);
      LeValSum(s);
    }
  }

  lemma {:induction false} ScaledTwice(e: ByteOrder, x: nat)
    ensures Ones(Scaled(e, Scaled(e, x))) == Ones(x)
  {
    OnesShift(x);
    assert 256 * (256 * x) == 0x1_0000 * x;
  }

  lemma {:induction false} ScaledSame(e: ByteOrder, x: nat, y: nat)
    requires Ones(x) == Ones(y)
    ensures Ones(Scaled(e, x)) == Ones(Scaled(e, y))
  {
    OnesTimes256(x);
    OnesTimes256(y);
  }

  /** `bits.Add64`. */
  method Add64(x: U64, y: U64, carry: U64) returns (sum: U64, carryOut: U64)
    requires carry <= 1
    ensures x + y + carry == sum + MOD64 * carryOut && carryOut <= 1
  {
    var t := x + y + carry;
    if t < MOD64 {
      sum, carryOut := t, 0;
    } else {
      sum, carryOut := t - MOD64, 1;
    }
  }

  lemma {:induction false} CarryOnes(t: nat, sum: U64, carry: U64)
    requires t == sum + MOD64 * carry && carry <= 1
    ensures Ones(sum + carry) == Ones(t)
  {
    if carry == 1 {
      assert MOD64 == 1 + 0xffff * 0x1_0001_0001_0001;
      OnesPlus(sum + 1, 0x1_0001_0001_0001);
    }
  }

  /** The accumulator and its pending carry stand for `total`, and adding the carry cannot overflow. */
  ghost predicate Holds(e: ByteOrder, ac: U64, carry: U64, total: nat) {
    carry <= 1 && ac + carry < MOD64 && Ones(Scaled(e, ac + carry)) == Ones(total)
  }

  lemma {:induction false} AddedHolds(e: ByteOrder, ac: U64, carry: U64, total: nat, s: seq<Byte>, v: U64, ac': U64, carry': U64)
    requires Holds(e, ac, carry, total) && |s| % 2 == 0 && v == Native(e, s)
    requires ac + v + carry == ac' + MOD64 * carry' && carry' <= 1
    ensures Holds(e, ac', carry', total + Sum16(s))
  {
    CarryOnes(ac + v + carry, ac', carry');
    ScaledSame(e, ac' + carry', ac + carry + v);
    ScaledAdd(e, ac + carry, v);
    NativeSum(e, s);
    OnesAddSame(Scaled(e, ac + carry), total, Scaled(e, v), Sum16(s));
  }

  /** Adds one native number with the carry of the one before. */
  method AddNative(e: ByteOrder, ac: U64, carry: U64, s: seq<Byte>, ghost total: nat) returns (ac': U64, carry': U64)
    requires |s| in {2, 4, 8} && Holds(e, ac, carry, total)
    ensures Holds(e, ac', carry', total + Sum16(s))
  {
    NativeBound(e, s);
    var v: U64 := Native(e, s);
    ac', carry' := Add64(ac, v, carry);
    AddedHolds(e, ac, carry, total, s, v, ac', carry');
  }

  lemma {:induction false} Sum16Next(b: seq<Byte>, i: nat, j: nat)
    requires i <= j <= |b| && i % 2 == 0 && j % 2 == 0
    ensures Sum16(b[..j]) == Sum16(b[..i]) + Sum16(b[i..j])
  {
    assert b[..j] == b[..i] + b[i..j];
    Sum16Concat(b[..i], b[i..j]);
  }

  lemma {:induction false} EvenBytes(words: nat)
    ensures 8 * words % 2 == 0
  {
  }

  method AddWord(e: ByteOrder, ac: U64, carry: U64, b: seq<Byte>, at: nat, ghost total: nat) returns (ac': U64, carry': U64)
    requires at % 2 == 0 && at + 8 <= |b| && Holds(e, ac, carry, total + Sum16(b[..at]))
    ensures Holds(e, ac', carry', total + Sum16(b[..at + 8]))
  {
    Sum16Next(b, at, at + 8);
    ac', carry' := AddNative(e, ac, carry, b[at..at + 8], total + Sum16(b[..at]));
  }

  /** A chain of 64-bit additions; the source writes its 16, 8, 4, 2 or 1 steps out. */
  method AddWords(e: ByteOrder, ac0: U64, b: seq<Byte>, words: nat, ghost total: nat) returns (ac: U64, rest: seq<Byte>)
    requires 8 * words <= |b| && Holds(e, ac0, 0, total)
    ensures rest == b[8 * words..] && Holds(e, ac, 0, total + Sum16(b[..8 * words]))
  {
    var carry: U64;
    ac, carry := ac0, 0;
    assert b[..0] == [];
    for i := 0 to words
      invariant Holds(e, ac, carry, total + Sum16(b[..8 * i]))
    {
      EvenBytes(i);
      ac, carry := AddWord(e, ac, carry, b, 8 * i, total);
    }
    ac, rest := ac + carry, b[8 * words..];
  }

  /** One number of 4 or 2 bytes. */
  method AddShort(e: ByteOrder, ac0: U64, s: seq<Byte>, ghost total: nat) returns (ac: U64)
    requires |s| in {2, 4} && Holds(e, ac0, 0, total)
    ensures Holds(e, ac, 0, total + Sum16(s))
  {
    var carry;
    ac, carry := AddNative(e, ac0, 0, s, total);
    ac := ac + carry;
  }

  /** `rest` is what is left of `b`, and the accumulator stands for what was taken. */
  ghost predicate Summed(e: ByteOrder, b: seq<Byte>, initial: nat, ac: U64, rest: seq<Byte>) {
    && |rest| <= |b| && rest == b[|b| - |rest|..] && (|b| - |rest|) % 2 == 0
    && Holds(e, ac, 0, initial + Sum16(b[..|b| - |rest|]))
  }

  lemma {:induction false} TakeMore(b: seq<Byte>, rest: seq<Byte>, k: nat)
    requires |rest| <= |b| && rest == b[|b| - |rest|..] && (|b| - |rest|) % 2 == 0 && k <= |rest| && k % 2 == 0
    ensures rest[k..] == b[|b| - |rest[k..]|..]
    ensures Sum16(b[..|b| - |rest[k..]|]) == Sum16(b[..|b| - |rest|]) + Sum16(rest[..k])
  {
    var at := |b| - |rest|;
    Sum16Next(b, at, at + k);
    assert b[at..at + k] == rest[..k];
  }

  method SumWords(e: ByteOrder, ghost b: seq<Byte>, ghost initial: nat, ac: U64, rest: seq<Byte>, words: nat)
    returns (ac': U64, rest': seq<Byte>)
    requires Summed(e, b, initial, ac, rest) && 8 * words <= |rest|
    ensures Summed(e, b, initial, ac', rest') && rest' == rest[8 * words..]
  {
    EvenBytes(words);
    ac', rest' := AddWords(e, ac, rest, words, initial + Sum16(b[..|b| - |rest|]));
    SummedMore(e, b, initial, ac, rest, 8 * words, ac');
  }

  lemma {:induction false} SummedMore(e: ByteOrder, b: seq<Byte>, initial: nat, ac: U64, rest: seq<Byte>, k: nat, ac': U64)
    requires Summed(e, b, initial, ac, rest) && k <= |rest| && k % 2 == 0
    requires Holds(e, ac', 0, initial + Sum16(b[..|b| - |rest|]) + Sum16(rest[..k]))
    ensures Summed(e, b, initial, ac', rest[k..])
  {
    TakeMore(b, rest, k);
  }

  method SumShort(e: ByteOrder, ghost b: seq<Byte>, ghost initial: nat, ac: U64, rest: seq<Byte>, k: nat)
    returns (ac': U64, rest': seq<Byte>)
    requires Summed(e, b, initial, ac, rest) && k in {2, 4} && k <= |rest|
    ensures Summed(e, b, initial, ac', rest') && rest' == rest[k..]
  {
    TakeMore(b, rest, k);
    ac' := AddShort(e, ac, rest[..k], initial + Sum16(b[..|b| - |rest|]));
    rest' := rest[k..];
  }

  /** Fewer than 128 bytes in halving steps. */
  method SumTail(e: ByteOrder, ghost b: seq<Byte>, ghost initial: nat, ac0: U64, rest0: seq<Byte>) returns (ac: U64)
    requires Summed(e, b, initial, ac0, rest0) && |rest0| < 128
    ensures Holds(e, ac, 0, initial + Sum16(b))
  {
    var rest;
    ac, rest := ac0, rest0;
    if |rest| >= 64 {
      ac, rest := SumWords(e, b, initial, ac, rest, 8);
    }
    if |rest| >= 32 {
      ac, rest := SumWords(e, b, initial, ac, rest, 4);
    }
    if |rest| >= 16 {
      ac, rest := SumWords(e, b, initial, ac, rest, 2);
    }
    ac := SumEnd(e, b, initial, ac, rest);
  }

  method SumEnd(e: ByteOrder, ghost b: seq<Byte>, ghost initial: nat, ac0: U64, rest0: seq<Byte>) returns (ac: U64)
    requires Summed(e, b, initial, ac0, rest0) && |rest0| < 16
    ensures Holds(e, ac, 0, initial + Sum16(b))
  {
    var rest;
    ac, rest := ac0, rest0;
    if |rest| >= 8 {
      ac, rest := SumWords(e, b, initial, ac, rest, 1);
    }
    if |rest| >= 4 {
      ac, rest := SumShort(e, b, initial, ac, rest, 4);
    }
    if |rest| >= 2 {
      ac, rest := SumShort(e, b, initial, ac, rest, 2);
    }
    ac := SumOdd(e, b, initial, ac, rest);
  }

  method SumOdd(e: ByteOrder, ghost b: seq<Byte>, ghost initial: nat, ac0: U64, rest: seq<Byte>) returns (ac: U64)
    requires Summed(e, b, initial, ac0, rest) && |rest| < 2
    ensures Holds(e, ac, 0, initial + Sum16(b))
  {
    SumSplit(b, rest);
    ac := ac0;
    if |rest| == 1 {
      ac := AddShort(e, ac, [rest[0], 0], initial + Sum16(b[..|b| - 1]));
    }
  }

  /** The odd last byte counts as if a zero followed it. */
  lemma {:induction false} SumSplit(b: seq<Byte>, rest: seq<Byte>)
    requires |rest| <= |b| && rest == b[|b| - |rest|..] && (|b| - |rest|) % 2 == 0 && |rest| < 2
    ensures rest == [] ==> b[..|b| - |rest|] == b
    ensures |rest| == 1 ==> Sum16(b) == Sum16(b[..|b| - 1]) + Sum16([rest[0], 0])
  {
    var at := |b| - |rest|;
    if |rest| == 1 {
      assert b == b[..at] + rest;
      Sum16Concat(b[..at], rest);
      assert [rest[0], 0][2..] == [];
    }
  }

  /** Reads a number in the other byte order, through a buffer of 8 bytes. */
  method SwapBytes(e: ByteOrder, x: U64) returns (y: U64)
    ensures Ones(y) == Ones(Scaled(e, x))
  {
    SwappedOnes(e, x);
    y := Swapped(e, x);
  }

  lemma {:induction false} StartSum(e: ByteOrder, b: seq<Byte>, initial: nat, ac: U64)
    requires Ones(ac) == Ones(Scaled(e, initial))
    ensures Summed(e, b, initial, ac, b)
  {
    assert b[0..] == b && b[..0] == [];
    ScaledSame(e, ac, Scaled(e, initial));
    ScaledTwice(e, initial);
  }

  method SumBlocks(e: ByteOrder, ghost b: seq<Byte>, ghost initial: nat, ac0: U64, rest0: seq<Byte>) returns (ac: U64, rest: seq<Byte>)
    requires Summed(e, b, initial, ac0, rest0)
    ensures Summed(e, b, initial, ac, rest) && |rest| < 128
  {
    ac, rest := ac0, rest0;
    while |rest| >= 128
      invariant Summed(e, b, initial, ac, rest)
      decreases |rest|
    {
      ac, rest := SumWords(e, b, initial, ac, rest, 16);
    }
  }

  /** The sum before folding: 64 bits wide, with nothing lost. */
  method ChecksumNoFold(e: ByteOrder, b: seq<Byte>, initial: U64) returns (sum: U64)
    ensures Ones(sum) == Ones(initial + Sum16(b))
  {
    var ac := SwapBytes(e, initial);
    StartSum(e, b, initial, ac);
    var rest;
    ac, rest := SumBlocks(e, b, initial, ac, b);
    ac := SumTail(e, b, initial, ac, rest);
    sum := SwapBytes(e, ac);
  }

  function Fold(x: nat): nat { x / 0x1_0000 + x % 0x1_0000 }

  /** Four folds bring any 64-bit sum into 16 bits. */
  lemma {:induction false} FourFolds(x: U64)
    ensures Fold(Fold(Fold(Fold(x)))) == Ones(x)
  {
    var y1 := Fold(x);
    var y2 := Fold(y1);
    var y3 := Fold(y2);
    var y4 := Fold(y3);
    FoldBounds(x);
    OnesFold(x);
    OnesFold(y1);
    OnesFold(y2);
    OnesFold(y3);
  }

  lemma {:induction false} FoldBounds(x: U64)
    ensures Fold(x) <= 0xffff_ffff_ffff + 0xffff && Fold(Fold(x)) <= 0xffff_ffff + 0xffff
    ensures Fold(Fold(Fold(x))) <= 0x1_fffe && Fold(Fold(Fold(Fold(x)))) <= 0xffff
  {
    var y1 := Fold(x);
    FoldBound(x, 0xffff_ffff_ffff, 0xffff);
    FoldBound(y1, 0x1_0000_0000, 0xfffe);
    var y2 := Fold(y1);
    FoldBound(y2, 0x1_0000, 0xfffe);
    var y3 := Fold(y2);
    FoldBound(y3, 1, 0xfffe);
  }

  /** A number up to `h * 65536 + l` folds to at most `h + l`, if that covers the smaller ones. */
  lemma {:induction false} FoldBound(x: nat, h: nat, l: nat)
    requires x <= 0x1_0000 * h + l && 0 < h && 0xfffe <= l <= 0xffff
    ensures Fold(x) <= h + l
  {
  }

  function Low16(x: nat): (r: nat)
    ensures r <= 0xffff && (x <= 0xffff ==> r == x)
  {
    x % 0x1_0000
  }

  /** The plain checksum, whatever the byte order of the machine. */
  method ChecksumOf(e: ByteOrder, b: seq<Byte>, initial: U64) returns (r: nat)
    ensures r == Ones(initial + Sum16(b))
  {
    var ac: nat := ChecksumNoFold(e, b, initial);
    FourFolds(ac);
    ac := Fold(ac);
    ac := Fold(ac);
    ac := Fold(ac);
    ac := Fold(ac);
    r := Low16(ac);
  }

  /** The pseudo header of TCP and UDP. */
  method PseudoHeaderNoFold(e: ByteOrder, protocol: Byte, src: seq<Byte>, dst: seq<Byte>, totalLen: nat) returns (sum: U64)
    requires totalLen < 0x1_0000
    ensures Ones(sum) == Ones(Sum16(src) + Sum16(dst) + protocol + totalLen)
  {
    var s0: nat := ChecksumNoFold(e, src, 0);
    var s1: nat := ChecksumNoFold(e, dst, s0);
    OnesAddSame(s0, Sum16(src), Sum16(dst), Sum16(dst));
    var s2: nat := ChecksumNoFold(e, [0, protocol], s1);
    assert [0, protocol][2..] == [];
    OnesAddSame(s1, Sum16(src) + Sum16(dst), protocol, protocol);
    var len := BeBytes(totalLen, 2);
    Pow256Small();
    BeBytesVal(totalLen, 2);
    assert len[2..] == [] && Sum16(len) == totalLen by {
      assert len[..1][..0] == [];
      assert BeVal(len[..1]) == len[0];
    }
    sum := ChecksumNoFold(e, len, s2);
    OnesAddSame(s2, Sum16(src) + Sum16(dst) + protocol, totalLen, totalLen);
  }
}
