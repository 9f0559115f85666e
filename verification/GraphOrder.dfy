/** Names, pairs of names and their order. */
module GraphOrder {
  type Name = string

  datatype Pair = Pair(v1: Name, v2: Name)

  /** The order of strings. */
  predicate Less(a: Name, b: Name) {
    b != [] && (a == [] || a[0] < b[0] || (a[0] == b[0] && Less(a[1..], b[1..])))
  }

  lemma {:induction false} LessTotal(a: Name, b: Name)
    ensures !(Less(a, b) && Less(b, a)) && (a == b ==> !Less(a, b)) && (Less(a, b) || Less(b, a) || a == b)
  {
    if a != [] && b != [] && a[0] == b[0] {
      LessTotal(a[1..], b[1..]);
      assert a == [a[0]] + a[1..] && b == [b[0]] + b[1..];
    }
  }

  lemma {:induction false} LessTrans(a: Name, b: Name, c: Name)
    requires Less(a, b) && Less(b, c)
    ensures Less(a, c)
  {
    if a != [] && a[0] == b[0] && b[0] == c[0] {
      LessTrans(a[1..], b[1..], c[1..]);
    }
  }

  function SortedPair(a: Name, b: Name): Pair { if Less(a, b) then Pair(a, b) else Pair(b, a) }

  lemma {:induction false} SortedPairSymmetric(a: Name, b: Name)
    ensures SortedPair(a, b) == SortedPair(b, a)
    ensures a != b ==> Less(SortedPair(a, b).v1, SortedPair(a, b).v2)
  {
    LessTotal(a, b);
  }

  predicate PairLess(p: Pair, q: Pair) { Less(p.v1, q.v1) || (p.v1 == q.v1 && Less(p.v2, q.v2)) }

  lemma {:induction false} PairLessTotal(p: Pair, q: Pair)
    ensures !(PairLess(p, q) && PairLess(q, p)) && (PairLess(p, q) || PairLess(q, p) || p == q)
  {
    LessTotal(p.v1, q.v1);
    LessTotal(p.v2, q.v2);
  }

  lemma {:induction false} PairLessTrans(p: Pair, q: Pair, r: Pair)
    requires PairLess(p, q) && PairLess(q, r)
    ensures PairLess(p, r)
  {
    if Less(p.v1, q.v1) && Less(q.v1, r.v1) {
      LessTrans(p.v1, q.v1, r.v1);
    } else if p.v1 == q.v1 == r.v1 {
      LessTrans(p.v2, q.v2, r.v2);
    }
  }

  // ---------- sorting and compacting ----------

  ghost predicate Increasing(ps: seq<Pair>) {
    forall i, j :: 0 <= i < j < |ps| ==> PairLess(ps[i], ps[j])
  }

  function PutPair(p: Pair, ps: seq<Pair>): (r: seq<Pair>)
    ensures forall q :: q in r <==> q == p || q in ps
  {
    if ps == [] then [p]
    else if p == ps[0] then ps
    else if PairLess(p, ps[0]) then [p] + ps
    else [ps[0]] + PutPair(p, ps[1..])
  }

  /** Sorted, without repetitions. */
  function SortPairs(ps: seq<Pair>): (r: seq<Pair>)
    ensures forall q :: q in r <==> q in ps
  {
    if ps == [] then [] else PutPair(ps[0], SortPairs(ps[1..]))
  }

  lemma {:induction false} PutIncreasing(p: Pair, ps: seq<Pair>)
    requires Increasing(ps)
    ensures Increasing(PutPair(p, ps))
  {
    if ps != [] && p != ps[0] {
      PairLessTotal(p, ps[0]);
      if PairLess(p, ps[0]) {
        forall j | 0 < j < |[p] + ps|
          ensures PairLess(p, ([p] + ps)[j])
        {
          if j > 1 {
            PairLessTrans(p, ps[0], ps[j - 1]);
          }
        }
      } else {
        var rest := PutPair(p, ps[1..]);
        PutIncreasing(p, ps[1..]);
        forall j | 0 <= j < |rest|
          ensures PairLess(ps[0], rest[j])
        {
          assert rest[j] in rest;
        }
      }
    }
  }

  lemma {:induction false} SortIncreasing(ps: seq<Pair>)
    ensures Increasing(SortPairs(ps))
  {
    if ps != [] {
      SortIncreasing(ps[1..]);
      PutIncreasing(ps[0], SortPairs(ps[1..]));
    }
  }

  /** Sorted sequences without repetitions are determined by their elements. */
  lemma {:induction false} IncreasingUnique(ps: seq<Pair>, qs: seq<Pair>)
    requires Increasing(ps) && Increasing(qs) && forall p :: p in ps <==> p in qs
    ensures ps == qs
  {
    if ps != [] {
      assert ps[0] in ps;
    }
    if qs != [] {
      assert qs[0] in qs;
    }
    if ps != [] && qs != [] {
      SameHead(ps, qs);
      forall p
        ensures p in ps[1..] <==> p in qs[1..]
      {
        TailElements(ps, p);
        TailElements(qs, p);
      }
      IncreasingUnique(ps[1..], qs[1..]);
      assert ps == [ps[0]] + ps[1..] && qs == [qs[0]] + qs[1..];
    }
  }

  lemma {:induction false} SameHead(ps: seq<Pair>, qs: seq<Pair>)
    requires Increasing(ps) && Increasing(qs) && ps != [] && qs != [] && ps[0] in qs && qs[0] in ps
    ensures ps[0] == qs[0]
  {
    if ps[0] != qs[0] {
      var i :| 0 <= i < |qs| && qs[i] == ps[0];
      var j :| 0 <= j < |ps| && ps[j] == qs[0];
      PairLessTotal(ps[0], qs[0]);
    }
  }

  lemma {:induction false} TailElements(ps: seq<Pair>, p: Pair)
    requires Increasing(ps) && ps != []
    ensures p in ps[1..] <==> p in ps && p != ps[0]
  {
    if p in ps[1..] {
      var i :| 0 <= i < |ps[1..]| && ps[1..][i] == p;
      PairLessTotal(ps[0], p);
      assert PairLess(ps[0], ps[i + 1]);
      LessTotal(p.v1, p.v1);
      LessTotal(p.v2, p.v2);
    }
  }

  function PutName(x: Name, s: seq<Name>): (r: seq<Name>)
    ensures forall y :: y in r <==> y == x || y in s
  {
    if s == [] then [x]
    else if x == s[0] then s
    else if Less(x, s[0]) then [x] + s
    else [s[0]] + PutName(x, s[1..])
  }

  function SortNames(s: seq<Name>): (r: seq<Name>)
    ensures forall y :: y in r <==> y in s
  {
    if s == [] then [] else PutName(s[0], SortNames(s[1..]))
  }

  function PutEach(x: Name, s: seq<Name>): (r: seq<Name>)
    ensures multiset(r) == multiset{x} + multiset(s)
  {
    if s == [] || !Less(s[0], x) then [x] + s
    else
      assert s == [s[0]] + s[1..];
      [s[0]] + PutEach(x, s[1..])
  }

  /** Sorted, with repetitions. */
  function SortEach(s: seq<Name>): (r: seq<Name>)
    ensures multiset(r) == multiset(s)
  {
    if s == [] then []
    else
      assert s == [s[0]] + s[1..];
      PutEach(s[0], SortEach(s[1..]))
  }

  ghost predicate NonDecreasing(s: seq<Name>) { forall i, j :: 0 <= i < j < |s| ==> !Less(s[j], s[i]) }

  lemma {:induction false} PutFirst(x: Name, s: seq<Name>, j: nat)
    requires NonDecreasing(s) && j < |s| && !Less(s[0], x)
    ensures !Less(s[j], x)
  {
    LessTotal(s[0], s[j]);
    if Less(s[j], x) && Less(s[0], s[j]) {
      LessTrans(s[0], s[j], x);
    }
  }

  lemma {:induction false} PutEachOrdered(x: Name, s: seq<Name>)
    requires NonDecreasing(s)
    ensures NonDecreasing(PutEach(x, s))
  {
    if s == [] || !Less(s[0], x) {
      forall j | 0 <= j < |s|
        ensures !Less(s[j], x)
      {
        PutFirst(x, s, j);
      }
    } else {
      var rest := PutEach(x, s[1..]);
      PutEachOrdered(x, s[1..]);
      forall j | 0 <= j < |rest|
        ensures !Less(rest[j], s[0])
      {
        LessTotal(s[0], x);
        assert rest[j] in multiset(rest);
        assert rest[j] == x || rest[j] in s[1..];
      }
    }
  }

  lemma {:induction false} SortEachOrdered(s: seq<Name>)
    ensures NonDecreasing(SortEach(s))
  {
    if s != [] {
      SortEachOrdered(s[1..]);
      PutEachOrdered(s[0], SortEach(s[1..]));
    }
  }
}
