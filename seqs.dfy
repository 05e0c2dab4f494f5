/** Sequence and string helpers: concatenation, `Array.prototype.join`, reversal. */
module Seqs {

  predicate IsPrefix<T(==)>(p: seq<T>, s: seq<T>) {
    |p| <= |s| && s[..|p|] == p
  }

  predicate IsSuffix<T(==)>(p: seq<T>, s: seq<T>) {
    |p| <= |s| && s[|s| - |p|..] == p
  }

  /** The strings of `xs` one after the other. */
  function Concat(xs: seq<string>): string {
    if xs == [] then "" else Concat(xs[..|xs| - 1]) + xs[|xs| - 1]
  }

  lemma {:induction false} ConcatAppend(xs: seq<string>, ys: seq<string>)
    ensures Concat(xs + ys) == Concat(xs) + Concat(ys)
    decreases |ys|
  {
    if ys == [] {
      assert xs + ys == xs;
    } else {
      var zs := xs + ys;
      assert zs[..|zs| - 1] == xs + ys[..|ys| - 1];
      ConcatAppend(xs, ys[..|ys| - 1]);
    }
  }

  /** Concatenating the first i + 1 strings adds the i-th to the first i. */
  lemma ConcatStep(xs: seq<string>, i: nat)
    requires i < |xs|
    ensures Concat(xs[..i + 1]) == Concat(xs[..i]) + xs[i]
  {
    assert xs[..i + 1][..i] == xs[..i];
  }

  /** Concatenating a string in front of a list adds it in front. */
  lemma ConcatCons(x: string, xs: seq<string>)
    ensures Concat([x] + xs) == x + Concat(xs)
  {
    ConcatAppend([x], xs);
    assert [x][..0] == [];
  }

  lemma ConcatSnoc(xs: seq<string>, x: string)
    ensures Concat(xs + [x]) == Concat(xs) + x
  {
    assert (xs + [x])[..|xs|] == xs;
  }

  /** Nine strings concatenated as a list are the nine joined by `+`. */
  lemma ConcatNine(a: string, b: string, c: string, d: string, e: string, f: string, g: string,
                   h: string, i: string)
    ensures Concat([a, b, c, d, e, f, g, h, i]) == a + b + c + d + e + f + g + h + i
  {
    assert [a] == [] + [a];
    ConcatSnoc([], a);
    assert [a, b] == [a] + [b];
    ConcatSnoc([a], b);
    assert [a, b, c] == [a, b] + [c];
    ConcatSnoc([a, b], c);
    assert [a, b, c, d] == [a, b, c] + [d];
    ConcatSnoc([a, b, c], d);
    assert [a, b, c, d, e] == [a, b, c, d] + [e];
    ConcatSnoc([a, b, c, d], e);
    assert [a, b, c, d, e, f] == [a, b, c, d, e] + [f];
    ConcatSnoc([a, b, c, d, e], f);
    assert [a, b, c, d, e, f, g] == [a, b, c, d, e, f] + [g];
    ConcatSnoc([a, b, c, d, e, f], g);
    assert [a, b, c, d, e, f, g, h] == [a, b, c, d, e, f, g] + [h];
    ConcatSnoc([a, b, c, d, e, f, g], h);
    assert [a, b, c, d, e, f, g, h, i] == [a, b, c, d, e, f, g, h] + [i];
    ConcatSnoc([a, b, c, d, e, f, g, h], i);
  }

  /** Three strings concatenated as a list are the three joined by `+`. */
  lemma ConcatThree(a: string, b: string, c: string)
    ensures Concat([a, b, c]) == a + b + c
  {
    assert [a] == [] + [a];
    ConcatSnoc([], a);
    assert [a, b] == [a] + [b];
    ConcatSnoc([a], b);
    assert [a, b, c] == [a, b] + [c];
    ConcatSnoc([a, b], c);
  }

  /** Where each of seven strings sits in their concatenation. */
  lemma SevenPieces<T>(p1: seq<T>, p2: seq<T>, p3: seq<T>, p4: seq<T>, p5: seq<T>, p6: seq<T>, p7: seq<T>)
    ensures var s := p1 + p2 + p3 + p4 + p5 + p6 + p7;
            var o2 := |p1|;
            var o3 := o2 + |p2|;
            var o4 := o3 + |p3|;
            var o5 := o4 + |p4|;
            var o6 := o5 + |p5|;
            var o7 := o6 + |p6|;
            && |s| == o7 + |p7|
            && s[..o2] == p1 && s[o2..o3] == p2 && s[o3..o4] == p3 && s[o4..o5] == p4
            && s[o5..o6] == p5 && s[o6..o7] == p6 && s[o7..] == p7
  {
    var s := p1 + p2 + p3 + p4 + p5 + p6 + p7;
    var o2 := |p1|;
    var o3 := o2 + |p2|;
    var o4 := o3 + |p3|;
    var o5 := o4 + |p4|;
    var o6 := o5 + |p5|;
    var o7 := o6 + |p6|;
    var s6 := p1 + p2 + p3 + p4 + p5 + p6;
    var s5 := p1 + p2 + p3 + p4 + p5;
    var s4 := p1 + p2 + p3 + p4;
    var s3 := p1 + p2 + p3;
    var s2 := p1 + p2;
    assert s == s6 + p7 && s[..o7] == s6 && s[o7..] == p7;
    assert s6 == s5 + p6 && s6[..o6] == s5 && s6[o6..] == p6;
    assert s5 == s4 + p5 && s5[..o5] == s4 && s5[o5..] == p5;
    assert s4 == s3 + p4 && s4[..o4] == s3 && s4[o4..] == p4;
    assert s3 == s2 + p3 && s3[..o3] == s2 && s3[o3..] == p3;
    assert s2[..o2] == p1 && s2[o2..] == p2;
    assert s[..o2] == s2[..o2];
    assert s[o2..o3] == s2[o2..];
    assert s[o3..o4] == s3[o3..];
    assert s[o4..o5] == s4[o4..];
    assert s[o5..o6] == s5[o5..];
    assert s[o6..o7] == s6[o6..];
  }

  /** Prefixing the seven-piece concatenation shifts every piece by the prefix. */
  lemma ShiftedPieces<T>(p0: seq<T>, p1: seq<T>, p2: seq<T>, p3: seq<T>, p4: seq<T>, p5: seq<T>, p6: seq<T>, p7: seq<T>)
    ensures var s := p0 + (p1 + p2 + p3 + p4 + p5 + p6 + p7);
            var o1 := |p0|;
            var o2 := o1 + |p1|;
            var o3 := o2 + |p2|;
            var o4 := o3 + |p3|;
            var o5 := o4 + |p4|;
            var o6 := o5 + |p5|;
            var o7 := o6 + |p6|;
            && |s| == o7 + |p7|
            && s[..o1] == p0 && s[o1..o2] == p1 && s[o2..o3] == p2 && s[o3..o4] == p3 && s[o4..o5] == p4
            && s[o5..o6] == p5 && s[o6..o7] == p6 && s[o7..] == p7
  {
    var t := p1 + p2 + p3 + p4 + p5 + p6 + p7;
    SevenPieces(p1, p2, p3, p4, p5, p6, p7);
    var s := p0 + t;
    var o1 := |p0|;
    assert s[..o1] == p0 && s[o1..] == t;
    var o2 := |p1|;
    var o3 := o2 + |p2|;
    var o4 := o3 + |p3|;
    var o5 := o4 + |p4|;
    var o6 := o5 + |p5|;
    var o7 := o6 + |p6|;
    ShiftedSlice(p0, t, 0, o2);
    ShiftedSlice(p0, t, o2, o3);
    ShiftedSlice(p0, t, o3, o4);
    ShiftedSlice(p0, t, o4, o5);
    ShiftedSlice(p0, t, o5, o6);
    ShiftedSlice(p0, t, o6, o7);
    ShiftedSlice(p0, t, o7, |t|);
  }

  /** A slice of `t` sits in `p + t` shifted by the length of `p`. */
  lemma ShiftedSlice<T>(p: seq<T>, t: seq<T>, lo: int, hi: int)
    requires 0 <= lo <= hi <= |t|
    ensures (p + t)[|p| + lo..|p| + hi] == t[lo..hi]
  {
    assert (p + t)[|p|..] == t;
    assert (p + t)[|p| + lo..|p| + hi] == (p + t)[|p|..][lo..hi];
  }

  lemma AppendAssoc(a: string, b: string, c: string)
    ensures (a + b) + c == a + (b + c)
  {
  }

  lemma SuffixOfAppend<T>(a: seq<T>, b: seq<T>, c: seq<T>)
    requires IsSuffix(c, b)
    ensures IsSuffix(c, a + b)
  {
    assert (a + b)[|a + b| - |c|..] == b[|b| - |c|..];
  }

  /** `xs.join(sep)`. */
  function Join(xs: seq<string>, sep: string): string {
    if |xs| == 0 then ""
    else if |xs| == 1 then xs[0]
    else Join(xs[..|xs| - 1], sep) + sep + xs[|xs| - 1]
  }

  /** `[...s].reverse()`. */
  function Reverse<T>(s: seq<T>): (r: seq<T>)
    ensures |r| == |s|
    ensures forall k :: 0 <= k < |s| ==> r[k] == s[|s| - 1 - k]
  {
    if s == [] then [] else Reverse(s[1..]) + [s[0]]
  }
}
