/** String helpers for Python's `str.join`, `str.split` and `str(int)`. */
module Text {

  /** `sep.join(parts)`. */
  function Join(sep: string, parts: seq<string>): string
    decreases |parts|
  {
    if |parts| == 0 then ""
    else if |parts| == 1 then parts[0]
    else parts[0] + sep + Join(sep, parts[1..])
  }

  /** `s.split(c)` for a single-character separator: never an empty list. */
  function Split(s: string, c: char): (r: seq<string>)
    ensures |r| >= 1
  {
    if s == [] then [""]
    else
      var rest := Split(s[1..], c);
      if s[0] == c then [""] + rest else [[s[0]] + rest[0]] + rest[1..]
  }

  /** The position of the first `c` in `s`. */
  function FirstIndex(s: string, c: char): (i: nat)
    requires c in s
    ensures i < |s| && s[i] == c && c !in s[..i]
  {
    if s[0] == c then 0 else 1 + FirstIndex(s[1..], c)
  }

  /** `s.split(c, 1)` when `s` contains `c`: the text before and after its first occurrence. */
  function SplitOnce(s: string, c: char): (string, string)
    requires c in s
  {
    var i := FirstIndex(s, c);
    (s[..i], s[i + 1..])
  }

  /** Splitting at the first `c` undoes joining two parts with `c`, when the first part has none. */
  lemma SplitOnceOfJoined(a: string, c: char, b: string)
    requires c !in a
    ensures c in a + [c] + b
    ensures SplitOnce(a + [c] + b, c) == (a, b)
  {
    var s := a + [c] + b;
    assert s[|a|] == c;
    var i := FirstIndex(s, c);
    assert s[..|a| + 1][..|a|] == a;
    assert s[..i] == a;
    assert s[i + 1..] == b;
  }

  lemma {:induction false} SplitWithoutSeparator(a: string, c: char)
    requires c !in a
    ensures Split(a, c) == [a]
    decreases |a|
  {
    if a != [] {
      SplitWithoutSeparator(a[1..], c);
      assert [a[0]] + a[1..] == a;
    }
  }

  lemma {:induction false} SplitAtSeparator(a: string, c: char, b: string)
    requires c !in a
    ensures Split(a + [c] + b, c) == [a] + Split(b, c)
    decreases |a|
  {
    var s := a + [c] + b;
    if a == [] {
      assert s[1..] == b;
    } else {
      assert s[1..] == a[1..] + [c] + b;
      SplitAtSeparator(a[1..], c, b);
      assert [a[0]] + a[1..] == a;
    }
  }

  /** Splitting the joined lines at the separator gives the lines back, when no line contains it. */
  lemma {:induction false} SplitJoin(parts: seq<string>, c: char)
    requires |parts| >= 1
    requires forall i :: 0 <= i < |parts| ==> c !in parts[i]
    ensures Split(Join([c], parts), c) == parts
    decreases |parts|
  {
    if |parts| == 1 {
      SplitWithoutSeparator(parts[0], c);
    } else {
      SplitJoin(parts[1..], c);
      SplitAtSeparator(parts[0], c, Join([c], parts[1..]));
      assert [parts[0]] + parts[1..] == parts;
    }
  }

  /** A decimal digit. */
  function Digit(d: nat): (ch: char)
    requires d < 10
    ensures '0' <= ch <= '9'
  {
    ['0', '1', '2', '3', '4', '5', '6', '7', '8', '9'][d]
  }

  /** `str(n)` for a non-negative int: its decimal digits, most significant first. */
  function NatToString(n: nat): (s: string)
    ensures |s| >= 1
    ensures forall i :: 0 <= i < |s| ==> '0' <= s[i] <= '9'
  {
    if n < 10 then [Digit(n)] else NatToString(n / 10) + [Digit(n % 10)]
  }

  /** A slice inside the left operand of a concatenation. */
  lemma SliceOfConcatLeft<T>(a: seq<T>, b: seq<T>, lo: nat, hi: nat)
    requires lo <= hi <= |a|
    ensures (a + b)[lo..hi] == a[lo..hi]
  {
  }

  /** The right operand of a concatenation, as a slice of it. */
  lemma SliceOfConcatRight<T>(a: seq<T>, b: seq<T>)
    ensures (a + b)[|a|..|a| + |b|] == b
  {
  }

  /** The first i + 1 elements are the first i followed by element i. */
  lemma PrefixSnoc<T>(s: seq<T>, p: seq<T>, i: nat, x: T)
    requires i < |s| && p == s[..i] && x == s[i]
    ensures p + [x] == s[..i + 1]
  {
    assert s[..i + 1] == s[..i] + [s[i]];
  }

  /** The concatenation of a sequence of blocks, in order. */
  function Flatten<T>(bs: seq<seq<T>>): seq<T>
    decreases |bs|
  {
    if bs == [] then [] else Flatten(bs[..|bs| - 1]) + bs[|bs| - 1]
  }

  lemma FlattenSnoc<T>(bs: seq<seq<T>>, b: seq<T>)
    ensures Flatten(bs + [b]) == Flatten(bs) + b
  {
    assert (bs + [b])[..|bs|] == bs;
  }

  lemma MulSucc(w: nat, n: nat)
    ensures w * (n + 1) == w * n + w
  {
  }

  lemma MulMono(w: nat, a: nat, b: nat)
    requires a <= b
    ensures w * a <= w * b
  {
  }

  /** Blocks of width `w` flatten to `w` elements per block. */
  lemma {:induction false} FlattenLength<T>(bs: seq<seq<T>>, w: nat)
    requires forall j :: 0 <= j < |bs| ==> |bs[j]| == w
    ensures |Flatten(bs)| == w * |bs|
    decreases |bs|
  {
    if bs != [] {
      var init := bs[..|bs| - 1];
      assert forall j :: 0 <= j < |init| ==> init[j] == bs[j];
      FlattenLength(init, w);
      MulSucc(w, |init|);
    }
  }

  /** Block i of blocks of width `w` sits at offset w * i of the flattened sequence. */
  lemma {:induction false} FlattenBlockAt<T>(bs: seq<seq<T>>, w: nat, i: nat)
    requires forall j :: 0 <= j < |bs| ==> |bs[j]| == w
    requires i < |bs|
    ensures |Flatten(bs)| == w * |bs| && w * i + w <= |Flatten(bs)|
    ensures Flatten(bs)[w * i .. w * i + w] == bs[i]
    decreases |bs|
  {
    var n := |bs| - 1;
    var init := bs[..n];
    assert forall j :: 0 <= j < |init| ==> init[j] == bs[j];
    FlattenLength(bs, w);
    FlattenLength(init, w);
    MulSucc(w, i);
    MulMono(w, i + 1, n + 1);
    if i < n {
      MulMono(w, i + 1, n);
      FlattenBlockAt(init, w, i);
      SliceOfConcatLeft(Flatten(init), bs[n], w * i, w * i + w);
    } else {
      SliceOfConcatRight(Flatten(init), bs[n]);
    }
  }

  /** Every element of a flattened sequence comes from one of the blocks. */
  lemma {:induction false} FlattenMember<T>(bs: seq<seq<T>>, x: T)
    requires x in Flatten(bs)
    ensures exists j :: 0 <= j < |bs| && x in bs[j]
    decreases |bs|
  {
    var n := |bs| - 1;
    if x !in bs[n] {
      FlattenMember(bs[..n], x);
      var j :| 0 <= j < n && x in bs[..n][j];
      assert bs[..n][j] == bs[j];
    }
  }

  /** Appending the next block to a prefix followed by the first i blocks gives the first i + 1. */
  lemma AppendBlock<T>(pre: seq<T>, bs: seq<seq<T>>, i: nat, lines: seq<T>, b: seq<T>)
    requires i < |bs| && lines == pre + Flatten(bs[..i]) && b == bs[i]
    ensures lines + b == pre + Flatten(bs[..i + 1])
  {
    assert bs[..i + 1] == bs[..i] + [bs[i]];
    FlattenSnoc(bs[..i], bs[i]);
  }

  /** An element of a block found inside `flat` at `lo`, seen through a prefix. */
  lemma BlockIndex<T>(pre: seq<T>, flat: seq<T>, lo: nat, blk: seq<T>, t: nat)
    requires lo + |blk| <= |flat| && flat[lo..lo + |blk|] == blk && t < |blk|
    ensures (pre + flat)[|pre| + lo + t] == blk[t]
  {
    assert flat[lo + t] == flat[lo..lo + |blk|][t];
  }
}
