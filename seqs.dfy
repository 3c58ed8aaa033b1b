/** Order-preserving filtering of sequences: the model of an iterator `filter`
    chain (and of a Python generator expression with an `if`). */
module Seqs {

  /** The elements of `s` that satisfy `p`, in the order `s` holds them. */
  function Filter<T(!new)>(p: T -> bool, s: seq<T>): (r: seq<T>)
    ensures |r| <= |s|
    ensures forall x :: x in r <==> x in s && p(x)
  {
    if s == [] then []
    else (if p(s[0]) then [s[0]] else []) + Filter(p, s[1..])
  }

  /** `idx` lists, strictly increasing, the positions of `s` whose elements make up `r`. */
  ghost predicate Embeds<T>(r: seq<T>, s: seq<T>, idx: seq<int>)
  {
    && |idx| == |r|
    && (forall k :: 0 <= k < |idx| ==> 0 <= idx[k] < |s| && s[idx[k]] == r[k])
    && (forall k, l :: 0 <= k < l < |idx| ==> idx[k] < idx[l])
  }

  /** Every position in `q`, moved one place to the right. */
  ghost function Shift(q: seq<int>): (r: seq<int>)
    ensures |r| == |q|
    ensures forall k :: 0 <= k < |q| ==> r[k] == q[k] + 1
  {
    seq(|q|, k requires 0 <= k < |q| => q[k] + 1)
  }

  /** The positions of `s` whose elements satisfy `p`, in increasing order. */
  ghost function Positions<T>(p: T -> bool, s: seq<T>): seq<int>
  {
    if s == [] then []
    else (if p(s[0]) then [0] else []) + Shift(Positions(p, s[1..]))
  }

  /** A position belongs to `Positions(p, s)` exactly when its element satisfies `p`. */
  lemma {:induction false} PositionsExact<T>(p: T -> bool, s: seq<T>)
    ensures forall i :: 0 <= i < |s| ==> (i in Positions(p, s) <==> p(s[i]))
    ensures forall i :: i in Positions(p, s) ==> 0 <= i < |s|
  {
    if s != [] {
      var rest := Positions(p, s[1..]);
      PositionsExact(p, s[1..]);
      forall i | i in Shift(rest) ensures 1 <= i <= |s| - 1 && i - 1 in rest {
        var k :| 0 <= k < |rest| && Shift(rest)[k] == i;
        assert rest[k] in rest;
      }
      forall i | 1 <= i < |s| && i - 1 in rest ensures i in Shift(rest) {
        var k :| 0 <= k < |rest| && rest[k] == i - 1;
        assert Shift(rest)[k] == i;
      }
      forall i | 1 <= i < |s| ensures s[i] == s[1..][i - 1] { }
    }
  }

  /** An embedding into the tail of `s` is, shifted by one, an embedding into `s`. */
  lemma EmbedsSkip<T>(r: seq<T>, s: seq<T>, idx: seq<int>)
    requires s != [] && Embeds(r, s[1..], idx)
    ensures Embeds(r, s, Shift(idx))
  {
    forall k | 0 <= k < |idx| ensures s[Shift(idx)[k]] == r[k] {
      assert s[idx[k] + 1] == s[1..][idx[k]];
    }
  }

  /** Putting the head of `s` in front of an embedding into its tail embeds into `s`. */
  lemma EmbedsCons<T>(r: seq<T>, s: seq<T>, idx: seq<int>)
    requires s != [] && Embeds(r, s[1..], idx)
    ensures Embeds([s[0]] + r, s, [0] + Shift(idx))
  {
    EmbedsSkip(r, s, idx);
    var idx', r' := [0] + Shift(idx), [s[0]] + r;
    forall k | 0 < k < |idx'| ensures idx'[k] == Shift(idx)[k - 1] && r'[k] == r[k - 1] { }
  }

  /** Filtering keeps the elements at `Positions(p, s)`, in that order. */
  lemma {:induction false} FilterEmbeds<T(!new)>(p: T -> bool, s: seq<T>)
    ensures Embeds(Filter(p, s), s, Positions(p, s))
  {
    if s != [] {
      FilterEmbeds(p, s[1..]);
      if p(s[0]) {
        EmbedsCons(Filter(p, s[1..]), s, Positions(p, s[1..]));
      } else {
        EmbedsSkip(Filter(p, s[1..]), s, Positions(p, s[1..]));
      }
    }
  }

  /** Filtering keeps exactly the positions whose element satisfies `p`,
      each once, in their original order. */
  lemma FilterKeepsOrder<T(!new)>(p: T -> bool, s: seq<T>)
    ensures exists idx :: Embeds(Filter(p, s), s, idx) && forall i :: 0 <= i < |s| ==> (i in idx <==> p(s[i]))
  {
    FilterEmbeds(p, s);
    PositionsExact(p, s);
    var idx := Positions(p, s);
    assert Embeds(Filter(p, s), s, idx) && forall i :: 0 <= i < |s| ==> (i in idx <==> p(s[i]));
  }

  /** Filtering distributes over concatenation. */
  lemma {:induction false} FilterAppend<T(!new)>(p: T -> bool, a: seq<T>, b: seq<T>)
    ensures Filter(p, a + b) == Filter(p, a) + Filter(p, b)
  {
    if a != [] {
      assert (a + b)[1..] == a[1..] + b;
      FilterAppend(p, a[1..], b);
    } else {
      assert a + b == b;
    }
  }

  /** Two filters in a row keep what one filter on the conjunction `r` keeps. */
  lemma {:induction false} FilterFuse<T(!new)>(p: T -> bool, q: T -> bool, r: T -> bool, s: seq<T>)
    requires forall x :: r(x) == (p(x) && q(x))
    ensures Filter(q, Filter(p, s)) == Filter(r, s)
  {
    if s != [] {
      FilterFuse(p, q, r, s[1..]);
      var head := if p(s[0]) then [s[0]] else [];
      FilterAppend(q, head, Filter(p, s[1..]));
    }
  }

  /** Filtering keeps everything when every element qualifies. */
  lemma {:induction false} FilterKeepsAll<T(!new)>(p: T -> bool, s: seq<T>)
    requires forall k :: 0 <= k < |s| ==> p(s[k])
    ensures Filter(p, s) == s
  {
    if s != [] {
      FilterKeepsAll(p, s[1..]);
    }
  }

  /** Filtering a suffix: the element at the cut, kept or not, then the rest. */
  lemma FilterStep<T(!new)>(p: T -> bool, s: seq<T>, k: nat)
    requires k < |s|
    ensures Filter(p, s[k..]) == (if p(s[k]) then [s[k]] else []) + Filter(p, s[k + 1..])
  {
    assert s[k..][1..] == s[k + 1..];
  }

  /** Concatenation is associative. */
  lemma AppendAssoc<T>(a: seq<T>, b: seq<T>, c: seq<T>)
    ensures (a + b) + c == a + (b + c)
  {
  }
}
