/** Facts about lists used throughout: repeat-free lists, positions and order-preserving selections. */
module Lists {

  predicate Distinct<T(==)>(s: seq<T>) {
    forall i, j :: 0 <= i < j < |s| ==> s[i] != s[j]
  }

  /** Position of the first occurrence of `x` in `s`. */
  function IndexOf<T(==)>(s: seq<T>, x: T): (i: nat)
    requires x in s
    ensures i < |s| && s[i] == x && x !in s[..i]
  {
    if s[0] == x then 0 else 1 + IndexOf(s[1..], x)
  }

  lemma IndexOfDistinct<T>(s: seq<T>, k: nat)
    requires Distinct(s) && k < |s|
    ensures IndexOf(s, s[k]) == k
  {
  }

  /** `r` lists elements of `s` in the order `s` has them, each at most once. */
  ghost predicate OrderedIn<T>(r: seq<T>, s: seq<T>) {
    && (forall i :: 0 <= i < |r| ==> r[i] in s)
    && (forall i, j :: 0 <= i < j < |r| ==> IndexOf(s, r[i]) < IndexOf(s, r[j]))
  }

  lemma IndexOfTail<T>(cols: seq<T>, x: T)
    requires Distinct(cols) && |cols| > 0 && x in cols[1..]
    ensures IndexOf(cols, x) == 1 + IndexOf(cols[1..], x)
  {
    assert x != cols[0];
  }

  /** An ordered selection from the tail of a list is an ordered selection from the list. */
  lemma OrderedInTail<T>(r: seq<T>, s: seq<T>)
    requires Distinct(s) && |s| > 0 && OrderedIn(r, s[1..])
    ensures OrderedIn(r, s)
  {
    forall i | 0 <= i < |r| ensures IndexOf(s, r[i]) == 1 + IndexOf(s[1..], r[i]) {
      IndexOfTail(s, r[i]);
    }
  }

  /** ... and so is the list's head followed by it. */
  lemma OrderedInCons<T>(r: seq<T>, s: seq<T>)
    requires Distinct(s) && |s| > 0 && OrderedIn(r, s[1..])
    ensures OrderedIn([s[0]] + r, s)
  {
    OrderedInTail(r, s);
    var q := [s[0]] + r;
    forall i, j | 0 <= i < j < |q| ensures IndexOf(s, q[i]) < IndexOf(s, q[j]) {
      assert q[j] == r[j - 1];
      if i > 0 {
        assert q[i] == r[i - 1];
      }
    }
  }


  /** Ordered selections have no repeats. */
  lemma OrderedDistinct<T>(r: seq<T>, s: seq<T>)
    requires OrderedIn(r, s)
    ensures Distinct(r)
  {
    forall i, j | 0 <= i < j < |r| ensures r[i] != r[j] {
      assert IndexOf(s, r[i]) < IndexOf(s, r[j]);
    }
  }

  /** Two repeat-free lists with nothing in common concatenate to a repeat-free list. */
  lemma DistinctAppend<T>(a: seq<T>, b: seq<T>)
    requires Distinct(a) && Distinct(b)
    requires forall p, q :: 0 <= p < |a| && 0 <= q < |b| ==> a[p] != b[q]
    ensures Distinct(a + b)
  {
    var c := a + b;
    forall i, j | 0 <= i < j < |c| ensures c[i] != c[j] {
      if j < |a| {
        assert c[i] == a[i] && c[j] == a[j];
      } else if i < |a| {
        assert c[i] == a[i] && c[j] == b[j - |a|];
      } else {
        assert c[i] == b[i - |a|] && c[j] == b[j - |a|];
      }
    }
  }

  /** Appending a new element keeps a list repeat-free. */
  lemma DistinctSnoc<T>(s: seq<T>, x: T)
    requires Distinct(s) && x !in s
    ensures Distinct(s + [x])
  {
    var t := s + [x];
    forall i, j | 0 <= i < j < |t| ensures t[i] != t[j] {
      if j == |s| {
        assert t[i] == s[i];
      } else {
        assert t[i] == s[i] && t[j] == s[j];
      }
    }
  }

  /** `a` is a leading part of `b`. */
  predicate IsPrefix<T(==)>(a: seq<T>, b: seq<T>) {
    |a| <= |b| && b[..|a|] == a
  }

  /** A leading part stays one when more is added after it, to the whole or to both. */
  lemma PrefixAppend<T>(a: seq<T>, b: seq<T>, c: seq<T>)
    ensures IsPrefix(a, b) ==> IsPrefix(a, b + c)
    ensures IsPrefix(c, b) ==> IsPrefix(a + c, a + b)
  {
    if IsPrefix(a, b) {
      assert (b + c)[..|a|] == b[..|a|];
    }
    if IsPrefix(c, b) {
      assert (a + b)[..|a + c|] == a + b[..|c|];
    }
  }

  /** A leading part of a leading part is a leading part. */
  lemma PrefixTransitive<T>(a: seq<T>, b: seq<T>, c: seq<T>)
    requires IsPrefix(a, b) && IsPrefix(b, c)
    ensures IsPrefix(a, c)
  {
    assert c[..|a|] == c[..|b|][..|a|];
  }

  /** The elements of a leading part are those at the same places in the whole. */
  lemma PrefixAt<T>(a: seq<T>, b: seq<T>, i: nat)
    requires IsPrefix(a, b) && i < |a|
    ensures b[i] == a[i]
  {
    assert b[..|a|][i] == b[i];
  }

  /** The elements after a first part are those of the second part. */
  lemma AppendAt<T>(a: seq<T>, b: seq<T>, p: nat)
    requires p < |b|
    ensures |a| + p < |a + b| && (a + b)[|a| + p] == b[p]
  {
  }

  /** A sequence is its three parts cut at two places. */
  lemma CutTwice<T>(s: seq<T>, i: nat, j: nat)
    requires i <= j <= |s|
    ensures s == s[..i] + s[i..j] + s[j..]
  {
    assert s[..j] == s[..i] + s[i..j];
    assert s == s[..j] + s[j..];
  }

  /** The elements of a first part keep their places after more is appended. */
  lemma AppendBefore<T>(a: seq<T>, b: seq<T>, k: nat)
    requires k < |a|
    ensures k < |a + b| && (a + b)[k] == a[k]
  {
  }
}
