/**
 * Sequence combinators the dashboard pages use on their fetched arrays:
 * `filter`, `find`, `slice(0, n)`, and the JavaScript notion of "absent"
 * (`undefined` / `null`) as an Option.
 */
module Seqs {

  /** A value that may be absent: `undefined` or `null` in the pages. */
  datatype Option<+T> = None | Some(value: T)

  /** The elements of `s` that satisfy `p`, in their original order (`Array.prototype.filter`). */
  function Filter<T>(s: seq<T>, p: T -> bool): (r: seq<T>)
    ensures |r| <= |s|
    ensures forall i :: 0 <= i < |r| ==> r[i] in s && p(r[i])
    ensures forall i :: 0 <= i < |s| && p(s[i]) ==> s[i] in r
  {
    if s == [] then []
    else
      (if p(s[0]) then [s[0]] else []) + Filter(s[1..], p)
  }

  /** `a` is obtained from `b` by deleting elements, keeping the order of the rest. */
  ghost predicate IsSubsequence<T>(a: seq<T>, b: seq<T>)
    decreases |b|
  {
    a == [] || (b != [] && ((a[0] == b[0] && IsSubsequence(a[1..], b[1..])) || IsSubsequence(a, b[1..])))
  }

  /** A filter keeps the relative order of what it keeps. */
  lemma {:induction false} FilterIsSubsequence<T>(s: seq<T>, p: T -> bool)
    ensures IsSubsequence(Filter(s, p), s)
  {
    if s != [] {
      FilterIsSubsequence(s[1..], p);
      var r := Filter(s, p);
      if p(s[0]) {
        assert r[0] == s[0] && r[1..] == Filter(s[1..], p);
      } else {
        assert r == Filter(s[1..], p);
      }
    }
  }

  /** A filter whose predicate holds everywhere returns its input unchanged. */
  lemma {:induction false} FilterKeepsAll<T>(s: seq<T>, p: T -> bool)
    requires forall i :: 0 <= i < |s| ==> p(s[i])
    ensures Filter(s, p) == s
  {
    if s != [] {
      FilterKeepsAll(s[1..], p);
    }
  }

  /** A filter whose predicate holds nowhere returns nothing. */
  lemma {:induction false} FilterKeepsNone<T>(s: seq<T>, p: T -> bool)
    requires forall i :: 0 <= i < |s| ==> !p(s[i])
    ensures Filter(s, p) == []
  {
    if s != [] {
      FilterKeepsNone(s[1..], p);
    }
  }

  /** The multiset of a filter is the part of the input's multiset that satisfies the predicate. */
  lemma {:induction false} FilterMultiset<T>(s: seq<T>, p: T -> bool, x: T)
    ensures multiset(Filter(s, p))[x] == if p(x) then multiset(s)[x] else 0
  {
    if s != [] {
      FilterMultiset(s[1..], p, x);
      assert s == [s[0]] + s[1..];
    }
  }

  /**
   * The first element satisfying `p` (`Array.prototype.find`); None when there
   * is none. It is the head of the corresponding filter.
   */
  function Find<T>(s: seq<T>, p: T -> bool): (r: Option<T>)
    ensures r.None? <==> forall i :: 0 <= i < |s| ==> !p(s[i])
    ensures r.Some? <==> Filter(s, p) != []
    ensures r.Some? ==> r.value in s && p(r.value) && r.value == Filter(s, p)[0]
  {
    if s == [] then None
    else if p(s[0]) then Some(s[0])
    else Find(s[1..], p)
  }

  /** `find` returns the element at the first index that satisfies the predicate. */
  lemma {:induction false} FindIsFirst<T>(s: seq<T>, p: T -> bool)
    ensures Find(s, p).Some? ==>
      exists i :: 0 <= i < |s| && s[i] == Find(s, p).value && p(s[i]) && forall j :: 0 <= j < i ==> !p(s[j])
  {
    if s != [] && !p(s[0]) {
      FindIsFirst(s[1..], p);
      if Find(s, p).Some? {
        var i :| 0 <= i < |s[1..]| && s[1..][i] == Find(s, p).value && p(s[1..][i])
                 && forall j :: 0 <= j < i ==> !p(s[1..][j]);
        assert s[i + 1] == s[1..][i];
        forall j | 0 <= j < i + 1 ensures !p(s[j]) {
          if j > 0 { assert s[j] == s[1..][j - 1]; }
        }
      }
    }
  }

  /** The first `n` elements of `s`, or all of it when it is shorter (`slice(0, n)`). */
  function Take<T>(s: seq<T>, n: nat): (r: seq<T>)
    ensures |r| <= n && |r| <= |s|
    ensures |r| == n || |r| == |s|
    ensures forall i :: 0 <= i < |r| ==> r[i] == s[i]
  {
    if |s| <= n then s else s[..n]
  }

  /**
   * Visit `s` in order and push `f(x)`'s value for every `x` where it is
   * present: the `forEach` + `push` loop of a page that skips some elements.
   */
  function FilterMap<A, B>(s: seq<A>, f: A -> Option<B>): seq<B>
  {
    if s == [] then []
    else
      var init := FilterMap(s[..|s| - 1], f);
      match f(s[|s| - 1])
      case Some(y) => init + [y]
      case None => init
  }

  /** Every pushed value comes from some element, and no more are pushed than visited. */
  lemma {:induction false} FilterMapSound<A, B>(s: seq<A>, f: A -> Option<B>)
    ensures |FilterMap(s, f)| <= |s|
    ensures forall k :: 0 <= k < |FilterMap(s, f)| ==>
              exists j :: 0 <= j < |s| && f(s[j]) == Some(FilterMap(s, f)[k])
  {
    if s != [] {
      var n := |s| - 1;
      FilterMapSound(s[..n], f);
      var r := FilterMap(s, f);
      var r0 := FilterMap(s[..n], f);
      forall k | 0 <= k < |r| ensures exists j :: 0 <= j < |s| && f(s[j]) == Some(r[k]) {
        if k < |r0| {
          assert r[k] == r0[k];
          var j :| 0 <= j < n && f(s[..n][j]) == Some(r0[k]);
          assert s[j] == s[..n][j];
        } else {
          assert f(s[n]) == Some(r[k]);
        }
      }
    }
  }

  /** Every element where `f` has a value gets that value pushed. */
  lemma {:induction false} FilterMapCovers<A, B>(s: seq<A>, f: A -> Option<B>)
    ensures forall i :: 0 <= i < |s| && f(s[i]).Some? ==> f(s[i]).value in FilterMap(s, f)
  {
    if s != [] {
      var n := |s| - 1;
      FilterMapCovers(s[..n], f);
      var r := FilterMap(s, f);
      var r0 := FilterMap(s[..n], f);
      assert forall y :: y in r0 ==> y in r;
      forall i | 0 <= i < |s| && f(s[i]).Some? ensures f(s[i]).value in r {
        if i < n {
          assert s[i] == s[..n][i];
        }
      }
    }
  }
}
