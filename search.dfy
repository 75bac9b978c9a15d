/**
 * The two scans the sheet reader is built from, the first position of a
 * range whose element satisfies a test and the last one, the
 * element-wise map of a sequence, and the values of the results that are
 * present.
 */
module Search {

  import opened Wrappers

  /** The first k in lo .. hi-1 with p(s[k]). */
  function FirstWhere<T>(s: seq<T>, p: T -> bool, lo: nat, hi: int): (r: Option<nat>)
    requires hi <= |s|
    ensures r.Some? ==> lo <= r.value < hi && p(s[r.value])
    decreases hi - lo
  {
    if lo >= hi then None
    else if p(s[lo]) then Some(lo)
    else FirstWhere(s, p, lo + 1, hi)
  }

  /** `FirstWhere` finds the first satisfying position of the range, and None only when there is none. */
  lemma {:induction false} FirstWhereSpec<T>(s: seq<T>, p: T -> bool, lo: nat, hi: int)
    requires hi <= |s|
    ensures var r := FirstWhere(s, p, lo, hi);
      (r.Some? ==> lo <= r.value < hi && p(s[r.value]) && forall k :: lo <= k < r.value ==> !p(s[k]))
      && (r.None? ==> forall k :: lo <= k < hi ==> !p(s[k]))
    decreases hi - lo
  {
    if lo < hi && !p(s[lo]) {
      FirstWhereSpec(s, p, lo + 1, hi);
    }
  }

  /** The last k in lo .. hi-1 with p(s[k]). */
  function LastWhere<T>(s: seq<T>, p: T -> bool, lo: nat, hi: int): (r: Option<nat>)
    requires hi <= |s|
    ensures r.Some? ==> lo <= r.value < hi && p(s[r.value])
    decreases hi - lo
  {
    if hi <= lo then None
    else if p(s[hi - 1]) then Some(hi - 1)
    else LastWhere(s, p, lo, hi - 1)
  }

  /** `LastWhere` finds the last satisfying position of the range, and None only when there is none. */
  lemma {:induction false} LastWhereSpec<T>(s: seq<T>, p: T -> bool, lo: nat, hi: int)
    requires hi <= |s|
    ensures var r := LastWhere(s, p, lo, hi);
      (r.Some? ==> lo <= r.value < hi && p(s[r.value]) && forall k :: r.value < k < hi ==> !p(s[k]))
      && (r.None? ==> forall k :: lo <= k < hi ==> !p(s[k]))
    decreases hi - lo
  {
    if lo < hi && !p(s[hi - 1]) {
      LastWhereSpec(s, p, lo, hi - 1);
    }
  }

  /** `[f(x) for x in s]`. */
  function Mapped<T, U>(s: seq<T>, f: T -> U): (r: seq<U>)
    ensures |r| == |s|
    decreases |s|
  {
    if |s| == 0 then [] else Mapped(s[..|s| - 1], f) + [f(s[|s| - 1])]
  }

  /** Element k of the mapped sequence is f of element k. */
  lemma {:induction false} MappedAt<T, U>(s: seq<T>, f: T -> U, k: nat)
    requires k < |s|
    ensures Mapped(s, f)[k] == f(s[k])
    decreases |s|
  {
    if k < |s| - 1 {
      MappedAt(s[..|s| - 1], f, k);
    }
  }

  /** Mapping a prefix gives the prefix of the mapped sequence. */
  lemma {:induction false} MappedPrefix<T, U>(s: seq<T>, f: T -> U, n: nat)
    requires n <= |s|
    ensures Mapped(s[..n], f) == Mapped(s, f)[..n]
    decreases |s|
  {
    if n < |s| {
      MappedPrefix(s[..|s| - 1], f, n);
      assert s[..|s| - 1][..n] == s[..n];
    } else {
      assert s[..n] == s;
    }
  }

  /** The values of the present results, in order: what a loop keeps when it drops every None. */
  function Present<T>(rs: seq<Option<T>>): seq<T>
    decreases |rs|
  {
    if |rs| == 0 then [] else (if rs[0].Some? then [rs[0].value] else []) + Present(rs[1..])
  }

  /** One more result adds its value at the end, if it has one. */
  lemma {:induction false} PresentAppend<T>(rs: seq<Option<T>>, r: Option<T>)
    ensures Present(rs + [r]) == Present(rs) + (if r.Some? then [r.value] else [])
    decreases |rs|
  {
    if |rs| == 0 {
      assert rs + [r] == [r];
    } else {
      assert (rs + [r])[1..] == rs[1..] + [r];
      PresentAppend(rs[1..], r);
    }
  }

  /** A value is kept exactly when some result carries it. */
  lemma {:induction false} PresentMembers<T>(rs: seq<Option<T>>, x: T)
    ensures x in Present(rs) <==> Some(x) in rs
    decreases |rs|
  {
    if |rs| > 0 {
      PresentMembers(rs[1..], x);
      assert rs == [rs[0]] + rs[1..];
    }
  }

  /** When every result is present, the values are the results' values one for one. */
  lemma {:induction false} PresentAll<T>(rs: seq<Option<T>>, xs: seq<T>)
    requires |rs| == |xs|
    requires forall k :: 0 <= k < |rs| ==> rs[k] == Some(xs[k])
    ensures Present(rs) == xs
    decreases |rs|
  {
    if |rs| > 0 {
      PresentAll(rs[1..], xs[1..]);
      assert xs == [xs[0]] + xs[1..];
    }
  }
}
