/**
 * The handful of Python `str` operations the core relies on: strip, lower,
 * upper, `in`, startswith, split and join. Case mapping is ASCII only;
 * whitespace is exactly the set of characters for which Python's
 * `str.isspace()` holds.
 */
module Text {

  import opened Wrappers

  /** Python's `str.isspace()` on one character. */
  predicate IsSpace(c: char)
  {
    ('\t' <= c <= '\r') || ('\U{1C}' <= c <= '\U{1F}') || c == ' ' || c == '\U{85}' || c == '\U{A0}'
    || c == '\U{1680}' || ('\U{2000}' <= c <= '\U{200A}') || c == '\U{2028}' || c == '\U{2029}'
    || c == '\U{202F}' || c == '\U{205F}' || c == '\U{3000}'
  }

  /** `s.lstrip()`: drops the leading whitespace and nothing else. */
  function TrimLeft(s: string): (r: string)
    ensures |r| <= |s|
    decreases |s|
  {
    if |s| > 0 && IsSpace(s[0]) then TrimLeft(s[1..]) else s
  }

  /** What `TrimLeft` keeps is a suffix of its argument that does not start with whitespace. */
  lemma {:induction false} TrimLeftSuffix(s: string)
    ensures TrimLeft(s) == s[|s| - |TrimLeft(s)|..]
    ensures TrimLeft(s) != [] ==> !IsSpace(TrimLeft(s)[0])
    decreases |s|
  {
    if |s| > 0 && IsSpace(s[0]) {
      TrimLeftSuffix(s[1..]);
    }
  }

  /** What `TrimLeft` drops is whitespace. */
  lemma {:induction false} TrimLeftDropsSpace(s: string)
    ensures forall k :: 0 <= k < |s| - |TrimLeft(s)| ==> IsSpace(s[k])
    decreases |s|
  {
    if |s| > 0 && IsSpace(s[0]) {
      TrimLeftDropsSpace(s[1..]);
      assert forall k :: 1 <= k < |s| - |TrimLeft(s)| ==> s[k] == s[1..][k - 1];
    }
  }

  /** `s.rstrip()`: drops the trailing whitespace and nothing else. */
  function TrimRight(s: string): (r: string)
    ensures |r| <= |s|
    decreases |s|
  {
    if |s| > 0 && IsSpace(s[|s| - 1]) then TrimRight(s[..|s| - 1]) else s
  }

  /** What `TrimRight` keeps is a prefix of its argument that does not end with whitespace. */
  lemma {:induction false} TrimRightPrefix(s: string)
    ensures TrimRight(s) == s[..|TrimRight(s)|]
    ensures TrimRight(s) != [] ==> !IsSpace(TrimRight(s)[|TrimRight(s)| - 1])
    decreases |s|
  {
    if |s| > 0 && IsSpace(s[|s| - 1]) {
      TrimRightPrefix(s[..|s| - 1]);
    }
  }

  /** What `TrimRight` drops is whitespace. */
  lemma {:induction false} TrimRightDropsSpace(s: string)
    ensures forall k :: |TrimRight(s)| <= k < |s| ==> IsSpace(s[k])
    decreases |s|
  {
    if |s| > 0 && IsSpace(s[|s| - 1]) {
      TrimRightDropsSpace(s[..|s| - 1]);
    }
  }

  /** `s.strip()`. */
  function Trim(s: string): (r: string)
    ensures |r| <= |s|
  {
    TrimRight(TrimLeft(s))
  }

  /** A stripped text neither starts nor ends with whitespace. */
  lemma TrimEnds(s: string)
    ensures Trim(s) != [] ==> !IsSpace(Trim(s)[0]) && !IsSpace(Trim(s)[|Trim(s)| - 1])
  {
    TrimLeftSuffix(s);
    TrimRightPrefix(TrimLeft(s));
  }

  /** Stripping twice strips nothing more. */
  lemma TrimIdempotent(s: string)
    ensures Trim(Trim(s)) == Trim(s)
  {
    var t := Trim(s);
    TrimEnds(s);
    assert TrimLeft(t) == t;
    assert TrimRight(t) == t;
  }

  /** A text without any whitespace is its own strip. */
  lemma TrimNoSpace(s: string)
    requires forall k :: 0 <= k < |s| ==> !IsSpace(s[k])
    ensures Trim(s) == s
  {
    assert TrimLeft(s) == s;
  }

  /** A text that neither starts nor ends with whitespace is its own strip. */
  lemma TrimFixed(s: string)
    requires |s| > 0 && !IsSpace(s[0]) && !IsSpace(s[|s| - 1])
    ensures Trim(s) == s
  {
    assert TrimLeft(s) == s;
  }

  function LowerChar(c: char): char
  {
    if 'A' <= c <= 'Z' then (c as int - 'A' as int + 'a' as int) as char else c
  }

  function UpperChar(c: char): char
  {
    if 'a' <= c <= 'z' then (c as int - 'a' as int + 'A' as int) as char else c
  }

  /** `s.lower()` (ASCII letters only). */
  function Lower(s: string): (r: string)
    ensures |r| == |s|
    decreases |s|
  {
    if |s| == 0 then "" else [LowerChar(s[0])] + Lower(s[1..])
  }

  /** `Lower` maps each character on its own. */
  lemma {:induction false} LowerAt(s: string, k: nat)
    requires k < |s|
    ensures Lower(s)[k] == LowerChar(s[k])
    decreases |s|
  {
    if k > 0 {
      LowerAt(s[1..], k - 1);
    }
  }

  /** `s.upper()` (ASCII letters only). */
  function Upper(s: string): (r: string)
    ensures |r| == |s|
    decreases |s|
  {
    if |s| == 0 then "" else [UpperChar(s[0])] + Upper(s[1..])
  }

  /** `Upper` maps each character on its own. */
  lemma {:induction false} UpperAt(s: string, k: nat)
    requires k < |s|
    ensures Upper(s)[k] == UpperChar(s[k])
    decreases |s|
  {
    if k > 0 {
      UpperAt(s[1..], k - 1);
    }
  }

  predicate StartsWith(s: string, prefix: string)
  {
    |prefix| <= |s| && s[..|prefix|] == prefix
  }

  /** `needle in s` for strings. */
  predicate Contains(s: string, needle: string)
    decreases |s|
  {
    StartsWith(s, needle) || (|s| > 0 && Contains(s[1..], needle))
  }

  /** `needle` occurs in `s` starting at offset k. */
  predicate OccursAt(s: string, needle: string, k: nat)
  {
    k + |needle| <= |s| && s[k..k + |needle|] == needle
  }

  /** `Contains` holds exactly when the needle occurs at some offset. */
  lemma {:induction false} ContainsAt(s: string, needle: string)
    ensures Contains(s, needle) <==> exists k: nat :: OccursAt(s, needle, k)
    decreases |s|
  {
    if |s| > 0 {
      ContainsAt(s[1..], needle);
      if StartsWith(s, needle) {
        assert OccursAt(s, needle, 0);
      }
      if Contains(s[1..], needle) {
        var k: nat :| OccursAt(s[1..], needle, k);
        assert s[k + 1..k + 1 + |needle|] == s[1..][k..k + |needle|];
        assert OccursAt(s, needle, k + 1);
      }
      if exists k: nat :: OccursAt(s, needle, k) {
        var k: nat :| OccursAt(s, needle, k);
        if k > 0 {
          assert s[1..][k - 1..k - 1 + |needle|] == s[k..k + |needle|];
          assert OccursAt(s[1..], needle, k - 1);
        } else {
          assert StartsWith(s, needle);
        }
      }
    } else if needle == [] {
      assert OccursAt(s, needle, 0);
    }
  }

  /** Python's `re.split('[...]', s)` / `s.split(c)`: cuts at every separator, keeping empty pieces. */
  function SplitAny(s: string, seps: set<char>): (r: seq<string>)
    ensures |r| >= 1
    decreases |s|
  {
    if |s| == 0 then [""]
    else
      var rest := SplitAny(s[1..], seps);
      if s[0] in seps then [""] + rest else [[s[0]] + rest[0]] + rest[1..]
  }

  function Split(s: string, sep: char): (r: seq<string>)
    ensures |r| >= 1
  {
    SplitAny(s, {sep})
  }

  /** The number of characters of `s` that belong to `cs`. */
  function CountIn(s: string, cs: set<char>): nat
    decreases |s|
  {
    if |s| == 0 then 0 else (if s[0] in cs then 1 else 0) + CountIn(s[1..], cs)
  }

  /** Splitting yields one piece more than there are separators, and no piece holds a separator. */
  lemma {:induction false} SplitAnyPieces(s: string, seps: set<char>)
    ensures |SplitAny(s, seps)| == CountIn(s, seps) + 1
    ensures forall p, c :: p in SplitAny(s, seps) && c in p ==> c !in seps
    decreases |s|
  {
    if |s| > 0 {
      SplitAnyPieces(s[1..], seps);
    }
  }

  /** A text with no separator in it is a single piece. */
  lemma {:induction false} SplitAnyNone(a: string, seps: set<char>)
    requires forall k :: 0 <= k < |a| ==> a[k] !in seps
    ensures SplitAny(a, seps) == [a]
    decreases |a|
  {
    if |a| > 0 {
      SplitAnyNone(a[1..], seps);
      assert [a[0]] + a[1..] == a;
    }
  }

  /** A text with no separator in it, then a separator: the text is the first piece. */
  lemma {:induction false} SplitAnyFirst(a: string, sep: char, b: string, seps: set<char>)
    requires sep in seps
    requires forall k :: 0 <= k < |a| ==> a[k] !in seps
    ensures SplitAny(a + [sep] + b, seps) == [a] + SplitAny(b, seps)
    decreases |a|
  {
    var s := a + [sep] + b;
    if |a| == 0 {
      assert s[1..] == b;
    } else {
      assert s[1..] == a[1..] + [sep] + b;
      SplitAnyFirst(a[1..], sep, b, seps);
      assert [a[0]] + a[1..] == a;
    }
  }

  /** `sep.join(parts)`. */
  function Join(parts: seq<string>, sep: string): string
    decreases |parts|
  {
    if |parts| == 0 then ""
    else if |parts| == 1 then parts[0]
    else parts[0] + sep + Join(parts[1..], sep)
  }

  /** Splitting what was joined on a separator that no part holds gives the parts back. */
  lemma {:induction false} SplitAnyJoin(parts: seq<string>, sep: char, seps: set<char>)
    requires |parts| >= 1 && sep in seps
    requires forall k, j :: 0 <= k < |parts| && 0 <= j < |parts[k]| ==> parts[k][j] !in seps
    ensures SplitAny(Join(parts, [sep]), seps) == parts
    decreases |parts|
  {
    if |parts| == 1 {
      SplitAnyNone(parts[0], seps);
    } else {
      SplitAnyFirst(parts[0], sep, Join(parts[1..], [sep]), seps);
      SplitAnyJoin(parts[1..], sep, seps);
      assert parts == [parts[0]] + parts[1..];
    }
  }

  /** A join starts with its first part and ends with its last one. */
  lemma {:induction false} JoinEnds(parts: seq<string>, sep: string)
    requires |parts| >= 1
    ensures var j, first, last := Join(parts, sep), parts[0], parts[|parts| - 1];
      && |first| <= |j| && j[..|first|] == first
      && |last| <= |j| && j[|j| - |last|..] == last
    decreases |parts|
  {
    if |parts| > 1 {
      JoinEnds(parts[1..], sep);
      var j, rest := Join(parts, sep), Join(parts[1..], sep);
      assert j == parts[0] + sep + rest;
      assert j[|j| - |rest|..] == rest;
    }
  }

  /** `s.replace(c, "")`. */
  function RemoveChar(s: string, c: char): (r: string)
    ensures c !in r && |r| <= |s|
    decreases |s|
  {
    if |s| == 0 then "" else (if s[0] == c then "" else [s[0]]) + RemoveChar(s[1..], c)
  }

  /** `s.replace(a, b)` for single characters. */
  function ReplaceChar(s: string, a: char, b: char): (r: string)
    ensures |r| == |s|
    ensures forall k :: 0 <= k < |s| ==> r[k] == (if s[k] == a then b else s[k])
  {
    seq(|s|, k requires 0 <= k < |s| => if s[k] == a then b else s[k])
  }

  /** The longest prefix of `s` without whitespace. */
  function Word(s: string): (r: string)
    ensures |r| <= |s| && r == s[..|r|]
    ensures forall k :: 0 <= k < |r| ==> !IsSpace(r[k])
    ensures |r| < |s| ==> IsSpace(s[|r|])
    decreases |s|
  {
    if |s| == 0 || IsSpace(s[0]) then "" else [s[0]] + Word(s[1..])
  }

  /** `s.split()[0]`: the first whitespace-separated token, None where `s.split()` is empty. */
  function FirstToken(s: string): (r: Option<string>)
  {
    var t := TrimLeft(s);
    if t == "" then None else Some(Word(t))
  }

  /**
   * The text after the last occurrence of `pat` in `s`, or all of `s` when `pat`
   * does not occur: `s.split(pat)[-1]` for a pattern that cannot overlap itself.
   */
  function AfterLast(s: string, pat: string): (r: string)
    requires |pat| > 0
    ensures |r| <= |s|
  {
    match LastIndexOf(s, pat, |s|)
    case None => s
    case Some(k) => s[k + |pat|..]
  }

  /** The largest k with k + |pat| <= bound at which `pat` occurs. */
  function LastIndexOf(s: string, pat: string, bound: nat): (r: Option<nat>)
    requires bound <= |s|
    ensures r.Some? ==> r.value + |pat| <= bound
    decreases bound
  {
    if bound < |pat| then None
    else if s[bound - |pat|..bound] == pat then Some(bound - |pat|)
    else LastIndexOf(s, pat, bound - 1)
  }

  /** `LastIndexOf` finds an occurrence, and none lies further right within the bound. */
  lemma {:induction false} LastIndexOfSpec(s: string, pat: string, bound: nat)
    requires bound <= |s|
    ensures LastIndexOf(s, pat, bound).Some? ==> OccursAt(s, pat, LastIndexOf(s, pat, bound).value)
    ensures LastIndexOf(s, pat, bound).Some? ==>
      forall k: nat :: LastIndexOf(s, pat, bound).value < k && k + |pat| <= bound ==> !OccursAt(s, pat, k)
    ensures LastIndexOf(s, pat, bound).None? ==> forall k: nat :: k + |pat| <= bound ==> !OccursAt(s, pat, k)
    decreases bound
  {
    if bound >= |pat| && s[bound - |pat|..bound] != pat {
      LastIndexOfSpec(s, pat, bound - 1);
    }
  }

  /** After the last occurrence of a one-character separator at k comes exactly the rest past k. */
  lemma AfterLastAt(s: string, c: char, k: nat)
    requires k < |s| && s[k] == c
    requires forall j :: k < j < |s| ==> s[j] != c
    ensures AfterLast(s, [c]) == s[k + 1..]
  {
    LastIndexOfSpec(s, [c], |s|);
    assert OccursAt(s, [c], k);
    var r := LastIndexOf(s, [c], |s|);
    assert r.Some?;
    assert OccursAt(s, [c], r.value);
    assert s[r.value] == s[r.value..r.value + 1][0];
    assert r.value == k;
  }

  /** What `AfterLast` returns is a suffix of its argument. */
  lemma AfterLastSuffix(s: string, pat: string)
    requires |pat| > 0
    ensures AfterLast(s, pat) == s[|s| - |AfterLast(s, pat)|..]
  {
  }
}
