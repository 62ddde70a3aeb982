/** The Python `str` operations the core relies on: `strip`, `find`,
    `split`, `join`, `replace` and slicing, on Unicode strings. */
module Text {

  /** The characters for which Python's `str.isspace` holds: those whose
      bidirectional class is WS, B or S, or whose category is Zs. */
  const Whitespace: set<char> := {
    '\t', '\n', '\U{0b}', '\U{0c}', '\r', '\U{1c}', '\U{1d}', '\U{1e}', '\U{1f}',
    ' ', '\U{85}', '\U{a0}', '\U{1680}',
    '\U{2000}', '\U{2001}', '\U{2002}', '\U{2003}', '\U{2004}', '\U{2005}',
    '\U{2006}', '\U{2007}', '\U{2008}', '\U{2009}', '\U{200a}',
    '\U{2028}', '\U{2029}', '\U{202f}', '\U{205f}', '\U{3000}'
  }

  predicate IsSpace(c: char) {
    c in Whitespace
  }

  /** Every character of `s` is whitespace (vacuously so for ""). */
  predicate AllSpace(s: string) {
    forall i :: 0 <= i < |s| ==> IsSpace(s[i])
  }

  /** The index of the first non-whitespace character of `s` at or after
      `i`, or `|s|` when there is none. */
  function SkipSpace(s: string, i: nat): (j: nat)
    requires i <= |s|
    ensures i <= j <= |s|
    ensures forall k :: i <= k < j ==> IsSpace(s[k])
    ensures j < |s| ==> !IsSpace(s[j])
    decreases |s| - i
  {
    if i < |s| && IsSpace(s[i]) then SkipSpace(s, i + 1) else i
  }

  /** Walking back from `j` towards `lo`: the index just after the last
      non-whitespace character of `s[lo..j]`, or `lo` when there is none. */
  function SkipSpaceBack(s: string, lo: nat, j: nat): (e: nat)
    requires lo <= j <= |s|
    ensures lo <= e <= j
    ensures forall k :: e <= k < j ==> IsSpace(s[k])
    ensures e > lo ==> !IsSpace(s[e - 1])
    decreases j
  {
    if j > lo && IsSpace(s[j - 1]) then SkipSpaceBack(s, lo, j - 1) else j
  }

  /** `s` has no whitespace at either end. */
  predicate IsStripped(s: string) {
    s == "" || (!IsSpace(s[0]) && !IsSpace(s[|s| - 1]))
  }

  /** `s.strip()`. The result is empty exactly when `s` is all whitespace,
      and otherwise starts and ends with a non-whitespace character. */
  function Strip(s: string): (r: string)
    ensures |r| <= |s|
    ensures r == "" <==> AllSpace(s)
    ensures IsStripped(r)
  {
    var i := SkipSpace(s, 0);
    var e := SkipSpaceBack(s, i, |s|);
    assert e == i ==> i == |s|;
    assert AllSpace(s) ==> i == |s|;
    s[i..e]
  }

  /** `SkipSpace` stops at the first non-whitespace character. */
  lemma {:induction false} SkipSpaceFinds(s: string, i: nat, m: nat)
    requires i <= m < |s| && !IsSpace(s[m])
    requires forall k :: i <= k < m ==> IsSpace(s[k])
    ensures SkipSpace(s, i) == m
    decreases m - i
  {
    if i < m { SkipSpaceFinds(s, i + 1, m); }
  }

  /** `SkipSpaceBack` stops just after the last non-whitespace character. */
  lemma {:induction false} SkipSpaceBackFinds(s: string, lo: nat, j: nat, m: nat)
    requires lo < m <= j <= |s| && !IsSpace(s[m - 1])
    requires forall k :: m <= k < j ==> IsSpace(s[k])
    ensures SkipSpaceBack(s, lo, j) == m
    decreases j - m
  {
    if m < j { SkipSpaceBackFinds(s, lo, j - 1, m); }
  }

  /** Whitespace at the ends is exactly what `strip` removes: a stripped
      string surrounded by whitespace on both sides strips back to itself. */
  lemma StripSurrounded(pre: string, core: string, post: string)
    requires AllSpace(pre) && AllSpace(post) && IsStripped(core)
    ensures Strip(pre + core + post) == core
  {
    var s := pre + core + post;
    if core == "" {
      forall k | 0 <= k < |s| ensures IsSpace(s[k]) {
        if k < |pre| { assert s[k] == pre[k]; } else { assert s[k] == post[k - |pre|]; }
      }
    } else {
      assert s[|pre|] == core[0];
      assert s[|pre| + |core| - 1] == core[|core| - 1];
      forall k | 0 <= k < |pre| ensures IsSpace(s[k]) { assert s[k] == pre[k]; }
      forall k | |pre| + |core| <= k < |s| ensures IsSpace(s[k]) {
        assert s[k] == post[k - |pre| - |core|];
      }
      SkipSpaceFinds(s, 0, |pre|);
      SkipSpaceBackFinds(s, |pre|, |s|, |pre| + |core|);
      assert s[|pre|..|pre| + |core|] == core;
    }
  }

  /** What `strip` keeps is a middle slice of `s`, with only whitespace
      cut off before and after it. */
  lemma StripIsMiddle(s: string)
    ensures var a := SkipSpace(s, 0);
            var r := Strip(s);
            && a + |r| <= |s| && r == s[a..a + |r|]
            && AllSpace(s[..a]) && AllSpace(s[a + |r|..])
  {
    var a := SkipSpace(s, 0);
    var e := SkipSpaceBack(s, a, |s|);
    assert Strip(s) == s[a..e];
    forall k | 0 <= k < a ensures IsSpace(s[..a][k]) { assert s[..a][k] == s[k]; }
    forall k | 0 <= k < |s| - e ensures IsSpace(s[e..][k]) { assert s[e..][k] == s[e + k]; }
  }

  /** `strip` is idempotent. */
  lemma StripIdempotent(s: string)
    ensures Strip(Strip(s)) == Strip(s)
  {
    var r := Strip(s);
    assert "" + r + "" == r;
    StripSurrounded("", r, "");
  }

  /** `s[:n]`: the first `min(n, |s|)` characters of `s`. */
  function Prefix(s: string, n: nat): (r: string)
    ensures |r| == if |s| <= n then |s| else n
    ensures r == s[..|r|]
  {
    if |s| <= n then s else s[..n]
  }

  /** `"".join(parts)`. */
  function Concat(parts: seq<string>): string
  {
    if parts == [] then "" else parts[0] + Concat(parts[1..])
  }

  /** `pat` occurs in `s` starting at index `i`. */
  predicate OccursAt(s: string, pat: string, i: nat) {
    i + |pat| <= |s| && s[i..i + |pat|] == pat
  }

  /** `pat in s`. */
  predicate Contains(s: string, pat: string) {
    exists i: nat | i <= |s| :: OccursAt(s, pat, i)
  }

  /** `s.find(pat, i)`: the first index at or after `i` where `pat`
      occurs, or -1. */
  function FindFrom(s: string, pat: string, i: nat): (r: int)
    requires pat != "" && i <= |s|
    ensures r == -1 || (i <= r && OccursAt(s, pat, r))
    ensures forall j: nat :: i <= j && (r == -1 || j < r) ==> !OccursAt(s, pat, j)
    decreases |s| - i
  {
    if |s| - i < |pat| then -1
    else if OccursAt(s, pat, i) then i
    else FindFrom(s, pat, i + 1)
  }

  /** `s.find(pat)`: the index of the first occurrence of `pat`, or -1
      exactly when there is none. */
  function Find(s: string, pat: string): (r: int)
    requires pat != ""
    ensures -1 <= r <= |s|
    ensures r >= 0 ==> OccursAt(s, pat, r)
    ensures forall j: nat :: (r == -1 || j < r) ==> !OccursAt(s, pat, j)
    ensures r == -1 <==> !Contains(s, pat)
  {
    FindFrom(s, pat, 0)
  }

  /** `s[i:].replace(pat, rep)` for a non-empty `pat`: scanning left to
      right from `i`, every non-overlapping occurrence of `pat` is
      replaced by `rep`. */
  function ReplaceFrom(s: string, pat: string, rep: string, i: nat): string
    requires pat != "" && i <= |s|
    decreases |s| - i
  {
    if |s| - i < |pat| then s[i..]
    else if OccursAt(s, pat, i) then rep + ReplaceFrom(s, pat, rep, i + |pat|)
    else [s[i]] + ReplaceFrom(s, pat, rep, i + 1)
  }

  /** `s.replace(pat, rep)` for a non-empty `pat`. */
  function ReplaceAll(s: string, pat: string, rep: string): string
    requires pat != ""
  {
    ReplaceFrom(s, pat, rep, 0)
  }

  /** `s[i:].split(sep)` for a non-empty `sep`: the pieces between the
      occurrences found by successive `find` calls. */
  function SplitFrom(s: string, sep: string, i: nat): (r: seq<string>)
    requires sep != "" && i <= |s|
    ensures |r| >= 1
    decreases |s| - i
  {
    var k := FindFrom(s, sep, i);
    if k < 0 then [s[i..]] else [s[i..k]] + SplitFrom(s, sep, k + |sep|)
  }

  /** `s.split(sep)` for a non-empty `sep`. */
  function Split(s: string, sep: string): seq<string>
    requires sep != ""
  {
    SplitFrom(s, sep, 0)
  }

  /** `sep.join(parts)`. */
  function Join(parts: seq<string>, sep: string): string {
    if parts == [] then ""
    else if |parts| == 1 then parts[0]
    else parts[0] + sep + Join(parts[1..], sep)
  }

  /** With no occurrence of `pat` from `i` on, `replace` copies the rest. */
  lemma {:induction false} ReplaceNone(s: string, pat: string, rep: string, i: nat)
    requires pat != "" && i <= |s|
    requires forall j: nat :: i <= j ==> !OccursAt(s, pat, j)
    ensures ReplaceFrom(s, pat, rep, i) == s[i..]
    decreases |s| - i
  {
    if |s| - i >= |pat| {
      ReplaceNone(s, pat, rep, i + 1);
      assert [s[i]] + s[i + 1..] == s[i..];
    }
  }

  /** Up to the first occurrence at `k`, `replace` copies; it then writes
      `rep` and carries on after the occurrence. */
  lemma {:induction false} ReplaceBefore(s: string, pat: string, rep: string, i: nat, k: nat)
    requires pat != "" && i <= k && OccursAt(s, pat, k)
    requires forall j: nat :: i <= j < k ==> !OccursAt(s, pat, j)
    ensures ReplaceFrom(s, pat, rep, i) == s[i..k] + rep + ReplaceFrom(s, pat, rep, k + |pat|)
    decreases k - i
  {
    if i == k {
      ReplaceHit(s, pat, rep, i);
    } else {
      ReplaceMiss(s, pat, rep, i);
      ReplaceBefore(s, pat, rep, i + 1, k);
      ConsSlice(s, i, k, rep, ReplaceFrom(s, pat, rep, k + |pat|));
    }
  }

  /** One step of `replace` over an occurrence. */
  lemma ReplaceHit(s: string, pat: string, rep: string, i: nat)
    requires pat != "" && OccursAt(s, pat, i)
    ensures ReplaceFrom(s, pat, rep, i) == s[i..i] + rep + ReplaceFrom(s, pat, rep, i + |pat|)
  {
    assert s[i..i] == "";
  }

  /** One step of `replace` over a character that starts no occurrence. */
  lemma ReplaceMiss(s: string, pat: string, rep: string, i: nat)
    requires pat != "" && i < |s| && !OccursAt(s, pat, i)
    ensures ReplaceFrom(s, pat, rep, i) == [s[i]] + ReplaceFrom(s, pat, rep, i + 1)
  {
  }

  /** Putting a character back in front of the slice that follows it. */
  lemma ConsSlice(s: string, i: nat, k: nat, u: string, t: string)
    requires i < k <= |s|
    ensures [s[i]] + (s[i + 1..k] + u + t) == s[i..k] + u + t
  {
    assert [s[i]] + s[i + 1..k] == s[i..k];
  }

  /** `replace` copies everything before the first occurrence, replaces
      that occurrence and carries on after it. */
  lemma ReplaceAtFirst(s: string, pat: string, rep: string)
    requires pat != "" && Find(s, pat) >= 0
    ensures ReplaceAll(s, pat, rep)
            == s[..Find(s, pat)] + rep + ReplaceFrom(s, pat, rep, Find(s, pat) + |pat|)
  {
    ReplaceBefore(s, pat, rep, 0, Find(s, pat));
  }

  /** A pattern that does not occur leaves the string unchanged. */
  lemma ReplaceAbsent(s: string, pat: string, rep: string)
    requires pat != "" && !Contains(s, pat)
    ensures ReplaceAll(s, pat, rep) == s
  {
    ReplaceNone(s, pat, rep, 0);
  }

  /** Python's identity `s.replace(p, r) == r.join(s.split(p))`: `replace`
      agrees with the independent definition by `split` and `join`. */
  lemma ReplaceIsJoinOfSplit(s: string, pat: string, rep: string)
    requires pat != ""
    ensures ReplaceAll(s, pat, rep) == Join(Split(s, pat), rep)
  {
    ReplaceFromIsJoin(s, pat, rep, 0);
  }

  /** The same identity for the scan from `i`. */
  lemma {:induction false} ReplaceFromIsJoin(s: string, pat: string, rep: string, i: nat)
    requires pat != "" && i <= |s|
    ensures ReplaceFrom(s, pat, rep, i) == Join(SplitFrom(s, pat, i), rep)
    decreases |s| - i
  {
    var k := FindFrom(s, pat, i);
    if k < 0 {
      ReplaceNone(s, pat, rep, i);
    } else {
      ReplaceBefore(s, pat, rep, i, k);
      ReplaceFromIsJoin(s, pat, rep, k + |pat|);
      var rest := SplitFrom(s, pat, k + |pat|);
      assert SplitFrom(s, pat, i) == [s[i..k]] + rest;
      assert ([s[i..k]] + rest)[1..] == rest;
    }
  }

  /** Replacing a pattern by itself is the identity. */
  lemma ReplaceBySelf(s: string, pat: string)
    requires pat != ""
    ensures ReplaceAll(s, pat, pat) == s
  {
    ReplaceFromBySelf(s, pat, 0);
  }

  /** The same for the scan from `i`. */
  lemma {:induction false} ReplaceFromBySelf(s: string, pat: string, i: nat)
    requires pat != "" && i <= |s|
    ensures ReplaceFrom(s, pat, pat, i) == s[i..]
    decreases |s| - i
  {
    if |s| - i < |pat| {
    } else if OccursAt(s, pat, i) {
      ReplaceFromBySelf(s, pat, i + |pat|);
      assert s[i..i + |pat|] + s[i + |pat|..] == s[i..];
    } else {
      ReplaceFromBySelf(s, pat, i + 1);
      assert [s[i]] + s[i + 1..] == s[i..];
    }
  }
}
