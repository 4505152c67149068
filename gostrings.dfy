/**
 * The parts of Go's `strings` and `unicode` packages the server relies on:
 * `strings.TrimSpace`, which removes the white space `unicode.IsSpace`
 * recognises from both ends of a string.
 *
 * Strings are sequences of Unicode code points.
 */
module GoStrings {

  /** `unicode.IsSpace`: the Latin-1 spaces and the rest of Unicode's White_Space property. */
  predicate IsSpace(c: char) {
    c == '\t' || c == '\n' || c == '\U{B}' || c == '\U{C}' || c == '\r' || c == ' '
    || c == '\U{85}' || c == '\U{A0}' || c == '\U{1680}'
    || ('\U{2000}' <= c <= '\U{200A}')
    || c == '\U{2028}' || c == '\U{2029}' || c == '\U{202F}' || c == '\U{205F}' || c == '\U{3000}'
  }

  predicate AllSpace(s: string) {
    forall k | 0 <= k < |s| :: IsSpace(s[k])
  }

  /** Neither the first nor the last code point of `s` is white space. */
  predicate NoSpaceAtEnds(s: string) {
    s == [] || (!IsSpace(s[0]) && !IsSpace(s[|s| - 1]))
  }

  /** The first position at or after `i` that does not hold white space (`|s|` if there is none). */
  function SpaceEnd(s: string, i: nat): (j: nat)
    requires i <= |s|
    ensures i <= j <= |s|
    ensures j == |s| || !IsSpace(s[j])
    decreases |s| - i
  {
    if i < |s| && IsSpace(s[i]) then SpaceEnd(s, i + 1) else i
  }

  /** The position just after the last non-space before `j`, not going below `lo`. */
  function SpaceStart(s: string, lo: nat, j: nat): (k: nat)
    requires lo <= j <= |s|
    ensures lo <= k <= j
    ensures k == lo || !IsSpace(s[k - 1])
    decreases j
  {
    if lo < j && IsSpace(s[j - 1]) then SpaceStart(s, lo, j - 1) else j
  }

  /**
   * `strings.TrimSpace`: the contiguous middle of `s` that is left once all
   * leading and trailing white space is removed (see `TrimSpaceRemovesOnlySpace`).
   */
  function TrimSpace(s: string): (r: string)
    ensures NoSpaceAtEnds(r)
  {
    var start := SpaceEnd(s, 0);
    s[start..SpaceStart(s, start, |s|)]
  }

  /** `SpaceEnd` skips white space only, and stops at the first non-space. */
  lemma {:induction false} SpaceEndSkipsSpace(s: string, i: nat, m: nat)
    requires i <= m <= |s|
    ensures (forall k | i <= k < m :: IsSpace(s[k])) && (m == |s| || !IsSpace(s[m])) <==> SpaceEnd(s, i) == m
    decreases |s| - i
  {
    if i < |s| && IsSpace(s[i]) && i < m {
      SpaceEndSkipsSpace(s, i + 1, m);
    }
  }

  /** `SpaceStart` skips white space only, and stops after the last non-space. */
  lemma {:induction false} SpaceStartSkipsSpace(s: string, lo: nat, m: nat, j: nat)
    requires lo <= m <= j <= |s|
    ensures (forall k | m <= k < j :: IsSpace(s[k])) && (m == lo || !IsSpace(s[m - 1])) <==> SpaceStart(s, lo, j) == m
    decreases j
  {
    if lo < j && IsSpace(s[j - 1]) && m < j {
      SpaceStartSkipsSpace(s, lo, m, j - 1);
    }
  }

  /**
   * `TrimSpace(s)` is a slice of `s` with only white space on either side of
   * it (and, by its contract, none at its own ends).
   */
  lemma TrimSpaceRemovesOnlySpace(s: string)
    ensures exists a, b | 0 <= a <= b <= |s| :: TrimSpace(s) == s[a..b] && AllSpace(s[..a]) && AllSpace(s[b..])
  {
    var a := SpaceEnd(s, 0);
    var b := SpaceStart(s, a, |s|);
    SpaceEndSkipsSpace(s, 0, a);
    SpaceStartSkipsSpace(s, a, b, |s|);
    assert forall k | 0 <= k < |s[..a]| :: s[..a][k] == s[k];
    assert forall k | 0 <= k < |s[b..]| :: s[b..][k] == s[b + k];
  }

  /** Trimming removes exactly the white space around a string that has none at its ends. */
  lemma TrimSpacePadded(p: string, t: string, q: string)
    requires AllSpace(p) && AllSpace(q) && NoSpaceAtEnds(t)
    ensures TrimSpace(p + t + q) == t
  {
    var s := p + t + q;
    var a, b := |p|, |p| + |t|;
    assert forall k | 0 <= k < a :: s[k] == p[k];
    assert forall k | b <= k < |s| :: s[k] == q[k - b];
    if t == [] {
      SpaceEndSkipsSpace(s, 0, |s|);
      SpaceStartSkipsSpace(s, |s|, |s|, |s|);
    } else {
      assert s[a] == t[0] && s[b - 1] == t[|t| - 1];
      SpaceEndSkipsSpace(s, 0, a);
      SpaceStartSkipsSpace(s, a, b, |s|);
      assert s[a..b] == t;
    }
  }
}
