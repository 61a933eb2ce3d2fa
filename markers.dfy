/** The case-title marker as the front end and the Zephyr export see it: the
    regular expression `/Test Case\s+\d+[:]?/i`, written out as a predicate on a
    position, with `search` (first position) built on it. */
module Markers {
  import opened Wrappers
  import opened TextUtil

  /** The marker matches at `i`: "test case" in any ASCII case (the space is a
      literal space), one or more white-space characters, then a digit. A greedy
      `\s+` followed by `\d` succeeds exactly when the character after the whole
      white-space run is a digit; the optional colon never changes whether or
      where the marker matches. */
  predicate MarkerAt(s: string, i: nat) {
    LowerMatchesAt(s, i, "test case")
    && i + 9 < |s| && IsSpace(s[i + 9])
    && SpaceRunEnd(s, i + 9) < |s| && IsDigit(s[SpaceRunEnd(s, i + 9)])
  }

  /** `/…/i.test(s)`: the marker matches somewhere. */
  predicate HasMarker(s: string) {
    exists i: nat | i < |s| :: MarkerAt(s, i)
  }

  /** The first position at or after `from` where the marker matches. */
  function SearchFrom(s: string, from: nat): (r: Option<nat>)
    requires from <= |s|
    ensures r.None? ==> forall j: nat | from <= j < |s| :: !MarkerAt(s, j)
    ensures r.Some? ==> from <= r.value < |s| && MarkerAt(s, r.value)
    ensures r.Some? ==> forall j: nat | from <= j < r.value :: !MarkerAt(s, j)
    decreases |s| - from
  {
    if from == |s| then None
    else if MarkerAt(s, from) then Some(from)
    else
      var r := SearchFrom(s, from + 1);
      assert forall j: nat | from <= j <= from :: !MarkerAt(s, j);
      r
  }

  /** `s.search(/Test Case\s+\d+[:]?/i)`, with `None` for -1. */
  function Search(s: string): (r: Option<nat>)
    ensures r.None? <==> !HasMarker(s)
    ensures r.Some? ==> r.value < |s| && MarkerAt(s, r.value)
    ensures r.Some? ==> forall j: nat | j < r.value :: !MarkerAt(s, j)
  {
    SearchFrom(s, 0)
  }

  /** Whether a match depends only on the characters from its start onwards:
      cutting text off in front moves every marker, and creates none. */
  lemma MarkerAtSuffix(s: string, p: nat, i: nat)
    requires p <= |s| && i <= |s| - p
    ensures MarkerAt(s[p..], i) <==> MarkerAt(s, p + i)
  {
    if i + 9 < |s| - p {
      SpaceRunShift(s, p, i + 9);
    }
  }

  lemma {:induction false} SpaceRunShift(s: string, p: nat, i: nat)
    requires p <= |s| && i <= |s| - p
    ensures SpaceRunEnd(s[p..], i) + p == SpaceRunEnd(s, p + i)
    decreases |s| - p - i
  {
    if i < |s| - p && IsSpace(s[p + i]) {
      SpaceRunShift(s, p, i + 1);
    }
  }

  /** A match inside a prefix is a match in the whole text: cutting text off
      at the back creates no marker. */
  lemma MarkerAtPrefix(s: string, n: nat, j: nat)
    requires n <= |s| && MarkerAt(s[..n], j)
    ensures MarkerAt(s, j)
  {
    assert forall k | 0 <= k < n :: s[..n][k] == s[k];
    SpaceRunPrefix(s, n, j + 9);
  }

  lemma {:induction false} SpaceRunPrefix(s: string, n: nat, i: nat)
    requires i <= n <= |s| && SpaceRunEnd(s[..n], i) < n
    ensures SpaceRunEnd(s, i) == SpaceRunEnd(s[..n], i)
    decreases n - i
  {
    if IsSpace(s[i]) {
      assert s[..n][i] == s[i];
      SpaceRunPrefix(s, n, i + 1);
    } else {
      assert s[..n][i] == s[i];
    }
  }

  /** A match survives cutting the text anywhere after its digit. */
  lemma MarkerAtTruncate(s: string, n: nat, i: nat)
    requires MarkerAt(s, i) && SpaceRunEnd(s, i + 9) < n <= |s|
    ensures MarkerAt(s[..n], i)
  {
    assert forall k | 0 <= k < n :: s[..n][k] == s[k];
    SpaceRunTruncate(s, n, i + 9);
  }

  lemma {:induction false} SpaceRunTruncate(s: string, n: nat, i: nat)
    requires i <= |s| && SpaceRunEnd(s, i) < n <= |s|
    ensures i <= n && SpaceRunEnd(s[..n], i) == SpaceRunEnd(s, i)
    decreases n - i
  {
    assert s[..n][i] == s[i];
    if IsSpace(s[i]) {
      SpaceRunTruncate(s, n, i + 1);
    }
  }

  /** Matches do not overlap: none starts inside another, up to its digit
      ("test case" has no proper border, and white space and digits are not
      't'). */
  lemma NoMarkerInside(s: string, i: nat, j: nat)
    requires MarkerAt(s, i) && i < j <= SpaceRunEnd(s, i + 9)
    ensures !MarkerAt(s, j)
  {
    var p := "test case";
    if j < i + 9 {
      var k := if j == i + 3 then 1 else 0;
      assert LowerAscii(s[j + k]) == p[j - i + k];
      assert p[j - i + k] != p[k];
    } else {
      assert IsSpace(s[j]) || IsDigit(s[j]);
      assert LowerAscii(s[j]) != p[0];
    }
  }
}
