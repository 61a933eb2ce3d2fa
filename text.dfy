/** The JavaScript string primitives the application leans on, written out as
    functions over `seq<char>`: white space as `\s` and `trim` see it, ASCII case
    folding, `split` on one character and its inverse `join`, the `**` eraser
    shared by the back end and the front end, and decimal rendering of counts. */
module TextUtil {

  /** The code points JavaScript's `\s` matches and `String.prototype.trim`
      removes: ECMAScript WhiteSpace together with LineTerminator. */
  predicate IsSpace(c: char) {
    c == ' ' || c == '\t' || c == '\n' || c == '\r' || c == '\U{B}' || c == '\U{C}'
    || c == '\U{A0}' || c == '\U{1680}' || ('\U{2000}' <= c <= '\U{200A}')
    || c == '\U{2028}' || c == '\U{2029}' || c == '\U{202F}' || c == '\U{205F}'
    || c == '\U{3000}' || c == '\U{FEFF}'
  }

  /** `\d`: an ASCII decimal digit. */
  predicate IsDigit(c: char) {
    '0' <= c <= '9'
  }

  predicate AllSpace(s: string) {
    forall i | 0 <= i < |s| :: IsSpace(s[i])
  }

  /** `String.prototype.trim`: drop white space at the front, then at the back,
      one character at a time. */
  function Trim(s: string): string
    decreases |s|
  {
    if s != [] && IsSpace(s[0]) then Trim(s[1..])
    else if s != [] && IsSpace(s[|s| - 1]) then Trim(s[..|s| - 1])
    else s
  }

  /** The trimmed text is no longer than the text, starts and ends with a
      non-white-space character, and is empty exactly when the text is all
      white space. */
  lemma {:induction false} TrimEnds(s: string)
    ensures |Trim(s)| <= |s|
    ensures Trim(s) == [] <==> AllSpace(s)
    ensures Trim(s) != [] ==> !IsSpace(Trim(s)[0]) && !IsSpace(Trim(s)[|Trim(s)| - 1])
    decreases |s|
  {
    if s != [] && IsSpace(s[0]) {
      TrimEnds(s[1..]);
      assert AllSpace(s[1..]) ==> AllSpace(s) by {
        assert forall i | 1 <= i < |s| :: s[i] == s[1..][i - 1];
      }
    } else if s != [] && IsSpace(s[|s| - 1]) {
      TrimEnds(s[..|s| - 1]);
      assert AllSpace(s[..|s| - 1]) ==> AllSpace(s) by {
        assert forall i | 0 <= i < |s| - 1 :: s[i] == s[..|s| - 1][i];
      }
    }
  }

  /** Trimming twice is trimming once. */
  lemma TrimIdempotent(s: string)
    ensures Trim(Trim(s)) == Trim(s)
  {
    TrimEnds(s);
  }

  /** A text that neither starts nor ends with white space is its own trim. */
  lemma TrimUnchanged(s: string)
    requires s != [] && !IsSpace(s[0]) && !IsSpace(s[|s| - 1])
    ensures Trim(s) == s
  {
  }

  /** White space glued to the end of a text disappears when it is trimmed. */
  lemma {:induction false} TrimAppendSpace(s: string, w: string)
    requires AllSpace(w)
    ensures Trim(s + w) == Trim(s)
    decreases |s| + |w|
  {
    if s != [] && IsSpace(s[0]) {
      assert (s + w)[1..] == s[1..] + w;
      TrimAppendSpace(s[1..], w);
    } else if s == [] {
      assert s + w == w;
      TrimEnds(w);
      TrimEnds(s);
    } else if w != [] {
      var w' := w[..|w| - 1];
      assert (s + w)[..|s + w| - 1] == s + w';
      assert AllSpace(w') by { assert forall i | 0 <= i < |w'| :: w'[i] == w[i]; }
      TrimAppendSpace(s, w');
    } else {
      assert s + w == s;
    }
  }

  /** End of the run of white space that starts at `i`: what a greedy `\s*`
      consumes there. */
  function SpaceRunEnd(s: string, i: nat): (k: nat)
    requires i <= |s|
    ensures i <= k <= |s|
    ensures forall j | i <= j < k :: IsSpace(s[j])
    ensures k == |s| || !IsSpace(s[k])
    decreases |s| - i
  {
    if i < |s| && IsSpace(s[i]) then SpaceRunEnd(s, i + 1) else i
  }

  /** End of the run of digits that starts at `i`: what a greedy `\d+` takes. */
  function DigitRunEnd(s: string, i: nat): (k: nat)
    requires i <= |s|
    ensures i <= k <= |s|
    ensures forall j | i <= j < k :: IsDigit(s[j])
    ensures k == |s| || !IsDigit(s[k])
    decreases |s| - i
  {
    if i < |s| && IsDigit(s[i]) then DigitRunEnd(s, i + 1) else i
  }

  /** `s.startsWith(p)`. */
  predicate StartsWith(s: string, p: string) {
    |p| <= |s| && s[..|p|] == p
  }

  /** `s.endsWith(suffix)`. */
  predicate EndsWith(s: string, suffix: string) {
    |suffix| <= |s| && s[|s| - |suffix|..] == suffix
  }

  /** ASCII case folding: what `toLowerCase` does to the letters A to Z. */
  function LowerAscii(c: char): (d: char)
    ensures ('A' <= c <= 'Z') ==> 'a' <= d <= 'z' && d as int == c as int + 32
    ensures !('A' <= c <= 'Z') ==> d == c
  {
    if 'A' <= c <= 'Z' then (c as int + 32) as char else c
  }

  /** `s.toLowerCase().startsWith(p)` for a prefix `p` written in lower-case
      ASCII (every prefix the application tests is of that kind). */
  predicate LowerStartsWith(s: string, p: string) {
    |p| <= |s| && forall i | 0 <= i < |p| :: LowerAscii(s[i]) == p[i]
  }

  /** `/x/i` compared at position `i`: ASCII letters match either case. */
  predicate LowerMatchesAt(s: string, i: nat, p: string) {
    i + |p| <= |s| && forall k | 0 <= k < |p| :: LowerAscii(s[i + k]) == p[k]
  }

  /** Index of the first occurrence of `c` in `s`. */
  function IndexOf(s: string, c: char): (r: nat)
    ensures r <= |s|
    ensures r < |s| ==> s[r] == c
    ensures c !in s[..r]
  {
    if s == [] || s[0] == c then 0 else 1 + IndexOf(s[1..], c)
  }

  /** `parts.join(sep)`. */
  function Join(parts: seq<string>, sep: string): (r: string)
    ensures |parts| == 1 ==> r == parts[0]
  {
    if |parts| == 0 then ""
    else if |parts| == 1 then parts[0]
    else parts[0] + sep + Join(parts[1..], sep)
  }

  /** `s.split(c)` for a one-character separator: at least one piece, no piece
      contains the separator, and joining the pieces back gives `s`. */
  function SplitOn(s: string, c: char): (parts: seq<string>)
    ensures |parts| >= 1
    ensures forall k | 0 <= k < |parts| :: c !in parts[k]
    ensures Join(parts, [c]) == s
    decreases |s|
  {
    var i := IndexOf(s, c);
    if i == |s| then [s]
    else
      var rest := SplitOn(s[i + 1..], c);
      var parts := [s[..i]] + rest;
      assert parts[1..] == rest;
      assert Join(parts, [c]) == s[..i] + [c] + Join(rest, [c]);
      assert s == s[..i] + [c] + s[i + 1..];
      parts
  }

  /** The other half of the round trip: splitting a join of separator-free
      pieces gives the pieces back. */
  lemma {:induction false} SplitJoin(parts: seq<string>, c: char)
    requires |parts| >= 1
    requires forall k | 0 <= k < |parts| :: c !in parts[k]
    ensures SplitOn(Join(parts, [c]), c) == parts
    decreases |parts|
  {
    var s := Join(parts, [c]);
    if |parts| == 1 {
      assert IndexOf(s, c) == |s| by { IndexOfAbsent(s, c); }
    } else {
      var tail := Join(parts[1..], [c]);
      assert s == parts[0] + [c] + tail;
      IndexOfPrefix(parts[0], tail, c);
      assert s[..|parts[0]|] == parts[0];
      assert s[|parts[0]| + 1..] == tail;
      SplitJoin(parts[1..], c);
      assert parts == [parts[0]] + parts[1..];
    }
  }

  lemma IndexOfAbsent(s: string, c: char)
    requires c !in s
    ensures IndexOf(s, c) == |s|
  {
    assert forall j | 0 <= j < |s| :: s[j] != c;
  }

  lemma {:induction false} IndexOfPrefix(a: string, b: string, c: char)
    requires c !in a
    ensures IndexOf(a + [c] + b, c) == |a|
    decreases |a|
  {
    if a != [] {
      assert (a + [c] + b)[1..] == a[1..] + [c] + b;
      IndexOfPrefix(a[1..], b, c);
    }
  }

  /** `s.includes(p)`. */
  predicate Contains(s: string, p: string) {
    exists i | 0 <= i <= |s| - |p| :: OccursAt(s, p, i)
  }

  predicate OccursAt(s: string, p: string, i: int) {
    0 <= i && i + |p| <= |s| && s[i..i + |p|] == p
  }

  /** No two adjacent `*` characters. */
  predicate NoDoubleStar(s: string) {
    forall i | 0 <= i < |s| - 1 :: !(s[i] == '*' && s[i + 1] == '*')
  }

  /** `s.replace(/\*\*\/g, '')`: erase `**` pairs scanning left to right. */
  function RemoveDoubleStars(s: string): (r: string)
    ensures NoDoubleStar(r)
    ensures |r| <= |s|
    ensures forall c | c in r :: c in s
    ensures s != [] && s[0] != '*' ==> r != [] && r[0] == s[0]
    decreases |s|
  {
    if |s| >= 2 && s[0] == '*' && s[1] == '*' then RemoveDoubleStars(s[2..])
    else if s == [] then []
    else [s[0]] + RemoveDoubleStars(s[1..])
  }

  /** A text with no `**` is left alone, so erasing twice is erasing once. */
  lemma {:induction false} RemoveDoubleStarsFixed(s: string)
    requires NoDoubleStar(s)
    ensures RemoveDoubleStars(s) == s
    decreases |s|
  {
    if s != [] {
      assert NoDoubleStar(s[1..]) by {
        forall i | 0 <= i < |s[1..]| - 1 ensures !(s[1..][i] == '*' && s[1..][i + 1] == '*') {
          assert s[1..][i] == s[i + 1] && s[1..][i + 1] == s[i + 2];
        }
      }
      RemoveDoubleStarsFixed(s[1..]);
    }
  }

  lemma RemoveDoubleStarsIdempotent(s: string)
    ensures RemoveDoubleStars(RemoveDoubleStars(s)) == RemoveDoubleStars(s)
  {
    RemoveDoubleStarsFixed(RemoveDoubleStars(s));
  }

  function DigitChar(d: nat): (c: char)
    requires d < 10
    ensures IsDigit(c) && c as int - '0' as int == d
  {
    ('0' as int + d) as char
  }

  /** A template literal `${n}` for a count: its decimal digits. */
  function NatToDecimal(n: nat): (r: string)
    ensures |r| >= 1
    ensures forall i | 0 <= i < |r| :: IsDigit(r[i])
    ensures r[0] == '0' ==> n == 0
    decreases n
  {
    if n < 10 then [DigitChar(n)] else NatToDecimal(n / 10) + [DigitChar(n % 10)]
  }

  /** The value a string of decimal digits denotes. */
  function DecimalValue(s: string): nat
    requires forall i | 0 <= i < |s| :: IsDigit(s[i])
    decreases |s|
  {
    if s == [] then 0
    else
      assert IsDigit(s[|s| - 1]);
      10 * DecimalValue(s[..|s| - 1]) + (s[|s| - 1] as int - '0' as int)
  }

  /** Rendering a count and reading it back gives the count. */
  lemma {:induction false} DecimalRoundTrip(n: nat)
    ensures DecimalValue(NatToDecimal(n)) == n
    decreases n
  {
    if n >= 10 {
      DecimalRoundTrip(n / 10);
      var r := NatToDecimal(n);
      assert r[..|r| - 1] == NatToDecimal(n / 10);
    }
  }
}
