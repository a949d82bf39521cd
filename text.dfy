/**
 * The three string operations the game's client code relies on:
 * `String.prototype.trim`, `String.prototype.replace` with a string pattern
 * (first occurrence only) and `replace(/:\d+$/, …)` (a trailing port).
 */
module Text {

  /** ECMAScript WhiteSpace and LineTerminator code points: what `trim` removes. */
  predicate IsSpace(c: char) {
    || c == '\t' || c == '\n' || c == '\U{000B}' || c == '\U{000C}' || c == '\r'
    || c == ' ' || c == '\U{00A0}' || c == '\U{1680}' || ('\U{2000}' <= c <= '\U{200A}')
    || c == '\U{2028}' || c == '\U{2029}' || c == '\U{202F}' || c == '\U{205F}'
    || c == '\U{3000}' || c == '\U{FEFF}'
  }

  /** Every character of `s` in positions `lo` up to `hi` is white space. */
  predicate SpaceIn(s: string, lo: int, hi: int) {
    forall i :: lo <= i < hi && 0 <= i < |s| ==> IsSpace(s[i])
  }

  predicate AllSpace(s: string) {
    SpaceIn(s, 0, |s|)
  }

  /** Drops the leading white space of `s`. */
  function TrimStart(s: string): (r: string)
    ensures |r| <= |s| && r == s[|s| - |r|..]
    ensures SpaceIn(s, 0, |s| - |r|)
    ensures r == [] || !IsSpace(r[0])
  {
    if s == [] || !IsSpace(s[0]) then s else TrimStart(s[1..])
  }

  /** Drops the trailing white space of `s`. */
  function TrimEnd(s: string): (r: string)
    ensures |r| <= |s| && r == s[..|r|]
    ensures SpaceIn(s, |r|, |s|)
    ensures r == [] || !IsSpace(r[|r| - 1])
  {
    if s == [] || !IsSpace(s[|s| - 1]) then s else TrimEnd(s[..|s| - 1])
  }

  /**
   * `s.trim()`: empty exactly when `s` is all white space, and otherwise a
   * slice of `s` that starts and ends with a character that is not.
   */
  function Trim(s: string): (r: string)
    ensures r == [] <==> AllSpace(s)
    ensures r == [] || (!IsSpace(r[0]) && !IsSpace(r[|r| - 1]))
    ensures |r| <= |s|
  {
    var t := TrimStart(s);
    var r := TrimEnd(t);
    assert r != [] ==> r[0] == s[|s| - |t|];
    assert r == [] ==> SpaceIn(t, 0, |t|);
    r
  }

  /** `trim` returns a slice of `s` with only white space before and after it. */
  lemma TrimSlices(s: string)
    ensures exists a, b :: 0 <= a <= b <= |s| && Trim(s) == s[a..b] && SpaceIn(s, 0, a) && SpaceIn(s, b, |s|)
  {
    var t := TrimStart(s);
    var r := TrimEnd(t);
    var a := |s| - |t|;
    assert r == s[a..a + |r|];
    assert SpaceIn(s, a + |r|, |s|) by {
      forall i | a + |r| <= i < |s| ensures IsSpace(s[i]) {
        assert s[i] == t[i - a];
      }
    }
  }

  /** Trimming a trimmed string changes nothing. */
  lemma TrimIdempotent(s: string)
    ensures Trim(Trim(s)) == Trim(s)
  {
    var r := Trim(s);
    if r != [] {
      assert TrimStart(r) == r;
      assert TrimEnd(r) == r;
    }
  }

  /** A string that neither starts nor ends with white space is its own trim. */
  lemma TrimKeeps(s: string)
    requires s != [] && !IsSpace(s[0]) && !IsSpace(s[|s| - 1])
    ensures Trim(s) == s
  {
    assert TrimStart(s) == s;
  }

  /** `pat` occurs in `s` starting at position `i`. */
  predicate OccursAt(s: string, pat: string, i: int) {
    0 <= i && i + |pat| <= |s| && s[i..i + |pat|] == pat
  }

  /** `s.indexOf(pat, from)`, with -1 for "not found". */
  function IndexOf(s: string, pat: string, from: nat): (r: int)
    decreases |s| - from
    ensures r == -1 || (from <= r && OccursAt(s, pat, r))
    ensures forall j :: from <= j && (r == -1 || j < r) ==> !OccursAt(s, pat, j)
  {
    if from + |pat| > |s| then -1
    else if s[from..from + |pat|] == pat then from
    else IndexOf(s, pat, from + 1)
  }

  /** `i` is the position of the first occurrence of `pat` in `s`. */
  predicate FirstOccurrence(s: string, pat: string, i: int) {
    OccursAt(s, pat, i) && forall j :: 0 <= j < i ==> !OccursAt(s, pat, j)
  }

  /** `s.replace(pat, rep)` for a string `pat`: only the first occurrence is replaced. */
  function ReplaceFirst(s: string, pat: string, rep: string): (r: string)
    ensures |rep| == |pat| ==> |r| == |s|
    ensures (forall j :: !OccursAt(s, pat, j)) ==> r == s
    ensures forall i :: FirstOccurrence(s, pat, i) ==> r == s[..i] + rep + s[i + |pat|..]
  {
    var i := IndexOf(s, pat, 0);
    if i < 0 then
      s
    else
      forall i' | FirstOccurrence(s, pat, i') ensures i' == i {
        assert !(i' < i) && !(i < i');
      }
      s[..i] + rep + s[i + |pat|..]
  }

  predicate IsDigit(c: char) {
    '0' <= c <= '9'
  }

  /** Every character of `s` in positions `lo` up to `hi` is a decimal digit. */
  predicate DigitsIn(s: string, lo: int, hi: int) {
    forall i :: lo <= i < hi && 0 <= i < |s| ==> IsDigit(s[i])
  }

  /** The regular expression `/:\d+$/` matches `s` at position `k`. */
  predicate PortSuffixAt(s: string, k: int) {
    0 <= k && k + 1 < |s| && s[k] == ':' && DigitsIn(s, k + 1, |s|)
  }

  /** The length of the longest all-digit suffix of `s`. */
  function TrailingDigits(s: string): (n: nat)
    ensures n <= |s| && DigitsIn(s, |s| - n, |s|)
    ensures n < |s| ==> !IsDigit(s[|s| - n - 1])
  {
    if s == [] || !IsDigit(s[|s| - 1]) then 0
    else 1 + TrailingDigits(s[..|s| - 1])
  }

  /** `/:\d+$/` matches `s` at most at one position. */
  lemma PortSuffixUnique(s: string, k: int, k': int)
    requires PortSuffixAt(s, k) && PortSuffixAt(s, k')
    ensures k == k'
  {
  }

  /** `s.replace(/:\d+$/, rep)`. */
  function ReplacePortSuffix(s: string, rep: string): (r: string)
    ensures rep != [] ==> (r == [] <==> s == [])
    ensures (forall k :: !PortSuffixAt(s, k)) ==> r == s
    ensures forall k :: PortSuffixAt(s, k) ==> r == s[..k] + rep
  {
    var n := TrailingDigits(s);
    if 0 < n < |s| && s[|s| - n - 1] == ':' then
      assert PortSuffixAt(s, |s| - n - 1);
      forall k | PortSuffixAt(s, k) ensures k == |s| - n - 1 {
        PortSuffixUnique(s, k, |s| - n - 1);
      }
      s[..|s| - n - 1] + rep
    else
      assert forall k :: !PortSuffixAt(s, k);
      s
  }
}
