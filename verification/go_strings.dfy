/**
  The library string operations the query builder and the log-level parser
  call: white-space trimming (`strings.TrimSpace`, with `unicode.IsSpace`) and
  per-rune lower-casing (`strings.ToLower`). The query itself is assembled with
  `strings.Builder.WriteString`, which is plain concatenation here.

  `HasPrefix`, `OccursAt`, `Contains` and `Join` are not called by the Go code:
  they are helpers for stating properties of the results (their meaning is that
  of the Go library functions of the same name).

  A Go string is modelled as the sequence of its runes (`seq<char>`).
 */
module GoStrings {

  /** `unicode.IsSpace`: the Latin-1 spaces plus the Unicode White_Space runes above Latin-1. */
  predicate IsSpace(c: char) {
    || c == ' ' || c == '\t' || c == '\n' || c == '\U{0B}' || c == '\U{0C}' || c == '\r'
    || c == '\U{85}' || c == '\U{A0}'
    || c == '\U{1680}' || ('\U{2000}' <= c <= '\U{200A}')
    || c == '\U{2028}' || c == '\U{2029}' || c == '\U{202F}' || c == '\U{205F}' || c == '\U{3000}'
  }

  predicate AllSpace(s: string) {
    forall i :: 0 <= i < |s| ==> IsSpace(s[i])
  }

  /** Neither the first nor the last rune of `s` is white space. */
  predicate Trimmed(s: string) {
    s == [] || (!IsSpace(s[0]) && !IsSpace(s[|s| - 1]))
  }

  /** The number of white-space runes `s` starts with. */
  function LeadingSpaces(s: string): (n: nat)
    ensures n <= |s|
    ensures forall k :: 0 <= k < n ==> IsSpace(s[k])
    ensures n < |s| ==> !IsSpace(s[n])
  {
    if |s| > 0 && IsSpace(s[0]) then 1 + LeadingSpaces(s[1..]) else 0
  }

  /** The length of `s` once its trailing white-space runes are cut off. */
  function SpaceFreeLength(s: string): (n: nat)
    ensures n <= |s|
    ensures forall k :: n <= k < |s| ==> IsSpace(s[k])
    ensures n > 0 ==> !IsSpace(s[n - 1])
  {
    if |s| > 0 && IsSpace(s[|s| - 1]) then SpaceFreeLength(s[..|s| - 1]) else |s|
  }

  /** `strings.TrimLeftFunc(s, unicode.IsSpace)`. */
  function TrimLeadingSpace(s: string): string {
    s[LeadingSpaces(s)..]
  }

  /** `strings.TrimRightFunc(s, unicode.IsSpace)`. */
  function TrimTrailingSpace(s: string): string {
    s[..SpaceFreeLength(s)]
  }

  /** `s[i..j]` is what remains of `s` after an all-space prefix and an all-space suffix. */
  predicate SpaceFramed(s: string, i: int, j: int) {
    && 0 <= i <= j <= |s|
    && (forall k :: 0 <= k < i ==> IsSpace(s[k]))
    && (forall k :: j <= k < |s| ==> IsSpace(s[k]))
  }

  /**
    `strings.TrimSpace`: the result is the slice of `s` left between an
    all-space prefix and an all-space suffix, and it neither starts nor ends
    with white space.
   */
  function TrimSpace(s: string): (r: string)
    ensures exists i, j :: SpaceFramed(s, i, j) && r == s[i..j]
    ensures Trimmed(r)
  {
    var i := LeadingSpaces(s);
    var l := s[i..];
    var n := SpaceFreeLength(l);
    assert SpaceFramed(s, i, i + n) by {
      forall k | i + n <= k < |s| ensures IsSpace(s[k]) {
        assert s[k] == l[k - i];
      }
    }
    assert l[..n] == s[i..i + n];
    TrimTrailingSpace(TrimLeadingSpace(s))
  }

  /** The last rune of `s`, if any, is not white space. */
  predicate NoTrailingSpace(s: string) {
    s == [] || !IsSpace(s[|s| - 1])
  }

  /** Trailing-space trimming leaves a string that does not end in white space unchanged. */
  lemma TrimTrailingSpaceOfClean(s: string)
    requires NoTrailingSpace(s)
    ensures TrimTrailingSpace(s) == s
  {
  }

  /** `TrimSpace` leaves `s` unchanged exactly when `s` has no white space at either end. */
  lemma TrimSpaceFixesExactlyTrimmed(s: string)
    ensures TrimSpace(s) == s <==> Trimmed(s)
  {
  }

  /** `TrimSpace` is idempotent. */
  lemma TrimSpaceIdempotent(s: string)
    ensures TrimSpace(TrimSpace(s)) == TrimSpace(s)
  {
    TrimSpaceFixesExactlyTrimmed(TrimSpace(s));
  }

  /** Only an all-space string trims to the empty string. */
  lemma TrimSpaceEmptyIffAllSpace(s: string)
    ensures TrimSpace(s) == [] <==> AllSpace(s)
  {
    if TrimSpace(s) == [] {
      forall k | 0 <= k < |s| ensures IsSpace(s[k]) {
        var i, j :| SpaceFramed(s, i, j) && [] == s[i..j];
      }
    }
  }

  /**
    A string that starts with a non-space `p` whose last rune is not a space
    keeps `p` as a prefix after trimming, whatever follows.
   */
  lemma TrimSpaceKeepsPrefix(p: string, t: string)
    requires p != [] && Trimmed(p)
    ensures HasPrefix(TrimSpace(p + t), p)
  {
    var s := p + t;
    assert s[|p| - 1] == p[|p| - 1];
    var n := SpaceFreeLength(s);
    assert LeadingSpaces(s) == 0;
    assert n >= |p|;
    assert TrimSpace(s)[..|p|] == s[..|p|] == p;
  }

  /** Trimming a string that starts with a non-space rune and ends in one extra space. */
  lemma TrimSpaceOfSpaceTerminated(s: string)
    requires s != [] && !IsSpace(s[0])
    ensures TrimSpace(s + " ") == TrimTrailingSpace(s)
  {
    assert LeadingSpaces(s + " ") == 0;
    assert (s + " ")[..|s + " "| - 1] == s;
  }

  /** `s` starts with `p` (the meaning of Go's `strings.HasPrefix`). */
  predicate HasPrefix(s: string, p: string) {
    |p| <= |s| && s[..|p|] == p
  }

  /** `t` occurs in `s` starting at index `i`. */
  predicate OccursAt(s: string, t: string, i: int) {
    0 <= i && i + |t| <= |s| && s[i..i + |t|] == t
  }

  /** `t` occurs somewhere in `s` (the meaning of Go's `strings.Contains`). */
  predicate Contains(s: string, t: string) {
    exists i | 0 <= i <= |s| - |t| :: OccursAt(s, t, i)
  }

  /** The elements of `fs` separated by `sep` (the meaning of Go's `strings.Join`). */
  function Join(fs: seq<string>, sep: string): string {
    if |fs| == 0 then ""
    else if |fs| == 1 then fs[0]
    else fs[0] + sep + Join(fs[1..], sep)
  }

  /** Every joined element is a contiguous part of the joined string. */
  lemma {:induction false} JoinContainsEach(fs: seq<string>, sep: string, k: nat)
    requires k < |fs|
    ensures Contains(Join(fs, sep), fs[k])
  {
    var j := Join(fs, sep);
    if k == 0 {
      assert OccursAt(j, fs[0], 0);
    } else {
      var tail := Join(fs[1..], sep);
      JoinContainsEach(fs[1..], sep, k - 1);
      assert fs[1..][k - 1] == fs[k];
      var i :| 0 <= i <= |tail| - |fs[k]| && OccursAt(tail, fs[k], i);
      var off := |fs[0]| + |sep|;
      assert j == fs[0] + sep + tail;
      assert j[off + i..off + i + |fs[k]|] == tail[i..i + |fs[k]|];
      assert OccursAt(j, fs[k], off + i);
    }
  }

  /** Every member of a joined list occurs in the joined string. */
  lemma JoinContainsMember(fs: seq<string>, sep: string, f: string)
    requires f in fs
    ensures Contains(Join(fs, sep), f)
  {
    var k :| 0 <= k < |fs| && fs[k] == f;
    JoinContainsEach(fs, sep, k);
  }

  /** A join of non-empty elements starts with the first element's first rune. */
  lemma JoinStartsWithFirst(fs: seq<string>, sep: string)
    requires |fs| > 0 && fs[0] != []
    ensures Join(fs, sep) != [] && Join(fs, sep)[0] == fs[0][0]
  {
  }

  /** The last element is a suffix of the join. */
  lemma {:induction false} JoinEndsWithLast(fs: seq<string>, sep: string)
    requires |fs| > 0
    ensures |fs[|fs| - 1]| <= |Join(fs, sep)|
    ensures Join(fs, sep)[|Join(fs, sep)| - |fs[|fs| - 1]|..] == fs[|fs| - 1]
  {
    if |fs| > 1 {
      JoinEndsWithLast(fs[1..], sep);
      assert fs[1..][|fs| - 2] == fs[|fs| - 1];
    }
  }

  /** Appending one element to a non-empty list extends its join by the separator and that element. */
  lemma {:induction false} JoinAppend(fs: seq<string>, f: string, sep: string)
    requires fs != []
    ensures Join(fs + [f], sep) == Join(fs, sep) + sep + f
  {
    if |fs| > 1 {
      assert (fs + [f])[1..] == fs[1..] + [f];
      JoinAppend(fs[1..], f, sep);
    }
  }

  /** A join whose last element does not end in white space is not changed by trailing-space trimming. */
  lemma JoinOfCleanLast(fs: seq<string>, sep: string)
    requires fs != [] && fs[|fs| - 1] != [] && NoTrailingSpace(fs[|fs| - 1])
    ensures TrimTrailingSpace(Join(fs, sep)) == Join(fs, sep)
  {
    var last := fs[|fs| - 1];
    JoinEndsWithLast(fs, sep);
    var j := Join(fs, sep);
    assert j[|j| - 1] == last[|last| - 1];
    TrimTrailingSpaceOfClean(j);
  }

  /** The join of four elements, spelled out. */
  lemma JoinFour(a: string, b: string, c: string, d: string)
    ensures Join([a, b, c, d], " ") == a + " " + b + " " + c + " " + d
  {
    assert [c, d][1..] == [d];
    assert Join([c, d], " ") == c + " " + d;
    assert [b, c, d][1..] == [c, d];
    assert Join([b, c, d], " ") == b + " " + (c + " " + d);
    assert [a, b, c, d][1..] == [b, c, d];
    assert Join([a, b, c, d], " ") == a + " " + (b + " " + (c + " " + d));
  }

  /** `unicode.ToLower`, on every rune whose lower-case form is ASCII. */
  function LowerRune(c: char): char {
    if 'A' <= c <= 'Z' then (c as int + 32) as char
    else if c == '\U{0130}' then 'i'  // LATIN CAPITAL LETTER I WITH DOT ABOVE
    else if c == '\U{212A}' then 'k'  // KELVIN SIGN
    else c
  }

  /** `strings.ToLower`: maps every rune through `LowerRune`, keeping the length. */
  function ToLower(s: string): (r: string)
    ensures |r| == |s|
    ensures forall i :: 0 <= i < |s| ==> r[i] == LowerRune(s[i])
  {
    if s == [] then [] else [LowerRune(s[0])] + ToLower(s[1..])
  }

  /** A string with no upper-case rune is its own lower-case form. */
  lemma ToLowerOfLowerCase(s: string)
    requires forall i :: 0 <= i < |s| ==> LowerRune(s[i]) == s[i]
    ensures ToLower(s) == s
  {
  }

  /** Lower-casing twice is lower-casing once. */
  lemma ToLowerIdempotent(s: string)
    ensures ToLower(ToLower(s)) == ToLower(s)
  {
    var l := ToLower(s);
    assert forall i :: 0 <= i < |l| ==> ToLower(l)[i] == LowerRune(LowerRune(s[i])) == l[i];
  }
}
