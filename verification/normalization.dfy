/**
 The normalizer applied to every free-text name before it is compared:
 Python's `str(x).strip().lower()`.
 */
module Normalization {
  import opened Cells

  /** The characters Python's `str.strip()` removes when called without arguments. */
  predicate IsSpace(c: char) {
    || c == ' '
    || ('\t' <= c <= '\r')
    || ('\U{1C}' <= c <= '\U{1F}')
    || c == '\U{85}'
    || c == '\U{A0}'
    || c == '\U{1680}'
    || ('\U{2000}' <= c <= '\U{200A}')
    || c == '\U{2028}'
    || c == '\U{2029}'
    || c == '\U{202F}'
    || c == '\U{205F}'
    || c == '\U{3000}'
  }

  /** Upper-case letters of Basic Latin and Latin-1 (the multiplication sign is not a letter). */
  predicate IsUpper(c: char) {
    ('A' <= c <= 'Z') || ('\U{C0}' <= c <= '\U{DE}' && c != '\U{D7}')
  }

  /** `str.lower()` on one character. */
  function LowerChar(c: char): (d: char)
    ensures !IsUpper(d)
    ensures IsSpace(d) <==> IsSpace(c)
    ensures !IsUpper(c) ==> d == c
    ensures IsUpper(c) ==> d as int == c as int + ('a' as int - 'A' as int)
  {
    if IsUpper(c) then (c as int + 32) as char else c
  }

  /** Every character of `s` from index `lo` up to (not including) `hi` is whitespace. */
  predicate AllSpace(s: string, lo: int, hi: int)
    requires 0 <= lo <= hi <= |s|
  {
    forall k :: lo <= k < hi ==> IsSpace(s[k])
  }

  /** The index of the first non-whitespace character at or after `i`, or `|s|` if there is none. */
  function SkipLeft(s: string, i: nat): (j: nat)
    requires i <= |s|
    ensures i <= j <= |s|
    ensures AllSpace(s, i, j)
    ensures j == |s| || !IsSpace(s[j])
    decreases |s| - i
  {
    if i < |s| && IsSpace(s[i]) then SkipLeft(s, i + 1) else i
  }

  /** The end of the last non-whitespace character before `j`, going no further left than `lo`. */
  function SkipRight(s: string, lo: nat, j: nat): (e: nat)
    requires lo <= j <= |s|
    ensures lo <= e <= j
    ensures AllSpace(s, e, j)
    ensures e == lo || !IsSpace(s[e - 1])
  {
    if lo < j && IsSpace(s[j - 1]) then SkipRight(s, lo, j - 1) else j
  }

  /** `r` is the slice of `s` starting at `i`, with only whitespace before and after it. */
  predicate TrimmedAt(s: string, i: int, r: string) {
    && 0 <= i && i + |r| <= |s|
    && r == s[i..i + |r|]
    && AllSpace(s, 0, i)
    && AllSpace(s, i + |r|, |s|)
  }

  /**
   `str.strip()`: the result is the slice of `s` that is left once the
   whitespace at both ends is gone, and it neither starts nor ends with whitespace.
   */
  function Strip(s: string): (r: string)
    ensures exists i :: TrimmedAt(s, i, r)
    ensures r == [] || (!IsSpace(r[0]) && !IsSpace(r[|r| - 1]))
  {
    var i := SkipLeft(s, 0);
    var e := SkipRight(s, i, |s|);
    assert TrimmedAt(s, i, s[i..e]);
    s[i..e]
  }

  /** `str.lower()` on a whole string, character by character. */
  function Lower(s: string): (r: string)
    ensures |r| == |s|
    ensures forall k :: 0 <= k < |s| ==> r[k] == LowerChar(s[k])
  {
    seq(|s|, k requires 0 <= k < |s| => LowerChar(s[k]))
  }

  /** A normalized name: no whitespace at either end and no upper-case letter. */
  predicate IsNormal(s: string) {
    && (s == [] || (!IsSpace(s[0]) && !IsSpace(s[|s| - 1])))
    && forall k :: 0 <= k < |s| ==> !IsUpper(s[k])
  }

  /**
   `strip()` followed by `lower()`. The result is normal, and it is the
   lower-cased slice of `s` that whitespace alone surrounds.
   */
  function Normalize(s: string): (r: string)
    ensures IsNormal(r)
    ensures |r| <= |s|
    ensures exists i, t :: TrimmedAt(s, i, t) && r == Lower(t)
  {
    Lower(Strip(s))
  }

  /** `astype(str)` / `str(x)` of a text cell: an empty cell turns into the text "nan". */
  function TextOf(cell: Option<string>): string {
    match cell
    case None => "nan"
    case Some(s) => s
  }

  /** The comparison key of a name cell: its text, stripped and lower-cased. */
  function NameKey(cell: Option<string>): (k: string)
    ensures IsNormal(k)
    ensures cell.None? ==> k == "nan"
    ensures cell.Some? ==> |k| <= |cell.value|
    ensures cell.Some? ==> k == Normalize(cell.value)
  {
    NormalizeFixesNormal(TextOf(cell));
    Normalize(TextOf(cell))
  }

  /** Normalization leaves a string unchanged exactly when it is already normal. */
  lemma NormalizeFixesNormal(s: string)
    ensures Normalize(s) == s <==> IsNormal(s)
  {
    if IsNormal(s) {
      assert SkipLeft(s, 0) == 0;
      assert SkipRight(s, 0, |s|) == |s|;
      assert Lower(s) == s;
    }
  }

  /** Normalizing twice is the same as normalizing once. */
  lemma NormalizeIdempotent(s: string)
    ensures Normalize(Normalize(s)) == Normalize(s)
  {
    NormalizeFixesNormal(Normalize(s));
  }
}
