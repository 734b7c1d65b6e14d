/** String helpers for file paths: ASCII lower-casing (`str.lower`),
    suffix tests (`str.endswith`) and the final path component
    (`os.path.basename` with `/` as the separator). */
module Paths {

  predicate IsUpper(c: char) {
    'A' <= c <= 'Z'
  }

  /** Lower-cases one character: `A`..`Z` map to `a`..`z` (32 code points
      higher); every other character is kept. */
  function LowerChar(c: char): (l: char)
    ensures !IsUpper(l)
    ensures !IsUpper(c) ==> l == c
    ensures IsUpper(c) ==> l as int == c as int + 32 && 'a' <= l <= 'z'
  {
    if IsUpper(c) then (c as int + 32) as char else c
  }

  /** Lower-cases a whole string, character by character; a string with no
      upper-case letter comes back unchanged. */
  function ToLower(s: string): (r: string)
    ensures |r| == |s|
    ensures forall i :: 0 <= i < |s| ==> r[i] == LowerChar(s[i])
    ensures forall i :: 0 <= i < |r| ==> !IsUpper(r[i])
    ensures (forall i :: 0 <= i < |s| ==> !IsUpper(s[i])) ==> r == s
  {
    seq(|s|, i requires 0 <= i < |s| => LowerChar(s[i]))
  }

  /** Two characters are the same letter up to ASCII case: equal, or one is
      an upper-case letter and the other the letter 32 code points above it. */
  predicate SameIgnoringCase(a: char, b: char) {
    || a == b
    || (IsUpper(a) && b as int == a as int + 32)
    || (IsUpper(b) && a as int == b as int + 32)
  }

  /** Two strings that differ only in the case of their ASCII letters. */
  predicate EqualIgnoringCase(s: string, t: string) {
    |s| == |t| && forall i :: 0 <= i < |s| ==> SameIgnoringCase(s[i], t[i])
  }

  /** Lower-casing two characters gives the same result exactly when they
      are the same letter up to case. */
  lemma LowerCharIgnoresCase(a: char, b: char)
    ensures SameIgnoringCase(a, b) <==> LowerChar(a) == LowerChar(b)
  {
  }

  /** Strings have the same lower-case form exactly when they agree
      ignoring case. */
  lemma ToLowerIgnoresCase(s: string, t: string)
    ensures EqualIgnoringCase(s, t) <==> ToLower(s) == ToLower(t)
  {
    if EqualIgnoringCase(s, t) {
      forall i | 0 <= i < |s|
        ensures ToLower(s)[i] == ToLower(t)[i]
      {
        LowerCharIgnoresCase(s[i], t[i]);
      }
    }
    if ToLower(s) == ToLower(t) {
      forall i | 0 <= i < |s|
        ensures SameIgnoringCase(s[i], t[i])
      {
        assert ToLower(s)[i] == ToLower(t)[i];
        LowerCharIgnoresCase(s[i], t[i]);
      }
    }
  }

  /** `s.endswith(suffix)`. */
  predicate EndsWith(s: string, suffix: string) {
    |suffix| <= |s| && s[|s| - |suffix|..] == suffix
  }

  /** A string ends with `suffix` exactly when it is some prefix followed by `suffix`. */
  lemma EndsWithIff(s: string, suffix: string)
    ensures EndsWith(s, suffix) <==> exists p :: s == p + suffix
  {
    if EndsWith(s, suffix) {
      assert s == s[..|s| - |suffix|] + suffix;
    }
    if p :| s == p + suffix {
      assert s[|s| - |suffix|..] == suffix;
    }
  }

  /** Two suffixes of one string: the shorter is a suffix of the longer. */
  lemma EndsWithNested(s: string, x: string, y: string)
    requires EndsWith(s, x) && EndsWith(s, y) && |y| <= |x|
    ensures EndsWith(x, y)
  {
  }

  /** `s.endswith(tuple)`: some listed suffix matches. */
  predicate EndsWithAny(s: string, suffixes: seq<string>) {
    exists i :: 0 <= i < |suffixes| && EndsWith(s, suffixes[i])
  }

  /** The final component of a `/`-separated path: everything after the
      last `/`, or the whole path when it holds none. */
  function Basename(p: string): (b: string)
    ensures '/' !in b
    ensures EndsWith(p, b)
    ensures |b| < |p| ==> p[|p| - |b| - 1] == '/'
    decreases |p|
  {
    if |p| == 0 || p[|p| - 1] == '/' then []
    else Basename(p[..|p| - 1]) + [p[|p| - 1]]
  }

  /** The three properties of `Basename` pin it down: the longest suffix
      free of `/` is unique. */
  lemma BasenameUnique(p: string, b: string)
    requires '/' !in b
    requires EndsWith(p, b)
    requires |b| < |p| ==> p[|p| - |b| - 1] == '/'
    ensures b == Basename(p)
  {
  }
}
