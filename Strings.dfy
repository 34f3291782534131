/**
 * String rules used by the application form: JavaScript's whitespace set and
 * `String.prototype.trim`, and the two format checks of main.js
 * (`emailRegex`, `phoneRegex`), each written once as a hand-coded predicate and
 * once as a reference definition that reads like its regular expression.
 */
module Strings {
  import opened Wrappers

  /** The code points JavaScript calls WhiteSpace or LineTerminator: the set
      that `trim` strips and that the regex class `\s` matches. */
  predicate IsSpace(c: char) {
    c == '\t' || c == '\n' || c == '\U{B}' || c == '\U{C}' || c == '\r' || c == ' '
    || c == '\U{A0}' || c == '\U{1680}' || ('\U{2000}' <= c <= '\U{200A}')
    || c == '\U{2028}' || c == '\U{2029}' || c == '\U{202F}' || c == '\U{205F}'
    || c == '\U{3000}' || c == '\U{FEFF}'
  }

  /** The regex class `\d`: an ASCII decimal digit. */
  predicate IsDigit(c: char) {
    '0' <= c <= '9'
  }

  predicate AllSpace(s: string) {
    forall i :: 0 <= i < |s| ==> IsSpace(s[i])
  }

  predicate AllDigits(s: string) {
    forall i :: 0 <= i < |s| ==> IsDigit(s[i])
  }

  // ---------------------------------------------------------------------------
  // trim
  // ---------------------------------------------------------------------------

  /** Drops leading whitespace. */
  function TrimStart(s: string): string {
    if s != [] && IsSpace(s[0]) then TrimStart(s[1..]) else s
  }

  /** Drops trailing whitespace. */
  function TrimEnd(s: string): string {
    if s != [] && IsSpace(s[|s| - 1]) then TrimEnd(s[..|s| - 1]) else s
  }

  /** `String.prototype.trim`. */
  function Trim(s: string): string {
    TrimEnd(TrimStart(s))
  }

  /** TrimStart keeps a suffix of `s`, everything it drops is whitespace, and
      what it keeps does not start with whitespace. */
  lemma {:induction false} TrimStartSpec(s: string)
    ensures var r := TrimStart(s);
      |r| <= |s| && r == s[|s| - |r|..] && AllSpace(s[..|s| - |r|]) && (r != [] ==> !IsSpace(r[0]))
  {
    if s != [] && IsSpace(s[0]) {
      TrimStartSpec(s[1..]);
      var r := TrimStart(s[1..]);
      assert s[..|s| - |r|] == [s[0]] + s[1..][..|s[1..]| - |r|];
    }
  }

  /** TrimEnd keeps a prefix of `s`, everything it drops is whitespace, and
      what it keeps does not end with whitespace. */
  lemma {:induction false} TrimEndSpec(s: string)
    ensures var r := TrimEnd(s);
      |r| <= |s| && r == s[..|r|] && AllSpace(s[|r|..]) && (r != [] ==> !IsSpace(r[|r| - 1]))
  {
    if s != [] && IsSpace(s[|s| - 1]) {
      var p := s[..|s| - 1];
      TrimEndSpec(p);
      var r := TrimEnd(p);
      assert s[|r|..] == p[|r|..] + [s[|s| - 1]];
    }
  }

  /** `trim` removes whitespace at both ends and nothing else: the result is
      the slice of `s` between a run of leading and a run of trailing
      whitespace, and neither of its ends is whitespace. */
  lemma TrimSpec(s: string)
    ensures var r := Trim(s);
      (exists lo :: 0 <= lo <= |s| - |r| && r == s[lo..lo + |r|]
                    && AllSpace(s[..lo]) && AllSpace(s[lo + |r|..]))
      && (r != [] ==> !IsSpace(r[0]) && !IsSpace(r[|r| - 1]))
  {
    var t := TrimStart(s);
    TrimStartSpec(s);
    TrimEndSpec(t);
    var r := Trim(s);
    var lo := |s| - |t|;
    assert r == s[lo..lo + |r|];
    assert s[lo + |r|..] == t[|r|..];
  }

  /** A value trims to the empty string exactly when it is all whitespace
      (this is what makes a whitespace-only required field "empty"). */
  lemma {:induction false} TrimEmptyIffAllSpace(s: string)
    ensures Trim(s) == [] <==> AllSpace(s)
  {
    var t := TrimStart(s);
    TrimStartSpec(s);
    TrimEndSpec(t);
    if Trim(s) == [] {
      // a non-empty t would start with a non-space that TrimEnd cannot drop
      assert t == [] && s[..|s|] == s;
    }
  }

  /** A value with no whitespace at either end is left as it is. */
  lemma TrimKeepsUnpadded(s: string)
    requires s != [] ==> !IsSpace(s[0]) && !IsSpace(s[|s| - 1])
    ensures Trim(s) == s
  {
  }

  /** Trimming twice is the same as trimming once. */
  lemma {:induction false} TrimIdempotent(s: string)
    ensures Trim(Trim(s)) == Trim(s)
  {
    TrimSpec(s);
    TrimKeepsUnpadded(Trim(s));
  }

  // ---------------------------------------------------------------------------
  // phoneRegex  /^(07|\+2547)\d{8}$/
  // ---------------------------------------------------------------------------

  /** The phone check as the form uses it: "07" or "+2547" followed by exactly
      eight decimal digits, nothing before or after. */
  predicate IsPhone(s: string) {
    (|s| == 10 && s[..2] == "07" && AllDigits(s[2..]))
    || (|s| == 13 && s[..5] == "+2547" && AllDigits(s[5..]))
  }

  /** Reference reading of the regex: the string is a prefix `p` followed by a
      run `d` of exactly eight digits. */
  ghost predicate PrefixThenEightDigits(s: string, p: string) {
    exists d :: |d| == 8 && AllDigits(d) && s == p + d
  }

  ghost predicate PhonePattern(s: string) {
    PrefixThenEightDigits(s, "07") || PrefixThenEightDigits(s, "+2547")
  }

  /** The hand-coded phone check accepts exactly the strings the regex does. */
  lemma {:induction false} PhoneMatchesPattern(s: string)
    ensures IsPhone(s) <==> PhonePattern(s)
  {
  }

  // ---------------------------------------------------------------------------
  // emailRegex  /^[^\s@]+@[^\s@]+\.[^\s@]+$/
  // ---------------------------------------------------------------------------

  /** The class `[^\s@]` taken over a whole string. */
  predicate NoSpaceOrAt(s: string) {
    forall i :: 0 <= i < |s| ==> !IsSpace(s[i]) && s[i] != '@'
  }

  /** The position of the first `c` in `s`, if any. */
  function FirstIndex(s: string, c: char): (r: Option<nat>)
    ensures r.None? ==> c !in s
    ensures r.Some? ==> r.value < |s| && s[r.value] == c && c !in s[..r.value]
  {
    if s == [] then None
    else if s[0] == c then Some(0)
    else match FirstIndex(s[1..], c)
      case None => None
      case Some(k) =>
        assert s[..k + 1] == [s[0]] + s[1..][..k];
        Some(k + 1)
  }

  /** `d` has a '.' that is neither its first nor its last character. */
  predicate HasInnerDot(d: string) {
    exists j :: 0 < j < |d| - 1 && d[j] == '.'
  }

  /** The email check as the form uses it: the string splits at its '@' into a
      non-empty local part and a domain, neither holding whitespace or another
      '@', and the domain has a '.' strictly inside it. */
  predicate IsEmail(s: string) {
    match FirstIndex(s, '@')
    case None => false
    case Some(k) =>
      k > 0 && NoSpaceOrAt(s[..k]) && NoSpaceOrAt(s[k + 1..]) && HasInnerDot(s[k + 1..])
  }

  /** Reference reading of the regex: `s` is `a@b.c` with `a`, `b`, `c`
      non-empty runs of `[^\s@]`, the '@' at `i` and the '.' at `j`. */
  ghost predicate EmailSplit(s: string, i: int, j: int) {
    0 < i && i + 1 < j < |s| - 1 && s[i] == '@' && s[j] == '.'
    && NoSpaceOrAt(s[..i]) && NoSpaceOrAt(s[i + 1..j]) && NoSpaceOrAt(s[j + 1..])
  }

  ghost predicate EmailPattern(s: string) {
    exists i, j :: EmailSplit(s, i, j)
  }

  /** The hand-coded email check accepts exactly the strings the regex does. */
  lemma {:induction false} EmailMatchesPattern(s: string)
    ensures IsEmail(s) <==> EmailPattern(s)
  {
    if IsEmail(s) {
      var k := FirstIndex(s, '@').value;
      var d := s[k + 1..];
      var jd :| 0 < jd < |d| - 1 && d[jd] == '.';
      var j := k + 1 + jd;
      assert s[k + 1..j] == d[..jd];
      assert s[j + 1..] == d[jd + 1..];
      assert EmailSplit(s, k, j);
    }
    if EmailPattern(s) {
      var i, j :| EmailSplit(s, i, j);
      var r := FirstIndex(s, '@');
      assert s[i] == '@';
      assert r.Some?;
      var k := r.value;
      assert k == i;
      var d := s[i + 1..];
      forall m | 0 <= m < |d| ensures !IsSpace(d[m]) && d[m] != '@' {
        if m < j - (i + 1) {
          assert d[m] == s[i + 1..j][m];
        } else if m > j - (i + 1) {
          assert d[m] == s[j + 1..][m - (j - i)];
        }
      }
      assert d[j - (i + 1)] == '.';
      assert HasInnerDot(d);
    }
  }

  /** "abc@" is not an email address: it has no domain at all. */
  lemma NoDomainIsNotEmail()
    ensures !IsEmail("abc@")
  {
  }
}
