/** The java.lang.String and java.lang.Long operations the bank core relies on:
    case folding, trim, blank checks, substring search, replace-with-nothing and
    decimal rendering of integers. */
module Text {

  // ---------------------------------------------------------------------------
  // Case folding (ASCII letters only)
  // ---------------------------------------------------------------------------

  predicate IsUpperAscii(c: char) { 'A' <= c <= 'Z' }

  predicate IsLowerAscii(c: char) { 'a' <= c <= 'z' }

  predicate IsDigit(c: char) { '0' <= c <= '9' }

  predicate NoUpperAscii(s: string) { forall i :: 0 <= i < |s| ==> !IsUpperAscii(s[i]) }

  predicate NoLowerAscii(s: string) { forall i :: 0 <= i < |s| ==> !IsLowerAscii(s[i]) }

  function LowerChar(c: char): char {
    if IsUpperAscii(c) then (c as int - 'A' as int + 'a' as int) as char else c
  }

  function UpperChar(c: char): char {
    if IsLowerAscii(c) then (c as int - 'a' as int + 'A' as int) as char else c
  }

  /** String.toLowerCase on the ASCII letters. */
  function ToLower(s: string): (r: string)
    ensures |r| == |s|
    ensures forall i :: 0 <= i < |s| ==> r[i] == LowerChar(s[i])
  {
    if s == [] then [] else [LowerChar(s[0])] + ToLower(s[1..])
  }

  /** String.toUpperCase on the ASCII letters. */
  function ToUpper(s: string): (r: string)
    ensures |r| == |s|
    ensures forall i :: 0 <= i < |s| ==> r[i] == UpperChar(s[i])
  {
    if s == [] then [] else [UpperChar(s[0])] + ToUpper(s[1..])
  }

  /** Lower-casing twice is lower-casing once, so a lookup that folds its key
      answers the same for a key and for its folded form. */
  lemma ToLowerIdempotent(s: string)
    ensures ToLower(ToLower(s)) == ToLower(s)
  {
    assert forall i :: 0 <= i < |s| ==> LowerChar(LowerChar(s[i])) == LowerChar(s[i]);
  }

  lemma ToUpperIdempotent(s: string)
    ensures ToUpper(ToUpper(s)) == ToUpper(s)
  {
    assert forall i :: 0 <= i < |s| ==> UpperChar(UpperChar(s[i])) == UpperChar(s[i]);
  }

  /** Folding to one case forgets the other: a lookup that lower-cases its
      key answers the same for the key in upper case, and conversely. */
  lemma FoldForgetsOtherCase(s: string)
    ensures ToLower(ToUpper(s)) == ToLower(s)
    ensures ToUpper(ToLower(s)) == ToUpper(s)
  {
    assert forall i :: 0 <= i < |s| ==> LowerChar(UpperChar(s[i])) == LowerChar(s[i]);
    assert forall i :: 0 <= i < |s| ==> UpperChar(LowerChar(s[i])) == UpperChar(s[i]);
  }

  /** A lower-cased string holds no upper-case letter, so it can never equal a
      string that does. */
  lemma ToLowerNeverEqualsUpperCased(s: string, t: string, k: nat)
    requires k < |t| && IsUpperAscii(t[k])
    ensures ToLower(s) != t
  {
    if |s| == |t| {
      assert !IsUpperAscii(ToLower(s)[k]);
    }
  }

  lemma ToUpperNeverEqualsLowerCased(s: string, t: string, k: nat)
    requires k < |t| && IsLowerAscii(t[k])
    ensures ToUpper(s) != t
  {
    if |s| == |t| {
      assert !IsLowerAscii(ToUpper(s)[k]);
    }
  }

  // ---------------------------------------------------------------------------
  // String.length
  // ---------------------------------------------------------------------------

  /** A character of the Basic Multilingual Plane, one UTF-16 code unit. */
  predicate IsBmp(c: char) { c as int < 0x1_0000 }

  /** String.length(), which @Size measures: the number of UTF-16 code units,
      where a character outside the Basic Multilingual Plane takes a surrogate
      pair. A Dafny string counts such a character once. */
  function Utf16Length(s: string): (n: nat)
    ensures |s| <= n <= 2 * |s|
  {
    if s == [] then 0 else (if IsBmp(s[0]) then 1 else 2) + Utf16Length(s[1..])
  }

  /** Within the Basic Multilingual Plane both lengths agree. */
  lemma {:induction false} Utf16LengthOfBmp(s: string)
    requires forall i :: 0 <= i < |s| ==> IsBmp(s[i])
    ensures Utf16Length(s) == |s|
  {
    if s != [] {
      assert forall i :: 0 <= i < |s| - 1 ==> s[1..][i] == s[i + 1];
      Utf16LengthOfBmp(s[1..]);
    }
  }

  /** Outside it every character counts twice. */
  lemma {:induction false} Utf16LengthOutsideBmp(s: string)
    requires forall i :: 0 <= i < |s| ==> !IsBmp(s[i])
    ensures Utf16Length(s) == 2 * |s|
  {
    if s != [] {
      assert forall i :: 0 <= i < |s| - 1 ==> s[1..][i] == s[i + 1];
      Utf16LengthOutsideBmp(s[1..]);
    }
  }

  // ---------------------------------------------------------------------------
  // Trim and blank
  // ---------------------------------------------------------------------------

  /** String.trim removes every leading and trailing character whose code is at
      most U+0020. */
  predicate IsTrimmable(c: char) { c <= ' ' }

  function TrimStart(s: string): (r: string)
    ensures |r| <= |s| && r == s[|s| - |r|..]
    ensures r == [] || !IsTrimmable(r[0])
    ensures forall i :: 0 <= i < |s| - |r| ==> IsTrimmable(s[i])
  {
    if s == [] then []
    else if IsTrimmable(s[0]) then TrimStart(s[1..])
    else s
  }

  function TrimEnd(s: string): (r: string)
    ensures |r| <= |s| && r == s[..|r|]
    ensures r == [] || !IsTrimmable(r[|r| - 1])
    ensures forall i :: |r| <= i < |s| ==> IsTrimmable(s[i])
  {
    if s == [] then []
    else if IsTrimmable(s[|s| - 1]) then TrimEnd(s[..|s| - 1])
    else s
  }

  function Trim(s: string): (r: string)
    ensures r == [] || (!IsTrimmable(r[0]) && !IsTrimmable(r[|r| - 1]))
  {
    TrimEnd(TrimStart(s))
  }

  /** Trim is a no-op on its own result. */
  lemma TrimIdempotent(s: string)
    ensures Trim(Trim(s)) == Trim(s)
  {
    var t := Trim(s);
    if t != [] {
      assert TrimStart(t) == t;
      assert TrimEnd(t) == t;
    }
  }

  /** Hibernate's @NotBlank accepts a string iff its trimmed form is non-empty. */
  predicate IsBlank(s: string) {
    Trim(s) == []
  }

  /** Blank means "every character is trimmable". */
  lemma {:induction false} BlankIffAllTrimmable(s: string)
    ensures IsBlank(s) <==> forall i :: 0 <= i < |s| ==> IsTrimmable(s[i])
  {
    var u := TrimStart(s);
    if !forall i :: 0 <= i < |s| ==> IsTrimmable(s[i]) {
      var j :| 0 <= j < |s| && !IsTrimmable(s[j]);
      assert u[j - (|s| - |u|)] == s[j];
    }
  }

  // ---------------------------------------------------------------------------
  // Search and replace
  // ---------------------------------------------------------------------------

  predicate StartsWith(s: string, p: string) {
    |p| <= |s| && s[..|p|] == p
  }

  predicate OccursAt(s: string, sub: string, i: int) {
    0 <= i <= |s| - |sub| && s[i..i + |sub|] == sub
  }

  /** String.contains */
  predicate Contains(s: string, sub: string) {
    exists i | 0 <= i <= |s| - |sub| :: OccursAt(s, sub, i)
  }

  /** String.replace(pat, "") : every non-overlapping occurrence of pat, found
      from left to right, is removed. */
  function RemoveAll(s: string, pat: string): (r: string)
    requires pat != []
    ensures |r| <= |s|
    ensures StartsWith(s, pat) ==> |r| <= |s| - |pat|
    decreases |s|
  {
    if |s| < |pat| then s
    else if StartsWith(s, pat) then RemoveAll(s[|pat|..], pat)
    else [s[0]] + RemoveAll(s[1..], pat)
  }

  /** A string with no occurrence of the pattern comes back unchanged. */
  lemma {:induction false} RemoveAllWithoutOccurrence(s: string, pat: string)
    requires pat != []
    requires !Contains(s, pat)
    ensures RemoveAll(s, pat) == s
    decreases |s|
  {
    if |s| >= |pat| {
      assert !OccursAt(s, pat, 0);
      assert !Contains(s[1..], pat) by {
        if Contains(s[1..], pat) {
          var i :| 0 <= i <= |s| - 1 - |pat| && OccursAt(s[1..], pat, i);
          assert s[1..][i..i + |pat|] == s[i + 1..i + 1 + |pat|];
          assert OccursAt(s, pat, i + 1);
        }
      }
      RemoveAllWithoutOccurrence(s[1..], pat);
    }
  }

  /** Something is removed iff the pattern occurs: the result equals the
      input exactly when the input has no occurrence. */
  lemma {:induction false} RemoveAllChangesIffOccurs(s: string, pat: string)
    requires pat != []
    ensures RemoveAll(s, pat) == s <==> !Contains(s, pat)
    decreases |s|
  {
    if Contains(s, pat) {
      var i :| 0 <= i <= |s| - |pat| && OccursAt(s, pat, i);
      if !StartsWith(s, pat) {
        assert i != 0;
        assert OccursAt(s[1..], pat, i - 1) by {
          assert s[1..][i - 1..i - 1 + |pat|] == s[i..i + |pat|];
        }
        RemoveAllChangesIffOccurs(s[1..], pat);
        assert RemoveAll(s, pat)[1..] == RemoveAll(s[1..], pat);
      }
    } else {
      RemoveAllWithoutOccurrence(s, pat);
    }
  }

  /** Removing the pattern from "pat + rest" where rest has no occurrence leaves
      exactly rest. */
  lemma RemoveAllLeadingOccurrence(pat: string, rest: string)
    requires pat != []
    requires !Contains(rest, pat)
    ensures RemoveAll(pat + rest, pat) == rest
  {
    var s := pat + rest;
    assert StartsWith(s, pat);
    assert s[|pat|..] == rest;
    RemoveAllWithoutOccurrence(rest, pat);
  }

  // ---------------------------------------------------------------------------
  // Decimal rendering (Long.toString) and its inverse
  // ---------------------------------------------------------------------------

  function DigitChar(d: nat): char
    requires d < 10
  {
    ('0' as int + d) as char
  }

  function DigitValue(c: char): nat
    requires IsDigit(c)
  {
    c as int - '0' as int
  }

  /** Decimal rendering of a non-negative number, without leading zeros. */
  function NatToString(n: nat): (r: string)
    ensures |r| >= 1
    ensures forall i :: 0 <= i < |r| ==> IsDigit(r[i])
  {
    if n < 10 then [DigitChar(n)] else NatToString(n / 10) + [DigitChar(n % 10)]
  }

  /** Long.toString */
  function IntToString(n: int): string {
    if n < 0 then "-" + NatToString(-n) else NatToString(n)
  }

  /** The value of a string of decimal digits. */
  function ParseDecimal(s: string): nat
    requires forall i :: 0 <= i < |s| ==> IsDigit(s[i])
  {
    if s == [] then 0 else ParseDecimal(s[..|s| - 1]) * 10 + DigitValue(s[|s| - 1])
  }

  /** Parsing the rendering of n gives back n. */
  lemma {:induction false} ParseNatToString(n: nat)
    ensures ParseDecimal(NatToString(n)) == n
  {
    var s := NatToString(n);
    if n >= 10 {
      ParseNatToString(n / 10);
      assert s[..|s| - 1] == NatToString(n / 10);
    }
  }

  /** Distinct numbers render to distinct strings. */
  lemma NatToStringInjective(a: nat, b: nat)
    requires NatToString(a) == NatToString(b)
    ensures a == b
  {
    ParseNatToString(a);
    ParseNatToString(b);
  }

  /** String.format("%0<width>d", n) for a non-negative n. */
  function ZeroPad(s: string, width: nat): (r: string)
    ensures |r| == if |s| < width then width else |s|
    ensures r[|r| - |s|..] == s
    ensures forall i :: 0 <= i < |r| - |s| ==> r[i] == '0'
  {
    if |s| < width then seq(width - |s|, _ => '0') + s else s
  }
}
