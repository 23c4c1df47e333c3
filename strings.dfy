/**
 * The JavaScript string operations the client relies on: substring search
 * (`includes`, `indexOf`), first-occurrence removal (`replace` with a string
 * pattern and an empty replacement) and decimal rendering of numbers in
 * template literals.
 */
module Strings {
  import opened Wrappers

  /** `sub` occurs in `s` starting at index `i`. */
  predicate OccursAt(s: string, sub: string, i: nat) {
    i + |sub| <= |s| && s[i..i + |sub|] == sub
  }

  lemma OccursAtShift(s: string, sub: string, j: nat)
    requires |s| > 0
    ensures OccursAt(s, sub, j + 1) == OccursAt(s[1..], sub, j)
  {
    if j + 1 + |sub| <= |s| {
      assert s[1..][j..j + |sub|] == s[j + 1..j + 1 + |sub|];
    }
  }

  /** `s.indexOf(sub)`: the first index at which `sub` occurs, None for -1. */
  function FirstOccurrence(s: string, sub: string): (r: Option<nat>)
    ensures r.Some? ==> OccursAt(s, sub, r.value)
    ensures r.Some? ==> forall j: nat :: j < r.value ==> !OccursAt(s, sub, j)
    ensures r.None? ==> forall j: nat :: !OccursAt(s, sub, j)
    decreases |s|
  {
    if OccursAt(s, sub, 0) then Some(0)
    else if s == [] then None
    else
      var rest := FirstOccurrence(s[1..], sub);
      assert forall j: nat :: OccursAt(s, sub, j + 1) == OccursAt(s[1..], sub, j) by {
        forall j: nat ensures OccursAt(s, sub, j + 1) == OccursAt(s[1..], sub, j) {
          OccursAtShift(s, sub, j);
        }
      }
      if rest.None? then
        assert forall j: nat :: !OccursAt(s, sub, j) by {
          forall j: nat ensures !OccursAt(s, sub, j) {
            if j > 0 { assert OccursAt(s, sub, (j - 1) + 1) == OccursAt(s[1..], sub, j - 1); }
          }
        }
        None
      else
        assert forall j: nat :: j < rest.value + 1 ==> !OccursAt(s, sub, j) by {
          forall j: nat | j < rest.value + 1 ensures !OccursAt(s, sub, j) {
            if j > 0 { assert OccursAt(s, sub, (j - 1) + 1) == OccursAt(s[1..], sub, j - 1); }
          }
        }
        Some(rest.value + 1)
  }

  /** `s.includes(sub)`. */
  predicate Contains(s: string, sub: string) {
    FirstOccurrence(s, sub).Some?
  }

  lemma ContainsIffOccurs(s: string, sub: string)
    ensures Contains(s, sub) <==> exists i: nat :: OccursAt(s, sub, i)
  {
    var r := FirstOccurrence(s, sub);
    if r.Some? { assert OccursAt(s, sub, r.value); }
  }

  /** A string in which the first character of `sub` never appears does not contain `sub`. */
  lemma {:induction false} MissingFirstCharNotContained(s: string, sub: string)
    requires |sub| > 0 && sub[0] !in s
    ensures !Contains(s, sub)
  {
    forall j: nat ensures !OccursAt(s, sub, j) {
      if j + |sub| <= |s| {
        assert s[j..j + |sub|][0] == s[j];
      }
    }
  }

  /** `s.replace(sub, '')`: removes the first occurrence of `sub`, if any. */
  function RemoveFirst(s: string, sub: string): (r: string)
    ensures !Contains(s, sub) ==> r == s
    ensures Contains(s, sub) ==> |r| == |s| - |sub|
  {
    match FirstOccurrence(s, sub)
    case None => s
    case Some(i) => s[..i] + s[i + |sub|..]
  }

  /** Putting the removed occurrence back at its index gives the original string. */
  lemma RemoveFirstReinsert(s: string, sub: string)
    requires Contains(s, sub)
    ensures var i := FirstOccurrence(s, sub).value;
      var r := RemoveFirst(s, sub);
      i <= |r| && r[..i] + sub + r[i..] == s
  {
    var i := FirstOccurrence(s, sub).value;
    var r := RemoveFirst(s, sub);
    assert r[..i] == s[..i];
    assert r[i..] == s[i + |sub|..];
    assert s == s[..i] + s[i..i + |sub|] + s[i + |sub|..];
  }

  /** When `s` starts with `sub`, removing the first occurrence strips that prefix. */
  lemma RemoveFirstOfPrefix(s: string, sub: string)
    requires |sub| <= |s| && s[..|sub|] == sub
    ensures RemoveFirst(s, sub) == s[|sub|..]
  {
    assert OccursAt(s, sub, 0);
  }

  /** The digit character for `d`. */
  function DigitChar(d: nat): (c: char)
    requires d < 10
    ensures '0' <= c <= '9' && (c as int) - ('0' as int) == d
  {
    (('0' as int) + d) as char
  }

  predicate IsDigits(s: string) {
    forall k :: 0 <= k < |s| ==> '0' <= s[k] <= '9'
  }

  /** The decimal rendering of a natural number, as in `${n}`. */
  function Decimal(n: nat): (r: string)
    ensures |r| >= 1 && IsDigits(r)
    ensures n > 0 ==> r[0] != '0'
    decreases n
  {
    if n < 10 then [DigitChar(n)] else Decimal(n / 10) + [DigitChar(n % 10)]
  }

  /** The decimal rendering of an integer, with a leading '-' for negatives. */
  function IntToString(n: int): string {
    if n < 0 then "-" + Decimal(-n) else Decimal(n)
  }

  /** Reads a string of decimal digits back as a number. */
  function ParseDecimal(s: string): nat
    requires IsDigits(s)
    decreases |s|
  {
    if s == [] then 0
    else ParseDecimal(s[..|s| - 1]) * 10 + ((s[|s| - 1] as int) - ('0' as int))
  }

  lemma {:induction false} DecimalRoundTrip(n: nat)
    ensures ParseDecimal(Decimal(n)) == n
    decreases n
  {
    if n >= 10 {
      var d := Decimal(n);
      assert d[..|d| - 1] == Decimal(n / 10);
      DecimalRoundTrip(n / 10);
    }
  }

  /** Different numbers render differently. */
  lemma DecimalInjective(m: nat, n: nat)
    requires Decimal(m) == Decimal(n)
    ensures m == n
  {
    DecimalRoundTrip(m);
    DecimalRoundTrip(n);
  }
}
