/**
 * The three Python string builtins the core relies on: `str.strip()`,
 * `str.lower()` and the substring test `needle in s`.
 */
module Strings {

  /** Python's `str.isspace` for one character: the set `str.strip()` removes. */
  predicate IsSpace(c: char) {
    var n := c as int;
    (9 <= n <= 13) || (28 <= n <= 32) || n == 0x85 || n == 0xA0 || n == 0x1680
    || (0x2000 <= n <= 0x200A) || n == 0x2028 || n == 0x2029 || n == 0x202F
    || n == 0x205F || n == 0x3000
  }

  /** Every character of `s` from `lo` up to `hi` is white space. */
  predicate SpaceBetween(s: string, lo: nat, hi: nat)
    requires lo <= hi <= |s|
  {
    forall i :: lo <= i < hi ==> IsSpace(s[i])
  }

  /** Neither the first nor the last character is white space. */
  predicate NoEdgeSpace(s: string) {
    s == [] || (!IsSpace(s[0]) && !IsSpace(s[|s| - 1]))
  }

  /** `r` is what is left of `s` once the white space before index `lead`
      and after `r` is cut away, and `r` starts and ends with non-space. */
  predicate StripsTo(s: string, lead: nat, r: string) {
    && lead + |r| <= |s|
    && s[lead..lead + |r|] == r
    && SpaceBetween(s, 0, lead)
    && SpaceBetween(s, lead + |r|, |s|)
    && NoEdgeSpace(r)
  }

  /** `s.lstrip()`. */
  function TrimStart(s: string): string {
    if s != [] && IsSpace(s[0]) then TrimStart(s[1..]) else s
  }

  /** `s.rstrip()`. */
  function TrimEnd(s: string): string {
    if s != [] && IsSpace(s[|s| - 1]) then TrimEnd(s[..|s| - 1]) else s
  }

  /** Python's `s.strip()`. */
  function Trim(s: string): string {
    TrimEnd(TrimStart(s))
  }

  /** `lstrip()` keeps a suffix, cuts only white space, and stops at non-space. */
  lemma {:induction false} TrimStartKeepsSuffix(s: string)
    ensures var r := TrimStart(s);
            && |r| <= |s| && r == s[|s| - |r|..]
            && SpaceBetween(s, 0, |s| - |r|)
            && (r == [] || !IsSpace(r[0]))
  {
    if s != [] && IsSpace(s[0]) {
      TrimStartKeepsSuffix(s[1..]);
      var r := TrimStart(s[1..]);
      assert forall i :: 1 <= i < |s| - |r| ==> s[i] == s[1..][i - 1];
    }
  }

  /** `rstrip()` keeps a prefix, cuts only white space, and stops at non-space. */
  lemma {:induction false} TrimEndKeepsPrefix(s: string)
    ensures var r := TrimEnd(s);
            && |r| <= |s| && r == s[..|r|]
            && SpaceBetween(s, |r|, |s|)
            && (r == [] || !IsSpace(r[|r| - 1]))
  {
    if s != [] && IsSpace(s[|s| - 1]) {
      TrimEndKeepsPrefix(s[..|s| - 1]);
      var r := TrimEnd(s[..|s| - 1]);
      assert forall i :: |r| <= i < |s| - 1 ==> s[i] == s[..|s| - 1][i];
    }
  }

  /** `strip()` keeps a contiguous part of its input that neither starts nor
      ends with white space, and cuts only white space around it. */
  lemma TrimStrips(s: string)
    ensures |TrimStart(s)| <= |s| && StripsTo(s, |s| - |TrimStart(s)|, Trim(s))
  {
    TrimStartKeepsSuffix(s);
    TrimEndKeepsPrefix(TrimStart(s));
    StripsToFromParts(s, TrimStart(s), Trim(s));
  }

  /** What TrimStart and TrimEnd promise, put together, with their
      definitions kept out of sight. */
  lemma StripsToFromParts(s: string, t: string, r: string)
    requires |t| <= |s| && t == s[|s| - |t|..] && SpaceBetween(s, 0, |s| - |t|) && (t == [] || !IsSpace(t[0]))
    requires |r| <= |t| && r == t[..|r|] && SpaceBetween(t, |r|, |t|) && (r == [] || !IsSpace(r[|r| - 1]))
    ensures StripsTo(s, |s| - |t|, r)
  {
    var lead := |s| - |t|;
    assert SpaceBetween(s, lead + |r|, |s|) by {
      forall i | lead + |r| <= i < |s|
        ensures IsSpace(s[i])
      {
        assert s[i] == t[i - lead];
      }
    }
    assert r == [] || !IsSpace(r[0]) by {
      if r != [] { assert r[0] == t[0]; }
    }
  }

  /** At most one string is `s` stripped: StripsTo pins Trim down completely. */
  lemma StripIsUnique(s: string, lead1: nat, r1: string, lead2: nat, r2: string)
    requires StripsTo(s, lead1, r1) && StripsTo(s, lead2, r2)
    ensures r1 == r2
  {
    if r1 != [] && r2 != [] {
      // both results begin at the first non-space character of s ...
      assert s[lead1] == r1[0] && s[lead2] == r2[0];
      assert lead1 == lead2;
      // ... and end at its last one
      assert s[lead1 + |r1| - 1] == r1[|r1| - 1] && s[lead2 + |r2| - 1] == r2[|r2| - 1];
      assert |r1| == |r2|;
    } else if r1 != [] {
      // r2 is empty, so s is all white space, yet r1 holds a non-space character of s
      assert false;
    } else if r2 != [] {
      assert false;
    }
  }

  /** `s.strip()` is empty exactly when `s` is all white space. */
  lemma TrimEmptyIffBlank(s: string)
    ensures Trim(s) == "" <==> SpaceBetween(s, 0, |s|)
  {
    TrimStrips(s);
    var lead := |s| - |TrimStart(s)|;
    if Trim(s) == "" {
      forall i | 0 <= i < |s|
        ensures IsSpace(s[i])
      {
        if i < lead {
          assert SpaceBetween(s, 0, lead);
        } else {
          assert SpaceBetween(s, lead, |s|);
        }
      }
    } else {
      assert s[lead] == Trim(s)[0] && !IsSpace(s[lead]);
    }
  }

  /** Lower-casing twice is lower-casing once. */
  lemma LowerIdempotent(s: string)
    ensures Lower(Lower(s)) == Lower(s)
  {
  }

  /** Stripping twice is stripping once. */
  lemma {:induction false} TrimIdempotent(s: string)
    ensures Trim(Trim(s)) == Trim(s)
  {
    var r := Trim(s);
    TrimStrips(s);
    TrimStrips(r);
    assert r[0..|r|] == r;
    assert StripsTo(r, 0, r);
    StripIsUnique(r, 0, r, |r| - |TrimStart(r)|, Trim(r));
  }

  /** `c.lower()` on the ASCII letters. */
  function LowerChar(c: char): char {
    if 'A' <= c <= 'Z' then (c as int + 32) as char else c
  }

  /** Python's `s.lower()`, restricted to ASCII case mapping. */
  function Lower(s: string): (r: string)
    ensures |r| == |s|
    ensures forall i :: 0 <= i < |r| ==> !('A' <= r[i] <= 'Z')
    ensures forall i :: 0 <= i < |s| && 'A' <= s[i] <= 'Z' ==> 'a' <= r[i] <= 'z' && r[i] as int - s[i] as int == 32
    ensures forall i :: 0 <= i < |s| && !('A' <= s[i] <= 'Z') ==> r[i] == s[i]
  {
    seq(|s|, i requires 0 <= i < |s| => LowerChar(s[i]))
  }

  /** `needle` occurs in `s` starting at index `i`. */
  predicate OccursAt(needle: string, s: string, i: nat) {
    i + |needle| <= |s| && s[i..i + |needle|] == needle
  }

  ghost predicate Occurs(needle: string, s: string) {
    exists i: nat :: OccursAt(needle, s, i)
  }

  /** Python's `needle in s`, computed left to right. */
  function Contains(s: string, needle: string): bool {
    if |s| < |needle| then false
    else s[..|needle|] == needle || Contains(s[1..], needle)
  }

  /** The computed substring test agrees with the definition by position. */
  lemma {:induction false} ContainsIffOccurs(s: string, needle: string)
    ensures Contains(s, needle) <==> Occurs(needle, s)
  {
    if |s| < |needle| {
    } else if s[..|needle|] == needle {
      assert OccursAt(needle, s, 0);
    } else {
      ContainsIffOccurs(s[1..], needle);
      if Occurs(needle, s[1..]) {
        var i: nat :| OccursAt(needle, s[1..], i);
        assert s[1..][i..i + |needle|] == s[i + 1..i + 1 + |needle|];
        assert OccursAt(needle, s, i + 1);
      }
      if Occurs(needle, s) {
        var i: nat :| OccursAt(needle, s, i);
        assert i != 0;
        assert s[1..][i - 1..i - 1 + |needle|] == s[i..i + |needle|];
        assert OccursAt(needle, s[1..], i - 1);
      }
    }
  }
}
