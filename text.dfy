/**
 * String operations of the JavaScript runtime that the application leans on:
 * `trim`, `toLowerCase` (ASCII letters only), `includes`, `startsWith` and
 * number-to-decimal conversion inside template strings.
 */
module Text {

  /** The characters matched by `\s` and removed by `String.prototype.trim`. */
  predicate IsJsSpace(c: char)
  {
    || c == ' ' || c == '\t' || c == '\n' || c == '\r'
    || c == '\U{000B}' || c == '\U{000C}' || c == '\U{00A0}' || c == '\U{1680}'
    || ('\U{2000}' <= c <= '\U{200A}')
    || c == '\U{2028}' || c == '\U{2029}' || c == '\U{202F}' || c == '\U{205F}'
    || c == '\U{3000}' || c == '\U{FEFF}'
  }

  predicate AllSpace(s: string)
  {
    forall i | 0 <= i < |s| :: IsJsSpace(s[i])
  }

  function TrimStart(s: string): (r: string)
    ensures |r| <= |s| && r == s[|s| - |r|..]
    ensures r == [] || !IsJsSpace(r[0])
    ensures AllSpace(s[..|s| - |r|])
  {
    if s != [] && IsJsSpace(s[0]) then TrimStart(s[1..]) else s
  }

  function TrimEnd(s: string): (r: string)
    ensures |r| <= |s| && r == s[..|r|]
    ensures r == [] || !IsJsSpace(r[|r| - 1])
    ensures AllSpace(s[|r|..])
  {
    if s != [] && IsJsSpace(s[|s| - 1]) then
      var r := TrimEnd(s[..|s| - 1]);
      SpaceSuffixStep(s, |r|);
      r
    else s
  }

  /** A white-space suffix of `s[..|s| - 1]` followed by a white-space last character is a white-space suffix of `s`. */
  lemma SpaceSuffixStep(s: string, n: nat)
    requires s != [] && IsJsSpace(s[|s| - 1]) && n <= |s| - 1 && AllSpace(s[..|s| - 1][n..])
    ensures AllSpace(s[n..])
  {
    forall i | n <= i < |s| - 1
      ensures IsJsSpace(s[i])
    {
      assert s[i] == s[..|s| - 1][n..][i - n];
    }
  }

  /** `s.trim()`: the longest infix of `s` that neither starts nor ends with white space. */
  function Trim(s: string): (r: string)
    ensures |r| <= |s|
    ensures r == [] || (!IsJsSpace(r[0]) && !IsJsSpace(r[|r| - 1]))
    ensures r == [] <==> AllSpace(s)
  {
    var t := TrimStart(s);
    var r := TrimEnd(t);
    TrimEmptyIffAllSpace(s, t, r);
    assert r != [] ==> r[0] == t[0];
    r
  }

  /** `r` occurs in `s` starting at index `k`. */
  predicate SliceAt(r: string, s: string, k: nat)
  {
    k + |r| <= |s| && r == s[k..k + |r|]
  }

  /** `t` is what is left of `s` after a white-space prefix. */
  predicate AfterSpace(s: string, t: string)
  {
    |t| <= |s| && t == s[|s| - |t|..] && AllSpace(s[..|s| - |t|])
  }

  /** `r` is what is left of `t` before a white-space suffix. */
  predicate BeforeSpace(t: string, r: string)
  {
    |r| <= |t| && r == t[..|r|] && AllSpace(t[|r|..])
  }

  /** The trimmed string `r` is the infix of `s` at `|s| - |t|`, where `t` is `s` without its leading white space. */
  lemma {:induction false} TrimIsInfix(s: string, t: string, r: string)
    requires t == TrimStart(s) && r == Trim(s)
    ensures SliceAt(r, s, |s| - |t|)
  {
    TrimSplits(s, t, r);
    InfixBetweenSpace(s, t, r);
  }

  /** Only white space precedes and follows that infix in `s`. */
  lemma {:induction false} TrimDropsOnlySpace(s: string, t: string, r: string)
    requires t == TrimStart(s) && r == Trim(s)
    ensures |s| - |t| + |r| <= |s|
    ensures AllSpace(s[..|s| - |t|]) && AllSpace(s[|s| - |t| + |r|..])
  {
    TrimSplits(s, t, r);
    InfixBetweenSpace(s, t, r);
  }

  lemma TrimSplits(s: string, t: string, r: string)
    requires t == TrimStart(s) && r == Trim(s)
    ensures AfterSpace(s, t) && BeforeSpace(t, r)
  {
    assert r == TrimEnd(t);
  }

  /** A white-space-free middle `r` of `s`, with the white space around it. */
  lemma InfixBetweenSpace(s: string, t: string, r: string)
    requires AfterSpace(s, t) && BeforeSpace(t, r)
    ensures SliceAt(r, s, |s| - |t|)
    ensures AllSpace(s[..|s| - |t|]) && AllSpace(s[|s| - |t| + |r|..])
  {
    assert t[|r|..] == s[|s| - |t| + |r|..];
  }

  lemma TrimEmptyIffAllSpace(s: string, t: string, r: string)
    requires t == TrimStart(s) && r == TrimEnd(t)
    ensures r == [] <==> AllSpace(s)
  {
    if r == [] {
      assert s[..|s| - |t|] == s;
    }
  }

  /** `!s.trim()`: the string is empty or white space only. */
  predicate IsBlank(s: string)
  {
    Trim(s) == []
  }

  /** Neither end of `s` is white space, and `s` is not empty. */
  predicate IsTrimmed(s: string)
  {
    s != [] && !IsJsSpace(s[0]) && !IsJsSpace(s[|s| - 1])
  }

  /** Trimming leaves such a string alone, so it is not blank. */
  lemma TrimKeepsTrimmed(s: string)
    requires IsTrimmed(s)
    ensures Trim(s) == s && !IsBlank(s)
  {
    assert TrimStart(s) == s;
  }

  /** `s.trim() || null` */
  function TrimmedOrNull(s: string): (r: Option<string>)
    ensures r == None <==> AllSpace(s)
    ensures r.Some? ==> r.value == Trim(s) && r.value != []
  {
    var t := Trim(s);
    if t == [] then None else Some(t)
  }

  /** `s || null` */
  function EmptyToNull(s: string): (r: Option<string>)
    ensures r == None <==> s == []
    ensures r.Some? ==> r.value == s
  {
    if s == [] then None else Some(s)
  }

  /** `s || fallback` for a string that may be null: null and '' both take the fallback. */
  function StringOr(s: Option<string>, fallback: string): (r: string)
    ensures s.Some? && s.value != [] ==> r == s.value
    ensures s.None? || s.value == [] ==> r == fallback
  {
    if s.Some? && s.value != [] then s.value else fallback
  }

  datatype Option<+T> = None | Some(value: T)

  predicate IsAsciiUpper(c: char) { 'A' <= c <= 'Z' }

  function LowerChar(c: char): (r: char)
    ensures !IsAsciiUpper(r)
    ensures !IsAsciiUpper(c) ==> r == c
  {
    if IsAsciiUpper(c) then (c as int + 32) as char else c
  }

  /** `s.toLowerCase()` restricted to the ASCII letters. */
  function Lower(s: string): (r: string)
    ensures |r| == |s|
    ensures forall i | 0 <= i < |s| :: r[i] == LowerChar(s[i])
  {
    seq(|s|, i requires 0 <= i < |s| => LowerChar(s[i]))
  }

  /** `s.startsWith(p)` */
  predicate StartsWith(s: string, p: string)
  {
    |p| <= |s| && s[..|p|] == p
  }

  /** `hay.includes(needle)` */
  predicate Contains(hay: string, needle: string)
    decreases |hay|
  {
    StartsWith(hay, needle) || (hay != [] && Contains(hay[1..], needle))
  }

  /** `needle` occurs in `hay` at offset `k`. */
  predicate OccursAt(hay: string, needle: string, k: int)
  {
    0 <= k && k + |needle| <= |hay| && hay[k..k + |needle|] == needle
  }

  /** `includes` holds exactly when `needle` occurs at some offset of `hay`. */
  lemma {:induction false} ContainsIffOccurs(hay: string, needle: string)
    ensures Contains(hay, needle) <==> exists k :: OccursAt(hay, needle, k)
    decreases |hay|
  {
    if StartsWith(hay, needle) {
      assert OccursAt(hay, needle, 0);
    } else if hay == [] {
    } else {
      ContainsIffOccurs(hay[1..], needle);
      if exists k :: OccursAt(hay, needle, k) {
        var k :| OccursAt(hay, needle, k);
        assert k != 0;
        assert hay[1..][k - 1..k - 1 + |needle|] == hay[k..k + |needle|];
        assert OccursAt(hay[1..], needle, k - 1);
      }
      if Contains(hay[1..], needle) {
        var k :| OccursAt(hay[1..], needle, k);
        assert hay[k + 1..k + 1 + |needle|] == hay[1..][k..k + |needle|];
        assert OccursAt(hay, needle, k + 1);
      }
    }
  }

  /** Every string includes the empty string. */
  lemma ContainsEmpty(hay: string)
    ensures Contains(hay, [])
  {
    assert StartsWith(hay, []);
  }

  function DigitChar(d: nat): (c: char)
    requires d < 10
    ensures '0' <= c <= '9'
  {
    ('0' as int + d) as char
  }

  /** Decimal rendering of a natural number, as a template string prints it. */
  function NatToString(n: nat): (r: string)
    ensures r != []
    ensures forall i | 0 <= i < |r| :: '0' <= r[i] <= '9'
    ensures n > 0 ==> r[0] != '0'
  {
    if n < 10 then [DigitChar(n)] else NatToString(n / 10) + [DigitChar(n % 10)]
  }

  /** The number a string of decimal digits denotes, read most significant digit first. */
  function DigitsValue(r: string): (v: nat)
    ensures r == [] ==> v == 0
  {
    if r == [] then 0
    else
      var c := r[|r| - 1];
      DigitsValue(r[..|r| - 1]) * 10 + (if '0' <= c <= '9' then c as int - '0' as int else 0)
  }

  /** Reading back the rendering of `n` gives `n`. */
  lemma {:induction false} NatToStringValue(n: nat)
    ensures DigitsValue(NatToString(n)) == n
  {
    if n >= 10 {
      NatToStringValue(n / 10);
      var r := NatToString(n);
      assert r[..|r| - 1] == NatToString(n / 10);
    }
  }

  /** Distinct numbers render differently. */
  lemma NatToStringInjective(m: nat, n: nat)
    requires NatToString(m) == NatToString(n)
    ensures m == n
  {
    NatToStringValue(m);
    NatToStringValue(n);
  }
}
