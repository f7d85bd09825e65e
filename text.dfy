/** The JavaScript string operations the source relies on: lower-casing,
    `includes`, splitting at a separator, and the decimal conversions
    `Number.prototype.toString` and `parseInt`. */
module Text {
  import opened Common

  /** Lower-casing of one character (ASCII letters only). */
  function LowerChar(c: char): char
  {
    if 'A' <= c <= 'Z' then (c as int + 32) as char else c
  }

  /** String.prototype.toLowerCase, restricted to ASCII letters. */
  function ToLower(s: string): (r: string)
    ensures |r| == |s|
    ensures forall i :: 0 <= i < |s| ==> r[i] == LowerChar(s[i])
  {
    if s == [] then [] else [LowerChar(s[0])] + ToLower(s[1..])
  }

  predicate StartsWith(s: string, p: string)
  {
    |p| <= |s| && s[..|p|] == p
  }

  /** String.prototype.includes, scanning start positions from the left. */
  predicate Includes(s: string, t: string)
    decreases |s|
  {
    StartsWith(s, t) || (s != [] && Includes(s[1..], t))
  }

  /** `t` occurs in `s` starting at position `i`. */
  predicate OccursAt(s: string, t: string, i: int)
  {
    0 <= i && i + |t| <= |s| && s[i..i + |t|] == t
  }

  /** `includes` holds exactly when `t` occurs at some position of `s`. */
  lemma {:induction false} IncludesIffOccurs(s: string, t: string)
    ensures Includes(s, t) <==> exists i :: OccursAt(s, t, i)
    decreases |s|
  {
    if StartsWith(s, t) {
      assert OccursAt(s, t, 0);
    } else if s == [] {
    } else {
      IncludesIffOccurs(s[1..], t);
      if Includes(s[1..], t) {
        var i :| OccursAt(s[1..], t, i);
        assert s[1..][i..i + |t|] == s[i + 1..i + 1 + |t|];
        assert OccursAt(s, t, i + 1);
      }
      if exists i :: OccursAt(s, t, i) {
        var i :| OccursAt(s, t, i);
        assert i != 0;
        assert s[1..][i - 1..i - 1 + |t|] == s[i..i + |t|];
        assert OccursAt(s[1..], t, i - 1);
      }
    }
  }

  /** Every string includes the empty string. */
  lemma IncludesEmpty(s: string)
    ensures Includes(s, "")
  {
  }

  /** The index of the first `c` in `s`, if any. */
  function IndexOf(s: string, c: char): (r: Option<nat>)
    ensures r.Some? ==> r.value < |s| && s[r.value] == c && c !in s[..r.value]
    ensures r.None? ==> c !in s
  {
    if s == [] then None
    else if s[0] == c then Some(0)
    else
      var k := IndexOf(s[1..], c);
      assert s == [s[0]] + s[1..];
      if k.Some? then
        assert s[..k.value + 1] == [s[0]] + s[1..][..k.value];
        Some(k.value + 1)
      else None
  }

  /** The part of `s` before the first `c` (all of `s` when there is none). */
  function UpTo(s: string, c: char): (r: string)
    ensures c !in r
    ensures |r| <= |s| && r == s[..|r|]
    ensures |r| < |s| ==> s[|r|] == c
  {
    var k := IndexOf(s, c);
    if k.Some? then s[..k.value] else s
  }

  /** The first `c` after a prefix free of `c` is at the end of the prefix. */
  lemma {:induction false} IndexOfAfterPrefix(p: string, c: char, t: string)
    requires c !in p
    ensures IndexOf(p + [c] + t, c) == Some(|p|)
  {
    if p != [] {
      assert (p + [c] + t)[1..] == p[1..] + [c] + t;
      IndexOfAfterPrefix(p[1..], c, t);
    }
  }

  /** A string without `c` is all before its first `c`. */
  lemma UpToAbsent(s: string, c: char)
    requires c !in s
    ensures UpTo(s, c) == s
  {
    assert IndexOf(s, c).None?;
  }

  /** JavaScript's `s.split(c)[1]`: the field after the first separator,
      or undefined (None) when `s` has no separator. */
  function SecondField(s: string, c: char): (r: Option<string>)
    ensures r.None? <==> c !in s
    ensures r.Some? ==> c !in r.value
    ensures r.Some? ==> exists k :: 0 <= k < |s| && s[k] == c && c !in s[..k] && k + 1 + |r.value| <= |s|
                                    && s[k + 1..k + 1 + |r.value|] == r.value
                                    && (k + 1 + |r.value| == |s| || s[k + 1 + |r.value|] == c)
  {
    var k := IndexOf(s, c);
    if k.Some? then
      var f := UpTo(s[k.value + 1..], c);
      assert s[k.value + 1..k.value + 1 + |f|] == f;
      Some(f)
    else None
  }

  predicate IsDigit(c: char)
  {
    '0' <= c <= '9'
  }

  predicate AllDigits(s: string)
  {
    forall i :: 0 <= i < |s| ==> IsDigit(s[i])
  }

  function DigitChar(d: nat): (c: char)
    requires d < 10
    ensures IsDigit(c)
  {
    ('0' as int + d) as char
  }

  function DigitValue(c: char): nat
    requires IsDigit(c)
  {
    c as int - '0' as int
  }

  /** The decimal digits of `n`, most significant first, without leading zeros. */
  function NatToString(n: nat): (s: string)
    ensures s != [] && AllDigits(s)
    ensures |s| > 1 ==> s[0] != '0'
    decreases n
  {
    if n < 10 then [DigitChar(n)] else NatToString(n / 10) + [DigitChar(n % 10)]
  }

  /** The number an all-digit string denotes in base 10. */
  function DigitsValue(s: string): nat
    requires AllDigits(s)
    decreases |s|
  {
    if s == [] then 0 else DigitsValue(s[..|s| - 1]) * 10 + DigitValue(s[|s| - 1])
  }

  /** Reading back the digits of `n` gives `n`. */
  lemma {:induction false} DigitsOfNatToString(n: nat)
    ensures DigitsValue(NatToString(n)) == n
    decreases n
  {
    if n >= 10 {
      var s := NatToString(n);
      assert s[..|s| - 1] == NatToString(n / 10);
      DigitsOfNatToString(n / 10);
    }
  }

  /** Different numbers have different decimal strings. */
  lemma NatToStringInjective(a: nat, b: nat)
    requires NatToString(a) == NatToString(b)
    ensures a == b
  {
    DigitsOfNatToString(a);
    DigitsOfNatToString(b);
  }

  /** Number.prototype.toString on an integer. */
  function IntToString(n: int): string
  {
    if n < 0 then "-" + NatToString(-n) else NatToString(n)
  }

  /** The leading white space `parseInt` skips (ASCII space, tab and line breaks). */
  predicate IsSpace(c: char)
  {
    c == ' ' || c == '\t' || c == '\n' || c == '\r'
  }

  function TrimStart(s: string): string
  {
    if s != [] && IsSpace(s[0]) then TrimStart(s[1..]) else s
  }

  /** The longest prefix of `s` made of digits. */
  function DigitPrefix(s: string): (d: string)
    ensures AllDigits(d)
  {
    if s != [] && IsDigit(s[0]) then [s[0]] + DigitPrefix(s[1..]) else []
  }

  /** The digits of an all-digit string are all of it. */
  lemma {:induction false} DigitPrefixOfDigits(s: string)
    ensures AllDigits(s) ==> DigitPrefix(s) == s
  {
    if s != [] && AllDigits(s) {
      DigitPrefixOfDigits(s[1..]);
    }
  }

  /** The number a leading run of digits denotes; None (NaN) when there is none. */
  function ParseDigits(u: string): Option<nat>
  {
    var d := DigitPrefix(u);
    if d == [] then None else Some(DigitsValue(d))
  }

  /** parseInt(s) on the text of a `type="number"` input: skip leading
      white space, read an optional sign and the longest run of decimal
      digits after it; None stands for NaN. Such inputs never deliver a
      "0x" prefix (which parseInt with no radix reads as hexadecimal) or
      white space outside ASCII, so neither is modelled. */
  function ParseInt(s: string): (r: Option<int>)
    ensures TrimStart(s) == [] ==> r.None?
    ensures s != [] && AllDigits(s) ==> r == Some(DigitsValue(s))
  {
    DigitPrefixOfDigits(s);
    var t := TrimStart(s);
    if t != [] && (t[0] == '-' || t[0] == '+') then
      var v := ParseDigits(t[1..]);
      if v.None? then None else if t[0] == '-' then Some(-(v.value as int)) else Some(v.value)
    else
      var v := ParseDigits(t);
      if v.None? then None else Some(v.value)
  }

  /** parseInt of a run of digits with a minus sign in front. */
  lemma ParseIntOfNegativeDigits(s: string)
    requires s != [] && AllDigits(s)
    ensures ParseInt("-" + s) == Some(-(DigitsValue(s) as int))
  {
    DigitPrefixOfDigits(s);
    SignedParse('-', s);
  }

  /** parseInt of a sign followed by text: the sign applied to the digits
      that follow it. */
  lemma SignedParse(sign: char, u: string)
    requires sign == '-' || sign == '+'
    ensures var v := ParseDigits(u);
            ParseInt([sign] + u) == if v.None? then None else if sign == '-' then Some(-(v.value as int)) else Some(v.value)
  {
    var m := [sign] + u;
    assert TrimStart(m) == m;
    assert m[1..] == u;
  }

  /** parseInt reads back what toString wrote. */
  lemma ParseIntOfIntToString(n: int)
    ensures ParseInt(IntToString(n)) == Some(n)
  {
    if n < 0 {
      ParseIntOfNegativeDigits(NatToString(-n));
      DigitsOfNatToString(-n);
    } else {
      DigitsOfNatToString(n);
    }
  }
}
