/** The Python string built-ins the core relies on, restricted to what it uses:
    str.lower(), str.strip(), the substring test `t in s`, os.path.basename,
    str(int) and int(str). Characters are Unicode scalar values; lower-casing
    and white space are those of the ASCII range. */
module PyStr {
  import opened PyBase

  /** The ASCII characters for which str.isspace() holds, which str.strip()
      removes: tab, line feed, vertical tab, form feed, carriage return, the
      four information separators 0x1C..0x1F and the space. */
  predicate IsSpace(c: char) {
    9 <= c as int <= 13 || 28 <= c as int <= 32
  }

  /** The ASCII characters int() skips around a number: C's isspace(), that
      is the white space above without the information separators. */
  predicate IsIntSpace(c: char) {
    9 <= c as int <= 13 || c == ' '
  }

  /** Which white space is trimmed: str.strip()'s or int()'s. */
  datatype Spaces = StrSpaces | IntSpaces

  predicate IsSpaceIn(ws: Spaces, c: char) {
    match ws
    case StrSpaces => IsSpace(c)
    case IntSpaces => IsIntSpace(c)
  }

  predicate IsUpper(c: char) {
    'A' <= c <= 'Z'
  }

  function LowerChar(c: char): (r: char)
    ensures !IsUpper(r)
    ensures IsSpace(r) <==> IsSpace(c)
  {
    if IsUpper(c) then (c as int + 32) as char else c
  }

  /** str.lower() on ASCII letters. */
  function Lower(s: string): (r: string)
    ensures |r| == |s|
    ensures forall i :: 0 <= i < |s| ==> r[i] == LowerChar(s[i])
    ensures forall i :: 0 <= i < |r| ==> !IsUpper(r[i])
  {
    if s == [] then [] else [LowerChar(s[0])] + Lower(s[1..])
  }

  /** Lower-casing works character by character, so it commutes with taking a
      suffix. */
  lemma LowerSuffix(p: string, b: string)
    requires |b| <= |p| && b == p[|p| - |b|..]
    ensures Lower(b) == Lower(p)[|p| - |b|..]
  {
    var lp := Lower(p);
    forall i | 0 <= i < |b|
      ensures Lower(b)[i] == lp[|p| - |b| + i]
    {
      assert b[i] == p[|p| - |b| + i];
    }
  }

  /** Lower-casing leaves every character that is not an upper-case letter, so
      it neither adds nor removes one. */
  lemma LowerKeepsNonLetter(s: string, c: char)
    requires !IsUpper(c) && !('a' <= c <= 'z')
    ensures c in Lower(s) <==> c in s
  {
    if c in s {
      var i :| 0 <= i < |s| && s[i] == c;
      assert Lower(s)[i] == c;
    }
    if c in Lower(s) {
      var i :| 0 <= i < |s| && Lower(s)[i] == c;
      assert LowerChar(s[i]) == c;
    }
  }

  /** The index of the first character at or after `i` that is not white
      space, or |s| when there is none. */
  function SkipSpace(ws: Spaces, s: string, i: nat): (r: nat)
    requires i <= |s|
    ensures i <= r <= |s|
    ensures forall k :: i <= k < r ==> IsSpaceIn(ws, s[k])
    ensures r == |s| || !IsSpaceIn(ws, s[r])
    decreases |s| - i
  {
    if i < |s| && IsSpaceIn(ws, s[i]) then SkipSpace(ws, s, i + 1) else i
  }

  /** The index just after the last character before `j`, and at or after
      `lo`, that is not white space, or `lo` when there is none. */
  function SkipSpaceBack(ws: Spaces, s: string, lo: nat, j: nat): (r: nat)
    requires lo <= j <= |s|
    ensures lo <= r <= j
    ensures forall k :: r <= k < j ==> IsSpaceIn(ws, s[k])
    ensures r == lo || !IsSpaceIn(ws, s[r - 1])
  {
    if lo < j && IsSpaceIn(ws, s[j - 1]) then SkipSpaceBack(ws, s, lo, j - 1) else j
  }

  /** Where the kept slice starts. */
  function TrimStart(ws: Spaces, s: string): (i: nat)
    ensures i <= |s|
    ensures forall k :: 0 <= k < i ==> IsSpaceIn(ws, s[k])
    ensures i == |s| || !IsSpaceIn(ws, s[i])
  {
    SkipSpace(ws, s, 0)
  }

  /** Where the kept slice ends: nothing from here on, and nothing before
      TrimStart, is kept. */
  function TrimEnd(ws: Spaces, s: string): (j: nat)
    ensures TrimStart(ws, s) <= j <= |s|
    ensures forall k :: j <= k < |s| ==> IsSpaceIn(ws, s[k])
    ensures j == TrimStart(ws, s) || !IsSpaceIn(ws, s[j - 1])
  {
    SkipSpaceBack(ws, s, TrimStart(ws, s), |s|)
  }

  /** The slice between the leading and the trailing white space of the kind
      `ws`. It starts and ends with a character that is not such white space,
      so trimming twice changes nothing more. */
  function Trim(ws: Spaces, s: string): (r: string)
    ensures |r| == TrimEnd(ws, s) - TrimStart(ws, s)
    ensures forall k :: 0 <= k < |r| ==> r[k] == s[TrimStart(ws, s) + k]
    ensures r == [] || (!IsSpaceIn(ws, r[0]) && !IsSpaceIn(ws, r[|r| - 1]))
  {
    s[TrimStart(ws, s)..TrimEnd(ws, s)]
  }

  /** str.strip(). */
  function Strip(s: string): string {
    Trim(StrSpaces, s)
  }

  /** A string without white space at either end is left as it is. */
  lemma TrimUnchanged(ws: Spaces, s: string)
    requires s == [] || (!IsSpaceIn(ws, s[0]) && !IsSpaceIn(ws, s[|s| - 1]))
    ensures Trim(ws, s) == s
  {
    if s != [] {
      assert TrimStart(ws, s) == 0;
      assert TrimEnd(ws, s) == |s|;
    }
  }

  /** str.strip() is idempotent. */
  lemma StripIdempotent(s: string)
    ensures Strip(Strip(s)) == Strip(s)
  {
    TrimUnchanged(StrSpaces, Strip(s));
  }

  /** `t` occurs in `s` starting at position `i`. */
  ghost predicate OccursAt(s: string, t: string, i: int) {
    0 <= i <= |s| - |t| && s[i..i + |t|] == t
  }

  /** The substring test `t in s`, by trying each start position in turn. */
  function Contains(s: string, t: string): bool {
    if |t| <= |s| && s[..|t|] == t then true
    else if s == [] then false
    else Contains(s[1..], t)
  }

  /** `t in s` holds exactly when `t` occurs in `s` at some position. */
  lemma {:induction false} ContainsIff(s: string, t: string)
    ensures Contains(s, t) <==> exists i :: OccursAt(s, t, i)
  {
    if |t| <= |s| && s[..|t|] == t {
      assert OccursAt(s, t, 0);
    } else if s != [] {
      ContainsIff(s[1..], t);
      if Contains(s[1..], t) {
        var i :| OccursAt(s[1..], t, i);
        assert s[1..][i..i + |t|] == s[i + 1..i + 1 + |t|];
        assert OccursAt(s, t, i + 1);
      }
      if exists i :: OccursAt(s, t, i) {
        var i :| OccursAt(s, t, i);
        assert i != 0;
        assert s[1..][i - 1..i - 1 + |t|] == s[i..i + |t|];
        assert OccursAt(s[1..], t, i - 1);
      }
    }
  }

  lemma ContainsEmpty(s: string)
    ensures Contains(s, "")
  {
  }

  /** An occurrence at a known position makes `t` a substring of `s`. */
  lemma ContainsAt(s: string, t: string, i: int)
    requires OccursAt(s, t, i)
    ensures Contains(s, t)
  {
    ContainsIff(s, t);
  }

  /** os.path.basename for POSIX paths: the part after the last '/'. */
  function Basename(p: string): (r: string)
    ensures |r| <= |p| && r == p[|p| - |r|..]
    ensures '/' !in r
    ensures |r| < |p| ==> p[|p| - |r| - 1] == '/'
  {
    if p == [] || p[|p| - 1] == '/' then
      []
    else
      var r := Basename(p[..|p| - 1]) + [p[|p| - 1]];
      assert p[..|p| - 1][|p| - |r|..] + [p[|p| - 1]] == p[|p| - |r|..];
      r
  }

  predicate IsDigit(c: char) {
    '0' <= c <= '9'
  }

  predicate AllDigits(s: string) {
    forall i :: 0 <= i < |s| ==> IsDigit(s[i])
  }

  function DigitValue(c: char): nat
    requires IsDigit(c)
  {
    c as int - '0' as int
  }

  function DigitChar(d: nat): (c: char)
    requires d < 10
    ensures IsDigit(c) && DigitValue(c) == d
  {
    ('0' as int + d) as char
  }

  /** str(n) for n >= 0: decimal digits without leading zeros. */
  function NatToStr(n: nat): (r: string)
    ensures |r| > 0 && AllDigits(r)
    ensures r[0] == '0' ==> n == 0
  {
    if n < 10 then [DigitChar(n)] else NatToStr(n / 10) + [DigitChar(n % 10)]
  }

  /** str(n) for any integer. */
  function IntToStr(n: int): string {
    if n < 0 then "-" + NatToStr(-n) else NatToStr(n)
  }

  /** The value of a string of decimal digits, most significant first. */
  function DigitsValue(s: string): nat
    requires AllDigits(s)
  {
    if s == [] then 0 else DigitsValue(s[..|s| - 1]) * 10 + DigitValue(s[|s| - 1])
  }

  /** Position `i` holds a digit, or an underscore followed by a digit. */
  predicate DigitOrJoin(s: string, i: int)
    requires 0 <= i < |s|
  {
    IsDigit(s[i]) || (s[i] == '_' && i + 1 < |s| && IsDigit(s[i + 1]))
  }

  /** Digits with single underscores between them, as int() accepts them. */
  predicate ValidDigits(s: string) {
    |s| > 0 && IsDigit(s[0]) && forall i :: 0 <= i < |s| ==> DigitOrJoin(s, i)
  }

  function RemoveUnderscores(s: string): (r: string)
    ensures (forall i :: 0 <= i < |s| ==> IsDigit(s[i]) || s[i] == '_') ==> AllDigits(r)
    ensures AllDigits(s) ==> r == s
  {
    if s == [] then [] else (if s[0] == '_' then [] else [s[0]]) + RemoveUnderscores(s[1..])
  }

  function ParseUnsigned(s: string): Option<nat> {
    if ValidDigits(s) then
      assert forall i :: 0 <= i < |s| ==> IsDigit(s[i]) || s[i] == '_' by {
        forall i | 0 <= i < |s| ensures IsDigit(s[i]) || s[i] == '_' {
          assert DigitOrJoin(s, i);
        }
      }
      Some(DigitsValue(RemoveUnderscores(s)))
    else
      None
  }

  /** int(s) for a base-10 string: surrounding white space as C's isspace()
      knows it (not the information separators str.strip() also removes), an
      optional sign and digits with single underscores between them; anything
      else raises ValueError, here None. */
  function ParseInt(s: string): Option<int> {
    ParseSigned(Trim(IntSpaces, s))
  }

  /** int() once the white space is stripped: an optional sign, then digits. */
  function ParseSigned(t: string): Option<int> {
    if |t| > 0 && (t[0] == '+' || t[0] == '-') then
      match ParseUnsigned(t[1..])
      case None => None
      case Some(n) => Some(if t[0] == '-' then -(n as int) else n)
    else
      match ParseUnsigned(t)
      case None => None
      case Some(n) => Some(n)
  }

  lemma {:induction false} NatToStrValue(n: nat)
    ensures DigitsValue(NatToStr(n)) == n
    decreases n
  {
    if n >= 10 {
      var s := NatToStr(n);
      assert s[..|s| - 1] == NatToStr(n / 10);
      NatToStrValue(n / 10);
    }
  }

  lemma ParseUnsignedNatToStr(n: nat)
    ensures ParseUnsigned(NatToStr(n)) == Some(n)
  {
    var d := NatToStr(n);
    NatToStrValue(n);
    assert ValidDigits(d);
    assert RemoveUnderscores(d) == d;
  }

  lemma ParseSignedIntToStr(n: int)
    ensures ParseSigned(IntToStr(n)) == Some(n)
  {
    var s := IntToStr(n);
    if n < 0 {
      var d := NatToStr(-n);
      assert s == "-" + d;
      assert s[0] == '-' && s[1..] == d;
      ParseUnsignedNatToStr(-n);
      assert ParseUnsigned(s[1..]) == Some(-n);
    } else {
      var d := NatToStr(n);
      assert s == d;
      assert IsDigit(s[0]);
      ParseUnsignedNatToStr(n);
      assert ParseUnsigned(s) == Some(n);
    }
  }

  /** int(str(n)) == n. */
  lemma IntToStrRoundTrip(n: int)
    ensures ParseInt(IntToStr(n)) == Some(n)
  {
    var s := IntToStr(n);
    var d := NatToStr(if n < 0 then -n else n);
    assert !IsIntSpace(s[0]) && !IsIntSpace(s[|s| - 1]) by {
      assert s[|s| - 1] == d[|d| - 1];
    }
    TrimUnchanged(IntSpaces, s);
    ParseSignedIntToStr(n);
  }

  /** int() accepts only signs, digits and underscores between the white space. */
  lemma ParseIntChars(s: string, k: int)
    requires 0 <= k < |s| && !IsIntSpace(s[k]) && !IsDigit(s[k])
    requires s[k] != '_' && s[k] != '+' && s[k] != '-'
    ensures ParseInt(s).None?
  {
    var t := Trim(IntSpaces, s);
    var i := TrimStart(IntSpaces, s);
    assert i <= k < TrimEnd(IntSpaces, s);
    assert t[k - i] == s[k];
    if |t| > 0 && (t[0] == '+' || t[0] == '-') {
      var u := t[1..];
      assert u[k - i - 1] == s[k];
      assert !DigitOrJoin(u, k - i - 1);
    } else {
      assert !DigitOrJoin(t, k - i);
    }
  }

  /** str(n) never contains a given non-digit other than '-'. */
  lemma IntToStrChars(n: int, c: char)
    requires !IsDigit(c) && c != '-'
    ensures c !in IntToStr(n)
  {
    var d := NatToStr(if n < 0 then -n else n);
    assert c !in d;
  }
}
