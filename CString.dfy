/** The C library string operations the server relies on, over ASCII text:
    strcmp/strcasecmp equality, strncpy truncation, strstr, strchr,
    `%d` printing and `%d` scanning. */
module CString {
  import opened Wrappers

  /** tolower() in the C locale: only 'A'..'Z' change. */
  function LowerChar(c: char): (r: char)
    ensures 'A' <= c <= 'Z' ==> r as int == c as int + 32
    ensures !('A' <= c <= 'Z') ==> r == c
  {
    if 'A' <= c <= 'Z' then (c as int + 32) as char else c
  }

  /** strcasecmp(a, b) == 0: the same length, and the same characters once
      both are put in lower case. */
  predicate CaseEq(a: string, b: string) {
    |a| == |b| && forall i :: 0 <= i < |a| ==> LowerChar(a[i]) == LowerChar(b[i])
  }

  lemma CaseEqSymmetric(a: string, b: string)
    requires CaseEq(a, b)
    ensures CaseEq(b, a)
  {
  }

  lemma CaseEqTransitive(a: string, b: string, c: string)
    requires CaseEq(a, b) && CaseEq(b, c)
    ensures CaseEq(a, c)
  {
  }

  /** Two strings that differ, case aside, in their first character are
      not equal under strcasecmp. */
  lemma CaseEqHead(a: string, b: string)
    requires |a| > 0 && CaseEq(a, b)
    ensures |b| > 0 && LowerChar(a[0]) == LowerChar(b[0])
  {
  }

  predicate StartsWith(s: string, p: string) {
    |p| <= |s| && s[..|p|] == p
  }

  /** The C idiom `len >= n && strcmp(&s[len - n], suffix) == 0`. */
  predicate EndsWith(s: string, suffix: string) {
    |suffix| <= |s| && s[|s| - |suffix|..] == suffix
  }

  /** t occurs in s at position i. */
  predicate OccursAt(s: string, t: string, i: nat) {
    i + |t| <= |s| && s[i..i + |t|] == t
  }

  /** strstr(s, t) != NULL */
  predicate Contains(s: string, t: string) {
    exists i: nat :: i <= |s| && OccursAt(s, t, i)
  }

  lemma OccursAtTail(s: string, t: string, j: nat)
    requires |s| > 0
    ensures OccursAt(s, t, j + 1) <==> OccursAt(s[1..], t, j)
  {
    if j + 1 + |t| <= |s| {
      assert s[j + 1..j + 1 + |t|] == s[1..][j..j + |t|];
    }
  }

  /** The position strstr(s, t) points at, when it does not return NULL. */
  function Find(s: string, t: string): (r: Option<nat>)
    ensures r.Some? ==> r.value + |t| <= |s|
    decreases |s|
  {
    if |t| > |s| then None
    else if s[..|t|] == t then Some(0)
    else match Find(s[1..], t)
      case None => None
      case Some(k) => Some(k + 1)
  }

  /** strstr finds the first occurrence, and finds none only when there is
      none. */
  lemma {:induction false} FindSpec(s: string, t: string)
    ensures Find(s, t).Some? ==> OccursAt(s, t, Find(s, t).value)
    ensures Find(s, t).Some? ==> forall j: nat :: j < Find(s, t).value ==> !OccursAt(s, t, j)
    ensures Find(s, t).None? <==> !Contains(s, t)
    decreases |s|
  {
    if |t| > |s| {
      assert forall j: nat :: !OccursAt(s, t, j);
    } else if s[..|t|] == t {
      assert OccursAt(s, t, 0);
    } else {
      FindSpec(s[1..], t);
      var r := Find(s[1..], t);
      assert !OccursAt(s, t, 0);
      if r.None? {
        forall j: nat ensures !OccursAt(s, t, j) {
          if j > 0 { OccursAtTail(s, t, j - 1); }
        }
      } else {
        OccursAtTail(s, t, r.value);
        forall j: nat | j < r.value + 1 ensures !OccursAt(s, t, j) {
          if j > 0 { OccursAtTail(s, t, j - 1); }
        }
      }
    }
  }

  /** The search moves on by one character when t does not start s. */
  lemma FindSkip(s: string, t: string)
    requires |t| <= |s| && s[..|t|] != t
    ensures Find(s, t) == (if Find(s[1..], t).Some? then Some(Find(s[1..], t).value + 1) else None)
  {
  }

  /** The position strchr(s, c) points at, when it does not return NULL. */
  function IndexOf(s: string, c: char): (r: Option<nat>)
    ensures r.Some? ==> r.value < |s| && s[r.value] == c && c !in s[..r.value]
    ensures r.None? <==> c !in s
  {
    if s == [] then None
    else if s[0] == c then Some(0)
    else match IndexOf(s[1..], c)
      case None => None
      case Some(k) => assert s[..k + 1] == [s[0]] + s[1..][..k]; Some(k + 1)
  }

  /** strchr(s + from, c), read as a position in s. */
  lemma IndexOfFrom(s: string, from: nat, c: char)
    requires from <= |s| && IndexOf(s[from..], c).Some?
    ensures var i := IndexOf(s[from..], c).value; from + i < |s| && s[from + i] == c && c !in s[from..from + i]
  {
    var i := IndexOf(s[from..], c).value;
    assert s[from..][..i] == s[from..from + i];
  }

  /** The characters a `strncpy(dst, src, size)` followed by
      `dst[size] = '\0'` keeps: at most `size` of them. */
  function Truncate(s: string, size: nat): (r: string)
    ensures |r| <= size && |r| <= |s|
    ensures |s| <= size ==> r == s
    ensures StartsWith(s, r)
  {
    if |s| <= size then s else s[..size]
  }

  // ---------------------------------------------------------------------
  // Decimal text, as printed by "%d" and read back by "%d"

  predicate IsDigit(c: char) {
    '0' <= c <= '9'
  }

  /** isspace() in the C locale. */
  predicate IsSpace(c: char) {
    c == ' ' || c == '\t' || c == '\n' || c == '\U{b}' || c == '\U{c}' || c == '\r'
  }

  function DigitChar(d: nat): (c: char)
    requires d < 10
    ensures IsDigit(c) && c as int - '0' as int == d
  {
    ('0' as int + d) as char
  }

  /** The digits of n, most significant first, without leading zeros. */
  function NatToDecimal(n: nat): (r: string)
    ensures |r| > 0
    ensures forall i :: 0 <= i < |r| ==> IsDigit(r[i])
    ensures n > 0 ==> r[0] != '0'
  {
    if n < 10 then [DigitChar(n)] else NatToDecimal(n / 10) + [DigitChar(n % 10)]
  }

  /** printf("%d", i) */
  function IntToDecimal(i: int): (r: string)
    ensures |r| > 0
    ensures i >= 0 ==> IsDigit(r[0])
    ensures i < 0 ==> r[0] == '-'
  {
    if i < 0 then "-" + NatToDecimal(-i) else NatToDecimal(i)
  }

  /** The value of a run of digits, most significant first. */
  function DigitsValue(d: string): nat
    requires forall i :: 0 <= i < |d| ==> IsDigit(d[i])
  {
    if d == [] then 0
    else
      var last := d[|d| - 1];
      assert IsDigit(last);
      DigitsValue(d[..|d| - 1]) * 10 + (last as int - '0' as int)
  }

  /** The length of the longest run of digits at the start of s. */
  function DigitRun(s: string): (n: nat)
    ensures n <= |s|
    ensures forall i :: 0 <= i < n ==> IsDigit(s[i])
    ensures n < |s| ==> !IsDigit(s[n])
  {
    if s == [] || !IsDigit(s[0]) then 0 else 1 + DigitRun(s[1..])
  }

  /** The number of leading white-space characters of s. */
  function SpaceRun(s: string): (n: nat)
    ensures n <= |s|
    ensures forall i :: 0 <= i < n ==> IsSpace(s[i])
    ensures n < |s| ==> !IsSpace(s[n])
  {
    if s == [] || !IsSpace(s[0]) then 0 else 1 + SpaceRun(s[1..])
  }

  /** The digits "%d" reads at the start of u, when there is at least one. */
  function ScanDigits(u: string): (r: Option<nat>)
    ensures r.Some? <==> |u| > 0 && IsDigit(u[0])
  {
    var n := DigitRun(u);
    if n == 0 then None else Some(DigitsValue(u[..n]))
  }

  /** An optional sign followed by at least one digit. */
  function ScanSigned(t: string): (r: Option<int>)
    ensures r.Some? ==> |t| > 0
  {
    if |t| > 0 && t[0] == '-' then
      match ScanDigits(t[1..])
      case None => None
      case Some(v) => Some(-(v as int))
    else if |t| > 0 && t[0] == '+' then
      match ScanDigits(t[1..])
      case None => None
      case Some(v) => Some(v as int)
    else
      match ScanDigits(t)
      case None => None
      case Some(v) => Some(v as int)
  }

  /** The conversion "%d" of sscanf: leading white space, an optional sign
      and at least one digit; what follows the digits is not looked at.
      None is the "no conversion" result (sscanf returns 0). */
  function ScanInt(s: string): (r: Option<int>)
    ensures r.Some? ==> SpaceRun(s) < |s|
  {
    ScanSigned(s[SpaceRun(s)..])
  }

  /** sscanf(s, "<prefix>%d", &v) == 1, with the value read. */
  function ScanPrefixedInt(prefix: string, s: string): (r: Option<int>)
    ensures r.Some? ==> StartsWith(s, prefix)
  {
    if StartsWith(s, prefix) then ScanInt(s[|prefix|..]) else None
  }

  lemma {:induction false} DigitsValueOfDecimal(n: nat)
    ensures DigitsValue(NatToDecimal(n)) == n
  {
    var r := NatToDecimal(n);
    if n >= 10 {
      DigitsValueOfDecimal(n / 10);
      assert r[..|r| - 1] == NatToDecimal(n / 10);
    }
  }

  lemma {:induction false} DigitRunAll(d: string, rest: string)
    requires forall i :: 0 <= i < |d| ==> IsDigit(d[i])
    requires rest == [] || !IsDigit(rest[0])
    ensures DigitRun(d + rest) == |d|
  {
    if d != [] {
      assert (d + rest)[1..] == d[1..] + rest;
      DigitRunAll(d[1..], rest);
    } else {
      assert d + rest == rest;
    }
  }

  lemma ScanDigitsOfDecimal(n: nat, rest: string)
    requires rest == [] || !IsDigit(rest[0])
    ensures ScanDigits(NatToDecimal(n) + rest) == Some(n)
  {
    var d := NatToDecimal(n);
    DigitRunAll(d, rest);
    assert (d + rest)[..|d|] == d;
    DigitsValueOfDecimal(n);
  }

  lemma ScanSignedOfNegative(n: nat, rest: string)
    requires n > 0
    requires rest == [] || !IsDigit(rest[0])
    ensures ScanSigned("-" + NatToDecimal(n) + rest) == Some(-(n as int))
  {
    var t := "-" + NatToDecimal(n) + rest;
    assert t[0] == '-';
    assert t[1..] == NatToDecimal(n) + rest;
    ScanDigitsOfDecimal(n, rest);
  }

  lemma ScanSignedOfNatural(n: nat, rest: string)
    requires rest == [] || !IsDigit(rest[0])
    ensures ScanSigned(NatToDecimal(n) + rest) == Some(n)
  {
    var t := NatToDecimal(n) + rest;
    assert IsDigit(t[0]);
    ScanDigitsOfDecimal(n, rest);
  }

  lemma ScanSignedOfDecimal(i: int, rest: string)
    requires rest == [] || !IsDigit(rest[0])
    ensures ScanSigned(IntToDecimal(i) + rest) == Some(i)
  {
    if i < 0 {
      ScanSignedOfNegative(-i, rest);
    } else {
      ScanSignedOfNatural(i, rest);
    }
  }

  /** Scanning what "%d" printed gives the number back, whatever
      non-digit text follows it. */
  lemma ScanIntOfDecimal(i: int, rest: string)
    requires rest == [] || !IsDigit(rest[0])
    ensures ScanInt(IntToDecimal(i) + rest) == Some(i)
  {
    var s := IntToDecimal(i) + rest;
    assert !IsSpace(s[0]);
    assert s[0..] == s;
    ScanSignedOfDecimal(i, rest);
  }

  function Pow10(k: nat): (r: nat)
    ensures r >= 1
  {
    if k == 0 then 1 else 10 * Pow10(k - 1)
  }

  /** The powers the buffer sizes of the C sources are checked against. */
  lemma Pow10Values()
    ensures Pow10(5) == 100000 && Pow10(6) == 1000000 && Pow10(10) == 10000000000
  {
    assert Pow10(1) == 10;
    assert Pow10(2) == 100;
    assert Pow10(3) == 1000;
    assert Pow10(4) == 10000;
    assert Pow10(5) == 100000;
    assert Pow10(6) == 1000000;
    assert Pow10(7) == 10000000;
    assert Pow10(8) == 100000000;
    assert Pow10(9) == 1000000000;
  }

  /** A number below 10^k has at most k digits. */
  lemma {:induction false} DecimalLength(n: nat, k: nat)
    requires k >= 1 && n < Pow10(k)
    ensures |NatToDecimal(n)| <= k
  {
    if n >= 10 {
      assert Pow10(1) == 10;
      DecimalLength(n / 10, k - 1);
    }
  }

  /** The decimal text of distinct naturals differs. */
  lemma DecimalInjective(m: nat, n: nat)
    requires NatToDecimal(m) == NatToDecimal(n)
    ensures m == n
  {
    DigitsValueOfDecimal(m);
    DigitsValueOfDecimal(n);
  }
}
