/**
 * String operations of JavaScript that the storefront relies on, over `seq<char>`:
 * ASCII case mapping, `startsWith`, `includes`, `split`/`join`, `trim`, `String(n)`,
 * `padStart(6, '0')` and `parseInt`.
 */
module Text {
  import opened Wrappers

  predicate IsDigit(c: char) { '0' <= c <= '9' }
  predicate IsLowerAlpha(c: char) { 'a' <= c <= 'z' }
  predicate IsUpperAlpha(c: char) { 'A' <= c <= 'Z' }

  predicate AllDigits(s: string) { forall i :: 0 <= i < |s| ==> IsDigit(s[i]) }

  /** `toLowerCase` on one character (ASCII letters only). */
  function LowerChar(c: char): char {
    if IsUpperAlpha(c) then (c as int + 32) as char else c
  }

  /** `toUpperCase` on one character (ASCII letters only). */
  function UpperChar(c: char): char {
    if IsLowerAlpha(c) then (c as int - 32) as char else c
  }

  function Lower(s: string): (r: string)
    ensures |r| == |s|
    ensures forall i :: 0 <= i < |s| ==> r[i] == LowerChar(s[i])
  {
    if s == [] then [] else [LowerChar(s[0])] + Lower(s[1..])
  }

  /** A string with no upper-case letter is its own lower-case form. */
  lemma {:induction false} LowerOfLower(s: string)
    requires forall i :: 0 <= i < |s| ==> !IsUpperAlpha(s[i])
    ensures Lower(s) == s
  {
    if s != [] {
      LowerOfLower(s[1..]);
    }
  }

  predicate StartsWith(s: string, prefix: string) {
    |prefix| <= |s| && s[..|prefix|] == prefix
  }

  /** `s.includes(sub)`. */
  predicate Contains(s: string, sub: string) {
    exists i | 0 <= i <= |s| - |sub| :: OccursAt(s, sub, i)
  }

  predicate OccursAt(s: string, sub: string, i: nat) {
    i + |sub| <= |s| && s[i..i + |sub|] == sub
  }

  /** `s.substring(0, n)`: at most the first n characters. */
  function Take(s: string, n: nat): (r: string)
    ensures |r| <= n && StartsWith(s, r)
    ensures |r| == if |s| < n then |s| else n
  {
    if |s| <= n then s else s[..n]
  }

  // ---------------------------------------------------------------------
  // Decimal numbers: String(n), padStart(6, '0') and parseInt

  function DigitChar(d: nat): char
    requires d < 10
  {
    ('0' as int + d) as char
  }

  function DigitValue(c: char): nat
    requires IsDigit(c)
  {
    c as int - '0' as int
  }

  /** `String(n)` for a natural number: its decimal digits, no leading zero. */
  function DecimalDigits(n: nat): (r: string)
    ensures |r| >= 1 && AllDigits(r)
    decreases n
  {
    if n < 10 then [DigitChar(n)] else DecimalDigits(n / 10) + [DigitChar(n % 10)]
  }

  /** The number a string of decimal digits denotes. */
  function DigitsValue(s: string): nat
    requires AllDigits(s)
  {
    if s == [] then 0 else DigitsValue(s[..|s| - 1]) * 10 + DigitValue(s[|s| - 1])
  }

  function Zeros(k: nat): (r: string)
    ensures |r| == k && AllDigits(r)
    ensures forall i :: 0 <= i < k ==> r[i] == '0'
  {
    if k == 0 then [] else Zeros(k - 1) + ['0']
  }

  /** `s.padStart(width, '0')`. */
  function ZeroPad(s: string, width: nat): (r: string)
    ensures |r| == if |s| < width then width else |s|
    ensures AllDigits(s) ==> AllDigits(r)
  {
    if |s| >= width then s else Zeros(width - |s|) + s
  }

  /** `String(n).padStart(6, '0')`: the six-digit (or longer) form used by every user id. */
  function Pad6(n: nat): (r: string)
    ensures |r| >= 6 && AllDigits(r)
  {
    ZeroPad(DecimalDigits(n), 6)
  }

  /** Length of the longest prefix made of decimal digits. */
  function LeadingDigitCount(s: string): (k: nat)
    ensures k <= |s| && AllDigits(s[..k])
    ensures k < |s| ==> !IsDigit(s[k])
  {
    if s == [] || !IsDigit(s[0]) then 0
    else
      var k := 1 + LeadingDigitCount(s[1..]);
      assert s[..k] == [s[0]] + s[1..][..k - 1];
      k
  }

  /** The value of the leading decimal digits, or None when the string does not start with a digit. */
  function LeadingNumber(s: string): Option<nat> {
    var k := LeadingDigitCount(s);
    if k == 0 then None else Some(DigitsValue(s[..k]))
  }

  predicate IsHexDigit(c: char) {
    IsDigit(c) || 'a' <= c <= 'f' || 'A' <= c <= 'F'
  }

  function HexDigitValue(c: char): (v: nat)
    requires IsHexDigit(c)
    ensures v < 16
  {
    if IsDigit(c) then DigitValue(c)
    else if 'a' <= c <= 'f' then c as int - 'a' as int + 10
    else c as int - 'A' as int + 10
  }

  /** Length of the longest prefix made of hexadecimal digits. */
  function LeadingHexCount(s: string): (k: nat)
    ensures k <= |s| && forall i :: 0 <= i < k ==> IsHexDigit(s[i])
    ensures k < |s| ==> !IsHexDigit(s[k])
  {
    if s == [] || !IsHexDigit(s[0]) then 0 else 1 + LeadingHexCount(s[1..])
  }

  /** The number a string of hexadecimal digits denotes. */
  function HexValue(s: string): nat
    requires forall i :: 0 <= i < |s| ==> IsHexDigit(s[i])
  {
    if s == [] then 0 else HexValue(s[..|s| - 1]) * 16 + HexDigitValue(s[|s| - 1])
  }

  /** The value of the leading hexadecimal digits, or None when there is none. */
  function LeadingHexNumber(s: string): Option<nat> {
    var k := LeadingHexCount(s);
    if k == 0 then None else Some(HexValue(s[..k]))
  }

  /** `0x` or `0X` opens the string. */
  predicate HexPrefixed(u: string) {
    |u| >= 2 && u[0] == '0' && (u[1] == 'x' || u[1] == 'X')
  }

  /** The digits after an optional sign: hexadecimal after `0x` or `0X`, decimal otherwise. */
  function Magnitude(u: string): Option<nat> {
    if HexPrefixed(u) then LeadingHexNumber(u[2..]) else LeadingNumber(u)
  }

  function Negated(m: Option<nat>): (r: Option<int>)
    ensures r.Some? <==> m.Some?
    ensures m.Some? ==> r.value == -(m.value as int)
  {
    match m
    case None => None
    case Some(v) => Some(-(v as int))
  }

  /**
   * `parseInt(s)` without a radix: leading white space is skipped, a `+` or `-` sign is
   * read, a `0x` or `0X` prefix selects base 16, and the longest run of digits of the base
   * gives the magnitude. None is JavaScript's NaN: no digit where one is needed. (A
   * `-0` is read as 0, which no caller tells apart.)
   */
  function ParseInt(s: string): Option<int>
    decreases |s|
  {
    if s != [] && IsSpace(s[0]) then ParseInt(s[1..])
    else if s != [] && s[0] == '-' then Negated(Magnitude(s[1..]))
    else if s != [] && s[0] == '+' then (match Magnitude(s[1..]) case None => None case Some(v) => Some(v))
    else (match Magnitude(s) case None => None case Some(v) => Some(v))
  }

  /** A string that opens with a decimal digit and no `0x` is read as its leading digits. */
  lemma ParseIntOfDigits(s: string)
    requires s != [] && IsDigit(s[0]) && !HexPrefixed(s)
    ensures ParseInt(s) == LeadingNumber(s)
  {
    assert !IsSpace(s[0]);
  }

  /** What `parseInt` makes of a sign, leading blanks and a hexadecimal prefix. */
  lemma ParseIntSigned()
    ensures ParseInt("-1") == Some(-1)
  {
    assert "-1"[1..] == "1" && LeadingDigitCount("1") == 1 && "1"[..1] == "1";
  }

  lemma ParseIntBlank()
    ensures ParseInt(" 7") == Some(7)
  {
    assert " 7"[1..] == "7" && !IsSpace('7');
    assert LeadingDigitCount("7") == 1 && "7"[..1] == "7";
  }

  lemma ParseIntHex()
    ensures ParseInt("0x10") == Some(16)
  {
    var s := "0x10";
    assert !IsSpace(s[0]);
    assert HexPrefixed(s);
    var h := s[2..];
    assert h == ['1', '0'];
    assert h[1..] == ['0'] && h[1..][1..] == [];
    assert LeadingHexCount(h) == 2;
    assert h[..2] == h;
    assert h[..1] == ['1'] && h[..1][..0] == [];
    assert HexValue(h[..1]) == 1;
    assert HexValue(h) == 16;
  }

  /** Without a digit where one is needed, `parseInt` gives NaN. */
  lemma ParseIntNaN()
    ensures ParseInt("odo") == None
  {
    var w := "odo";
    assert !IsSpace(w[0]) && !IsDigit(w[0]) && !HexPrefixed(w);
    assert LeadingDigitCount(w) == 0;
  }

  lemma ParseIntBareHexPrefix()
    ensures ParseInt("0x") == None
  {
    var z := "0x";
    assert !IsSpace(z[0]);
    assert HexPrefixed(z) && z[2..] == [];
  }




  lemma {:induction false} DigitsValueOfDecimal(n: nat)
    ensures DigitsValue(DecimalDigits(n)) == n
    decreases n
  {
    var s := DecimalDigits(n);
    if n >= 10 {
      assert s[..|s| - 1] == DecimalDigits(n / 10);
      DigitsValueOfDecimal(n / 10);
    }
  }

  lemma {:induction false} DigitsValueOfZeros(k: nat)
    ensures DigitsValue(Zeros(k)) == 0
  {
    if k > 0 {
      assert Zeros(k)[..k - 1] == Zeros(k - 1);
      DigitsValueOfZeros(k - 1);
    }
  }

  /** Leading zeros do not change the value of a digit string. */
  lemma {:induction false} DigitsValueLeadingZeros(k: nat, s: string)
    requires AllDigits(s)
    ensures AllDigits(Zeros(k) + s)
    ensures DigitsValue(Zeros(k) + s) == DigitsValue(s)
    decreases |s|
  {
    var t := Zeros(k) + s;
    assert AllDigits(t) by {
      forall i | 0 <= i < |t| ensures IsDigit(t[i]) {
        if i < k { assert t[i] == Zeros(k)[i]; } else { assert t[i] == s[i - k]; }
      }
    }
    if s == [] {
      assert t == Zeros(k);
      DigitsValueOfZeros(k);
    } else {
      assert t[..|t| - 1] == Zeros(k) + s[..|s| - 1];
      DigitsValueLeadingZeros(k, s[..|s| - 1]);
    }
  }

  lemma LeadingDigitCountOfDigits(s: string)
    requires AllDigits(s)
    ensures LeadingDigitCount(s) == |s|
  {
  }

  /** The leading digits of a digit string followed by a non-digit start are that digit string. */
  lemma LeadingDigitsOfNumberThenText(digits: string, tail: string)
    requires digits != [] && AllDigits(digits)
    requires tail != [] && !IsDigit(tail[0])
    ensures LeadingDigitCount(digits + tail) == |digits|
  {
    if |digits| > 1 {
      assert (digits + tail)[1..] == digits[1..] + tail;
      LeadingDigitsOfNumberThenText(digits[1..], tail);
    } else {
      assert (digits + tail)[1..] == tail;
    }
  }

  /** parseInt reads back the number that padStart(6, '0') wrote. */
  lemma ParseIntPad6(n: nat)
    ensures ParseInt(Pad6(n)) == Some(n)
  {
    var d := DecimalDigits(n);
    var p := Pad6(n);
    assert IsDigit(p[0]) && IsDigit(p[1]);
    ParseIntOfDigits(p);
    LeadingDigitCountOfDigits(p);
    assert p[..|p|] == p;
    DigitsValueOfDecimal(n);
    if |d| < 6 {
      DigitsValueLeadingZeros(6 - |d|, d);
    }
  }

  /** Distinct numbers give distinct six-digit forms. */
  lemma Pad6Injective(n: nat, m: nat)
    requires Pad6(n) == Pad6(m)
    ensures n == m
  {
    ParseIntPad6(n);
    ParseIntPad6(m);
  }

  // ---------------------------------------------------------------------
  // split and join

  /** Index of the first occurrence of c. */
  function IndexOf(s: string, c: char): (i: nat)
    requires c in s
    ensures i < |s| && s[i] == c && c !in s[..i]
  {
    if s[0] == c then 0
    else
      var j := 1 + IndexOf(s[1..], c);
      assert s[..j] == [s[0]] + s[1..][..j - 1];
      j
  }

  /** `s.split(sep)` for a one-character separator. */
  function Split(s: string, sep: char): (parts: seq<string>)
    ensures |parts| >= 1
    decreases |s|
  {
    if sep in s then
      var i := IndexOf(s, sep);
      [s[..i]] + Split(s[i + 1..], sep)
    else
      [s]
  }

  /** The first occurrence of c is at i when s[i] is c and no c comes before it. */
  lemma IndexOfAt(s: string, c: char, i: nat)
    requires i < |s| && s[i] == c && c !in s[..i]
    ensures IndexOf(s, c) == i
  {
    var j := IndexOf(s, c);
    assert forall k :: 0 <= k < j ==> s[k] == s[..j][k];
    assert forall k :: 0 <= k < i ==> s[k] == s[..i][k];
  }

  /** Splitting at a first separator. */
  lemma SplitAfter(a: string, b: string, sep: char)
    requires sep !in a
    ensures Split(a + [sep] + b, sep) == [a] + Split(b, sep)
  {
    var s := a + [sep] + b;
    assert s[..|a|] == a;
    assert s[|a| + 1..] == b;
    IndexOfAt(s, sep, |a|);
  }

  /** `parts.join(sep)`. */
  function Join(parts: seq<string>, sep: string): string {
    if |parts| == 0 then ""
    else if |parts| == 1 then parts[0]
    else parts[0] + sep + Join(parts[1..], sep)
  }

  /** The string with every occurrence of c removed. */
  function Remove(s: string, c: char): (r: string)
    ensures c !in r
  {
    if s == [] then [] else (if s[0] == c then [] else [s[0]]) + Remove(s[1..], c)
  }

  lemma {:induction false} RemoveShorter(s: string, c: char)
    ensures |Remove(s, c)| <= |s|
  {
    if s != [] {
      RemoveShorter(s[1..], c);
    }
  }

  lemma RemoveAppend(a: string, b: string, c: char)
    ensures Remove(a + b, c) == Remove(a, c) + Remove(b, c)
  {
    if a != [] {
      assert (a + b)[1..] == a[1..] + b;
      RemoveAppend(a[1..], b, c);
    } else {
      assert a + b == b;
    }
  }

  lemma RemoveAbsent(s: string, c: char)
    requires c !in s
    ensures Remove(s, c) == s
  {
    if s != [] {
      assert c !in s[1..];
      RemoveAbsent(s[1..], c);
    }
  }

  /** No piece of a split contains the separator. */
  lemma {:induction false} SplitPartsLackSeparator(s: string, sep: char)
    ensures forall k :: 0 <= k < |Split(s, sep)| ==> sep !in Split(s, sep)[k]
    decreases |s|
  {
    if sep in s {
      var i := IndexOf(s, sep);
      SplitPartsLackSeparator(s[i + 1..], sep);
    }
  }

  /** Removing c from a string whose first c is at i keeps everything before i. */
  lemma {:induction false} RemoveAtFirst(s: string, c: char, i: nat)
    requires i < |s| && s[i] == c && c !in s[..i]
    ensures Remove(s, c) == s[..i] + Remove(s[i + 1..], c)
  {
    if i > 0 {
      assert s[0] == s[..i][0];
      assert s[1..][..i - 1] == s[1..i];
      assert s[1..][..i - 1] == s[..i][1..];
      RemoveAtFirst(s[1..], c, i - 1);
      assert s[1..][i..] == s[i + 1..];
      assert s[..i] == [s[0]] + s[1..][..i - 1];
    }
  }

  /** Joining the pieces of a split without separator removes the separator. */
  lemma {:induction false} JoinSplitRemoves(s: string, sep: char)
    ensures Join(Split(s, sep), "") == Remove(s, sep)
    decreases |s|
  {
    if sep in s {
      var i := IndexOf(s, sep);
      var rest := Split(s[i + 1..], sep);
      JoinSplitRemoves(s[i + 1..], sep);
      RemoveAtFirst(s, sep, i);
      assert Split(s, sep) == [s[..i]] + rest;
      assert Join(Split(s, sep), "") == s[..i] + Join(rest, "");
    } else {
      RemoveAbsent(s, sep);
    }
  }

  /** Joining the pieces of a split with the separator gives the string back. */
  lemma {:induction false} JoinSplit(s: string, sep: char)
    ensures Join(Split(s, sep), [sep]) == s
    decreases |s|
  {
    if sep in s {
      var i := IndexOf(s, sep);
      JoinSplit(s[i + 1..], sep);
      assert s == s[..i] + [sep] + s[i + 1..];
    }
  }

  /** Pieces joined without separator, none of which contains c, contain no c. */
  lemma {:induction false} JoinLacks(parts: seq<string>, c: char)
    requires forall k :: 0 <= k < |parts| ==> c !in parts[k]
    ensures c !in Join(parts, "")
  {
    if |parts| > 1 {
      JoinLacks(parts[1..], c);
    }
  }

  predicate AtMostOne(s: string, c: char) {
    forall i, j :: 0 <= i < |s| && 0 <= j < |s| && s[i] == c && s[j] == c ==> i == j
  }

  /** A split into at most two pieces means at most one separator. */
  lemma SplitAtMostTwo(s: string, sep: char)
    requires |Split(s, sep)| <= 2
    ensures AtMostOne(s, sep)
  {
    if sep in s {
      var i := IndexOf(s, sep);
      var rest := s[i + 1..];
      assert |Split(rest, sep)| == 1;
      assert sep !in rest;
      assert s == s[..i] + [sep] + rest;
      forall a | 0 <= a < |s|
        ensures s[a] == sep ==> a == i
      {
        if a < i {
          assert s[a] == s[..i][a];
        } else if a > i {
          assert s[a] == rest[a - i - 1];
        }
      }
    }
  }

  // ---------------------------------------------------------------------
  // trim

  /** The white-space characters `String.prototype.trim` removes that this model knows. */
  predicate IsSpace(c: char) {
    c == ' ' || c == '\t' || c == '\n' || c == '\r' || c == '\U{B}' || c == '\U{C}'
    || c == '\U{A0}' || c == '\U{2028}' || c == '\U{2029}' || c == '\U{FEFF}'
  }

  function TrimStart(s: string): (r: string)
    ensures |r| <= |s| && r == s[|s| - |r|..]
    ensures r != [] ==> !IsSpace(r[0])
  {
    if s != [] && IsSpace(s[0]) then TrimStart(s[1..]) else s
  }

  function TrimEnd(s: string): (r: string)
    ensures |r| <= |s| && r == s[..|r|]
    ensures r != [] ==> !IsSpace(r[|r| - 1])
  {
    if s != [] && IsSpace(s[|s| - 1]) then TrimEnd(s[..|s| - 1]) else s
  }

  /** `s.trim()`. */
  function Trim(s: string): string {
    TrimEnd(TrimStart(s))
  }

  /** A trimmed string neither starts nor ends with white space, and trimming it again changes nothing. */
  lemma TrimmedIsTrimmed(s: string)
    ensures var t := Trim(s); t != [] ==> !IsSpace(t[0]) && !IsSpace(t[|t| - 1])
    ensures Trim(Trim(s)) == Trim(s)
  {
    var a := TrimStart(s);
    var t := TrimEnd(a);
    if t != [] {
      assert t[0] == a[0];
    }
  }
}
