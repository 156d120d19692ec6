/** Text as the HTTP classes of assign6 read and print it: lines, white space, letter case and numbers. */
module HttpText {
  import opened Basics

  /** isspace in the C locale. */
  predicate IsSpace(c: char) { c == ' ' || 9 <= c as int <= 13 }

  // ---------------------------------------------------------------- trim and toLowerCase

  function RTrim(s: string): (r: string)
    ensures r <= s && (r != [] ==> !IsSpace(r[|r| - 1]))
  {
    if s != [] && IsSpace(s[|s| - 1]) then RTrim(s[..|s| - 1]) else s
  }

  function LTrim(s: string): (r: string)
    ensures |r| <= |s| && (r != [] ==> !IsSpace(r[0]))
  {
    if s != [] && IsSpace(s[0]) then LTrim(s[1..]) else s
  }

  function Trim(s: string): string { LTrim(RTrim(s)) }

  predicate Trimmed(s: string) { s != [] ==> !IsSpace(s[0]) && !IsSpace(s[|s| - 1]) }

  predicate AllSpace(s: string) { forall i :: 0 <= i < |s| ==> IsSpace(s[i]) }

  lemma {:induction false} RTrimSpaces(s: string, spaces: string)
    requires AllSpace(spaces) && (s != [] ==> !IsSpace(s[|s| - 1]))
    ensures RTrim(s + spaces) == s
  {
    if spaces == [] {
      assert s + spaces == s;
    } else {
      assert (s + spaces)[..|s + spaces| - 1] == s + spaces[..|spaces| - 1];
      RTrimSpaces(s, spaces[..|spaces| - 1]);
    }
  }

  lemma {:induction false} LTrimSpaces(spaces: string, s: string)
    requires AllSpace(spaces) && (s != [] ==> !IsSpace(s[0]))
    ensures LTrim(spaces + s) == s
  {
    if spaces == [] {
      assert spaces + s == s;
    } else {
      assert (spaces + s)[1..] == spaces[1..] + s;
      LTrimSpaces(spaces[1..], s);
    }
  }

  /** What rtrim removes is white space. */
  lemma {:induction false} RTrimTail(s: string)
    ensures AllSpace(s[|RTrim(s)|..])
  {
    if s != [] && IsSpace(s[|s| - 1]) {
      RTrimTail(s[..|s| - 1]);
    }
  }

  lemma TrimOfTrimmed(s: string)
    requires Trimmed(s)
    ensures Trim(s) == s
  {
  }

  /** What trim returns is trimmed, and a line break in it was there before. */
  lemma {:induction false} TrimIsTrimmed(s: string, c: char)
    ensures Trimmed(Trim(s)) && (c !in s ==> c !in Trim(s))
  {
    LTrimKeepsEnd(RTrim(s), c);
  }

  lemma {:induction false} LTrimKeepsEnd(s: string, c: char)
    ensures LTrim(s) != [] ==> LTrim(s)[|LTrim(s)| - 1] == s[|s| - 1]
    ensures c !in s ==> c !in LTrim(s)
  {
    if s != [] && IsSpace(s[0]) {
      LTrimKeepsEnd(s[1..], c);
    }
  }

  function LowerChar(c: char): char { if 'A' <= c <= 'Z' then (c as int + 32) as char else c }

  function ToLower(s: string): (r: string)
    ensures |r| == |s|
  {
    if s == [] then [] else [LowerChar(s[0])] + ToLower(s[1..])
  }

  predicate IsLower(s: string) { forall i :: 0 <= i < |s| ==> !('A' <= s[i] <= 'Z') }

  lemma {:induction false} ToLowerOfLower(s: string)
    requires IsLower(s)
    ensures ToLower(s) == s
  {
    if s != [] {
      ToLowerOfLower(s[1..]);
    }
  }

  lemma {:induction false} ToLowerIsLower(s: string)
    ensures IsLower(ToLower(s))
  {
    if s != [] {
      ToLowerIsLower(s[1..]);
    }
  }

  lemma {:induction false} ToLowerIs(s: string, t: string)
    requires |s| == |t| && forall i :: 0 <= i < |s| ==> LowerChar(s[i]) == t[i]
    ensures ToLower(s) == t
  {
    if s != [] {
      ToLowerIs(s[1..], t[1..]);
    }
  }

  lemma {:induction false} ToLowerAppend(s: string, t: string)
    ensures ToLower(s + t) == ToLower(s) + ToLower(t)
  {
    if s == [] {
      assert s + t == t;
    } else {
      assert (s + t)[1..] == s[1..] + t;
      ToLowerAppend(s[1..], t);
    }
  }

  // ---------------------------------------------------------------- getline

  function Find(s: string, c: char): (n: nat)
    ensures n <= |s| && (n < |s| ==> s[n] == c)
  {
    if s == [] || s[0] == c then 0 else 1 + Find(s[1..], c)
  }

  /** getline: the text before the first `delim`, and what follows it. */
  function GetLine(s: string, delim: char): (r: (string, string))
    ensures s != [] ==> |r.1| < |s|
  {
    var n := Find(s, delim);
    (s[..n], if n < |s| then s[n + 1..] else [])
  }

  lemma {:induction false} FindAfter(line: string, delim: char, rest: string)
    requires delim !in line
    ensures Find(line + [delim] + rest, delim) == |line|
  {
    if line != [] {
      assert (line + [delim] + rest)[1..] == line[1..] + [delim] + rest;
      FindAfter(line[1..], delim, rest);
    }
  }

  lemma GetLineOf(line: string, delim: char, rest: string)
    requires delim !in line
    ensures GetLine(line + [delim] + rest, delim) == (line, rest)
  {
    FindAfter(line, delim, rest);
    var s := line + [delim] + rest;
    assert s[..|line|] == line && s[|line| + 1..] == rest;
  }

  lemma {:induction false} LineHasNoDelim(s: string, delim: char)
    ensures delim !in s[..Find(s, delim)]
  {
    if s != [] && s[0] != delim {
      LineHasNoDelim(s[1..], delim);
      assert s[..Find(s, delim)] == [s[0]] + s[1..][..Find(s[1..], delim)];
    }
  }

  // ---------------------------------------------------------------- numbers

  const LONG_MAX := 0x7FFF_FFFF_FFFF_FFFF
  const LONG_MIN := -0x8000_0000_0000_0000
  const INT_MAX := 0x7FFF_FFFF
  const INT_MIN := -0x8000_0000

  /** The value of a digit, or 36 if the character is none. */
  function DigitValue(c: char): (v: nat)
    ensures v <= 36
  {
    if '0' <= c <= '9' then c as int - '0' as int
    else if 'a' <= c <= 'z' then c as int - 'a' as int + 10
    else if 'A' <= c <= 'Z' then c as int - 'A' as int + 10
    else 36
  }

  /** The longest prefix that consists of digits of a base. */
  function DigitCount(s: string, base: nat): (n: nat)
    ensures n <= |s|
  {
    if s == [] || DigitValue(s[0]) >= base then 0 else 1 + DigitCount(s[1..], base)
  }

  /** The number that a string of digits stands for. */
  function ValueOf(digits: string, base: nat): nat {
    if digits == [] then 0 else ValueOf(digits[..|digits| - 1], base) * base + DigitValue(digits[|digits| - 1])
  }

  function Digits(n: nat): (s: string)
    ensures s != []
  {
    if n < 10 then ["0123456789"[n]] else Digits(n / 10) + ["0123456789"[n % 10]]
  }

  /** A number as an ostream prints it. */
  function Decimal(n: int): string { if n < 0 then "-" + Digits(-n) else Digits(n) }

  lemma {:induction false} DigitsAreDigits(n: nat)
    ensures forall i :: 0 <= i < |Digits(n)| ==> '0' <= Digits(n)[i] <= '9'
    ensures n > 0 ==> Digits(n)[0] != '0'
    ensures n == 0 ==> Digits(n) == "0"
  {
    if n >= 10 {
      DigitsAreDigits(n / 10);
    }
  }

  lemma {:induction false} ValueOfDigits(n: nat)
    ensures ValueOf(Digits(n), 10) == n
  {
    if n < 10 {
      assert Digits(n)[..0] == [];
    } else {
      ValueOfDigits(n / 10);
      assert Digits(n)[..|Digits(n)| - 1] == Digits(n / 10);
    }
  }

  lemma {:induction false} DigitCountOf(digits: string, rest: string, base: nat)
    requires forall i :: 0 <= i < |digits| ==> DigitValue(digits[i]) < base
    requires rest != [] ==> DigitValue(rest[0]) >= base
    ensures DigitCount(digits + rest, base) == |digits|
  {
    if digits == [] {
      assert digits + rest == rest;
    } else {
      assert (digits + rest)[1..] == digits[1..] + rest;
      DigitCountOf(digits[1..], rest, base);
    }
  }

  function Clamp(n: int, low: int, high: int): int { if n < low then low else if n > high then high else n }

  /** The sign at the start of a string, and the rest. */
  function SplitSign(s: string): (int, string) {
    if s != [] && s[0] == '-' then (-1, s[1..]) else if s != [] && s[0] == '+' then (1, s[1..]) else (1, s)
  }

  /** iss >> int: white space, a sign, decimal digits; 0 if there are none, the limit if there are too many. */
  function ReadInt(s: string): int {
    var (sign, t) := SplitSign(LTrim(s));
    Clamp(sign * ValueOf(t[..DigitCount(t, 10)], 10), INT_MIN, INT_MAX)
  }

  /** strtol in base 0, which takes "0x" for base 16 and "0" for base 8, if it uses up the string; 0 otherwise. */
  function NumberOf(s: string): int {
    if s == [] then 0 else
    var (sign, t) := SplitSign(LTrim(s));
    if |t| > 2 && t[0] == '0' && (t[1] == 'x' || t[1] == 'X') && DigitValue(t[2]) < 16 then
      WholeNumber(sign, t[2..], 16)
    else WholeNumber(sign, t, if t != [] && t[0] == '0' then 8 else 10)
  }

  function WholeNumber(sign: int, t: string, base: nat): int {
    if t != [] && DigitCount(t, base) == |t| then Clamp(sign * ValueOf(t, base), LONG_MIN, LONG_MAX) else 0
  }

  function Abs(n: int): nat { if n < 0 then -n else n }

  lemma DecimalStarts(n: int, rest: string)
    ensures !IsSpace((Decimal(n) + rest)[0])
    ensures SplitSign(Decimal(n) + rest) == (if n < 0 then -1 else 1, Digits(Abs(n)) + rest)
  {
    var t := Digits(Abs(n)) + rest;
    DigitsAreDigits(Abs(n));
    assert '0' <= t[0] <= '9';
    if n < 0 {
      assert Decimal(n) + rest == "-" + t;
      SignedStarts(t);
    }
  }

  lemma SignedStarts(t: string)
    ensures SplitSign("-" + t) == (-1, t) && ("-" + t)[0] == '-'
  {
    assert ("-" + t)[1..] == t;
  }

  lemma DigitsReadBack(n: nat, rest: string)
    requires rest != [] ==> DigitValue(rest[0]) >= 10
    ensures var t := Digits(n) + rest; DigitCount(t, 10) == |Digits(n)| && ValueOf(t[..DigitCount(t, 10)], 10) == n
  {
    DigitsAreDigits(n);
    ValueOfDigits(n);
    DigitCountOf(Digits(n), rest, 10);
    assert (Digits(n) + rest)[..|Digits(n)|] == Digits(n);
  }

  /** Any int that an ostream prints is read back by an istream, whatever white space is in front of it. */
  lemma ReadIntOfDecimal(n: int, spaces: string, rest: string)
    requires INT_MIN <= n <= INT_MAX && AllSpace(spaces) && (rest != [] ==> DigitValue(rest[0]) >= 10)
    ensures ReadInt(spaces + (Decimal(n) + rest)) == n
  {
    DecimalStarts(n, rest);
    LTrimSpaces(spaces, Decimal(n) + rest);
    DigitsReadBack(Abs(n), rest);
  }

  lemma WholeNumberOfDigits(sign: int, n: nat)
    requires LONG_MIN <= sign * n <= LONG_MAX
    ensures WholeNumber(sign, Digits(n), 10) == sign * n
  {
    DigitsReadBack(n, []);
    assert Digits(n) + [] == Digits(n);
    assert Digits(n)[..|Digits(n)|] == Digits(n);
  }

  lemma NumberOfZero()
    ensures NumberOf("0") == 0
  {
    assert LTrim("0") == "0" && SplitSign("0") == (1, "0");
    assert "0"[..0] == [] && ValueOf("0", 8) == 0;
  }

  lemma NumberOfPlain(t: string)
    requires t != [] && !IsSpace(t[0]) && t[0] != '0' && t[0] != '-' && t[0] != '+'
    ensures NumberOf(t) == WholeNumber(1, t, 10)
  {
  }

  lemma NumberOfNegative(t: string)
    requires t != [] && t[0] != '0'
    ensures NumberOf("-" + t) == WholeNumber(-1, t, 10)
  {
    SignedStarts(t);
    LTrimSpaces([], "-" + t);
    assert [] + ("-" + t) == "-" + t;
  }

  /** A printed number is read back by strtol, although the base depends on the first digit. */
  lemma NumberOfDecimal(n: int)
    requires LONG_MIN <= n <= LONG_MAX
    ensures NumberOf(Decimal(n)) == n
  {
    DigitsAreDigits(Abs(n));
    if n == 0 {
      NumberOfZero();
    } else if n > 0 {
      NumberOfPlain(Digits(n));
      WholeNumberOfDigits(1, n);
    } else {
      NumberOfNegative(Digits(-n));
      WholeNumberOfDigits(-1, -n);
    }
  }

  /** A number cut to an int. */
  function AsInt(n: int): (r: int)
    ensures INT_MIN <= r <= INT_MAX && (INT_MIN <= n <= INT_MAX <==> r == n)
  {
    var m := n % 0x1_0000_0000;
    if m > INT_MAX then m - 0x1_0000_0000 else m
  }

  /** The size that a chunk's size line announces: strtol in base 16 of "0x" and the line, cut to an int. */
  function ChunkSize(line: string): int {
    AsInt(Clamp(ValueOf(line[..DigitCount(line, 16)], 16), LONG_MIN, LONG_MAX))
  }

  // ---------------------------------------------------------------- numbers in base 16

  function HexDigit(d: nat): char
    requires d < 16
  {
    "0123456789abcdef"[d]
  }

  /** A number as it is written in base 16. */
  function Hex(n: nat): (s: string)
    ensures s != []
  {
    if n < 16 then [HexDigit(n)] else Hex(n / 16) + [HexDigit(n % 16)]
  }

  lemma HexDigitRead(d: nat)
    requires d < 16
    ensures DigitValue(HexDigit(d)) == d && !IsSpace(HexDigit(d))
  {
  }

  lemma {:induction false} HexDigits(n: nat)
    ensures forall i :: 0 <= i < |Hex(n)| ==> DigitValue(Hex(n)[i]) < 16 && !IsSpace(Hex(n)[i])
  {
    HexDigitRead(n % 16);
    if n >= 16 {
      HexDigits(n / 16);
    }
  }

  lemma {:induction false} ValueOfHex(n: nat)
    ensures ValueOf(Hex(n), 16) == n
  {
    HexDigitRead(n % 16);
    if n < 16 {
      assert Hex(n)[..0] == [];
    } else {
      ValueOfHex(n / 16);
      assert Hex(n)[..|Hex(n)| - 1] == Hex(n / 16);
    }
  }

  lemma HexReadBack(n: nat, rest: string)
    requires rest != [] ==> DigitValue(rest[0]) >= 16
    ensures var t := Hex(n) + rest; DigitCount(t, 16) == |Hex(n)| && ValueOf(t[..DigitCount(t, 16)], 16) == n
  {
    HexDigits(n);
    ValueOfHex(n);
    DigitCountOf(Hex(n), rest, 16);
    assert (Hex(n) + rest)[..|Hex(n)|] == Hex(n);
  }

  /** A chunk size that is printed in base 16 is read back, whatever extension follows it on its line. */
  lemma ChunkSizeReadBack(n: nat, extension: string)
    requires n <= INT_MAX && (extension != [] ==> DigitValue(extension[0]) >= 16)
    ensures ChunkSize(Hex(n) + extension) == n
  {
    HexReadBack(n, extension);
  }

  /** strtol in base 0 reads back what is written in base 16 after "0x". */
  lemma NumberOfHex(n: nat, text: string)
    requires n <= LONG_MAX && text == ['0', 'x'] + Hex(n)
    ensures NumberOf(text) == n
  {
    var t := Hex(n);
    HexDigits(n);
    HexReadBack(n, []);
    assert t + [] == t && t[..|t|] == t;
    assert text[2..] == t && text[2] == t[0];
  }
}
