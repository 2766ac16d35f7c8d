/** The text form of a log position: two hexadecimal halves of 32 bits, scanned the way Go's
    Sscanf scans "%X/%X". */
module Lsn {
  import opened Wrappers

  const TWO_32 := 0x1_0000_0000
  const TWO_64 := 0x1_0000_0000_0000_0000

  type LSN = x: int | 0 <= x < TWO_64

  datatype LsnError = ExpectedInteger | Overflow | Mismatch | UnexpectedNewline

  const DIGITS := "0123456789ABCDEF"

  // %X: no leading zeros, upper case.
  function Hex(n: nat): (s: string)
    ensures s != ""
  {
    (if n < 16 then "" else Hex(n / 16)) + [DIGITS[n % 16]]
  }

  function String(lsn: LSN): string {
    Hex(lsn / TWO_32) + "/" + Hex(lsn % TWO_32)
  }

  function HexValue(c: char): (v: Option<nat>)
    ensures v.Some? ==> v.value < 16
  {
    if '0' <= c <= '9' then Some(c as int - '0' as int)
    else if 'A' <= c <= 'F' then Some(c as int - 'A' as int + 10)
    else if 'a' <= c <= 'f' then Some(c as int - 'a' as int + 10)
    else None
  }

  predicate IsSpace(c: char) {
    var u := c as int;
    || 0x09 <= u <= 0x0D || u in {0x20, 0x85, 0xA0, 0x1680, 0x2028, 0x2029, 0x202F, 0x205F, 0x3000}
    || 0x2000 <= u <= 0x200A
  }

  // A line break is not skipped: a carriage return before it is, and then the scan fails.
  function SkipSpace(s: string): Result<string, LsnError> {
    if s == "" then Ok(s)
    else if s[0] == '\n' then Err(UnexpectedNewline)
    else if |s| > 1 && s[0] == '\r' && s[1] == '\n' then SkipSpace(s[1..])
    else if IsSpace(s[0]) then SkipSpace(s[1..])
    else Ok(s)
  }

  // All digits up to the first character that is none.
  function Digits(s: string, value: nat): (nat, string)
    decreases |s|
  {
    if s != "" && HexValue(s[0]).Some? then Digits(s[1..], value * 16 + HexValue(s[0]).value)
    else (value, s)
  }

  function ScanUint(s: string): Result<(nat, string), LsnError> {
    var text :- SkipSpace(s);
    if text == "" || HexValue(text[0]) == None then Err(ExpectedInteger)
    else if Digits(text, 0).0 >= TWO_64 then Err(Overflow)
    else Ok(Digits(text, 0))
  }

  // What follows the second half is ignored.
  function ParseLSN(s: string): Result<LSN, LsnError> {
    var upper :- ScanUint(s);
    if upper.1 == "" || upper.1[0] != '/' then Err(Mismatch)
    else
      var lower :- ScanUint(upper.1[1..]);
      Ok((upper.0 * TWO_32 % TWO_64 + lower.0) % TWO_64)
  }

  predicate AllHex(s: string) {
    forall i :: 0 <= i < |s| ==> HexValue(s[i]).Some?
  }

  lemma {:induction false} DigitsAppend(a: string, b: string, value: nat)
    requires AllHex(a)
    ensures Digits(a, value).1 == ""
    ensures Digits(a + b, value) == Digits(b, Digits(a, value).0)
    decreases |a|
  {
    if a == "" {
      assert a + b == b;
    } else {
      assert (a + b)[1..] == a[1..] + b;
      DigitsAppend(a[1..], b, value * 16 + HexValue(a[0]).value);
    }
  }

  lemma DigitValue(d: nat)
    requires d < 16
    ensures HexValue(DIGITS[d]) == Some(d) && !IsSpace(DIGITS[d]) && DIGITS[d] != '\n' && DIGITS[d] != '\r'
  {
    if d < 10 {
      assert DIGITS[d] as int == '0' as int + d;
    } else {
      assert DIGITS[d] as int == 'A' as int + d - 10;
    }
  }

  lemma {:induction false} HexDigitsBack(n: nat)
    ensures AllHex(Hex(n)) && Digits(Hex(n), 0) == (n, "")
  {
    var last := [DIGITS[n % 16]];
    DigitValue(n % 16);
    if n < 16 {
      assert last[1..] == "" && Hex(n) == last;
    } else {
      HexDigitsBack(n / 16);
      DigitsAppend(Hex(n / 16), last, 0);
      assert last[1..] == "";
      assert Digits(last, n / 16) == Digits(last[1..], n / 16 * 16 + n % 16);
    }
  }

  lemma ScanHexBack(n: nat, rest: string)
    requires n < TWO_64 && (rest == "" || HexValue(rest[0]) == None)
    ensures ScanUint(Hex(n) + rest) == Ok((n, rest))
  {
    HexDigitsBack(n);
    DigitsAppend(Hex(n), rest, 0);
    FirstDigit(n);
    assert (Hex(n) + rest)[0] == Hex(n)[0];
  }

  lemma {:induction false} FirstDigit(n: nat)
    ensures !IsSpace(Hex(n)[0]) && Hex(n)[0] != '\n' && Hex(n)[0] != '\r' && HexValue(Hex(n)[0]).Some?
  {
    DigitValue(n % 16);
    if n >= 16 {
      FirstDigit(n / 16);
    }
  }

  /** Parsing the printed form of any 64-bit position returns it. */
  lemma PrintedParsesBack(lsn: LSN)
    ensures ParseLSN(String(lsn)) == Ok(lsn)
  {
    hide Hex, ParseLSN;
    HalvesParse(lsn / TWO_32, lsn % TWO_32);
  }

  /** The parser does not check that a half fits 32 bits: two texts of halves give the same position
      if and only if upper * 2^32 + lower agree modulo 2^64. */
  lemma SamePositionIff(u: nat, l: nat, u': nat, l': nat)
    requires u < TWO_64 && l < TWO_64 && u' < TWO_64 && l' < TWO_64
    ensures ParseLSN(Hex(u) + "/" + Hex(l)) == ParseLSN(Hex(u') + "/" + Hex(l')) <==>
            (u * TWO_32 + l) % TWO_64 == (u' * TWO_32 + l') % TWO_64
  {
    hide ParseLSN;
    HalvesParse(u, l);
    HalvesParse(u', l');
  }

  lemma HalvesParse(u: nat, l: nat)
    requires u < TWO_64 && l < TWO_64
    ensures ParseLSN(Hex(u) + "/" + Hex(l)) == Ok((u * TWO_32 + l) % TWO_64)
  {
    hide Hex, ScanUint, HexValue;
    var text, rest := Hex(u) + "/" + Hex(l), "/" + Hex(l);
    assert HexValue('/') == None by { SlashIsNoDigit(); }
    ScanHexBack(u, rest);
    ScanHexBack(l, "");
    assert text == Hex(u) + rest;
    assert rest[0] == '/' && rest[1..] == Hex(l) && Hex(l) + "" == Hex(l);
    WrapOnce(u * TWO_32, l);
  }

  lemma SlashIsNoDigit()
    ensures HexValue('/') == None
  {
  }

  lemma WrapOnce(a: nat, l: nat)
    ensures (a % TWO_64 + l) % TWO_64 == (a + l) % TWO_64
  {
    assert a == a / TWO_64 * TWO_64 + a % TWO_64;
  }

  // ---------- the texts themselves ----------

  // The number that hexadecimal digits mean, least significant digit last.
  function HexNumber(x: string): nat
    requires AllHex(x)
  {
    if x == "" then 0
    else
      var n := |x| - 1;
      HexNumber(x[..n]) * 16 + HexValue(x[n]).value
  }

  predicate IsUpperDigit(c: char) {
    '0' <= c <= '9' || 'A' <= c <= 'F'
  }

  // Upper case, at least one digit, no leading zero but in zero itself.
  predicate Canonical(x: string) {
    x != "" && (|x| > 1 ==> x[0] != '0') && forall i :: 0 <= i < |x| ==> IsUpperDigit(x[i])
  }

  lemma UpperIsHex(x: string)
    requires Canonical(x)
    ensures AllHex(x)
  {
    forall i | 0 <= i < |x| ensures HexValue(x[i]).Some? {
      assert IsUpperDigit(x[i]);
    }
  }

  lemma {:induction false} HexForm(n: nat)
    ensures Canonical(Hex(n)) && AllHex(Hex(n)) && HexNumber(Hex(n)) == n && (Hex(n)[0] == '0' ==> n == 0)
  {
    DigitValue(n % 16);
    assert IsUpperDigit(DIGITS[n % 16]);
    var last := [DIGITS[n % 16]];
    assert last[..0] == "";
    if n < 16 {
      assert Hex(n) == last;
    } else {
      HexForm(n / 16);
      var head := Hex(n / 16);
      assert Hex(n) == head + last && (head + last)[..|head|] == head;
    }
    UpperIsHex(Hex(n));
  }

  /** The printed form: both halves in upper-case digits without leading zeros, high half first. */
  lemma PrintedForm(lsn: LSN)
    ensures exists upper, lower ::
              && Canonical(upper) && Canonical(lower) && AllHex(upper) && AllHex(lower)
              && String(lsn) == upper + "/" + lower
              && HexNumber(upper) == lsn / TWO_32 && HexNumber(lower) == lsn % TWO_32
  {
    HexForm(lsn / TWO_32);
    HexForm(lsn % TWO_32);
  }

  predicate Blank(a: string) {
    forall i :: 0 <= i < |a| ==> IsSpace(a[i]) && a[i] != '\n'
  }

  predicate EndsDigits(rest: string) {
    rest == "" || HexValue(rest[0]) == None
  }

  lemma HexIsNoSpace(c: char)
    requires HexValue(c).Some?
    ensures !IsSpace(c) && c != '\n' && c != '\r'
  {
  }

  lemma {:induction false} SkipBlank(a: string, text: string)
    requires Blank(a) && text != "" && HexValue(text[0]).Some?
    ensures SkipSpace(a + text) == Ok(text)
    decreases |a|
  {
    hide HexValue, IsSpace;
    HexIsNoSpace(text[0]);
    if a == "" {
      assert a + text == text;
    } else {
      assert (a + text)[1..] == a[1..] + text && (a + text)[0] == a[0];
      assert |a| > 1 ==> (a + text)[1] == a[1];
      SkipBlank(a[1..], text);
    }
  }

  lemma {:induction false} SkippedIsBlank(s: string) returns (a: string)
    requires SkipSpace(s).Ok?
    ensures Blank(a) && s == a + SkipSpace(s).value
    decreases |s|
  {
    hide IsSpace;
    if s == "" || SkipSpace(s) == Ok(s) {
      a := "";
    } else {
      var b := SkippedIsBlank(s[1..]);
      a := [s[0]] + b;
      assert IsSpace(s[0]) by {
        CarriageReturnIsSpace();
      }
    }
  }

  lemma CarriageReturnIsSpace()
    ensures IsSpace('\r')
  {
  }

  // Digits reads the longest run of digits.
  lemma {:induction false} DigitsAre(s: string, value: nat) returns (x: string)
    ensures AllHex(x) && s == x + Digits(s, value).1 && EndsDigits(Digits(s, value).1)
    ensures s != "" && HexValue(s[0]).Some? ==> x != ""
    decreases |s|
  {
    if s != "" && HexValue(s[0]).Some? {
      var rest := DigitsAre(s[1..], value * 16 + HexValue(s[0]).value);
      x := [s[0]] + rest;
    } else {
      x := "";
    }
  }

  lemma {:induction false} DigitsNumber(x: string, rest: string)
    requires AllHex(x) && EndsDigits(rest)
    ensures Digits(x + rest, 0) == (HexNumber(x), rest)
  {
    DigitsAppend(x, rest, 0);
    DigitsSum(x);
  }

  lemma {:induction false} DigitsSum(x: string)
    requires AllHex(x)
    ensures Digits(x, 0).0 == HexNumber(x)
  {
    if x != "" {
      var n := |x| - 1;
      DigitsSum(x[..n]);
      assert x == x[..n] + [x[n]] && [x[n]][1..] == "";
      DigitsAppend(x[..n], [x[n]], 0);
      assert Digits([x[n]], HexNumber(x[..n])) == Digits([x[n]][1..], HexNumber(x[..n]) * 16 + HexValue(x[n]).value);
    }
  }

  // A number of at most 64 bits behind blanks, and what follows its digits.
  predicate Scanned(s: string, a: string, x: string, rest: string) {
    s == a + x + rest && Blank(a) && x != "" && AllHex(x) && HexNumber(x) < TWO_64 && EndsDigits(rest)
  }

  lemma ScansBack(s: string, a: string, x: string, rest: string)
    requires Scanned(s, a, x, rest)
    ensures ScanUint(s) == Ok((HexNumber(x), rest))
  {
    hide Digits, SkipSpace, Blank;
    assert a + (x + rest) == s && (x + rest)[0] == x[0];
    SkipBlank(a, x + rest);
    DigitsNumber(x, rest);
  }

  lemma ScansOnly(s: string) returns (a: string, x: string)
    requires ScanUint(s).Ok?
    ensures Scanned(s, a, x, ScanUint(s).value.1) && HexNumber(x) == ScanUint(s).value.0
  {
    hide Digits, SkipSpace, Blank;
    a := SkippedIsBlank(s);
    var text := SkipSpace(s).value;
    x := DigitsAre(text, 0);
    DigitsNumber(x, Digits(text, 0).1);
  }

  // A position text: two numbers with a slash directly behind the first; what follows is ignored.
  predicate Means(s: string, v: LSN, a: string, x: string, b: string, y: string, rest: string) {
    && s == a + x + "/" + b + y + rest && Blank(a) && Blank(b) && EndsDigits(rest)
    && x != "" && AllHex(x) && HexNumber(x) < TWO_64 && y != "" && AllHex(y) && HexNumber(y) < TWO_64
    && v == (HexNumber(x) * TWO_32 + HexNumber(y)) % TWO_64
  }

  /** Exactly which texts are positions: two hexadecimal numbers of at most 64 bits, in either case and
      behind blanks but no line break, with a slash directly behind the first. Nothing else is accepted. */
  lemma ParsesIff(s: string, v: LSN)
    ensures ParseLSN(s) == Ok(v) <==> exists a, x, b, y, rest :: Means(s, v, a, x, b, y, rest)
  {
    hide ScanUint, Scanned, Blank, HexNumber;
    if a, x, b, y, rest :| Means(s, v, a, x, b, y, rest) {
      MeaningParses(s, v, a, x, b, y, rest);
    }
    if ParseLSN(s) == Ok(v) {
      var a, x := ScansOnly(s);
      var tail := ScanUint(s).value.1;
      var b, y := ScansOnly(tail[1..]);
      var rest := ScanUint(tail[1..]).value.1;
      ParsedMeans(s, v, a, x, tail, b, y, rest);
    }
  }

  lemma MeaningParses(s: string, v: LSN, a: string, x: string, b: string, y: string, rest: string)
    requires Means(s, v, a, x, b, y, rest)
    ensures ParseLSN(s) == Ok(v)
  {
    hide ScanUint, Blank, HexNumber, AllHex;
    var tail := "/" + (b + y + rest);
    assert s == a + x + tail && tail[1..] == b + y + rest;
    SlashIsNoDigit();
    ScansBack(s, a, x, tail);
    ScansBack(b + y + rest, b, y, rest);
    WrapOnce(HexNumber(x) * TWO_32, HexNumber(y));
  }

  lemma ParsedMeans(s: string, v: LSN, a: string, x: string, tail: string, b: string, y: string, rest: string)
    requires Scanned(s, a, x, tail) && tail != "" && tail[0] == '/' && Scanned(tail[1..], b, y, rest)
    requires v == (HexNumber(x) * TWO_32 % TWO_64 + HexNumber(y)) % TWO_64
    ensures Means(s, v, a, x, b, y, rest)
  {
    hide Blank, HexNumber, AllHex;
    assert tail == "/" + (b + y + rest);
    assert s == a + x + "/" + b + y + rest;
    WrapOnce(HexNumber(x) * TWO_32, HexNumber(y));
  }
}
