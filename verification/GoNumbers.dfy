/** Decimal printing and parsing as Go's `strconv` does it, for the widths the plugin uses. */
module GoNumbers {

  type Int32 = x: int | -0x8000_0000 <= x < 0x8000_0000
  type Int64 = x: int | -0x8000_0000_0000_0000 <= x < 0x8000_0000_0000_0000

  const DIGITS := "0123456789"

  predicate IsDigit(c: char) {
    '0' <= c <= '9'
  }

  function DigitsOf(n: nat): (s: string)
    ensures s != "" && forall c :: c in s ==> IsDigit(c)
  {
    if n < 10 then [DIGITS[n]] else DigitsOf(n / 10) + [DIGITS[n % 10]]
  }

  /** `strconv.Itoa`, `strconv.FormatInt(_, 10)` and `fmt.Sprint` on an integer. */
  function Itoa(n: int): (s: string)
    ensures s != "" && forall c :: c in s ==> IsDigit(c) || c == '-'
    ensures n >= 0 ==> forall c :: c in s ==> IsDigit(c)
  {
    if n < 0 then "-" + DigitsOf(-n) else DigitsOf(n)
  }

  datatype Scan = Number(n: nat) | Overflow | Syntax

  /** Reads digits from the left and gives up at the first one that is no digit or exceeds `max`. */
  function ScanDigits(s: string, acc: nat, max: nat): Scan {
    if s == "" then Number(acc)
    else if !IsDigit(s[0]) then Syntax
    else
      var n := acc * 10 + (s[0] as int - '0' as int);
      if n > max then Overflow else ScanDigits(s[1..], n, max)
  }

  /** What the Go parsers return: a value (clamped or 0 on error) and whether there was no error. */
  datatype Parsed = Parsed(value: int, ok: bool)

  /** Half the number of values of a signed integer with the given number of bits. */
  function Half(bits: nat): int {
    if bits == 32 then 0x8000_0000 else 0x8000_0000_0000_0000
  }

  /** `strconv.ParseInt(s, 10, bits)`; `Atoi` is the 64-bit case. */
  function ParseInt(s: string, bits: nat): (r: Parsed)
    ensures -Half(bits) <= r.value < Half(bits)
  {
    var signed := s != "" && (s[0] == '-' || s[0] == '+');
    var neg := s != "" && s[0] == '-';
    var digits := if signed then s[1..] else s;
    if digits == "" then Parsed(0, false)
    else
      match ScanDigits(digits, 0, 2 * Half(bits) - 1)
      case Syntax => Parsed(0, false)
      case Overflow => Parsed(if neg then -Half(bits) else Half(bits) - 1, false)
      case Number(n) =>
        if !neg && n >= Half(bits) then Parsed(Half(bits) - 1, false)
        else if neg && n > Half(bits) then Parsed(-Half(bits), false)
        else
          var magnitude: int := n;
          Parsed(if neg then -magnitude else magnitude, true)
  }

  function Atoi(s: string): Parsed {
    ParseInt(s, 64)
  }

  /** `int32(x)` on a 64-bit integer keeps the low 32 bits. */
  function ToInt32(x: int): (r: Int32)
    ensures (r - x) % 0x1_0000_0000 == 0
  {
    var low := x % 0x1_0000_0000;
    if low < 0x8000_0000 then low else low - 0x1_0000_0000
  }

  lemma {:induction false} ScanSnoc(s: string, d: char, acc: nat, max: nat)
    requires IsDigit(d) && ScanDigits(s, acc, max).Number?
    ensures var n := ScanDigits(s, acc, max).n * 10 + (d as int - '0' as int);
      ScanDigits(s + [d], acc, max) == if n > max then Overflow else Number(n)
  {
    if s == "" {
      assert s + [d] == [d] && [d][1..] == "";
    } else {
      assert (s + [d])[1..] == s[1..] + [d];
      ScanSnoc(s[1..], d, acc * 10 + (s[0] as int - '0' as int), max);
    }
  }

  lemma {:induction false} ScanOfDigits(n: nat, max: nat)
    requires n <= max
    ensures ScanDigits(DigitsOf(n), 0, max) == Number(n)
  {
    if n >= 10 {
      ScanOfDigits(n / 10, max);
      ScanSnoc(DigitsOf(n / 10), DIGITS[n % 10], 0, max);
    }
  }

  /** Every value of the width survives printing and parsing. */
  lemma ParseOfItoa(n: int, bits: nat)
    requires -Half(bits) <= n < Half(bits)
    ensures ParseInt(Itoa(n), bits) == Parsed(n, true)
  {
    var m := if n < 0 then -n else n;
    ScanOfDigits(m, 2 * Half(bits) - 1);
    assert IsDigit(DigitsOf(m)[0]);
    if n < 0 {
      assert Itoa(n)[1..] == DigitsOf(m);
    }
  }

  lemma {:induction false} ScanTooLarge(s: string, d: char, acc: nat, max: nat)
    requires ScanDigits(s, acc, max).Overflow?
    ensures ScanDigits(s + [d], acc, max).Overflow?
  {
    assert (s + [d])[1..] == s[1..] + [d] && (s + [d])[0] == s[0];
    var n := acc * 10 + (s[0] as int - '0' as int);
    if n <= max {
      ScanTooLarge(s[1..], d, n, max);
    }
  }

  lemma {:induction false} ScanOverflows(n: nat, max: nat)
    requires n > max >= 9
    ensures ScanDigits(DigitsOf(n), 0, max) == Overflow
  {
    var m, d := n / 10, DIGITS[n % 10];
    if m <= max {
      ScanOfDigits(m, max);
      ScanSnoc(DigitsOf(m), d, 0, max);
    } else {
      ScanOverflows(m, max);
      ScanTooLarge(DigitsOf(m), d, 0, max);
    }
  }

  /** A printed number that the width cannot hold is read as the nearest one that it can, with an error. */
  lemma ParseClamps(n: int, bits: nat)
    ensures var r := ParseInt(Itoa(n), bits);
            && r.ok == (-Half(bits) <= n < Half(bits))
            && r.value == if n < -Half(bits) then -Half(bits) else if n >= Half(bits) then Half(bits) - 1 else n
  {
    var m, max := if n < 0 then -n else n, 2 * Half(bits) - 1;
    if m <= max {
      ScanOfDigits(m, max);
    } else {
      ScanOverflows(m, max);
    }
    assert IsDigit(DigitsOf(m)[0]);
    if n < 0 {
      assert Itoa(n)[1..] == DigitsOf(m);
    }
  }

  /** A plus sign changes nothing. */
  lemma ParsePlus(n: nat, bits: nat)
    ensures ParseInt("+" + Itoa(n), bits) == ParseInt(Itoa(n), bits)
  {
    assert ("+" + Itoa(n))[1..] == Itoa(n) && IsDigit(Itoa(n)[0]);
  }

  lemma {:induction false} ScanNoDigit(s: string, acc: nat, max: nat, c: char)
    requires c in s && !IsDigit(c)
    ensures !ScanDigits(s, acc, max).Number?
  {
    if s[0] != c && IsDigit(s[0]) {
      ScanNoDigit(s[1..], acc * 10 + (s[0] as int - '0' as int), max, c);
    }
  }

  /** Only an optional sign and digits are a number. */
  lemma ParseRejects(s: string, bits: nat)
    requires ParseInt(s, bits).ok
    ensures s != ""
    ensures forall k :: 0 <= k < |s| ==> IsDigit(s[k]) || (k == 0 && |s| > 1 && (s[0] == '-' || s[0] == '+'))
  {
    var signed := s[0] == '-' || s[0] == '+';
    var digits := if signed then s[1..] else s;
    forall c | c in digits ensures IsDigit(c) {
      if !IsDigit(c) {
        ScanNoDigit(digits, 0, 2 * Half(bits) - 1, c);
      }
    }
    assert signed ==> forall k :: 1 <= k < |s| ==> s[k] == digits[k - 1];
  }

  lemma ItoaInjective(m: int, n: int)
    requires Itoa(m) == Itoa(n)
    ensures m == n
  {
    var a: nat, b: nat := if m < 0 then -m else m, if n < 0 then -n else n;
    ScanOfDigits(a, a + b);
    ScanOfDigits(b, a + b);
    assert IsDigit(DigitsOf(a)[0]) && IsDigit(DigitsOf(b)[0]);
    assert m < 0 ==> Itoa(m)[0] == '-' && Itoa(m)[1..] == DigitsOf(a);
    assert n < 0 ==> Itoa(n)[0] == '-' && Itoa(n)[1..] == DigitsOf(b);
  }
}
