/** Go's `strconv.Atoi` on a 64-bit platform and the decimal formatting of `%d`, as
    the configuration and the request handlers use them. */
module Strconv {
  import opened Common

  const MaxUint64: nat := 0xFFFF_FFFF_FFFF_FFFF
  const MaxInt64: int := 0x7FFF_FFFF_FFFF_FFFF
  const MinInt64: int := -0x8000_0000_0000_0000

  predicate InInt64(n: int)
  {
    MinInt64 <= n <= MaxInt64
  }

  predicate IsDigit(c: char)
  {
    '0' <= c <= '9'
  }

  predicate AllDigits(s: string)
  {
    forall i :: 0 <= i < |s| ==> IsDigit(s[i])
  }

  function DigitValue(c: char): nat
    requires IsDigit(c)
  {
    c as int - '0' as int
  }

  function DigitChar(d: nat): (c: char)
    requires d < 10
    ensures IsDigit(c) && DigitValue(c) == d
  {
    ('0' as int + d) as char
  }

  /** The value of a run of decimal digits, read as a mathematical integer. */
  function Value(s: string): nat
    requires AllDigits(s)
  {
    if s == [] then 0 else Value(s[..|s| - 1]) * 10 + DigitValue(s[|s| - 1])
  }

  /** A decimal integer is an optional sign followed by at least one digit, which
      is what `Atoi` accepts in base 10 (no base prefix, no underscores). */
  predicate HasSign(s: string)
  {
    s != [] && (s[0] == '+' || s[0] == '-')
  }

  function Magnitude(s: string): string
  {
    if HasSign(s) then s[1..] else s
  }

  predicate Decimal(s: string)
  {
    Magnitude(s) != [] && AllDigits(Magnitude(s))
  }

  /** The value a decimal integer denotes. */
  function DecimalValue(s: string): int
    requires Decimal(s)
  {
    var v: int := Value(Magnitude(s));
    if HasSign(s) && s[0] == '-' then -v else v
  }

  /** The state of `ParseUint`'s scan over the magnitude: the value so far, or the
      error that ended it. */
  datatype Scan = Scanned(n: nat) | BadSyntax | OutOfRange

  /** `ParseUint(s, 10, 64)` from position `i` on, with `n` read so far: a character
      that is not a digit is a syntax error; a digit that takes the value past the
      largest `uint64` is a range error at once, whatever follows it. */
  function ScanFrom(s: string, i: nat, n: nat): Scan
    requires i <= |s| && n <= MaxUint64
    decreases |s| - i
  {
    if i == |s| then Scanned(n)
    else if !IsDigit(s[i]) then BadSyntax
    else if n * 10 + DigitValue(s[i]) > MaxUint64 then OutOfRange
    else ScanFrom(s, i + 1, n * 10 + DigitValue(s[i]))
  }

  /** `strconv.Atoi`: `ParseInt(s, 10, 0)` with the errors' function name set to
      "Atoi". The sign is taken off, the magnitude scanned, and the value checked
      against the range of `int64`. The short-string fast path of `Atoi` gives the
      same results and is not modelled separately. */
  function Atoi(s: string): Result<int>
  {
    var digits := Magnitude(s);
    var neg := HasSign(s) && s[0] == '-';
    if digits == [] then Err(Syntax("Atoi", s))
    else match ScanFrom(digits, 0, 0)
      case BadSyntax => Err(Syntax("Atoi", s))
      case OutOfRange => Err(Range("Atoi", s))
      case Scanned(u) =>
        if !neg && u > MaxInt64 then Err(Range("Atoi", s))
        else if neg && u > -MinInt64 then Err(Range("Atoi", s))
        else Ok(if neg then -(u as int) else u)
  }

  /** The decimal digits of a natural number, without leading zeros. */
  function NatDigits(m: nat): (r: string)
    ensures r != [] && AllDigits(r) && IsDigit(r[0])
    ensures |r| > 1 ==> r[0] != '0'
  {
    if m < 10 then [DigitChar(m)] else NatDigits(m / 10) + [DigitChar(m % 10)]
  }

  /** `%d` of an integer, as `fmt.Sprintf` writes it. */
  function Itoa(n: int): string
  {
    if n < 0 then "-" + NatDigits(-n) else NatDigits(n)
  }

  lemma {:induction false} ValueSnoc(s: string, c: char)
    requires AllDigits(s) && IsDigit(c)
    ensures AllDigits(s + [c]) && Value(s + [c]) == Value(s) * 10 + DigitValue(c)
  {
    assert (s + [c])[..|s|] == s;
  }

  /** Reading the digits of `m` back gives `m`. */
  lemma {:induction false} ValueNatDigits(m: nat)
    ensures Value(NatDigits(m)) == m
  {
    if m >= 10 {
      ValueNatDigits(m / 10);
      ValueSnoc(NatDigits(m / 10), DigitChar(m % 10));
    }
  }

  /** The value of a prefix of a digit run is at most the value of the run. */
  lemma {:induction false} ValuePrefix(s: string, i: nat)
    requires AllDigits(s) && i <= |s|
    ensures AllDigits(s[..i]) && Value(s[..i]) <= Value(s)
  {
    if i < |s| {
      ValuePrefix(s[..|s| - 1], i);
      assert s[..|s| - 1][..i] == s[..i];
    } else {
      assert s[..i] == s;
    }
  }

  /** A digit run fewer than `k` digits long has a value below 10^k. */
  lemma {:induction false} ValueBound(s: string)
    requires AllDigits(s)
    ensures Value(s) < Pow10(|s|)
  {
    if s != [] {
      ValueBound(s[..|s| - 1]);
    }
  }

  function Pow10(k: nat): (r: nat)
    ensures r >= 1
  {
    if k == 0 then 1 else 10 * Pow10(k - 1)
  }

  /** The scan of a digit run reads its value, or stops with a range error exactly
      when that value does not fit in `uint64`. */
  lemma {:induction false} ScanDigits(s: string, i: nat)
    requires AllDigits(s) && i <= |s|
    requires AllDigits(s[..i]) && Value(s[..i]) <= MaxUint64
    ensures ScanFrom(s, i, Value(s[..i])) == if Value(s) <= MaxUint64 then Scanned(Value(s)) else OutOfRange
    decreases |s| - i
  {
    if i == |s| {
      assert s[..i] == s;
    } else {
      ValueSnoc(s[..i], s[i]);
      assert s[..i] + [s[i]] == s[..i + 1];
      ValuePrefix(s, i + 1);
      if Value(s[..i + 1]) <= MaxUint64 {
        ScanDigits(s, i + 1);
      }
    }
  }

  /** A scan that meets a character that is not a digit never reads a value. */
  lemma {:induction false} ScanNotDigits(s: string, i: nat, n: nat, j: nat)
    requires i <= j < |s| && !IsDigit(s[j]) && n <= MaxUint64
    ensures !ScanFrom(s, i, n).Scanned?
    decreases j - i
  {
    if i < j && IsDigit(s[i]) && n * 10 + DigitValue(s[i]) <= MaxUint64 {
      ScanNotDigits(s, i + 1, n * 10 + DigitValue(s[i]), j);
    }
  }

  /** `Atoi` succeeds exactly on the decimal integers within `int64`, with the value
      they denote. */
  lemma AtoiOk(s: string)
    ensures Atoi(s).Ok? <==> Decimal(s) && InInt64(DecimalValue(s))
    ensures Atoi(s).Ok? ==> Atoi(s).value == DecimalValue(s)
  {
    var digits := Magnitude(s);
    if digits != [] {
      if AllDigits(digits) {
        assert digits[..0] == [];
        ScanDigits(digits, 0);
      } else {
        var j :| 0 <= j < |digits| && !IsDigit(digits[j]);
        ScanNotDigits(digits, 0, 0, j);
      }
    }
  }

  /** Every error of `Atoi` names the function and the whole input; a decimal integer
      outside `int64` is a range error. */
  lemma AtoiErrors(s: string)
    ensures Atoi(s).Err? ==> Atoi(s).error in {Syntax("Atoi", s), Range("Atoi", s)}
    ensures Decimal(s) && !InInt64(DecimalValue(s)) ==> Atoi(s) == Err(Range("Atoi", s))
  {
    var digits := Magnitude(s);
    if Decimal(s) {
      assert digits[..0] == [];
      ScanDigits(digits, 0);
    }
  }

  /** A string of fewer than 19 characters cannot overflow the scan, so whatever
      is wrong with it is a syntax error. */
  lemma AtoiShort(s: string)
    requires |s| < 19 && !Decimal(s)
    ensures Atoi(s) == Err(Syntax("Atoi", s))
  {
    var digits := Magnitude(s);
    if digits != [] {
      var j :| 0 <= j < |digits| && !IsDigit(digits[j]);
      assert Pow10(0) == 1;
      ScanShort(digits, 0, 0, j);
    }
  }

  /** The scan of fewer than 19 characters, up to a character that is not a digit,
      ends in a syntax error. */
  lemma {:induction false} ScanShort(s: string, i: nat, n: nat, j: nat)
    requires |s| < 19 && i <= j < |s| && !IsDigit(s[j])
    requires n < Pow10(i) && n <= MaxUint64
    ensures ScanFrom(s, i, n) == BadSyntax
    decreases j - i
  {
    if i < j && IsDigit(s[i]) {
      Pow10Bound(i + 1);
      ScanShort(s, i + 1, n * 10 + DigitValue(s[i]), j);
    }
  }

  /** Powers of ten up to 10^19 stay within `uint64`. */
  lemma {:induction false} Pow10Bound(k: nat)
    requires k <= 19
    ensures Pow10(k) <= Pow10(19) <= MaxUint64
    decreases 19 - k
  {
    assert Pow10(6) == 1_000_000;
    assert Pow10(12) == 1_000_000_000_000;
    assert Pow10(18) == 1_000_000_000_000_000_000;
    if k < 19 {
      Pow10Bound(k + 1);
    }
  }

  /** `Atoi` reads back what `%d` writes, for every `int64`. */
  lemma AtoiItoa(n: int)
    requires InInt64(n)
    ensures Atoi(Itoa(n)) == Ok(n)
  {
    var m: nat := if n < 0 then -n else n;
    var digits := NatDigits(m);
    ValueNatDigits(m);
    assert digits[..0] == [];
    ScanDigits(digits, 0);
    if n < 0 {
      assert Magnitude(Itoa(n)) == digits;
    }
  }

  /** `%d` is injective: distinct integers are written differently. */
  lemma ItoaInjective(a: int, b: int)
    requires Itoa(a) == Itoa(b)
    ensures a == b
  {
    ItoaSign(a);
    ItoaSign(b);
    var ma: nat := if a < 0 then -a else a;
    var mb: nat := if b < 0 then -b else b;
    ValueNatDigits(ma);
    ValueNatDigits(mb);
    if a < 0 {
      assert NatDigits(ma) == Itoa(a)[1..] == Itoa(b)[1..] == NatDigits(mb);
    }
  }

  /** `%d` starts with a minus sign exactly for negative numbers; all the rest of
      it, and all of it for the others, is digits. */
  lemma ItoaSign(n: int)
    ensures Itoa(n) != [] && (Itoa(n)[0] == '-' <==> n < 0)
    ensures n < 0 ==> |Itoa(n)| > 1 && AllDigits(Itoa(n)[1..])
    ensures n >= 0 ==> AllDigits(Itoa(n))
  {
    if n < 0 {
      assert Itoa(n)[1..] == NatDigits(-n);
    }
  }

  /** After the sign, `%d` is all digits up to the '-' that follows it. */
  lemma ItoaDigits(n: int, r: string)
    ensures |Itoa(n)| > (if n < 0 then 1 else 0)
    ensures forall i :: (if n < 0 then 1 else 0) <= i < |Itoa(n)| ==> IsDigit((Itoa(n) + "-" + r)[i])
    ensures (Itoa(n) + "-" + r)[|Itoa(n)|] == '-'
  {
    if n < 0 {
      assert forall i :: 1 <= i < |Itoa(n)| ==> (Itoa(n) + "-" + r)[i] == NatDigits(-n)[i - 1];
    }
  }

  /** Two `%d` renderings followed by a '-' can be told apart: the '-' after the
      number ends it, so equal strings have equal numbers and equal tails. */
  lemma ItoaDash(a: int, b: int, ra: string, rb: string)
    requires Itoa(a) + "-" + ra == Itoa(b) + "-" + rb
    ensures a == b && ra == rb
  {
    var x := Itoa(a) + "-" + ra;
    ItoaSign(a);
    ItoaSign(b);
    assert x[0] == Itoa(a)[0] && x[0] == Itoa(b)[0];
    ItoaDigits(a, ra);
    ItoaDigits(b, rb);
    var la, lb := |Itoa(a)|, |Itoa(b)|;
    assert la == lb;
    assert Itoa(a) == x[..la] == Itoa(b);
    ItoaInjective(a, b);
    assert ra == x[la + 1..] == rb;
  }
}
