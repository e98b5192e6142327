/** `str::parse::<usize>()` on a 64-bit target: an optional leading `+`,
    then one or more ASCII decimal digits whose value fits in 64 bits. The
    three ways it fails are the kinds of Rust's `ParseIntError`. */
module IntParse {

  /** `usize::MAX` on a 64-bit target. */
  const USIZE_MAX: nat := 0xFFFF_FFFF_FFFF_FFFF

  datatype IntErrorKind = Empty | InvalidDigit | PosOverflow

  datatype Parsed = Value(n: nat) | Failure(kind: IntErrorKind)

  predicate IsDigit(c: char) { '0' <= c <= '9' }

  predicate AllDigits(s: string) { forall i :: 0 <= i < |s| ==> IsDigit(s[i]) }

  function DigitValue(c: char): (d: nat)
    requires IsDigit(c)
    ensures d < 10
  {
    (c as int) - ('0' as int)
  }

  function DigitChar(d: nat): (c: char)
    requires d < 10
    ensures IsDigit(c) && DigitValue(c) == d
  {
    (('0' as int) + d) as char
  }

  /** The number a digit string denotes, most significant digit first. */
  function DecimalValue(s: string): nat
    requires AllDigits(s)
  {
    if s == [] then 0 else DecimalValue(s[..|s| - 1]) * 10 + DigitValue(s[|s| - 1])
  }

  /** The part of s that must be digits: s without one leading `+`. */
  function Unsigned(s: string): string
  {
    if |s| > 0 && s[0] == '+' then s[1..] else s
  }

  /** The digit loop of the standard library: left to right, the first
      non-digit fails with InvalidDigit, an accumulator that would exceed
      `usize::MAX` fails with PosOverflow. */
  function ScanDigits(s: string, acc: nat): (r: Parsed)
    requires acc <= USIZE_MAX
    ensures r.Value? ==> acc <= r.n <= USIZE_MAX
    ensures r != Failure(Empty)
    decreases |s|
  {
    if s == [] then Value(acc)
    else if !IsDigit(s[0]) then Failure(InvalidDigit)
    else if acc * 10 + DigitValue(s[0]) > USIZE_MAX then Failure(PosOverflow)
    else ScanDigits(s[1..], acc * 10 + DigitValue(s[0]))
  }

  /** `s.parse::<usize>()`. A lone sign is an invalid digit; a `-` in front
      of digits is an invalid digit too, since the type is unsigned. */
  function ParseUsize(s: string): (r: Parsed)
    ensures r.Value? ==> r.n <= USIZE_MAX
    ensures r == Failure(Empty) <==> s == []
  {
    if s == [] then Failure(Empty)
    else if |s| == 1 && (s[0] == '+' || s[0] == '-') then Failure(InvalidDigit)
    else ScanDigits(Unsigned(s), 0)
  }

  /** Decimal rendering of n, without leading zeros. */
  function ToDecimal(n: nat): (s: string)
    ensures s != [] && AllDigits(s)
    decreases n
  {
    if n < 10 then [DigitChar(n)] else ToDecimal(n / 10) + [DigitChar(n % 10)]
  }

  /** The error text Rust's `ParseIntError` displays for each kind. */
  function Describe(kind: IntErrorKind): string
  {
    match kind
    case Empty => "cannot parse integer from empty string"
    case InvalidDigit => "invalid digit found in string"
    case PosOverflow => "number too large to fit in target type"
  }

  /** Appending digits never makes a number smaller. */
  lemma {:induction false} DecimalValueMonotone(p: string, q: string)
    requires AllDigits(p + q)
    ensures AllDigits(p) && DecimalValue(p) <= DecimalValue(p + q)
    decreases |q|
  {
    assert forall i :: 0 <= i < |p| ==> (p + q)[i] == p[i];
    if q == [] {
      assert p + q == p;
    } else {
      var q' := q[..|q| - 1];
      assert (p + q)[..|p + q| - 1] == p + q';
      assert forall i :: 0 <= i < |p + q'| ==> (p + q')[i] == (p + q)[i];
      DecimalValueMonotone(p, q');
      assert DecimalValue(p + q) == DecimalValue(p + q') * 10 + DigitValue((p + q)[|p + q| - 1]);
    }
  }

  /** The digit loop computes DecimalValue of everything read so far, or
      overflows exactly when that value exceeds `usize::MAX`. */
  lemma {:induction false} ScanDigitsCorrect(p: string, s: string, acc: nat)
    requires AllDigits(p + s)
    requires AllDigits(p) && acc == DecimalValue(p) && acc <= USIZE_MAX
    ensures ScanDigits(s, acc) ==
      if DecimalValue(p + s) <= USIZE_MAX then Value(DecimalValue(p + s)) else Failure(PosOverflow)
    decreases |s|
  {
    if s == [] {
      assert p + s == p;
    } else {
      var p' := p + [s[0]];
      assert p' + s[1..] == p + s;
      assert (p + s)[|p|] == s[0];
      assert p'[..|p'| - 1] == p;
      assert AllDigits(p') by {
        assert forall i :: 0 <= i < |p'| ==> p'[i] == (p + s)[i];
      }
      assert DecimalValue(p') == acc * 10 + DigitValue(s[0]);
      DecimalValueMonotone(p', s[1..]);
      if DecimalValue(p') <= USIZE_MAX {
        ScanDigitsCorrect(p', s[1..], DecimalValue(p'));
      }
    }
  }

  /** The digit loop fails as soon as it meets a non-digit within bounds. */
  lemma {:induction false} ScanDigitsRejects(s: string, acc: nat)
    requires acc <= USIZE_MAX
    requires !AllDigits(s)
    ensures ScanDigits(s, acc).Failure?
    decreases |s|
  {
    if IsDigit(s[0]) && acc * 10 + DigitValue(s[0]) <= USIZE_MAX {
      assert !AllDigits(s[1..]) by {
        var i :| 0 <= i < |s| && !IsDigit(s[i]);
        assert s[1..][i - 1] == s[i];
      }
      ScanDigitsRejects(s[1..], acc * 10 + DigitValue(s[0]));
    }
  }

  /** `parse::<usize>` succeeds exactly on an optional `+` followed by a
      non-empty run of digits whose value fits, and then yields that value. */
  lemma ParseUsizeExact(s: string)
    ensures ParseUsize(s).Value? <==>
      Unsigned(s) != [] && AllDigits(Unsigned(s)) && DecimalValue(Unsigned(s)) <= USIZE_MAX
    ensures ParseUsize(s).Value? ==> ParseUsize(s).n == DecimalValue(Unsigned(s))
  {
    var d := Unsigned(s);
    if s != [] && !(|s| == 1 && (s[0] == '+' || s[0] == '-')) {
      if AllDigits(d) {
        assert [] + d == d;
        ScanDigitsCorrect([], d, 0);
      } else {
        ScanDigitsRejects(d, 0);
      }
    } else if s != [] {
      assert d == [] || !IsDigit(d[0]);
    }
  }

  lemma {:induction false} DecimalOfToDecimal(n: nat)
    ensures DecimalValue(ToDecimal(n)) == n
    decreases n
  {
    if n >= 10 {
      var s := ToDecimal(n);
      assert s[..|s| - 1] == ToDecimal(n / 10);
      DecimalOfToDecimal(n / 10);
    }
  }

  /** Every `usize` survives rendering in decimal and parsing back. */
  lemma ParseToDecimal(n: nat)
    requires n <= USIZE_MAX
    ensures ParseUsize(ToDecimal(n)) == Value(n)
  {
    var s := ToDecimal(n);
    assert Unsigned(s) == s;
    DecimalOfToDecimal(n);
    ParseUsizeExact(s);
  }
}
