/** Go's `strconv.ParseUint(s, 10, 64)`, the number reader of the statistics
    parser, and `strconv.FormatUint(n, 10)`, the decimal writer that is its
    inverse. */
module Strconv {
  import opened Wrappers
  import opened Uint64

  /** The two kinds of `*strconv.NumError` that `ParseUint` reports. */
  datatype NumError = ErrSyntax | ErrRange

  predicate IsDigit(c: char) {
    '0' <= c <= '9'
  }

  predicate AllDigits(s: string) {
    forall i :: 0 <= i < |s| ==> IsDigit(s[i])
  }

  function DigitValue(c: char): (d: nat)
    requires IsDigit(c)
    ensures d < 10
  {
    (c as int) - ('0' as int)
  }

  function DigitChar(d: nat): (c: char)
    requires d < 10
    ensures IsDigit(c) && DigitValue(c) == d
  {
    (('0' as int) + d) as char
  }

  /** The number a string of decimal digits denotes, most significant first. */
  function Decimal(s: string): nat
    requires AllDigits(s)
  {
    if s == [] then 0 else Decimal(s[..|s| - 1]) * 10 + DigitValue(s[|s| - 1])
  }

  /** The length of the longest prefix of `s` made of decimal digits. */
  function LeadingDigits(s: string): (n: nat)
    ensures n <= |s| && AllDigits(s[..n])
    ensures n < |s| ==> !IsDigit(s[n])
  {
    if s == [] || !IsDigit(s[0]) then 0
    else
      var n := 1 + LeadingDigits(s[1..]);
      assert s[..n] == [s[0]] + s[1..][..n - 1];
      n
  }

  /** `strconv.ParseUint(s, 10, 64)`. It reads the digits left to right: a
      non-digit is a syntax error, but a value that has already overflowed 64
      bits before the first non-digit is reported as a range error. The empty
      string is a syntax error; no sign, prefix or underscore is accepted. */
  function ParseUint(s: string): (r: Result<U64, NumError>)
    ensures r.Success? <==> s != [] && AllDigits(s) && Decimal(s) < TWO64
    ensures r.Success? ==> r.value == Decimal(s)
    ensures s == [] ==> r == Failure(ErrSyntax)
    ensures r.Failure? && s != [] ==>
      (r.error == ErrRange <==> Decimal(s[..LeadingDigits(s)]) >= TWO64)
  {
    if s == [] then Failure(ErrSyntax)
    else
      var n := LeadingDigits(s);
      assert AllDigits(s) ==> n == |s| && s[..n] == s;
      if Decimal(s[..n]) >= TWO64 then Failure(ErrRange)
      else if n < |s| then Failure(ErrSyntax)
      else
        assert s[..n] == s;
        Success(Decimal(s))
  }

  /** `strconv.FormatUint(n, 10)`: the shortest decimal numeral of `n`. */
  function FormatUint(n: nat): (s: string)
    ensures s != [] && AllDigits(s)
  {
    if n < 10 then [DigitChar(n)] else FormatUint(n / 10) + [DigitChar(n % 10)]
  }

  lemma {:induction false} DecimalOfFormat(n: nat)
    ensures Decimal(FormatUint(n)) == n
  {
    var s := FormatUint(n);
    if n < 10 {
      assert s[..|s| - 1] == [];
    } else {
      assert s[..|s| - 1] == FormatUint(n / 10);
      DecimalOfFormat(n / 10);
    }
  }

  /** Reading back a written counter gives the counter. */
  lemma ParseFormatRoundTrip(n: U64)
    ensures ParseUint(FormatUint(n)) == Success(n)
  {
    DecimalOfFormat(n);
  }

  /** A counter of more than 64 bits is rejected as out of range, not wrapped,
      whether or not it has leading zeros. */
  lemma ParseOverflowIsRange(s: string)
    requires s != [] && AllDigits(s) && Decimal(s) >= TWO64
    ensures ParseUint(s) == Failure(ErrRange)
  {
    assert s[..LeadingDigits(s)] == s;
  }

  /** The overflow is seen before a non-digit that follows it: such a field
      is a range error too, not a syntax error. */
  lemma OverflowBeforeJunkIsRange(digits: string, rest: string)
    requires digits != [] && AllDigits(digits) && Decimal(digits) >= TWO64
    requires rest != [] && !IsDigit(rest[0])
    ensures ParseUint(digits + rest) == Failure(ErrRange)
  {
    var s := digits + rest;
    assert !AllDigits(s) by { assert s[|digits|] == rest[0]; }
    LeadingDigitsOfDigits(digits, rest);
    assert s[..|digits|] == digits;
  }

  lemma {:induction false} LeadingDigitsOfDigits(digits: string, rest: string)
    requires AllDigits(digits)
    requires rest == [] || !IsDigit(rest[0])
    ensures LeadingDigits(digits + rest) == |digits|
    decreases |digits|
  {
    if digits == [] {
      assert digits + rest == rest;
    } else {
      assert (digits + rest)[1..] == digits[1..] + rest;
      assert AllDigits(digits[1..]);
      LeadingDigitsOfDigits(digits[1..], rest);
    }
  }
}
