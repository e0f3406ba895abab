/** Node ids are strings that mostly spell numbers: how a number is read from one and
    written as one. */
module NodeIds {
  import opened Options

  predicate IsDigit(c: char) { '0' <= c <= '9' }

  predicate IsSpace(c: char) { c in {' ', '\t', '\n', '\r'} }

  // ----- writing -----

  function DigitsOf(n: nat): (s: string)
    ensures s != [] && forall i :: 0 <= i < |s| ==> IsDigit(s[i])
  {
    var last := [('0' as int + n % 10) as char];
    if n < 10 then last else DigitsOf(n / 10) + last
  }

  function StringOf(n: int): string {
    if n < 0 then "-" + DigitsOf(-n) else DigitsOf(n)
  }

  // ----- reading -----

  function LeadingDigits(s: string): (d: string)
    ensures d <= s && forall i :: 0 <= i < |d| ==> IsDigit(d[i])
  {
    if s == "" || !IsDigit(s[0]) then "" else [s[0]] + LeadingDigits(s[1..])
  }

  function DigitValue(c: char): nat
    requires IsDigit(c)
  {
    c as int - '0' as int
  }

  function ValueOf(digits: string): nat
    requires forall i :: 0 <= i < |digits| ==> IsDigit(digits[i])
  {
    if digits == "" then 0
    else ValueOf(digits[..|digits| - 1]) * 10 + DigitValue(digits[|digits| - 1])
  }

  function SkipSpace(s: string): string {
    if s != "" && IsSpace(s[0]) then SkipSpace(s[1..]) else s
  }

  /** `parseInt(s, 10)`: the number spelled by the longest prefix that spells one, after
      white space; None where the original gives NaN. */
  function ParseInt(s: string): Option<int> {
    ParseSigned(SkipSpace(s))
  }

  function ParseSigned(s: string): Option<int> {
    if s != "" && s[0] == '-' then
      match ParseDigits(s[1..])
      case Some(n) => Some(-n)
      case None => None
    else ParseDigits(if s != "" && s[0] == '+' then s[1..] else s)
  }

  function ParseDigits(s: string): Option<int> {
    var digits := LeadingDigits(s);
    if digits == "" then None else Some(ValueOf(digits))
  }

  lemma {:induction false} LeadingDigitsOfDigits(s: string)
    requires forall i :: 0 <= i < |s| ==> IsDigit(s[i])
    ensures LeadingDigits(s) == s
  {
    if s != "" { LeadingDigitsOfDigits(s[1..]); }
  }

  lemma {:induction false} ValueOfDigits(n: nat)
    ensures ValueOf(DigitsOf(n)) == n
  {
    if n >= 10 {
      ValueOfDigits(n / 10);
      assert DigitsOf(n)[..|DigitsOf(n)| - 1] == DigitsOf(n / 10);
    }
  }

  lemma ParseDigitsOf(n: nat)
    ensures ParseDigits(DigitsOf(n)) == Some(n as int)
  {
    ValueOfDigits(n);
    LeadingDigitsOfDigits(DigitsOf(n));
  }

  /** Reading back what was written. */
  lemma ParseIntOfStringOf(n: int)
    ensures ParseInt(StringOf(n)) == Some(n)
  {
    var size, s := if n < 0 then -n else n, StringOf(n);
    ParseDigitsOf(size);
    var digits := DigitsOf(size);
    assert IsDigit(digits[0]);
    assert n < 0 ==> s[0] == '-' && s[1..] == digits;
    assert SkipSpace(s) == s;
  }

  // ----- the largest number in use -----

  /** The numbers among some ids, in order. */
  function Numbers(ids: seq<string>): seq<int> {
    if ids == [] then []
    else (match ParseInt(ids[0]) case Some(n) => [n] case None => []) + Numbers(ids[1..])
  }

  lemma {:induction false} NumbersHasAll(ids: seq<string>, n: int)
    ensures n in Numbers(ids) <==> exists id :: id in ids && ParseInt(id) == Some(n)
  {
    if ids != [] {
      NumbersHasAll(ids[1..], n);
      assert ids == [ids[0]] + ids[1..];
    }
  }

  function MaxOf(numbers: seq<int>): (m: int)
    requires numbers != []
    ensures m in numbers && forall n :: n in numbers ==> n <= m
  {
    if |numbers| == 1 then numbers[0]
    else
      var rest := MaxOf(numbers[1..]);
      assert numbers == [numbers[0]] + numbers[1..];
      if numbers[0] >= rest then numbers[0] else rest
  }

  /** `Math.max` of nothing is minus infinity, and stays so when a number is added. */
  datatype Largest = Finite(n: int) | MinusInfinity

  function LargestOf(numbers: seq<int>): Largest {
    if numbers == [] then MinusInfinity else Finite(MaxOf(numbers))
  }

  /** The id spelled by a number that far above `base`. */
  function IdAbove(base: Largest, step: nat): string {
    match base
    case Finite(n) => StringOf(n + step)
    case MinusInfinity => "-Infinity"
  }

  /** No id in use spells a number above the largest one in use. */
  lemma IdAboveIsFresh(ids: seq<string>, n: int)
    requires forall m :: m in Numbers(ids) ==> m < n
    ensures StringOf(n) !in ids
  {
    ParseIntOfStringOf(n);
    NumbersHasAll(ids, n);
  }
}
