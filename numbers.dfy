/** Go's `strconv.ParseInt(s, 10, 64)` and the `%d` rendering of an int64. */
module Numbers {
  import opened Wrappers

  const Int64Min: int := -0x8000_0000_0000_0000
  const Int64Max: int := 0x7FFF_FFFF_FFFF_FFFF

  predicate InInt64(n: int) {
    Int64Min <= n <= Int64Max
  }

  predicate IsDigit(c: char) {
    '0' <= c <= '9'
  }

  predicate AllDigits(s: string) {
    forall i :: 0 <= i < |s| ==> IsDigit(s[i])
  }

  function DigitValue(c: char): nat
    requires IsDigit(c)
  {
    (c as int) - ('0' as int)
  }

  /** The number a run of decimal digits denotes, most significant digit first. */
  function DigitsValue(s: string): nat
    requires AllDigits(s)
  {
    if |s| == 0 then 0 else DigitsValue(s[..|s| - 1]) * 10 + DigitValue(s[|s| - 1])
  }

  /** The digits after an optional leading sign. */
  function Magnitude(s: string): string {
    if |s| > 0 && (s[0] == '+' || s[0] == '-') then s[1..] else s
  }

  /** The text is an optionally signed, non-empty run of decimal digits. */
  predicate IsDecimalInt(s: string) {
    |Magnitude(s)| > 0 && AllDigits(Magnitude(s))
  }

  /** The signed integer such a text denotes. */
  function DecimalValue(s: string): int
    requires IsDecimalInt(s)
  {
    var m: int := DigitsValue(Magnitude(s));
    if s[0] == '-' then -m else m
  }

  /** The left-to-right digit loop of `strconv.ParseUint`: `acc` holds the value
      of the digits before position `i`. */
  function Accumulate(s: string, i: nat, acc: nat): (n: nat)
    requires AllDigits(s) && i <= |s|
    requires acc == DigitsValue(s[..i])
    ensures n == DigitsValue(s)
    decreases |s| - i
  {
    if i == |s| then
      assert s[..i] == s;
      acc
    else
      assert s[..i + 1][..i] == s[..i];
      Accumulate(s, i + 1, acc * 10 + DigitValue(s[i]))
  }

  /** `strconv.ParseInt(s, 10, 64)`: an optional sign, then at least one digit
      and nothing else, with the value in the signed 64-bit range. A syntax
      error and a range error both give `None`. */
  function ParseInt64(s: string): (r: Option<int>)
    ensures r.Some? <==> IsDecimalInt(s) && InInt64(DecimalValue(s))
    ensures r.Some? ==> r.value == DecimalValue(s)
  {
    if |s| == 0 then None
    else
      var neg := s[0] == '-';
      var digits := if s[0] == '+' || s[0] == '-' then s[1..] else s;
      if |digits| == 0 || !AllDigits(digits) then None
      else
        assert digits[..0] == [];
        var un: int := Accumulate(digits, 0, 0);
        if !neg && un > Int64Max then None
        else if neg && un > -Int64Min then None
        else Some(if neg then -un else un)
  }

  function Digit(d: nat): char
    requires d < 10
  {
    ('0' as int + d) as char
  }

  /** The decimal digits of a natural number, without leading zeros. */
  function FormatNat(n: nat): (s: string)
    ensures |s| > 0 && AllDigits(s)
    ensures DigitsValue(s) == n
  {
    if n < 10 then [Digit(n)]
    else
      var s := FormatNat(n / 10) + [Digit(n % 10)];
      assert s[..|s| - 1] == FormatNat(n / 10);
      s
  }

  /** `fmt.Sprintf("%d", n)` and `strconv.FormatInt(n, 10)`. */
  function FormatInt(n: int): string {
    if n < 0 then "-" + FormatNat(-n) else FormatNat(n)
  }

  /** Every int64 survives printing and parsing. */
  lemma ParseFormatInt(n: int)
    requires InInt64(n)
    ensures ParseInt64(FormatInt(n)) == Some(n)
  {
    var s := FormatInt(n);
    if n < 0 {
      assert Magnitude(s) == FormatNat(-n);
    } else {
      assert Magnitude(s) == FormatNat(n);
    }
  }

  /** A printed integer contains no '.'. */
  lemma FormatIntHasNoDot(n: int)
    ensures '.' !in FormatInt(n)
  {
    var s := FormatInt(n);
    forall i | 0 <= i < |s| ensures s[i] != '.' {
      if n < 0 && i > 0 {
        assert s[i] == FormatNat(-n)[i - 1];
      }
    }
  }
}
