/**
 * `strconv` on signed 64-bit integers, in base ten. Parsing accepts an optional sign and any number of digits and fails
 * outside the range; printing gives the shortest form. `Atoi` is as its callers use it here, ignoring the error, so
 * that a number too large for 64 bits counts as the largest one.
 */
module Decimals {
  import opened Text

  const MAX_INT64 := 0x7FFF_FFFF_FFFF_FFFF
  const MIN_INT64 := -0x8000_0000_0000_0000

  predicate Number(s: string) {
    s != "" && forall i :: 0 <= i < |s| ==> Digit(s[i])
  }

  function DigitValue(c: char): nat
    requires Digit(c)
  {
    c as int - '0' as int
  }

  function Value(s: string): nat
    requires forall i :: 0 <= i < |s| ==> Digit(s[i])
  {
    if s == "" then 0 else 10 * Value(s[..|s| - 1]) + DigitValue(s[|s| - 1])
  }

  function Digits(n: nat): (s: string)
    ensures Number(s) && Value(s) == n
  {
    var last := ['0' + (n % 10) as char];
    if n < 10 then
      assert last[..0] == "";
      last
    else
      var more := Digits(n / 10) + last;
      assert more[..|more| - 1] == Digits(n / 10);
      more
  }

  /** `strconv.ParseInt(s, 10, 64)`. */
  function ParseInt(s: string): Option<int> {
    if s == "" then None
    else
      var signed := s[0] == '-' || s[0] == '+';
      var body := if signed then s[1..] else s;
      if !Number(body) then None
      else
        var size: int := Value(body);
        var n := if s[0] == '-' then -size else size;
        if MIN_INT64 <= n <= MAX_INT64 then Some(n) else None
  }

  /** `strconv.FormatInt(n, 10)`. */
  function FormatInt(n: int): string {
    if n < 0 then
      var size: nat := -n;
      "-" + Digits(size)
    else Digits(n)
  }

  function Power10(k: nat): nat {
    if k == 0 then 1 else 10 * Power10(k - 1)
  }

  lemma {:induction false} DigitsShort(n: nat, k: nat)
    requires n < Power10(k + 1)
    ensures |Digits(n)| <= k + 1
  {
    if n >= 10 {
      assert k > 0 && n / 10 < Power10(k);
      DigitsShort(n / 10, k - 1);
    }
  }

  /** A printed 64-bit integer has at most twenty characters: a sign, perhaps, and digits. */
  lemma FormattedShort(n: int)
    requires MIN_INT64 <= n <= MAX_INT64
    ensures |FormatInt(n)| <= 20
    ensures forall i :: 0 <= i < |FormatInt(n)| ==> Digit(FormatInt(n)[i]) || FormatInt(n)[i] == '-'
  {
    assert Power10(4) == 10_000;
    assert Power10(8) == 100_000_000;
    assert Power10(12) == 1_000_000_000_000;
    assert Power10(16) == 10_000_000_000_000_000;
    assert Power10(19) == 10_000_000_000_000_000_000;
    DigitsShort(if n < 0 then -n else n, 18);
  }

  lemma ParseFormatted(n: int)
    requires MIN_INT64 <= n <= MAX_INT64
    ensures ParseInt(FormatInt(n)) == Some(n)
  {
    if n < 0 {
      assert ("-" + Digits(-n))[1..] == Digits(-n);
    } else {
      assert Digit(Digits(n)[0]);
    }
  }

  lemma ParsedInRange(s: string)
    requires ParseInt(s).Some?
    ensures MIN_INT64 <= ParseInt(s).value <= MAX_INT64
  {
  }

  /** What `strconv.Atoi` returns for a number, its error ignored: too large a number comes back as the largest. */
  function Atoi(s: string): int
    requires Number(s)
  {
    if Value(s) <= MAX_INT64 then Value(s) else MAX_INT64
  }
}
