/** `format_file_size` of `modeling/utils/file_utils.py`: a byte count rendered in the
    one unit (bytes, KB, MB or GB) whose range holds it, with two decimals. */
module FileUtils {
  import opened Wrappers
  import opened PyText

  /** The argument: a path to look up, or a size already in bytes. */
  datatype SizeArg = PathArg(path: string) | BytesArg(bytes: int)

  function Pow1024(k: nat): (r: nat)
    ensures r >= 1
  {
    if k == 0 then 1 else 1024 * Pow1024(k - 1)
  }

  /** The exponent of the unit chosen for `n` bytes: 0 = bytes, 1 = KB, 2 = MB, 3 = GB. */
  function UnitOf(n: int): (k: nat)
    ensures k <= 3
    ensures k == 0 <==> n < 1024
    ensures 1 <= k < 3 ==> Pow1024(k) <= n < Pow1024(k + 1)
    ensures k == 3 ==> Pow1024(3) <= n
  {
    if n < 1024 then 0
    else if n < 1024 * 1024 then 1
    else if n < 1024 * 1024 * 1024 then 2
    else 3
  }

  function UnitName(k: nat): string
    requires 1 <= k <= 3
  {
    if k == 1 then "KB" else if k == 2 then "MB" else "GB"
  }

  /** `num / den` rounded to the nearest integer, ties to even: how `:.2f` rounds
      the exact binary value `n / 1024**k` scaled by 100. */
  function RoundHalfEven(num: nat, den: nat): (q: nat)
    requires den > 0
    ensures q == num / den || q == num / den + 1
  {
    var q := num / den;
    var rem := num % den;
    if 2 * rem > den then q + 1
    else if 2 * rem < den then q
    else if q % 2 == 0 then q
    else q + 1
  }

  /** The rounded quotient is within half a unit of the exact one, and a tie goes
      to the even neighbour. */
  lemma RoundHalfEvenNearest(num: nat, den: nat)
    requires den > 0
    ensures Nearest(RoundHalfEven(num, den), num, den)
    ensures 2 * (RoundHalfEven(num, den) * den - num) == den ==> RoundHalfEven(num, den) % 2 == 0
    ensures 2 * (num - RoundHalfEven(num, den) * den) == den ==> RoundHalfEven(num, den) % 2 == 0
  {
    var q := num / den;
    var rem := num % den;
    assert num == q * den + rem;
    assert (q + 1) * den == q * den + den;
  }

  /** A non-negative amount of hundredths written with exactly two decimals. */
  function FixedTwo(h: nat): (r: string)
    ensures |r| >= 4 && r[|r| - 3] == '.'
    ensures AllDigits(r[..|r| - 3]) && DigitsValue(r[..|r| - 3]) == h / 100
    ensures IsDigit(r[|r| - 2]) && IsDigit(r[|r| - 1])
    ensures 10 * (r[|r| - 2] as int - '0' as int) + (r[|r| - 1] as int - '0' as int) == h % 100
  {
    var w := NatToString(h / 100);
    var r := w + "." + [DigitChar(h % 100 / 10), DigitChar(h % 10)];
    assert r[..|r| - 3] == w;
    r
  }

  /** The rendering of a size once it is known. */
  function Render(n: int): (r: string)
    ensures n < 1024 ==> r == IntToString(n) + " bytes"
    ensures n >= 1024 ==> exists h: nat ::
      r == FixedTwo(h) + " " + UnitName(UnitOf(n)) && Nearest(h, 100 * n, Pow1024(UnitOf(n)))
  {
    var k := UnitOf(n);
    if k == 0 then IntToString(n) + " bytes"
    else
      var h := RoundHalfEven(100 * n, Pow1024(k));
      RoundHalfEvenNearest(100 * n, Pow1024(k));
      FixedTwo(h) + " " + UnitName(k)
  }

  /** `q` units of `den` are within half a unit of `num`. */
  predicate Nearest(q: nat, num: int, den: nat)
  {
    2 * (q * den - num) <= den && 2 * (num - q * den) <= den
  }

  /** `format_file_size(arg)` against a file system given as path-to-size map. */
  function FormatFileSize(arg: SizeArg, files: map<string, nat>): (r: Result<string>)
    ensures r.Err? <==> arg.PathArg? && arg.path !in files
    ensures r.Err? ==> r.error == FileNotFoundError
    ensures arg.PathArg? && arg.path in files ==> r == Ok(Render(files[arg.path]))
    ensures arg.BytesArg? ==> r == Ok(Render(arg.bytes))
  {
    match arg
    case PathArg(p) => if p in files then Ok(Render(files[p])) else Err(FileNotFoundError)
    case BytesArg(n) => Ok(Render(n))
  }

  /** The example of the docstring: 1024 bytes is "1.00 KB". */
  lemma OneKilobyte(files: map<string, nat>)
    ensures FormatFileSize(BytesArg(1024), files) == Ok("1.00 KB")
  {
    UnitBoundary(1);
    assert Pow1024(1) == 1024;
    assert "1.00 " + UnitName(1) == "1.00 KB";
  }

  /** Sizes at a unit boundary show exactly 1.00 of that unit. */
  lemma UnitBoundary(k: nat)
    requires 1 <= k <= 3
    ensures Render(Pow1024(k)) == "1.00 " + UnitName(k)
  {
    var d := Pow1024(k);
    UnitOfPower(k);
    ExactQuotient(d);
    RenderUnit(d, k, 100);
    OneHundredHundredths();
  }

  lemma UnitOfPower(k: nat)
    requires 1 <= k <= 3
    ensures UnitOf(Pow1024(k)) == k
  {
    assert Pow1024(1) == 1024;
    assert Pow1024(2) == 1024 * 1024;
    assert Pow1024(3) == 1024 * 1024 * 1024;
  }

  lemma ExactQuotient(d: nat)
    requires d > 0
    ensures RoundHalfEven(100 * d, d) == 100
  {
    assert (100 * d) / d == 100 && (100 * d) % d == 0;
  }

  lemma RenderUnit(n: int, k: nat, h: nat)
    requires 1 <= k <= 3 && UnitOf(n) == k && RoundHalfEven(100 * n, Pow1024(k)) == h
    ensures Render(n) == FixedTwo(h) + " " + UnitName(k)
  {
  }

  lemma OneHundredHundredths()
    ensures FixedTwo(100) + " " == "1.00 "
  {
    assert NatToString(1) == "1";
  }
}
