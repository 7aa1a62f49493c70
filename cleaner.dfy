/** `DataCleaner`: the static text helpers that normalise scraped strings before
    they are stored in the '/'-delimited record files. */
module DataCleaner {
  import opened Wrappers
  import opened PyText

  // ---------------------------------------------------------------- clean_text

  /** Steps 1-3 of `clean_text`: line breaks, tabs and '/' become spaces, then
      whitespace runs collapse to single spaces. */
  function CollapsedText(text: string): (r: string)
    ensures Collapsed(r)
    ensures '/' !in r && '\n' !in r && '\t' !in r && '\r' !in r
  {
    var t := ReplaceChar(ReplaceChar(ReplaceChar(ReplaceChar(text, '\n', ' '), '\t', ' '), '\r', ' '), '/', ' ');
    assert '/' !in t;
    var r := CollapseWhitespace(t);
    assert IsSpace('\n') && IsSpace('\t') && IsSpace('\r');
    r
  }

  /** The `remove_chars` fold: each listed character is deleted in turn. */
  function RemoveAll(text: string, chars: string): (r: string)
    ensures forall c :: c in r ==> c in text && c !in chars
    decreases |chars|
  {
    if |chars| == 0 then text else RemoveAll(RemoveChar(text, chars[0]), chars[1..])
  }

  /** What `clean_text(text, remove_chars)` returns; an absent `remove_chars` is "". */
  function Cleaned(text: string, removeChars: string): (r: string)
    ensures forall c :: c in r ==> c !in removeChars
    ensures r == [] || (!IsSpace(r[0]) && !IsSpace(r[|r| - 1]))
  {
    if text == "" then "" else Strip(RemoveAll(CollapsedText(text), removeChars))
  }

  /** `clean_text`; the `remove_chars` loop deletes one character class per turn. */
  method CleanText(text: string, removeChars: string) returns (r: string)
    ensures r == Cleaned(text, removeChars)
    ensures '/' !in r && '\n' !in r && '\t' !in r && '\r' !in r
    ensures removeChars == "" ==> Collapsed(r)
  {
    if text == "" {
      return "";
    }
    var t := CollapsedText(text);
    var k := 0;
    while k < |removeChars|
      invariant 0 <= k <= |removeChars|
      invariant RemoveAll(CollapsedText(text), removeChars) == RemoveAll(t, removeChars[k..])
    {
      assert removeChars[k..][1..] == removeChars[k + 1..];
      t := RemoveChar(t, removeChars[k]);
      k := k + 1;
    }
    assert removeChars[k..] == [];
    r := Strip(t);
    CleanedNoDelimiters(text, removeChars);
    if removeChars == "" {
      CleanedCollapsed(text);
    }
  }

  /** The output never holds the record delimiter '/' nor a line break or tab. */
  lemma CleanedNoDelimiters(text: string, removeChars: string)
    ensures var r := Cleaned(text, removeChars);
      '/' !in r && '\n' !in r && '\t' !in r && '\r' !in r
  {
    if text != "" {
      var c := CollapsedText(text);
      var t := RemoveAll(c, removeChars);
      StripChars(t);
    }
  }

  lemma StripChars(s: string)
    ensures forall c :: c in Strip(s) ==> c in s
  {
    var l := LStrip(s);
    SliceChars(s, l, |s| - |l|);
    var r := RStrip(l);
    assert r == l[0..|r|];
    SliceChars(l, r, 0);
  }

  /** Stripping adds no digit. */
  lemma StripNoDigit(s: string)
    ensures (forall k :: 0 <= k < |s| ==> !IsDigit(s[k])) ==> forall k :: 0 <= k < |Strip(s)| ==> !IsDigit(Strip(s)[k])
  {
    StripChars(s);
    forall k | 0 <= k < |Strip(s)|
      ensures Strip(s)[k] in s
    {
      assert Strip(s)[k] in Strip(s);
    }
  }

  /** Every character of a slice occurs in the whole. */
  lemma SliceChars(s: string, t: string, lo: nat)
    requires lo + |t| <= |s| && t == s[lo..lo + |t|]
    ensures forall c :: c in t ==> c in s
  {
    forall c | c in t ensures c in s {
      var i :| 0 <= i < |t| && t[i] == c;
      assert s[lo + i] == c;
    }
  }

  /** Without `remove_chars` the output has no whitespace at either end, no
      whitespace other than single spaces, and no two spaces in a row. */
  lemma CleanedCollapsed(text: string)
    ensures Collapsed(Cleaned(text, ""))
  {
    if text != "" {
      var c := CollapsedText(text);
      assert RemoveAll(c, "") == c;
      StripNoEdgeSpace(c);
    }
  }

  lemma ReplaceAbsent(s: string, c: char, d: char)
    requires c !in s
    ensures ReplaceChar(s, c, d) == s
  {
  }

  /** Cleaning a cleaned text changes nothing. */
  lemma {:induction false} CleanTextIdempotent(text: string)
    ensures Cleaned(Cleaned(text, ""), "") == Cleaned(text, "")
  {
    var u := Cleaned(text, "");
    CleanedNoDelimiters(text, "");
    CleanedCollapsed(text);
    if u != "" {
      ReplaceAbsent(u, '\n', ' ');
      ReplaceAbsent(u, '\t', ' ');
      ReplaceAbsent(u, '\r', ' ');
      ReplaceAbsent(u, '/', ' ');
      CollapseCollapsed(u);
      assert CollapsedText(u) == u;
      assert RemoveAll(u, "") == u;
      StripNoEdgeSpace(u);
    }
  }

  /** `sanitize_for_txt`: the text a record field may hold. */
  function SanitizeForTxt(text: string): (r: string)
    ensures '/' !in r && '\n' !in r && '\r' !in r
    ensures Collapsed(r)
    ensures Cleaned(r, "") == r
  {
    CleanedNoDelimiters(text, "");
    CleanedCollapsed(text);
    CleanTextIdempotent(text);
    if text == "" then "" else Cleaned(text, "")
  }

  /** `sanitize_for_txt` is `clean_text` without `remove_chars`. */
  lemma SanitizeIsClean(text: string)
    ensures SanitizeForTxt(text) == Cleaned(text, "")
  {
  }

  // ---------------------------------------------------------------- extract_number

  /** The index of the first ASCII digit of `s`, or `|s|`. */
  function FirstDigit(s: string, i: nat): (j: nat)
    requires i <= |s|
    ensures i <= j <= |s|
    ensures forall k :: i <= k < j ==> !IsDigit(s[k])
    ensures j < |s| ==> IsDigit(s[j])
    decreases |s| - i
  {
    if i == |s| || IsDigit(s[i]) then i else FirstDigit(s, i + 1)
  }

  /** The end of the maximal run of digits that starts at `i`. */
  function RunEnd(s: string, i: nat): (j: nat)
    requires i <= |s|
    ensures i <= j <= |s|
    ensures forall k :: i <= k < j ==> IsDigit(s[k])
    ensures j == |s| || !IsDigit(s[j])
    decreases |s| - i
  {
    if i < |s| && IsDigit(s[i]) then RunEnd(s, i + 1) else i
  }

  lemma {:induction false} RunEndOf(p: string, d: string, q: string)
    requires AllDigits(d)
    requires q == [] || !IsDigit(q[0])
    ensures RunEnd(p + d + q, |p|) == |p| + |d|
    decreases |d|
  {
    var s := p + d + q;
    if |d| == 0 {
      assert s == p + q;
    } else {
      assert s == (p + [d[0]]) + d[1..] + q;
      RunEndOf(p + [d[0]], d[1..], q);
    }
  }

  /** `t[i..j]` is a numeral the pattern `\d+\.\d+|\d+` matches whole, with `t[i..e]`
      its integer part: a maximal digit run, then either the end of the match (when
      no '.' and digit follow) or '.' and a maximal digit run as the fraction. */
  predicate IsNumeral(t: string, i: nat, e: nat, j: nat)
  {
    && i < e <= j <= |t| && AllDigits(t[i..e]) && (e == |t| || !IsDigit(t[e]))
    && (if e == j then !(e + 1 < |t| && t[e] == '.' && IsDigit(t[e + 1]))
        else e + 1 < j && t[e] == '.' && AllDigits(t[e + 1..j]) && (j == |t| || !IsDigit(t[j])))
  }

  /** The leftmost numeral: no digit comes before it. */
  predicate LeftmostNumeral(t: string, i: nat, e: nat, j: nat)
  {
    IsNumeral(t, i, e, j) && NoDigit(t[..i])
  }

  /** The fraction digits of a numeral `t[i..j]` whose integer part ends at `e`. */
  function FractionDigits(t: string, e: nat, j: nat): string
    requires e <= j <= |t|
  {
    if e == j then "" else t[e + 1..j]
  }

  /** There is at most one leftmost numeral. */
  lemma LeftmostNumeralUnique(t: string, i: nat, e: nat, j: nat, i': nat, e': nat, j': nat)
    requires LeftmostNumeral(t, i, e, j) && LeftmostNumeral(t, i', e', j')
    ensures i == i' && e == e' && j == j'
  {
    FirstDigitOf(t, i, 0);
    FirstDigitOf(t, i', 0);
    RunEndOfRun(t, i, e);
    RunEndOfRun(t, i', e');
    if e < j {
      RunEndOfRun(t, e + 1, j);
    }
    if e' < j' {
      RunEndOfRun(t, e' + 1, j');
    }
  }

  /** A digit run that cannot be extended ends where `RunEnd` says. */
  lemma {:induction false} RunEndOfRun(t: string, i: nat, e: nat)
    requires i <= e <= |t| && AllDigits(t[i..e]) && (e == |t| || !IsDigit(t[e]))
    ensures RunEnd(t, i) == e
    decreases e - i
  {
    if i < e {
      assert IsDigit(t[i..e][0]);
      assert t[i + 1..e] == t[i..e][1..];
      RunEndOfRun(t, i + 1, e);
    }
  }

  /** A digit with no digit before it is the one `FirstDigit` finds. */
  lemma {:induction false} FirstDigitOf(t: string, i: nat, k: nat)
    requires k <= i < |t| && IsDigit(t[i]) && NoDigit(t[..i])
    ensures FirstDigit(t, k) == i
    decreases i - k
  {
    if k < i {
      assert t[..i][k] == t[k];
      FirstDigitOf(t, i, k + 1);
    }
  }

  /** `re.search(r'(\d+\.\d+|\d+)', t)`: the slice bounds of the leftmost match.
      It starts at the first digit; the fraction alternative wins when the digit
      run is followed by '.' and another digit. */
  function SearchNumber(t: string): (m: Option<(nat, nat)>)
    ensures m.None? <==> forall k :: 0 <= k < |t| ==> !IsDigit(t[k])
    ensures m.Some? ==> (m.value.0 < m.value.1 <= |t| && IsDigit(t[m.value.0])
      && (forall k :: 0 <= k < m.value.0 ==> !IsDigit(t[k])))
    ensures m.Some? ==> exists e: nat :: LeftmostNumeral(t, m.value.0, e, m.value.1)
  {
    var i := FirstDigit(t, 0);
    if i == |t| then None
    else
      var j := RunEnd(t, i);
      assert AllDigits(t[i..j]);
      assert NoDigit(t[..i]);
      if j + 1 < |t| && t[j] == '.' && IsDigit(t[j + 1]) then
        var f := RunEnd(t, j + 1);
        assert AllDigits(t[j + 1..f]);
        assert LeftmostNumeral(t, i, j, f);
        Some((i, f))
      else
        assert LeftmostNumeral(t, i, j, j);
        Some((i, j))
  }

  /** The fraction digits the pattern takes after a digit run ending at `e`: none
      unless '.' and a digit follow. */
  function FractionAfter(t: string, e: nat): (f: string)
    requires e <= |t|
    ensures AllDigits(f)
  {
    if e + 1 < |t| && t[e] == '.' && IsDigit(t[e + 1]) then
      var g := RunEnd(t, e + 1);
      assert AllDigits(t[e + 1..g]);
      t[e + 1..g]
    else ""
  }

  /** `float(m)` for the match that starts at `i`: the digit run, plus the
      fraction when the run is followed by '.' and a digit. */
  function NumeralValue(t: string, i: nat): real
    requires i < |t| && IsDigit(t[i])
  {
    var e := RunEnd(t, i);
    assert AllDigits(t[i..e]);
    DecimalValue(t[i..e], FractionAfter(t, e))
  }

  /** The value read for the leftmost match is the numeral's `float`. */
  lemma NumeralValueOfMatch(t: string, i: nat, j: nat)
    requires SearchNumber(t) == Some((i, j))
    ensures i < |t| && IsDigit(t[i])
    ensures LeftmostNumeral(t, i, RunEnd(t, i), j)
    ensures NumeralValue(t, i) == DecimalValue(t[i..RunEnd(t, i)], FractionDigits(t, RunEnd(t, i), j))
  {
    var e: nat :| LeftmostNumeral(t, i, e, j);
    NumeralParts(t, i, e, j);
  }

  /** A numeral's integer part is the digit run at its start, and its fraction is
      what `FractionAfter` takes. */
  lemma NumeralParts(t: string, i: nat, e: nat, j: nat)
    requires IsNumeral(t, i, e, j)
    ensures RunEnd(t, i) == e && FractionAfter(t, e) == FractionDigits(t, e, j)
  {
    RunEndOfRun(t, i, e);
    if e < j {
      RunEndOfRun(t, e + 1, j);
    }
  }

  /** `extract_number`: commas are deleted, then the first decimal or integer
      numeral is read; `None` exactly when the text holds no digit. */
  function ExtractNumber(text: string): (r: Option<real>)
    ensures r.None? <==> forall k :: 0 <= k < |text| ==> !IsDigit(text[k])
    ensures r.Some? ==> r.value >= 0.0
    ensures r.Some? ==> exists i: nat, e: nat, j: nat ::
      (&& LeftmostNumeral(RemoveChar(text, ','), i, e, j)
       && r.value == DecimalValue(RemoveChar(text, ',')[i..e], FractionDigits(RemoveChar(text, ','), e, j)))
  {
    if text == "" then None
    else
      var t := RemoveChar(text, ',');
      CommaFreeDigits(text);
      match SearchNumber(t)
      case None => None
      case Some((i, j)) =>
        NumeralValueOfMatch(t, i, j);
        Some(NumeralValue(t, i))
  }

  /** No ASCII digit anywhere in `s`. */
  predicate NoDigit(s: string)
  {
    forall k :: 0 <= k < |s| ==> !IsDigit(s[k])
  }

  /** Deleting the commas keeps every digit and adds none. */
  lemma CommaFreeDigits(text: string)
    ensures NoDigit(text) <==> NoDigit(RemoveChar(text, ','))
  {
    var t := RemoveChar(text, ',');
    if NoDigit(t) {
      forall k | 0 <= k < |text| ensures !IsDigit(text[k]) {
        if text[k] != ',' {
          assert text[k] in t;
          var q :| 0 <= q < |t| && t[q] == text[k];
        }
      }
    }
    if NoDigit(text) {
      forall q | 0 <= q < |t| ensures !IsDigit(t[q]) {
        assert t[q] in text;
        var k :| 0 <= k < |text| && text[k] == t[q];
      }
    }
  }

  /** A natural number written in decimal and followed by a non-numeric suffix
      is read back exactly. */
  lemma ExtractNumberOfNatural(p: string, n: nat, q: string)
    requires forall k :: 0 <= k < |p| ==> !IsDigit(p[k]) && p[k] != ','
    requires ',' !in q && (q == [] || (!IsDigit(q[0]) && q[0] != '.'))
    ensures ExtractNumber(p + NatToString(n) + q) == Some(n as real)
  {
    var d := NatToString(n);
    var t := p + d + q;
    NoCommaIn(p, d, q);
    assert RemoveChar(t, ',') == t;
    FirstDigitAfter(p, d + q);
    assert t == p + (d + q);
    NumeralOfNatural(p, n, q);
    assert SearchNumber(t).Some? && SearchNumber(t).value.0 == |p|;
    assert t != "";
  }

  lemma NoCommaIn(p: string, d: string, q: string)
    requires forall k :: 0 <= k < |p| ==> p[k] != ','
    requires AllDigits(d) && ',' !in q
    ensures ',' !in p + d + q
  {
    assert ',' !in d by {
      forall k | 0 <= k < |d| ensures d[k] != ',' { assert IsDigit(d[k]); }
    }
    assert ',' !in p;
  }

  /** The numeral starting right after `p` is the decimal writing of `n`. */
  lemma NumeralOfNatural(p: string, n: nat, q: string)
    requires q == [] || (!IsDigit(q[0]) && q[0] != '.')
    ensures var t := p + NatToString(n) + q;
      |p| < |t| && IsDigit(t[|p|]) && NumeralValue(t, |p|) == n as real
  {
    var d := NatToString(n);
    var t := p + d + q;
    assert t[|p|] == d[0];
    RunEndOf(p, d, q);
    assert t[|p|..|p| + |d|] == d;
    var e := |p| + |d|;
    assert e == |t| || (t[e] == q[0] && t[e] != '.');
    assert DigitsValue("") == 0;
  }

  lemma FirstDigitAfter(p: string, s: string)
    requires forall k :: 0 <= k < |p| ==> !IsDigit(p[k])
    requires |s| > 0 && IsDigit(s[0])
    ensures FirstDigit(p + s, 0) == |p|
  {
    assert forall k :: 0 <= k < |p| ==> (p + s)[k] == p[k];
    assert (p + s)[|p|] == s[0];
  }

  // ---------------------------------------------------------------- time_to_minutes

  /** `re.search(r'(\d+)' + unit, s)` read as an integer, scanning digit runs from
      `i` on: the first run directly followed by `unit` is the match. */
  function UnitNumberFrom(s: string, i: nat, unit: string): (r: Option<nat>)
    requires i <= |s|
    ensures r.Some? ==> Contains(s[i..], unit)
    decreases |s| - i
  {
    if i == |s| then None
    else if IsDigit(s[i]) then
      var j := RunEnd(s, i);
      if IsPrefix(unit, s[j..]) then
        ContainsSuffix(s[i..], j - i, unit);
        assert s[i..][j - i..] == s[j..];
        Some(DigitsValue(s[i..j]))
      else
        var r := UnitNumberFrom(s, j, unit);
        if r.Some? then ContainsSuffix(s[i..], j - i, unit); assert s[i..][j - i..] == s[j..]; r else r
    else
      var r := UnitNumberFrom(s, i + 1, unit);
      if r.Some? then ContainsSuffix(s[i..], 1, unit); assert s[i..][1..] == s[i + 1..]; r else r
  }

  lemma {:induction false} ContainsSuffix(s: string, k: nat, needle: string)
    requires k <= |s|
    requires Contains(s[k..], needle)
    ensures Contains(s, needle)
    decreases k
  {
    if k > 0 {
      assert s[1..][k - 1..] == s[k..];
      ContainsSuffix(s[1..], k - 1, needle);
    } else {
      assert s[k..] == s;
    }
  }

  const Hours: string := "시간"
  const Minutes: string := "분"

  /** `re.search(r'(\d+)' + unit, s)` can match at `p`: the digits `s[p..e]`, then
      `unit`. */
  predicate UnitMatch(s: string, p: nat, e: nat, unit: string)
  {
    p < e <= |s| && (forall k :: p <= k < e ==> IsDigit(s[k])) && IsPrefix(unit, s[e..])
  }

  /** The match `re.search` reports when scanning from `i`: the leftmost one. */
  ghost predicate FirstUnitMatch(s: string, i: nat, unit: string, p: nat, e: nat)
  {
    i <= p && UnitMatch(s, p, e, unit) && forall p': nat, e': nat :: i <= p' < p ==> !UnitMatch(s, p', e', unit)
  }

  /** Within a digit run `s[i..j]` that stops at a non-digit, a match must end at `j`. */
  lemma UnitMatchInRun(s: string, i: nat, j: nat, unit: string, p: nat, e: nat)
    requires unit == Hours || unit == Minutes
    requires i <= p < j <= |s| && (forall k :: i <= k < j ==> IsDigit(s[k])) && (j == |s| || !IsDigit(s[j]))
    requires UnitMatch(s, p, e, unit)
    ensures e == j && IsPrefix(unit, s[j..])
  {
    assert !IsDigit(unit[0]);
    assert s[e] == unit[0];
  }

  /** A leftmost match from `j` is the leftmost from `i` when nothing matches between. */
  lemma LeftmostShift(s: string, i: nat, j: nat, unit: string, p: nat, e: nat)
    requires i <= j && forall p': nat, e': nat :: i <= p' < j ==> !UnitMatch(s, p', e', unit)
    requires FirstUnitMatch(s, j, unit, p, e)
    ensures FirstUnitMatch(s, i, unit, p, e)
  {
  }

  /** `UnitNumberFrom` is the value of the leftmost match from `i` on, and `None`
      exactly when there is none. */
  lemma {:induction false} UnitNumberLeftmost(s: string, i: nat, unit: string)
    requires i <= |s| && (unit == Hours || unit == Minutes)
    ensures UnitNumberFrom(s, i, unit).None? ==> forall p: nat, e: nat :: i <= p ==> !UnitMatch(s, p, e, unit)
    ensures UnitNumberFrom(s, i, unit).Some? ==> exists p: nat, e: nat :: (FirstUnitMatch(s, i, unit, p, e) &&
      AllDigits(s[p..e]) && UnitNumberFrom(s, i, unit).value == DigitsValue(s[p..e]))
    decreases |s| - i
  {
    if i == |s| {
    } else if IsDigit(s[i]) {
      var j := RunEnd(s, i);
      forall p, e | i <= p < j && UnitMatch(s, p, e, unit)
        ensures IsPrefix(unit, s[j..])
      {
        UnitMatchInRun(s, i, j, unit, p, e);
      }
      if IsPrefix(unit, s[j..]) {
        assert FirstUnitMatch(s, i, unit, i, j);
        assert AllDigits(s[i..j]);
      } else {
        UnitNumberLeftmost(s, j, unit);
        assert UnitNumberFrom(s, i, unit) == UnitNumberFrom(s, j, unit);
        if UnitNumberFrom(s, j, unit).Some? {
          var p: nat, e: nat :| FirstUnitMatch(s, j, unit, p, e) && AllDigits(s[p..e]) &&
            UnitNumberFrom(s, j, unit).value == DigitsValue(s[p..e]);
          LeftmostShift(s, i, j, unit, p, e);
        }
      }
    } else {
      UnitNumberLeftmost(s, i + 1, unit);
      assert UnitNumberFrom(s, i, unit) == UnitNumberFrom(s, i + 1, unit);
      assert forall e :: !UnitMatch(s, i, e, unit);
      if UnitNumberFrom(s, i + 1, unit).Some? {
        var p: nat, e: nat :| FirstUnitMatch(s, i + 1, unit, p, e) && AllDigits(s[p..e]) &&
          UnitNumberFrom(s, i + 1, unit).value == DigitsValue(s[p..e]);
        LeftmostShift(s, i, i + 1, unit, p, e);
      }
    }
  }

  /** `time_to_minutes`: `None` only for the empty string; otherwise
      60 * hours + minutes with a missing unit counted as 0. */
  function TimeToMinutes(s: string): (r: Option<nat>)
    ensures r.None? <==> s == ""
    ensures !Contains(s, Hours) && !Contains(s, Minutes) ==> r == None || r == Some(0)
  {
    if s == "" then None
    else
      var h := UnitNumberFrom(s, 0, Hours);
      var m := UnitNumberFrom(s, 0, Minutes);
      assert s[0..] == s;
      Some(h.GetOr(0) * 60 + m.GetOr(0))
  }

  /** `int(m.group(1)) if m else 0` for `m = re.search(r'(\d+)' + unit, s)`: the
      digits of the leftmost match, or 0 when nothing matches. */
  ghost predicate UnitValue(s: string, unit: string, v: nat)
  {
    || (v == 0 && forall p: nat, e: nat :: !UnitMatch(s, p, e, unit))
    || exists p: nat, e: nat :: FirstUnitMatch(s, 0, unit, p, e) && AllDigits(s[p..e]) && v == DigitsValue(s[p..e])
  }

  /** The unit number of `s` is the `UnitValue` of `s`, and no other value is. */
  lemma UnitNumberValue(s: string, unit: string)
    requires unit == Hours || unit == Minutes
    ensures UnitValue(s, unit, UnitNumberFrom(s, 0, unit).GetOr(0))
    ensures forall v :: UnitValue(s, unit, v) ==> v == UnitNumberFrom(s, 0, unit).GetOr(0)
  {
    UnitNumberLeftmost(s, 0, unit);
    forall v | UnitValue(s, unit, v)
      ensures v == UnitNumberFrom(s, 0, unit).GetOr(0)
    {
      if UnitNumberFrom(s, 0, unit).Some? {
        var p: nat, e: nat :| FirstUnitMatch(s, 0, unit, p, e) && AllDigits(s[p..e]) &&
          UnitNumberFrom(s, 0, unit).value == DigitsValue(s[p..e]);
        assert UnitMatch(s, p, e, unit);
        var p': nat, e': nat :| FirstUnitMatch(s, 0, unit, p', e') && AllDigits(s[p'..e']) && v == DigitsValue(s[p'..e']);
        assert p' == p;
        UnitMatchInRun(s, p, RunEnd(s, p), unit, p, e);
        UnitMatchInRun(s, p, RunEnd(s, p), unit, p, e');
      }
    }
  }

  /** `time_to_minutes` of a non-empty string is 60 times the hours plus the minutes,
      each read from the leftmost `(\d+)시간` and `(\d+)분` match, a missing one as 0. */
  lemma TimeToMinutesSpec(s: string)
    requires s != ""
    ensures exists h: nat, m: nat :: UnitValue(s, Hours, h) && UnitValue(s, Minutes, m)
    ensures forall h: nat, m: nat :: UnitValue(s, Hours, h) && UnitValue(s, Minutes, m) ==>
      TimeToMinutes(s) == Some(60 * h + m)
  {
    UnitNumberValue(s, Hours);
    UnitNumberValue(s, Minutes);
  }

  /** A duration given in minutes only, "<m>분", is `m` minutes. */
  lemma TimeToMinutesOfMinutes(m: nat)
    ensures TimeToMinutes(NatToString(m) + "분") == Some(m)
  {
    MinutesOnlyUnits(NatToString(m));
    TimeOfUnitNumbers(NatToString(m) + "분");
  }

  /** `time_to_minutes` of a non-empty string from its two unit numbers. */
  lemma TimeOfUnitNumbers(s: string)
    requires s != ""
    ensures TimeToMinutes(s) == Some(60 * UnitNumberFrom(s, 0, Hours).GetOr(0) + UnitNumberFrom(s, 0, Minutes).GetOr(0))
  {
    assert s[0..] == s;
  }

  lemma MinutesOnlyUnits(M: string)
    requires |M| > 0 && AllDigits(M)
    ensures UnitNumberFrom(M + "분", 0, Hours) == None
    ensures UnitNumberFrom(M + "분", 0, Minutes) == Some(DigitsValue(M))
  {
    var s := M + "분";
    assert s == [] + M + "분";
    UnitNumberAt([], M, "분", Minutes);
    RunEndOf([], M, "분");
    assert s[|M|..] == "분";
    assert !IsPrefix(Hours, s[|M|..]);
    UnitNumberPast(s, 0, |M|, Hours);
    assert |s| == |M| + 1 && !IsDigit(s[|M|]);
    assert UnitNumberFrom(s, |M|, Hours) == UnitNumberFrom(s, |M| + 1, Hours);
  }

  /** A duration given in hours only, "<h>시간", is `60 * h` minutes. */
  lemma TimeToMinutesOfHours(h: nat)
    ensures TimeToMinutes(NatToString(h) + "시간") == Some(60 * h)
  {
    HoursOnlyUnits(NatToString(h));
    TimeOfUnitNumbers(NatToString(h) + "시간");
  }

  lemma HoursOnlyUnits(H: string)
    requires |H| > 0 && AllDigits(H)
    ensures UnitNumberFrom(H + "시간", 0, Hours) == Some(DigitsValue(H))
    ensures UnitNumberFrom(H + "시간", 0, Minutes) == None
  {
    var s := H + "시간";
    assert s == [] + H + "시간";
    UnitNumberAt([], H, "시간", Hours);
    RunEndOf([], H, "시간");
    assert s[|H|..] == "시간";
    NoMinutesAfterHours(s, |H|);
  }

  /** A leading digit run followed by "시간" and nothing else holds no minute number. */
  lemma NoMinutesAfterHours(s: string, a: nat)
    requires 0 < a && a + 2 == |s| && IsDigit(s[0]) && RunEnd(s, 0) == a && s[a..] == "시간"
    ensures UnitNumberFrom(s, 0, Minutes) == None
  {
    assert !IsPrefix(Minutes, s[a..]);
    UnitNumberPast(s, 0, a, Minutes);
    assert s[a] == '시' && s[a + 1] == '간';
    assert UnitNumberFrom(s, a, Minutes) == UnitNumberFrom(s, a + 1, Minutes);
    assert UnitNumberFrom(s, a + 1, Minutes) == UnitNumberFrom(s, a + 2, Minutes);
  }

  lemma {:induction false} UnitNumberSkip(s: string, i: nat, k: nat, unit: string)
    requires i <= k <= |s|
    requires forall x :: i <= x < k ==> !IsDigit(s[x])
    ensures UnitNumberFrom(s, i, unit) == UnitNumberFrom(s, k, unit)
    decreases k - i
  {
    if i < k {
      UnitNumberSkip(s, i + 1, k, unit);
    }
  }

  /** The first digit run `d` of `p + d + q`, directly followed by `unit`. */
  lemma UnitNumberAt(p: string, d: string, q: string, unit: string)
    requires |d| > 0 && AllDigits(d) && IsPrefix(unit, q) && |unit| > 0 && !IsDigit(unit[0])
    ensures UnitNumberFrom(p + d + q, |p|, unit) == Some(DigitsValue(d))
  {
    var s := p + d + q;
    RunEndOf(p, d, q);
    assert s[|p| + |d|..] == q;
    assert s[|p|..|p| + |d|] == d;
    assert IsDigit(s[|p|]);
  }

  lemma HoursOfDuration(H: string, M: string)
    requires |H| > 0 && AllDigits(H)
    ensures UnitNumberFrom(H + "시간 " + M + "분", 0, Hours) == Some(DigitsValue(H))
  {
    var tail := "시간 " + M + "분";
    assert H + "시간 " + M + "분" == [] + H + tail;
    UnitNumberAt([], H, tail, Hours);
  }

  lemma MinutesOfDuration(H: string, M: string)
    requires |H| > 0 && AllDigits(H) && |M| > 0 && AllDigits(M)
    ensures UnitNumberFrom(H + "시간 " + M + "분", 0, Minutes) == Some(DigitsValue(M))
  {
    var s := H + "시간 " + M + "분";
    MinutesAfterHours(H, M);
    var front := H + "시간 ";
    assert s == front + M + "분";
    assert |front| == |H| + 3;
    UnitNumberAt(front, M, "분", Minutes);
  }

  lemma MinutesAfterHours(H: string, M: string)
    requires |H| > 0 && AllDigits(H)
    ensures var s := H + "시간 " + M + "분";
      UnitNumberFrom(s, 0, Minutes) == UnitNumberFrom(s, |H| + 3, Minutes)
  {
    var s := H + "시간 " + M + "분";
    HoursShape(H, M);
    SkipHourField(s, |H|);
  }

  /** In "<H>시간 <M>분" the hour digits run up to "시간 ", which is not a minute unit
      and holds no digit. */
  lemma HoursShape(H: string, M: string)
    requires |H| > 0 && AllDigits(H)
    ensures var s := H + "시간 " + M + "분";
      |H| + 3 <= |s| && IsDigit(s[0]) && RunEnd(s, 0) == |H| && !IsPrefix(Minutes, s[|H|..]) &&
      forall x :: |H| <= x < |H| + 3 ==> !IsDigit(s[x])
  {
    var tail := "시간 " + M + "분";
    var s := H + tail;
    assert s == H + "시간 " + M + "분";
    var a := |H|;
    assert [] + H + tail == s;
    assert !IsPrefix(Minutes, tail) && !IsDigit(tail[0]) by { assert tail[0] == '시'; }
    RunEndOf([], H, tail);
    assert s[a..] == tail;
    assert forall x :: a <= x < a + 3 ==> !IsDigit(s[x]) by {
      assert s[a] == '시' && s[a + 1] == '간' && s[a + 2] == ' ';
    }
  }

  /** A leading digit run up to `a`, followed by three non-digits that do not start a
      minute unit, is passed over when looking for minutes. */
  lemma SkipHourField(s: string, a: nat)
    requires a + 3 <= |s| && IsDigit(s[0]) && RunEnd(s, 0) == a && !IsPrefix(Minutes, s[a..])
    requires forall x :: a <= x < a + 3 ==> !IsDigit(s[x])
    ensures UnitNumberFrom(s, 0, Minutes) == UnitNumberFrom(s, a + 3, Minutes)
  {
    UnitNumberPast(s, 0, a, Minutes);
    UnitNumberSkip(s, a, a + 3, Minutes);
  }

  /** A digit run from `i` to `j` not directly followed by `unit` is passed over. */
  lemma UnitNumberPast(s: string, i: nat, j: nat, unit: string)
    requires i < j <= |s| && IsDigit(s[i]) && RunEnd(s, i) == j && !IsPrefix(unit, s[j..])
    ensures UnitNumberFrom(s, i, unit) == UnitNumberFrom(s, j, unit)
  {
  }

  /** Writing "<h>시간 <m>분" and reading it back gives 60 * h + m minutes. */
  lemma TimeToMinutesRoundTrip(h: nat, m: nat)
    ensures TimeToMinutes(NatToString(h) + "시간 " + NatToString(m) + "분") == Some(60 * h + m)
  {
    DurationValue(NatToString(h), NatToString(m), h, m);
  }

  /** "<H>시간 <M>분" for digit strings `H` and `M` reads as 60 * H + M minutes. */
  lemma DurationValue(H: string, M: string, h: nat, m: nat)
    requires |H| > 0 && AllDigits(H) && |M| > 0 && AllDigits(M) && DigitsValue(H) == h && DigitsValue(M) == m
    ensures TimeToMinutes(H + "시간 " + M + "분") == Some(60 * h + m)
  {
    var s := H + "시간 " + M + "분";
    assert |s| == |H| + |M| + 4;
    DurationUnits(s, H, M);
    TimeOfUnits(s, h, m);
  }

  lemma DurationUnits(s: string, H: string, M: string)
    requires |H| > 0 && AllDigits(H) && |M| > 0 && AllDigits(M)
    requires s == H + "시간 " + M + "분"
    ensures UnitNumberFrom(s, 0, Hours) == Some(DigitsValue(H)) && UnitNumberFrom(s, 0, Minutes) == Some(DigitsValue(M))
  {
    HoursOfDuration(H, M);
    MinutesOfDuration(H, M);
  }

  /** A text whose hour number is `h` and minute number is `m` reads as 60 * h + m minutes. */
  lemma TimeOfUnits(s: string, h: nat, m: nat)
    requires |s| > 0 && UnitNumberFrom(s, 0, Hours) == Some(h) && UnitNumberFrom(s, 0, Minutes) == Some(m)
    ensures TimeToMinutes(s) == Some(60 * h + m)
  {
  }

  // ---------------------------------------------------------------- extract_movie_age

  const AllAges: string := "전체"
  const AdultsOnly: string := "청불"

  /** `int(x)` for a non-negative float. */
  function Truncate(x: real): nat
    requires x >= 0.0
  {
    x.Floor
  }

  /** `extract_movie_age`: "전체" reads as "12", "청불" as "19", anything else as
      the whole part of its first number; no number or a zero gives `None`. */
  function ExtractMovieAge(text: string): (r: Option<string>)
    ensures r.Some? ==> |r.value| > 0 && AllDigits(r.value)
    ensures Strip(text) == AllAges ==> r == Some("12")
    ensures Strip(text) == AdultsOnly ==> r == Some("19")
    ensures (forall k :: 0 <= k < |text| ==> !IsDigit(text[k])) && Strip(text) != AllAges && Strip(text) != AdultsOnly ==> r.None?
    ensures text == "" ==> r.None?
    ensures text != "" && Strip(text) != AllAges && Strip(text) != AdultsOnly ==>
      (r.Some? <==> ExtractNumber(Strip(text)).Some? && ExtractNumber(Strip(text)).value != 0.0)
    ensures text != "" && Strip(text) != AllAges && Strip(text) != AdultsOnly && r.Some? ==>
      r.value == NatToString(Truncate(ExtractNumber(Strip(text)).value))
  {
    if text == "" then None
    else
      var t := Strip(text);
      if t == AllAges then Some("12")
      else if t == AdultsOnly then Some("19")
      else
        StripNoDigit(text);
        match ExtractNumber(t)
        case Some(age) =>
          if age != 0.0 then Some(NatToString(Truncate(age))) else None
        case None => None
  }

  /** An age written as digits with a suffix such as "세" reads back as those digits. */
  lemma ExtractMovieAgeOfNumber(n: nat)
    requires n > 0
    ensures ExtractMovieAge(NatToString(n) + "세") == Some(NatToString(n))
  {
    var s := NatToString(n) + "세";
    AgeText(n);
    assert Truncate(n as real) == n;
  }

  /** The text "<n>세" is its own strip, neither special word, and reads as `n`. */
  lemma AgeText(n: nat)
    ensures var s := NatToString(n) + "세";
      s != "" && Strip(s) == s && s != AllAges && s != AdultsOnly && ExtractNumber(s) == Some(n as real)
  {
    AgeTextShape(n);
    AgeTextNumber(n);
  }

  lemma AgeTextShape(n: nat)
    ensures var s := NatToString(n) + "세";
      s != "" && Strip(s) == s && s != AllAges && s != AdultsOnly
  {
    var s := NatToString(n) + "세";
    assert IsDigit(s[0]);
    assert !IsSpace(s[0]) && !IsSpace(s[|s| - 1]);
    StripNoEdgeSpace(s);
    assert s[0] != AllAges[0] && s[0] != AdultsOnly[0];
  }

  lemma {:induction false} AgeTextNumber(n: nat)
    ensures ExtractNumber(NatToString(n) + "세") == Some(n as real)
  {
    var q := "세";
    assert |q| == 1 && !IsDigit(q[0]) && q[0] != '.' && ',' !in q;
    ExtractNumberOfNatural([], n, q);
    assert [] + NatToString(n) + q == NatToString(n) + q;
  }

  // ---------------------------------------------------------------- remove_emojis

  /** The character class of the emoji pattern. */
  predicate InEmojiClass(c: char)
  {
    || ('\U{1F600}' <= c <= '\U{1F64F}')
    || ('\U{1F300}' <= c <= '\U{1F5FF}')
    || ('\U{1F680}' <= c <= '\U{1F6FF}')
    || ('\U{1F1E0}' <= c <= '\U{1F1FF}')
    || ('\U{2702}' <= c <= '\U{27B0}')
    || ('\U{24C2}' <= c <= '\U{1F251}')
  }

  /** Deletes every character that `keep` rejects, keeping the rest in order. */
  function FilterChars(text: string, drop: char -> bool): (r: string)
    ensures |r| <= |text|
    ensures forall c :: c in r <==> c in text && !drop(c)
  {
    if |text| == 0 then ""
    else (if drop(text[0]) then "" else [text[0]]) + FilterChars(text[1..], drop)
  }

  /** Filtering a concatenation filters each part, so the kept characters stay in
      their order. */
  lemma {:induction false} FilterCharsConcat(a: string, b: string, drop: char -> bool)
    ensures FilterChars(a + b, drop) == FilterChars(a, drop) + FilterChars(b, drop)
    decreases |a|
  {
    if |a| > 0 {
      var head := if drop(a[0]) then "" else [a[0]];
      FilterCharsConcat(a[1..], b, drop);
      ConcatTail(a, b);
      assert FilterChars(a + b, drop) == head + FilterChars(a[1..] + b, drop);
      assert FilterChars(a, drop) == head + FilterChars(a[1..], drop);
    } else {
      assert a + b == b;
    }
  }

  lemma ConcatTail<T>(a: seq<T>, b: seq<T>)
    requires |a| > 0
    ensures (a + b)[0] == a[0] && (a + b)[1..] == a[1..] + b
  {
  }

  /** A single character is dropped exactly when `drop` holds of it. */
  lemma FilterCharsSingle(drop: char -> bool)
    ensures forall c :: FilterChars([c], drop) == if drop(c) then "" else [c]
  {
    forall c
      ensures FilterChars([c], drop) == if drop(c) then "" else [c]
    {
      assert [c][1..] == "";
    }
  }

  /** A kept character occurs as often as in the input, a dropped one not at all. */
  lemma {:induction false} FilterCharsCount(text: string, drop: char -> bool)
    ensures forall c :: multiset(FilterChars(text, drop))[c] == if drop(c) then 0 else multiset(text)[c]
    decreases |text|
  {
    if |text| > 0 {
      FilterCharsCount(text[1..], drop);
      assert text == [text[0]] + text[1..];
    }
  }

  /** `remove_emojis` as written: every run of class characters is replaced by "". */
  function RemoveEmojis(text: string): (r: string)
    ensures forall c :: c in r <==> c in text && !InEmojiClass(c)
    ensures forall c :: multiset(r)[c] == if InEmojiClass(c) then 0 else multiset(text)[c]
  {
    FilterCharsCount(text, InEmojiClass);
    if text == "" then "" else FilterChars(text, InEmojiClass)
  }

  /** `remove_emojis` works character by character: a single character is dropped
      exactly when it is in the class, and a concatenation is cleaned part by part. */
  lemma RemoveEmojisConcat(a: string, b: string)
    ensures RemoveEmojis(a + b) == RemoveEmojis(a) + RemoveEmojis(b)
    ensures forall c :: RemoveEmojis([c]) == if InEmojiClass(c) then "" else [c]
  {
    FilterCharsConcat(a, b, InEmojiClass);
    FilterCharsSingle(InEmojiClass);
    assert RemoveEmojis(a) == FilterChars(a, InEmojiClass);
    assert RemoveEmojis(b) == FilterChars(b, InEmojiClass);
    assert RemoveEmojis(a + b) == FilterChars(a + b, InEmojiClass);
  }

  /** Text without class characters is returned unchanged. */
  lemma {:induction false} FilterKeepsClean(text: string, drop: char -> bool)
    requires forall k :: 0 <= k < |text| ==> !drop(text[k])
    ensures FilterChars(text, drop) == text
    decreases |text|
  {
    if |text| > 0 {
      FilterKeepsClean(text[1..], drop);
      assert [text[0]] + text[1..] == text;
    }
  }

  /** Hangul syllables lie inside U+24C2..U+1F251, so the pattern deletes Korean text. */
  lemma RemoveEmojisDeletesHangul()
    ensures RemoveEmojis("영화") == ""
  {
  }

  /** Korean letters: the Hangul Jamo blocks, the compatibility Jamo and the syllables. */
  predicate IsHangul(c: char)
  {
    || ('\U{1100}' <= c <= '\U{11FF}') || ('\U{3130}' <= c <= '\U{318F}')
    || ('\U{A960}' <= c <= '\U{A97F}') || ('\U{AC00}' <= c <= '\U{D7A3}')
    || ('\U{D7B0}' <= c <= '\U{D7FF}')
  }

  /** East Asian text that the range U+24C2..U+1F251 swallows: Hangul, the CJK radicals,
      punctuation, kana and ideographs (U+2E80..U+9FFF), the compatibility ideographs
      and the halfwidth and fullwidth forms. */
  predicate IsEastAsianText(c: char)
  {
    || IsHangul(c) || ('\U{2E80}' <= c <= '\U{9FFF}')
    || ('\U{F900}' <= c <= '\U{FAFF}') || ('\U{FF00}' <= c <= '\U{FFEF}')
  }

  /** The class the pattern was meant to describe: the five pictograph ranges it lists,
      and of the broad range U+24C2..U+1F251 only its symbol blocks: the circled M at
      U+24C2, Miscellaneous Symbols and Dingbats (U+2600..U+27BF), Miscellaneous Symbols
      and Arrows (U+2B00..U+2BFF), and the game pieces and enclosed alphanumeric and
      ideographic supplements (U+1F000..U+1F251). */
  predicate IsEmoji(c: char)
  {
    || ('\U{1F600}' <= c <= '\U{1F64F}')
    || ('\U{1F300}' <= c <= '\U{1F5FF}')
    || ('\U{1F680}' <= c <= '\U{1F6FF}')
    || ('\U{1F1E0}' <= c <= '\U{1F1FF}')
    || ('\U{2702}' <= c <= '\U{27B0}')
    || c == '\U{24C2}'
    || ('\U{2600}' <= c <= '\U{27BF}')
    || ('\U{2B00}' <= c <= '\U{2BFF}')
    || ('\U{1F000}' <= c <= '\U{1F251}')
  }

  /** The corrected class only narrows the written one, and spares all East Asian text. */
  lemma EmojiNarrowsClass(c: char)
    ensures IsEmoji(c) ==> InEmojiClass(c)
    ensures IsEastAsianText(c) ==> !IsEmoji(c) && InEmojiClass(c) == !('\U{1100}' <= c <= '\U{11FF}')
  {
  }

  /** `remove_emojis` deleting only emoji and pictographs: the listed pictograph ranges
      go, and every character the corrected class leaves out is kept. */
  function RemoveOnlyEmojis(text: string): (r: string)
    ensures forall c :: c in r <==> c in text && !IsEmoji(c)
    ensures forall c :: multiset(r)[c] == if IsEmoji(c) then 0 else multiset(text)[c]
    ensures forall c :: c in r ==> !('\U{1F300}' <= c <= '\U{1F64F}')
  {
    FilterCharsCount(text, IsEmoji);
    if text == "" then "" else FilterChars(text, IsEmoji)
  }

  /** The corrected filter also works character by character. */
  lemma RemoveOnlyEmojisConcat(a: string, b: string)
    ensures RemoveOnlyEmojis(a + b) == RemoveOnlyEmojis(a) + RemoveOnlyEmojis(b)
    ensures forall c :: RemoveOnlyEmojis([c]) == if IsEmoji(c) then "" else [c]
  {
    FilterCharsConcat(a, b, IsEmoji);
    FilterCharsSingle(IsEmoji);
    assert RemoveOnlyEmojis(a) == FilterChars(a, IsEmoji);
    assert RemoveOnlyEmojis(b) == FilterChars(b, IsEmoji);
    assert RemoveOnlyEmojis(a + b) == FilterChars(a + b, IsEmoji);
  }

  /** Text made of East Asian characters and characters outside the written class, such
      as Korean, Japanese or Chinese titles, passes the corrected filter unchanged. */
  lemma RemoveOnlyEmojisKeepsText(text: string)
    requires forall k :: 0 <= k < |text| ==> IsEastAsianText(text[k]) || !InEmojiClass(text[k])
    ensures RemoveOnlyEmojis(text) == text
  {
    if text != "" {
      forall k | 0 <= k < |text|
        ensures !IsEmoji(text[k])
      {
        EmojiNarrowsClass(text[k]);
      }
      FilterKeepsClean(text, IsEmoji);
    }
  }

  /** Nothing the written pattern keeps is deleted by the corrected one, and the two
      agree on every character outside the broad range U+24C2..U+1F251. */
  lemma RemoveOnlyEmojisWithinWritten(text: string)
    ensures |RemoveEmojis(text)| <= |RemoveOnlyEmojis(text)|
    ensures (forall k :: 0 <= k < |text| ==> !('\U{24C2}' <= text[k] <= '\U{1F251}')) ==>
      RemoveOnlyEmojis(text) == RemoveEmojis(text)
  {
    FilterNarrower(text, IsEmoji, InEmojiClass);
    if forall k :: 0 <= k < |text| ==> !('\U{24C2}' <= text[k] <= '\U{1F251}') {
      FilterAgrees(text, IsEmoji, InEmojiClass);
    }
  }

  /** A filter that drops fewer characters keeps at least as many. */
  lemma {:induction false} FilterNarrower(text: string, narrow: char -> bool, wide: char -> bool)
    requires forall c :: narrow(c) ==> wide(c)
    ensures |FilterChars(text, wide)| <= |FilterChars(text, narrow)|
    decreases |text|
  {
    if |text| > 0 {
      FilterNarrower(text[1..], narrow, wide);
    }
  }

  /** Two filters that agree on every character of the text give the same result. */
  lemma {:induction false} FilterAgrees(text: string, p: char -> bool, q: char -> bool)
    requires forall k :: 0 <= k < |text| ==> p(text[k]) == q(text[k])
    ensures FilterChars(text, p) == FilterChars(text, q)
    decreases |text|
  {
    if |text| > 0 {
      FilterAgrees(text[1..], p, q);
    }
  }

  /** On mixed text the corrected filter deletes the emoji and keeps the Korean and
      Japanese letters around it. */
  lemma RemoveOnlyEmojisExample()
    ensures RemoveOnlyEmojis("영😀の") == "영の"
  {
    var t := "영😀の";
    assert t[1..][1..] == "の" && t[1..][1..][1..] == "";
    assert IsEmoji(t[1]) && !IsEmoji(t[0]) && !IsEmoji(t[2]);
    assert FilterChars(t[1..], IsEmoji) == FilterChars("の", IsEmoji);
  }

  /** The written filter deletes the same text whole. */
  lemma RemoveEmojisMixedExample()
    ensures RemoveEmojis("영😀の") == ""
  {
    var t := "영😀の";
    assert t[1..][1..] == "の" && t[1..][1..][1..] == "";
    assert InEmojiClass(t[0]) && InEmojiClass(t[1]) && InEmojiClass(t[2]);
  }

  // ---------------------------------------------------------------- parse_movie_info_line

  const Dot: char := '·'

  /** A non-empty string that `strip()` leaves unchanged. */
  predicate IsStripped(w: string)
  {
    w != "" && !IsSpace(w[0]) && !IsSpace(w[|w| - 1])
  }

  /** Keeps the stripped, non-empty items in order. */
  function StrippedNonEmpty(items: seq<string>): (r: seq<string>)
    ensures |r| <= |items|
    ensures forall k :: 0 <= k < |r| ==> IsStripped(r[k])
  {
    if |items| == 0 then []
    else
      var s := Strip(items[0]);
      var rest := StrippedNonEmpty(items[1..]);
      if s == "" then rest
      else
        ConsStripped(s, rest);
        [s] + rest
  }

  lemma ConsStripped(s: string, rest: seq<string>)
    requires s == [] || (!IsSpace(s[0]) && !IsSpace(s[|s| - 1]))
    requires s != "" && forall k :: 0 <= k < |rest| ==> IsStripped(rest[k])
    ensures forall k :: 0 <= k < |[s] + rest| ==> IsStripped(([s] + rest)[k])
  {
  }

  /** `parse_movie_info_line`: the '·'-separated items, stripped, empty ones dropped. */
  function ParseMovieInfoLine(line: string): (r: seq<string>)
    ensures forall k :: 0 <= k < |r| ==> IsStripped(r[k]) && Dot !in r[k]
    ensures line == "" ==> r == []
    ensures line != "" ==> r == StrippedNonEmpty(Split(line, Dot))
  {
    if line == "" then []
    else
      var items := Split(line, Dot);
      StrippedItemsNoDot(items);
      StrippedNonEmpty(items)
  }

  lemma {:induction false} StrippedItemsNoDot(items: seq<string>)
    requires forall k :: 0 <= k < |items| ==> Dot !in items[k]
    ensures forall k :: 0 <= k < |StrippedNonEmpty(items)| ==> Dot !in StrippedNonEmpty(items)[k]
    decreases |items|
  {
    if |items| > 0 {
      StrippedItemsNoDot(items[1..]);
      StripChars(items[0]);
    }
  }

  lemma {:induction false} StrippedNonEmptyId(items: seq<string>)
    requires forall k :: 0 <= k < |items| ==> IsStripped(items[k])
    ensures StrippedNonEmpty(items) == items
    decreases |items|
  {
    if |items| > 0 {
      StripNoEdgeSpace(items[0]);
      StrippedNonEmptyId(items[1..]);
      assert [items[0]] + items[1..] == items;
    }
  }

  /** `StrippedNonEmpty` of a concatenation is handled part by part, so the kept items
      stay in order. */
  lemma {:induction false} StrippedNonEmptyConcat(a: seq<string>, b: seq<string>)
    ensures StrippedNonEmpty(a + b) == StrippedNonEmpty(a) + StrippedNonEmpty(b)
    decreases |a|
  {
    if |a| > 0 {
      var head := if Strip(a[0]) == "" then [] else [Strip(a[0])];
      StrippedNonEmptyConcat(a[1..], b);
      ConcatTail(a, b);
      assert StrippedNonEmpty(a + b) == head + StrippedNonEmpty(a[1..] + b);
      assert StrippedNonEmpty(a) == head + StrippedNonEmpty(a[1..]);
    } else {
      assert a + b == b;
    }
  }

  /** A single item gives its strip, unless that is empty. */
  lemma StrippedNonEmptySingle(w: string)
    ensures StrippedNonEmpty([w]) == if Strip(w) == "" then [] else [Strip(w)]
  {
    assert [w][1..] == [];
  }

  /** A non-empty line made of '·'-free fields parses to the strips of its fields,
      empty ones dropped, in order. */
  lemma ParseMovieInfoLineOfFields(fields: seq<string>)
    requires |fields| > 0 && forall k :: 0 <= k < |fields| ==> Dot !in fields[k]
    requires Join(fields, [Dot]) != ""
    ensures ParseMovieInfoLine(Join(fields, [Dot])) == StrippedNonEmpty(fields)
  {
    SplitJoin(fields, Dot);
  }

  /** Items joined with '·' are parsed back unchanged. */
  lemma ParseMovieInfoLineJoin(items: seq<string>)
    requires |items| > 0
    requires forall k :: 0 <= k < |items| ==> IsStripped(items[k]) && Dot !in items[k]
    ensures ParseMovieInfoLine(Join(items, [Dot])) == items
  {
    SplitJoin(items, Dot);
    StrippedNonEmptyId(items);
    JoinNonEmpty(items, [Dot]);
  }

  lemma JoinNonEmpty(items: seq<string>, sep: string)
    requires |items| > 0 && items[0] != ""
    ensures Join(items, sep) != ""
  {
  }
}
