/** The Python `str` primitives that the modelled code relies on: whitespace as
    `str.isspace` defines it, `strip`, `split(sep)`, `split()`, `join`, single
    character `replace`, substring search, ASCII case folding, decimal digits,
    `float()` on decimal numerals and text-mode line iteration. */
module PyText {
  import opened Wrappers


  /** `str.isspace()` for one character. */
  predicate IsSpace(c: char)
  {
    || ('\t' <= c <= '\r')
    || ('\U{001C}' <= c <= ' ')
    || c == '\U{0085}' || c == '\U{00A0}' || c == '\U{1680}'
    || ('\U{2000}' <= c <= '\U{200A}')
    || c == '\U{2028}' || c == '\U{2029}' || c == '\U{202F}' || c == '\U{205F}' || c == '\U{3000}'
  }

  predicate NoSpace(w: string)
  {
    forall j :: 0 <= j < |w| ==> !IsSpace(w[j])
  }

  predicate IsDigit(c: char)
  {
    '0' <= c <= '9'
  }

  predicate AllDigits(s: string)
  {
    forall j :: 0 <= j < |s| ==> IsDigit(s[j])
  }

  // ---------------------------------------------------------------- strip

  function LStrip(s: string): (r: string)
    ensures |r| <= |s| && r == s[|s| - |r|..]
    ensures r == [] || !IsSpace(r[0])
    ensures forall i :: 0 <= i < |s| - |r| ==> IsSpace(s[i])
  {
    if |s| > 0 && IsSpace(s[0]) then LStrip(s[1..]) else s
  }

  function RStrip(s: string): (r: string)
    ensures |r| <= |s| && r == s[..|r|]
    ensures r == [] || !IsSpace(r[|r| - 1])
    ensures forall i :: |r| <= i < |s| ==> IsSpace(s[i])
  {
    if |s| > 0 && IsSpace(s[|s| - 1]) then RStrip(s[..|s| - 1]) else s
  }

  /** `str.strip()`: the longest infix without whitespace at either end. */
  function Strip(s: string): (r: string)
    ensures r == [] || (!IsSpace(r[0]) && !IsSpace(r[|r| - 1]))
    ensures |r| <= |s|
  {
    RStrip(LStrip(s))
  }

  lemma StripNoEdgeSpace(s: string)
    requires s == [] || (!IsSpace(s[0]) && !IsSpace(s[|s| - 1]))
    ensures Strip(s) == s
  {
  }

  lemma StripAllSpace(s: string)
    requires forall i :: 0 <= i < |s| ==> IsSpace(s[i])
    ensures Strip(s) == []
  {
  }

  /** A string whose inner characters may be anything strips the same once a
      trailing run of whitespace is added. */
  lemma StripTrailingSpace(s: string, t: string)
    requires s == [] || (!IsSpace(s[0]) && !IsSpace(s[|s| - 1]))
    requires forall i :: 0 <= i < |t| ==> IsSpace(t[i])
    ensures Strip(s + t) == s
  {
    if s == [] {
      assert s + t == t;
    } else {
      assert LStrip(s + t) == s + t;
      RStripDrops(s, t);
    }
  }

  lemma RStripDrops(s: string, t: string)
    requires s == [] || !IsSpace(s[|s| - 1])
    requires forall i :: 0 <= i < |t| ==> IsSpace(t[i])
    ensures RStrip(s + t) == s
    decreases |t|
  {
    if t == [] {
      assert s + t == s;
    } else {
      assert (s + t)[..|s + t| - 1] == s + t[..|t| - 1];
      RStripDrops(s, t[..|t| - 1]);
    }
  }

  // ---------------------------------------------------------------- split(sep) and join

  /** `s.split(sep)` for a one-character separator: never empty, no field holds `sep`. */
  function Split(s: string, sep: char): (r: seq<string>)
    ensures |r| >= 1
    ensures forall i :: 0 <= i < |r| ==> sep !in r[i]
    decreases |s|
  {
    if |s| == 0 then [""]
    else if s[0] == sep then [""] + Split(s[1..], sep)
    else
      var rest := Split(s[1..], sep);
      [[s[0]] + rest[0]] + rest[1..]
  }

  /** `sep.join(fs)`. */
  function Join(fs: seq<string>, sep: string): string
  {
    if |fs| == 0 then ""
    else if |fs| == 1 then fs[0]
    else fs[0] + sep + Join(fs[1..], sep)
  }

  lemma {:induction false} SplitNoSep(a: string, sep: char)
    requires sep !in a
    ensures Split(a, sep) == [a]
    decreases |a|
  {
    if |a| > 0 {
      SplitNoSep(a[1..], sep);
      assert [a[0]] + a[1..] == a;
    }
  }

  lemma {:induction false} SplitPrefix(a: string, b: string, sep: char)
    requires sep !in a
    ensures Split(a + [sep] + b, sep) == [a] + Split(b, sep)
    decreases |a|
  {
    var s := a + [sep] + b;
    if |a| == 0 {
      assert s[0] == sep && s[1..] == b;
    } else {
      assert s[0] == a[0] && s[1..] == a[1..] + [sep] + b;
      SplitPrefix(a[1..], b, sep);
      assert [a[0]] + a[1..] == a;
    }
  }

  /** Splitting what was joined gives back the fields, when no field holds the separator. */
  lemma {:induction false} SplitJoin(fs: seq<string>, sep: char)
    requires |fs| >= 1
    requires forall i :: 0 <= i < |fs| ==> sep !in fs[i]
    ensures Split(Join(fs, [sep]), sep) == fs
    decreases |fs|
  {
    if |fs| == 1 {
      SplitNoSep(fs[0], sep);
    } else {
      SplitJoin(fs[1..], sep);
      SplitPrefix(fs[0], Join(fs[1..], [sep]), sep);
      assert [fs[0]] + fs[1..] == fs;
    }
  }

  /** Joining what was split gives back the string. */
  lemma {:induction false} JoinSplit(s: string, sep: char)
    ensures Join(Split(s, sep), [sep]) == s
    decreases |s|
  {
    if |s| > 0 {
      JoinSplit(s[1..], sep);
      var rest := Split(s[1..], sep);
      if s[0] == sep {
        assert Split(s, sep) == [""] + rest;
        assert ([""] + rest)[1..] == rest;
      } else {
        var r := Split(s, sep);
        assert r == [[s[0]] + rest[0]] + rest[1..];
        if |rest| == 1 {
          assert s == [s[0]] + s[1..];
        } else {
          assert r[1..] == rest[1..];
          assert Join(rest, [sep]) == rest[0] + [sep] + Join(rest[1..], [sep]);
          assert s == [s[0]] + s[1..];
        }
      }
    }
  }

  /** When `x` ends with the separator, splitting `x + y` continues the split of `x`
      with the split of `y`. */
  lemma {:induction false} SplitAppend(x: string, y: string, sep: char)
    requires |x| > 0 && x[|x| - 1] == sep
    ensures |Split(x, sep)| >= 2 && Split(x, sep)[|Split(x, sep)| - 1] == ""
    ensures Split(x + y, sep) == Split(x, sep)[..|Split(x, sep)| - 1] + Split(y, sep)
    decreases |x|
  {
    var s := x + y;
    assert s[0] == x[0] && s[1..] == x[1..] + y;
    if |x| == 1 {
      assert x[1..] == [];
      assert s[1..] == y;
      assert Split(x, sep) == [""] + Split([], sep);
      assert Split(s, sep) == [""] + Split(y, sep);
    } else {
      SplitAppend(x[1..], y, sep);
      SplitAppendStep(x, y, sep);
    }
  }

  /** The step of `SplitAppend` from `x[1..]` to `x`. */
  lemma SplitAppendStep(x: string, y: string, sep: char)
    requires |x| > 1
    requires var rx := Split(x[1..], sep);
      |rx| >= 2 && rx[|rx| - 1] == "" && Split(x[1..] + y, sep) == rx[..|rx| - 1] + Split(y, sep)
    ensures |Split(x, sep)| >= 2 && Split(x, sep)[|Split(x, sep)| - 1] == ""
    ensures Split(x + y, sep) == Split(x, sep)[..|Split(x, sep)| - 1] + Split(y, sep)
  {
    var s := x + y;
    assert s[0] == x[0] && s[1..] == x[1..] + y;
    var rx := Split(x[1..], sep);
    var ry := Split(y, sep);
    var rxy := Split(x[1..] + y, sep);
    if x[0] == sep {
      assert Split(x, sep) == [""] + rx;
      assert Split(s, sep) == [""] + rxy;
      ConsDropLast("", rx, ry, rxy);
    } else {
      assert Split(x, sep) == [[x[0]] + rx[0]] + rx[1..];
      assert Split(s, sep) == [[x[0]] + rxy[0]] + rxy[1..];
      ExtendDropLast([x[0]], rx, ry, rxy);
    }
  }

  lemma ConsDropLast(h: string, rx: seq<string>, ry: seq<string>, rxy: seq<string>)
    requires |rx| >= 2 && rxy == rx[..|rx| - 1] + ry
    ensures [h] + rxy == ([h] + rx)[..|rx|] + ry
  {
    assert ([h] + rx)[..|rx|] == [h] + rx[..|rx| - 1];
  }

  lemma ExtendDropLast(h: string, rx: seq<string>, ry: seq<string>, rxy: seq<string>)
    requires |rx| >= 2 && rxy == rx[..|rx| - 1] + ry
    ensures [h + rxy[0]] + rxy[1..] == ([h + rx[0]] + rx[1..])[..|rx| - 1] + ry
  {
    assert rxy[0] == rx[0];
    assert rxy[1..] == rx[1..|rx| - 1] + ry;
    assert ([h + rx[0]] + rx[1..])[..|rx| - 1] == [h + rx[0]] + rx[1..|rx| - 1];
  }

  // ---------------------------------------------------------------- split() and whitespace collapsing

  /** `s.split()` with no argument: the maximal runs of non-whitespace characters. */
  function Words(s: string): (r: seq<string>)
    ensures forall i :: 0 <= i < |r| ==> |r[i]| > 0 && NoSpace(r[i])
    ensures |s| > 0 && !IsSpace(s[0]) ==> |r| > 0 && r[0][0] == s[0]
    decreases |s|
  {
    if |s| == 0 then []
    else if IsSpace(s[0]) then Words(s[1..])
    else
      var rest := Words(s[1..]);
      if |s| > 1 && !IsSpace(s[1]) then [[s[0]] + rest[0]] + rest[1..]
      else [[s[0]]] + rest
  }

  /** A text in the shape `' '.join(s.split())` produces. */
  predicate Collapsed(t: string)
  {
    && (forall i :: 0 <= i < |t| && IsSpace(t[i]) ==> t[i] == ' ')
    && (t == [] || (t[0] != ' ' && t[|t| - 1] != ' '))
    && (forall i :: 0 <= i < |t| - 1 && t[i] == ' ' ==> t[i + 1] != ' ')
  }

  lemma {:induction false} JoinWordsCollapsed(ws: seq<string>)
    requires forall i :: 0 <= i < |ws| ==> |ws[i]| > 0 && NoSpace(ws[i])
    ensures Collapsed(Join(ws, " "))
    ensures forall c :: c in Join(ws, " ") ==> c == ' ' || exists i :: 0 <= i < |ws| && c in ws[i]
    decreases |ws|
  {
    if |ws| > 1 {
      JoinWordsCollapsed(ws[1..]);
      var t := Join(ws, " ");
      var u := Join(ws[1..], " ");
      assert t == ws[0] + " " + u;
      assert u != [] && u[0] != ' ' by {
        JoinFirst(ws[1..]);
      }
      forall c | c in t ensures c == ' ' || exists i :: 0 <= i < |ws| && c in ws[i] {
        if c in u && c != ' ' {
          var i :| 0 <= i < |ws[1..]| && c in ws[1..][i];
          assert c in ws[i + 1];
        }
      }
    } else if |ws| == 1 {
      assert Join(ws, " ") == ws[0];
    }
  }

  lemma {:induction false} JoinFirst(ws: seq<string>)
    requires |ws| > 0 && |ws[0]| > 0
    ensures |Join(ws, " ")| > 0 && Join(ws, " ")[0] == ws[0][0]
  {
  }

  lemma {:induction false} WordsSingle(w: string)
    requires |w| > 0 && NoSpace(w)
    ensures Words(w) == [w]
    decreases |w|
  {
    if |w| > 1 {
      WordsSingle(w[1..]);
      assert !IsSpace(w[1]);
      assert Words(w) == [[w[0]] + w[1..]];
      assert [w[0]] + w[1..] == w;
    } else {
      assert w[1..] == [] && [w[0]] == w;
      assert Words(w[1..]) == [];
      assert Words(w) == [[w[0]]] + Words(w[1..]);
    }
  }

  lemma {:induction false} WordsPrefix(w: string, u: string)
    requires |w| > 0 && NoSpace(w)
    ensures Words(w + " " + u) == [w] + Words(u)
    decreases |w|
  {
    var s := w + " " + u;
    if |w| == 1 {
      assert s[0] == w[0] && s[1] == ' ';
      assert s[1..] == " " + u;
      assert (" " + u)[1..] == u;
      assert Words(" " + u) == Words(u);
      assert Words(s) == [[s[0]]] + Words(s[1..]);
      assert [w[0]] == w;
    } else {
      assert s[0] == w[0] && s[1] == w[1];
      assert s[1..] == w[1..] + " " + u;
      WordsPrefix(w[1..], u);
      assert [w[0]] + w[1..] == w;
    }
  }

  /** `' '.join(...)` of words is split back into the same words. */
  lemma {:induction false} WordsJoin(ws: seq<string>)
    requires forall i :: 0 <= i < |ws| ==> |ws[i]| > 0 && NoSpace(ws[i])
    ensures Words(Join(ws, " ")) == ws
    decreases |ws|
  {
    if |ws| == 1 {
      WordsSingle(ws[0]);
    } else if |ws| > 1 {
      WordsJoin(ws[1..]);
      WordsPrefix(ws[0], Join(ws[1..], " "));
      assert [ws[0]] + ws[1..] == ws;
    }
  }

  /** Every character of a word of `s.split()` comes from `s`. */
  lemma {:induction false} WordsChars(s: string)
    ensures forall i, c :: 0 <= i < |Words(s)| && c in Words(s)[i] ==> c in s
    decreases |s|
  {
    if |s| > 0 {
      WordsChars(s[1..]);
      var rest := Words(s[1..]);
      var r := Words(s);
      forall i, c | 0 <= i < |r| && c in r[i] ensures c in s {
        assert forall x :: x in s[1..] ==> x in s;
        if IsSpace(s[0]) {
          assert r[i] == rest[i];
        } else if |s| > 1 && !IsSpace(s[1]) {
          if i == 0 {
            assert r[0] == [s[0]] + rest[0];
            if c != s[0] { assert c in rest[0]; }
          } else {
            assert r[i] == rest[i];
          }
        } else {
          if i > 0 { assert r[i] == rest[i - 1]; }
        }
      }
    }
  }

  /** `' '.join(s.split())`. */
  function CollapseWhitespace(s: string): (r: string)
    ensures Collapsed(r)
    ensures forall c :: c in r ==> c == ' ' || c in s
  {
    var ws := Words(s);
    JoinWordsCollapsed(ws);
    WordsChars(s);
    Join(ws, " ")
  }

  /** A collapsed text is a fixed point of collapsing. */
  lemma {:induction false} CollapseCollapsed(t: string)
    requires Collapsed(t)
    ensures CollapseWhitespace(t) == t
  {
    var ws := Words(t);
    JoinWordsCollapsed(ws);
    CollapsedIsJoin(t);
  }

  lemma {:induction false} CollapsedIsJoin(t: string)
    requires Collapsed(t)
    ensures Join(Words(t), " ") == t
    decreases |t|
  {
    if |t| > 0 {
      var k := SpaceIndex(t);
      if k == |t| {
        assert NoSpace(t) by {
          forall j | 0 <= j < |t| ensures !IsSpace(t[j]) {
            assert t[j] != ' ';
          }
        }
        WordsSingle(t);
      } else {
        var w, u := t[..k], t[k + 1..];
        assert t == w + " " + u;
        assert NoSpace(w) by {
          forall j | 0 <= j < |w| ensures !IsSpace(w[j]) {
            assert w[j] == t[j] && t[j] != ' ';
          }
        }
        assert k > 0;
        assert Collapsed(u) by {
          assert u != [] by { assert k < |t| - 1; }
          forall i | 0 <= i < |u| && IsSpace(u[i]) ensures u[i] == ' ' { assert u[i] == t[k + 1 + i]; }
          forall i | 0 <= i < |u| - 1 && u[i] == ' ' ensures u[i + 1] != ' ' { assert u[i] == t[k + 1 + i]; }
          assert u[0] == t[k + 1];
          assert u[|u| - 1] == t[|t| - 1];
        }
        WordsPrefix(w, u);
        CollapsedIsJoin(u);
        WordsFirstNonEmpty(u);
        var ru := Words(u);
        assert Words(t) == [w] + ru;
        assert ([w] + ru)[1..] == ru;
      }
    }
  }

  lemma WordsFirstNonEmpty(u: string)
    requires |u| > 0 && !IsSpace(u[0])
    ensures |Words(u)| > 0
  {
  }

  /** The index of the first ' ' in `t`, or `|t|`. */
  function SpaceIndex(t: string): (k: nat)
    ensures k <= |t|
    ensures forall j :: 0 <= j < k ==> t[j] != ' '
    ensures k < |t| ==> t[k] == ' '
  {
    if |t| == 0 then 0
    else if t[0] == ' ' then 0
    else 1 + SpaceIndex(t[1..])
  }

  // ---------------------------------------------------------------- replace

  /** `s.replace(c, d)` for single characters. */
  function ReplaceChar(s: string, c: char, d: char): (r: string)
    ensures |r| == |s|
    ensures forall i :: 0 <= i < |s| ==> r[i] == (if s[i] == c then d else s[i])
  {
    seq(|s|, i requires 0 <= i < |s| => if s[i] == c then d else s[i])
  }

  /** `s.replace(c, '')`: deletes every occurrence of `c`, keeps the rest in order. */
  function RemoveChar(s: string, c: char): (r: string)
    ensures c !in r
    ensures forall x :: x in r <==> x in s && x != c
    ensures c !in s ==> r == s
  {
    if |s| == 0 then ""
    else (if s[0] == c then "" else [s[0]]) + RemoveChar(s[1..], c)
  }

  // ---------------------------------------------------------------- substring search and case folding

  predicate IsPrefix(p: string, s: string)
  {
    |p| <= |s| && s[..|p|] == p
  }

  /** `needle in s` for strings. */
  predicate Contains(s: string, needle: string)
    decreases |s|
  {
    IsPrefix(needle, s) || (|s| > 0 && Contains(s[1..], needle))
  }

  function LowerChar(c: char): char
  {
    if 'A' <= c <= 'Z' then (c as int + 32) as char else c
  }

  /** ASCII lower-casing. */
  function Lower(s: string): (r: string)
    ensures |r| == |s|
  {
    seq(|s|, i requires 0 <= i < |s| => LowerChar(s[i]))
  }

  /** `query` occurs in `s` ignoring ASCII case. */
  predicate ContainsIgnoreCase(s: string, query: string)
  {
    Contains(Lower(s), Lower(query))
  }

  // ---------------------------------------------------------------- decimal digits

  /** `int(s)` for a non-empty string of ASCII digits. */
  function DigitsValue(s: string): nat
    requires AllDigits(s)
  {
    if |s| == 0 then 0
    else DigitsValue(s[..|s| - 1]) * 10 + (s[|s| - 1] as int - '0' as int)
  }

  function Pow10(k: nat): (p: nat)
    ensures p >= 1
  {
    if k == 0 then 1 else 10 * Pow10(k - 1)
  }

  function DigitChar(d: nat): (c: char)
    requires d < 10
    ensures IsDigit(c) && c as int - '0' as int == d
  {
    ('0' as int + d) as char
  }

  /** `str(n)` for a natural number: its decimal digits, which read back as `n`. */
  function NatToString(n: nat): (r: string)
    ensures |r| > 0 && AllDigits(r)
    ensures DigitsValue(r) == n
    ensures |r| > 1 ==> r[0] != '0'
  {
    if n < 10 then [DigitChar(n)]
    else
      var p := NatToString(n / 10);
      var r := p + [DigitChar(n % 10)];
      assert r[..|r| - 1] == p;
      r
  }

  /** `str(i)` for an integer. */
  function IntToString(i: int): string
  {
    if i < 0 then "-" + NatToString(-i) else NatToString(i)
  }

  // ---------------------------------------------------------------- float()

  /** The index of the first '.' of `t`, or `|t|`. */
  function DotIndex(t: string): (d: nat)
    ensures d <= |t|
    ensures forall k :: 0 <= k < d ==> t[k] != '.'
    ensures d < |t| ==> t[d] == '.'
  {
    if |t| == 0 || t[0] == '.' then 0 else 1 + DotIndex(t[1..])
  }

  /** Digits with at most one '.', and at least one digit. */
  function ParseUnsignedDecimal(t: string): (r: Option<real>)
    ensures r.Some? ==> r.value >= 0.0
  {
    var d := DotIndex(t);
    var whole := t[..d];
    var frac := if d < |t| then t[d + 1..] else "";
    if AllDigits(whole) && AllDigits(frac) && |whole| + |frac| > 0 then Some(DecimalValue(whole, frac))
    else None
  }

  /** The value of the numeral `whole.frac`. */
  function DecimalValue(whole: string, frac: string): (v: real)
    requires AllDigits(whole) && AllDigits(frac)
    ensures v >= 0.0
  {
    DigitsValue(whole) as real + DigitsValue(frac) as real / Pow10(|frac|) as real
  }

  /** `float(s)` on decimal notation: surrounding whitespace is ignored, then an
      optional sign and a decimal numeral; anything else is a `ValueError` (`None`). */
  function ParseFloat(s: string): (r: Option<real>)
  {
    var t := Strip(s);
    if |t| > 0 && (t[0] == '+' || t[0] == '-') then
      match ParseUnsignedDecimal(t[1..])
      case None => None
      case Some(v) => Some(if t[0] == '-' then -v else v)
    else ParseUnsignedDecimal(t)
  }

  /** `float(str(n)) == n`. */
  lemma ParseFloatNat(n: nat)
    ensures ParseFloat(NatToString(n)) == Some(n as real)
  {
    var t := NatToString(n);
    StripNoEdgeSpace(t);
    DotIndexAt(t, |t|);
    assert t[..|t|] == t;
    assert DecimalValue(t, "") == n as real by {
      assert DigitsValue("") == 0;
    }
  }

  /** A numeral with a fractional part: `float("w.f") == w + f / 10^|f|`. */
  lemma ParseFloatFraction(w: string, f: string)
    requires AllDigits(w) && AllDigits(f) && |w| > 0
    ensures ParseFloat(w + "." + f) == Some(DecimalValue(w, f))
  {
    var t := w + "." + f;
    FractionParts(w, f);
    StripNoEdgeSpace(t);
    assert ParseFloat(t) == ParseUnsignedDecimal(t);
    UnsignedParts(t, w, f);
  }

  lemma UnsignedParts(t: string, w: string, f: string)
    requires AllDigits(w) && AllDigits(f) && |w| > 0
    requires DotIndex(t) == |w| < |t| && t[..|w|] == w && t[|w| + 1..] == f
    ensures ParseUnsignedDecimal(t) == Some(DecimalValue(w, f))
  {
    var d := DotIndex(t);
    assert t[..d] == w;
    assert (if d < |t| then t[d + 1..] else "") == f;
  }

  lemma FractionParts(w: string, f: string)
    requires AllDigits(w) && AllDigits(f) && |w| > 0
    ensures var t := w + "." + f;
      !IsSpace(t[0]) && !IsSpace(t[|t| - 1]) && t[0] != '+' && t[0] != '-' &&
      DotIndex(t) == |w| && t[..|w|] == w && t[|w| + 1..] == f
  {
    var t := w + "." + f;
    assert t[0] == w[0];
    assert t[|t| - 1] == (if |f| > 0 then f[|f| - 1] else '.');
    DotIndexAt(t, |w|);
    assert t[..|w|] == w;
    assert t[|w| + 1..] == f;
  }

  /** `d` is where the first '.' stands. */
  lemma {:induction false} DotIndexAt(t: string, d: nat)
    requires d <= |t| && (forall k :: 0 <= k < d ==> t[k] != '.') && (d < |t| ==> t[d] == '.')
    ensures DotIndex(t) == d
    decreases d
  {
    if d > 0 {
      assert t[0] != '.';
      DotIndexAt(t[1..], d - 1);
    }
  }

  // ---------------------------------------------------------------- text-mode line iteration

  /** Reading in text mode turns "\r\n" and a lone "\r" into "\n". */
  function UniversalNewlines(s: string): (r: string)
    ensures '\r' !in r
    ensures '\r' !in s ==> r == s
    decreases |s|
  {
    if |s| == 0 then ""
    else if s[0] != '\r' then [s[0]] + UniversalNewlines(s[1..])
    else if |s| > 1 && s[1] == '\n' then "\n" + UniversalNewlines(s[2..])
    else "\n" + UniversalNewlines(s[1..])
  }

  /** How many characters the first step of `UniversalNewlines` consumes. */
  function NewlineStepLength(s: string): nat
    requires |s| > 0
  {
    if s[0] == '\r' && |s| > 1 && s[1] == '\n' then 2 else 1
  }

  /** What the first step of `UniversalNewlines` emits. */
  function NewlineStepOutput(s: string): string
    requires |s| > 0
  {
    if s[0] == '\r' then "\n" else [s[0]]
  }

  lemma NewlinesStep(s: string)
    requires |s| > 0
    ensures NewlineStepLength(s) <= |s|
    ensures UniversalNewlines(s) == NewlineStepOutput(s) + UniversalNewlines(s[NewlineStepLength(s)..])
  {
  }

  /** The first step of `UniversalNewlines` on `x + y` is the one on `x` when `x` does
      not end in '\r'; what is left of `x + y` is what is left of `x`, then `y`. */
  lemma StepOfAppend(x: string, y: string)
    requires |x| > 0 && x[|x| - 1] != '\r'
    ensures NewlineStepLength(x + y) == NewlineStepLength(x) <= |x|
    ensures NewlineStepOutput(x + y) == NewlineStepOutput(x)
    ensures (x + y)[NewlineStepLength(x)..] == x[NewlineStepLength(x)..] + y
    ensures var t := x[NewlineStepLength(x)..]; t == [] || t[|t| - 1] != '\r'
  {
    var s := x + y;
    assert s[0] == x[0];
    assert x[0] == '\r' ==> |x| > 1 && s[1] == x[1];
    var k := NewlineStepLength(x);
    assert s[k..] == x[k..] + y;
    assert x[k..] == [] || x[k..][|x[k..]| - 1] == x[|x| - 1];
  }

  lemma {:induction false} UniversalNewlinesAppend(x: string, y: string)
    requires x == [] || x[|x| - 1] != '\r'
    ensures UniversalNewlines(x + y) == UniversalNewlines(x) + UniversalNewlines(y)
    decreases |x|
  {
    if |x| > 0 {
      var s := x + y;
      var k := NewlineStepLength(x);
      StepOfAppend(x, y);
      NewlinesStep(s);
      NewlinesStep(x);
      UniversalNewlinesAppend(x[k..], y);
    } else {
      assert x + y == y;
    }
  }

  /** The lines of a text already split at its "\n"s: every piece but the last
      gets its "\n" back, and an empty last piece is no line. */
  function LinesFromPieces(fs: seq<string>): seq<string>
    requires |fs| >= 1
  {
    var n := |fs| - 1;
    seq(n, i requires 0 <= i < n => fs[i] + "\n") + (if fs[n] == "" then [] else [fs[n]])
  }

  /** Iterating over a text-mode file: every line keeps its "\n", the last one
      only if the file ends with one. */
  function LinesOf(text: string): seq<string>
  {
    LinesFromPieces(Split(UniversalNewlines(text), '\n'))
  }

  lemma LinesFromPiecesSnoc(p: seq<string>, line: string)
    ensures LinesFromPieces(p + [line, ""]) == LinesFromPieces(p + [""]) + [line + "\n"]
  {
    var a := LinesFromPieces(p + [line, ""]);
    var b := LinesFromPieces(p + [""]);
    assert |a| == |p| + 1;
    assert |b| == |p|;
    forall i | 0 <= i < |p| ensures a[i] == b[i] {
      assert (p + [line, ""])[i] == p[i] == (p + [""])[i];
    }
  }
}
