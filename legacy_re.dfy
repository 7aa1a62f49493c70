/** The older regex helpers kept under `data_scraping/legacy/old_utils/re.py`, and how
    they differ from their `DataCleaner` successors. */
module LegacyRe {
  import opened Wrappers
  import opened PyText
  import DataCleaner

  /** Legacy `time_to_minutes`: 60 * hours + minutes, missing units counted as 0;
      it has no `None` case, so the empty string gives 0. */
  function TimeToMinutes(s: string): (r: nat)
    ensures s == "" ==> r == 0
    ensures s != "" ==> DataCleaner.TimeToMinutes(s) == Some(r)
  {
    var h := DataCleaner.UnitNumberFrom(s, 0, DataCleaner.Hours);
    var m := DataCleaner.UnitNumberFrom(s, 0, DataCleaner.Minutes);
    assert s[0..] == s;
    h.GetOr(0) * 60 + m.GetOr(0)
  }

  /** Legacy `extract_number`: the same comma removal and leftmost match, without
      the empty-string guard. */
  function ExtractNumber(text: string): (r: Option<real>)
    ensures r == DataCleaner.ExtractNumber(text)
  {
    var t := RemoveChar(text, ',');
    match DataCleaner.SearchNumber(t)
    case None => None
    case Some((i, _)) => Some(DataCleaner.NumeralValue(t, i))
  }

  /** What legacy `extract_movie_age` returns: a label, the raw float, or `None`. */
  datatype LegacyAge = AgeText(text: string) | AgeNumber(number: real) | NoAge

  /** Legacy `extract_movie_age`: exact (unstripped) labels, otherwise the number
      itself rather than its digits. */
  function ExtractMovieAge(text: string): (r: LegacyAge)
    ensures text == DataCleaner.AllAges ==> r == AgeText("12")
    ensures text == DataCleaner.AdultsOnly ==> r == AgeText("19")
    ensures r.AgeNumber? ==> r.number >= 0.0
    ensures r.NoAge? ==> forall k :: 0 <= k < |text| ==> !IsDigit(text[k])
    ensures text != DataCleaner.AllAges && text != DataCleaner.AdultsOnly ==>
      (r.AgeNumber? <==> DataCleaner.ExtractNumber(text).Some?) && !r.AgeText?
    ensures r.AgeNumber? ==> r.number == DataCleaner.ExtractNumber(text).value
  {
    if DataCleaner.AllAges == text then AgeText("12")
    else if DataCleaner.AdultsOnly == text then AgeText("19")
    else
      match ExtractNumber(text)
      case Some(x) => AgeNumber(x)
      case None => NoAge
  }

  /** Where the two versions part on a numeric age: the legacy one returns the
      number itself, the newer one its digits as a string. */
  lemma ExtractMovieAgeNumberDiffers(n: nat)
    requires n > 0
    ensures ExtractMovieAge(NatToString(n) + "세") == AgeNumber(n as real)
    ensures DataCleaner.ExtractMovieAge(NatToString(n) + "세") == Some(NatToString(n))
  {
    LegacyAgeOfNumber(n);
    DataCleaner.ExtractMovieAgeOfNumber(n);
  }

  lemma LegacyAgeOfNumber(n: nat)
    ensures ExtractMovieAge(NatToString(n) + "세") == AgeNumber(n as real)
  {
    var s := NatToString(n) + "세";
    DataCleaner.AgeText(n);
    assert ExtractNumber(s) == Some(n as real);
  }

  /** A label padded with whitespace is recognised only by the newer version,
      which strips first. */
  lemma ExtractMovieAgePaddedLabelDiffers()
    ensures ExtractMovieAge(" 전체") == NoAge
    ensures DataCleaner.ExtractMovieAge(" 전체") == Some("12")
  {
    PaddedLabelLegacy();
    PaddedLabelStripped();
  }

  lemma PaddedLabelLegacy()
    ensures ExtractMovieAge(" 전체") == NoAge
  {
    var p := " 전체";
    assert forall k :: 0 <= k < |p| ==> !IsDigit(p[k]);
    assert ExtractNumber(p).None?;
    assert p != DataCleaner.AllAges && p != DataCleaner.AdultsOnly;
  }

  lemma PaddedLabelStripped()
    ensures Strip(" 전체") == DataCleaner.AllAges
  {
    var w := DataCleaner.AllAges;
    assert " 전체" == [' '] + w;
    LeadingSpaceStripped(' ', w);
  }

  lemma LeadingSpaceStripped(c: char, w: string)
    requires IsSpace(c) && w != [] && !IsSpace(w[0]) && !IsSpace(w[|w| - 1])
    ensures Strip([c] + w) == w
  {
    assert ([c] + w)[1..] == w;
    assert LStrip([c] + w) == LStrip(w) == w;
    StripNoEdgeSpace(w);
  }

  /** Legacy `remove_emojis` uses the same character class as the newer one. */
  function RemoveEmojis(s: string): (r: string)
    ensures r == DataCleaner.RemoveEmojis(s)
    ensures forall c :: c in r <==> c in s && !DataCleaner.InEmojiClass(c)
  {
    DataCleaner.FilterChars(s, DataCleaner.InEmojiClass)
  }
}
