/**
 * The two readings the proxy takes from the text printed by `cpupower frequency-info`:
 * the current frequency (a number and a unit) and whether turbo boost is supported.
 * Each is a `re.search` of a fixed pattern; when the pattern is absent, the source
 * calls `group` on `None` and raises, which is modelled as an error result.
 */
module FrequencyInfo {
  import opened Wrappers
  import opened PyText
  import opened ReSearch

  // ---------------------------------------------------------------- current frequency

  /** The literal part of `current CPU frequency: (([0-9]+|[0-9]+\.[0-9]+) (MHz|GHz))`. */
  const FreqPrefix: string := "current CPU frequency: "

  /** The two parts of the match: the number and the unit; group 1 is both, joined by a space. */
  datatype FreqMatch = FreqMatch(number: string, unit: string) {
    function Group(): string { number + " " + unit }
  }

  /** `[0-9]+|[0-9]+\.[0-9]+`: an integer, or an integer part, a dot and a fraction part. */
  ghost predicate IsNumberToken(s: string) {
    IsDigitRun(s) ||
    exists k :: 0 <= k < |s| && s[k] == '.' && IsDigitRun(s[..k]) && IsDigitRun(s[k + 1..])
  }

  predicate IsUnit(u: string) {
    u == "MHz" || u == "GHz"
  }

  /** The frequency pattern matches at index `i` with groups `number` and `unit`. */
  ghost predicate IsFreqMatchAt(text: string, i: nat, number: string, unit: string) {
    IsNumberToken(number) && IsUnit(unit) && StartsAt(text, i, FreqPrefix + number + " " + unit)
  }

  /** The end of the longest run of digits that starts at `p`. */
  function DigitRunEnd(text: string, p: nat): (e: nat)
    requires p <= |text|
    ensures p <= e <= |text|
    ensures forall k :: p <= k < e ==> IsDigit(text[k])
    ensures e == |text| || !IsDigit(text[e])
    decreases |text| - p
  {
    if p < |text| && IsDigit(text[p]) then DigitRunEnd(text, p + 1) else p
  }

  /** ` (MHz|GHz)` at index `p`: the unit it names, and none when neither unit follows a space there. */
  function UnitAt(text: string, p: nat): (u: Option<string>)
    ensures u.Some? ==> IsUnit(u.value) && StartsAt(text, p, " " + u.value)
    ensures u.None? <==> !StartsAt(text, p, " MHz") && !StartsAt(text, p, " GHz")
  {
    if StartsAt(text, p, " MHz") then Some("MHz")
    else if StartsAt(text, p, " GHz") then Some("GHz")
    else None
  }

  /**
   * The frequency pattern tried at index `i`, as the backtracking matcher does it: the
   * literal prefix, then the number, one space and the unit.  Whatever it returns is
   * a match of the pattern at `i`.
   */
  function MatchFreqAt(text: string, i: nat): (r: Option<FreqMatch>)
    ensures r.Some? ==> IsFreqMatchAt(text, i, r.value.number, r.value.unit)
  {
    if StartsAt(text, i, FreqPrefix) then
      match MatchNumberAt(text, i + |FreqPrefix|)
      case None => None
      case Some(f) =>
        FreqMatchFromParts(text, i, f.number, f.unit);
        Some(f)
    else None
  }

  /**
   * The number and unit from index `p` on: the integer alternative first, with the
   * longest digit run (a shorter one is followed by a digit, not by the space the
   * pattern needs); when no unit follows, the decimal alternative.
   */
  function MatchNumberAt(text: string, p: nat): (r: Option<FreqMatch>)
    requires p <= |text|
    ensures r.Some? ==> IsNumberToken(r.value.number) && IsUnit(r.value.unit)
    ensures r.Some? ==> StartsAt(text, p, r.value.number) && StartsAt(text, p + |r.value.number|, " " + r.value.unit)
  {
    var d := DigitRunEnd(text, p);
    if d == p then None
    else
      var u := UnitAt(text, d);
      if u.Some? then
        IntegerMatch(text, p, d, u.value);
        Some(FreqMatch(text[p..d], u.value))
      else MatchFractionAt(text, p, d)
  }

  /** The decimal alternative, once the integer part `text[p..d]` is read: a dot, digits and the unit. */
  function MatchFractionAt(text: string, p: nat, d: nat): (r: Option<FreqMatch>)
    requires p < d <= |text|
    requires forall k :: p <= k < d ==> IsDigit(text[k])
    ensures r.Some? ==> d < |text| && text[d] == '.'
    ensures r.Some? ==> IsNumberToken(r.value.number) && IsUnit(r.value.unit)
    ensures r.Some? ==> StartsAt(text, p, r.value.number) && StartsAt(text, p + |r.value.number|, " " + r.value.unit)
  {
    if d < |text| && text[d] == '.' then
      var e := DigitRunEnd(text, d + 1);
      if e == d + 1 then None
      else
        match UnitAt(text, e)
        case Some(u) =>
          DecimalIsNumberToken(text, p, d, e);
          Some(FreqMatch(text[p..e], u))
        case None => None
    else None
  }

  /** A literal made of two parts occurs where its first part does, followed by its second. */
  lemma StartsAtConcat(text: string, i: nat, a: string, b: string)
    ensures StartsAt(text, i, a + b) <==> StartsAt(text, i, a) && StartsAt(text, i + |a|, b)
  {
    if StartsAt(text, i, a) && StartsAt(text, i + |a|, b) {
      assert text[i..i + |a + b|] == text[i..i + |a|] + text[i + |a|..i + |a| + |b|];
    }
    if StartsAt(text, i, a + b) {
      assert text[i..i + |a|] == (a + b)[..|a|];
      assert text[i + |a|..i + |a| + |b|] == (a + b)[|a|..];
    }
  }

  /** Prefix, number, space and unit occurring one after another make a match. */
  lemma FreqMatchFromParts(text: string, i: nat, number: string, unit: string)
    requires IsNumberToken(number) && IsUnit(unit)
    requires StartsAt(text, i, FreqPrefix)
    requires StartsAt(text, i + |FreqPrefix|, number)
    requires StartsAt(text, i + |FreqPrefix| + |number|, " " + unit)
    ensures IsFreqMatchAt(text, i, number, unit)
  {
    StartsAtConcat(text, i + |FreqPrefix|, number, " " + unit);
    StartsAtConcat(text, i, FreqPrefix, number + (" " + unit));
    assert FreqPrefix + (number + (" " + unit)) == FreqPrefix + number + " " + unit;
  }

  /** A digit run followed by a space and a unit makes the integer alternative. */
  lemma IntegerMatch(text: string, p: nat, d: nat, unit: string)
    requires p < d <= |text|
    requires forall k :: p <= k < d ==> IsDigit(text[k])
    requires IsUnit(unit) && StartsAt(text, d, " " + unit)
    ensures var m := FreqMatch(text[p..d], unit);
      IsNumberToken(m.number) && IsUnit(m.unit) &&
      StartsAt(text, p, m.number) && StartsAt(text, p + |m.number|, " " + m.unit)
  {
    assert IsDigitRun(text[p..d]);
  }

  /** Two digit runs around a dot make the decimal alternative. */
  lemma DecimalIsNumberToken(text: string, p: nat, d: nat, e: nat)
    requires p < d && d + 1 < e <= |text| && text[d] == '.'
    requires forall k :: p <= k < d ==> IsDigit(text[k])
    requires forall k :: d < k < e ==> IsDigit(text[k])
    ensures IsNumberToken(text[p..e])
  {
    var n := text[p..e];
    var k := d - p;
    assert n[k] == '.' && n[..k] == text[p..d] && n[k + 1..] == text[d + 1..e];
    assert IsDigitRun(n[..k]);
    var f := n[k + 1..];
    forall j | 0 <= j < |f| ensures IsDigit(f[j]) {
      assert f[j] == text[d + 1 + j];
    }
    assert 0 <= k < |n| && n[k] == '.' && IsDigitRun(n[..k]) && IsDigitRun(f);
  }

  /** `UnitAt` reads back the unit that follows a space. */
  lemma UnitAtOf(text: string, p: nat, unit: string)
    requires IsUnit(unit) && StartsAt(text, p, " " + unit)
    ensures UnitAt(text, p) == Some(unit)
  {
    assert text[p..p + 4] == " " + unit;
    if unit == "MHz" {
      assert " " + unit == " MHz";
    } else {
      assert text[p + 1] == 'G';
      assert !StartsAt(text, p, " MHz");
      assert " " + unit == " GHz";
    }
  }

  /** A run of digits that stops at a non-digit is the longest run from its start. */
  lemma DigitRunEndOf(text: string, p: nat, q: nat)
    requires p <= q < |text| && !IsDigit(text[q])
    requires forall k :: p <= k < q ==> IsDigit(text[k])
    ensures DigitRunEnd(text, p) == q
  {
  }

  /** Where the number is an integer, the matcher stops at the integer alternative. */
  lemma MatchIntegerAt(text: string, i: nat, number: string, unit: string)
    requires IsDigitRun(number) && IsUnit(unit)
    requires StartsAt(text, i, FreqPrefix)
    requires StartsAt(text, i + |FreqPrefix|, number)
    requires StartsAt(text, i + |FreqPrefix| + |number|, " " + unit)
    ensures MatchFreqAt(text, i) == Some(FreqMatch(number, unit))
  {
    var p := i + |FreqPrefix|;
    var q := p + |number|;
    assert text[q] == (" " + unit)[0];
    assert forall k :: p <= k < q ==> text[k] == number[k - p];
    DigitRunEndOf(text, p, q);
    UnitAtOf(text, q, unit);
  }

  /** After the integer part, the dot, the fraction and the unit are read by the decimal alternative. */
  lemma MatchFractionOf(text: string, p: nat, d: nat, q: nat, unit: string)
    requires p < d < q && d + 1 < q <= |text| && text[d] == '.'
    requires forall j :: p <= j < d ==> IsDigit(text[j])
    requires forall j :: d + 1 <= j < q ==> IsDigit(text[j])
    requires IsUnit(unit) && StartsAt(text, q, " " + unit)
    ensures MatchFractionAt(text, p, d) == Some(FreqMatch(text[p..q], unit))
  {
    assert text[q] == (" " + unit)[0];
    DigitRunEndOf(text, d + 1, q);
    UnitAtOf(text, q, unit);
  }

  /** No unit starts at a dot: a unit needs a space before it. */
  lemma NoUnitAtDot(text: string, d: nat)
    requires d < |text| && text[d] == '.'
    ensures UnitAt(text, d) == None
  {
    assert d + 4 <= |text| ==> text[d..d + 4][0] == '.';
  }

  /** Where the number has a dot, the matcher falls through to the decimal alternative. */
  lemma MatchDecimalAt(text: string, i: nat, number: string, k: nat, unit: string)
    requires k < |number| && number[k] == '.' && IsDigitRun(number[..k]) && IsDigitRun(number[k + 1..])
    requires IsUnit(unit)
    requires StartsAt(text, i, FreqPrefix)
    requires StartsAt(text, i + |FreqPrefix|, number)
    requires StartsAt(text, i + |FreqPrefix| + |number|, " " + unit)
    ensures MatchFreqAt(text, i) == Some(FreqMatch(number, unit))
  {
    var p := i + |FreqPrefix|;
    var d := p + k;
    var q := p + |number|;
    assert text[p..q] == number;
    assert forall j :: p <= j < d ==> text[j] == number[..k][j - p];
    assert text[d] == '.';
    DigitRunEndOf(text, p, d);
    NoUnitAtDot(text, d);
    assert forall j :: d + 1 <= j < q ==> text[j] == number[k + 1..][j - d - 1];
    MatchFractionOf(text, p, d, q, unit);
    assert MatchNumberAt(text, p) == MatchFractionAt(text, p, d);
  }

  /** Every match of the pattern is found by the matcher, with the same groups. */
  lemma MatchFreqAtComplete(text: string, i: nat, number: string, unit: string)
    requires IsFreqMatchAt(text, i, number, unit)
    ensures MatchFreqAt(text, i) == Some(FreqMatch(number, unit))
  {
    assert FreqPrefix + number + " " + unit == FreqPrefix + (number + (" " + unit));
    StartsAtConcat(text, i, FreqPrefix, number + (" " + unit));
    StartsAtConcat(text, i + |FreqPrefix|, number, " " + unit);
    if IsDigitRun(number) {
      MatchIntegerAt(text, i, number, unit);
    } else {
      var k :| 0 <= k < |number| && number[k] == '.' && IsDigitRun(number[..k]) && IsDigitRun(number[k + 1..]);
      MatchDecimalAt(text, i, number, k, unit);
    }
  }

  /**
   * `get_current_freq`: group 1 of the leftmost match, split at spaces, i.e. the list
   * `[number, unit]`; no match raises.
   */
  function ParseCurrentFreq(text: string): (r: Result<seq<string>>)
    ensures r.Err? ==> r.error == NoFrequencyMatch
  {
    match Search(text, MatchFreqAt)
    case None => Err(NoFrequencyMatch)
    case Some(f) => Ok(Split(f.groups.Group(), ' '))
  }

  /** A number token holds no space, so it is the first part when group 1 is split. */
  lemma NumberTokenHasNoSpace(n: string)
    requires IsNumberToken(n)
    ensures ' ' !in n
  {
  }

  /** The search finds a match no later than any occurrence of the pattern. */
  lemma FreqSearchIsLeftmost(text: string)
    ensures forall p: nat, n, u :: IsFreqMatchAt(text, p, n, u) ==>
      Search(text, MatchFreqAt).Some? && Search(text, MatchFreqAt).value.pos <= p
  {
    forall p: nat, n, u | IsFreqMatchAt(text, p, n, u)
      ensures Search(text, MatchFreqAt).Some? && Search(text, MatchFreqAt).value.pos <= p
    {
      MatchFreqAtComplete(text, p, n, u);
    }
  }

  /** A successful parse splits group 1 of the leftmost match into its number and unit. */
  lemma FreqTokensOfMatch(text: string)
    requires Search(text, MatchFreqAt).Some?
    ensures var f := Search(text, MatchFreqAt).value;
      IsFreqMatchAt(text, f.pos, f.groups.number, f.groups.unit) &&
      ParseCurrentFreq(text) == Ok([f.groups.number, f.groups.unit])
  {
    var f := Search(text, MatchFreqAt).value;
    var n, u := f.groups.number, f.groups.unit;
    NumberTokenHasNoSpace(n);
    SplitTwo(n, ' ', u);
    assert f.groups.Group() == n + [' '] + u;
  }

  /**
   * The frequency parser fails exactly when the pattern occurs nowhere; otherwise it
   * yields two tokens, a number and `MHz` or `GHz`, which are the groups of the leftmost
   * occurrence of the pattern.
   */
  lemma ParseCurrentFreqCorrect(text: string)
    ensures ParseCurrentFreq(text).Err? <==> forall p: nat, n, u :: !IsFreqMatchAt(text, p, n, u)
    ensures ParseCurrentFreq(text).Ok? ==>
      var tokens := ParseCurrentFreq(text).value;
      |tokens| == 2 && IsNumberToken(tokens[0]) && IsUnit(tokens[1]) &&
      exists p: nat ::
        IsFreqMatchAt(text, p, tokens[0], tokens[1]) &&
        forall q: nat, n, u :: q < p ==> !IsFreqMatchAt(text, q, n, u)
  {
    FreqSearchIsLeftmost(text);
    if Search(text, MatchFreqAt).Some? {
      FreqTokensOfMatch(text);
    }
  }

  // ---------------------------------------------------------------- boost support

  /** The literal part of `boost state support:\n {4}Supported: (yes|no)`. */
  const BoostMarker: string := "boost state support:\n    Supported: "

  /** The boost pattern matches at index `i` with group `word`. */
  ghost predicate IsBoostMatchAt(text: string, i: nat, word: string) {
    (word == "yes" || word == "no") && StartsAt(text, i, BoostMarker + word)
  }

  /** The boost pattern tried at index `i`: the marker, then `yes` or else `no`. */
  function MatchBoostAt(text: string, i: nat): (r: Option<string>)
    ensures r.Some? ==> IsBoostMatchAt(text, i, r.value)
    ensures r.None? ==> forall w :: !IsBoostMatchAt(text, i, w)
  {
    if StartsAt(text, i, BoostMarker + "yes") then Some("yes")
    else if StartsAt(text, i, BoostMarker + "no") then Some("no")
    else None
  }

  /** The probe in `is_tb_supported`: whether group 1 of the leftmost match is `yes`; no match raises. */
  function ParseTurboSupport(text: string): (r: Result<bool>)
    ensures r.Err? ==> r.error == NoBoostMarker
  {
    match Search(text, MatchBoostAt)
    case None => Err(NoBoostMarker)
    case Some(f) => Ok(f.groups == "yes")
  }

  /**
   * The boost probe fails exactly when the marker occurs nowhere (it never reports
   * "unsupported" by default); otherwise it is true iff the leftmost marker is followed
   * by `yes`.
   */
  lemma ParseTurboSupportCorrect(text: string)
    ensures ParseTurboSupport(text).Err? <==> forall p: nat, w :: !IsBoostMatchAt(text, p, w)
    ensures ParseTurboSupport(text).Ok? ==>
      var word := if ParseTurboSupport(text).value then "yes" else "no";
      exists p: nat ::
        IsBoostMatchAt(text, p, word) &&
        forall q: nat, w :: q < p ==> !IsBoostMatchAt(text, q, w)
  {
    var s := Search(text, MatchBoostAt);
    forall p: nat, w | IsBoostMatchAt(text, p, w)
      ensures s.Some? && s.value.pos <= p
    {
      assert MatchBoostAt(text, p).Some?;
    }
    if s.Some? {
      var f := s.value;
      assert IsBoostMatchAt(text, f.pos, f.groups);
      forall q: nat, w | q < f.pos ensures !IsBoostMatchAt(text, q, w) {
        assert MatchBoostAt(text, q).None?;
      }
    }
  }

  // ---------------------------------------------------------------- sample output

  /** An integer part and a fraction part around a dot form a number token. */
  lemma DecimalToken(whole: string, fraction: string)
    requires IsDigitRun(whole) && IsDigitRun(fraction)
    ensures IsNumberToken(whole + "." + fraction)
  {
  }

  /** A decimal reading in megahertz is read back as its two tokens. */
  lemma SampleFrequency()
    ensures ParseCurrentFreq(FreqPrefix + "1234.5" + " " + "MHz") == Ok(["1234.5", "MHz"])
  {
    var text := FreqPrefix + "1234.5" + " " + "MHz";
    DecimalToken("1234", "5");
    assert "1234" + "." + "5" == "1234.5";
    assert text[0..|text|] == text;
    MatchFreqAtComplete(text, 0, "1234.5", "MHz");
    SplitTwo("1234.5", ' ', "MHz");
  }

  /** A supported-boost block reads as supported. */
  lemma SampleBoost()
    ensures ParseTurboSupport(BoostMarker + "yes") == Ok(true)
  {
  }
}
