/**
 * The Python string builtins the proxy relies on: `str.strip()`, `str.split(sep)`,
 * `int(str)` and `str(int)`, over strings as sequences of Unicode scalar values.
 */
module PyText {
  import opened Wrappers

  /** `str.isspace()` for one character: the code points Python treats as whitespace. */
  predicate IsSpace(c: char) {
    var n := c as int;
    n == 0x20 || 0x09 <= n <= 0x0D || 0x1C <= n <= 0x1F || n == 0x85 || n == 0xA0 ||
    n == 0x1680 || 0x2000 <= n <= 0x200A || n == 0x2028 || n == 0x2029 ||
    n == 0x202F || n == 0x205F || n == 0x3000
  }

  predicate AllSpace(s: string) {
    forall k :: 0 <= k < |s| ==> IsSpace(s[k])
  }

  predicate IsDigit(c: char) {
    '0' <= c <= '9'
  }

  /** A nonempty run of ASCII digits: the regular expression `[0-9]+`. */
  predicate IsDigitRun(s: string) {
    |s| > 0 && forall k :: 0 <= k < |s| ==> IsDigit(s[k])
  }

  /** `s` occurs in `text` starting at index `i`. */
  predicate StartsAt(text: string, i: nat, s: string) {
    i + |s| <= |text| && text[i..i + |s|] == s
  }

  // ---------------------------------------------------------------- strip

  /** Drops the leading whitespace: what is left is a suffix of `s` after nothing but whitespace. */
  function TrimStart(s: string): (r: string)
    ensures |r| <= |s| && r == s[|s| - |r|..]
    ensures AllSpace(s[..|s| - |r|])
    ensures |r| > 0 ==> !IsSpace(r[0])
    decreases |s|
  {
    if |s| > 0 && IsSpace(s[0]) then TrimStart(s[1..]) else s
  }

  /** Drops the trailing whitespace: what is left is a prefix of `s` before nothing but whitespace. */
  function TrimEnd(s: string): (r: string)
    ensures |r| <= |s| && r == s[..|r|]
    ensures AllSpace(s[|r|..])
    ensures |r| > 0 ==> !IsSpace(r[|r| - 1])
    decreases |s|
  {
    if |s| > 0 && IsSpace(s[|s| - 1]) then TrimEnd(s[..|s| - 1]) else s
  }

  /** `s.strip()`. */
  function Strip(s: string): (r: string)
    ensures |r| > 0 ==> !IsSpace(r[0]) && !IsSpace(r[|r| - 1])
  {
    TrimEnd(TrimStart(s))
  }

  /** Leading whitespace before a text that starts with a non-space is dropped, and only it. */
  lemma {:induction false} TrimStartPadded(lead: string, u: string)
    requires AllSpace(lead)
    requires |u| > 0 && !IsSpace(u[0])
    ensures TrimStart(lead + u) == u
    decreases |lead|
  {
    if |lead| > 0 {
      assert (lead + u)[0] == lead[0];
      assert (lead + u)[1..] == lead[1..] + u;
      TrimStartPadded(lead[1..], u);
    }
  }

  /** Trailing whitespace after a text that ends with a non-space is dropped, and only it. */
  lemma {:induction false} TrimEndPadded(u: string, trail: string)
    requires AllSpace(trail)
    requires |u| > 0 && !IsSpace(u[|u| - 1])
    ensures TrimEnd(u + trail) == u
    decreases |trail|
  {
    if |trail| > 0 {
      var x := u + trail;
      assert x[|x| - 1] == trail[|trail| - 1];
      assert x[..|x| - 1] == u + trail[..|trail| - 1];
      TrimEndPadded(u, trail[..|trail| - 1]);
    }
  }

  /**
   * `strip` removes exactly the surrounding whitespace: a text with no whitespace at
   * either end survives any whitespace padding unchanged.
   */
  lemma StripPadded(lead: string, s: string, trail: string)
    requires AllSpace(lead) && AllSpace(trail)
    requires |s| > 0 ==> !IsSpace(s[0]) && !IsSpace(s[|s| - 1])
    ensures Strip(lead + s + trail) == s
  {
    var x := lead + s + trail;
    if |s| == 0 {
      assert AllSpace(x) by {
        forall k | 0 <= k < |x| ensures IsSpace(x[k]) {
          if k < |lead| { assert x[k] == lead[k]; } else { assert x[k] == trail[k - |lead|]; }
        }
      }
    } else {
      assert x == lead + (s + trail);
      TrimStartPadded(lead, s + trail);
      TrimEndPadded(s, trail);
    }
  }

  /** Stripping twice is stripping once, as `int(output.strip())` does. */
  lemma StripIdempotent(s: string)
    ensures Strip(Strip(s)) == Strip(s)
  {
    var r := Strip(s);
    assert [] + r + [] == r;
    StripPadded([], r, []);
  }

  // ---------------------------------------------------------------- split

  /** `s.split(sep)` with an explicit separator: every occurrence splits, empty parts are kept. */
  function Split(s: string, sep: char): (parts: seq<string>)
    ensures |parts| >= 1
    ensures forall k :: 0 <= k < |parts| ==> sep !in parts[k]
    ensures Join(parts, sep) == s
    decreases |s|
  {
    if |s| == 0 then [""]
    else
      var rest := Split(s[1..], sep);
      if s[0] == sep then [""] + rest
      else
        assert Join([[s[0]] + rest[0]] + rest[1..], sep) == [s[0]] + Join(rest, sep) by {
          if |rest| > 1 {
            assert ([[s[0]] + rest[0]] + rest[1..])[1..] == rest[1..];
          }
        }
        [[s[0]] + rest[0]] + rest[1..]
  }

  /** `sep.join(parts)`, the inverse of `Split`. */
  function Join(parts: seq<string>, sep: char): string
    requires |parts| >= 1
  {
    if |parts| == 1 then parts[0] else parts[0] + [sep] + Join(parts[1..], sep)
  }

  /** Splitting text that contains no separator yields the text as its only part. */
  lemma {:induction false} SplitNoSeparator(s: string, sep: char)
    requires sep !in s
    ensures Split(s, sep) == [s]
    decreases |s|
  {
  }

  /** Splitting at the first separator: the part before it, then the split of the rest. */
  lemma {:induction false} SplitFirst(a: string, sep: char, b: string)
    requires sep !in a
    ensures Split(a + [sep] + b, sep) == [a] + Split(b, sep)
    decreases |a|
  {
    var s := a + [sep] + b;
    if |a| == 0 {
      assert s[0] == sep && s[1..] == b;
    } else {
      assert s[0] == a[0] && s[1..] == a[1..] + [sep] + b;
      SplitFirst(a[1..], sep, b);
      assert [a[0]] + a[1..] == a;
    }
  }

  /** Two separator-free parts joined by one separator split back into exactly those two. */
  lemma SplitTwo(a: string, sep: char, b: string)
    requires sep !in a && sep !in b
    ensures Split(a + [sep] + b, sep) == [a, b]
  {
    SplitFirst(a, sep, b);
    SplitNoSeparator(b, sep);
  }

  // ---------------------------------------------------------------- int(str)

  /**
   * The digits of a base-10 literal as `int()` accepts them: a digit first and last,
   * and an underscore only between two digits.
   */
  predicate IsIntBody(t: string) {
    |t| > 0 && IsDigit(t[0]) && IsDigit(t[|t| - 1]) &&
    (forall k :: 0 <= k < |t| ==> IsDigit(t[k]) || t[k] == '_') &&
    (forall k :: 0 < k < |t| ==> t[k - 1] == '_' ==> t[k] != '_')
  }

  /** The value of the digits of `t`, skipping underscores. */
  function DigitsValue(t: string): nat
    decreases |t|
  {
    if |t| == 0 then 0
    else
      var last := t[|t| - 1];
      if IsDigit(last) then 10 * DigitsValue(t[..|t| - 1]) + (last as int - '0' as int)
      else DigitsValue(t[..|t| - 1])
  }

  /** The grammar `int()` accepts once the whitespace is stripped: an optional sign, then the digits. */
  predicate IsIntLiteral(t: string) {
    |t| > 0 && if t[0] == '+' || t[0] == '-' then IsIntBody(t[1..]) else IsIntBody(t)
  }

  /** `int(t)` for a text with no surrounding whitespace: an optional sign, then the digits. */
  function ParseInt(t: string): (r: Option<int>)
    ensures r.Some? <==> IsIntLiteral(t)
  {
    if |t| > 0 && (t[0] == '+' || t[0] == '-') then
      var body := t[1..];
      if IsIntBody(body) then
        var v: int := DigitsValue(body);
        Some(if t[0] == '-' then -v else v)
      else None
    else if IsIntBody(t) then
      Some(DigitsValue(t))
    else None
  }

  /**
   * The whitespace `int()` skips around a literal: every `str.isspace()` character
   * except the separators U+001C to U+001F, which below U+0080 only the C whitespace
   * set decides, and that set does not hold them.
   */
  predicate IsIntSpace(c: char) {
    IsSpace(c) && !(0x1C <= c as int <= 0x1F)
  }

  predicate AllIntSpace(s: string) {
    forall k :: 0 <= k < |s| ==> IsIntSpace(s[k])
  }

  /** What `strip` removes from either end of `s` is whitespace that `int()` skips too. */
  predicate StripsIntSpace(s: string) {
    var t := TrimStart(s);
    AllIntSpace(s[..|s| - |t|]) && AllIntSpace(t[|TrimEnd(t)|..])
  }

  /**
   * `int(s)`: Python skips the surrounding whitespace itself, then reads the literal.
   * It reads the literal `Strip(s)` unless one of the separators U+001C to U+001F
   * stands around it.
   */
  function PyInt(s: string): (r: Option<int>)
    ensures r.Some? <==> IsIntLiteral(Strip(s)) && StripsIntSpace(s)
    ensures r.Some? ==> Canon(Strip(s)) == DecimalString(r.value)
  {
    ParseIntCanon(Strip(s));
    if StripsIntSpace(s) then ParseInt(Strip(s)) else None
  }

  /** Text that is already stripped has nothing around it for `int()` to refuse. */
  lemma StrippedStripsIntSpace(s: string)
    ensures StripsIntSpace(Strip(s))
  {
    var t := Strip(s);
    assert TrimStart(t) == t;
    assert TrimEnd(t) == t;
  }

  /**
   * `str.strip()` removes an information separator (U+001C to U+001F) before a text,
   * but `int()` refuses it: `"\u001c5".strip()` is `"5"`, while `int("\u001c5")` fails.
   */
  lemma IntRefusesSeparator(c: char, u: string)
    requires 0x1C <= c as int <= 0x1F
    requires |u| > 0 && !IsSpace(u[0]) && !IsSpace(u[|u| - 1])
    ensures Strip([c] + u) == u
    ensures PyInt([c] + u) == None
  {
    var s := [c] + u;
    assert AllSpace([c]);
    TrimStartPadded([c], u);
    TrimEndPadded(u, []);
    assert u + [] == u;
    assert s[..|s| - |u|] == [c];
    assert !IsIntSpace([c][0]);
  }

  /** The text without its underscores. */
  function DropUnderscores(t: string): string
    decreases |t|
  {
    if |t| == 0 then []
    else if t[|t| - 1] == '_' then DropUnderscores(t[..|t| - 1])
    else DropUnderscores(t[..|t| - 1]) + [t[|t| - 1]]
  }

  /** A digit run without its leading zeros; a run of zeros keeps its last one. */
  function DropLeadingZeros(d: string): string
    decreases |d|
  {
    if |d| > 1 && d[0] == '0' then DropLeadingZeros(d[1..]) else d
  }

  /**
   * The spelling `str()` gives the value of an integer literal: the `+` sign and the
   * underscores dropped, no leading zeros, and a `-` only before a nonzero value.
   */
  function Canon(t: string): string
    requires IsIntLiteral(t)
  {
    var body := if t[0] == '+' || t[0] == '-' then t[1..] else t;
    var digits := DropLeadingZeros(DropUnderscores(body));
    if t[0] == '-' && digits != "0" then "-" + digits else digits
  }

  // ---------------------------------------------------------------- str(int)

  function DigitChar(d: nat): (c: char)
    requires d < 10
    ensures IsDigit(c) && c as int - '0' as int == d
  {
    ('0' as int + d) as char
  }

  /** A digit run with no leading zero, unless it is the single digit `0`. */
  predicate IsCanonicalDigits(s: string) {
    IsDigitRun(s) && (|s| > 1 ==> s[0] != '0')
  }

  /** The decimal digits of `n`: nonempty, all digits, no leading zero, worth `n`. */
  function NatDigits(n: nat): (s: string)
    ensures IsCanonicalDigits(s)
    ensures n > 0 ==> s[0] != '0'
    ensures DigitsValue(s) == n
    decreases n
  {
    if n < 10 then [DigitChar(n)]
    else
      var prefix := NatDigits(n / 10);
      var s := prefix + [DigitChar(n % 10)];
      assert s[..|s| - 1] == prefix;
      s
  }

  /** `str(n)` for an integer `n`: a `-` exactly when `n` is negative, then the canonical digits. */
  function DecimalString(n: int): (s: string)
    ensures |s| > 0 && (s[0] == '-' <==> n < 0)
    ensures IsCanonicalDigits(if n < 0 then s[1..] else s)
    ensures n < 0 ==> s[1] != '0'
    ensures ParseInt(s) == Some(n)
  {
    if n < 0 then
      var s := "-" + NatDigits(-n);
      assert s[1..] == NatDigits(-n);
      s
    else NatDigits(n)
  }

  // ---------------------------------------------------------------- int(str(n)) and str(int(t))

  /** Dropping the underscores of digits and underscores leaves digits of the same value. */
  lemma {:induction false} DropUnderscoresValue(t: string)
    requires forall k :: 0 <= k < |t| ==> IsDigit(t[k]) || t[k] == '_'
    ensures forall k :: 0 <= k < |DropUnderscores(t)| ==> IsDigit(DropUnderscores(t)[k])
    ensures DigitsValue(DropUnderscores(t)) == DigitsValue(t)
    decreases |t|
  {
    if |t| > 0 {
      var p := t[..|t| - 1];
      DropUnderscoresValue(p);
      var d := DropUnderscores(t);
      if t[|t| - 1] != '_' {
        assert d[..|d| - 1] == DropUnderscores(p);
      }
    }
  }

  /** A leading zero adds nothing to the value. */
  lemma {:induction false} LeadingZeroValue(x: string)
    ensures DigitsValue("0" + x) == DigitsValue(x)
    decreases |x|
  {
    var y := "0" + x;
    if |x| > 0 {
      assert y[..|y| - 1] == "0" + x[..|x| - 1];
      LeadingZeroValue(x[..|x| - 1]);
    } else {
      assert y[..|y| - 1] == [];
    }
  }

  /** Dropping the leading zeros of a digit run leaves a canonical run of the same value. */
  lemma {:induction false} DropLeadingZerosValue(d: string)
    requires IsDigitRun(d)
    ensures IsCanonicalDigits(DropLeadingZeros(d))
    ensures DigitsValue(DropLeadingZeros(d)) == DigitsValue(d)
    decreases |d|
  {
    if |d| > 1 && d[0] == '0' {
      assert d == "0" + d[1..];
      LeadingZeroValue(d[1..]);
      DropLeadingZerosValue(d[1..]);
    }
  }

  /** A digit run that starts with a nonzero digit has a positive value. */
  lemma {:induction false} LeadingDigitPositive(s: string)
    requires IsDigitRun(s) && s[0] != '0'
    ensures DigitsValue(s) > 0
    decreases |s|
  {
    if |s| > 1 {
      LeadingDigitPositive(s[..|s| - 1]);
    }
  }

  /** A canonical digit run is the decimal text of its own value: `str()` has one spelling per number. */
  lemma {:induction false} CanonicalDigitsUnique(s: string)
    requires IsCanonicalDigits(s)
    ensures NatDigits(DigitsValue(s)) == s
    decreases |s|
  {
    var c := s[|s| - 1];
    var r := c as int - '0' as int;
    if |s| == 1 {
      assert DigitChar(r) == c;
    } else {
      var p := s[..|s| - 1];
      LeadingDigitPositive(p);
      CanonicalDigitsUnique(p);
      var v := DigitsValue(s);
      assert v == 10 * DigitsValue(p) + r;
      assert v / 10 == DigitsValue(p) && v % 10 == r;
      assert DigitChar(r) == c;
      assert s == p + [c];
    }
  }

  /** The digits of a literal body, in canonical spelling, are `str()` of its value. */
  lemma BodyCanon(body: string)
    requires IsIntBody(body)
    ensures DropLeadingZeros(DropUnderscores(body)) == NatDigits(DigitsValue(body))
  {
    DropUnderscoresValue(body);
    var d := DropUnderscores(body);
    assert |d| > 0;
    DropLeadingZerosValue(d);
    CanonicalDigitsUnique(DropLeadingZeros(d));
  }

  /** `str()` of a value given by its sign and magnitude. */
  lemma SignedDecimal(negative: bool, n: nat)
    ensures DecimalString(if negative then -(n as int) else n) ==
      if negative && NatDigits(n) != "0" then "-" + NatDigits(n) else NatDigits(n)
  {
    if negative && n == 0 {
      assert NatDigits(n) == "0";
    }
  }

  /**
   * What `int()` returns, told through `str()`: the literal in canonical spelling is
   * `str()` of the value, so `int("+007")`, `int("0_7")` and `int("7")` are all 7.
   */
  lemma ParseIntCanon(t: string)
    ensures ParseInt(t).Some? ==> Canon(t) == DecimalString(ParseInt(t).value)
  {
    if ParseInt(t).Some? {
      var body := if t[0] == '+' || t[0] == '-' then t[1..] else t;
      var n: int := DigitsValue(body);
      assert ParseInt(t).value == if t[0] == '-' then -n else n;
      BodyCanon(body);
      SignedDecimal(t[0] == '-', n);
    }
  }

  /** `int(str(n)) == n`, whatever whitespace `int()` skips surrounds the decimal text. */
  lemma IntRoundTrip(n: int, lead: string, trail: string)
    requires AllIntSpace(lead) && AllIntSpace(trail)
    ensures PyInt(lead + DecimalString(n) + trail) == Some(n)
  {
    var s := DecimalString(n);
    assert !IsSpace(s[0]) && !IsSpace(s[|s| - 1]);
    IntSpacePadded(lead, s, trail);
  }

  /** Padding `int()` skips is exactly what `strip` removes around a text with non-space ends. */
  lemma IntSpacePadded(lead: string, u: string, trail: string)
    requires AllIntSpace(lead) && AllIntSpace(trail)
    requires |u| > 0 && !IsSpace(u[0]) && !IsSpace(u[|u| - 1])
    ensures Strip(lead + u + trail) == u && StripsIntSpace(lead + u + trail)
  {
    var x := lead + u + trail;
    assert AllSpace(lead) && AllSpace(trail);
    assert x == lead + (u + trail);
    TrimStartPadded(lead, u + trail);
    TrimEndPadded(u, trail);
    assert x[..|x| - |u + trail|] == lead;
    assert (u + trail)[|u|..] == trail;
  }
}
