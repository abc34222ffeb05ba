/**
 * The command lines the proxy runs and the text conventions of the `cpufreqctl` helper:
 * turbo is written as `"0"` to enable and `"1"` to disable, and percentages are written
 * and read as decimal integers.
 */
module Cpufreqctl {
  import opened Wrappers
  import opened PyText

  /** The three settings of the helper. */
  datatype Knob = Min | Max | Turbo

  /** An external command run by the proxy. */
  datatype Command =
    | FrequencyInfo                   // cpupower frequency-info
    | CtlGet(knob: Knob)              // /usr/bin/cpufreqctl <knob> get
    | CtlSet(knob: Knob, arg: string) // /usr/bin/cpufreqctl <knob> <arg>

  /** The knob's name on the helper's command line: three distinct names, none of them `get`. */
  function KnobName(k: Knob): (name: string)
    ensures name == "min" || name == "max" || name == "turbo"
    ensures name == "min" <==> k == Min
    ensures name == "max" <==> k == Max
  {
    match k
    case Min => "min"
    case Max => "max"
    case Turbo => "turbo"
  }

  /** The argument vector of a command, as passed to the process. */
  function Argv(c: Command): (argv: seq<string>)
    ensures c.FrequencyInfo? <==> argv == ["cpupower", "frequency-info"]
    ensures !c.FrequencyInfo? ==> |argv| == 3 && argv[0] == "/usr/bin/cpufreqctl" && argv[1] == KnobName(c.knob)
    ensures c.CtlGet? ==> argv[2] == "get"
    ensures c.CtlSet? ==> argv[2] == c.arg
  {
    match c
    case FrequencyInfo => ["cpupower", "frequency-info"]
    case CtlGet(k) => ["/usr/bin/cpufreqctl", KnobName(k), "get"]
    case CtlSet(k, arg) => ["/usr/bin/cpufreqctl", KnobName(k), arg]
  }

  /**
   * Distinct commands have distinct command lines, except that setting a knob to the
   * literal argument `get` is the same process call as reading it.
   */
  lemma ArgvInjective(c1: Command, c2: Command)
    requires Argv(c1) == Argv(c2)
    requires !(c1.CtlSet? && c1.arg == "get") && !(c2.CtlSet? && c2.arg == "get")
    ensures c1 == c2
  {
  }

  // ---------------------------------------------------------------- turbo

  /** The helper's argument for a turbo state: the inverted convention, `"0"` means on. */
  function TurboArg(enabled: bool): (v: string)
    ensures v == "0" || v == "1"
    ensures v == "0" <==> enabled
  {
    if enabled == false then "1" else "0"
  }

  /**
   * How `get_tb_state` reads the helper's output, `output.strip() == "0"`: on exactly
   * when the helper printed a single `0` amid nothing but whitespace.
   */
  function TurboEnabled(output: string): (on: bool)
    ensures on <==> exists i :: IsPaddedZero(output, i)
  {
    StripZeroExactly(output);
    Strip(output) == "0"
  }

  /** Reading back what was written gives the state that was written, whatever whitespace the helper adds. */
  lemma TurboRoundTrip(enabled: bool, lead: string, trail: string)
    requires AllSpace(lead) && AllSpace(trail)
    ensures TurboEnabled(lead + TurboArg(enabled) + trail) == enabled
  {
    StripPadded(lead, TurboArg(enabled), trail);
  }

  /** A lone `0` amid whitespace. */
  ghost predicate IsPaddedZero(output: string, i: int) {
    0 <= i < |output| && output[i] == '0' && AllSpace(output[..i]) && AllSpace(output[i + 1..])
  }

  lemma StripZeroHasZero(output: string) returns (i: int)
    requires Strip(output) == "0"
    ensures IsPaddedZero(output, i)
  {
    var t := TrimStart(output);
    i := |output| - |t|;
    var e := TrimEnd(t);
    assert e == "0";
    assert t[..1] == e;
    assert AllSpace(t[1..]);
    assert output[i..] == t;
    assert output[i + 1..] == t[1..];
  }

  lemma PaddedZeroStrips(output: string, i: int)
    requires IsPaddedZero(output, i)
    ensures Strip(output) == "0"
  {
    var lead, trail := output[..i], output[i + 1..];
    assert output == lead + "0" + trail;
    StripPadded(lead, "0", trail);
  }

  /** Text strips to `0` exactly when it is a single `0` amid nothing but whitespace. */
  lemma StripZeroExactly(output: string)
    ensures Strip(output) == "0" <==> exists i :: IsPaddedZero(output, i)
  {
    if Strip(output) == "0" {
      var i := StripZeroHasZero(output);
    }
    if exists i :: IsPaddedZero(output, i) {
      var i :| IsPaddedZero(output, i);
      PaddedZeroStrips(output, i);
    }
  }

  // ---------------------------------------------------------------- percentages

  /** `int(output.strip())` in `get_min_perf_pct` and `get_max_perf_pct`; a non-integer raises. */
  function PerfPct(output: string): (r: Result<int>)
    ensures r.Ok? <==> IsIntLiteral(Strip(output))
    ensures r.Ok? ==> Canon(Strip(output)) == DecimalString(r.value)
    ensures r.Err? ==> r.error == NotAnInteger(Strip(output))
    ensures Strip(output) == "" ==> r.Err?
  {
    var t := Strip(output);
    StripIdempotent(output);
    StrippedStripsIntSpace(output);
    assert Strip(t) == t;
    match PyInt(t)
    case Some(v) => Ok(v)
    case None => Err(NotAnInteger(t))
  }

  /** `str(int(value))` in `set_min_perf_pct` and `set_max_perf_pct`. */
  function PerfPctArg(value: int): (arg: string)
    ensures |arg| > 0 && (arg[0] == '-' <==> value < 0)
    ensures IsCanonicalDigits(if value < 0 then arg[1..] else arg)
    ensures value < 0 ==> arg[1] != '0'
    ensures ParseInt(arg) == Some(value)
  {
    DecimalString(value)
  }

  /** Reading back a written percentage gives the value written, whatever whitespace the helper adds. */
  lemma PerfPctRoundTrip(value: int, lead: string, trail: string)
    requires AllSpace(lead) && AllSpace(trail)
    ensures PerfPct(lead + PerfPctArg(value) + trail) == Ok(value)
  {
    var s := PerfPctArg(value);
    assert !IsSpace(s[0]) && !IsSpace(s[|s| - 1]);
    StripPadded(lead, s, trail);
    IntRoundTrip(value, [], []);
    assert [] + s + [] == s;
    PerfPctOfInt(lead + s + trail, value);
  }

  /** `get_*_perf_pct` returns what `int()` reads from the stripped output. */
  lemma PerfPctOfInt(output: string, value: int)
    requires PyInt(Strip(output)) == Some(value)
    ensures PerfPct(output) == Ok(value)
  {
  }
}
