# CPU power proxy of the cpupower Budgie applet

A Dafny model of `CpuPowerProxy`, the part of the cpupower panel applet that reads and
changes CPU frequency scaling. The proxy runs two external programs:

- `cpupower frequency-info` prints a free-text report. The proxy reads two things from it
  with regular expressions: the current frequency (a number and `MHz` or `GHz`), and
  whether turbo boost is supported.
- `/usr/bin/cpufreqctl` reads and writes three settings: the minimum and maximum
  performance percentage, and turbo. Turbo uses an inverted convention: `"0"` means on.

The proxy keeps one piece of state, `tb_supported`. It starts unset. The first
successful boost probe sets it, and it never changes after that.

The model has six modules:

- `Wrappers` (wrappers.dfy): `Option`, `Result` and `Outcome`, and the three ways the
  proxy raises. Those are a frequency line that is absent, a boost block that is absent,
  and helper output that is not an integer.
- `PyText` (py_text.dfy): the Python builtins the proxy relies on: `str.strip()` (with
  Python's whitespace set), `str.split(' ')`, `int(str)` and `str(int)`.
- `ReSearch` (re_search.dfy): `re.search` as a leftmost search over a matcher for
  one index.
- `FrequencyInfo` (frequency_info.dfy): the two patterns and what they match. Each pattern
  has a matcher that works like the backtracking engine. Each also has an independent
  declarative definition of a match. Lemmas prove the two agree in both directions.
- `Cpufreqctl` (cpufreqctl.dfy): the command lines, the turbo encoding and the
  percentage encoding, with their round trips.
- `CpuPower` (cpupower.dfy): two classes. `Host` is the machine: the report text, the
  helper's stored values (what `<knob> get` prints is the last argument written to that
  knob), and a log of every command run. `CpuPowerProxy` has the `tbSupported` field
  and one method per method of the source. Each method's contract states the result,
  the new cache and the exact commands appended to the log.

## Model

| member | source | states |
|---|---|---|
| `PyText.Strip` | applet/cpupower.py:243 | the stripped text has no whitespace at either end |
| `PyText.TrimStart` | applet/cpupower.py:243 | the result is a suffix of the input, only whitespace was dropped, and it does not start with whitespace |
| `PyText.TrimEnd` | applet/cpupower.py:243 | the result is a prefix of the input, only whitespace was dropped, and it does not end with whitespace |
| `PyText.StripPadded` | applet/cpupower.py:243 | strip removes exactly the surrounding whitespace: a text with non-space ends survives any whitespace padding |
| `PyText.StripIdempotent` | applet/cpupower.py:247-249 | stripping already stripped text changes nothing, so `int()` stripping again after `.strip()` reads the same text |
| `PyText.StrippedStripsIntSpace` | applet/cpupower.py:247-249 | text that `.strip()` has already stripped has no whitespace around it that `int()` could refuse |
| `PyText.Split` | applet/cpupower.py:225 | `split(sep)` gives at least one part, no part holds the separator, and joining the parts restores the text |
| `PyText.SplitTwo` | applet/cpupower.py:225 | two separator-free parts joined by one separator split into exactly those two parts |
| `PyText.ParseInt` | applet/cpupower.py:249 | `int()` accepts a text exactly when it is an optional `+` or `-` followed by digits, with single underscores only between digits |
| `PyText.PyInt` | applet/cpupower.py:249 | `int(s)` succeeds exactly when the stripped text is such a literal and what surrounds it is whitespace `int()` skips (not U+001C to U+001F); then the literal, spelled canonically, is `str()` of the value |
| `PyText.IntRefusesSeparator` | applet/cpupower.py:249 | `str.strip()` removes a leading information separator (U+001C to U+001F) before any text with non-space ends, but `int()` then refuses the text: `"\u001c5".strip()` is `"5"` while `int("\u001c5")` fails |
| `PyText.IntSpacePadded` | applet/cpupower.py:247-249 | around a text with non-space ends, whitespace that `int()` skips is exactly what `strip()` removes, so `int()` accepts the padded text |
| `PyText.ParseIntCanon` | applet/cpupower.py:249 | the value `int()` reads is the number whose `str()` is the literal with its `+`, underscores and leading zeros dropped (and `-0` read as `0`) |
| `PyText.CanonicalDigitsUnique` | applet/cpupower.py:258 | a digit run without a leading zero is `str()` of its own value: each number has one decimal spelling |
| `PyText.NatDigits` | applet/cpupower.py:258 | the decimal digits of a natural number are nonempty, have no leading zero unless the number is the single digit `0`, and are worth the number |
| `PyText.DecimalString` | applet/cpupower.py:258 | `str(n)` has a leading `-` exactly when `n` is negative, then digits with no leading zero (never `-0`), and `int()` reads it back as `n` |
| `PyText.IntRoundTrip` | applet/cpupower.py:249-258 | `int(str(n)) == n`, with any surrounding whitespace that `int()` skips |
| `ReSearch.SearchFrom` | applet/cpupower.py:224 | a match is found at the first index from which the pattern matches, and none is found only when no index matches |
| `ReSearch.Search` | applet/cpupower.py:230 | `re.search` returns the leftmost match in the whole text, or nothing when the pattern matches nowhere |
| `FrequencyInfo.DigitRunEnd` | applet/cpupower.py:224 | the end of the longest digit run: all digits before it, a non-digit or the end of the text at it |
| `FrequencyInfo.UnitAt` | applet/cpupower.py:224 | a space and a unit at an index: a unit preceded by a space when found, and none exactly when neither ` MHz` nor ` GHz` starts there |
| `FrequencyInfo.MatchFreqAt` | applet/cpupower.py:224 | whatever the frequency matcher returns at an index is the prefix, a number token, one space and `MHz` or `GHz` there |
| `FrequencyInfo.MatchNumberAt` | applet/cpupower.py:224 | the number alternatives tried in order: what is returned is a number token followed by a space and a unit at that index |
| `FrequencyInfo.MatchFractionAt` | applet/cpupower.py:224 | the decimal alternative after the integer part: only after a dot, and what is returned is a number token followed by a space and a unit |
| `FrequencyInfo.MatchFreqAtComplete` | applet/cpupower.py:224 | every occurrence of the pattern at an index is found by the matcher with the same groups, so the groups are unique |
| `FrequencyInfo.FreqSearchIsLeftmost` | applet/cpupower.py:224 | the search finds a match no later than any occurrence of the frequency pattern |
| `FrequencyInfo.NumberTokenHasNoSpace` | applet/cpupower.py:224-225 | a number token holds no space, so splitting group 1 at spaces cannot cut it |
| `FrequencyInfo.ParseCurrentFreq` | applet/cpupower.py:222-225 | a failed frequency parse is the missing-line error |
| `FrequencyInfo.ParseCurrentFreqCorrect` | applet/cpupower.py:224-225 | the parse fails iff the pattern occurs nowhere; otherwise it yields exactly two tokens, a number token then `MHz` or `GHz`, the groups of the leftmost occurrence |
| `FrequencyInfo.SampleFrequency` | applet/cpupower.py:224-225 | `current CPU frequency: 1234.5 MHz` reads as `["1234.5", "MHz"]` |
| `FrequencyInfo.MatchBoostAt` | applet/cpupower.py:230 | the boost matcher returns `yes` or `no` exactly when the marker, newline, four spaces and `Supported: ` are followed by that word |
| `FrequencyInfo.ParseTurboSupport` | applet/cpupower.py:229-231 | a failed boost probe is the missing-marker error |
| `FrequencyInfo.ParseTurboSupportCorrect` | applet/cpupower.py:230-231 | the probe fails iff the marker occurs nowhere (it never defaults to unsupported); otherwise support is true iff the leftmost marker is followed by `yes` |
| `FrequencyInfo.SampleBoost` | applet/cpupower.py:230-231 | a `Supported: yes` block reads as supported |
| `Cpufreqctl.ArgvInjective` | applet/cpupower.py:223-261 | distinct commands have distinct argument vectors, except a set to the literal `get` |
| `Cpufreqctl.KnobName` | applet/cpupower.py:238-261 | each knob has its own name, `min`, `max` or `turbo`, none of them `get` |
| `Cpufreqctl.Argv` | applet/cpupower.py:223-261 | `cpupower frequency-info` for the report; `/usr/bin/cpufreqctl`, the knob's name and `get` or the argument for the helper |
| `Cpufreqctl.TurboArg` | applet/cpupower.py:237 | enabling writes `"0"` and disabling writes `"1"` |
| `Cpufreqctl.TurboEnabled` | applet/cpupower.py:243-244 | `output.strip() == "0"`: turbo reads as on iff the helper printed a single `0` with only whitespace around it |
| `Cpufreqctl.TurboRoundTrip` | applet/cpupower.py:237-244 | reading back the written turbo argument, with any whitespace, gives the state that was written |
| `Cpufreqctl.PerfPct` | applet/cpupower.py:247-255 | the reading succeeds exactly when the stripped output is an integer literal, and its value is the number whose `str()` is that literal spelled canonically; otherwise the error carries the stripped text |
| `Cpufreqctl.PerfPctArg` | applet/cpupower.py:257-261 | the argument written is `str(value)`: a `-` exactly for negative values, digits with no leading zero, and `int()` reads it back as the value |
| `Cpufreqctl.PerfPctRoundTrip` | applet/cpupower.py:247-261 | reading back a written percentage, with any whitespace, gives the value written |
| `CpuPower.Host.RunFrequencyInfo` | applet/cpupower.py:223 | returns the report and logs one `frequency-info` run |
| `CpuPower.Host.RunCtlGet` | applet/cpupower.py:243 | returns the knob's stored value and logs one `get` |
| `CpuPower.Host.RunCtlSet` | applet/cpupower.py:238 | stores the argument for that knob only and logs one set |
| `CpuPower.Support` | applet/cpupower.py:227-233 | a cached value is answered as is; without one, the answer fails iff the probe fails |
| `CpuPower.CacheAfter` | applet/cpupower.py:228-233 | a set cache never changes; the cache is set iff the answer succeeded |
| `CpuPower.ProbeCommands` | applet/cpupower.py:228-229 | the probe runs iff nothing is cached |
| `CpuPower.TurboSetCommands` | applet/cpupower.py:236-238 | the turbo set runs only when turbo is supported, and writes `"0"` exactly to enable |
| `CpuPower.TurboGetCommands` | applet/cpupower.py:242-243 | the turbo get runs only when turbo is supported |
| `CpuPower.CacheIsStable` | applet/cpupower.py:220-233 | after a successful probe, later calls give the same answer, keep the same cache and run nothing, whatever the report says by then |
| `CpuPower.FailedProbeIsRetried` | applet/cpupower.py:230-231 | a failed probe leaves the cache unset, so the next call probes again |
| `CpuPower.TurboReading` | applet/cpupower.py:241-244 | the reading fails iff the support check fails, and it is no value iff turbo is unsupported |
| `CpuPower.CpuPowerProxy.constructor` | applet/cpupower.py:220 | the cache starts unset |
| `CpuPower.CpuPowerProxy.GetCurrentFreq` | applet/cpupower.py:222-225 | runs the report once and returns its frequency parse |
| `CpuPower.CpuPowerProxy.IsTbSupported` | applet/cpupower.py:227-233 | answers from the cache; it probes, and may set the cache, only while the cache is unset |
| `CpuPower.CpuPowerProxy.SetTbState` | applet/cpupower.py:235-238 | writes the inverted turbo argument only when turbo is supported; otherwise it leaves the helper untouched and runs no helper command |
| `CpuPower.CpuPowerProxy.GetTbState` | applet/cpupower.py:241-244 | the decoded turbo state when supported; no value, and no helper command, when unsupported; the probe's error when the probe fails |
| `CpuPower.CpuPowerProxy.GetMaxPerfPct` | applet/cpupower.py:246-249 | the integer the helper prints for `max`, or the non-integer error |
| `CpuPower.CpuPowerProxy.GetMinPerfPct` | applet/cpupower.py:251-255 | the integer the helper prints for `min`, or the non-integer error |
| `CpuPower.CpuPowerProxy.SetMinPerfPct` | applet/cpupower.py:257-258 | writes `str(value)` to `min`, unchecked, and changes nothing else |
| `CpuPower.CpuPowerProxy.SetMaxPerfPct` | applet/cpupower.py:260-261 | writes `str(value)` to `max`, unchecked, and changes nothing else |
| `CpuPower.RepeatedSupportCheck` | applet/cpupower.py:227-233 | two support checks in a row, with the report unchanged between them, agree; the second probes again only if the first probe failed, and after a success the answer is cached and nothing more runs |
| `CpuPower.SetThenGetTurbo` | applet/cpupower.py:235-244 | with turbo supported, reading back gives the state just set; with it unsupported, no value |
| `CpuPower.SetThenGetPerfPct` | applet/cpupower.py:246-261 | reading back the minimum and the maximum gives the values just set |

## Left out

- The GTK and Budgie classes `PyShowDesktop` and `CpuPowerApplet` (applet/cpupower.py:32-215) are widget wiring with no logic of their own. This includes the profile radio buttons. Applying a profile there sets the sliders and the switch, whose signal handlers call the proxy's setters; the model has no profile operation because the proxy has none.
- Process failures are left out. `check_output` raises when `cpupower` or `cpufreqctl` is missing or exits non-zero, and `call` ignores the exit code. The `Host` always runs a command successfully.
- UTF-8 decoding of process output is left out: output is modelled as text that is already decoded.
- The helper is an abstract store: `<knob> get` prints the last argument written to that knob. What the real helper does with the kernel's sysfs files is not part of this model.
- The MHz/GHz conversion in `update_ui` (applet/cpupower.py:160-165) is left out because it is floating-point formatting.
- `int(value)` of the slider's float in the setters is left out: the setters take an integer.
- `PyText.ParseInt`: does not accept non-ASCII decimal digits, which Python's `int()` also accepts. The helper prints ASCII.
- `PyText.IntRoundTrip` and `Cpufreqctl.PerfPctRoundTrip` hold for every integer. From CPython 3.11 on, `int()` of a literal with more than 4300 digits and `str()` of such a value raise `ValueError`; the model has no such limit, and percentages are far below it.
- Concurrency is left out. The applet calls the proxy from the GTK main loop only, so two first calls to `is_tb_supported` cannot overlap. `RepeatedSupportCheck` states the sequential version: once a probe has succeeded, no further probe runs.
- `tb_supported` is declared as a class attribute. The first assignment through `self` creates an instance attribute, so the cache is per object. The model keeps it as a field of `CpuPowerProxy`.
- The setters do not range-check, clamp or order `min <= max`; the model follows the code. `SetMinPerfPct` and `SetMaxPerfPct` pass any integer through.
- A failed boost probe is not cached as "unsupported". The exception propagates, the cache stays unset, and the next call probes again; the model follows the code.
- No timeouts are modelled, because the source sets none.
