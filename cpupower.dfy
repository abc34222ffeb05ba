/**
 * `CpuPowerProxy`: the applet's access to CPU frequency scaling.  Every reading runs an
 * external command and parses its output; every setting runs the `cpufreqctl` helper.
 * The only state the proxy keeps is whether turbo boost is supported, probed once.
 */
module CpuPower {
  import opened Wrappers
  import opened PyText
  import opened FrequencyInfo
  import opened Cpufreqctl

  /**
   * The machine as the proxy sees it: what `cpupower frequency-info` prints, what the
   * helper prints for `<knob> get` (the last argument written to that knob), and the
   * log of every command run so far.
   */
  class Host {
    var frequencyInfo: string
    var helper: map<Knob, string>
    var log: seq<Command>

    ghost predicate Valid()
      reads this
    {
      Min in helper && Max in helper && Turbo in helper
    }

    constructor (info: string, minOut: string, maxOut: string, turboOut: string)
      ensures Valid()
      ensures frequencyInfo == info && log == []
      ensures helper[Min] == minOut && helper[Max] == maxOut && helper[Turbo] == turboOut
    {
      frequencyInfo := info;
      helper := map[Min := minOut, Max := maxOut, Turbo := turboOut];
      log := [];
    }

    /** `subprocess.check_output(['cpupower', 'frequency-info'])`. */
    method RunFrequencyInfo() returns (out: string)
      modifies this`log
      ensures out == frequencyInfo
      ensures log == old(log) + [FrequencyInfo]
    {
      out := frequencyInfo;
      log := log + [FrequencyInfo];
    }

    /** `subprocess.check_output(["/usr/bin/cpufreqctl", <knob>, "get"])`. */
    method RunCtlGet(k: Knob) returns (out: string)
      requires Valid()
      modifies this`log
      ensures out == helper[k]
      ensures log == old(log) + [CtlGet(k)]
    {
      out := helper[k];
      log := log + [CtlGet(k)];
    }

    /** `subprocess.call(["/usr/bin/cpufreqctl", <knob>, arg])`. */
    method RunCtlSet(k: Knob, arg: string)
      requires Valid()
      modifies this`helper, this`log
      ensures Valid()
      ensures helper == old(helper)[k := arg]
      ensures log == old(log) + [CtlSet(k, arg)]
    {
      helper := helper[k := arg];
      log := log + [CtlSet(k, arg)];
    }
  }

  // ---------------------------------------------------------------- the turbo-support cache

  /** What `is_tb_supported` answers, given the cached value and what frequency-info prints. */
  function Support(cache: Option<bool>, info: string): (r: Result<bool>)
    ensures cache.Some? ==> r == Ok(cache.value)
    ensures cache.None? ==> (r.Err? <==> ParseTurboSupport(info).Err?)
  {
    if cache.Some? then Ok(cache.value) else ParseTurboSupport(info)
  }

  /** The cached value after `is_tb_supported`: set on the first successful probe, then fixed. */
  function CacheAfter(cache: Option<bool>, info: string): (c: Option<bool>)
    ensures cache.Some? ==> c == cache
    ensures c.Some? <==> Support(cache, info).Ok?
  {
    var r := Support(cache, info);
    if r.Ok? then Some(r.value) else None
  }

  /** The commands `is_tb_supported` runs: the probe, only while nothing is cached. */
  function ProbeCommands(cache: Option<bool>): (cmds: seq<Command>)
    ensures cache.Some? <==> cmds == []
  {
    if cache.None? then [FrequencyInfo] else []
  }

  /**
   * Once a probe has succeeded, every later call answers the same, caches the same and
   * runs nothing, whatever frequency-info would print by then.
   */
  lemma CacheIsStable(cache: Option<bool>, info: string, later: string)
    requires Support(cache, info).Ok?
    ensures Support(CacheAfter(cache, info), later) == Support(cache, info)
    ensures CacheAfter(CacheAfter(cache, info), later) == CacheAfter(cache, info)
    ensures ProbeCommands(CacheAfter(cache, info)) == []
  {
  }

  /** Asking again with the same report gives the same answer, cached or not. */
  lemma SupportIsCached(cache: Option<bool>, info: string)
    ensures Support(CacheAfter(cache, info), info) == Support(cache, info)
  {
  }

  /** A failed probe leaves nothing cached, so the next call probes again. */
  lemma FailedProbeIsRetried(cache: Option<bool>, info: string)
    requires Support(cache, info).Err?
    ensures CacheAfter(cache, info) == None
    ensures ProbeCommands(CacheAfter(cache, info)) == [FrequencyInfo]
  {
  }

  /** The turbo commands `set_tb_state` runs after the support check: one set, only when supported. */
  function TurboSetCommands(support: Result<bool>, enabled: bool): (cmds: seq<Command>)
    ensures cmds == [] <==> support != Ok(true)
    ensures forall c :: c in cmds ==> c.CtlSet? && c.knob == Turbo && (c.arg == "0" <==> enabled)
  {
    if support == Ok(true) then [CtlSet(Turbo, TurboArg(enabled))] else []
  }

  /** The turbo commands `get_tb_state` runs after the support check: one get, only when supported. */
  function TurboGetCommands(support: Result<bool>): (cmds: seq<Command>)
    ensures cmds == [] <==> support != Ok(true)
    ensures forall c :: c in cmds ==> c == CtlGet(Turbo)
  {
    if support == Ok(true) then [CtlGet(Turbo)] else []
  }

  /**
   * What `get_tb_state` returns, given the support check and what the helper prints:
   * the probe's error, the decoded state, or no value when turbo is unsupported.
   */
  function TurboReading(support: Result<bool>, output: string): (r: Result<Option<bool>>)
    ensures r.Err? <==> support.Err?
    ensures r == Ok(None) <==> support == Ok(false)
  {
    if support.Err? then Err(support.error)
    else if support.value then Ok(Some(TurboEnabled(output)))
    else Ok(None)
  }

  // ---------------------------------------------------------------- the proxy

  class CpuPowerProxy {
    /** `tb_supported`: `None` until the first successful probe. */
    var tbSupported: Option<bool>

    constructor ()
      ensures tbSupported == None
    {
      tbSupported := None;
    }

    /** `get_current_freq`: the number and unit of the current frequency, parsed afresh. */
    method GetCurrentFreq(host: Host) returns (r: Result<seq<string>>)
      modifies host`log
      ensures r == ParseCurrentFreq(host.frequencyInfo)
      ensures host.log == old(host.log) + [FrequencyInfo]
    {
      var output := host.RunFrequencyInfo();
      r := ParseCurrentFreq(output);
    }

    /** `is_tb_supported`: probe once, cache the answer, and answer from the cache afterwards. */
    method IsTbSupported(host: Host) returns (r: Result<bool>)
      modifies this`tbSupported, host`log
      ensures r == Support(old(tbSupported), host.frequencyInfo)
      ensures tbSupported == CacheAfter(old(tbSupported), host.frequencyInfo)
      ensures host.log == old(host.log) + ProbeCommands(old(tbSupported))
    {
      if tbSupported.None? {
        var output := host.RunFrequencyInfo();
        var probe := ParseTurboSupport(output);
        if probe.Err? {
          return Err(probe.error);
        }
        tbSupported := Some(probe.value);
      }
      r := Ok(tbSupported.value);
    }

    /** `set_tb_state`: write the inverted turbo argument, only when turbo is supported. */
    method SetTbState(host: Host, enabled: bool) returns (r: Outcome)
      requires host.Valid()
      modifies this`tbSupported, host`helper, host`log
      ensures host.Valid()
      ensures var s := Support(old(tbSupported), host.frequencyInfo);
        && tbSupported == CacheAfter(old(tbSupported), host.frequencyInfo)
        && r == (if s.Err? then Fail(s.error) else Pass)
        && host.helper == (if s == Ok(true) then old(host.helper)[Turbo := TurboArg(enabled)] else old(host.helper))
        && host.log == old(host.log) + ProbeCommands(old(tbSupported)) + TurboSetCommands(s, enabled)
    {
      var supported := IsTbSupported(host);
      if supported.Err? {
        return Fail(supported.error);
      }
      if supported.value {
        host.RunCtlSet(Turbo, TurboArg(enabled));
      }
      r := Pass;
    }

    /** `get_tb_state`: whether turbo is on, or no value (`None`) when turbo is unsupported. */
    method GetTbState(host: Host) returns (r: Result<Option<bool>>)
      requires host.Valid()
      modifies this`tbSupported, host`log
      ensures var s := Support(old(tbSupported), host.frequencyInfo);
        && tbSupported == CacheAfter(old(tbSupported), host.frequencyInfo)
        && r == TurboReading(s, host.helper[Turbo])
        && host.log == old(host.log) + ProbeCommands(old(tbSupported)) + TurboGetCommands(s)
    {
      var supported := IsTbSupported(host);
      if supported.Err? {
        return Err(supported.error);
      }
      if supported.value {
        var output := host.RunCtlGet(Turbo);
        r := Ok(Some(TurboEnabled(output)));
      } else {
        r := Ok(None);
      }
    }

    /** `get_max_perf_pct`. */
    method GetMaxPerfPct(host: Host) returns (r: Result<int>)
      requires host.Valid()
      modifies host`log
      ensures r == PerfPct(host.helper[Max])
      ensures host.log == old(host.log) + [CtlGet(Max)]
    {
      var output := host.RunCtlGet(Max);
      r := PerfPct(output);
    }

    /** `get_min_perf_pct`. */
    method GetMinPerfPct(host: Host) returns (r: Result<int>)
      requires host.Valid()
      modifies host`log
      ensures r == PerfPct(host.helper[Min])
      ensures host.log == old(host.log) + [CtlGet(Min)]
    {
      var output := host.RunCtlGet(Min);
      r := PerfPct(output);
    }

    /** `set_min_perf_pct`: no range check, the value goes to the helper as it is. */
    method SetMinPerfPct(host: Host, value: int)
      requires host.Valid()
      modifies host`helper, host`log
      ensures host.Valid()
      ensures host.helper == old(host.helper)[Min := PerfPctArg(value)]
      ensures host.log == old(host.log) + [CtlSet(Min, PerfPctArg(value))]
    {
      host.RunCtlSet(Min, PerfPctArg(value));
    }

    /** `set_max_perf_pct`: no range check, the value goes to the helper as it is. */
    method SetMaxPerfPct(host: Host, value: int)
      requires host.Valid()
      modifies host`helper, host`log
      ensures host.Valid()
      ensures host.helper == old(host.helper)[Max := PerfPctArg(value)]
      ensures host.log == old(host.log) + [CtlSet(Max, PerfPctArg(value))]
    {
      host.RunCtlSet(Max, PerfPctArg(value));
    }
  }

  // ---------------------------------------------------------------- what callers can rely on

  lemma PerfPctReadsBack(value: int)
    ensures PerfPct(PerfPctArg(value)) == Ok(value)
  {
    var arg := PerfPctArg(value);
    assert [] + arg + [] == arg;
    PerfPctRoundTrip(value, [], []);
  }

  lemma TurboReadsBack(support: Result<bool>, enabled: bool)
    ensures support == Ok(true) ==> TurboReading(support, TurboArg(enabled)) == Ok(Some(enabled))
  {
    TurboRoundTrip(enabled, [], []);
    assert [] + TurboArg(enabled) + [] == TurboArg(enabled);
  }

  /**
   * Two support checks in a row, with the report unchanged between them, agree. The
   * second probes again only when the first probe failed; once a probe has succeeded,
   * its answer is cached and nothing more runs. `FailedProbeIsRetried` and
   * `CacheIsStable` cover a report that changes between the calls.
   */
  method RepeatedSupportCheck(proxy: CpuPowerProxy, host: Host) returns (first: Result<bool>, second: Result<bool>)
    modifies proxy, host
    ensures second == first
    ensures first.Ok? ==> proxy.tbSupported == Some(first.value)
    ensures first.Err? ==> proxy.tbSupported == None
    ensures host.log == old(host.log) + ProbeCommands(old(proxy.tbSupported)) +
      ProbeCommands(CacheAfter(old(proxy.tbSupported), old(host.frequencyInfo)))
    ensures first.Ok? ==> |host.log| <= |old(host.log)| + 1
    ensures old(proxy.tbSupported).Some? ==> host.log == old(host.log)
  {
    first := proxy.IsTbSupported(host);
    second := proxy.IsTbSupported(host);
  }

  /** Where turbo is supported, reading the turbo state back gives the state just set. */
  method SetThenGetTurbo(proxy: CpuPowerProxy, host: Host, enabled: bool) returns (r: Result<Option<bool>>)
    requires host.Valid()
    modifies proxy, host
    ensures Support(old(proxy.tbSupported), host.frequencyInfo) == Ok(true) ==> r == Ok(Some(enabled))
    ensures Support(old(proxy.tbSupported), host.frequencyInfo) == Ok(false) ==> r == Ok(None)
  {
    ghost var info := host.frequencyInfo;
    ghost var s := Support(proxy.tbSupported, info);
    SupportIsCached(proxy.tbSupported, info);
    TurboReadsBack(s, enabled);
    var _ := proxy.SetTbState(host, enabled);
    assert Support(proxy.tbSupported, info) == s;
    assert s == Ok(true) ==> host.helper[Turbo] == TurboArg(enabled);
    r := proxy.GetTbState(host);
  }

  /** Reading a percentage back gives the value just set, whether it is the minimum or the maximum. */
  method SetThenGetPerfPct(proxy: CpuPowerProxy, host: Host, minValue: int, maxValue: int)
    returns (min: Result<int>, max: Result<int>)
    requires host.Valid()
    modifies host
    ensures min == Ok(minValue) && max == Ok(maxValue)
  {
    proxy.SetMaxPerfPct(host, maxValue);
    proxy.SetMinPerfPct(host, minValue);
    ghost var minArg, maxArg := host.helper[Min], host.helper[Max];
    assert minArg == PerfPctArg(minValue) && maxArg == PerfPctArg(maxValue);
    min := proxy.GetMinPerfPct(host);
    max := proxy.GetMaxPerfPct(host);
    assert min == PerfPct(minArg) && max == PerfPct(maxArg);
    PerfPctReadsBack(minValue);
    PerfPctReadsBack(maxValue);
  }
}
