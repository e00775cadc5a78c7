/**
  src/utils.ts: preparing the npm environment (configure, rebuild when a
  node_modules folder is present, install the declared packages, with phase
  metrics), suite environment substitution and XML escaping.
 */
module UtilsTs {
  import opened Wrappers
  import opened JsValues
  import opened Paths
  import opened Host
  import opened RunnerUtils

  /** The fixed defaults setUpNpmConfig lays the user's config over. */
  function DefaultNpmConfig(env: Env): map<string, JsValue> {
    map[
      "json" := Bool(false),
      "save" := Bool(false),
      "audit" := Bool(false),
      "rollback" := Bool(false),
      "fund" := Bool(false),
      "noproxy" := Str("registry.npmjs.org"),
      "cafile" := if EnvSet(env, "CA_FILE") then Str(env["CA_FILE"]) else Null,
      "package-lock" := Bool(false),
      "strict-ssl" := Bool(true),
      "registry" := Str(DefaultRegistry(env))
    ]
  }

  /** `Object.assign({}, defaultConfig, userConfig)`: the map npm is configured with. */
  function EffectiveNpmConfig(userConfig: map<string, JsValue>, env: Env): map<string, JsValue> {
    DefaultNpmConfig(env) + userConfig
  }

  /** Every user key overrides the default; every default key the user did not supply keeps its value. */
  lemma UserConfigOverridesDefaults(userConfig: map<string, JsValue>, env: Env)
    ensures var r := EffectiveNpmConfig(userConfig, env);
      && r.Keys == DefaultNpmConfig(env).Keys + userConfig.Keys
      && (forall k :: k in userConfig ==> r[k] == userConfig[k])
      && (forall k :: k in DefaultNpmConfig(env) && k !in userConfig ==> r[k] == DefaultNpmConfig(env)[k])
  {
  }

  /** setUpNpmConfig. */
  method SetUpNpmConfig(host: Host, userConfig: map<string, JsValue>, env: Env)
    modifies host
    ensures host.trace == old(host.trace) + [Configure(EffectiveNpmConfig(userConfig, env))]
  {
    var defaultConfig := DefaultNpmConfig(env);
    host.NpmConfigure(defaultConfig + userConfig);
  }

  /** With no `npm` section npm gets the defaults: strict SSL, no package lock, the default registry. */
  lemma ConfigureWithoutNpmSection(env: Env)
    ensures var config := EffectiveNpmConfig(GetNpmConfig(NpmUndefined, env).value, env);
      && config["strict-ssl"] == Bool(true)
      && config["package-lock"] == Bool(false)
      && config["registry"] == Str(DefaultRegistry(env))
      && config["noproxy"] == Str("registry.npmjs.org")
  {
  }

  /** installNpmDependencies: hands npm the package object. */
  method InstallNpmDependencies(host: Host, packageList: seq<(string, string)>)
    modifies host
    ensures host.trace == old(host.trace) + [InstallPackages(packageList)]
  {
    host.NpmInstallPackages(packageList);
  }

  /** Where hasNodeModulesFolder looks: nowhere when the project folder is HOME outside a VM. */
  function NodeModulesProbe(path: string, env: Env): Option<string> {
    var projectFolder := Dirname(path);
    if !EnvSet(env, "SAUCE_VM") && EnvGet(env, "HOME") == Some(projectFolder) then None
    else Some(NodeModulesPath(path))
  }

  /** What hasNodeModulesFolder answers. */
  predicate NodeModulesPresent(path: string, env: Env, disk: string -> StatResult) {
    var probe := NodeModulesProbe(path, env);
    probe.Some? && IsDirectoryAt(disk, probe.value)
  }

  /** hasNodeModulesFolder. */
  method HasNodeModulesFolder(host: Host, runCfg: RunConfig, env: Env) returns (present: bool)
    modifies host
    ensures present == NodeModulesPresent(runCfg.path, env, host.disk)
    ensures host.trace == old(host.trace) + ProbeEvents(NodeModulesProbe(runCfg.path, env))
  {
    var projectFolder := Dirname(runCfg.path);
    if !EnvSet(env, "SAUCE_VM") && EnvGet(env, "HOME") == Some(projectFolder) {
      return false;
    }
    var nodeModulePath := Join(projectFolder, "node_modules");
    var st := host.StatPath(nodeModulePath);
    present := st.Stats? && st.isDirectory;
  }

  /** Outside a VM, a project in HOME never has node_modules; otherwise the answer is whether a stat finds a directory. */
  lemma NodeModulesHomeGuard(path: string, env: Env, disk: string -> StatResult)
    ensures !EnvSet(env, "SAUCE_VM") && EnvGet(env, "HOME") == Some(Dirname(path)) ==>
      !NodeModulesPresent(path, env, disk)
    ensures EnvSet(env, "SAUCE_VM") || EnvGet(env, "HOME") != Some(Dirname(path)) ==>
      (NodeModulesPresent(path, env, disk) <==> IsDirectoryAt(disk, NodeModulesPath(path)))
    ensures disk(NodeModulesPath(path)).StatFailed? ==> !NodeModulesPresent(path, env, disk)
  {
  }

  /** What prepareNpmEnv does: check node_modules, configure, rebuild if present, install if packages are declared. */
  function PlanTs(runCfg: RunConfig, env: Env, disk: string -> StatResult, times: PhaseTimes): Run {
    var probed := ProbeEvents(NodeModulesProbe(runCfg.path, env));
    var present := NodeModulesPresent(runCfg.path, env, disk);
    match GetNpmConfig(runCfg.npm, env)
    case Err(e) => Run(probed, Err(e))
    case Ok(npmConfig) =>
      var packages := PackageEntries(runCfg.npm);
      var rebuild := if present then [Rebuild(RebuildArgs(Dirname(runCfg.path)))] else [];
      var install := if packages == [] then [] else [InstallPackages(StringifyVersions(packages))];
      Run(probed + ([Configure(EffectiveNpmConfig(npmConfig, env))] + rebuild + install),
          Ok(NpmMetrics(METRICS_NAME, Some(times.setup),
                        if present then Some(times.rebuild) else None,
                        Some(if packages == [] then 0 else times.install))))
  }

  /** prepareNpmEnv. */
  method PrepareNpmEnv(host: Host, runCfg: RunConfig, env: Env, times: PhaseTimes)
    returns (r: Result<NpmMetrics, Thrown>)
    modifies host
    ensures var run := PlanTs(runCfg, env, host.disk, times);
      host.trace == old(host.trace) + run.events && r == run.outcome
  {
    var npmMetrics := NpmMetrics(METRICS_NAME, Some(0), None, Some(0));
    var packageList := PackageEntries(runCfg.npm);

    var nodeModulesPresent := HasNodeModulesFolder(host, runCfg, env);
    ghost var probed := ProbeEvents(NodeModulesProbe(runCfg.path, env));

    var npmConfig := GetNpmConfig(runCfg.npm, env);
    if npmConfig.Err? {
      return Err(npmConfig.error);
    }
    SetUpNpmConfig(host, npmConfig.value, env);
    npmMetrics := npmMetrics.(setup := Some(times.setup));
    ghost var configure := [Configure(EffectiveNpmConfig(npmConfig.value, env))];

    ghost var rebuild: seq<Event> := [];
    if nodeModulesPresent {
      var projectPath := Dirname(runCfg.path);
      RebuildNpmDependencies(host, projectPath);
      npmMetrics := npmMetrics.(rebuild := Some(times.rebuild));
      rebuild := [Rebuild(RebuildArgs(projectPath))];
    }
    assert host.trace == old(host.trace) + probed + configure + rebuild;
    PlanTsEvents(runCfg, env, host.disk, times);

    if |packageList| == 0 {
      TraceSteps(old(host.trace), probed, configure, rebuild, []);
      return Ok(npmMetrics);
    }

    var fixedPackageList := StringifyVersions(packageList);
    InstallNpmDependencies(host, fixedPackageList);
    npmMetrics := npmMetrics.(install := Some(times.install));
    TraceSteps(old(host.trace), probed, configure, rebuild, [InstallPackages(fixedPackageList)]);
    return Ok(npmMetrics);
  }

  /** prepareNpmEnv throws only for `npm: null`, and then calls npm not at all. */
  lemma PlanTsThrowsOnlyForNullNpm(runCfg: RunConfig, env: Env, disk: string -> StatResult, times: PhaseTimes)
    ensures var run := PlanTs(runCfg, env, disk, times);
      && (run.outcome.Err? <==> runCfg.npm.NpmNull?)
      && (run.outcome.Err? ==> NpmCalls(run.events) == [])
  {
    var run := PlanTs(runCfg, env, disk, times);
    if run.outcome.Err? {
      assert NpmCalls([]) == [];
    }
  }

  /** The event sequence of PlanTs when it does not throw: the stat, then configure and the remaining npm calls. */
  lemma PlanTsEvents(runCfg: RunConfig, env: Env, disk: string -> StatResult, times: PhaseTimes)
    requires !runCfg.npm.NpmNull?
    ensures PlanTs(runCfg, env, disk, times).events
      == ProbeEvents(NodeModulesProbe(runCfg.path, env))
         + ([Configure(EffectiveNpmConfig(GetNpmConfig(runCfg.npm, env).value, env))]
            + (if NodeModulesPresent(runCfg.path, env, disk) then [Rebuild(RebuildArgs(Dirname(runCfg.path)))] else [])
            + (if PackageEntries(runCfg.npm) == [] then [] else [InstallPackages(StringifyVersions(PackageEntries(runCfg.npm)))]))
  {
  }

  /** The npm calls when it does not throw: configure, then a rebuild if detected, then an install if any packages. */
  lemma PlanTsNpmCalls(runCfg: RunConfig, env: Env, disk: string -> StatResult, times: PhaseTimes)
    requires !runCfg.npm.NpmNull?
    ensures NpmCalls(PlanTs(runCfg, env, disk, times).events)
      == [Configure(EffectiveNpmConfig(GetNpmConfig(runCfg.npm, env).value, env))]
         + (if NodeModulesPresent(runCfg.path, env, disk) then [Rebuild(RebuildArgs(Dirname(runCfg.path)))] else [])
         + (if PackageEntries(runCfg.npm) == [] then [] else [InstallPackages(StringifyVersions(PackageEntries(runCfg.npm)))])
  {
    var probed := ProbeEvents(NodeModulesProbe(runCfg.path, env));
    var packages := PackageEntries(runCfg.npm);
    var configure := Configure(EffectiveNpmConfig(GetNpmConfig(runCfg.npm, env).value, env));
    var rebuild := if NodeModulesPresent(runCfg.path, env, disk) then [Rebuild(RebuildArgs(Dirname(runCfg.path)))] else [];
    var install := if packages == [] then [] else [InstallPackages(StringifyVersions(packages))];
    PlanTsEvents(runCfg, env, disk, times);
    NpmCallsAfterStats(probed, [configure] + rebuild + install);
  }

  /** npm is configured exactly once, before any other npm call. */
  lemma PlanTsConfiguresOnceFirst(runCfg: RunConfig, env: Env, disk: string -> StatResult, times: PhaseTimes)
    requires !runCfg.npm.NpmNull?
    ensures var calls := NpmCalls(PlanTs(runCfg, env, disk, times).events);
      && |calls| >= 1
      && calls[0] == Configure(EffectiveNpmConfig(GetNpmConfig(runCfg.npm, env).value, env))
      && (forall i :: 1 <= i < |calls| ==> !calls[i].Configure?)
  {
    PlanTsNpmCalls(runCfg, env, disk, times);
  }

  /** When node_modules is looked for, the stat comes first and configure right after it. */
  lemma PlanTsStatBeforeConfigure(runCfg: RunConfig, env: Env, disk: string -> StatResult, times: PhaseTimes)
    requires !runCfg.npm.NpmNull?
    requires NodeModulesProbe(runCfg.path, env).Some?
    ensures var events := PlanTs(runCfg, env, disk, times).events;
      |events| >= 2 && events[0] == Stat(NodeModulesPath(runCfg.path)) && events[1].Configure?
  {
    PlanTsEvents(runCfg, env, disk, times);
  }

  /** npm rebuilds, with `--prefix <project folder>`, exactly when node_modules was detected. */
  lemma PlanTsRebuildsIffPresent(runCfg: RunConfig, env: Env, disk: string -> StatResult, times: PhaseTimes)
    requires !runCfg.npm.NpmNull?
    ensures var run := PlanTs(runCfg, env, disk, times);
      && ((exists e :: e in run.events && e.Rebuild?) <==> NodeModulesPresent(runCfg.path, env, disk))
      && (forall e :: e in run.events && e.Rebuild? ==> e == Rebuild(["--prefix", Dirname(runCfg.path)]))
  {
    if NodeModulesPresent(runCfg.path, env, disk) {
      assert Rebuild(RebuildArgs(Dirname(runCfg.path))) in PlanTs(runCfg, env, disk, times).events;
    }
  }

  /** npm installs exactly when packages are declared, each version as a string, in entry order. */
  lemma PlanTsInstallsIffPackages(runCfg: RunConfig, env: Env, disk: string -> StatResult, times: PhaseTimes)
    requires !runCfg.npm.NpmNull?
    ensures var run := PlanTs(runCfg, env, disk, times);
      var packages := PackageEntries(runCfg.npm);
      && ((exists e :: e in run.events && e.InstallPackages?) <==> packages != [])
      && (forall e :: e in run.events && e.InstallPackages? ==>
            |e.packages| == |packages|
            && forall i :: 0 <= i < |packages| ==> e.packages[i] == (packages[i].0, ToString(packages[i].1)))
      && (forall e :: e in run.events ==> !e.Install?)
  {
    var packages := PackageEntries(runCfg.npm);
    var events := PlanTs(runCfg, env, disk, times).events;
    var head := [Configure(EffectiveNpmConfig(GetNpmConfig(runCfg.npm, env).value, env))]
      + (if NodeModulesPresent(runCfg.path, env, disk) then [Rebuild(RebuildArgs(Dirname(runCfg.path)))] else []);
    var install := if packages == [] then [] else [InstallPackages(StringifyVersions(packages))];
    PlanTsEvents(runCfg, env, disk, times);
    assert events == ProbeEvents(NodeModulesProbe(runCfg.path, env)) + (head + install);
    forall e | e in events
      ensures e.InstallPackages? ==> e in install
      ensures !e.Install?
    {
    }
    if packages != [] {
      assert InstallPackages(StringifyVersions(packages)) in events;
    }
  }

  /** The metrics: always `setup` and `install` (0 when nothing was installed), `rebuild` only after a rebuild. */
  lemma PlanTsMetrics(runCfg: RunConfig, env: Env, disk: string -> StatResult, times: PhaseTimes)
    requires !runCfg.npm.NpmNull?
    ensures var m := PlanTs(runCfg, env, disk, times).outcome;
      && m.Ok?
      && m.value.name == "npm_metrics.json"
      && m.value.setup == Some(times.setup)
      && m.value.install.Some?
      && (PackageEntries(runCfg.npm) == [] ==> m.value.install == Some(0))
      && (m.value.rebuild.Some? <==> NodeModulesPresent(runCfg.path, env, disk))
  {
  }

  /** One character of escapeXML. */
  function EscapeChar(c: char): string {
    match c
    case '<' => "&lt;"
    case '>' => "&gt;"
    case '&' => "&amp;"
    case '\'' => "&apos;"
    case '"' => "&quot;"
    case _ => [c]
  }

  predicate IsMarkup(c: char) {
    c == '<' || c == '>' || c == '&' || c == '\'' || c == '"'
  }

  /** escapeXML: every markup character replaced by its entity; the result holds no `<`, `>`, quote or apostrophe. */
  function EscapeXml(val: string): (r: string)
    ensures forall i :: 0 <= i < |r| ==> r[i] != '<' && r[i] != '>' && r[i] != '\'' && r[i] != '"'
  {
    if val == [] then "" else EscapeChar(val[0]) + EscapeXml(val[1..])
  }

  /** Escaping works character by character. */
  lemma {:induction false} EscapeXmlAppend(a: string, b: string)
    ensures EscapeXml(a + b) == EscapeXml(a) + EscapeXml(b)
  {
    if a == [] {
      assert a + b == b;
    } else {
      assert (a + b)[1..] == a[1..] + b;
      EscapeXmlAppend(a[1..], b);
    }
  }

  /** A string without markup characters is left as it is. */
  lemma {:induction false} EscapeXmlPlain(val: string)
    requires forall i :: 0 <= i < |val| ==> !IsMarkup(val[i])
    ensures EscapeXml(val) == val
  {
    if val != [] {
      EscapeXmlPlain(val[1..]);
    }
  }

  /** Decoding the five entities (the inverse of escapeXML). */
  function UnescapeXml(s: string): string
    decreases |s|
  {
    if s == [] then ""
    else if StartsWith(s, "&lt;") then "<" + UnescapeXml(s[4..])
    else if StartsWith(s, "&gt;") then ">" + UnescapeXml(s[4..])
    else if StartsWith(s, "&amp;") then "&" + UnescapeXml(s[5..])
    else if StartsWith(s, "&apos;") then "'" + UnescapeXml(s[6..])
    else if StartsWith(s, "&quot;") then "\"" + UnescapeXml(s[6..])
    else [s[0]] + UnescapeXml(s[1..])
  }

  /** Decoding an escaped character gives the character back. */
  lemma UnescapeEscapedChar(c: char, rest: string)
    ensures UnescapeXml(EscapeChar(c) + rest) == [c] + UnescapeXml(rest)
  {
    if IsMarkup(c) {
      UnescapeMarkupChar(c, rest);
    } else {
      var e := EscapeChar(c) + rest;
      assert e[0] == c && e[1..] == rest;
      assert !StartsWith(e, "&lt;") && !StartsWith(e, "&gt;") && !StartsWith(e, "&amp;")
        && !StartsWith(e, "&apos;") && !StartsWith(e, "&quot;") by {
        assert e[0] != '&';
      }
    }
  }

  /** Decoding the entity of a markup character gives the character back. */
  lemma UnescapeMarkupChar(c: char, rest: string)
    requires IsMarkup(c)
    ensures UnescapeXml(EscapeChar(c) + rest) == [c] + UnescapeXml(rest)
  {
    var e := EscapeChar(c) + rest;
    if c == '<' {
      UnescapeEntity(e, "&lt;", rest);
    } else if c == '>' {
      assert e[..4] == "&gt;" && e[4..] == rest;
      assert e[..4] != "&lt;";
    } else if c == '&' {
      assert e[..5] == "&amp;" && e[5..] == rest;
      assert e[..4][1] == 'a';
    } else if c == '\'' {
      assert e[..6] == "&apos;" && e[6..] == rest;
      assert e[..4][1] == 'a' && e[..5][2] == 'p';
    } else {
      assert e[..6] == "&quot;" && e[6..] == rest;
      assert e[..4][1] == 'q' && e[..5][1] == 'q' && e[..6][1] == 'q';
    }
  }

  lemma UnescapeEntity(e: string, entity: string, rest: string)
    requires e == entity + rest
    ensures e[..|entity|] == entity && e[|entity|..] == rest
  {
  }

  /** escapeXML loses nothing: decoding the entities gives the input back. */
  lemma {:induction false} EscapeXmlRoundTrip(val: string)
    ensures UnescapeXml(EscapeXml(val)) == val
  {
    if val != [] {
      EscapeXmlRoundTrip(val[1..]);
      UnescapeEscapedChar(val[0], EscapeXml(val[1..]));
      assert val == [val[0]] + val[1..];
    }
  }

  /** `$NAME` becomes process env NAME when that is set and non-empty; anything else stays. */
  function ExpandTs(value: string, processEnv: Env): string {
    var expectedValue := EnvGet(processEnv, Drop1(value));
    if StartsWith(value, "$") && expectedValue.Some? && expectedValue.value != "" then expectedValue.value
    else value
  }

  /** Each value substituted once, from the merged suite environment. */
  function ExpandAllTs(env: map<string, string>, processEnv: Env): map<string, string> {
    map name | name in env :: ExpandTs(env[name], processEnv)
  }

  /** The loop's progress: names still pending keep their merged value, the others are substituted. */
  function PartlyExpandedTs(env: map<string, string>, pending: set<string>, processEnv: Env): map<string, string> {
    map name | name in env :: if name in pending then env[name] else ExpandTs(env[name], processEnv)
  }

  /** Substituting one more pending name advances the loop's progress by that name. */
  lemma ExpandOneTs(env: map<string, string>, pending: set<string>, name: string, processEnv: Env)
    requires name in pending && name in env
    ensures PartlyExpandedTs(env, pending, processEnv)[name := ExpandTs(env[name], processEnv)]
      == PartlyExpandedTs(env, pending - {name}, processEnv)
  {
  }

  /** getEnv's loop: each `$NAME` value whose variable is set and non-empty is replaced, in place. */
  method ExpandReferences(merged: map<string, string>, processEnv: Env) returns (env: map<string, string>)
    ensures env == ExpandAllTs(merged, processEnv)
  {
    env := merged;
    assert PartlyExpandedTs(merged, merged.Keys, processEnv) == merged;
    var pending := env.Keys;
    while pending != {}
      invariant pending <= merged.Keys
      invariant env == PartlyExpandedTs(merged, pending, processEnv)
      decreases pending
    {
      var name :| name in pending;
      var value := env[name];
      ExpandOneTs(merged, pending, name, processEnv);
      var expectedValue := EnvGet(processEnv, Drop1(value));
      if StartsWith(value, "$") && expectedValue.Some? && expectedValue.value != "" {
        env := env[name := expectedValue.value];
      } else {
        assert env == env[name := value];
      }
      pending := pending - {name};
    }
    assert PartlyExpandedTs(merged, {}, processEnv) == ExpandAllTs(merged, processEnv);
  }

  /** getEnv: `config.env` over `env`, then one substitution pass. */
  method GetEnv(suite: Suite, processEnv: Env) returns (env: map<string, string>)
    ensures env == ExpandAllTs(MergedEnv(suite), processEnv)
  {
    env := map[];
    if suite.env.Some? {
      env := env + suite.env.value;
    }
    if suite.configEnv.Some? {
      env := env + suite.configEnv.value;
    }
    env := ExpandReferences(env, processEnv);
  }

  /** A value changes only when it is `$NAME` with NAME set and non-empty, and then becomes NAME's value, unexpanded. */
  lemma ExpandTsReplacesOnlySetReferences(value: string, processEnv: Env)
    ensures ExpandTs(value, processEnv) != value ==>
      |value| >= 1 && value[0] == '$' && EnvSet(processEnv, value[1..])
      && ExpandTs(value, processEnv) == processEnv[value[1..]]
    ensures |value| >= 1 && value[0] == '$' && EnvSet(processEnv, value[1..]) ==>
      ExpandTs(value, processEnv) == processEnv[value[1..]]
    ensures |value| >= 1 && value[0] == '$' && !EnvSet(processEnv, value[1..]) ==>
      ExpandTs(value, processEnv) == value
  {
  }
}
