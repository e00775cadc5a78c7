/**
  src/utils.js, the older variant of src/utils.ts. It differs in five ways:
  prepareNpmEnv returns at once, with empty metrics, when no packages are
  declared; it configures npm (`npm.load`) before checking for node_modules;
  it installs with one `name@version` argument per package; hasNodeModulesFolder
  reads `process.SAUCE_VM`, which is never set, instead of the environment; and
  getEnv replaces every `$NAME` value, with `undefined` when NAME is unset.
 */
module UtilsJs {
  import opened Wrappers
  import opened JsValues
  import opened Paths
  import opened Host
  import opened RunnerUtils
  import UtilsTs

  /** The fixed defaults setUpNpmConfig lays the user's config over (with `retry`). */
  function DefaultNpmConfig(env: Env): map<string, JsValue> {
    map[
      "retry" := Obj(map["retries" := Num(3)]),
      "json" := Bool(false),
      "save" := Bool(false),
      "audit" := Bool(false),
      "rollback" := Bool(false),
      "fund" := Bool(false),
      "noproxy" := Str("registry.npmjs.org"),
      "cafile" := if EnvSet(env, "CA_FILE") then Str(env["CA_FILE"]) else Null,
      "package-lock" := Bool(false),
      "strict-ssl" := Bool(true),
      "registry" := Str(DefaultRegistry(env))
    ]
  }

  /** `Object.assign({}, defaultConfig, userConfig)`: the map npm is loaded with. */
  function EffectiveNpmConfig(userConfig: map<string, JsValue>, env: Env): map<string, JsValue> {
    DefaultNpmConfig(env) + userConfig
  }

  /** Every user key overrides the default; every default key the user did not supply keeps its value. */
  lemma UserConfigOverridesDefaults(userConfig: map<string, JsValue>, env: Env)
    ensures var r := EffectiveNpmConfig(userConfig, env);
      && r.Keys == DefaultNpmConfig(env).Keys + userConfig.Keys
      && (forall k :: k in userConfig ==> r[k] == userConfig[k])
      && (forall k :: k in DefaultNpmConfig(env) && k !in userConfig ==> r[k] == DefaultNpmConfig(env)[k])
  {
  }

  /** setUpNpmConfig: `npm.load` with the merged config. */
  method SetUpNpmConfig(host: Host, userConfig: map<string, JsValue>, env: Env)
    modifies host
    ensures host.trace == old(host.trace) + [Configure(EffectiveNpmConfig(userConfig, env))]
  {
    var defaultConfig := DefaultNpmConfig(env);
    host.NpmConfigure(defaultConfig + userConfig);
  }

  /** The `name@version` tokens npm install is given, one per package entry. */
  function PackageTokens(packages: seq<(string, JsValue)>): seq<string> {
    seq(|packages|, i requires 0 <= i < |packages| => packages[i].0 + "@" + ToString(packages[i].1))
  }

  /** The tokens are the entries the TypeScript version installs, each pair joined by `@`. */
  lemma PackageTokensJoinStringified(packages: seq<(string, JsValue)>)
    ensures |PackageTokens(packages)| == |StringifyVersions(packages)| == |packages|
    ensures forall i :: 0 <= i < |packages| ==>
      PackageTokens(packages)[i] == StringifyVersions(packages)[i].0 + "@" + StringifyVersions(packages)[i].1
  {
  }

  /** Each token splits back at the `@` after the name into the name and `String(version)`. */
  lemma PackageTokenDecodes(packages: seq<(string, JsValue)>, i: nat)
    requires i < |packages|
    ensures var token := PackageTokens(packages)[i];
      var name := packages[i].0;
      && |token| > |name|
      && token[..|name|] == name
      && token[|name|] == '@'
      && token[|name| + 1..] == ToString(packages[i].1)
  {
    var name := packages[i].0;
    var token := PackageTokens(packages)[i];
    assert token == name + ("@" + ToString(packages[i].1));
  }

  /** installNpmDependencies: `npm.install(...packageList)`. */
  method InstallNpmDependencies(host: Host, packageList: seq<string>)
    modifies host
    ensures host.trace == old(host.trace) + [Install(packageList)]
  {
    host.NpmInstall(packageList);
  }

  /**
    Where hasNodeModulesFolder looks. The guard reads `process.SAUCE_VM`, a
    property of the process object that is never set, so it is always
    negated to true and only the HOME comparison decides.
   */
  function NodeModulesProbe(path: string, env: Env): Option<string> {
    var projectFolder := Dirname(path);
    if EnvGet(env, "HOME") == Some(projectFolder) then None
    else Some(NodeModulesPath(path))
  }

  /** What hasNodeModulesFolder answers. */
  predicate NodeModulesPresent(path: string, env: Env, disk: string -> StatResult) {
    var probe := NodeModulesProbe(path, env);
    probe.Some? && IsDirectoryAt(disk, probe.value)
  }

  /** hasNodeModulesFolder. */
  method HasNodeModulesFolder(host: Host, runCfg: RunConfig, env: Env) returns (present: bool)
    modifies host
    ensures present == NodeModulesPresent(runCfg.path, env, host.disk)
    ensures host.trace == old(host.trace) + ProbeEvents(NodeModulesProbe(runCfg.path, env))
  {
    var projectFolder := Dirname(runCfg.path);
    var processSauceVm := Undefined;
    if !Truthy(processSauceVm) && EnvGet(env, "HOME") == Some(projectFolder) {
      return false;
    }
    var nodeModulePath := Join(projectFolder, "node_modules");
    var st := host.StatPath(nodeModulePath);
    present := st.Stats? && st.isDirectory;
  }

  /** A project in HOME never has node_modules, even inside a VM; here the TypeScript version would look. */
  lemma NodeModulesHomeGuardIgnoresVm(path: string, env: Env, disk: string -> StatResult)
    ensures EnvGet(env, "HOME") == Some(Dirname(path)) ==> !NodeModulesPresent(path, env, disk)
    ensures EnvGet(env, "HOME") != Some(Dirname(path)) ==>
      (NodeModulesPresent(path, env, disk) <==> IsDirectoryAt(disk, NodeModulesPath(path)))
    ensures (EnvSet(env, "SAUCE_VM") && EnvGet(env, "HOME") == Some(Dirname(path))
             && IsDirectoryAt(disk, NodeModulesPath(path))) ==>
      UtilsTs.NodeModulesPresent(path, env, disk) && !NodeModulesPresent(path, env, disk)
  {
  }

  /** What prepareNpmEnv does: nothing without packages; else configure, check node_modules, rebuild if present, install. */
  function PlanJs(runCfg: RunConfig, env: Env, disk: string -> StatResult, times: PhaseTimes): Run {
    var npmPackages := PackageTokens(PackageEntries(runCfg.npm));
    if npmPackages == [] then Run([], Ok(NpmMetrics(METRICS_NAME, None, None, None)))
    else
      var npmConfig := GetNpmConfig(runCfg.npm, env).value;
      var present := NodeModulesPresent(runCfg.path, env, disk);
      var rebuild := if present then [Rebuild(RebuildArgs(Dirname(runCfg.path)))] else [];
      Run([Configure(EffectiveNpmConfig(npmConfig, env))]
            + (ProbeEvents(NodeModulesProbe(runCfg.path, env)) + (rebuild + [Install(npmPackages)])),
          Ok(NpmMetrics(METRICS_NAME, Some(times.setup),
                        if present then Some(times.rebuild) else None,
                        Some(times.install))))
  }

  /** prepareNpmEnv. */
  method PrepareNpmEnv(host: Host, runCfg: RunConfig, env: Env, times: PhaseTimes)
    returns (r: Result<NpmMetrics, Thrown>)
    modifies host
    ensures var run := PlanJs(runCfg, env, host.disk, times);
      host.trace == old(host.trace) + run.events && r == run.outcome
  {
    var npmMetrics := NpmMetrics(METRICS_NAME, None, None, None);
    var packageList := PackageEntries(runCfg.npm);
    var npmPackages := PackageTokens(packageList);
    if |npmPackages| == 0 {
      return Ok(npmMetrics);
    }

    var npmConfig := GetNpmConfig(runCfg.npm, env);
    SetUpNpmConfig(host, npmConfig.value, env);
    npmMetrics := npmMetrics.(setup := Some(times.setup));
    ghost var configure := [Configure(EffectiveNpmConfig(npmConfig.value, env))];

    var nodeModulesPresent := HasNodeModulesFolder(host, runCfg, env);
    ghost var probed := ProbeEvents(NodeModulesProbe(runCfg.path, env));

    ghost var rebuild: seq<Event> := [];
    if nodeModulesPresent {
      var projectPath := Dirname(runCfg.path);
      RebuildNpmDependencies(host, projectPath);
      npmMetrics := npmMetrics.(rebuild := Some(times.rebuild));
      rebuild := [Rebuild(RebuildArgs(projectPath))];
    }
    assert host.trace == old(host.trace) + configure + probed + rebuild;

    InstallNpmDependencies(host, npmPackages);
    npmMetrics := npmMetrics.(install := Some(times.install));
    TraceSteps(old(host.trace), configure, probed, rebuild, [Install(npmPackages)]);
    PlanJsEvents(runCfg, env, host.disk, times);
    return Ok(npmMetrics);
  }

  /** Without packages nothing is configured, rebuilt or installed, and the metrics are empty. */
  lemma PlanJsWithoutPackages(runCfg: RunConfig, env: Env, disk: string -> StatResult, times: PhaseTimes)
    requires PackageEntries(runCfg.npm) == []
    ensures PlanJs(runCfg, env, disk, times) == Run([], Ok(NpmMetrics("npm_metrics.json", None, None, None)))
  {
  }

  /** prepareNpmEnv never throws, even for `npm: null`, where the TypeScript version does. */
  lemma PlanJsNeverThrows(runCfg: RunConfig, env: Env, disk: string -> StatResult, times: PhaseTimes)
    ensures PlanJs(runCfg, env, disk, times).outcome.Ok?
    ensures runCfg.npm.NpmNull? ==>
      PlanJs(runCfg, env, disk, times).events == [] && UtilsTs.PlanTs(runCfg, env, disk, times).outcome.Err?
  {
  }

  /** The event sequence of PlanJs with packages, grouped as configure, stat, then the remaining npm calls. */
  lemma PlanJsEvents(runCfg: RunConfig, env: Env, disk: string -> StatResult, times: PhaseTimes)
    requires PackageEntries(runCfg.npm) != []
    ensures PlanJs(runCfg, env, disk, times).events
      == [Configure(EffectiveNpmConfig(GetNpmConfig(runCfg.npm, env).value, env))]
         + (ProbeEvents(NodeModulesProbe(runCfg.path, env))
            + ((if NodeModulesPresent(runCfg.path, env, disk) then [Rebuild(RebuildArgs(Dirname(runCfg.path)))] else [])
               + [Install(PackageTokens(PackageEntries(runCfg.npm)))]))
  {
  }

  /** With packages: configure first, then the node_modules stat if there is one, and install last. */
  lemma PlanJsOrder(runCfg: RunConfig, env: Env, disk: string -> StatResult, times: PhaseTimes)
    requires PackageEntries(runCfg.npm) != []
    ensures var events := PlanJs(runCfg, env, disk, times).events;
      && events[0] == Configure(EffectiveNpmConfig(GetNpmConfig(runCfg.npm, env).value, env))
      && (NodeModulesProbe(runCfg.path, env).Some? ==> events[1] == Stat(NodeModulesPath(runCfg.path)))
      && events[|events| - 1] == Install(PackageTokens(PackageEntries(runCfg.npm)))
  {
    PlanJsEvents(runCfg, env, disk, times);
  }

  /** With packages, the npm calls are: configure, a rebuild exactly when node_modules was detected, install. */
  lemma PlanJsNpmCalls(runCfg: RunConfig, env: Env, disk: string -> StatResult, times: PhaseTimes)
    requires PackageEntries(runCfg.npm) != []
    ensures NpmCalls(PlanJs(runCfg, env, disk, times).events)
      == [Configure(EffectiveNpmConfig(GetNpmConfig(runCfg.npm, env).value, env))]
         + (if NodeModulesPresent(runCfg.path, env, disk) then [Rebuild(RebuildArgs(Dirname(runCfg.path)))] else [])
         + [Install(PackageTokens(PackageEntries(runCfg.npm)))]
  {
    var configure := Configure(EffectiveNpmConfig(GetNpmConfig(runCfg.npm, env).value, env));
    var probed := ProbeEvents(NodeModulesProbe(runCfg.path, env));
    var rebuild := if NodeModulesPresent(runCfg.path, env, disk) then [Rebuild(RebuildArgs(Dirname(runCfg.path)))] else [];
    var tail := rebuild + [Install(PackageTokens(PackageEntries(runCfg.npm)))];
    PlanJsEvents(runCfg, env, disk, times);
    NpmCallsAroundStats(configure, probed, tail);
  }

  /** The metrics with packages: `setup` and `install` always, `rebuild` only after a rebuild. */
  lemma PlanJsMetrics(runCfg: RunConfig, env: Env, disk: string -> StatResult, times: PhaseTimes)
    requires PackageEntries(runCfg.npm) != []
    ensures var m := PlanJs(runCfg, env, disk, times).outcome.value;
      && m.name == "npm_metrics.json"
      && m.setup == Some(times.setup) && m.install == Some(times.install)
      && (m.rebuild.Some? <==> NodeModulesPresent(runCfg.path, env, disk))
  {
  }

  /** Every `$NAME` value becomes process env NAME, `undefined` (None) when unset. */
  function ExpandJs(value: string, processEnv: Env): Option<string> {
    if StartsWith(value, "$") then EnvGet(processEnv, Drop1(value)) else Some(value)
  }

  function ExpandAllJs(env: map<string, string>, processEnv: Env): map<string, Option<string>> {
    map name | name in env :: ExpandJs(env[name], processEnv)
  }

  /** The loop's progress: names still pending hold their merged value, the others the lookup result. */
  function PartlyExpandedJs(env: map<string, string>, pending: set<string>, processEnv: Env): map<string, Option<string>> {
    map name | name in env :: if name in pending then Some(env[name]) else ExpandJs(env[name], processEnv)
  }

  /** Substituting one more pending name advances the loop's progress by that name. */
  lemma ExpandOneJs(env: map<string, string>, pending: set<string>, name: string, processEnv: Env)
    requires name in pending && name in env
    ensures PartlyExpandedJs(env, pending, processEnv)[name := ExpandJs(env[name], processEnv)]
      == PartlyExpandedJs(env, pending - {name}, processEnv)
  {
  }

  /** getEnv's loop: every `$NAME` value is replaced by the lookup of NAME, in place. */
  method ExpandReferences(merged: map<string, string>, processEnv: Env) returns (env: map<string, Option<string>>)
    ensures env == ExpandAllJs(merged, processEnv)
  {
    env := map name | name in merged :: Some(merged[name]);
    assert PartlyExpandedJs(merged, merged.Keys, processEnv) == env;
    var pending := merged.Keys;
    while pending != {}
      invariant pending <= merged.Keys
      invariant env == PartlyExpandedJs(merged, pending, processEnv)
      decreases pending
    {
      var name :| name in pending;
      var value := env[name].value;
      ExpandOneJs(merged, pending, name, processEnv);
      if StartsWith(value, "$") {
        env := env[name := EnvGet(processEnv, Drop1(value))];
      } else {
        assert env == env[name := Some(value)];
      }
      pending := pending - {name};
    }
    assert PartlyExpandedJs(merged, {}, processEnv) == ExpandAllJs(merged, processEnv);
  }

  /** getEnv: `config.env` over `env`, then one substitution pass. */
  method GetEnv(suite: Suite, processEnv: Env) returns (env: map<string, Option<string>>)
    ensures env == ExpandAllJs(MergedEnv(suite), processEnv)
  {
    var merged: map<string, string> := map[];
    if suite.env.Some? {
      merged := merged + suite.env.value;
    }
    if suite.configEnv.Some? {
      merged := merged + suite.configEnv.value;
    }
    env := ExpandReferences(merged, processEnv);
  }

  /** A `$NAME` value whose variable is unset becomes `undefined` here but is kept by the TypeScript version. */
  lemma ExpandJsUnsetReference(value: string, processEnv: Env)
    requires |value| >= 1 && value[0] == '$' && value[1..] !in processEnv
    ensures ExpandJs(value, processEnv) == None
    ensures UtilsTs.ExpandTs(value, processEnv) == value
  {
  }
}
