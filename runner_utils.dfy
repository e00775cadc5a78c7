/**
  The run configuration and the helpers that src/utils.ts and src/utils.js
  define identically: npm config translation, the registry fallback, suite
  lookup, video flag parsing, absolute paths, the asset and screenshot rename
  helpers, and the npm rebuild call.
 */
module RunnerUtils {
  import opened Wrappers
  import opened JsValues
  import opened Paths
  import opened Host

  const DEFAULT_REGISTRY: string := "https://registry.npmjs.org"
  const METRICS_NAME: string := "npm_metrics.json"

  /** The `npm` section of a run configuration. */
  datatype NpmSection =
    | NpmUndefined  // no `npm` key
    | NpmNull       // `npm: null`: reading a property of it throws
    | NpmObject(registry: JsValue, strictSSL: JsValue, packageLock: JsValue,
                packages: seq<(string, JsValue)>)  // `packages` entries in order; absent or falsy is []

  /** A run configuration: its `npm` section and `path`, the location of the runner's config file. */
  datatype RunConfig = RunConfig(npm: NpmSection, path: string)

  /**
    A suite: its name, `env` and `config.env`. An `env` that is not an object is
    None; so is `config.env` when `config` or its `env` is not an object.
   */
  datatype Suite = Suite(name: string, env: Option<map<string, string>>, configEnv: Option<map<string, string>>)

  /** Durations the clock reports for the three npm phases (opaque). */
  datatype PhaseTimes = PhaseTimes(setup: nat, rebuild: nat, install: nat)

  /** `{name: 'npm_metrics.json', data}`; a phase absent from `data` is None. */
  datatype NpmMetrics = NpmMetrics(name: string, setup: Option<nat>, rebuild: Option<nat>, install: Option<nat>)

  /** What a call of prepareNpmEnv does: the calls it makes, then what it returns or throws. */
  datatype Run = Run(events: seq<Event>, outcome: Result<NpmMetrics, Thrown>)

  /** `process.env.SAUCE_NPM_CACHE || DEFAULT_REGISTRY`. */
  function DefaultRegistry(env: Env): (r: string)
    ensures r != ""
    ensures EnvSet(env, "SAUCE_NPM_CACHE") ==> r == env["SAUCE_NPM_CACHE"]
    ensures !EnvSet(env, "SAUCE_NPM_CACHE") ==> r == DEFAULT_REGISTRY
  {
    EnvOr(env, "SAUCE_NPM_CACHE", DEFAULT_REGISTRY)
  }

  /** getNpmConfig: the flat `registry` / `strict-ssl` / `package-lock` map, or the TypeError of reading `null.registry`. */
  function GetNpmConfig(npm: NpmSection, env: Env): (r: Result<map<string, JsValue>, Thrown>)
    ensures r == Ok(map[]) <==> npm.NpmUndefined?
    ensures r.Err? <==> npm.NpmNull?
    ensures npm.NpmObject? ==> r.Ok? && r.value.Keys == {"registry", "strict-ssl", "package-lock"}
  {
    match npm
    case NpmUndefined => Ok(map[])
    case NpmNull => Err(TypeError)
    case NpmObject(registry, strictSSL, packageLock, _) =>
      var config := map[
        "registry" := Or(registry, Str(DefaultRegistry(env))),
        "strict-ssl" := Bool(strictSSL != Bool(false)),
        "package-lock" := Bool(packageLock == Bool(true))
      ];
      assert "registry" in config;
      Ok(config)
  }

  /** `strict-ssl` is false exactly when `strictSSL` is the literal `false`. */
  lemma StrictSslOnlyLiteralFalse(npm: NpmSection, env: Env)
    requires npm.NpmObject?
    ensures GetNpmConfig(npm, env).value["strict-ssl"] == Bool(false) <==> npm.strictSSL == Bool(false)
    ensures GetNpmConfig(npm, env).value["strict-ssl"] == Bool(true) <==> npm.strictSSL != Bool(false)
  {
  }

  /** `package-lock` is true exactly when `packageLock` is the literal `true`. */
  lemma PackageLockOnlyLiteralTrue(npm: NpmSection, env: Env)
    requires npm.NpmObject?
    ensures GetNpmConfig(npm, env).value["package-lock"] == Bool(true) <==> npm.packageLock == Bool(true)
    ensures GetNpmConfig(npm, env).value["package-lock"] == Bool(false) <==> npm.packageLock != Bool(true)
  {
  }

  /** The registry: `npm.registry` if truthy, else SAUCE_NPM_CACHE if non-empty, else the public registry; never empty. */
  lemma RegistryFallbackChain(npm: NpmSection, env: Env)
    requires npm.NpmObject?
    ensures var reg := GetNpmConfig(npm, env).value["registry"];
      && Truthy(reg)
      && (Truthy(npm.registry) ==> reg == npm.registry)
      && (!Truthy(npm.registry) && EnvSet(env, "SAUCE_NPM_CACHE") ==> reg == Str(env["SAUCE_NPM_CACHE"]))
      && (!Truthy(npm.registry) && !EnvSet(env, "SAUCE_NPM_CACHE") ==> reg == Str(DEFAULT_REGISTRY))
  {
  }

  /** The values the tests try for `strictSSL` and `packageLock`. */
  lemma NpmConfigTestedValues(env: Env)
    ensures forall v :: v in [Undefined, Null, Bool(true), Str("truthy?")] ==>
      GetNpmConfig(NpmObject(Undefined, v, Undefined, []), env).value["strict-ssl"] == Bool(true)
    ensures GetNpmConfig(NpmObject(Undefined, Bool(false), Undefined, []), env).value["strict-ssl"] == Bool(false)
    ensures forall v :: v in [Undefined, Bool(false), Str("truthy?")] ==>
      GetNpmConfig(NpmObject(Undefined, Undefined, v, []), env).value["package-lock"] == Bool(false)
  {
  }

  /** `runCfg?.npm?.packages || {}`, as entries. */
  function PackageEntries(npm: NpmSection): seq<(string, JsValue)> {
    if npm.NpmObject? then npm.packages else []
  }

  /** getAbsolutePath, with `process.cwd()` passed in. */
  function GetAbsolutePath(cwd: string, pathToDir: string): (r: string)
    ensures IsAbsolute(pathToDir) ==> r == pathToDir
    ensures !IsAbsolute(pathToDir) ==> EndsWith(r, pathToDir) && (cwd != "" ==> StartsWith(r, cwd))
    ensures IsAbsolute(cwd) ==> IsAbsolute(r)
  {
    if IsAbsolute(pathToDir) then pathToDir else Join(cwd, pathToDir)
  }

  function LowerChar(c: char): char {
    if 'A' <= c <= 'Z' then (c as int + 32) as char else c
  }

  /** `toLowerCase()` on ASCII letters. */
  function ToLowerAscii(s: string): (r: string)
    ensures |r| == |s|
  {
    seq(|s|, i requires 0 <= i < |s| => LowerChar(s[i]))
  }

  /** shouldRecordVideo, given SAUCE_CYPRESS_VIDEO_RECORDING (None when unset). */
  function ShouldRecordVideo(setting: Option<string>): (record: bool)
    ensures setting.None? ==> record
    ensures record && setting.Some? ==> |setting.value| == 1 || |setting.value| == 4
  {
    match setting
    case None => true
    case Some(v) =>
      var videoOption := ToLowerAscii(v);
      videoOption == "true" || videoOption == "1"
  }

  /** Recording is on when the variable is unset, or is `1`, or spells `true` in any letter case. */
  lemma RecordVideoSpellings(setting: Option<string>)
    ensures ShouldRecordVideo(setting) <==>
      || setting.None?
      || setting.value == "1"
      || (|setting.value| == 4 && setting.value[0] in "tT" && setting.value[1] in "rR"
          && setting.value[2] in "uU" && setting.value[3] in "eE")
  {
    if setting.Some? {
      var v := setting.value;
      var low := ToLowerAscii(v);
      if |v| == 1 {
        assert low == "1" <==> low[0] == '1';
        assert v == "1" <==> v[0] == '1';
      }
      if |v| == 4 {
        assert low == "true" <==> low[0] == 't' && low[1] == 'r' && low[2] == 'u' && low[3] == 'e';
      }
    }
  }

  /** getSuite: the first suite with the name, if any. */
  function GetSuite(suites: seq<Suite>, name: string): (r: Option<Suite>)
    ensures r.None? <==> forall i :: 0 <= i < |suites| ==> suites[i].name != name
    ensures r.Some? ==> exists i :: (0 <= i < |suites| && suites[i] == r.value && suites[i].name == name
      && forall j :: 0 <= j < i ==> suites[j].name != name)
  {
    if suites == [] then None
    else if suites[0].name == name then Some(suites[0])
    else
      var r := GetSuite(suites[1..], name);
      assert r.Some? ==> exists i :: (1 <= i < |suites| && suites[i] == r.value && suites[i].name == name
        && forall j :: 1 <= j < i ==> suites[j].name != name);
      r
  }

  /** The new name renameScreenshot gives: the first separator of the spec file becomes `__`. */
  function ScreenshotName(specFile: string, folderName: string, fileName: string): string {
    Join(folderName, ReplaceFirst(specFile, Sep, "__") + "__" + fileName)
  }

  /** renameScreenshot: moves the file to its new name and returns that name. */
  method RenameScreenshot(host: Host, specFile: string, oldFilePath: string, folderName: string, fileName: string)
    returns (newName: string)
    modifies host
    ensures newName == ScreenshotName(specFile, folderName, fileName)
    ensures host.trace == old(host.trace) + [Rename(oldFilePath, newName)]
  {
    newName := ScreenshotName(specFile, folderName, fileName);
    host.RenameSync(oldFilePath, newName);
  }

  /**
    The new name ends with the spec file whose first separator, at `k`, became
    `__`, then `__` and the file name: nothing before or after `k` changes.
   */
  lemma ScreenshotNameReplacesFirstSeparator(specFile: string, folderName: string, fileName: string, k: nat)
    requires k < |specFile| && specFile[k] == Sep && Sep !in specFile[..k]
    ensures EndsWith(ScreenshotName(specFile, folderName, fileName),
                     specFile[..k] + "__" + specFile[k + 1..] + "__" + fileName)
  {
    ReplaceFirstAt(specFile, Sep, "__", k);
  }

  /** The spec file's separators that renameScreenshot leaves: all but the first. */
  lemma ScreenshotNameSeparators(specFile: string, folderName: string, fileName: string)
    requires Sep in specFile && Sep !in fileName
    ensures Sep !in folderName && folderName != [] ==>
      Count(ScreenshotName(specFile, folderName, fileName), Sep) == Count(specFile, Sep)
    ensures Count(specFile, Sep) == 1 ==>
      ScreenshotName(specFile, folderName, fileName) == Join(folderName, ReplaceAll(specFile, Sep, "__") + "__" + fileName)
  {
    CountZeroIffAbsent(specFile, Sep);
    CountZeroIffAbsent(fileName, Sep);
    var renamed := ReplaceFirst(specFile, Sep, "__");
    ReplaceFirstCount(specFile, Sep, "__");
    CountAppend(renamed, "__", Sep);
    CountAppend(renamed + "__", fileName, Sep);
    CountZeroIffAbsent("__", Sep);
    if Sep !in folderName {
      CountZeroIffAbsent(folderName, Sep);
      if folderName != [] {
        CountAppend(folderName, [Sep], Sep);
        CountAppend(folderName + [Sep], renamed + "__" + fileName, Sep);
      }
    }
    if Count(specFile, Sep) == 1 {
      ReplaceFirstWhenSingle(specFile, Sep, "__");
    }
  }

  /** The path renameAsset returns: unchanged for a spec file of one component, else its components joined by `__` under the results folder. */
  function AssetName(specFile: string, oldFilePath: string, resultsFolder: string): string {
    var parts := Split(specFile, Sep);
    if |parts| < 2 then oldFilePath
    else Join(resultsFolder, JoinWith(parts[0..|parts|], "__"))
  }

  /** renameAsset: moves the file only when the spec file is nested, and returns where it now is. */
  method RenameAsset(host: Host, specFile: string, oldFilePath: string, resultsFolder: string)
    returns (newFilePath: string)
    modifies host
    ensures newFilePath == AssetName(specFile, oldFilePath, resultsFolder)
    ensures host.trace == old(host.trace) +
      (if Sep in specFile then [Rename(oldFilePath, newFilePath)] else [])
  {
    var parts := Split(specFile, Sep);
    SplitSingleIffAbsent(specFile, Sep);
    if |parts| < 2 {
      return oldFilePath;
    }
    newFilePath := Join(resultsFolder, JoinWith(parts[0..|parts|], "__"));
    host.RenameSync(oldFilePath, newFilePath);
  }

  /** A root-level spec file keeps its path; a nested one gets every separator replaced by `__`, leaving none. */
  lemma AssetNameReplacesEverySeparator(specFile: string, oldFilePath: string, resultsFolder: string)
    ensures Sep !in specFile ==> AssetName(specFile, oldFilePath, resultsFolder) == oldFilePath
    ensures Sep in specFile ==>
      AssetName(specFile, oldFilePath, resultsFolder) == Join(resultsFolder, ReplaceAll(specFile, Sep, "__"))
      && Sep !in ReplaceAll(specFile, Sep, "__")
  {
    SplitSingleIffAbsent(specFile, Sep);
    var parts := Split(specFile, Sep);
    assert parts[0..|parts|] == parts;
    JoinSplit(specFile, Sep, "__");
    ReplaceAllRemoves(specFile, Sep, "__");
  }

  /** rebuildNpmDependencies' arguments: `--prefix path` when a path is given. */
  function RebuildArgs(path: string): seq<string> {
    if path != "" then ["--prefix", path] else []
  }

  /** rebuildNpmDependencies. */
  method RebuildNpmDependencies(host: Host, path: string)
    modifies host
    ensures host.trace == old(host.trace) + [Rebuild(RebuildArgs(path))]
  {
    if path != "" {
      host.NpmRebuild(["--prefix", path]);
    } else {
      host.NpmRebuild([]);
    }
  }

  /** `path.join(dirname(path), 'node_modules')`, the folder whose presence triggers a rebuild. */
  function NodeModulesPath(path: string): string {
    Join(Dirname(path), "node_modules")
  }

  /** The stat a node_modules check makes, if it makes one. */
  function ProbeEvents(probe: Option<string>): seq<Event> {
    if probe.Some? then [Stat(probe.value)] else []
  }

  /** A stat of the path succeeds and reports a directory. */
  predicate IsDirectoryAt(disk: string -> StatResult, path: string) {
    disk(path).Stats? && disk(path).isDirectory
  }

  /** Versions as `String(v)`: the package entries npm is given. */
  function StringifyVersions(packages: seq<(string, JsValue)>): seq<(string, string)> {
    seq(|packages|, i requires 0 <= i < |packages| => (packages[i].0, ToString(packages[i].1)))
  }

  /**
    The names and their order are kept; a version that already is a string
    passes unchanged, and a non-negative number becomes its decimal digits.
   */
  lemma StringifyVersionsKeepsEntries(packages: seq<(string, JsValue)>)
    ensures var r := StringifyVersions(packages);
      && |r| == |packages|
      && (forall i :: 0 <= i < |r| ==> r[i].0 == packages[i].0)
      && (forall i :: 0 <= i < |r| && packages[i].1.Str? ==> r[i].1 == packages[i].1.s)
      && (forall i :: 0 <= i < |r| && packages[i].1.Num? && packages[i].1.n >= 0 ==>
            r[i].1 == NatToString(packages[i].1.n))
  {
  }

  /** The entries as JS string values, as npm reads them back. */
  function AsStringVersions(pairs: seq<(string, string)>): seq<(string, JsValue)> {
    seq(|pairs|, i requires 0 <= i < |pairs| => (pairs[i].0, Str(pairs[i].1)))
  }

  /** Stringifying entries whose versions are already strings changes nothing. */
  lemma StringifyVersionsIdempotent(packages: seq<(string, JsValue)>)
    ensures StringifyVersions(AsStringVersions(StringifyVersions(packages))) == StringifyVersions(packages)
  {
  }

  /** The environment of a suite before substitution: `config.env` over `env`. */
  function MergedEnv(suite: Suite): (r: map<string, string>)
    ensures r.Keys == (if suite.env.Some? then suite.env.value.Keys else {})
                    + (if suite.configEnv.Some? then suite.configEnv.value.Keys else {})
    ensures suite.configEnv.Some? ==>
      forall name :: name in suite.configEnv.value ==> r[name] == suite.configEnv.value[name]
    ensures suite.env.Some? ==>
      forall name :: name in suite.env.value && (suite.configEnv.None? || name !in suite.configEnv.value) ==>
        r[name] == suite.env.value[name]
  {
    var base := if suite.env.Some? then suite.env.value else map[];
    if suite.configEnv.Some? then base + suite.configEnv.value else base
  }

  /** `value.substring(1)` (also `value.slice(1)`). */
  function Drop1(value: string): string {
    if value == [] then [] else value[1..]
  }
}
