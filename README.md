# Sauce runner utilities, modelled in Dafny

This project models the helper layer that a Sauce Labs test runner uses
before it starts a test suite:

- preparing the npm environment: the npm configuration, the node_modules
  check, rebuild and install, and the phase metrics;
- the suite helpers: environment substitution, suite lookup, file renames,
  XML escaping and the video flag;
- the checks that come before a project folder is zipped;
- the pre-exec command runner;
- the error-code classifier;
- the exported-value file merge.

The TypeScript `src/utils.ts` and the older JavaScript `src/utils.js` are
modelled separately where they behave differently (`UtilsTs`, `UtilsJs`).
The helpers they share are modelled once (`RunnerUtils`).

Everything outside the process is an input or a record:

- The npm library, `fs.statSync`, `fs.renameSync`, `execSync` and
  `child_process.spawn` are calls on a `Host.Host` object. Each call appends
  an `Event` to the object's `trace`.
- What a stat finds is the host's `disk` function.
- The process environment is a map.
- `path.resolve` is a function parameter.
- `os.platform()` is a string parameter.
- The exit status of each spawned command is an input sequence.
- Elapsed times are opaque naturals (`PhaseTimes`).
- The file store behind `exportValue` is a `Saucectl.FileStore` object whose
  `files` map the two methods update.

Each stateful operation is a method. Its `ensures` ties the new trace and the
result to a function of the inputs: `PlanTs`, `PlanJs`, `ZipEvents`,
`PreExecEvents`, `ExpandAllTs` and the others. The lemmas state what the
source promises about those functions.

The code and its unit tests disagree in one place. tests/unit/src/zip.spec.ts
expects `isFolderOutside(x, x)` to be false. In the code, a folder that does
not end in a separator is outside itself, because the separator is appended
before the prefix test. The model follows the code (`Zip.SameFolderIsOutside`).

## Model

| member | source | states |
|---|---|---|
| RunnerUtils.DefaultRegistry | src/utils.ts:40-42 | the default registry is SAUCE_NPM_CACHE when set and non-empty, else the public registry; it is never empty |
| RunnerUtils.GetNpmConfig | src/utils.ts:100-110 | the result is the empty map exactly when the npm section is undefined; reading a null section throws; otherwise the keys are exactly registry, strict-ssl and package-lock |
| RunnerUtils.StrictSslOnlyLiteralFalse | src/utils.ts:106 | strict-ssl is false iff strictSSL is the literal false, and true otherwise |
| RunnerUtils.PackageLockOnlyLiteralTrue | src/utils.ts:108 | package-lock is true iff packageLock is the literal true, and false otherwise |
| RunnerUtils.RegistryFallbackChain | src/utils.ts:105 | the registry is npm.registry when truthy, else SAUCE_NPM_CACHE when set, else https://registry.npmjs.org; it is always truthy |
| RunnerUtils.NpmConfigTestedValues | src/utils.js:97-111 | undefined, null, true and 'truthy?' give strict-ssl true and only false gives false; undefined, false and 'truthy?' give package-lock false |
| RunnerUtils.GetAbsolutePath | src/utils.ts:11-16 | an absolute path is returned unchanged; a relative one ends with the path, starts with the working directory, and is absolute when the working directory is |
| RunnerUtils.ShouldRecordVideo | src/utils.ts:18-25 | an unset variable records; a value that records has one or four characters |
| RunnerUtils.RecordVideoSpellings | src/utils.ts:18-25 | recording is on iff the variable is unset, or is "1", or is "true" in any letter case |
| RunnerUtils.GetSuite | src/utils.ts:201-203 | the result is None iff no suite has the name; otherwise it is the suite with the name that comes before every other such suite |
| RunnerUtils.RenameScreenshot | src/utils.ts:208-212 | the returned name is the screenshot name, and exactly one rename from the old path to it is recorded |
| Paths.ReplaceFirstAt | src/utils.ts:209 | `replace` with a one-character pattern changes only the first occurrence: the text before and after it is kept |
| RunnerUtils.ScreenshotNameReplacesFirstSeparator | src/utils.ts:205-212 | the new name ends with the spec file in which only the first separator became `__`, then `__` and the file name |
| RunnerUtils.ScreenshotNameSeparators | src/utils.js:202-206 | with a non-empty folder name free of separators, the new name holds as many separators as the spec file, the joining one taking the place of the replaced one; a single-separator spec file is fully flattened |
| RunnerUtils.RenameAsset | src/utils.ts:217-227 | the file is renamed only when the spec file contains a separator, and the returned path is the computed asset name |
| RunnerUtils.AssetNameReplacesEverySeparator | src/utils.js:211-221 | a single-component spec file returns the old path; otherwise the name is the spec file with every separator replaced by `__` under the results folder, and no separator is left |
| RunnerUtils.StringifyVersionsKeepsEntries | src/utils.ts:144-147 | one entry per package with the names in order; a string version passes unchanged and a non-negative number becomes its decimal digits |
| RunnerUtils.StringifyVersionsIdempotent | src/utils.ts:144-147 | stringifying entries whose versions are already strings changes nothing |
| RunnerUtils.RebuildNpmDependencies | src/utils.ts:69-76 | the trace gains one rebuild, with `--prefix` and the path when the path is non-empty and with no arguments otherwise |
| RunnerUtils.MergedEnv | src/utils.ts:184-190 | the keys are those of suite.env and config.env, config.env wins on shared keys, and suite.env values are kept otherwise |
| Paths.Dirname | src/utils.ts:80 | `path.dirname` never returns an empty string |
| Paths.SplitLength | src/utils.ts:218 | splitting on a separator gives one more part than there are separators |
| Paths.JoinSplit | src/utils.ts:223 | joining the parts of a split with `__` is the same as replacing every separator |
| Paths.ReplaceFirstCount | src/utils.ts:209 | `replace` with a one-character pattern and a replacement free of it removes exactly one occurrence, when there is one |
| UtilsTs.UserConfigOverridesDefaults | src/utils.ts:46-60 | configure receives the union of default and user keys; every user key has the user's value and every other default key keeps its default |
| UtilsTs.SetUpNpmConfig | src/utils.ts:44-61 | the trace gains one configure call with the defaults overlaid by the user config |
| UtilsTs.InstallNpmDependencies | src/utils.ts:63-67 | the trace gains one install call with the package object as given |
| UtilsTs.ConfigureWithoutNpmSection | src/utils.ts:46-60 | with no npm section, npm is configured with strict-ssl true, package-lock false, the default registry and the noproxy host |
| UtilsTs.HasNodeModulesFolder | src/utils.ts:79-98 | the answer is the NodeModulesPresent predicate, and the trace gains a stat of the node_modules path only when the HOME guard does not apply |
| UtilsTs.NodeModulesHomeGuard | src/utils.ts:84-97 | outside a VM, a project folder equal to HOME gives false; otherwise the answer is whether a stat finds a directory, and a failed stat gives false |
| UtilsTs.PrepareNpmEnv | src/utils.ts:112-155 | the trace gains exactly the events of PlanTs and the result is its outcome |
| UtilsTs.PlanTsThrowsOnlyForNullNpm | src/utils.ts:119-125 | the outcome is an error iff the npm section is null, and then npm is never called |
| UtilsTs.PlanTsNpmCalls | src/utils.ts:119-153 | without a throw, the npm calls are configure, then a rebuild iff node_modules was detected, then an install iff packages are declared |
| UtilsTs.PlanTsConfiguresOnceFirst | src/utils.ts:121-127 | npm is configured exactly once, before any other npm call |
| UtilsTs.PlanTsStatBeforeConfigure | src/utils.ts:121-127 | when the HOME guard does not apply, the node_modules stat is the first event and configure comes right after it |
| UtilsTs.PlanTsRebuildsIffPresent | src/utils.ts:130-138 | a rebuild happens iff node_modules was detected, always with `--prefix` and the project folder |
| UtilsTs.PlanTsInstallsIffPackages | src/utils.ts:140-153 | an install happens iff packages are declared, with every version as a string and in entry order |
| UtilsTs.PlanTsMetrics | src/utils.ts:113-118 | the metrics are named npm_metrics.json and always hold setup and install; install is 0 when nothing was installed; rebuild is present iff a rebuild ran |
| UtilsTs.EscapeXml | src/utils.ts:229-240 | the escaped string contains no `<`, `>`, apostrophe or double quote |
| UtilsTs.EscapeXmlAppend | src/utils.ts:230 | escaping works character by character: escape(a + b) == escape(a) + escape(b) |
| UtilsTs.EscapeXmlPlain | src/utils.ts:238 | a string without the five markup characters is unchanged |
| UtilsTs.EscapeXmlRoundTrip | src/utils.ts:229-240 | decoding the five entities of an escaped string gives the original string back |
| UtilsTs.GetEnv | src/utils.ts:183-199 | the result is the merged suite environment with every value substituted once, from the original values |
| UtilsTs.ExpandReferences | src/utils.ts:192-197 | the in-place loop leaves every name substituted once from its merged value, the same map as ExpandAllTs |
| UtilsTs.ExpandTsReplacesOnlySetReferences | src/utils.ts:192-197 | a value changes only if it is `$NAME` with NAME set and non-empty, and then it becomes NAME's value; an unset NAME leaves `$NAME` |
| UtilsJs.UserConfigOverridesDefaults | src/utils.js:43-59 | npm.load receives the union of default and user keys, user values winning and defaults kept elsewhere |
| UtilsJs.PackageTokensJoinStringified | src/utils.js:118 | one token per package entry, in order: the TypeScript version's stringified pair joined by `@` |
| UtilsJs.PackageTokenDecodes | src/utils.js:118 | each token splits back, at the `@` after the name, into the name and `String(version)` |
| UtilsJs.SetUpNpmConfig | src/utils.js:43-59 | the trace gains one `npm.load` call with the defaults, retry included, overlaid by the user config |
| UtilsJs.InstallNpmDependencies | src/utils.js:61-64 | the trace gains one install call with the tokens as its arguments |
| UtilsJs.HasNodeModulesFolder | src/utils.js:76-95 | the answer is the JS NodeModulesPresent predicate, with a stat recorded only when the project folder is not HOME |
| UtilsJs.NodeModulesHomeGuardIgnoresVm | src/utils.js:81 | a project folder equal to HOME always gives false, even inside a VM, where the TypeScript version looks for node_modules |
| UtilsJs.PrepareNpmEnv | src/utils.js:113-150 | the trace gains exactly the events of PlanJs and the result is its outcome |
| UtilsJs.PlanJsWithoutPackages | src/utils.js:113-121 | with no packages nothing is configured, rebuilt or installed, and the metrics hold only the name |
| UtilsJs.PlanJsNeverThrows | src/utils.js:117-121 | prepareNpmEnv never throws, and for a null npm section it does nothing, while the TypeScript version throws |
| UtilsJs.PlanJsOrder | src/utils.js:123-149 | with packages, npm is configured first, the node_modules stat comes next, and install is last |
| UtilsJs.PlanJsNpmCalls | src/utils.js:123-149 | with packages, the npm calls are configure, then a rebuild iff node_modules was detected, then install |
| UtilsJs.PlanJsMetrics | src/utils.js:127-148 | with packages, the metrics are named npm_metrics.json and hold setup and install, and rebuild iff a rebuild ran |
| UtilsJs.GetEnv | src/utils.js:178-193 | the result is the merged suite environment with every `$NAME` value replaced by the lookup of NAME |
| UtilsJs.ExpandReferences | src/utils.js:187-191 | the in-place loop replaces every `$NAME` value by the lookup of NAME and keeps the others, the same map as ExpandAllJs |
| UtilsJs.ExpandJsUnsetReference | src/utils.js:188-190 | a `$NAME` value with NAME unset becomes undefined here, where the TypeScript version keeps `$NAME` |
| Zip.TrimStartStrips | src/zip.ts:7 | the result is a suffix of the input that does not start with whitespace, and everything dropped is whitespace |
| Zip.TrimEndStrips | src/zip.ts:7 | the result is a prefix of the input that does not end with whitespace, and everything dropped is whitespace |
| Zip.BlankIffAllWhitespace | src/zip.ts:7-15 | a string is blank after trim iff every character of it is JS whitespace |
| Zip.WithTrailingSep | src/zip.ts:49-53 | the folder gains a separator only when it does not already end in one |
| Zip.IsFolderOutside | src/zip.ts:40-57 | a target that is not outside starts with the folder, and is longer than it unless the folder ends in a separator |
| Zip.InsideIffBelow | src/zip.ts:40-57 | a target is inside iff the folder is a proper prefix of it followed by a separator, or just a prefix when the folder already ends in a separator |
| Zip.DescendantIsInside | src/zip.ts:48-56 | anything below the folder, at any depth, is inside |
| Zip.SharedPrefixSiblingIsOutside | src/zip.ts:48-56 | a sibling whose name extends the folder's name is outside |
| Zip.SameFolderIsOutside | src/zip.ts:49-56 | a folder is outside itself iff its resolved path does not end in a separator |
| Zip.IsFolderOutsideExamples | src/zip.ts:40-57 | /a/base/inside is inside /a/base; /a/base2, /a/outside and /a/base itself are outside it; /a/base/ is inside itself |
| Zip.Validate | src/zip.ts:6-31 | an error is only ever thrown by the check it names |
| Zip.MessageOnlyForOwnErrors | src/zip.ts:6-31 | every error validate throws has its own message except the stat error |
| Zip.ValidateFirstFailingCheck | src/zip.ts:6-31 | validate fails with an error iff that check rejects and every earlier check accepts |
| Zip.ValidatePassIff | src/zip.ts:6-31 | validate passes iff no check rejects |
| Zip.ValidateAcceptsOnlyRelativeZip | src/zip.ts:6-31 | an accepted source is non-empty, relative, inside the workspace and a directory, and an accepted destination ends in .zip |
| Zip.GetCommand | src/zip.ts:76-85 | the command is empty iff the platform is neither darwin nor win32 |
| Zip.GetCommandSupportedPlatforms | src/zip.ts:76-85 | the command is empty iff the platform is neither darwin nor win32; on darwin it is a `zip -ryq` of dest then source, on win32 a Compress-Archive from source to dest with -Force |
| Zip.ZipExecutesOnlyWhenValid | src/zip.ts:95-105 | a command runs iff validation passes on a supported platform, and it is exactly that platform's command |
| Zip.ValidateOn | src/zip.ts:6-31 | the result is Validate's, and the source is stat-ed only when the five path checks pass |
| Zip.Zip | src/zip.ts:95-105 | the trace gains exactly ZipEvents, and the caught error is present iff validation fails and is then validate's error |
| PreExec.ExitCodeZeroOnlyOnCleanExit | src/preExec.ts:13-19 | the code is 0 iff the process started and exited with 0; a process that could not be started counts as 1 |
| PreExec.Invoker | src/preExec.ts:24-25 | the shell is `cmd /C` or `sh -c`, and it is cmd exactly on win32 |
| PreExec.SpawnEachCommand | src/preExec.ts:24-29 | one spawn per command, in order, each through `sh -c`, or `cmd /C` on win32 |
| PreExec.FirstFailure | src/preExec.ts:27-35 | the index of the first command whose code is not 0, with every command before it at 0 |
| PreExec.FirstFailureIffAllPassed | src/preExec.ts:27-36 | no failure index exists iff every command exited with 0; the empty list passes |
| PreExec.PreExecRunner | src/preExec.ts:23-37 | the runner returns true iff every command exited with 0, and spawns exactly the commands up to and including the first failure |
| PreExec.RunPreExec | src/preExec.ts:39-54 | the result is PreExecResult and the trace gains exactly PreExecEvents |
| PreExec.AbsentPreExecPasses | src/preExec.ts:40-42 | without a pre-exec list the result is true and nothing is spawned |
| PreExec.PreExecPassesIff | src/preExec.ts:44-53 | with a list, the result is true iff every command exited with 0 and the timer did not win, which it cannot over an empty list; a timeout over a non-empty list gives false |
| PreExec.SpawnErrorFails | src/preExec.ts:16-19 | a command that could not be started, or that ended with a null code, makes the result false |
| PreExec.RunnerStopsAtFirstFailure | src/preExec.ts:27-35 | commands run in list order through the platform shell; every command before the last one started exited with 0; nothing after a failure starts |
| ErrorCode.ErrCode | src/error.ts:1-9 | the result is '' or the object's own code, unchanged |
| ErrorCode.ErrCodeWithoutCode | src/error.ts:2-4 | a non-object, null, or an object without code gives '' |
| ErrorCode.ErrCodeByCodeType | src/error.ts:5-8 | a number or string code is returned as it is; a code of any other type gives '' |
| ErrorCode.ErrCodeRecoversCode | src/error.ts:1-9 | whatever else an object holds, a number or string stored as its code comes back out |
| Saucectl.StoredValue | src/saucectl.ts:8-14 | before the merge, the file data is undefined exactly when the file is missing, is not a regular file, or does not parse; otherwise it is truthy |
| Saucectl.Merged | src/saucectl.ts:15 | the merged keys are the union; data's values win, and the file's other values are kept |
| Saucectl.FileStore.ExportValue | src/saucectl.ts:3-5 | the file now holds exactly the payload, and no other file changes |
| Saucectl.FileStore.UpdateExportedValue | src/saucectl.js:11-21 | the file now holds the merge of its readable content with data, and no other file changes |
| Saucectl.FailedReadGivesDataAlone | src/saucectl.js:13-18 | a missing file, a non-regular file or unparsable content leaves data's own fields only |
| Saucectl.FalsyContentIsEmptyObject | src/saucectl.ts:12 | content that parses to null, or to any other falsy value, counts as `{}` |
| Saucectl.UpdateOverObject | src/saucectl.js:19-20 | over a stored object, the keys are the union, data's values win and the old values are kept otherwise |
| Saucectl.UpdateIdempotent | src/saucectl.ts:7-17 | updating twice with the same data gives the same content as updating once |

`Saucectl.DEFAULT_OUTPUT_FILEPATH` is the constant `/tmp/output.json` of
src/saucectl.js:5.

## Left out

- Wall-clock timing: each phase duration is an input (`PhaseTimes`), and the contracts say only which metric keys exist and where the durations come from.
- The npm library itself (src/npm.ts is not part of this model): configure, load, rebuild and install are trace events that always succeed. Their own failures and `legacy-peer-deps`, scoped registries and auth tokens are not modelled.
- `loadRunConfig` and `getArgs` (`require` from disk, yargs parsing, cached singletons) and all console output.
- `path.resolve` and `path.join` normalisation: `resolve` is an uninterpreted function, `Join` does not collapse `.`, `..` or repeated separators, and the separator is always `/`. Empty segments are not dropped either: `Join("a", "")` is `a/` where `path.join` gives `a`.
- Windows path rules: `isAbsolute` is the posix test.
- JavaScript numbers are integers here, and arrays and functions are not values of the model. As a result `String(v)` of a fraction, and `typeof` answering "function", do not arise.
- RunnerUtils.ShouldRecordVideo: `toLowerCase` is applied to ASCII letters only. No other character lowers to a letter of "true", so the result is unaffected.
- JSON stringify and parse: the file store holds the parsed value itself, and key order in objects is not modelled.
- Saucectl.FileStore.ExportValue: `writeFileSync` always succeeds. A write to a path that is a directory, which throws in Node, is not modelled.
- Zip.Zip: `execSync` always succeeds. The message of its error, and of a failing `fs.statSync`, is Node's own and is left out (`Zip.Message` gives None for the stat error).
- PreExec.RunPreExec: the `Promise.race` is reduced to a flag saying whether the timer won. The runner is not cancelled when it loses, so the same commands are spawned either way. Streaming of stdout and stderr and `clearTimeout` are not modelled.
- PreExec.PreExecRunner: there must be one spawn result per command. This is a property of the input model, not a demand of the source.
- `_.isObject` checks on `suite.env` and `config.env`: an environment is either a string map or absent.
