/**
  src/preExec.ts: run a suite's pre-exec commands one after another through
  the platform shell, stop at the first one that does not exit with 0, and
  give up when a timer fires first. What each spawned process reports is an
  input, one `SpawnResult` per command, in order; whether the timer won the
  race is an input too.
 */
module PreExec {
  import opened Wrappers
  import opened Host

  /** How a spawned process ends: an `exit` event with a code (null after a signal), or an `error` event. */
  datatype SpawnResult = Exited(code: Option<int>) | SpawnError

  /** What spawnAsync resolves with: the exit code, or 1 when the process could not be started. */
  function ExitCode(r: SpawnResult): Option<int> {
    match r
    case Exited(code) => code
    case SpawnError => Some(1)
  }

  /** A command counts as passed only when it started and exited with 0: a start error (code 1) and a signal (null) both fail. */
  lemma ExitCodeZeroOnlyOnCleanExit(r: SpawnResult)
    ensures ExitCode(r) == Some(0) <==> r == Exited(Some(0))
    ensures r.SpawnError? ==> ExitCode(r) == Some(1)
  {
  }

  /** `exitCode !== 0`, with a null code counting as a failure. */
  predicate Failed(r: SpawnResult) {
    ExitCode(r) != Some(0)
  }

  /** The shell and its "run this string" flag: `cmd /C` on Windows, `sh -c` elsewhere. */
  function Invoker(osPlatform: string): (shell: (string, string))
    ensures shell == ("cmd", "/C") || shell == ("sh", "-c")
    ensures shell.0 == "cmd" <==> osPlatform == "win32"
  {
    if osPlatform == "win32" then ("cmd", "/C") else ("sh", "-c")
  }

  /** The spawns for running `commands` in order through the platform shell. */
  function SpawnEvents(osPlatform: string, commands: seq<string>): (events: seq<Event>)
    ensures |events| == |commands|
  {
    if commands == [] then []
    else SpawnEvents(osPlatform, commands[..|commands| - 1])
         + [Spawn(Invoker(osPlatform).0, [Invoker(osPlatform).1, commands[|commands| - 1]])]
  }

  /** One spawn per command, in order, each through the platform shell. */
  lemma {:induction false} SpawnEachCommand(osPlatform: string, commands: seq<string>)
    ensures var events := SpawnEvents(osPlatform, commands);
      forall i :: 0 <= i < |events| ==>
        events[i] == Spawn(Invoker(osPlatform).0, [Invoker(osPlatform).1, commands[i]])
  {
    if commands != [] {
      SpawnEachCommand(osPlatform, commands[..|commands| - 1]);
    }
  }

  /** The index of the first failed command, or the number of commands when none failed. */
  function FirstFailure(results: seq<SpawnResult>): (k: nat)
    ensures k <= |results|
    ensures forall j :: 0 <= j < k ==> !Failed(results[j])
    ensures k < |results| ==> Failed(results[k])
  {
    if results == [] then 0
    else if Failed(results[0]) then 0
    else 1 + FirstFailure(results[1..])
  }

  /** How many commands the runner starts: those up to and including the first failure. */
  function Started(results: seq<SpawnResult>): (n: nat)
    ensures n <= |results|
  {
    if FirstFailure(results) < |results| then FirstFailure(results) + 1 else |results|
  }

  /** preExecRunner's verdict: every command exited with 0. */
  predicate AllPassed(results: seq<SpawnResult>) {
    forall i :: 0 <= i < |results| ==> !Failed(results[i])
  }

  /** The runner passes exactly when no command failed; the empty list passes. */
  lemma FirstFailureIffAllPassed(results: seq<SpawnResult>)
    ensures FirstFailure(results) == |results| <==> AllPassed(results)
    ensures AllPassed([])
  {
  }

  /** preExecRunner. */
  method PreExecRunner(host: Host, osPlatform: string, preExecs: seq<string>, results: seq<SpawnResult>)
    returns (passed: bool)
    requires |results| == |preExecs|
    modifies host
    ensures passed == AllPassed(results)
    ensures host.trace == old(host.trace) + SpawnEvents(osPlatform, preExecs[..Started(results)])
  {
    var cmdInvoker := if osPlatform == "win32" then "cmd" else "sh";
    var cmdArg := if osPlatform == "win32" then "/C" else "-c";
    assert (cmdInvoker, cmdArg) == Invoker(osPlatform);

    var i := 0;
    while i < |preExecs|
      invariant 0 <= i <= |preExecs|
      invariant i <= FirstFailure(results)
      invariant host.trace == old(host.trace) + SpawnEvents(osPlatform, preExecs[..i])
    {
      var command := preExecs[i];
      host.SpawnProcess(cmdInvoker, [cmdArg, command]);
      SpawnEventsExtend(osPlatform, preExecs, i);
      var exitCode := ExitCode(results[i]);
      if exitCode != Some(0) {
        assert Failed(results[i]);
        FirstFailureIffAllPassed(results);
        assert FirstFailure(results) == i;
        return false;
      }
      assert !Failed(results[i]);
      i := i + 1;
    }
    assert preExecs[..i] == preExecs;
    FirstFailureIffAllPassed(results);
    return true;
  }

  /** Running one more command adds its spawn at the end. */
  lemma SpawnEventsExtend(osPlatform: string, commands: seq<string>, i: nat)
    requires i < |commands|
    ensures SpawnEvents(osPlatform, commands[..i + 1])
      == SpawnEvents(osPlatform, commands[..i]) + [Spawn(Invoker(osPlatform).0, [Invoker(osPlatform).1, commands[i]])]
  {
    assert commands[..i + 1][..i] == commands[..i];
  }

  /** A failure at `i` after `i` successes makes `i` the first failure. */
  lemma {:induction false} FirstFailureAt(results: seq<SpawnResult>, i: nat)
    requires i < |results| && Failed(results[i])
    requires forall j :: 0 <= j < i ==> !Failed(results[j])
    ensures FirstFailure(results) == i
  {
    if i > 0 {
      FirstFailureAt(results[1..], i - 1);
    }
  }

  /**
    What preExec resolves with. An empty list resolves the runner before any
    timer can fire, so the timer wins only when there is a command to run.
   */
  function PreExecResult(preExec: Option<seq<string>>, results: seq<SpawnResult>, timedOut: bool): bool {
    if preExec.None? then true
    else if timedOut && preExec.value != [] then false
    else AllPassed(results)
  }

  /** The processes preExec causes to be spawned. */
  function PreExecEvents(osPlatform: string, preExec: Option<seq<string>>, results: seq<SpawnResult>): seq<Event>
    requires preExec.Some? ==> |results| == |preExec.value|
  {
    if preExec.None? then [] else SpawnEvents(osPlatform, preExec.value[..Started(results)])
  }

  /**
    preExec. The runner is not cancelled when the timer wins the race, so the
    same processes are spawned either way; only the verdict changes.
   */
  method RunPreExec(host: Host, osPlatform: string, preExec: Option<seq<string>>,
                    results: seq<SpawnResult>, timedOut: bool)
    returns (hasPassed: bool)
    requires preExec.Some? ==> |results| == |preExec.value|
    modifies host
    ensures hasPassed == PreExecResult(preExec, results, timedOut)
    ensures host.trace == old(host.trace) + PreExecEvents(osPlatform, preExec, results)
  {
    if preExec.None? {
      return true;
    }
    var runnerPassed := PreExecRunner(host, osPlatform, preExec.value, results);
    hasPassed := if timedOut && preExec.value != [] then false else runnerPassed;
  }

  /** Without a pre-exec list nothing is spawned and the result is true. */
  lemma AbsentPreExecPasses(osPlatform: string, results: seq<SpawnResult>, timedOut: bool)
    ensures PreExecResult(None, results, timedOut)
    ensures PreExecEvents(osPlatform, None, results) == []
  {
  }

  /** With a list, the verdict is true exactly when the timer did not win and every command exited with 0. */
  lemma PreExecPassesIff(commands: seq<string>, results: seq<SpawnResult>, timedOut: bool)
    ensures PreExecResult(Some(commands), results, timedOut) <==>
      (!timedOut || commands == []) && forall i :: 0 <= i < |results| ==> ExitCode(results[i]) == Some(0)
    ensures timedOut && commands != [] ==> !PreExecResult(Some(commands), results, timedOut)
    ensures PreExecResult(Some([]), [], timedOut)
  {
  }

  /** A command that could not be started, or that ended by a signal, makes the verdict false. */
  lemma SpawnErrorFails(commands: seq<string>, results: seq<SpawnResult>, timedOut: bool, i: nat)
    requires i < |results| && (results[i].SpawnError? || results[i] == Exited(None))
    ensures !PreExecResult(Some(commands), results, timedOut)
  {
  }

  /**
    Commands run in list order, each as `sh -c <command>` (`cmd /C` on
    Windows), and nothing after the first failure is started.
   */
  lemma RunnerStopsAtFirstFailure(osPlatform: string, commands: seq<string>, results: seq<SpawnResult>)
    requires |results| == |commands|
    ensures var events := PreExecEvents(osPlatform, Some(commands), results);
      && (forall i :: 0 <= i < |events| ==>
            events[i] == Spawn(if osPlatform == "win32" then "cmd" else "sh",
                               [if osPlatform == "win32" then "/C" else "-c", commands[i]]))
      && (forall i :: 0 <= i < |events| - 1 ==> ExitCode(results[i]) == Some(0))
      && (|events| == |commands| || ExitCode(results[|events| - 1]) != Some(0))
      && (AllPassed(results) <==> |events| == |commands| && (|events| == 0 || !Failed(results[|events| - 1])))
  {
    FirstFailureIffAllPassed(results);
    SpawnEachCommand(osPlatform, commands[..Started(results)]);
  }
}
