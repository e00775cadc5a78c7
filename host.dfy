/**
  The outside world the runner utilities act on, as an object that records
  what was asked of it: calls into the npm library (src/npm.ts), `fs.statSync`
  probes, `fs.renameSync` moves, `execSync` commands and spawned processes. What a stat reports
  is fixed when the host is created (`disk`).
 */
module Host {
  import opened JsValues

  /** What `fs.statSync(path)` gives: it throws, or it describes a node. */
  datatype StatResult = StatFailed | Stats(isDirectory: bool, isFile: bool)

  datatype Event =
    | Configure(config: map<string, JsValue>)         // npm.configure (utils.ts) or npm.load (utils.js)
    | Rebuild(args: seq<string>)                      // npm.rebuild(...args)
    | Install(args: seq<string>)                      // npm.install(...tokens), utils.js
    | InstallPackages(packages: seq<(string, string)>) // npm.install(packageObject), utils.ts
    | Stat(path: string)                              // fs.statSync(path)
    | Rename(from: string, to: string)                // fs.renameSync(from, to)
    | Exec(command: string)                           // execSync(command)
    | Spawn(program: string, args: seq<string>)       // child_process.spawn(program, args)

  predicate IsNpmCall(e: Event) {
    e.Configure? || e.Rebuild? || e.Install? || e.InstallPackages?
  }

  /** The npm library calls of a trace, in order. */
  function NpmCalls(trace: seq<Event>): seq<Event> {
    if trace == [] then []
    else (if IsNpmCall(trace[0]) then [trace[0]] else []) + NpmCalls(trace[1..])
  }

  lemma {:induction false} NpmCallsAppend(a: seq<Event>, b: seq<Event>)
    ensures NpmCalls(a + b) == NpmCalls(a) + NpmCalls(b)
  {
    if a == [] {
      assert a + b == b;
    } else {
      assert (a + b)[1..] == a[1..] + b;
      NpmCallsAppend(a[1..], b);
    }
  }

  /** A stat-only prefix followed by npm calls: the npm calls are exactly the latter. */
  lemma NpmCallsAfterStats(stats: seq<Event>, calls: seq<Event>)
    requires forall e :: e in stats ==> e.Stat?
    requires forall e :: e in calls ==> IsNpmCall(e)
    ensures NpmCalls(stats + calls) == calls
  {
    NpmCallsAppend(stats, calls);
    NoNpmCalls(stats);
    OnlyNpmCalls(calls);
  }

  /** One npm call, then a stat-only stretch, then npm calls: the stats drop out of the npm calls. */
  lemma NpmCallsAroundStats(first: Event, stats: seq<Event>, calls: seq<Event>)
    requires IsNpmCall(first)
    requires forall e :: e in stats ==> e.Stat?
    requires forall e :: e in calls ==> IsNpmCall(e)
    ensures NpmCalls([first] + (stats + calls)) == [first] + calls
  {
    NpmCallsAppend([first], stats + calls);
    NpmCallsAfterStats(stats, calls);
    OnlyNpmCalls([first]);
  }

  /** A trace extended step by step equals the trace extended once by all the steps. */
  lemma TraceSteps(t: seq<Event>, a: seq<Event>, b: seq<Event>, c: seq<Event>, d: seq<Event>)
    ensures t + a + b + c + d == t + (a + (b + c + d))
    ensures t + a + b + c + d == t + (a + (b + (c + d)))
  {
  }

  lemma {:induction false} NoNpmCalls(stats: seq<Event>)
    requires forall e :: e in stats ==> e.Stat?
    ensures NpmCalls(stats) == []
  {
    if stats != [] {
      assert stats[0] in stats;
      NoNpmCalls(stats[1..]);
    }
  }

  lemma {:induction false} OnlyNpmCalls(calls: seq<Event>)
    requires forall e :: e in calls ==> IsNpmCall(e)
    ensures NpmCalls(calls) == calls
  {
    if calls != [] {
      assert calls[0] in calls;
      OnlyNpmCalls(calls[1..]);
    }
  }

  class Host {
    const disk: string -> StatResult
    var trace: seq<Event>

    constructor (disk: string -> StatResult)
      ensures this.disk == disk && trace == []
    {
      this.disk := disk;
      trace := [];
    }

    method NpmConfigure(config: map<string, JsValue>)
      modifies this`trace
      ensures trace == old(trace) + [Configure(config)]
    {
      trace := trace + [Configure(config)];
    }

    method NpmRebuild(args: seq<string>)
      modifies this`trace
      ensures trace == old(trace) + [Rebuild(args)]
    {
      trace := trace + [Rebuild(args)];
    }

    method NpmInstall(args: seq<string>)
      modifies this`trace
      ensures trace == old(trace) + [Install(args)]
    {
      trace := trace + [Install(args)];
    }

    method NpmInstallPackages(packages: seq<(string, string)>)
      modifies this`trace
      ensures trace == old(trace) + [InstallPackages(packages)]
    {
      trace := trace + [InstallPackages(packages)];
    }

    method StatPath(path: string) returns (st: StatResult)
      modifies this`trace
      ensures st == disk(path)
      ensures trace == old(trace) + [Stat(path)]
    {
      st := disk(path);
      trace := trace + [Stat(path)];
    }

    method RenameSync(from: string, to: string)
      modifies this`trace
      ensures trace == old(trace) + [Rename(from, to)]
    {
      trace := trace + [Rename(from, to)];
    }

    method ExecSync(command: string)
      modifies this`trace
      ensures trace == old(trace) + [Exec(command)]
    {
      trace := trace + [Exec(command)];
    }

    method SpawnProcess(program: string, args: seq<string>)
      modifies this`trace
      ensures trace == old(trace) + [Spawn(program, args)]
    {
      trace := trace + [Spawn(program, args)];
    }
  }
}
