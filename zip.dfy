/**
  src/zip.ts: the argument checks done before zipping a folder, the
  "is this folder outside the workspace" test, the per-platform archive
  command and the `zip` entry point, which swallows every error. `path.resolve`
  is a parameter (`resolve`), `fs.statSync` the host's stat oracle and
  `os.platform()` a string parameter.
 */
module Zip {
  import opened Wrappers
  import opened Paths
  import opened Host

  /** The characters `String.prototype.trim` removes: JS WhiteSpace and LineTerminator. */
  predicate IsJsWhitespace(c: char) {
    c == '\t' || c == '\n' || c == '\U{000B}' || c == '\U{000C}' || c == '\r' || c == ' '
    || c == '\U{00A0}' || c == '\U{1680}' || ('\U{2000}' <= c <= '\U{200A}')
    || c == '\U{2028}' || c == '\U{2029}' || c == '\U{202F}' || c == '\U{205F}'
    || c == '\U{3000}' || c == '\U{FEFF}'
  }

  /** `s` without its leading whitespace. */
  function TrimStart(s: string): string {
    if s == [] then []
    else if IsJsWhitespace(s[0]) then TrimStart(s[1..])
    else s
  }

  /** `s` without its trailing whitespace. */
  function TrimEnd(s: string): string {
    if s == [] then []
    else if IsJsWhitespace(s[|s| - 1]) then TrimEnd(s[..|s| - 1])
    else s
  }

  /** TrimStart keeps a suffix that does not start with whitespace and drops only whitespace. */
  lemma {:induction false} TrimStartStrips(s: string)
    ensures |TrimStart(s)| <= |s| && TrimStart(s) == s[|s| - |TrimStart(s)|..]
    ensures TrimStart(s) == [] || !IsJsWhitespace(TrimStart(s)[0])
    ensures forall i :: 0 <= i < |s| - |TrimStart(s)| ==> IsJsWhitespace(s[i])
  {
    if s != [] && IsJsWhitespace(s[0]) {
      var r := TrimStart(s[1..]);
      TrimStartStrips(s[1..]);
      assert TrimStart(s) == r;
      assert s[1..][|s| - 1 - |r|..] == s[|s| - |r|..];
      forall i | 0 <= i < |s| - |r|
        ensures IsJsWhitespace(s[i])
      {
        if i > 0 {
          assert s[i] == s[1..][i - 1];
        }
      }
    } else {
      assert TrimStart(s) == s;
    }
  }

  /** TrimEnd keeps a prefix that does not end with whitespace and drops only whitespace. */
  lemma {:induction false} TrimEndStrips(s: string)
    ensures |TrimEnd(s)| <= |s| && TrimEnd(s) == s[..|TrimEnd(s)|]
    ensures TrimEnd(s) == [] || !IsJsWhitespace(TrimEnd(s)[|TrimEnd(s)| - 1])
    ensures forall i :: |TrimEnd(s)| <= i < |s| ==> IsJsWhitespace(s[i])
  {
    if s != [] && IsJsWhitespace(s[|s| - 1]) {
      var r := TrimEnd(s[..|s| - 1]);
      TrimEndStrips(s[..|s| - 1]);
      assert s[..|s| - 1][..|r|] == s[..|r|];
      forall i | |r| <= i < |s|
        ensures IsJsWhitespace(s[i])
      {
        if i < |s| - 1 {
          assert s[i] == s[..|s| - 1][i];
        }
      }
    }
  }

  /** `s.trim()`. */
  function Trim(s: string): string {
    TrimEnd(TrimStart(s))
  }

  /** `!s.trim()`: the string is empty after trimming. */
  predicate IsBlank(s: string) {
    Trim(s) == []
  }

  /** A string is blank exactly when every character of it is whitespace. */
  lemma BlankIffAllWhitespace(s: string)
    ensures IsBlank(s) <==> forall i :: 0 <= i < |s| ==> IsJsWhitespace(s[i])
  {
    TrimStartStrips(s);
    TrimEndStrips(TrimStart(s));
  }

  /** `resolve(s)` with a separator appended unless it already ends in one. */
  function WithTrailingSep(p: string): (r: string)
    ensures EndsWith(r, [Sep]) && StartsWith(r, p)
    ensures |r| <= |p| + 1
    ensures r == p <==> EndsWith(p, [Sep])
  {
    if EndsWith(p, [Sep]) then p else p + [Sep]
  }

  /** isFolderOutside: the resolved target does not start with the resolved folder plus a separator. */
  predicate IsFolderOutside(resolve: string -> string, targetFolder: string, specifiedFolder: string)
    ensures !IsFolderOutside(resolve, targetFolder, specifiedFolder) ==>
      StartsWith(resolve(targetFolder), resolve(specifiedFolder))
      && (|resolve(targetFolder)| > |resolve(specifiedFolder)| || EndsWith(resolve(specifiedFolder), [Sep]))
  {
    var absoluteTargetFolder := resolve(targetFolder);
    var absoluteSpecifiedFolder := resolve(specifiedFolder);
    !StartsWith(absoluteTargetFolder, WithTrailingSep(absoluteSpecifiedFolder))
  }

  /**
    The same test in path terms: a target is inside a folder that does not
    end in a separator exactly when the folder is a proper prefix of it and
    the next character is a separator.
   */
  lemma InsideIffBelow(resolve: string -> string, t: string, s: string)
    ensures var rt := resolve(t);
      var rs := resolve(s);
      !EndsWith(rs, [Sep]) ==>
        (!IsFolderOutside(resolve, t, s) <==> |rt| > |rs| && rt[..|rs|] == rs && rt[|rs|] == Sep)
    ensures var rt := resolve(t);
      var rs := resolve(s);
      EndsWith(rs, [Sep]) ==> (!IsFolderOutside(resolve, t, s) <==> StartsWith(rt, rs))
  {
    var rt := resolve(t);
    var rs := resolve(s);
    if !EndsWith(rs, [Sep]) {
      var w := rs + [Sep];
      if |rt| > |rs| && rt[..|rs|] == rs && rt[|rs|] == Sep {
        assert rt[..|w|] == rt[..|rs|] + [rt[|rs|]];
      }
      if StartsWith(rt, w) {
        assert rt[..|rs|] == w[..|rs|];
        assert rt[|rs|] == w[|rs|];
      }
    }
  }

  /** Anything below the folder, at any depth, is inside. */
  lemma DescendantIsInside(resolve: string -> string, t: string, s: string, rest: string)
    requires !EndsWith(resolve(s), [Sep])
    requires resolve(t) == resolve(s) + [Sep] + rest
    ensures !IsFolderOutside(resolve, t, s)
  {
    InsideIffBelow(resolve, t, s);
    assert resolve(t)[..|resolve(s)|] == resolve(s);
  }

  /** A sibling whose name merely extends the folder's name (`/a/base2` against `/a/base`) is outside. */
  lemma SharedPrefixSiblingIsOutside(resolve: string -> string, t: string, s: string, suffix: string)
    requires !EndsWith(resolve(s), [Sep])
    requires resolve(t) == resolve(s) + suffix && suffix != [] && suffix[0] != Sep
    ensures IsFolderOutside(resolve, t, s)
  {
    InsideIffBelow(resolve, t, s);
    assert resolve(t)[|resolve(s)|] == suffix[0];
  }

  /**
    A folder is outside itself when its resolved form has no trailing
    separator; it is inside itself only when the resolved form ends in one.
   */
  lemma SameFolderIsOutside(resolve: string -> string, t: string, s: string)
    requires resolve(t) == resolve(s)
    ensures IsFolderOutside(resolve, t, s) <==> !EndsWith(resolve(s), [Sep])
  {
    InsideIffBelow(resolve, t, s);
  }

  /** The checks over absolute paths `/a/base`, `/a/base/inside`, `/a/base2`, `/a/outside`. */
  lemma IsFolderOutsideExamples()
    ensures var id := (p: string) => p;
      && !IsFolderOutside(id, "/a/base/inside", "/a/base")
      && IsFolderOutside(id, "/a/base2", "/a/base")
      && IsFolderOutside(id, "/a/outside", "/a/base")
      && IsFolderOutside(id, "/a/base", "/a/base")
      && !IsFolderOutside(id, "/a/base/", "/a/base/")
  {
    var id := (p: string) => p;
    DescendantIsInside(id, "/a/base/inside", "/a/base", "inside");
    SharedPrefixSiblingIsOutside(id, "/a/base2", "/a/base", "2");
    assert "/a/outside"[3] != "/a/base/"[3];
    SameFolderIsOutside(id, "/a/base", "/a/base");
    SameFolderIsOutside(id, "/a/base/", "/a/base/");
  }

  /** Why validate rejects its arguments; `SourceStatFailed` stands for whatever `fs.statSync` throws. */
  datatype ZipError =
    | EmptySource
    | EmptyDest
    | EmptyWorkspace
    | AbsoluteSource
    | SourceOutsideWorkspace
    | SourceStatFailed
    | NotADirectory
    | NotAZipFile

  /** The message of the error validate throws; the stat error's message is Node's own. */
  function Message(e: ZipError): Option<string> {
    match e
    case EmptySource => Some("The source path cannot be empty.")
    case EmptyDest => Some("The destination file cannot be empty.")
    case EmptyWorkspace => Some("The workspace path cannot be empty.")
    case AbsoluteSource => Some("Invalid source folder: absolute path is not supported.")
    case SourceOutsideWorkspace => Some("Invalid source folder: the source path is outside the user workspace.")
    case SourceStatFailed => None
    case NotADirectory => Some("Invalid source folder: the source must be a directory.")
    case NotAZipFile => Some("Invalid zip filename: Only .zip files are permitted.")
  }

  /** Every error validate throws carries its own message, except the stat error, whose message is Node's. */
  lemma MessageOnlyForOwnErrors(e: ZipError)
    ensures Message(e).None? <==> e == SourceStatFailed
  {
  }

  /** The position of each check in validate's sequence. */
  function Rank(e: ZipError): (k: nat)
    ensures k < 8
  {
    match e
    case EmptySource => 0
    case EmptyDest => 1
    case EmptyWorkspace => 2
    case AbsoluteSource => 3
    case SourceOutsideWorkspace => 4
    case SourceStatFailed => 5
    case NotADirectory => 6
    case NotAZipFile => 7
  }

  /** Whether the check for `e`, taken on its own, rejects the arguments. */
  predicate Rejects(e: ZipError, source: string, dest: string, workspace: string,
                    resolve: string -> string, disk: string -> StatResult) {
    match e
    case EmptySource => IsBlank(source)
    case EmptyDest => IsBlank(dest)
    case EmptyWorkspace => IsBlank(workspace)
    case AbsoluteSource => IsAbsolute(source)
    case SourceOutsideWorkspace => IsFolderOutside(resolve, source, workspace)
    case SourceStatFailed => disk(source).StatFailed?
    case NotADirectory => disk(source).Stats? && !disk(source).isDirectory
    case NotAZipFile => !EndsWith(dest, ".zip")
  }

  /** validate: the guards in order, the first one that fails decides. */
  function Validate(source: string, dest: string, workspace: string,
                    resolve: string -> string, disk: string -> StatResult): (r: Outcome<ZipError>)
    ensures r.Fail? ==> Rejects(r.error, source, dest, workspace, resolve, disk)
  {
    if IsBlank(source) then Fail(EmptySource)
    else if IsBlank(dest) then Fail(EmptyDest)
    else if IsBlank(workspace) then Fail(EmptyWorkspace)
    else if IsAbsolute(source) then Fail(AbsoluteSource)
    else if IsFolderOutside(resolve, source, workspace) then Fail(SourceOutsideWorkspace)
    else
      var stats := disk(source);
      if stats.StatFailed? then Fail(SourceStatFailed)
      else if !stats.isDirectory then Fail(NotADirectory)
      else if !EndsWith(dest, ".zip") then Fail(NotAZipFile)
      else Pass
  }

  /** validate fails with `e` exactly when the check for `e` rejects and every earlier check accepts. */
  lemma ValidateFirstFailingCheck(source: string, dest: string, workspace: string,
                                  resolve: string -> string, disk: string -> StatResult, e: ZipError)
    ensures Validate(source, dest, workspace, resolve, disk) == Fail(e) <==>
      Rejects(e, source, dest, workspace, resolve, disk)
      && forall e' :: Rank(e') < Rank(e) ==> !Rejects(e', source, dest, workspace, resolve, disk)
  {
    var v := Validate(source, dest, workspace, resolve, disk);
    if v == Fail(e) {
      forall e' | Rank(e') < Rank(e)
        ensures !Rejects(e', source, dest, workspace, resolve, disk)
      {
      }
    } else if Rejects(e, source, dest, workspace, resolve, disk) {
      match v
      case Pass =>
      case Fail(e0) =>
        assert Rejects(e0, source, dest, workspace, resolve, disk);
        assert Rank(e0) < Rank(e);
    }
  }

  /** validate accepts exactly when no check rejects. */
  lemma ValidatePassIff(source: string, dest: string, workspace: string,
                        resolve: string -> string, disk: string -> StatResult)
    ensures Validate(source, dest, workspace, resolve, disk) == Pass <==>
      forall e :: !Rejects(e, source, dest, workspace, resolve, disk)
  {
    if Validate(source, dest, workspace, resolve, disk) == Pass {
      forall e ensures !Rejects(e, source, dest, workspace, resolve, disk) {
      }
    } else {
      var e :| Validate(source, dest, workspace, resolve, disk) == Fail(e);
      assert Rejects(e, source, dest, workspace, resolve, disk);
    }
  }

  /** Validation never accepts a blank or absolute source or a destination without `.zip`. */
  lemma ValidateAcceptsOnlyRelativeZip(source: string, dest: string, workspace: string,
                                       resolve: string -> string, disk: string -> StatResult)
    requires Validate(source, dest, workspace, resolve, disk) == Pass
    ensures source != [] && !IsAbsolute(source) && EndsWith(dest, ".zip")
    ensures !IsFolderOutside(resolve, source, workspace) && disk(source) == Stats(true, disk(source).isFile)
  {
    assert !IsBlank(source) && !IsBlank(dest) && !IsBlank(workspace);
    assert !IsAbsolute(source) && !IsFolderOutside(resolve, source, workspace);
    assert IsBlank([]);
  }

  /** getCommand: `zip` on macOS, PowerShell `Compress-Archive` on Windows, nothing elsewhere. */
  function GetCommand(osPlatform: string, source: string, dest: string): (command: string)
    ensures command == "" <==> osPlatform != "darwin" && osPlatform != "win32"
  {
    if osPlatform == "darwin" then "zip -ryq \"" + dest + "\" \"" + source + "\""
    else if osPlatform == "win32" then "Compress-Archive -Path " + source + " -DestinationPath " + dest + " -Force"
    else ""
  }

  /** There is a command exactly on the two supported platforms, and it names both paths. */
  lemma GetCommandSupportedPlatforms(osPlatform: string, source: string, dest: string)
    ensures GetCommand(osPlatform, source, dest) == "" <==> osPlatform != "darwin" && osPlatform != "win32"
    ensures osPlatform == "darwin" ==>
      StartsWith(GetCommand(osPlatform, source, dest), "zip -ryq \"" + dest)
      && EndsWith(GetCommand(osPlatform, source, dest), source + "\"")
    ensures osPlatform == "win32" ==>
      StartsWith(GetCommand(osPlatform, source, dest), "Compress-Archive -Path " + source)
      && EndsWith(GetCommand(osPlatform, source, dest), dest + " -Force")
  {
    var c := GetCommand(osPlatform, source, dest);
    if osPlatform == "darwin" {
      assert c[0] == 'z';
      var p := "zip -ryq \"" + dest;
      assert c == p + ("\" \"" + source + "\"");
      assert c == ("zip -ryq \"" + dest + "\" \"") + (source + "\"");
    } else if osPlatform == "win32" {
      assert c[0] == 'C';
      assert c == ("Compress-Archive -Path " + source) + (" -DestinationPath " + dest + " -Force");
      assert c == ("Compress-Archive -Path " + source + " -DestinationPath ") + (dest + " -Force");
    }
  }

  /** The five path checks pass, so validate goes on to stat the source. */
  predicate ReachesStat(source: string, dest: string, workspace: string, resolve: string -> string) {
    !IsBlank(source) && !IsBlank(dest) && !IsBlank(workspace)
    && !IsAbsolute(source) && !IsFolderOutside(resolve, source, workspace)
  }

  /** What zip does: stat the source once the path checks pass, then run the command if valid and supported. */
  function ZipEvents(source: string, dest: string, workspace: string, resolve: string -> string,
                     disk: string -> StatResult, osPlatform: string): seq<Event> {
    var command := GetCommand(osPlatform, source, dest);
    (if ReachesStat(source, dest, workspace, resolve) then [Stat(source)] else [])
    + (if Validate(source, dest, workspace, resolve, disk).Pass? && command != "" then [Exec(command)] else [])
  }

  /** A command runs exactly when validation passes on a supported platform, and only that command. */
  lemma ZipExecutesOnlyWhenValid(source: string, dest: string, workspace: string, resolve: string -> string,
                                 disk: string -> StatResult, osPlatform: string)
    ensures var events := ZipEvents(source, dest, workspace, resolve, disk, osPlatform);
      && ((exists e :: e in events && e.Exec?) <==>
            Validate(source, dest, workspace, resolve, disk).Pass?
            && (osPlatform == "darwin" || osPlatform == "win32"))
      && (forall e :: e in events && e.Exec? ==> e == Exec(GetCommand(osPlatform, source, dest)))
      && |events| <= 2
  {
    GetCommandSupportedPlatforms(osPlatform, source, dest);
    var stat := if ReachesStat(source, dest, workspace, resolve) then [Stat(source)] else [];
    var command := GetCommand(osPlatform, source, dest);
    ExecOnlyWhenRun(stat, Validate(source, dest, workspace, resolve, disk).Pass? && command != "", command);
  }

  lemma ExecOnlyWhenRun(stat: seq<Event>, run: bool, command: string)
    requires |stat| <= 1 && forall e :: e in stat ==> e.Stat?
    ensures var events := stat + (if run then [Exec(command)] else []);
      && ((exists e :: e in events && e.Exec?) <==> run)
      && (forall e :: e in events && e.Exec? ==> e == Exec(command))
      && |events| <= 2
  {
    var events := stat + (if run then [Exec(command)] else []);
    if run {
      assert events[|events| - 1] == Exec(command);
    }
  }

  /** validate, on the host: it throws (here, returns) the first failing check's error. */
  method ValidateOn(host: Host, source: string, dest: string, workspace: string, resolve: string -> string)
    returns (r: Outcome<ZipError>)
    modifies host
    ensures r == Validate(source, dest, workspace, resolve, host.disk)
    ensures host.trace == old(host.trace)
      + (if ReachesStat(source, dest, workspace, resolve) then [Stat(source)] else [])
  {
    if IsBlank(source) {
      return Fail(EmptySource);
    }
    if IsBlank(dest) {
      return Fail(EmptyDest);
    }
    if IsBlank(workspace) {
      return Fail(EmptyWorkspace);
    }
    if IsAbsolute(source) {
      return Fail(AbsoluteSource);
    }
    if IsFolderOutside(resolve, source, workspace) {
      return Fail(SourceOutsideWorkspace);
    }
    var stats := host.StatPath(source);
    if stats.StatFailed? {
      return Fail(SourceStatFailed);
    }
    if !stats.isDirectory {
      return Fail(NotADirectory);
    }
    if !EndsWith(dest, ".zip") {
      return Fail(NotAZipFile);
    }
    return Pass;
  }

  /** zip: validate, then run the platform's command if there is one; the caught error is returned. */
  method Zip(host: Host, source: string, dest: string, workspace: string, resolve: string -> string,
             osPlatform: string)
    returns (caught: Option<ZipError>)
    modifies host
    ensures host.trace == old(host.trace) + ZipEvents(source, dest, workspace, resolve, host.disk, osPlatform)
    ensures caught.Some? <==> Validate(source, dest, workspace, resolve, host.disk).Fail?
    ensures caught.Some? ==> Validate(source, dest, workspace, resolve, host.disk) == Fail(caught.value)
  {
    var v := ValidateOn(host, source, dest, workspace, resolve);
    if v.Fail? {
      return Some(v.error);
    }
    var command := GetCommand(osPlatform, source, dest);
    if command != "" {
      host.ExecSync(GetCommand(osPlatform, source, dest));
    }
    return None;
  }
}
