/** The command line: `check` or `mark`, a package path, a connection string
    and an optional `-namekey`; anything else prints usage and exits 1. */
module Program {
  import opened Wrappers
  import opened PropertyStore
  import opened DacpacChecksumService

  datatype Command =
    | Check(path: string, connectionString: string, useFileName: bool)
    | Mark(path: string, connectionString: string, useFileName: bool)
    | Usage

  const NameKeyFlag: string := "-namekey"

  function ToUpperAscii(c: char): char {
    if 'a' <= c <= 'z' then (c as int - 32) as char else c
  }

  /** `StringComparison.OrdinalIgnoreCase`, with ASCII case folding. */
  predicate EqualsIgnoreCase(a: string, b: string) {
    |a| == |b| && forall i :: 0 <= i < |a| ==> ToUpperAscii(a[i]) == ToUpperAscii(b[i])
  }

  /** The flag is set only by a fourth argument equal to `-namekey` in any case. */
  function UseFileName(args: seq<string>): (b: bool)
    ensures b ==> |args| == 4
  {
    |args| == 4 && EqualsIgnoreCase(args[3], NameKeyFlag)
  }

  /** The dispatch at the head of `Main`. */
  function ParseArgs(args: seq<string>): (c: Command)
    ensures c.Check? <==> (|args| == 3 || |args| == 4) && args[0] == "check"
    ensures c.Mark? <==> (|args| == 3 || |args| == 4) && args[0] == "mark"
    ensures !c.Usage? ==> c.path == args[1] && c.connectionString == args[2]
    ensures !c.Usage? ==> (c.useFileName <==> |args| == 4 && EqualsIgnoreCase(args[3], NameKeyFlag))
  {
    if (|args| == 3 || |args| == 4) && args[0] == "check" then Check(args[1], args[2], UseFileName(args))
    else if (|args| == 3 || |args| == 4) && args[0] == "mark" then Mark(args[1], args[2], UseFileName(args))
    else Usage
  }

  /** `check` exits 0 when deployed and 1 otherwise; an exception escapes. */
  function CheckExitCode(deployed: Result<bool, Error>): (r: Result<int, Error>)
    ensures r == Ok(0) <==> deployed == Ok(true)
    ensures r == Ok(1) <==> deployed == Ok(false)
    ensures r.Err? <==> deployed.Err?
    ensures r.Err? ==> r.error == deployed.error
  {
    if deployed.Err? then Err(deployed.error) else Ok(if deployed.value then 0 else 1)
  }

  /** `mark` exits 0 whenever the service completes; an exception escapes. */
  function MarkExitCode(marked: Result<(), Error>): (r: Result<int, Error>)
    ensures r == Ok(0) <==> marked.Ok?
    ensures r.Err? <==> marked.Err?
    ensures r.Err? ==> r.error == marked.error
  {
    if marked.Err? then Err(marked.error) else Ok(0)
  }

  /** The exit code `Main` returns (an escaping exception is an Err) and the
      store afterwards. `packages` gives what each path's archive yields. */
  function RunOutcome(args: seq<string>, env: Env, packages: string -> Option<Package>,
                      stored: map<string, string>): (r: (Result<int, Error>, map<string, string>))
    ensures r.0.Ok? ==> r.0.value == 0 || r.0.value == 1
    ensures ParseArgs(args).Usage? ==> r == (Ok(1), stored)
    ensures ParseArgs(args).Check? ==> var c := ParseArgs(args);
      var deployed := CheckOutcome(env, c.path, packages(c.path), c.connectionString, c.useFileName, stored);
      r.1 == stored
      && (r.0 == Ok(0) <==> deployed == Ok(true))
      && (r.0 == Ok(1) <==> deployed == Ok(false))
      && (r.0.Err? ==> r.0 == Err(deployed.error))
    ensures ParseArgs(args).Mark? ==> var c := ParseArgs(args);
      var marked := MarkOutcome(env, c.path, packages(c.path), c.connectionString, c.useFileName, stored);
      r.1 == marked.1 && r.0 != Ok(1)
      && (r.0 == Ok(0) <==> marked.0.Ok?)
      && (r.0.Err? ==> r.0 == Err(marked.0.error))
  {
    var c := ParseArgs(args);
    if c.Check? then
      (CheckExitCode(CheckOutcome(env, c.path, packages(c.path), c.connectionString, c.useFileName, stored)), stored)
    else if c.Mark? then
      var marked := MarkOutcome(env, c.path, packages(c.path), c.connectionString, c.useFileName, stored);
      (MarkExitCode(marked.0), marked.1)
    else (Ok(1), stored)
  }

  /** `Main`: dispatch, run the service, map the outcome to an exit code. */
  method Run(args: seq<string>, env: Env, packages: string -> Option<Package>, store: Store)
    returns (exitCode: Result<int, Error>)
    requires store.Valid()
    modifies store
    ensures store.Valid()
    ensures (exitCode, store.Contents()) == RunOutcome(args, env, packages, old(store.Contents()))
  {
    if (|args| == 3 || |args| == 4) && args[0] == "check" {
      var useFileName := false;
      if |args| == 4 && EqualsIgnoreCase(args[3], NameKeyFlag) {
        useFileName := true;
      }
      var deployed := CheckIfDeployed(args[1], packages(args[1]), args[2], useFileName, env, store);
      return CheckExitCode(deployed);
    }
    if (|args| == 3 || |args| == 4) && args[0] == "mark" {
      var useFileName := false;
      if |args| == 4 && EqualsIgnoreCase(args[3], NameKeyFlag) {
        useFileName := true;
      }
      var marked := SetChecksum(args[1], packages(args[1]), args[2], useFileName, env, store);
      return MarkExitCode(marked);
    }
    return Ok(1);
  }

  /** Only three or four arguments are ever dispatched. */
  lemma WrongArityIsUsage(args: seq<string>)
    requires |args| != 3 && |args| != 4
    ensures ParseArgs(args) == Usage
  {
  }

  /** The subcommand is matched exactly: `Check` or `MARK` print usage. */
  lemma SubcommandIsCaseSensitive(path: string, cs: string)
    ensures ParseArgs(["Check", path, cs]) == Usage
    ensures ParseArgs(["MARK", path, cs]) == Usage
  {
    assert "Check" != "check";
    assert "MARK" != "mark";
  }

  /** The flag matches in any letter case. */
  lemma FlagIgnoresCase(path: string, cs: string)
    ensures ParseArgs(["check", path, cs, "-NameKey"]) == Check(path, cs, true)
  {
    assert EqualsIgnoreCase("-NameKey", NameKeyFlag);
  }

  /** An unrecognised fourth argument is ignored: no usage error, and the path
      digest is used as key. */
  lemma UnknownFlagIgnored(args: seq<string>)
    requires |args| == 4 && (args[0] == "check" || args[0] == "mark")
    requires !EqualsIgnoreCase(args[3], NameKeyFlag)
    ensures ParseArgs(args) != Usage && !ParseArgs(args).useFileName
  {
  }
}
