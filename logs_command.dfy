/** `bun repo logs --app <name> [--follow|-f] [--service=<s>] [--tail=<n>]`:
    checks the app, then builds the `docker compose ... logs` command line.
    The file system is an input (the listing of `apps/`, and whether a
    path exists); running the command and printing are left out. */
module LogsCommand {
  import opened Common
  import opened Text
  import opened Apps

  /** `args.find(a => a.startsWith(p))`: the first argument with prefix
      `p`. */
  function FindPrefixed(args: seq<string>, p: string): (r: Option<string>)
    ensures r.None? <==> forall i :: 0 <= i < |args| ==> !StartsWith(args[i], p)
    ensures r.Some? ==> exists i :: 0 <= i < |args| && args[i] == r.value && StartsWith(r.value, p) &&
                                    forall j :: 0 <= j < i ==> !StartsWith(args[j], p)
    decreases |args|
  {
    if |args| == 0 then None
    else if StartsWith(args[0], p) then Some(args[0])
    else
      var r := FindPrefixed(args[1..], p);
      assert forall j :: 0 < j < |args| ==> args[j] == args[1..][j - 1];
      r
  }

  /** `arg.split('=')[1]` for an argument `<flag>=...`: the text after the
      first `=` up to the next `=`, or to the end. */
  function OptionValue(arg: string, flag: string): (v: string)
    requires '=' !in flag && StartsWith(arg, flag + "=")
    ensures var rest := arg[|flag| + 1..];
            v == if '=' in rest then rest[..IndexOf(rest, '=')] else rest
    ensures '=' !in v
  {
    var rest := arg[|flag| + 1..];
    assert arg == flag + ['='] + rest by {
      assert arg[..|flag| + 1] == flag + "=";
    }
    SplitPieceThenRest(flag, '=', rest);
    FirstPiece(rest, '=');
    Split(arg, "=")[1]
  }

  /** `args.find(a => a.startsWith('<flag>='))?.split('=')[1]` */
  function ArgValue(args: seq<string>, flag: string): (v: Option<string>)
    requires '=' !in flag
    ensures v.None? <==> forall i :: 0 <= i < |args| ==> !StartsWith(args[i], flag + "=")
    ensures v.Some? ==> '=' !in v.value
  {
    match FindPrefixed(args, flag + "=")
    case None => None
    case Some(a) => Some(OptionValue(a, flag))
  }

  /** An argument `<flag>=<value>`, with no `=` in the value and no earlier
      argument for the same flag, is read back as `<value>`. */
  lemma ArgValueRoundTrip(before: seq<string>, flag: string, value: string, after: seq<string>)
    requires '=' !in flag && '=' !in value
    requires forall i :: 0 <= i < |before| ==> !StartsWith(before[i], flag + "=")
    ensures ArgValue(before + [flag + "=" + value] + after, flag) == Some(value)
  {
    var args := before + [flag + "=" + value] + after;
    var a := flag + "=" + value;
    assert args[|before|] == a;
    assert StartsWith(a, flag + "=") by {
      assert a[..|flag| + 1] == flag + "=";
    }
    var r := FindPrefixed(args, flag + "=");
    var i :| 0 <= i < |args| && args[i] == r.value && StartsWith(r.value, flag + "=") &&
             forall j :: 0 <= j < i ==> !StartsWith(args[j], flag + "=");
    assert forall j :: 0 <= j < |before| ==> args[j] == before[j];
    assert i == |before|;
    assert r.value == a;
    assert a[|flag| + 1..] == value;
  }

  /** `--follow` or `-f` is among the arguments. */
  predicate Follow(args: seq<string>) {
    "--follow" in args || "-f" in args
  }

  /** The service to show, `""` when none was given (an absent value and an
      empty one are both falsy). */
  function Service(args: seq<string>): (s: string)
    ensures (forall i :: 0 <= i < |args| ==> !StartsWith(args[i], "--service=")) ==> s == ""
    ensures s != "" ==> Some(s) == ArgValue(args, "--service")
  {
    ArgValue(args, "--service").OrElse("")
  }

  /** `tailArg?.split('=')[1] || '100'`: the given count, or 100 when none
      or an empty one was given. */
  function Tail(args: seq<string>): (t: string)
    ensures t != ""
    ensures (forall i :: 0 <= i < |args| ==> !StartsWith(args[i], "--tail=")) ==> t == "100"
    ensures t != "100" ==> Some(t) == ArgValue(args, "--tail")
  {
    var v := ArgValue(args, "--tail").OrElse("");
    if v == "" then "100" else v
  }

  /** The command line `logs` runs for a compose file. */
  function LogsLine(args: seq<string>, composeFile: string): seq<string> {
    ["docker", "compose", "-f", composeFile, "logs", "--tail=" + Tail(args)]
    + (if Follow(args) then ["-f"] else [])
    + (if Service(args) != "" then [Service(args)] else [])
  }

  /** What the line holds: the compose invocation with the tail count,
      then `-f` when following, then the service when one was named. */
  lemma LogsLineShape(args: seq<string>, composeFile: string)
    ensures var cmd := LogsLine(args, composeFile);
            && |cmd| == 6 + (if Follow(args) then 1 else 0) + (if Service(args) != "" then 1 else 0)
            && cmd[..6] == ["docker", "compose", "-f", composeFile, "logs", "--tail=" + Tail(args)]
            && (Follow(args) ==> cmd[6] == "-f")
            && (Service(args) != "" ==> cmd[|cmd| - 1] == Service(args))
  {
    var head := ["docker", "compose", "-f", composeFile, "logs", "--tail=" + Tail(args)];
    var follow, service := Follow(args), Service(args);
    var f := if follow then ["-f"] else [];
    var sv := if service != "" then [service] else [];
    var cmd := head + f + sv;
    assert LogsLine(args, composeFile) == cmd;
    assert cmd == head + (f + sv) && cmd[..6] == head;
  }

  /** `logs(args)`: the error that ends the command, or the command line it
      runs. `listing` is the listing of `apps/`; `pathExists` tells which
      paths exist. */
  method Logs(args: seq<string>, listing: Option<seq<DirEntry>>, root: string, pathExists: string -> bool)
    returns (r: Result<seq<string>, AppError>)
    ensures AppName(args) == "" ==> r == Err(MissingApp)
    ensures AppName(args) != "" && !ValidateApp(AppName(args), listing) ==> r == Err(UnknownApp(AppName(args)))
    ensures ValidateApp(AppName(args), listing) && AppName(args) != "" && !pathExists(AppDir(root, AppName(args)) + "/compose.yml") ==>
              r == Err(NoComposeFile(AppName(args)))
    ensures r.Ok? <==> AppName(args) != "" && ValidateApp(AppName(args), listing) && pathExists(AppDir(root, AppName(args)) + "/compose.yml")
    ensures r.Ok? ==> r.value == LogsLine(args, AppDir(root, AppName(args)) + "/compose.yml")
  {
    var name := AppName(args);
    if name == "" {
      return Err(MissingApp);
    }
    if !ValidateApp(name, listing) {
      return Err(UnknownApp(name));
    }
    var follow := "--follow" in args || "-f" in args;
    var service := Service(args);
    var tail := Tail(args);
    var composeFile := AppDir(root, name) + "/compose.yml";
    if !pathExists(composeFile) {
      return Err(NoComposeFile(name));
    }
    var command := ["docker", "compose", "-f", composeFile, "logs", "--tail=" + tail];
    ghost var head := command;
    if follow {
      command := command + ["-f"];
    }
    ghost var middle := command;
    if service != "" {
      command := command + [service];
    }
    assert command == middle + (if Service(args) != "" then [Service(args)] else []);
    r := Ok(command);
  }

  /** A `--service=<name>` argument ends the command line with `<name>`. */
  lemma ServiceGiven(before: seq<string>, name: string, after: seq<string>)
    requires '=' !in name && name != ""
    requires forall i :: 0 <= i < |before| ==> !StartsWith(before[i], "--service=")
    ensures Service(before + ["--service=" + name] + after) == name
  {
    assert "--service" + "=" + name == "--service=" + name;
    ArgValueRoundTrip(before, "--service", name, after);
  }

  /** A `--tail=<n>` argument with a non-empty `<n>` sets the count. */
  lemma TailGiven(before: seq<string>, n: string, after: seq<string>)
    requires '=' !in n && n != ""
    requires forall i :: 0 <= i < |before| ==> !StartsWith(before[i], "--tail=")
    ensures Tail(before + ["--tail=" + n] + after) == n
  {
    assert "--tail" + "=" + n == "--tail=" + n;
    ArgValueRoundTrip(before, "--tail", n, after);
  }
}
