/** `bun repo test` and `bun repo test:e2e`: the command lines they run
    and the directory they run them in. The file system is an input (the
    listing of `apps/`, the root package's name); running the command
    is left out. */
module TestCommand {
  import opened Common
  import opened Apps
  import opened Text
  import opened Scope

  /** `--watch` or `-w` is among the arguments. */
  predicate Watch(args: seq<string>) {
    "--watch" in args || "-w" in args
  }

  /** The flags passed through to vitest, in the order they are pushed. */
  function Extras(args: seq<string>): (ex: seq<string>)
    ensures |ex| == (if Watch(args) then 1 else 0) + (if "--coverage" in args then 1 else 0)
    ensures Watch(args) ==> ex[0] == "--watch"
    ensures "--coverage" in args ==> ex[|ex| - 1] == "--coverage"
    ensures forall i :: 0 <= i < |ex| ==> ex[i] == "--watch" || ex[i] == "--coverage"
  {
    (if Watch(args) then ["--watch"] else []) + (if "--coverage" in args then ["--coverage"] else [])
  }

  /** The turbo command line of `test`, for the app name as a truthiness
      check sees it, the package scope and the vitest flags. */
  function TestLine(app: string, scope: string, ex: seq<string>): seq<string> {
    ["turbo", "run", "test"]
    + (if app == "" then [] else ["--filter", scope + "/" + app + "..."])
    + (if |ex| > 0 then ["--"] + ex else [])
  }

  /** Where things sit on the line: the turbo invocation, then the filter
      for the app and its dependencies when an app is given, then `--` and
      the vitest flags when there are any. */
  lemma TestLineLayout(app: string, scope: string, ex: seq<string>)
    ensures var cmd := TestLine(app, scope, ex);
            var filter := if app == "" then 0 else 2;
            && |cmd| == 3 + filter + (if |ex| > 0 then 1 + |ex| else 0)
            && cmd[..3] == ["turbo", "run", "test"]
            && (app != "" ==> cmd[3..5] == ["--filter", scope + "/" + app + "..."])
            && (|ex| > 0 ==> cmd[3 + filter..] == ["--"] + ex)
  {
    var head := ["turbo", "run", "test"] + (if app == "" then [] else ["--filter", scope + "/" + app + "..."]);
    var tail := if |ex| > 0 then ["--"] + ex else [];
    assert TestLine(app, scope, ex) == head + tail;
    assert (head + tail)[..|head|] == head;
    assert (head + tail)[|head|..] == tail;
  }

  /** A `--filter` is on the line exactly when an app is given. */
  lemma FilterMarker(app: string, scope: string, ex: seq<string>)
    requires StartsWith(scope, "@")
    requires forall i :: 0 <= i < |ex| ==> ex[i] == "--watch" || ex[i] == "--coverage"
    ensures "--filter" in TestLine(app, scope, ex) <==> app != ""
  {
    var base := ["turbo", "run", "test"];
    var filter := if app == "" then [] else ["--filter", scope + "/" + app + "..."];
    var tail := if |ex| > 0 then ["--"] + ex else [];
    assert TestLine(app, scope, ex) == base + filter + tail;
    assert "--filter" !in base;
    assert "--filter" !in tail;
    if app != "" {
      assert filter[0] == "--filter";
    }
  }

  /** A `--` is on the line exactly when there are flags for vitest. */
  lemma DashMarker(app: string, scope: string, ex: seq<string>)
    requires StartsWith(scope, "@")
    requires forall i :: 0 <= i < |ex| ==> ex[i] == "--watch" || ex[i] == "--coverage"
    ensures "--" in TestLine(app, scope, ex) <==> |ex| > 0
  {
    var base := ["turbo", "run", "test"];
    var filter := if app == "" then [] else ["--filter", scope + "/" + app + "..."];
    var tail := if |ex| > 0 then ["--"] + ex else [];
    assert TestLine(app, scope, ex) == base + filter + tail;
    assert "--" !in base;
    if app != "" {
      assert (scope + "/" + app + "...")[0] == '@';
      assert "--" !in filter;
    }
    if |ex| > 0 {
      assert tail[0] == "--";
    }
  }

  /** `test(args)`: the error that ends the command, or the turbo command
      line and the directory it runs in. An app is optional here: without
      one every package's tests run; with one only that app and its
      dependencies, through a `--filter` on the root package's scope.
      `rootName` is the `name` of the root `package.json`. */
  method Test(args: seq<string>, listing: Option<seq<DirEntry>>, root: string, rootName: string)
    returns (r: Result<(seq<string>, string), AppError>)
    ensures AppName(args) != "" && !ValidateApp(AppName(args), listing) ==> r == Err(UnknownApp(AppName(args)))
    ensures r.Ok? <==> AppName(args) == "" || ValidateApp(AppName(args), listing)
    ensures r.Ok? ==> r.value == (TestLine(AppName(args), PackageScope(rootName), Extras(args)), root)
  {
    var appName := AppName(args);
    var watch := "--watch" in args || "-w" in args;
    var coverage := "--coverage" in args;
    var cmd := ["turbo", "run", "test"];
    if appName != "" {
      var name := appName;
      if !ValidateApp(name, listing) {
        return Err(UnknownApp(name));
      }
      var scope := PackageScope(rootName);
      cmd := cmd + ["--filter", scope + "/" + name + "..."];
    }
    ghost var head := cmd;
    assert head == ["turbo", "run", "test"]
                   + (if AppName(args) == "" then [] else ["--filter", PackageScope(rootName) + "/" + AppName(args) + "..."]);
    var extraFlags := [];
    if watch {
      extraFlags := extraFlags + ["--watch"];
    }
    if coverage {
      extraFlags := extraFlags + ["--coverage"];
    }
    assert extraFlags == Extras(args);
    if |extraFlags| > 0 {
      cmd := cmd + ["--"] + extraFlags;
    }
    assert cmd == head + (if |extraFlags| > 0 then ["--"] + extraFlags else []);
    r := Ok((cmd, root));
  }

  /** The flags `testE2e` pushes, in order. */
  function E2eFlags(args: seq<string>): seq<string> {
    (if "--headed" in args then ["--headed"] else [])
    + (if "--ui" in args then ["--ui"] else [])
    + (if "--debug" in args then ["--debug"] else [])
  }

  /** The pushes onto `cmd` in `testE2e`. */
  method PlaywrightCommand(args: seq<string>) returns (cmd: seq<string>)
    ensures cmd == ["bunx", "playwright", "test"] + E2eFlags(args)
  {
    var headed := "--headed" in args;
    var ui := "--ui" in args;
    var debug := "--debug" in args;
    cmd := ["bunx", "playwright", "test"];
    ghost var flags: seq<string> := [];
    if headed {
      cmd := cmd + ["--headed"];
      flags := flags + ["--headed"];
    }
    if ui {
      cmd := cmd + ["--ui"];
      flags := flags + ["--ui"];
    }
    if debug {
      cmd := cmd + ["--debug"];
      flags := flags + ["--debug"];
    }
    assert cmd == ["bunx", "playwright", "test"] + flags;
  }

  /** The Playwright flags, in the order they are pushed, are each there
      exactly when requested; none of them is part of the command itself. */
  lemma PlaywrightFlags(args: seq<string>, flags: seq<string>)
    requires flags == E2eFlags(args)
    ensures var cmd := ["bunx", "playwright", "test"] + flags;
            && |cmd| == 3 + |flags|
            && cmd[..3] == ["bunx", "playwright", "test"] && cmd[3..] == flags
            && ("--headed" in cmd <==> "--headed" in args)
            && ("--ui" in cmd <==> "--ui" in args)
            && ("--debug" in cmd <==> "--debug" in args)
  {
    var cmd := ["bunx", "playwright", "test"] + flags;
    assert cmd[..3] == ["bunx", "playwright", "test"] && cmd[3..] == flags;
    assert forall x :: x in cmd <==> x in ["bunx", "playwright", "test"] || x in flags;
  }

  /** `testE2e(args)`: the error that ends the command, or the Playwright
      command line and the app directory it runs in. */
  method TestE2e(args: seq<string>, listing: Option<seq<DirEntry>>, root: string)
    returns (r: Result<(seq<string>, string), AppError>)
    ensures AppName(args) == "" ==> r == Err(MissingApp)
    ensures AppName(args) != "" && !ValidateApp(AppName(args), listing) ==> r == Err(UnknownApp(AppName(args)))
    ensures r.Ok? <==> AppName(args) != "" && ValidateApp(AppName(args), listing)
    ensures r.Ok? ==>
              var cmd := r.value.0;
              && r.value.1 == AppDir(root, AppName(args))
              && |cmd| == 3 + (if "--headed" in args then 1 else 0) + (if "--ui" in args then 1 else 0)
                            + (if "--debug" in args then 1 else 0)
              && cmd[..3] == ["bunx", "playwright", "test"]
              && ("--headed" in cmd <==> "--headed" in args)
              && ("--ui" in cmd <==> "--ui" in args)
              && ("--debug" in cmd <==> "--debug" in args)
              && cmd[3..] == (if "--headed" in args then ["--headed"] else [])
                             + (if "--ui" in args then ["--ui"] else [])
                             + (if "--debug" in args then ["--debug"] else [])
  {
    var name := AppName(args);
    if name == "" {
      return Err(MissingApp);
    }
    if !ValidateApp(name, listing) {
      return Err(UnknownApp(name));
    }
    var appDir := AppDir(root, name);
    var cmd := PlaywrightCommand(args);
    PlaywrightFlags(args, E2eFlags(args));
    r := Ok((cmd, appDir));
  }
}
