/** The CLI's app helpers: the apps found under `apps/`, the `--app
    <name>` argument, whether a name is one of the apps, and the directories
    of an app. The listing of `apps/` is an input; a path is its segments
    joined with `/`. */
module Apps {
  import opened Common
  import opened Text

  /** `parseAppArg(args)`: the argument right after the first `--app`;
      nothing when there is no `--app` or the first one is the last
      argument. */
  function ParseAppArg(args: seq<string>): (r: Option<string>)
    ensures r.Some? ==> exists i :: 0 <= i < |args| - 1 && args[i] == "--app" && "--app" !in args[..i] && r.value == args[i + 1]
    ensures r.None? <==> "--app" !in args || (args[|args| - 1] == "--app" && "--app" !in args[..|args| - 1])
  {
    var i := IndexOf(args, "--app");
    if i == -1 || i == |args| - 1 then None else Some(args[i + 1])
  }

  /** The app name as a truthiness check sees it: `null` and `""` are
      both falsy and both read as `""` here. */
  function AppName(args: seq<string>): (n: string)
    ensures n != "" ==> ParseAppArg(args) == Some(n)
    ensures n == "" <==> ParseAppArg(args).None? || ParseAppArg(args) == Some("")
  {
    ParseAppArg(args).OrElse("")
  }

  /** Why a CLI command stops before running anything. */
  datatype AppError = MissingApp | UnknownApp(name: string) | NoComposeFile(name: string)

  /** An entry of the `apps/` directory: its name, whether it is a
      directory, and whether it holds a `package.json`. */
  datatype DirEntry = DirEntry(name: string, isDirectory: bool, hasPackageJson: bool)

  /** An entry that counts as an app. */
  predicate IsApp(e: DirEntry) {
    e.isDirectory && e.hasPackageJson
  }

  /** The `filter` over the entries of `apps/`: the names of the
      directories holding a `package.json`. */
  function AppsIn(entries: seq<DirEntry>): (apps: seq<string>)
    ensures |apps| <= |entries|
    ensures forall n :: n in apps <==> exists i :: 0 <= i < |entries| && entries[i].name == n && IsApp(entries[i])
    decreases |entries|
  {
    if |entries| == 0 then []
    else
      var rest := AppsIn(entries[1..]);
      assert forall i :: 0 < i < |entries| ==> entries[1..][i - 1] == entries[i];
      (if IsApp(entries[0]) then [entries[0].name] else []) + rest
  }

  /** `getAvailableApps()`: no app when `apps/` does not exist (`listing`
      is `None`), otherwise the entries that are apps. */
  function AvailableApps(listing: Option<seq<DirEntry>>): (apps: seq<string>)
    ensures listing.None? ==> apps == []
    ensures listing.Some? ==>
              forall n :: n in apps <==> exists i :: 0 <= i < |listing.value| && listing.value[i].name == n && IsApp(listing.value[i])
  {
    if listing.None? then [] else AppsIn(listing.value)
  }

  /** `validateApp(name)`: the name is one of the available apps. */
  predicate ValidateApp(name: string, listing: Option<seq<DirEntry>>) {
    name in AvailableApps(listing)
  }

  /** A name is valid exactly when `apps/` exists and holds a directory of
      that name with a `package.json`. */
  lemma ValidateAppIff(name: string, listing: Option<seq<DirEntry>>)
    ensures ValidateApp(name, listing) <==>
              listing.Some? && exists i :: 0 <= i < |listing.value| && listing.value[i].name == name && IsApp(listing.value[i])
  {
  }

  /** `getAppDir(name)`: `<root>/apps/<name>`; the name is the last
      segment. */
  function AppDir(root: string, name: string): (dir: string)
    ensures StartsWith(dir, root + "/apps/") && dir[|root| + 6..] == name
  {
    root + "/apps/" + name
  }

  /** `getAppPackageDir(name)`: `<root>/packages/<name>`; the name is the
      last segment. */
  function AppPackageDir(root: string, name: string): (dir: string)
    ensures StartsWith(dir, root + "/packages/") && dir[|root| + 10..] == name
  {
    root + "/packages/" + name
  }

  /** `getRepositoryDir(name)`: the app's package directory followed by
      `repository`. */
  function RepositoryDir(root: string, name: string): (dir: string)
    ensures StartsWith(dir, root + "/packages/" + name + "/")
  {
    AppPackageDir(root, name) + "/repository"
  }

  /** Distinct app names get distinct directories. */
  lemma AppDirInjective(root: string, a: string, b: string)
    requires AppDir(root, a) == AppDir(root, b)
    ensures a == b
  {
    var p := root + "/apps/";
    assert AppDir(root, a)[|p|..] == a;
    assert AppDir(root, b)[|p|..] == b;
  }

  /** An app's directory is never a package directory: the two trees are
      apart. */
  lemma AppAndPackageDirsDiffer(root: string, a: string, b: string)
    ensures AppDir(root, a) != AppPackageDir(root, b)
  {
    var x := AppDir(root, a);
    var y := AppPackageDir(root, b);
    if |x| > |root| + 1 && |y| > |root| + 1 {
      assert x[|root| + 1] == 'a' && y[|root| + 1] == 'p';
    }
  }
}
