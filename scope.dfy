/** `getPackageScope`: the npm scope of the root package, from its `name`:
    the part before the first `/` of a scoped name, and `@mizu` for an
    unscoped one. Reading `package.json` is left out: the name is an
    input. */
module Scope {
  import opened Text

  const DefaultScope: string := "@mizu"

  function PackageScope(name: string): (scope: string)
    ensures StartsWith(scope, "@")
    ensures '/' !in scope
  {
    if StartsWith(name, "@") then
      FirstPiece(name, '/');
      assert name[0] == '@';
      Split(name, "/")[0]
    else DefaultScope
  }

  /** What the scope is, case by case: the text before the first `/` of a
      scoped name, the whole name when it has no `/`, and `@mizu` for a
      name that does not start with `@`. */
  lemma PackageScopeCases(name: string)
    ensures StartsWith(name, "@") && '/' in name ==> PackageScope(name) == name[..IndexOf(name, '/')]
    ensures StartsWith(name, "@") && '/' !in name ==> PackageScope(name) == name
    ensures !StartsWith(name, "@") ==> PackageScope(name) == "@mizu"
  {
    FirstPiece(name, '/');
  }
}
