/** `bun repo rename <scope>` and `bun repo rename:preview <scope>`: replace
    every `@temp-repo` in the repository's source files by a new scope, or
    count what would be replaced. The file list that the glob finds and the
    files' contents are inputs; a file that cannot be read has no content,
    and one that cannot be written is marked so. The confirmation prompt and
    the printed report are left out. */
module Rename {
  import opened Common
  import opened Text

  const CurrentScope: string := "@temp-repo"

  /** A file the glob found: its path, its content (`None` when reading it
      throws) and whether writing it succeeds. */
  datatype SourceFile = SourceFile(path: string, content: Option<string>, writable: bool)

  /** Why the command stops before touching any file. */
  datatype ScopeError = MissingScope | MissingAt | BadCharacters

  /** The totals of the summary. */
  datatype Summary = Summary(files: nat, occurrences: nat)

  /** `/^@[a-z0-9-]+$/`: an `@` and then one or more lower-case letters,
      digits and hyphens. */
  predicate MatchesScope(s: string) {
    |s| >= 2 && s[0] == '@' && forall i :: 1 <= i < |s| ==> IsLower(s[i]) || IsDigit(s[i]) || s[i] == '-'
  }

  /** The new scope, `args[0]`, when it is given and valid, or the first
      check it fails. */
  function CheckScope(args: seq<string>): (r: Result<string, ScopeError>)
    ensures r.Ok? <==> |args| > 0 && MatchesScope(args[0])
    ensures r.Ok? ==> r.value == args[0]
    ensures r == Err(MissingScope) <==> |args| == 0 || args[0] == ""
    ensures r == Err(MissingAt) <==> |args| > 0 && args[0] != "" && args[0][0] != '@'
  {
    if |args| == 0 || args[0] == "" then Err(MissingScope)
    else if !StartsWith(args[0], "@") then Err(MissingAt)
    else if !MatchesScope(args[0]) then Err(BadCharacters)
    else Ok(args[0])
  }

  /** The file is read, the replacement changes it and the write goes
      through: it is counted as updated. */
  predicate Updated(f: SourceFile, newScope: string) {
    f.content.Some? && ReplaceAll(f.content.value, CurrentScope, newScope) != f.content.value && f.writable
  }

  /** The occurrences the file's update counts. */
  function Replaced(f: SourceFile, newScope: string): nat {
    if Updated(f, newScope) then CountOccurrences(f.content.value, CurrentScope) else 0
  }

  /** The totals `renameProject` reports after the files. */
  function RenameTotals(files: seq<SourceFile>, newScope: string): (t: Summary)
    ensures t.files <= |files|
    ensures t.files <= t.occurrences
    decreases |files|
  {
    if |files| == 0 then Summary(0, 0)
    else
      var n := |files| - 1;
      var t := RenameTotals(files[..n], newScope);
      var f := files[n];
      assert Updated(f, newScope) ==> Replaced(f, newScope) >= 1;
      Summary(t.files + (if Updated(files[n], newScope) then 1 else 0), t.occurrences + Replaced(files[n], newScope))
  }

  /** The contents written, by path: each updated file gets its content with
      every occurrence replaced. */
  function Writes(files: seq<SourceFile>, newScope: string): (w: map<string, string>)
    ensures forall p :: p in w ==> exists i :: 0 <= i < |files| && files[i].path == p && Updated(files[i], newScope)
    decreases |files|
  {
    if |files| == 0 then map[]
    else
      var n := |files| - 1;
      var w := Writes(files[..n], newScope);
      var f := files[n];
      if Updated(f, newScope) then w[f.path := ReplaceAll(f.content.value, CurrentScope, newScope)] else w
  }

  /** The rename reports no file exactly when no file is updated. */
  lemma {:induction false} NoUpdatesIff(files: seq<SourceFile>, newScope: string)
    ensures RenameTotals(files, newScope).files == 0 <==> forall i :: 0 <= i < |files| ==> !Updated(files[i], newScope)
    decreases |files|
  {
    if |files| > 0 {
      var n := |files| - 1;
      assert forall i :: 0 <= i < n ==> files[..n][i] == files[i];
      NoUpdatesIff(files[..n], newScope);
    }
  }

  /** Every written path belongs to an updated file, and holds that file's
      content with the scope replaced. */
  lemma {:induction false} WritesOnlyUpdated(files: seq<SourceFile>, newScope: string, p: string)
    requires p in Writes(files, newScope)
    ensures exists i :: 0 <= i < |files| && files[i].path == p && Updated(files[i], newScope) &&
                        Writes(files, newScope)[p] == ReplaceAll(files[i].content.value, CurrentScope, newScope)
    decreases |files|
  {
    var n := |files| - 1;
    var f := files[n];
    if Updated(f, newScope) && f.path == p {
      assert files[n].path == p;
    } else {
      WritesOnlyUpdated(files[..n], newScope, p);
      var i :| 0 <= i < n && files[..n][i].path == p && Updated(files[..n][i], newScope) &&
               Writes(files[..n], newScope)[p] == ReplaceAll(files[..n][i].content.value, CurrentScope, newScope);
      assert files[i] == files[..n][i];
    }
  }

  /** A written file grows or shrinks by the difference in length between
      the scopes, once per occurrence. */
  lemma WrittenLength(f: SourceFile, newScope: string)
    requires Updated(f, newScope)
    ensures |ReplaceAll(f.content.value, CurrentScope, newScope)| ==
            |f.content.value| + Replaced(f, newScope) * (|newScope| - |CurrentScope|)
  {
    ReplaceAllLength(f.content.value, CurrentScope, newScope);
  }

  /** `renameProject(args)`: the check of the new scope, and then the loop
      over the files with its two counters, and the contents it writes. */
  method RenameProject(args: seq<string>, files: seq<SourceFile>)
    returns (r: Result<Summary, ScopeError>, writes: map<string, string>)
    ensures CheckScope(args).Err? ==> r == Err(CheckScope(args).error) && writes == map[]
    ensures CheckScope(args).Ok? ==> r == Ok(RenameTotals(files, args[0])) && writes == Writes(files, args[0])
  {
    writes := map[];
    if |args| == 0 || args[0] == "" {
      return Err(MissingScope), writes;
    }
    var newScope := args[0];
    if !StartsWith(newScope, "@") {
      return Err(MissingAt), writes;
    }
    if !MatchesScope(newScope) {
      return Err(BadCharacters), writes;
    }
    var filesUpdated := 0;
    var occurrencesReplaced := 0;
    for i := 0 to |files|
      invariant Summary(filesUpdated, occurrencesReplaced) == RenameTotals(files[..i], newScope)
      invariant writes == Writes(files[..i], newScope)
    {
      assert files[..i + 1][..i] == files[..i] && files[..i + 1][i] == files[i];
      var f := files[i];
      if f.content.Some? {
        var content := f.content.value;
        var newContent := ReplaceAll(content, CurrentScope, newScope);
        if content != newContent && f.writable {
          writes := writes[f.path := newContent];
          filesUpdated := filesUpdated + 1;
          var count := CountOccurrences(content, CurrentScope);
          occurrencesReplaced := occurrencesReplaced + count;
        }
      }
    }
    assert files[..|files|] == files;
    r := Ok(Summary(filesUpdated, occurrencesReplaced));
  }

  /** The file holds at least one match: `rename:preview` lists it. */
  predicate Affected(f: SourceFile) {
    f.content.Some? && CountOccurrences(f.content.value, CurrentScope) > 0
  }

  /** The totals `previewRename` reports after the files. */
  function PreviewTotals(files: seq<SourceFile>): (t: Summary)
    ensures t.files <= |files|
    ensures t.files <= t.occurrences
    decreases |files|
  {
    if |files| == 0 then Summary(0, 0)
    else
      var n := |files| - 1;
      var t := PreviewTotals(files[..n]);
      var f := files[n];
      if Affected(f) then Summary(t.files + 1, t.occurrences + CountOccurrences(f.content.value, CurrentScope))
      else t
  }

  /** The preview reports no file exactly when no file holds a match. */
  lemma {:induction false} NoAffectedIff(files: seq<SourceFile>)
    ensures PreviewTotals(files).files == 0 <==> forall i :: 0 <= i < |files| ==> !Affected(files[i])
    decreases |files|
  {
    if |files| > 0 {
      var n := |files| - 1;
      assert forall i :: 0 <= i < n ==> files[..n][i] == files[i];
      NoAffectedIff(files[..n]);
    }
  }

  /** `previewRename(args)`: only a missing scope stops it (the scope is
      not checked further); then the loop with its two counters. */
  method PreviewRename(args: seq<string>, files: seq<SourceFile>) returns (r: Result<Summary, ScopeError>)
    ensures |args| == 0 || args[0] == "" ==> r == Err(MissingScope)
    ensures |args| > 0 && args[0] != "" ==> r == Ok(PreviewTotals(files))
  {
    if |args| == 0 || args[0] == "" {
      return Err(MissingScope);
    }
    var filesAffected := 0;
    var occurrencesFound := 0;
    for i := 0 to |files|
      invariant Summary(filesAffected, occurrencesFound) == PreviewTotals(files[..i])
    {
      assert files[..i + 1][..i] == files[..i] && files[..i + 1][i] == files[i];
      var f := files[i];
      if f.content.Some? {
        var matches := CountOccurrences(f.content.value, CurrentScope);
        if matches > 0 {
          filesAffected := filesAffected + 1;
          occurrencesFound := occurrencesFound + matches;
        }
      }
    }
    assert files[..|files|] == files;
    r := Ok(Summary(filesAffected, occurrencesFound));
  }

  /** The preview announces what the rename does: for a scope other than
      `@temp-repo`, and files that can all be written, the two report the
      same totals. */
  lemma {:induction false} PreviewMatchesRename(files: seq<SourceFile>, newScope: string)
    requires newScope != CurrentScope
    requires forall i :: 0 <= i < |files| && files[i].content.Some? ==> files[i].writable
    ensures RenameTotals(files, newScope) == PreviewTotals(files)
    decreases |files|
  {
    if |files| > 0 {
      var n := |files| - 1;
      assert forall i :: 0 <= i < n ==> files[..n][i] == files[i];
      PreviewMatchesRename(files[..n], newScope);
      UpdatedIffAffected(files[n], newScope);
    }
  }

  /** A writable file is updated exactly when it holds a match. */
  lemma UpdatedIffAffected(f: SourceFile, newScope: string)
    requires newScope != CurrentScope
    requires f.content.Some? ==> f.writable
    ensures Updated(f, newScope) <==> Affected(f)
    ensures Updated(f, newScope) ==> Replaced(f, newScope) == CountOccurrences(f.content.value, CurrentScope)
  {
    if f.content.Some? {
      ReplaceAllChangesIff(f.content.value, CurrentScope, newScope);
    }
  }

  /** Renaming to the current scope changes no file. */
  lemma {:induction false} RenameToCurrentScope(files: seq<SourceFile>)
    ensures RenameTotals(files, CurrentScope) == Summary(0, 0)
    ensures Writes(files, CurrentScope) == map[]
    decreases |files|
  {
    if |files| > 0 {
      var n := |files| - 1;
      RenameToCurrentScope(files[..n]);
      if files[n].content.Some? {
        ReplaceAllIdentity(files[n].content.value, CurrentScope);
      }
    }
  }
}
