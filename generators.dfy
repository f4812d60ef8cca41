/** The turbo generator helpers: the case conversions used in templates,
    the name check of the `app` and `lib` prompts, the template folder of
    an app type, and the workspace entry the `app` generator adds to the
    root `package.json`. Letters are ASCII; the templates, the prompts and
    the JSON text of `package.json` are left out. */
module Generators {
  import opened Text

  /** A character of the split pattern `[-_\s]`. */
  predicate IsSep(c: char) {
    c == '-' || c == '_' || IsSpace(c)
  }

  predicate NoSep(w: string) {
    forall j :: 0 <= j < |w| ==> !IsSep(w[j])
  }

  /** Drops the run of separators at the start of `s`. */
  function DropSeps(s: string): (r: string)
    ensures |r| <= |s|
    ensures r == "" || !IsSep(r[0])
    ensures |s| > 0 && IsSep(s[0]) ==> |r| < |s|
    decreases |s|
  {
    if |s| > 0 && IsSep(s[0]) then DropSeps(s[1..]) else s
  }

  /** The text with every separator taken out. */
  function RemoveSeps(s: string): string
    decreases |s|
  {
    if |s| == 0 then "" else (if IsSep(s[0]) then "" else [s[0]]) + RemoveSeps(s[1..])
  }

  /** Dropping leading separators takes out nothing else. */
  lemma {:induction false} RemoveSepsDrop(s: string)
    ensures RemoveSeps(DropSeps(s)) == RemoveSeps(s)
    decreases |s|
  {
    if |s| > 0 && IsSep(s[0]) {
      RemoveSepsDrop(s[1..]);
    }
  }

  /** `text.split(/[-_\s]+/)`: the words between runs of separators; a
      leading or trailing run gives an empty first or last word. The words,
      put back together, are the text without its separators. */
  function SplitWords(s: string): (words: seq<string>)
    ensures |words| >= 1
    ensures forall i :: 0 <= i < |words| ==> NoSep(words[i])
    ensures forall i :: 0 < i < |words| - 1 ==> words[i] != ""
    ensures |s| > 0 && !IsSep(s[0]) ==> words[0] != ""
    ensures Join(words, "") == RemoveSeps(s)
    decreases |s|
  {
    if |s| == 0 then [""]
    else if IsSep(s[0]) then
      var rest := SplitWords(DropSeps(s));
      var words := [""] + rest;
      assert forall i :: 0 < i < |words| ==> words[i] == rest[i - 1];
      assert NoSep("");
      assert words[1..] == rest;
      RemoveSepsDrop(s);
      words
    else
      var rest := SplitWords(s[1..]);
      assert NoSep([s[0]] + rest[0]) by {
        assert forall j :: 1 <= j < |rest[0]| + 1 ==> ([s[0]] + rest[0])[j] == rest[0][j - 1];
      }
      var words := ConsFirst(s[0], rest);
      assert forall i :: 0 < i < |words| ==> words[i] == rest[i];
      JoinConsFirst(s[0], rest, "");
      words
  }

  /** `word.charAt(0).toUpperCase() + word.slice(1).toLowerCase()` */
  function Capitalize(w: string): (c: string)
    ensures |c| == |w|
    ensures |w| > 0 ==> c[0] == ToUpperChar(w[0]) && c[1..] == ToLower(w[1..])
  {
    if |w| == 0 then "" else [ToUpperChar(w[0])] + ToLower(w[1..])
  }

  /** The `pascalCase` helper: the letters of the text, without its
      separators, in their order; only their case changes. */
  function PascalCase(text: string): (p: string)
    ensures |p| == |RemoveSeps(text)|
    ensures ToLower(p) == ToLower(RemoveSeps(text))
  {
    var words := SplitWords(text);
    var caps := seq(|words|, i requires 0 <= i < |words| => Capitalize(words[i]));
    forall i | 0 <= i < |words| ensures ToLower(caps[i]) == ToLower(words[i]) {
      CapitalizeLower(words[i]);
    }
    JoinLowerEq(caps, words);
    Join(caps, "")
  }

  /** The `camelCase` helper: `pascalCase` with its first character
      lower-cased; the same letters, and it never starts with a capital. */
  function CamelCase(text: string): (c: string)
    ensures |c| == |PascalCase(text)|
    ensures |c| > 0 ==> c[0] == ToLowerChar(PascalCase(text)[0]) && c[1..] == PascalCase(text)[1..]
    ensures |c| == |RemoveSeps(text)|
    ensures ToLower(c) == ToLower(RemoveSeps(text))
    ensures |c| > 0 ==> !IsUpper(c[0])
  {
    var pascal := PascalCase(text);
    if |pascal| == 0 then ""
    else
      var c := [ToLowerChar(pascal[0])] + pascal[1..];
      assert forall j :: 0 <= j < |c| ==> ToLowerChar(c[j]) == ToLowerChar(pascal[j]);
      assert ToLower(c) == ToLower(pascal);
      c
  }

  /** The `constantCase` helper: it reads back as the text's own words,
      upper-cased, and holds the text's letters upper-cased. */
  function ConstantCase(text: string): (k: string)
    ensures SplitWords(k) == seq(|SplitWords(text)|, i requires 0 <= i < |SplitWords(text)| => ToUpper(SplitWords(text)[i]))
    ensures RemoveSeps(k) == ToUpper(RemoveSeps(text))
  {
    var words := SplitWords(text);
    var upper := seq(|words|, i requires 0 <= i < |words| => ToUpper(words[i]));
    forall i | 0 <= i < |upper| ensures NoSep(upper[i]) {
      CaseKeepsSep(words[i]);
    }
    SplitJoinWords(upper, '_');
    JoinUpper(upper, words);
    Join(upper, "_")
  }

  lemma ToLowerConcat(a: string, b: string)
    ensures ToLower(a + b) == ToLower(a) + ToLower(b)
  {
  }

  lemma ToUpperConcat(a: string, b: string)
    ensures ToUpper(a + b) == ToUpper(a) + ToUpper(b)
  {
  }

  /** Capitalising a word changes only the case of its letters. */
  lemma CapitalizeLower(w: string)
    ensures ToLower(Capitalize(w)) == ToLower(w)
  {
    var c := Capitalize(w);
    forall j | 0 <= j < |w| ensures ToLowerChar(c[j]) == ToLowerChar(w[j]) {
      if j > 0 {
        assert c[j] == ToLower(w[1..])[j - 1];
      }
    }
  }

  /** One step of a join without separator. */
  lemma JoinStep(xs: seq<string>)
    requires |xs| > 1
    ensures Join(xs, "") == xs[0] + Join(xs[1..], "")
  {
    assert xs[0] + "" == xs[0];
  }

  /** Words equal up to case join into texts equal up to case. */
  lemma {:induction false} JoinLowerEq(xs: seq<string>, ys: seq<string>)
    requires |xs| == |ys|
    requires forall i :: 0 <= i < |xs| ==> ToLower(xs[i]) == ToLower(ys[i])
    ensures ToLower(Join(xs, "")) == ToLower(Join(ys, ""))
    decreases |xs|
  {
    if |xs| > 1 {
      var a, b := Join(xs[1..], ""), Join(ys[1..], "");
      JoinLowerEq(xs[1..], ys[1..]);
      JoinStep(xs);
      JoinStep(ys);
      ToLowerConcat(xs[0], a);
      ToLowerConcat(ys[0], b);
    }
  }

  /** Upper-cased words join into the upper-cased join. */
  lemma {:induction false} JoinUpper(xs: seq<string>, ys: seq<string>)
    requires |xs| == |ys|
    requires forall i :: 0 <= i < |xs| ==> xs[i] == ToUpper(ys[i])
    ensures Join(xs, "") == ToUpper(Join(ys, ""))
    decreases |xs|
  {
    if |xs| > 1 {
      JoinUpper(xs[1..], ys[1..]);
      JoinStep(xs);
      JoinStep(ys);
      ToUpperConcat(ys[0], Join(ys[1..], ""));
    }
  }

  /** Case conversion maps a non-separator to a non-separator. */
  lemma CharCaseKeepsSep(c: char)
    requires !IsSep(c)
    ensures !IsSep(ToUpperChar(c)) && !IsSep(ToLowerChar(c))
  {
  }

  /** Case conversion keeps a word free of separators. */
  lemma CaseKeepsSep(w: string)
    requires NoSep(w)
    ensures NoSep(ToUpper(w)) && NoSep(ToLower(w)) && NoSep(Capitalize(w))
  {
    forall j | 0 <= j < |w| ensures !IsSep(ToUpper(w)[j]) && !IsSep(ToLower(w)[j]) {
      CharCaseKeepsSep(w[j]);
    }
    if |w| > 0 {
      var c := Capitalize(w);
      CharCaseKeepsSep(w[0]);
      forall j | 1 <= j < |w| ensures !IsSep(c[j]) {
        assert c[j] == ToLower(w[1..])[j - 1];
        CharCaseKeepsSep(w[j]);
      }
    }
  }

  lemma {:induction false} JoinNoSep(ws: seq<string>)
    requires forall i :: 0 <= i < |ws| ==> NoSep(ws[i])
    ensures NoSep(Join(ws, ""))
    decreases |ws|
  {
    if |ws| > 1 {
      JoinNoSep(ws[1..]);
      var rest := Join(ws[1..], "");
      assert Join(ws, "") == ws[0] + rest;
      assert forall j :: |ws[0]| <= j < |ws[0]| + |rest| ==> (ws[0] + rest)[j] == rest[j - |ws[0]|];
    }
  }

  /** A Pascal-case (and so a camel-case) identifier holds no `-`, `_` or
      whitespace, whatever the text it was made from. */
  lemma PascalCaseNoSep(text: string)
    ensures NoSep(PascalCase(text))
    ensures NoSep(CamelCase(text))
  {
    CapsNoSep(SplitWords(text));
    var p := PascalCase(text);
    if |p| > 0 {
      var c := CamelCase(text);
      assert c == [ToLowerChar(p[0])] + p[1..];
      CharCaseKeepsSep(p[0]);
      forall j | 0 <= j < |c| ensures !IsSep(c[j]) {
        if j > 0 {
          assert c[j] == p[j];
        }
      }
    }
  }

  /** Capitalised words without separators join into a text without them. */
  lemma CapsNoSep(words: seq<string>)
    requires forall i :: 0 <= i < |words| ==> NoSep(words[i])
    ensures NoSep(Join(seq(|words|, i requires 0 <= i < |words| => Capitalize(words[i])), ""))
  {
    var caps := seq(|words|, i requires 0 <= i < |words| => Capitalize(words[i]));
    forall i | 0 <= i < |caps| ensures NoSep(caps[i]) {
      CaseKeepsSep(words[i]);
    }
    JoinNoSep(caps);
  }

  /** A text that starts with a lower-case letter gives a camel-case name
      starting with that letter and a Pascal-case name starting with its
      capital: the two differ in the first character only. */
  lemma CamelAndPascal(text: string)
    requires |text| > 0 && IsLower(text[0])
    ensures |CamelCase(text)| == |PascalCase(text)| > 0
    ensures PascalCase(text)[0] == ToUpperChar(text[0])
    ensures CamelCase(text)[0] == text[0]
    ensures CamelCase(text)[1..] == PascalCase(text)[1..]
  {
    var words := SplitWords(text);
    var caps := seq(|words|, i requires 0 <= i < |words| => Capitalize(words[i]));
    FirstWordStart(text);
    assert caps[0] == Capitalize(words[0]);
    JoinFirst(caps, "");
  }

  /** The first word of a text that starts with a non-separator starts
      with the text's first character. */
  lemma FirstWordStart(text: string)
    requires |text| > 0 && !IsSep(text[0])
    ensures |SplitWords(text)[0]| > 0 && SplitWords(text)[0][0] == text[0]
  {
  }

  lemma JoinFirst(ws: seq<string>, sep: string)
    requires |ws| >= 1 && |ws[0]| > 0
    ensures |Join(ws, sep)| > 0 && Join(ws, sep)[0] == ws[0][0]
  {
    if |ws| > 1 {
      assert Join(ws, sep) == ws[0] + sep + Join(ws[1..], sep);
    }
  }

  /** A word without separators is a single word. */
  lemma {:induction false} SingleWord(w: string)
    requires NoSep(w)
    ensures SplitWords(w) == [w]
    decreases |w|
  {
    if |w| > 0 {
      assert NoSep(w[1..]) by {
        assert forall j :: 0 <= j < |w| - 1 ==> w[1..][j] == w[j + 1];
      }
      SingleWord(w[1..]);
      assert [w[0]] + w[1..] == w;
    }
  }

  /** Splitting `w`, a separator `c` and `rest`, with no separator in `w`
      and none at the start of `rest`, gives `w` and then the words of
      `rest`. */
  lemma {:induction false} WordThenRest(w: string, c: char, rest: string)
    requires IsSep(c) && NoSep(w) && (rest == "" || !IsSep(rest[0]))
    ensures SplitWords(w + [c] + rest) == [w] + SplitWords(rest)
    decreases |w|
  {
    var s := w + [c] + rest;
    if |w| == 0 {
      assert s == [c] + rest;
      assert DropSeps(s) == DropSeps(rest);
    } else {
      assert s[1..] == w[1..] + [c] + rest;
      assert s[0] == w[0];
      assert NoSep(w[1..]) by {
        assert forall j :: 0 <= j < |w| - 1 ==> w[1..][j] == w[j + 1];
      }
      WordThenRest(w[1..], c, rest);
      assert [w[0]] + w[1..] == w;
    }
  }

  /** Words without separators, none empty except possibly the first and
      the last, are read back from their form joined with any one separator:
      `-` as in the names the prompts accept, `_` as in a constant-case
      name, or a space. */
  lemma {:induction false} SplitJoinWords(ws: seq<string>, c: char)
    requires IsSep(c)
    requires |ws| >= 1
    requires forall i :: 0 <= i < |ws| ==> NoSep(ws[i])
    requires forall i :: 0 < i < |ws| - 1 ==> ws[i] != ""
    ensures SplitWords(Join(ws, [c])) == ws
    decreases |ws|
  {
    if |ws| == 1 {
      SingleWord(ws[0]);
    } else {
      var rest := Join(ws[1..], [c]);
      SplitJoinWords(ws[1..], c);
      assert rest == "" || !IsSep(rest[0]) by {
        if |ws| > 2 {
          assert rest == ws[1] + [c] + Join(ws[2..], [c]);
          assert rest[0] == ws[1][0];
        }
      }
      WordThenRest(ws[0], c, rest);
      assert ws == [ws[0]] + ws[1..];
    }
  }

  /** `pascalCase` of words joined by one separator capitalizes each word
      (first character upper-cased, the rest lower-cased) and concatenates
      them in order. */
  lemma PascalCaseOfWords(ws: seq<string>, c: char)
    requires IsSep(c) && |ws| >= 1
    requires forall i :: 0 <= i < |ws| ==> NoSep(ws[i])
    requires forall i :: 0 < i < |ws| - 1 ==> ws[i] != ""
    ensures PascalCase(Join(ws, [c])) == Join(seq(|ws|, i requires 0 <= i < |ws| => Capitalize(ws[i])), "")
  {
    SplitJoinWords(ws, c);
  }

  lemma ToUpperIdempotent(w: string)
    ensures ToUpper(ToUpper(w)) == ToUpper(w)
  {
    assert forall j :: 0 <= j < |w| ==> ToUpper(w)[j] == ToUpperChar(w[j]);
  }

  /** A constant-case name is its own constant case. */
  lemma ConstantCaseIdempotent(text: string)
    ensures ConstantCase(ConstantCase(text)) == ConstantCase(text)
  {
    var words := SplitWords(text);
    var upper := seq(|words|, i requires 0 <= i < |words| => ToUpper(words[i]));
    assert SplitWords(ConstantCase(text)) == upper;
    var again := seq(|upper|, i requires 0 <= i < |upper| => ToUpper(upper[i]));
    forall i | 0 <= i < |upper| ensures again[i] == upper[i] {
      ToUpperIdempotent(words[i]);
    }
    assert again == upper;
  }

  /** What a prompt's `validate` answers. */
  datatype Validation = Accepted | Rejected(message: string)

  /** `/^[a-z][a-z0-9-]*$/` */
  predicate MatchesName(s: string) {
    |s| >= 1 && IsLower(s[0]) && forall i :: 1 <= i < |s| ==> IsLower(s[i]) || IsDigit(s[i]) || s[i] == '-'
  }

  const RequiredSuffix: string := " name is required"
  const FormatSuffix: string := " name must start with a letter and contain only lowercase letters, numbers, and hyphens"

  /** The `validate` of the name prompt; `what` is `App` for the app
      generator and `Library` for the library one. */
  function ValidateName(input: string, what: string): (v: Validation)
    ensures v == Accepted <==> MatchesName(input)
    ensures v == Rejected(what + RequiredSuffix) <==> forall i :: 0 <= i < |input| ==> IsSpace(input[i])
    ensures v.Rejected? && v.message != what + RequiredSuffix ==> v.message == what + FormatSuffix
  {
    TrimEmptyIff(input);
    assert MatchesName(input) ==> !IsSpace(input[0]);
    var required := what + RequiredSuffix;
    var format := what + FormatSuffix;
    assert required != format by {
      assert |RequiredSuffix| < |FormatSuffix|;
    }
    if input == "" || Trim(input) == "" then Rejected(required)
    else if !MatchesName(input) then Rejected(format)
    else Accepted
  }

  /** `templateFolder`: `app-tanstack` for a TanStack app, `app-hono`
      otherwise. */
  function TemplateFolder(appType: string): (folder: string)
    ensures folder == "app-tanstack" <==> appType == "tanstack"
    ensures folder == "app-hono" <==> appType != "tanstack"
  {
    if appType == "tanstack" then "app-tanstack" else "app-hono"
  }

  // The workspace glob of a new app's packages: packages/<name>/ and a star.
  function NewWorkspace(name: string): string {
    "packages/" + name + "/*"
  }

  /** The workspace list after the transform. */
  function WithWorkspace(workspaces: seq<string>, name: string): (r: seq<string>)
    ensures NewWorkspace(name) in r
    ensures |r| >= |workspaces|
    ensures r[..|workspaces|] == workspaces
    ensures NewWorkspace(name) in workspaces ==> r == workspaces
    ensures NewWorkspace(name) !in workspaces ==> r == workspaces + [NewWorkspace(name)]
  {
    if NewWorkspace(name) in workspaces then workspaces else workspaces + [NewWorkspace(name)]
  }

  /** Running the generator twice for one name adds one entry. */
  lemma WithWorkspaceIdempotent(workspaces: seq<string>, name: string)
    ensures WithWorkspace(WithWorkspace(workspaces, name), name) == WithWorkspace(workspaces, name)
  {
  }

  /** The parsed root `package.json`, as far as the transform touches it. */
  class PackageJson {
    var workspaces: seq<string>

    constructor (workspaces: seq<string>)
      ensures this.workspaces == workspaces
    {
      this.workspaces := workspaces;
    }

    /** The `modify` transform: `splice` the new entry in at index
        `workspaces.length`, unless it is there already. */
    method AddWorkspace(name: string)
      modifies this
      ensures workspaces == WithWorkspace(old(workspaces), name)
    {
      var newWorkspace := "packages/" + name + "/*";
      if newWorkspace !in workspaces {
        var insertIndex := |workspaces|;
        workspaces := workspaces[..insertIndex] + [newWorkspace] + workspaces[insertIndex..];
      }
    }
  }

  /** The transform applied to a fresh parse of the file: the entries
      already listed keep their order, and the new entry is listed once. */
  method Transform(workspaces: seq<string>, name: string) returns (after: seq<string>)
    ensures |after| == |workspaces| + (if NewWorkspace(name) in workspaces then 0 else 1)
    ensures after[..|workspaces|] == workspaces
    ensures NewWorkspace(name) in after
  {
    var pkg := new PackageJson(workspaces);
    pkg.AddWorkspace(name);
    after := pkg.workspaces;
  }
}
