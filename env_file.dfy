/** `loadEnvFile`: reads `KEY=value` lines into a record. Lines are
    trimmed; blank lines and `#` comments are skipped; the key is the text
    before the first `=` and must not be empty; the value is everything
    after it, with one pair of matching surrounding quotes removed; a later
    line for the same key overwrites an earlier one. The file system is
    left out: the file's content is an input, `None` when the file does not
    exist. */
module EnvFile {
  import opened Common
  import opened Text

  type Env = map<string, string>

  /** `value.slice(1, -1)` */
  function DropEnds(v: string): (r: string)
    ensures |v| >= 2 ==> r == v[1..|v| - 1]
    ensures |v| < 2 ==> r == ""
  {
    if |v| >= 2 then v[1..|v| - 1] else ""
  }

  /** The value starts and ends with the same quote character (a lone quote
      counts: it both starts and ends the value). */
  predicate Quoted(v: string) {
    (StartsWith(v, "\"") && EndsWith(v, "\"")) || (StartsWith(v, "'") && EndsWith(v, "'"))
  }

  function StripQuotes(v: string): string {
    if Quoted(v) then DropEnds(v) else v
  }

  /** Quoting a value and reading it back gives the value: exactly one pair
      is removed, even when the value itself starts or ends with a quote. */
  lemma QuoteRoundTrip(s: string, q: char)
    requires q == '"' || q == '\''
    ensures StripQuotes([q] + s + [q]) == s
  {
    var v := [q] + s + [q];
    assert v[..1] == [q] && v[|v| - 1..] == [q];
    assert v[1..|v| - 1] == s;
  }

  /** A value that does not start with a quote is kept as it is. */
  lemma UnquotedKept(v: string)
    requires |v| == 0 || (v[0] != '"' && v[0] != '\'')
    ensures StripQuotes(v) == v
  {
    if |v| > 0 {
      assert v[..1] != "\"" && v[..1] != "'" by { assert v[..1][0] == v[0]; }
    }
  }

  /** One line: `None` when it is skipped, otherwise the key and the value
      it assigns. */
  function ParseLine(line: string): (r: Option<(string, string)>)
    ensures r.Some? ==> r.value.0 != ""
  {
    var trimmed := Trim(line);
    if trimmed == "" || StartsWith(trimmed, "#") then None
    else
      var parts := Split(trimmed, "=");
      var key := parts[0];
      if key == "" then None
      else Some((key, StripQuotes(Join(parts[1..], "="))))
  }

  /** The key is the text before the first `=` and the value (before quote
      removal) is all the text after it, later `=` included; a line without
      `=` assigns `''` to its whole text. */
  lemma ParseLineKeyValue(line: string)
    requires var t := Trim(line); t != "" && !StartsWith(t, "#") && t[0] != '='
    ensures var t := Trim(line);
            var i := IndexOf(t, '=');
            && ParseLine(line).Some?
            && (i >= 0 ==> ParseLine(line).value == (t[..i], StripQuotes(t[i + 1..])))
            && (i < 0 ==> ParseLine(line).value == (t, ""))
  {
    var t := Trim(line);
    if '=' in t {
      SplitAtFirst(t, '=');
      var i := IndexOf(t, '=');
      assert i != 0;
      assert t[..i][0] == t[0];
    } else {
      SplitAbsent(t, '=');
    }
  }

  /** Blank lines, `#` comments and lines with an empty key (`=` first
      after trimming) contribute nothing. */
  lemma SkippedLines(line: string)
    requires var t := Trim(line); t == "" || StartsWith(t, "#") || t[0] == '='
    ensures ParseLine(line).None?
  {
    var t := Trim(line);
    if t != "" && !StartsWith(t, "#") {
      SplitAtFirst(t, '=');
    }
  }

  /** A line assigns exactly when, after trimming, it is not blank, not a
      comment and does not start with `=`. */
  lemma ParseLineIff(line: string)
    ensures var t := Trim(line);
            ParseLine(line).Some? <==> t != "" && !StartsWith(t, "#") && t[0] != '='
  {
    var t := Trim(line);
    if t == "" || StartsWith(t, "#") || t[0] == '=' {
      SkippedLines(line);
    } else {
      ParseLineKeyValue(line);
    }
  }

  /** `env[key] = value` for a line that assigns, nothing otherwise. */
  function Apply(env: Env, p: Option<(string, string)>): Env {
    if p.Some? then env[p.value.0 := p.value.1] else env
  }

  /** The record after a sequence of parsed lines, applied in order. */
  function Fold(ps: seq<Option<(string, string)>>): Env
    decreases |ps|
  {
    if |ps| == 0 then map[] else Apply(Fold(ps[..|ps| - 1]), ps[|ps| - 1])
  }

  /** What each line parses to. */
  function Parsed(lines: seq<string>): (ps: seq<Option<(string, string)>>)
    ensures |ps| == |lines|
  {
    seq(|lines|, i requires 0 <= i < |lines| => ParseLine(lines[i]))
  }

  /** The record after the lines, read in order: each assignment overwrites
      the key's earlier value. */
  function EnvOf(lines: seq<string>): Env {
    Fold(Parsed(lines))
  }

  /** The last assignment of a key decides its value. */
  lemma {:induction false} FoldLastWins(ps: seq<Option<(string, string)>>, j: nat)
    requires j < |ps| && ps[j].Some?
    requires forall i :: j < i < |ps| && ps[i].Some? ==> ps[i].value.0 != ps[j].value.0
    ensures ps[j].value.0 in Fold(ps) && Fold(ps)[ps[j].value.0] == ps[j].value.1
    decreases |ps|
  {
    var n := |ps| - 1;
    var init := ps[..n];
    if j < n {
      assert init[j] == ps[j];
      assert forall i :: j < i < |init| ==> init[i] == ps[i];
      FoldLastWins(init, j);
    }
  }

  /** Every key of the record comes from some assignment. */
  lemma {:induction false} FoldOnlyAssigned(ps: seq<Option<(string, string)>>, k: string)
    requires k in Fold(ps)
    ensures exists i :: 0 <= i < |ps| && ps[i].Some? && ps[i].value.0 == k
    decreases |ps|
  {
    var n := |ps| - 1;
    var init := ps[..n];
    if !(ps[n].Some? && ps[n].value.0 == k) {
      FoldOnlyAssigned(init, k);
      var i :| 0 <= i < |init| && init[i].Some? && init[i].value.0 == k;
      assert ps[i] == init[i];
    }
  }

  /** A key is in the record exactly when some line assigns it, and then
      its value is the one from the last such line. */
  lemma LastAssignmentWins(lines: seq<string>, j: nat)
    requires j < |lines| && ParseLine(lines[j]).Some?
    requires forall i :: j < i < |lines| && ParseLine(lines[i]).Some? ==> ParseLine(lines[i]).value.0 != ParseLine(lines[j]).value.0
    ensures ParseLine(lines[j]).value.0 in EnvOf(lines)
    ensures EnvOf(lines)[ParseLine(lines[j]).value.0] == ParseLine(lines[j]).value.1
  {
    FoldLastWins(Parsed(lines), j);
  }

  /** Nothing else gets in: every key of the record is assigned by some
      line. */
  lemma OnlyAssignedKeys(lines: seq<string>, k: string)
    requires k in EnvOf(lines)
    ensures exists i :: 0 <= i < |lines| && ParseLine(lines[i]).Some? && ParseLine(lines[i]).value.0 == k
  {
    FoldOnlyAssigned(Parsed(lines), k);
    var i :| 0 <= i < |lines| && Parsed(lines)[i].Some? && Parsed(lines)[i].value.0 == k;
    assert ParseLine(lines[i]) == Parsed(lines)[i];
  }

  /** `loadEnvFile(path)`, with `content` what the file holds, or `None`
      when it does not exist. */
  method LoadEnvFile(content: Option<string>) returns (env: Env)
    ensures content.None? ==> env == map[]
    ensures content.Some? ==> env == EnvOf(Split(content.value, "\n"))
  {
    env := map[];
    if content.None? {
      return;
    }
    var lines := Split(content.value, "\n");
    ghost var ps := Parsed(lines);
    for i := 0 to |lines|
      invariant env == Fold(ps[..i])
    {
      assert ps[..i + 1][..i] == ps[..i] && ps[i] == ParseLine(lines[i]);
      env := AssignLine(env, lines[i]);
    }
    assert ps[..|lines|] == ps;
  }

  /** The body of the loop over the lines: a line that assigns sets its
      key, any other line leaves the record as it is. */
  method AssignLine(env0: Env, line: string) returns (env: Env)
    ensures env == Apply(env0, ParseLine(line))
  {
    env := env0;
    var trimmed := Trim(line);
    if trimmed != "" && !StartsWith(trimmed, "#") {
      var parts := Split(trimmed, "=");
      var key := parts[0];
      if key != "" {
        var value := Join(parts[1..], "=");
        if Quoted(value) {
          value := DropEnds(value);
        }
        env := env[key := value];
      }
    }
  }
}
