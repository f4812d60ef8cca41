/** The JavaScript string and array primitives the modelled code relies on:
    `trim`, `startsWith`, `endsWith`, `indexOf`, `includes`, `split` with a
    literal separator, `join`, `replaceAll` with a literal pattern, a global
    literal `match` count, and ASCII `toUpperCase`/`toLowerCase`. */
module Text {

  /** The whitespace `String.prototype.trim` and the regex class `\s` remove,
      restricted to ASCII. */
  predicate IsSpace(c: char) {
    c == ' ' || c == '\t' || c == '\n' || c == '\r' || c == '\U{000B}' || c == '\U{000C}'
  }

  predicate IsLower(c: char) { 'a' <= c <= 'z' }
  predicate IsUpper(c: char) { 'A' <= c <= 'Z' }
  predicate IsDigit(c: char) { '0' <= c <= '9' }

  predicate StartsWith(s: string, p: string) {
    |p| <= |s| && s[..|p|] == p
  }

  predicate EndsWith(s: string, p: string) {
    |p| <= |s| && s[|s| - |p|..] == p
  }

  /** `s.trimStart()` */
  function TrimStart(s: string): (r: string)
    ensures |r| <= |s| && r == s[|s| - |r|..]
    ensures r == [] || !IsSpace(r[0])
    ensures forall i :: 0 <= i < |s| - |r| ==> IsSpace(s[i])
  {
    if |s| > 0 && IsSpace(s[0]) then TrimStart(s[1..]) else s
  }

  /** `s.trimEnd()` */
  function TrimEnd(s: string): (r: string)
    ensures |r| <= |s| && r == s[..|r|]
    ensures r == [] || !IsSpace(r[|r| - 1])
    ensures forall i :: |r| <= i < |s| ==> IsSpace(s[i])
  {
    if |s| > 0 && IsSpace(s[|s| - 1]) then TrimEnd(s[..|s| - 1]) else s
  }

  /** `s.trim()`: a slice of `s` that neither starts nor ends with
      whitespace. */
  function Trim(s: string): (r: string)
    ensures |r| <= |s|
    ensures r == [] || (!IsSpace(r[0]) && !IsSpace(r[|r| - 1]))
  {
    TrimEnd(TrimStart(s))
  }

  /** A string trims to nothing exactly when it is all whitespace. */
  lemma TrimEmptyIff(s: string)
    ensures Trim(s) == "" <==> forall i :: 0 <= i < |s| ==> IsSpace(s[i])
  {
    var t := TrimStart(s);
    if Trim(s) == "" {
      forall i | 0 <= i < |s| ensures IsSpace(s[i]) {
        if i >= |s| - |t| {
          assert t[i - (|s| - |t|)] == s[i];
        }
      }
    } else {
      assert t != [] && !IsSpace(t[0]);
      assert s[|s| - |t|] == t[0];
    }
  }

  /** `xs.indexOf(x)`: the first index holding `x`, or -1. */
  function IndexOf<T(==)>(xs: seq<T>, x: T): (i: int)
    ensures -1 <= i < |xs|
    ensures i == -1 <==> x !in xs
    ensures 0 <= i ==> xs[i] == x && x !in xs[..i]
  {
    if |xs| == 0 then -1
    else if xs[0] == x then 0
    else
      var j := IndexOf(xs[1..], x);
      assert xs[1..][..if j < 0 then 0 else j] == xs[1..1 + if j < 0 then 0 else j];
      if j < 0 then -1 else 1 + j
  }

  /** `parts.join(sep)` */
  function Join(parts: seq<string>, sep: string): string {
    if |parts| == 0 then ""
    else if |parts| == 1 then parts[0]
    else parts[0] + sep + Join(parts[1..], sep)
  }

  /** Prepends one character to the first piece of a split. */
  function ConsFirst(c: char, parts: seq<string>): (r: seq<string>)
    requires |parts| >= 1
    ensures |r| == |parts| && r[0] == [c] + parts[0] && r[1..] == parts[1..]
  {
    [[c] + parts[0]] + parts[1..]
  }

  /** `s.split(sep)` for a non-empty literal separator: the pieces between
      the non-overlapping occurrences of `sep`, found from the left. */
  function Split(s: string, sep: string): (parts: seq<string>)
    requires |sep| > 0
    ensures |parts| >= 1
    ensures |parts| == CountOccurrences(s, sep) + 1
    decreases |s|
  {
    if |s| < |sep| then [s]
    else if s[..|sep|] == sep then [""] + Split(s[|sep|..], sep)
    else ConsFirst(s[0], Split(s[1..], sep))
  }

  lemma JoinConsFirst(c: char, parts: seq<string>, sep: string)
    requires |parts| >= 1
    ensures Join(ConsFirst(c, parts), sep) == [c] + Join(parts, sep)
  {
    var r := ConsFirst(c, parts);
    if |parts| > 1 {
      assert r[1..] == parts[1..];
    }
  }

  /** Joining the pieces of a split with the separator gives back the string. */
  lemma {:induction false} JoinSplit(s: string, sep: string)
    requires |sep| > 0
    ensures Join(Split(s, sep), sep) == s
    decreases |s|
  {
    if |s| < |sep| {
      assert Split(s, sep) == [s];
    } else if s[..|sep|] == sep {
      var tail := s[|sep|..];
      var rest := Split(tail, sep);
      assert Split(s, sep) == [""] + rest;
      JoinSplit(tail, sep);
      var parts := [""] + rest;
      assert |parts| >= 2 && parts[0] == "" && parts[1..] == rest;
      assert Join(parts, sep) == "" + sep + Join(rest, sep);
      assert s == sep + tail;
    } else {
      var rest := Split(s[1..], sep);
      assert Split(s, sep) == ConsFirst(s[0], rest);
      JoinSplit(s[1..], sep);
      JoinConsFirst(s[0], rest, sep);
      assert s == [s[0]] + s[1..];
    }
  }

  /** For a one-character separator that occurs in `s`, the first piece is
      the text before its first occurrence and the remaining pieces, joined
      again, are exactly the text after it. */
  lemma {:induction false} SplitAtFirst(s: string, c: char)
    requires c in s
    ensures var i := IndexOf(s, c);
            var parts := Split(s, [c]);
            |parts| >= 2 && parts[0] == s[..i] && Join(parts[1..], [c]) == s[i + 1..]
    decreases |s|
  {
    if s[..1] == [c] {
      assert s[0] == c;
      JoinSplit(s[1..], [c]);
      assert ([""] + Split(s[1..], [c]))[1..] == Split(s[1..], [c]);
    } else {
      assert s[0] != c;
      assert c in s[1..];
      SplitAtFirst(s[1..], c);
      var i := IndexOf(s[1..], c);
      assert IndexOf(s, c) == i + 1;
      assert s[..i + 1] == [s[0]] + s[1..][..i];
    }
  }

  /** Without the separator, a split has one piece: the whole string. */
  lemma {:induction false} SplitAbsent(s: string, c: char)
    requires c !in s
    ensures Split(s, [c]) == [s]
    decreases |s|
  {
    if |s| >= 1 {
      assert s[..1] != [c] by { assert s[0] != c; }
      SplitAbsent(s[1..], c);
      assert [s[0]] + s[1..] == s;
    }
  }

  /** Splitting `w + [c] + rest`, with no `c` in `w`, gives `w` and then
      the pieces of `rest`. */
  lemma {:induction false} SplitPieceThenRest(w: string, c: char, rest: string)
    requires c !in w
    ensures Split(w + [c] + rest, [c]) == [w] + Split(rest, [c])
    decreases |w|
  {
    var s := w + [c] + rest;
    if |w| == 0 {
      assert s[..1] == [c];
      assert s[1..] == rest;
    } else {
      assert s[..1] != [c] by { assert s[0] == w[0] && w[0] != c; }
      assert s[1..] == w[1..] + [c] + rest;
      SplitPieceThenRest(w[1..], c, rest);
      assert [w[0]] + w[1..] == w;
    }
  }

  /** The first piece of a split at `c` is the text before the first `c`,
      or the whole string when there is none. */
  lemma FirstPiece(s: string, c: char)
    ensures var i := IndexOf(s, c);
            Split(s, [c])[0] == if i < 0 then s else s[..i]
  {
    if c in s {
      SplitAtFirst(s, c);
    } else {
      SplitAbsent(s, c);
    }
  }

  /** `s.replaceAll(p, r)` for a non-empty literal pattern and a replacement
      without `$` patterns: every non-overlapping occurrence of `p`, found
      from the left, is replaced by `r`. */
  function ReplaceAll(s: string, p: string, r: string): (out: string)
    requires |p| > 0
    ensures CountOccurrences(s, p) == 0 ==> out == s
    decreases |s|
  {
    if |s| < |p| then s
    else if s[..|p|] == p then r + ReplaceAll(s[|p|..], p, r)
    else
      assert [s[0]] + s[1..] == s;
      [s[0]] + ReplaceAll(s[1..], p, r)
  }

  /** The number of matches of the global regex built from the literal `p`:
      the non-overlapping occurrences found from the left. */
  function CountOccurrences(s: string, p: string): nat
    requires |p| > 0
    decreases |s|
  {
    if |s| < |p| then 0
    else if s[..|p|] == p then 1 + CountOccurrences(s[|p|..], p)
    else CountOccurrences(s[1..], p)
  }

  /** `replaceAll` agrees with the independent formulation
      `s.split(p).join(r)`. */
  lemma {:induction false} ReplaceAllIsSplitJoin(s: string, p: string, r: string)
    requires |p| > 0
    ensures ReplaceAll(s, p, r) == Join(Split(s, p), r)
    decreases |s|
  {
    if |s| < |p| {
    } else if s[..|p|] == p {
      ReplaceAllIsSplitJoin(s[|p|..], p, r);
      assert ([""] + Split(s[|p|..], p))[1..] == Split(s[|p|..], p);
    } else {
      ReplaceAllIsSplitJoin(s[1..], p, r);
      JoinConsFirst(s[0], Split(s[1..], p), r);
    }
  }

  /** Each replaced occurrence changes the length by `|r| - |p|`. */
  lemma {:induction false} ReplaceAllLength(s: string, p: string, r: string)
    requires |p| > 0
    ensures |ReplaceAll(s, p, r)| == |s| + CountOccurrences(s, p) * (|r| - |p|)
    decreases |s|
  {
    if |s| < |p| {
      assert ReplaceAll(s, p, r) == s && CountOccurrences(s, p) == 0;
    } else if s[..|p|] == p {
      var tail := s[|p|..];
      ReplaceAllLength(tail, p, r);
      var c := CountOccurrences(tail, p);
      assert ReplaceAll(s, p, r) == r + ReplaceAll(tail, p, r);
      assert CountOccurrences(s, p) == 1 + c;
      MulStep(c, |r| - |p|);
    } else {
      ReplaceAllLength(s[1..], p, r);
      assert ReplaceAll(s, p, r) == [s[0]] + ReplaceAll(s[1..], p, r);
      assert CountOccurrences(s, p) == CountOccurrences(s[1..], p);
    }
  }

  lemma MulStep(c: int, d: int)
    ensures (1 + c) * d == d + c * d
  {
  }

  /** With a replacement different from the pattern, `replaceAll` changes the
      string exactly when the pattern occurs in it. */
  lemma {:induction false} ReplaceAllChangesIff(s: string, p: string, r: string)
    requires |p| > 0 && r != p
    ensures ReplaceAll(s, p, r) != s <==> CountOccurrences(s, p) > 0
    decreases |s|
  {
    if |s| < |p| {
      assert ReplaceAll(s, p, r) == s && CountOccurrences(s, p) == 0;
    } else if s[..|p|] == p {
      var out := ReplaceAll(s, p, r);
      assert out == r + ReplaceAll(s[|p|..], p, r);
      assert CountOccurrences(s, p) == 1 + CountOccurrences(s[|p|..], p);
      if |r| == |p| {
        assert out[..|p|] == r;
      } else {
        ReplaceAllLength(s, p, r);
        MulNonZero(CountOccurrences(s, p), |r| - |p|);
      }
    } else {
      var tail := ReplaceAll(s[1..], p, r);
      assert ReplaceAll(s, p, r) == [s[0]] + tail;
      assert CountOccurrences(s, p) == CountOccurrences(s[1..], p);
      ReplaceAllChangesIff(s[1..], p, r);
      assert s == [s[0]] + s[1..];
      assert ([s[0]] + tail == [s[0]] + s[1..]) <==> tail == s[1..] by {
        if [s[0]] + tail == [s[0]] + s[1..] {
          assert tail == ([s[0]] + tail)[1..];
        }
      }
    }
  }

  lemma MulNonZero(a: int, b: int)
    requires a != 0 && b != 0
    ensures a * b != 0
  {
  }

  /** Replacing the pattern by itself changes nothing. */
  lemma {:induction false} ReplaceAllIdentity(s: string, p: string)
    requires |p| > 0
    ensures ReplaceAll(s, p, p) == s
    decreases |s|
  {
    if |s| < |p| {
    } else if s[..|p|] == p {
      ReplaceAllIdentity(s[|p|..], p);
      assert s == s[..|p|] + s[|p|..];
    } else {
      ReplaceAllIdentity(s[1..], p);
      assert s == [s[0]] + s[1..];
    }
  }

  function ToUpperChar(c: char): (u: char)
    ensures IsLower(c) ==> IsUpper(u)
    ensures !IsLower(c) ==> u == c
  {
    if IsLower(c) then (c as int - 'a' as int + 'A' as int) as char else c
  }

  function ToLowerChar(c: char): (l: char)
    ensures IsUpper(c) ==> IsLower(l)
    ensures !IsUpper(c) ==> l == c
  {
    if IsUpper(c) then (c as int - 'A' as int + 'a' as int) as char else c
  }

  /** `s.toUpperCase()` on ASCII letters. */
  function ToUpper(s: string): (u: string)
    ensures |u| == |s|
    ensures forall i :: 0 <= i < |s| ==> u[i] == ToUpperChar(s[i])
  {
    seq(|s|, i requires 0 <= i < |s| => ToUpperChar(s[i]))
  }

  /** `s.toLowerCase()` on ASCII letters. */
  function ToLower(s: string): (l: string)
    ensures |l| == |s|
    ensures forall i :: 0 <= i < |s| ==> l[i] == ToLowerChar(s[i])
  {
    seq(|s|, i requires 0 <= i < |s| => ToLowerChar(s[i]))
  }
}
