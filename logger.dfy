/** The logger's formatting: the colour of an HTTP status, a duration and a
    method, the rendering of one field, the level prefix with its fallback,
    and the development line that `messageFormat` builds (the message, then
    the fields that are not standard pino fields). Numbers are integers; the
    pino streams, the time formatter and `JSON.stringify` are left out (an
    object field carries its JSON text). */
module Logger {
  import opened Common
  import opened Text
  import opened Decimal

  const Reset: string := "\U{001B}[0m"
  const Dim: string := "\U{001B}[2m"
  const Bright: string := "\U{001B}[1m"
  const Red: string := "\U{001B}[31m"
  const Green: string := "\U{001B}[32m"
  const Yellow: string := "\U{001B}[33m"
  const Blue: string := "\U{001B}[34m"
  const Magenta: string := "\U{001B}[35m"
  const Cyan: string := "\U{001B}[36m"
  const Gray: string := "\U{001B}[90m"
  const BrightMagenta: string := "\U{001B}[95m"
  const WhiteOnRed: string := "\U{001B}[41m\U{001B}[37m"

  /** `getStatusColor` */
  function StatusColor(status: int): (c: string)
    ensures status >= 500 ==> c == Red
    ensures 400 <= status < 500 ==> c == Yellow
    ensures 300 <= status < 400 ==> c == Cyan
    ensures 200 <= status < 300 ==> c == Green
    ensures status < 200 ==> c == Gray
  {
    if status >= 500 then Red
    else if status >= 400 then Yellow
    else if status >= 300 then Cyan
    else if status >= 200 then Green
    else Gray
  }

  /** The colour of a status class, by its first digit. */
  function ClassColor(digit: int): string {
    match digit
    case 2 => Green
    case 3 => Cyan
    case 4 => Yellow
    case 5 => Red
    case _ => Gray
  }

  /** For the statuses HTTP defines, the colour is the colour of the
      status's class: 2xx green, 3xx cyan, 4xx yellow, 5xx red, 1xx gray. */
  lemma StatusColorByClass(status: int)
    requires 100 <= status < 600
    ensures StatusColor(status) == ClassColor(status / 100)
  {
    var d := status / 100;
    assert d * 100 <= status < d * 100 + 100;
    assert 1 <= d <= 5;
  }

  /** The duration colour: green below 100 ms, yellow below 500 ms, red
      from 500 ms. */
  function DurationColor(ms: int): (c: string)
    ensures ms < 100 ==> c == Green
    ensures 100 <= ms < 500 ==> c == Yellow
    ensures ms >= 500 ==> c == Red
  {
    if ms < 100 then Green else if ms < 500 then Yellow else Red
  }

  /** The `methodColors` table. */
  function MethodColorEntry(verb: string): Option<string> {
    match verb
    case "GET" => Some(Green)
    case "POST" => Some(Blue)
    case "PUT" => Some(Yellow)
    case "PATCH" => Some(Yellow)
    case "DELETE" => Some(Red)
    case "HEAD" => Some(Gray)
    case "OPTIONS" => Some(Gray)
    case _ => None
  }

  const KnownMethods: seq<string> := ["GET", "POST", "PUT", "PATCH", "DELETE", "HEAD", "OPTIONS"]

  /** `methodColors[value.toUpperCase()] || ''` */
  function MethodColor(verb: string): (c: string)
    ensures c != "" <==> ToUpper(verb) in KnownMethods
  {
    MethodColorEntry(ToUpper(verb)).OrElse("")
  }

  lemma UpperOfLower(c: char)
    ensures ToUpperChar(ToLowerChar(c)) == ToUpperChar(c)
  {
  }

  /** The method colour does not depend on the method's case. */
  lemma MethodColorIgnoresCase(verb: string)
    ensures MethodColor(ToLower(verb)) == MethodColor(verb)
    ensures MethodColor(ToUpper(verb)) == MethodColor(verb)
  {
    forall i | 0 <= i < |verb| ensures ToUpper(ToLower(verb))[i] == ToUpper(verb)[i] {
      UpperOfLower(verb[i]);
    }
    assert ToUpper(ToLower(verb)) == ToUpper(verb);
    assert ToUpper(ToUpper(verb)) == ToUpper(verb);
  }

  /** A field's value, as far as the formatting tells values apart. */
  datatype Value = Num(n: int) | Str(s: string) | Bool(b: bool) | Null | Undefined | Obj(json: string)

  /** `String(value)` */
  function Plain(v: Value): string {
    match v
    case Num(n) => IntToString(n)
    case Str(s) => s
    case Bool(b) => if b then "true" else "false"
    case Null => "null"
    case Undefined => "undefined"
    case Obj(json) => json
  }

  /** The four fields `formatValue` colours, with the types it checks. */
  predicate Coloured(key: string, v: Value) {
    (key == "duration" && v.Num?) || (key == "path" && v.Str?) ||
    (key == "status" && v.Num?) || (key == "method" && v.Str?)
  }

  lemma ConcatStartsWith(a: string, b: string)
    ensures StartsWith(a + b, a)
  {
    assert (a + b)[..|a|] == a;
  }

  lemma PrefixGrows(p: string, a: string, b: string)
    requires StartsWith(a, p)
    ensures StartsWith(a + b, p)
  {
    assert (a + b)[..|p|] == a[..|p|];
  }

  lemma ConcatEndsWith(a: string, b: string)
    ensures EndsWith(a + b, b)
  {
    assert (a + b)[|a|..] == b;
  }

  lemma EndsWithTail(s: string, a: string, b: string)
    requires EndsWith(s, a + b)
    ensures EndsWith(s, b)
  {
    assert s[|s| - |b|..] == (s[|s| - |a + b|..])[|a|..];
  }

  /** A duration in its colour, with the `ms` unit. */
  function DurationText(ms: int): (r: string)
    ensures StartsWith(r, DurationColor(ms)) && EndsWith(r, "ms" + Reset)
  {
    var unit := "ms" + Reset;
    ConcatStartsWith(DurationColor(ms), IntToString(ms));
    PrefixGrows(DurationColor(ms), DurationColor(ms) + IntToString(ms), unit);
    ConcatEndsWith(DurationColor(ms) + IntToString(ms), unit);
    DurationColor(ms) + IntToString(ms) + unit
  }

  /** A status in its colour. */
  function StatusText(status: int): (r: string)
    ensures StartsWith(r, StatusColor(status)) && EndsWith(r, Reset)
  {
    ConcatStartsWith(StatusColor(status), IntToString(status));
    PrefixGrows(StatusColor(status), StatusColor(status) + IntToString(status), Reset);
    ConcatEndsWith(StatusColor(status) + IntToString(status), Reset);
    StatusColor(status) + IntToString(status) + Reset
  }

  /** `formatValue(key, value)` */
  function FormatValue(key: string, v: Value): (r: string)
    ensures Coloured(key, v) ==> EndsWith(r, Reset)
    ensures key == "duration" && v.Num? ==>
              StartsWith(r, DurationColor(v.n)) && EndsWith(r, "ms" + Reset)
    ensures key == "path" && v.Str? ==> r == BrightMagenta + v.s + Reset
    ensures key == "status" && v.Num? ==> StartsWith(r, StatusColor(v.n))
    ensures key == "method" && v.Str? ==> r == MethodColor(v.s) + v.s + Reset
    ensures !Coloured(key, v) ==> r == Plain(v)
  {
    if key == "duration" && v.Num? then
      EndsWithTail(DurationText(v.n), "ms", Reset);
      DurationText(v.n)
    else if key == "path" && v.Str? then
      ConcatEndsWith(BrightMagenta + v.s, Reset);
      BrightMagenta + v.s + Reset
    else if key == "status" && v.Num? then
      StatusText(v.n)
    else if key == "method" && v.Str? then
      ConcatEndsWith(MethodColor(v.s) + v.s, Reset);
      MethodColor(v.s) + v.s + Reset
    else if v.Obj? then
      v.json
    else
      Plain(v)
  }

  /** `pino.levels.labels` */
  function LevelLabel(level: int): Option<string> {
    match level
    case 10 => Some("trace")
    case 20 => Some("debug")
    case 30 => Some("info")
    case 40 => Some("warn")
    case 50 => Some("error")
    case 60 => Some("fatal")
    case _ => None
  }

  /** The `kawaiiPrefixes` table. */
  function KawaiiPrefix(levelName: string): Option<string> {
    match levelName
    case "fatal" => Some("(;-;) ヤバイ!!")
    case "error" => Some("(>_<) ダメ!")
    case "warn" => Some("(・_・;) チョット...")
    case "info" => Some("(◕‿◕) ヨシ!")
    case "debug" => Some("(._.) ナルホド~")
    case "trace" => Some("(*^ω^) ミッケ!")
    case _ => None
  }

  /** The `levelColors` table. */
  function LevelColorEntry(levelName: string): Option<string> {
    match levelName
    case "fatal" => Some(WhiteOnRed)
    case "error" => Some(Red)
    case "warn" => Some(Yellow)
    case "info" => Some(Cyan)
    case "debug" => Some(Magenta)
    case "trace" => Some(Gray)
    case _ => None
  }

  const Levels: seq<string> := ["fatal", "error", "warn", "info", "debug", "trace"]

  const FallbackPrefix: string := "(・・)"

  /** `kawaiiPrefixes[label] || '(・・)'` */
  function Prefix(levelName: string): (p: string)
    ensures p == FallbackPrefix <==> levelName !in Levels
  {
    KawaiiPrefix(levelName).OrElse(FallbackPrefix)
  }

  /** The production level formatter: the levelName and its prefix. */
  function ProductionLevel(levelName: string): (r: (string, string))
    ensures r.0 == levelName
    ensures levelName !in Levels ==> r.1 == FallbackPrefix
    ensures levelName in Levels ==> r.1 == KawaiiPrefix(levelName).value
  {
    (levelName, Prefix(levelName))
  }

  /** In development the levelName falls back to `info` first, so every level
      number, known or not, gets a real prefix and colour. */
  lemma DevelopmentLevelKnown(level: int)
    ensures LevelLabel(level).OrElse("info") in Levels
    ensures Prefix(LevelLabel(level).OrElse("info")) != FallbackPrefix
    ensures LevelLabel(level).None? ==> Prefix(LevelLabel(level).OrElse("info")) == "(◕‿◕) ヨシ!"
  {
  }

  /** The fields pino itself writes, which the line does not repeat. */
  const StandardKeys: seq<string> := ["level", "time", "pid", "hostname", "msg", "name", "namespace"]

  /** `Object.keys(log).filter(k => !standardKeys.includes(k))`, with each
      key's value: the fields in their order, the standard ones dropped. */
  function Extras(fields: seq<(string, Value)>): (extras: seq<(string, Value)>)
    ensures |extras| <= |fields|
    ensures forall i :: 0 <= i < |extras| ==> extras[i].0 !in StandardKeys && extras[i] in fields
    ensures forall i :: 0 <= i < |fields| && fields[i].0 !in StandardKeys ==> fields[i] in extras
    decreases |fields|
  {
    if |fields| == 0 then []
    else
      var rest := Extras(fields[1..]);
      assert forall i :: 1 <= i < |fields| ==> fields[i] == fields[1..][i - 1];
      if fields[0].0 in StandardKeys then rest else [fields[0]] + rest
  }

  /** One extra field: `<dim>key=<reset>value`. */
  function FieldText(field: (string, Value)): string {
    Dim + field.0 + "=" + Reset + FormatValue(field.0, field.1)
  }

  /** The start of every line: colour, bright, prefix, reset, the message. */
  function Header(levelName: string, msg: string): string {
    LevelColorEntry(levelName).OrElse("") + Bright + Prefix(levelName) + Reset + " " + msg
  }

  const Separator: string := " " + Dim + "│" + Reset + " "

  /** The extra fields, each as `key=value`, separated by spaces. */
  function ExtrasText(extras: seq<(string, Value)>): string {
    Join(seq(|extras|, i requires 0 <= i < |extras| => FieldText(extras[i])), " ")
  }

  /** `messageFormat(log, messageKey)`: `level` is the log's level number,
      `msg` its message and `fields` all its properties in key order. The
      separator and the extra fields are appended exactly when some field
      is not a standard one. */
  method MessageFormat(level: int, msg: string, fields: seq<(string, Value)>) returns (output: string)
    ensures StartsWith(output, Header(LevelLabel(level).OrElse("info"), msg))
    ensures |Extras(fields)| == 0 ==> output == Header(LevelLabel(level).OrElse("info"), msg)
    ensures |Extras(fields)| > 0 ==>
              output == Header(LevelLabel(level).OrElse("info"), msg) + Separator + ExtrasText(Extras(fields))
  {
    var levelName := LevelLabel(level).OrElse("info");
    var prefix := Prefix(levelName);
    var color := LevelColorEntry(levelName).OrElse("");
    var header := color + Bright + prefix + Reset + " " + msg;
    var extraKeys := Extras(fields);
    if |extraKeys| > 0 {
      var separator := " " + Dim + "│" + Reset + " ";
      output := header + separator + ExtrasText(extraKeys);
      ConcatStartsWith(header, separator);
      PrefixGrows(header, header + separator, ExtrasText(extraKeys));
    } else {
      output := header;
      ConcatStartsWith(header, "");
      assert header + "" == header;
    }
  }

  /** With extra fields the line is longer than its header, so the two
      cases of `messageFormat` never give the same line. */
  lemma ExtrasLengthen(levelName: string, msg: string, fields: seq<(string, Value)>)
    requires |Extras(fields)| > 0
    ensures Header(levelName, msg) + Separator + ExtrasText(Extras(fields)) != Header(levelName, msg)
  {
    assert |Separator| > 0;
  }
}
