/** The studio configuration read from `process.env`: the `isEnabled`
    check, the social-provider entries built with it, and the
    comma-separated origin lists. */
module StudioConfig {
  import opened Common
  import opened Text

  /** `process.env`: a variable is either unset or holds a string. */
  type Env = map<string, string>

  function Get(env: Env, key: string): Option<string> {
    if key in env then Some(env[key]) else None
  }

  /** The variable is set and not empty. */
  predicate Filled(env: Env, key: string) {
    key in env && env[key] != ""
  }

  /** `args.every(arg => arg !== undefined && arg !== '')` */
  function IsEnabled(args: seq<Option<string>>): (b: bool)
    ensures b <==> forall i :: 0 <= i < |args| ==> args[i].Some? && args[i].value != ""
    ensures |args| == 0 ==> b
  {
    if |args| == 0 then true
    else args[0].Some? && args[0].value != "" && IsEnabled(args[1..])
  }

  datatype ProviderConfig = ProviderConfig(enabled: bool, clientId: string, clientSecret: string)

  /** One social provider: enabled when both variables are set and not
      empty; an unset variable becomes `''`. */
  function Provider(env: Env, idKey: string, secretKey: string): (p: ProviderConfig)
    ensures p.enabled <==> Filled(env, idKey) && Filled(env, secretKey)
    ensures p.clientId == (if idKey in env then env[idKey] else "")
    ensures p.clientSecret == (if secretKey in env then env[secretKey] else "")
  {
    var args := [Get(env, idKey), Get(env, secretKey)];
    assert IsEnabled(args) <==> args[0].Some? && args[0].value != "" && args[1].Some? && args[1].value != "";
    ProviderConfig(IsEnabled(args),
                   Get(env, idKey).OrElse(""), Get(env, secretKey).OrElse(""))
  }

  /** `socialProviders`, in the order the object literal lists them. */
  function SocialProviders(env: Env): (ps: seq<(string, ProviderConfig)>)
    ensures |ps| == 3
    ensures ps[0] == ("github", Provider(env, "GITHUB_CLIENT_ID", "GITHUB_CLIENT_SECRET"))
    ensures ps[1] == ("google", Provider(env, "GOOGLE_CLIENT_ID", "GOOGLE_CLIENT_SECRET"))
    ensures ps[2] == ("discord", Provider(env, "DISCORD_CLIENT_ID", "DISCORD_CLIENT_SECRET"))
  {
    [("github", Provider(env, "GITHUB_CLIENT_ID", "GITHUB_CLIENT_SECRET")),
     ("google", Provider(env, "GOOGLE_CLIENT_ID", "GOOGLE_CLIENT_SECRET")),
     ("discord", Provider(env, "DISCORD_CLIENT_ID", "DISCORD_CLIENT_SECRET"))]
  }

  /** `process.env[key]?.split(',') ?? []`: the comma-separated entries,
      and none when the variable is unset (a set but empty variable gives
      one empty entry). */
  function OriginList(env: Env, key: string): (origins: seq<string>)
    ensures key !in env ==> origins == []
    ensures key in env ==> |origins| >= 1 && Join(origins, ",") == env[key]
  {
    if key in env then
      JoinSplit(env[key], ",");
      Split(env[key], ",")
    else []
  }

  /** `app.cors` */
  function Cors(env: Env): seq<string> {
    OriginList(env, "CORS")
  }

  /** `auth.trustedOrigins` */
  function TrustedOrigins(env: Env): seq<string> {
    OriginList(env, "TRUSTED_ORIGINS")
  }

  /** An origin list without commas in its entries is read back entry by
      entry from its comma-joined form. */
  lemma {:induction false} OriginListRoundTrip(env: Env, key: string, origins: seq<string>)
    requires |origins| >= 1 && (forall i :: 0 <= i < |origins| ==> ',' !in origins[i])
    requires key in env && env[key] == Join(origins, ",")
    ensures OriginList(env, key) == origins
    decreases |origins|
  {
    SplitJoinCommaFree(origins);
  }

  /** Splitting at commas undoes joining with commas when no entry holds
      a comma. */
  lemma {:induction false} SplitJoinCommaFree(parts: seq<string>)
    requires |parts| >= 1 && (forall i :: 0 <= i < |parts| ==> ',' !in parts[i])
    ensures Split(Join(parts, ","), ",") == parts
    decreases |parts|
  {
    if |parts| == 1 {
      SplitAbsent(parts[0], ',');
    } else {
      var s := Join(parts, ",");
      assert s == parts[0] + "," + Join(parts[1..], ",");
      SplitJoinCommaFree(parts[1..]);
      SplitPieceThenRest(parts[0], ',', Join(parts[1..], ","));
      assert parts == [parts[0]] + parts[1..];
    }
  }
}
