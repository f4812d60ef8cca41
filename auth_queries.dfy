/** The auth router: `me` returns the caller behind the protected guard,
    and `getEnabledAuthMethods` lists the names of the social providers
    whose `enabled` flag is set, in the providers' order. */
module AuthQueries {
  import opened Common
  import opened Domain
  import opened TrpcInit
  import opened StudioConfig

  /** `me`: the guarded context's user. */
  function Me(ctx: Context): (r: Outcome<User>)
    ensures r.Returned? <==> ctx.user.Some? && ctx.session.Some?
    ensures r.Returned? ==> r.result == ctx.user.value && r.ok
    ensures r.Threw? ==> r.error == Unauthorized
  {
    CallProtected(ctx, (authed: AuthedContext) => Returned(authed.user, true))
  }

  /** `Object.entries(providers).filter(enabled).map(key)` */
  function EnabledAuthMethods(providers: seq<(string, ProviderConfig)>): (names: seq<string>)
    ensures |names| <= |providers|
    ensures names == [] <==> forall i :: 0 <= i < |providers| ==> !providers[i].1.enabled
    decreases |providers|
  {
    if |providers| == 0 then []
    else
      var rest := EnabledAuthMethods(providers[1..]);
      assert forall i :: 0 < i < |providers| ==> providers[1..][i - 1] == providers[i];
      (if providers[0].1.enabled then [providers[0].0] else []) + rest
  }

  /** The keys of the provider entries, in order. */
  function Keys(providers: seq<(string, ProviderConfig)>): seq<string> {
    seq(|providers|, i requires 0 <= i < |providers| => providers[i].0)
  }

  predicate DistinctNames(xs: seq<string>) {
    forall i, j :: 0 <= i < j < |xs| ==> xs[i] != xs[j]
  }

  /** A name is listed exactly when some provider with that key is
      enabled. */
  lemma {:induction false} EnabledIff(providers: seq<(string, ProviderConfig)>, name: string)
    ensures name in EnabledAuthMethods(providers) <==>
            exists i :: 0 <= i < |providers| && providers[i].0 == name && providers[i].1.enabled
    decreases |providers|
  {
    if |providers| > 0 {
      EnabledIff(providers[1..], name);
      if name in EnabledAuthMethods(providers[1..]) {
        var i :| 1 <= i + 1 < |providers| && providers[1..][i].0 == name && providers[1..][i].1.enabled;
        assert providers[i + 1].0 == name && providers[i + 1].1.enabled;
      }
      if exists i :: 0 <= i < |providers| && providers[i].0 == name && providers[i].1.enabled {
        var i :| 0 <= i < |providers| && providers[i].0 == name && providers[i].1.enabled;
        if i > 0 {
          assert providers[1..][i - 1] == providers[i];
        }
      }
    }
  }

  /** The listed names keep the providers' order: each listed name's key
      comes, among the keys, before the next listed name's. With distinct
      keys (object keys are), no name is listed twice. */
  lemma {:induction false} EnabledOrdered(providers: seq<(string, ProviderConfig)>)
    requires DistinctNames(Keys(providers))
    ensures var names := EnabledAuthMethods(providers);
            DistinctNames(names) && IsSubsequence(names, Keys(providers))
    decreases |providers|
  {
    if |providers| > 0 {
      var rest := providers[1..];
      var keys := Keys(providers);
      assert Keys(rest) == keys[1..] && keys[0] == providers[0].0;
      EnabledOrdered(rest);
      var later := EnabledAuthMethods(rest);
      FirstKeyNotLater(providers);
      if providers[0].1.enabled {
        assert EnabledAuthMethods(providers) == [keys[0]] + later;
        ConsDistinct(keys[0], later);
        assert ([keys[0]] + later)[1..] == later;
      } else {
        assert EnabledAuthMethods(providers) == later;
        if |later| > 0 {
          assert later[0] in later;
        }
      }
    }
  }

  /** With distinct keys, the first key is not listed by the later
      providers. */
  lemma FirstKeyNotLater(providers: seq<(string, ProviderConfig)>)
    requires |providers| > 0 && DistinctNames(Keys(providers))
    ensures providers[0].0 !in EnabledAuthMethods(providers[1..])
  {
    var rest := providers[1..];
    EnabledIff(rest, providers[0].0);
    forall i | 0 <= i < |rest| ensures rest[i].0 != providers[0].0 {
      assert Keys(providers)[i + 1] == rest[i].0 && Keys(providers)[0] == providers[0].0;
    }
  }

  lemma ConsDistinct(x: string, xs: seq<string>)
    requires DistinctNames(xs) && x !in xs
    ensures DistinctNames([x] + xs)
  {
    var ys := [x] + xs;
    forall i, j | 0 <= i < j < |ys| ensures ys[i] != ys[j] {
      assert ys[j] == xs[j - 1];
      if i > 0 {
        assert ys[i] == xs[i - 1];
      }
    }
  }

  /** `xs` can be obtained from `ys` by deleting elements. */
  predicate IsSubsequence(xs: seq<string>, ys: seq<string>)
    decreases |ys|
  {
    if |xs| == 0 then true
    else if |ys| == 0 then false
    else if xs[0] == ys[0] then IsSubsequence(xs[1..], ys[1..])
    else IsSubsequence(xs, ys[1..])
  }

  /** The studio's answer, by environment: a provider is listed exactly when
      both its client id and its client secret are set to a non-empty
      value. */
  lemma StudioMethods(env: Env)
    ensures var names := EnabledAuthMethods(SocialProviders(env));
            && ("github" in names <==> Filled(env, "GITHUB_CLIENT_ID") && Filled(env, "GITHUB_CLIENT_SECRET"))
            && ("google" in names <==> Filled(env, "GOOGLE_CLIENT_ID") && Filled(env, "GOOGLE_CLIENT_SECRET"))
            && ("discord" in names <==> Filled(env, "DISCORD_CLIENT_ID") && Filled(env, "DISCORD_CLIENT_SECRET"))
  {
    var ps := SocialProviders(env);
    EnabledIff(ps, "github");
    EnabledIff(ps, "google");
    EnabledIff(ps, "discord");
  }
}
