/** The start-up check of the posting credentials, read from the environment. */
module Credentials {
  import opened Lists

  const ApiKey := "TWITTER_API_KEY"
  const ApiKeySecret := "TWITTER_API_KEY_SECRET"
  const AccessToken := "TWITTER_ACCESS_TOKEN"
  const AccessTokenSecret := "TWITTER_ACCESS_TOKEN_SECRET"

  /** The four credentials, in the order they are checked and reported. */
  const RequiredNames := [ApiKey, ApiKeySecret, AccessToken, AccessTokenSecret]

  /** `os.getenv(name)` is falsy: the variable is unset or empty. */
  predicate IsUnset(env: map<string, string>, name: string) {
    name !in env || env[name] == ""
  }

  function UnsetRule(env: map<string, string>): string -> bool {
    name => IsUnset(env, name)
  }

  /** The names whose values are missing, checked one after the other. */
  function MissingCredentials(env: map<string, string>): (missing: seq<string>)
    ensures |missing| <= |RequiredNames|
    ensures missing == [] <==> !IsUnset(env, ApiKey) && !IsUnset(env, ApiKeySecret) &&
                               !IsUnset(env, AccessToken) && !IsUnset(env, AccessTokenSecret)
  {
    (if IsUnset(env, ApiKey) then [ApiKey] else []) +
    (if IsUnset(env, ApiKeySecret) then [ApiKeySecret] else []) +
    (if IsUnset(env, AccessToken) then [AccessToken] else []) +
    (if IsUnset(env, AccessTokenSecret) then [AccessTokenSecret] else [])
  }

  /** Exactly the unset names are reported, in the order of the required list. */
  lemma MissingInRequiredOrder(env: map<string, string>)
    ensures MissingCredentials(env) == Filter(RequiredNames, UnsetRule(env))
    ensures forall n :: n in MissingCredentials(env) <==> n in RequiredNames && IsUnset(env, n)
  {
    var p := UnsetRule(env);
    var a, b, c, d := ApiKey, ApiKeySecret, AccessToken, AccessTokenSecret;
    FirstTwoMissing(env);
    FilterOne(c, p);
    FilterOne(d, p);
    assert [a, b] + [c] == [a, b, c];
    FilterAppend([a, b], [c], p);
    assert [a, b, c] + [d] == RequiredNames;
    FilterAppend([a, b, c], [d], p);
    assert p(c) == IsUnset(env, c);
    assert p(d) == IsUnset(env, d);
  }

  /** The first two names, checked in their order. */
  lemma FirstTwoMissing(env: map<string, string>)
    ensures Filter([ApiKey, ApiKeySecret], UnsetRule(env)) ==
              (if IsUnset(env, ApiKey) then [ApiKey] else []) +
              (if IsUnset(env, ApiKeySecret) then [ApiKeySecret] else [])
  {
    var p := UnsetRule(env);
    var a, b := ApiKey, ApiKeySecret;
    FilterOne(a, p);
    FilterOne(b, p);
    assert [a] + [b] == [a, b];
    FilterAppend([a], [b], p);
    assert p(a) == IsUnset(env, a);
    assert p(b) == IsUnset(env, b);
  }

  /** What start-up does: go on, or stop with the list of missing names. */
  datatype Startup = Configured | ConfigurationError(missing: seq<string>)

  function CheckCredentials(env: map<string, string>): (s: Startup)
    ensures s.Configured? <==> forall n :: n in RequiredNames ==> !IsUnset(env, n)
    ensures s.ConfigurationError? ==> s.missing != [] && s.missing == MissingCredentials(env)
  {
    MissingInRequiredOrder(env);
    var missing := MissingCredentials(env);
    if missing != [] then ConfigurationError(missing) else Configured
  }
}
