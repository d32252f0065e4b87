/**
 The discovery path of the client: `fetchInstances(appName)` with its sticky
 per-application cache and fallback provider, and `fetchInstance(appName)`,
 which hands the list to the configured selection strategy.

 Each call is a pure step from the cache before the call to the result and
 the cache after it. The GET request is reduced to its `Outcome`; the
 configuration's provider and strategy, which are interfaces whose
 implementations are not part of this model, stay opaque functions.
 */
module Discovery {
  import opened Wrappers
  import opened Transport

  /** `$this->instances`: application name to the last list the registry returned. */
  type Cache = map<string, seq<InstanceRecord>>

  /** An `InstanceProvider`: supplies a substitute list for an application. */
  type Provider = string -> seq<InstanceRecord>

  /** What one discovery call consults besides the cache and the reply:
      the JSON decoder and the configured provider, if any. */
  datatype Env = Env(decode: string -> Payload, provider: Option<Provider>)

  /** The outcome of `fetchInstances`: a list, or an `InstanceFailureException`
      with its message. */
  datatype Fetched = Instances(list: seq<InstanceRecord>) | InstanceFailure(message: string)

  /** Message of the failure raised when the registry answers with a status other than 200. */
  const BadStatusMessage := "Could not get instances from Eureka."

  /** Message of the failure raised when there is no instance data or no connection. */
  function NoInstanceMessage(app: string): string
  {
    "No instance found for '" + app + "'."
  }

  /** The `!empty($this->instances[$appName])` test. PHP's `empty` holds of a
      missing key and of an empty array alike, so only a non-empty stored
      list is a hit. */
  function Hit(cache: Cache, app: string): (h: bool)
    ensures app !in cache ==> !h
    ensures app in cache && cache[app] == [] ==> !h
    ensures app in cache && cache[app] != [] ==> h
  {
    app in cache && |cache[app]| > 0
  }

  /** How the client classifies the registry's reply to its GET. The body is
      read once and decoded (the source reads it twice; see the module
      AsWritten). */
  datatype Reply =
    | Unreachable                            // the request raised a RequestException
    | BadStatus(code: int)                   // a status other than 200
    | NoInstanceData                         // 200, but no `application.instance`
    | Listed(instances: seq<InstanceRecord>) // 200 with an instance list

  /** Classifying the reply: a raised request is `Unreachable`, any status
      but 200 is `BadStatus` with that code, and a 200 reply is a genuine
      registry success exactly when its whole body decodes to an instance
      list, which is then the list. */
  function Classify(o: Outcome, decode: string -> Payload): (r: Reply)
    ensures r == Unreachable <==> o.Failed?
    ensures r.BadStatus? <==> o.Responded? && o.code != 200
    ensures r.BadStatus? ==> r.code == o.code
    ensures r.Listed? <==> o.Responded? && o.code == 200 && ParseBody(decode, o.body).Present?
    ensures r.Listed? ==> r.instances == ParseBody(decode, o.body).instances
  {
    match o
    case Failed => Unreachable
    case Responded(code, body) =>
      if code != 200 then BadStatus(code)
      else
        var text := GetContents(Open(body)).0;
        FirstReadIsWholeBody(body);
        match ParseBody(decode, text)
        case Absent => NoInstanceData
        case Present(list) => Listed(list)
  }

  /** The rule shared by every unsuccessful branch: the provider's list when
      a provider is configured, otherwise a failure with the given message. */
  function FallbackOrFail(app: string, provider: Option<Provider>, message: string): (r: Fetched)
    ensures r.Instances? <==> provider.Some?
    ensures provider.Some? ==> r.list == provider.value(app)
    ensures provider.None? ==> r.message == message
  {
    match provider
    case Some(p) => Instances(p(app))
    case None => InstanceFailure(message)
  }

  /** `fetchInstances(appName)`: the result and the cache after the call. */
  function FetchInstances(cache: Cache, app: string, o: Outcome, env: Env): (r: (Fetched, Cache))
    ensures Hit(cache, app) ==> r == (Instances(cache[app]), cache)
    ensures r.1 == cache || (r.0.Instances? && r.1 == cache[app := r.0.list])
    ensures r.0.InstanceFailure? ==> env.provider.None?
  {
    if Hit(cache, app) then (Instances(cache[app]), cache)
    else
      match Classify(o, env.decode)
      case Unreachable => (FallbackOrFail(app, env.provider, NoInstanceMessage(app)), cache)
      case BadStatus(_) => (FallbackOrFail(app, env.provider, BadStatusMessage), cache)
      case NoInstanceData => (FallbackOrFail(app, env.provider, NoInstanceMessage(app)), cache)
      case Listed(list) => (Instances(list), cache[app := list])
  }

  /** A cache hit short-circuits: the result and the cache afterwards do not
      depend on the reply or on the provider, so neither is consulted. */
  lemma CacheHitShortCircuits(cache: Cache, app: string, o1: Outcome, o2: Outcome, env1: Env, env2: Env)
    requires Hit(cache, app)
    ensures FetchInstances(cache, app, o1, env1) == FetchInstances(cache, app, o2, env2)
    ensures FetchInstances(cache, app, o1, env1).0 == Instances(cache[app])
    ensures FetchInstances(cache, app, o1, env1).1 == cache
  {
  }

  /** An entry holding the empty list is no hit: the call behaves exactly as
      if the application had no entry at all, apart from that entry. */
  lemma EmptyEntryIsNotHit(cache: Cache, app: string, o: Outcome, env: Env)
    requires app in cache && cache[app] == []
    ensures FetchInstances(cache, app, o, env).0 == FetchInstances(cache - {app}, app, o, env).0
    ensures Classify(o, env.decode).Listed? ==>
              FetchInstances(cache, app, o, env).1 == FetchInstances(cache - {app}, app, o, env).1
    ensures !Classify(o, env.decode).Listed? ==> FetchInstances(cache, app, o, env).1 == cache
  {
    assert !Hit(cache, app) && !Hit(cache - {app}, app);
    if Classify(o, env.decode).Listed? {
      var list := Classify(o, env.decode).instances;
      assert cache[app := list] == (cache - {app})[app := list];
    }
  }

  /** Without a hit, a genuine registry success stores exactly the decoded
      list under the application, changes no other key, and returns that list. */
  lemma SuccessWritesOneKey(cache: Cache, app: string, code: int, body: string, env: Env)
    requires !Hit(cache, app)
    requires code == 200 && ParseBody(env.decode, body).Present?
    ensures var r := FetchInstances(cache, app, Responded(code, body), env);
            var list := ParseBody(env.decode, body).instances;
            && r.0 == Instances(list)
            && app in r.1 && r.1[app] == list
            && r.1.Keys == cache.Keys + {app}
            && (forall k :: k in cache && k != app ==> r.1[k] == cache[k])
  {
  }

  /** The three unsuccessful branches (no connection, a status other than 200,
      a reply without instance data) follow one rule: the provider's list if
      one is configured, a failure otherwise; and none of them touches the cache. */
  lemma FallbackOrFailShared(cache: Cache, app: string, o: Outcome, env: Env)
    requires !Hit(cache, app)
    requires !(o.Responded? && o.code == 200 && ParseBody(env.decode, o.body).Present?)
    ensures var r := FetchInstances(cache, app, o, env);
            && r.1 == cache
            && (r.0.Instances? <==> env.provider.Some?)
            && (env.provider.Some? ==> r.0.list == env.provider.value(app))
            && (env.provider.None? ==>
                  r.0.message == (if o.Responded? && o.code != 200 then BadStatusMessage
                                  else NoInstanceMessage(app)))
  {
  }

  /** The cache changes only on a genuine registry success, and then only at
      `app`: every fallback and every failure leaves it as it was. */
  lemma OnlySuccessWritesCache(cache: Cache, app: string, o: Outcome, env: Env)
    ensures var r := FetchInstances(cache, app, o, env);
            r.1 != cache ==>
              && !Hit(cache, app)
              && o.Responded? && o.code == 200 && ParseBody(env.decode, o.body).Present?
              && r.1 == cache[app := ParseBody(env.decode, o.body).instances]
  {
  }

  /** Stickiness: once a call has stored a non-empty list, every later call for
      the same application returns that list, whatever the reply and provider. */
  lemma Stickiness(cache: Cache, app: string, o1: Outcome, env1: Env, o2: Outcome, env2: Env)
    requires Classify(o1, env1.decode).Listed? && Classify(o1, env1.decode).instances != []
    ensures var first := FetchInstances(cache, app, o1, env1);
            var second := FetchInstances(first.1, app, o2, env2);
            second == (first.0, first.1)
  {
  }

  /** A fallback result never masks the registry: after a call answered by the
      provider, the next call that gets a genuine reply returns the registry's list. */
  lemma FallbackDoesNotMaskRegistry(cache: Cache, app: string, o1: Outcome, o2: Outcome, env: Env)
    requires !Hit(cache, app)
    requires !Classify(o1, env.decode).Listed?
    requires Classify(o2, env.decode).Listed?
    ensures var first := FetchInstances(cache, app, o1, env);
            var second := FetchInstances(first.1, app, o2, env);
            && first.1 == cache
            && second.0 == Instances(Classify(o2, env.decode).instances)
  {
  }

  /** The outcome of `fetchInstance`: the strategy's choice, or the
      `InstanceFailureException` that `fetchInstances` raised. */
  datatype Selected<+T> = Chosen(value: T) | LookupFailed(message: string)

  /** `fetchInstance(appName)`: `fetchInstances`, then the strategy applied to
      the list. A lookup failure is returned instead of selecting from an
      undefined list (the source does the latter; see the module AsWritten).
      The strategy is applied to whatever list was found, the empty list
      included: the source has no emptiness guard. */
  function FetchInstance<T>(cache: Cache, app: string, o: Outcome, env: Env,
                            select: seq<InstanceRecord> -> T): (r: (Selected<T>, Cache))
    ensures var f := FetchInstances(cache, app, o, env);
            && r.1 == f.1
            && (r.0.Chosen? <==> f.0.Instances?)
            && (f.0.Instances? ==> r.0.value == select(f.0.list))
            && (f.0.InstanceFailure? ==> r.0.message == f.0.message)
  {
    var (fetched, cache') := FetchInstances(cache, app, o, env);
    match fetched
    case Instances(list) => (Chosen(select(list)), cache')
    case InstanceFailure(message) => (LookupFailed(message), cache')
  }

  /** A lookup fails only when the registry gave no list and no provider is
      configured; the strategy is never consulted then. */
  lemma FetchInstanceFailsOnlyWithoutProvider<T>(cache: Cache, app: string, o: Outcome, env: Env,
                                                 select: seq<InstanceRecord> -> T)
    ensures FetchInstance(cache, app, o, env, select).0.LookupFailed?
        <==> !Hit(cache, app) && !Classify(o, env.decode).Listed? && env.provider.None?
  {
  }
}
