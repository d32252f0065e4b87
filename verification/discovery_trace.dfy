/**
 Sequences of discovery calls against one client. The cache is the only
 state carried from one `fetchInstances` call to the next; these lemmas say
 what any sequence of calls can and cannot do to it.
 */
module DiscoveryTrace {
  import opened Transport
  import opened Discovery

  /** One `fetchInstances(app)` call together with the reply its GET would get. */
  datatype Call = Call(app: string, outcome: Outcome)

  /** The results of the calls, in order, and the cache after the last one. */
  function Run(cache: Cache, calls: seq<Call>, env: Env): (r: (seq<Fetched>, Cache))
    ensures |r.0| == |calls|
    ensures r.1.Keys >= cache.Keys
    decreases |calls|
  {
    if calls == [] then ([], cache)
    else
      var (first, cache') := FetchInstances(cache, calls[0].app, calls[0].outcome, env);
      var (rest, final) := Run(cache', calls[1..], env);
      ([first] + rest, final)
  }

  /** The call at index `i` gets a genuine registry reply for application `app`
      carrying exactly `list`. */
  predicate RegistryListed(calls: seq<Call>, i: int, app: string, list: seq<InstanceRecord>, env: Env)
  {
    0 <= i < |calls| && calls[i].app == app
    && Classify(calls[i].outcome, env.decode) == Listed(list)
  }

  /** Once the cache holds a non-empty list for `app`, every later call for
      `app` returns that list and the entry survives every call. */
  lemma {:induction false} StickyAcrossRun(cache: Cache, calls: seq<Call>, env: Env, app: string)
    requires Hit(cache, app)
    ensures var r := Run(cache, calls, env);
            && app in r.1 && r.1[app] == cache[app]
            && forall i :: 0 <= i < |calls| && calls[i].app == app ==> r.0[i] == Instances(cache[app])
    decreases |calls|
  {
    if calls != [] {
      var (first, cache') := FetchInstances(cache, calls[0].app, calls[0].outcome, env);
      assert Hit(cache', app) && cache'[app] == cache[app];
      StickyAcrossRun(cache', calls[1..], env, app);
      var r := Run(cache, calls, env);
      var rest := Run(cache', calls[1..], env);
      assert r.0 == [first] + rest.0;
      forall i | 0 <= i < |calls| && calls[i].app == app
        ensures r.0[i] == Instances(cache[app])
      {
        if i > 0 {
          assert calls[1..][i - 1] == calls[i];
        }
      }
    }
  }

  /** Provider results are never cached: a run in which no call gets a genuine
      registry list leaves the cache exactly as it was. */
  lemma {:induction false} NoRegistryListNoCacheChange(cache: Cache, calls: seq<Call>, env: Env)
    requires forall i :: 0 <= i < |calls| ==> !Classify(calls[i].outcome, env.decode).Listed?
    ensures Run(cache, calls, env).1 == cache
    decreases |calls|
  {
    if calls != [] {
      var (first, cache') := FetchInstances(cache, calls[0].app, calls[0].outcome, env);
      assert cache' == cache;
      forall i | 0 <= i < |calls[1..]|
        ensures !Classify(calls[1..][i].outcome, env.decode).Listed?
      {
        assert calls[1..][i] == calls[i + 1];
      }
      NoRegistryListNoCacheChange(cache', calls[1..], env);
    }
  }

  /** Every entry of the cache after a run is either the one it had before or
      a list that the registry itself returned for that application during
      the run: nothing else is ever written. */
  lemma {:induction false} CacheHoldsOnlyRegistryLists(cache: Cache, calls: seq<Call>, env: Env, app: string)
    requires app in Run(cache, calls, env).1
    ensures var final := Run(cache, calls, env).1;
            (app in cache && final[app] == cache[app])
            || exists i :: RegistryListed(calls, i, app, final[app], env)
    decreases |calls|
  {
    if calls != [] {
      var (first, cache') := FetchInstances(cache, calls[0].app, calls[0].outcome, env);
      var final := Run(cache, calls, env).1;
      assert final == Run(cache', calls[1..], env).1;
      CacheHoldsOnlyRegistryLists(cache', calls[1..], env, app);
      if app in cache' && final[app] == cache'[app] {
        if !(app in cache && cache'[app] == cache[app]) {
          OnlySuccessWritesCache(cache, calls[0].app, calls[0].outcome, env);
          assert RegistryListed(calls, 0, app, final[app], env);
        }
      } else {
        var j :| RegistryListed(calls[1..], j, app, final[app], env);
        assert calls[1..][j] == calls[j + 1];
        assert RegistryListed(calls, j + 1, app, final[app], env);
      }
    }
  }
}
