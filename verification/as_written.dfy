/**
 Three members of the client modelled on the source as written (with every
 status arriving as a reply, as in the rest of the model), next to the
 corrected definitions the rest of the model uses, with the inputs on which
 they differ. The last lemma shows what Guzzle's default `http_errors`
 option changes for these members.

 1. `fetchInstances` reads the reply body with `getContents()` twice: once
    for the log entry and once for `json_decode`. The second read of the
    consumed stream is the empty string, which decodes to null, so a genuine
    200 reply with instances is treated as "no instance".
 2. `fetchInstance` catches the lookup failure, logs it, and then passes the
    never-assigned `$instances` (null) to the strategy.
 3. `heartbeat`'s catch block calls `getBody()` on `$response`, which is
    still null when the request itself raised, so an `Error` escapes the
    method that was meant to absorb every failure.
 */
module AsWritten {
  import opened Wrappers
  import opened Transport
  import opened Discovery
  import opened Lifecycle

  /** The reply as the source classifies it: the body text logged by the
      first `getContents()` call is gone by the time it is decoded, so the
      source never sees an instance list, and every 200 reply counts as one
      without instances. The other classes agree with `Classify`. */
  function ClassifyAsWritten(o: Outcome, decode: string -> Payload): (r: Reply)
    ensures !r.Listed?
    ensures o.Responded? && o.code == 200 ==> r == NoInstanceData
    ensures !(o.Responded? && o.code == 200) ==> r == Classify(o, decode)
  {
    match o
    case Failed => Unreachable
    case Responded(code, body) =>
      var (logged, stream) := GetContents(Open(body));
      if code != 200 then BadStatus(code)
      else
        var text := GetContents(stream).0;
        SecondReadIsEmpty(Open(body));
        match ParseBody(decode, text)
        case Absent => NoInstanceData
        case Present(list) => Listed(list)
  }

  /** `fetchInstances` as written. */
  function FetchInstancesAsWritten(cache: Cache, app: string, o: Outcome, env: Env): (r: (Fetched, Cache))
    ensures Hit(cache, app) ==> r == (Instances(cache[app]), cache)
    ensures r.1 == cache
  {
    if Hit(cache, app) then (Instances(cache[app]), cache)
    else
      match ClassifyAsWritten(o, env.decode)
      case Unreachable => (FallbackOrFail(app, env.provider, NoInstanceMessage(app)), cache)
      case BadStatus(_) => (FallbackOrFail(app, env.provider, BadStatusMessage), cache)
      case NoInstanceData => (FallbackOrFail(app, env.provider, NoInstanceMessage(app)), cache)
      case Listed(list) => (Instances(list), cache[app := list])
  }

  /** The double read changes nothing except on a genuine 200 reply with
      instances: on every other reply the source and the corrected step agree. */
  lemma AsWrittenAgreesOffSuccess(cache: Cache, app: string, o: Outcome, env: Env)
    requires !Classify(o, env.decode).Listed?
    ensures FetchInstancesAsWritten(cache, app, o, env) == FetchInstances(cache, app, o, env)
  {
  }

  /** A witness record for the concrete inputs below. */
  const Sample := InstanceRecord(map["homePageUrl" := "http://svc.example"])

  /** A decoder that finds one instance in every non-empty body. */
  function DecodeOne(text: string): Payload
  {
    Present([Sample])
  }

  /** A 200 reply listing one instance: the corrected step caches and returns
      it, the source fails with "No instance found" and caches nothing. */
  lemma DoubleReadDropsRegistryList()
    ensures var env := Env(DecodeOne, None);
            var o := Responded(200, "{\"application\":{\"instance\":[{}]}}");
            && FetchInstances(map[], "svc", o, env) == (Instances([Sample]), map["svc" := [Sample]])
            && FetchInstancesAsWritten(map[], "svc", o, env) == (InstanceFailure(NoInstanceMessage("svc")), map[])
  {
    var body := "{\"application\":{\"instance\":[{}]}}";
    FirstReadIsWholeBody(body);
  }

  /** `fetchInstance` as written: the strategy receives the list, or null
      (`None`) when the lookup failed and the failure was only logged. */
  function FetchInstanceAsWritten<T>(cache: Cache, app: string, o: Outcome, env: Env,
                                     select: Option<seq<InstanceRecord>> -> T): (r: (T, Cache))
    ensures var f := FetchInstancesAsWritten(cache, app, o, env);
            && r.1 == cache
            && (f.0.Instances? ==> r.0 == select(Some(f.0.list)))
            && (f.0.InstanceFailure? ==> r.0 == select(None))
  {
    var (fetched, cache') := FetchInstancesAsWritten(cache, app, o, env);
    match fetched
    case Instances(list) => (select(Some(list)), cache')
    case InstanceFailure(_) => (select(None), cache')
  }

  /** With no provider and no connection, the source hands null to the
      strategy where the corrected call reports the lookup failure. */
  lemma UndefinedListReachesStrategy<T>(select: Option<seq<InstanceRecord>> -> T)
    ensures var env := Env(DecodeOne, None);
            && FetchInstanceAsWritten(map[], "svc", Failed, env, select).0 == select(None)
            && FetchInstance(map[], "svc", Failed, env, l => select(Some(l))).0
               == LookupFailed(NoInstanceMessage("svc"))
  {
  }

  /** Wherever the corrected `fetchInstance` chooses an instance off the
      success path, the source chooses the same one; it differs only where
      the corrected call reports a failure. */
  lemma SelectionAgreesWhenFound<T>(cache: Cache, app: string, o: Outcome, env: Env,
                                    select: Option<seq<InstanceRecord>> -> T)
    requires !Classify(o, env.decode).Listed?
    ensures var fixed := FetchInstance(cache, app, o, env, l => select(Some(l)));
            var source := FetchInstanceAsWritten(cache, app, o, env, select);
            && (fixed.0.Chosen? ==> source.0 == fixed.0.value)
            && (fixed.0.LookupFailed? ==> source.0 == select(None))
            && source.1 == fixed.1
  {
    AsWrittenAgreesOffSuccess(cache, app, o, env);
  }

  /** `heartbeat()` as written: a raised request leaves `$response` null and
      the catch block's `$response->getBody()` throws. */
  function HeartbeatAsWritten(o: Outcome): (r: Completion<Beat>)
    ensures o.Responded? ==> r.Returned?
    ensures o.Failed? ==> r == Threw(NullDereference)
  {
    match o
    case Failed => Threw(NullDereference)
    case Responded(code, _) => Returned(Recorded(code))
  }

  /** On every reply, whatever its status, the source's heartbeat completes
      exactly as the corrected one does; only a raised request differs. */
  lemma HeartbeatAbsorbsStatus(o: Outcome)
    ensures o.Responded? ==> HeartbeatAsWritten(o) == Heartbeat(o)
    ensures o.Failed? ==> HeartbeatAsWritten(o).Threw? && Heartbeat(o).Returned?
  {
  }

  /** The index of the first tick whose request raised, or `|ticks|`. */
  function FirstLost(ticks: seq<Outcome>): (k: nat)
    ensures k <= |ticks|
    ensures k < |ticks| ==> ticks[k].Failed?
    ensures forall i :: 0 <= i < k ==> ticks[i].Responded?
    decreases |ticks|
  {
    if ticks == [] then 0
    else if ticks[0].Failed? then 0
    else 1 + FirstLost(ticks[1..])
  }

  /** In the source, the first lost connection ends `start()`'s loop with an
      escaping error; every heartbeat before it completed. */
  lemma {:induction false} LostConnectionEndsLoop(ticks: seq<Outcome>)
    ensures var (beats, escaped) := Beats(HeartbeatAsWritten, ticks);
            && |beats| == FirstLost(ticks)
            && (escaped.Some? <==> FirstLost(ticks) < |ticks|)
            && (escaped.Some? ==> escaped.value == NullDereference)
    decreases |ticks|
  {
    if ticks != [] && ticks[0].Responded? {
      LostConnectionEndsLoop(ticks[1..]);
    }
  }

  /** With Guzzle's default options, as the clients are built, a reply with
      status 400 or above raises: registration then propagates the
      `RequestException` instead of raising `RegisterFailureException`, the
      heartbeat reaches its catch block and its null dereference, and a
      fetch without a hit takes the connection-failure branch. */
  lemma HttpErrorsDefault(cache: Cache, app: string, code: int, body: string, env: Env)
    requires code >= 400
    ensures Register(Responded(code, body)) == Threw(RegisterFailure)
    ensures Register(UnderHttpErrors(Responded(code, body))) == Threw(RequestError)
    ensures DeRegister(UnderHttpErrors(Responded(code, body))) == Threw(RequestError)
    ensures HeartbeatAsWritten(Responded(code, body)).Returned?
    ensures HeartbeatAsWritten(UnderHttpErrors(Responded(code, body))) == Threw(NullDereference)
    ensures !Hit(cache, app) ==>
              FetchInstancesAsWritten(cache, app, UnderHttpErrors(Responded(code, body)), env)
              == (FallbackOrFail(app, env.provider, NoInstanceMessage(app)), cache)
  {
  }
}
