# Eureka client discovery and lifecycle rules, in Dafny

This project models the decision logic of `EurekaClient`, a PHP client for a
Eureka service registry: the instance discovery path (`fetchInstances` with
its sticky per-application cache and its fallback `InstanceProvider`,
`fetchInstance` with its discovery strategy), and the status-code rules of
`register`, `deRegister` and `heartbeat`, including the register-then-heartbeat
sequence of `start`.

Every HTTP request is reduced to its outcome (`Transport.Outcome`): either a
Guzzle `RequestException` (`Failed`) or a reply with a status code and a body
text (`Responded`). The client's only state is its cache, an immutable map
from application name to instance list; each discovery call is a pure step
from the cache before to the result and the cache after. JSON decoding, the
instance provider and the discovery strategy are opaque function parameters.
Their implementations are not part of this model. The one fixed fact about
decoding is that the empty string decodes to null.

Modules:
- `Transport` (transport.dfy): reply outcomes, the body stream and its `getContents()`, the decoded payload.
- `Discovery` (discovery.dfy): `fetchInstances` and `fetchInstance`, with the corrected body handling and failure propagation.
- `DiscoveryTrace` (discovery_trace.dfy): arbitrary sequences of discovery calls and what they can do to the cache.
- `Lifecycle` (lifecycle.dfy): register, deregister, heartbeat and `start`.
- `AsWritten` (as_written.dfy): three members modelled on the source as written, with the inputs that show where they go wrong (see Findings), and what Guzzle's default `http_errors` option changes.
- `Wrappers` (wrappers.dfy): `Option`, standing for "null or an object".

Facts about the source that shape the model:
- A transport failure in `register` or `deRegister` propagates as the raw `RequestException` (`Raised.RequestError`).
- The client keeps no lifecycle state; its only state is the instance cache.
- `fetchInstance` passes any list, even an empty provider list, to the strategy; so does the corrected `Discovery.FetchInstance`.
- Nothing stores a provider list in the cache. Only a 200 reply whose decoded body has `application.instance` writes to it.
- Every status code is treated as a reply. The clients are built with Guzzle's default options, under which a 4xx/5xx reply raises a `RequestException` instead; `Transport.UnderHttpErrors` and `AsWritten.HttpErrorsDefault` state what that changes.

## Model

| member | source | states |
|---|---|---|
| Transport.GetContents | src/EurekaClient.php:176 | a read returns the rest of the body from the read position and leaves the stream at its end |
| Transport.FirstReadIsWholeBody | src/EurekaClient.php:176 | the first `getContents()` of a fresh reply body yields the whole body text |
| Transport.SecondReadIsEmpty | src/EurekaClient.php:187 | a second `getContents()` on the same stream yields the empty string |
| Transport.UnderHttpErrors | src/EurekaClient.php:162-171 | with Guzzle's default options on a client built with only `base_uri`, a request raises exactly when it failed or its reply has status 400 or above; other replies pass unchanged |
| Discovery.Hit | src/EurekaClient.php:158 | `!empty(...)` on the cache entry: a missing key and an empty list are no hit, a non-empty list is |
| Discovery.Classify | src/EurekaClient.php:176-194 | with the body read once: a raised request is unreachable, any status but 200 is a bad status with that code, and a 200 is a registry success iff the whole body decodes to an instance list, which is then the list |
| Discovery.FallbackOrFail | src/EurekaClient.php:181-184 | the result is the provider's list for the app iff a provider is configured, otherwise a failure with the branch's message |
| Discovery.FetchInstances | src/EurekaClient.php:157-206 | a hit returns the cached list with the cache unchanged; the cache afterwards is either unchanged or changed at the app alone to the returned list; a failure happens only without a provider |
| Discovery.CacheHitShortCircuits | src/EurekaClient.php:158-160 | with a non-empty cached list, result and cache do not depend on the reply or the provider, and the result is the cached list |
| Discovery.EmptyEntryIsNotHit | src/EurekaClient.php:158 | an entry holding the empty list gives the same result as no entry at all and goes on to the reply |
| Discovery.SuccessWritesOneKey | src/EurekaClient.php:180-198 | on a 200 reply with instances, the result is the decoded list, the cache maps the app to exactly it, and every other key keeps its value |
| Discovery.FallbackOrFailShared | src/EurekaClient.php:180-205 | no connection, a non-200 status and a reply without instances all leave the cache unchanged and give the provider's list, or without provider a failure with the source's message |
| Discovery.OnlySuccessWritesCache | src/EurekaClient.php:196 | if a call changes the cache, there was no hit, the reply was a 200 with instances, and only the app's entry was set to that list |
| Discovery.Stickiness | src/EurekaClient.php:158-198 | after a registry success storing a non-empty list, the next call for the app returns that list and keeps the cache, whatever its reply and provider |
| Discovery.FallbackDoesNotMaskRegistry | src/EurekaClient.php:180-205 | a call answered by the fallback leaves the cache as it was, so the next genuine registry reply is returned |
| Discovery.FetchInstance | src/EurekaClient.php:147-155 | the strategy's choice from the list `fetchInstances` found, or that call's failure with its message; the cache is the one `fetchInstances` left |
| Discovery.FetchInstanceFailsOnlyWithoutProvider | src/EurekaClient.php:147-155 | `fetchInstance` fails iff there was no hit, no registry list and no provider |
| DiscoveryTrace.Run | src/EurekaClient.php:157-206 | a sequence of calls gives one result per call, and no key ever leaves the cache |
| DiscoveryTrace.StickyAcrossRun | src/EurekaClient.php:158-160 | once the cache holds a non-empty list for an app, every later call for it returns that list and the entry survives every call |
| DiscoveryTrace.NoRegistryListNoCacheChange | src/EurekaClient.php:180-205 | a run in which no reply carries a registry list leaves the cache exactly as it was |
| DiscoveryTrace.CacheHoldsOnlyRegistryLists | src/EurekaClient.php:196 | every entry after a run is the one before it or a list the registry returned for that app during the run |
| Lifecycle.Register | src/EurekaClient.php:50-62 | registration returns iff the status is exactly 204, raises `RegisterFailureException` iff another status came back, and propagates the request error otherwise |
| Lifecycle.DeRegister | src/EurekaClient.php:80-92 | deregistration returns iff the status is exactly 200, raises `DeRegisterFailureException` iff another status came back, and propagates the request error otherwise |
| Lifecycle.StatusRulesExact | src/EurekaClient.php:50-92 | only the status code decides registration and deregistration; the reply body never matters |
| Lifecycle.Recorded | src/EurekaClient.php:113-121 | a heartbeat reply is recorded as a success iff its status is 200, and otherwise as a failure carrying the code |
| Lifecycle.Heartbeat | src/EurekaClient.php:113-123 | the intended heartbeat never throws; it records success iff the status is 200 and records the failing status otherwise |
| Lifecycle.Beats | src/EurekaClient.php:138-142 | the loop runs one heartbeat per tick in order, and stops early only at a heartbeat that throws, with that exception |
| Lifecycle.Start | src/EurekaClient.php:134-142 | a failed registration sends no heartbeat and its exception escapes; a successful one is followed by the heartbeat loop |
| Lifecycle.StartKeepsBeating | src/EurekaClient.php:134-142 | with the intended heartbeat, a successful registration is followed by one completed heartbeat per tick and nothing escapes |
| AsWritten.ClassifyAsWritten | src/EurekaClient.php:176-194 | with the body read at line 176 and again at line 187, no reply is ever classified as carrying instances, every 200 reply counts as "no instance", and other replies are classified as with one read |
| AsWritten.FetchInstancesAsWritten | src/EurekaClient.php:157-206 | as written, a hit returns the cached list, and no call ever changes the cache |
| AsWritten.AsWrittenAgreesOffSuccess | src/EurekaClient.php:176-194 | on every reply except a 200 with instances, the source and the corrected step give the same result and cache |
| AsWritten.DoubleReadDropsRegistryList | src/EurekaClient.php:176-196 | a concrete 200 reply listing one instance is cached and returned by the corrected step and reported as "No instance found" by the source |
| AsWritten.FetchInstanceAsWritten | src/EurekaClient.php:147-155 | as written, the strategy receives the found list, or null when the lookup failed |
| AsWritten.UndefinedListReachesStrategy | src/EurekaClient.php:149-154 | with no provider and no connection, the source passes null to the strategy where the corrected call reports the failure |
| AsWritten.SelectionAgreesWhenFound | src/EurekaClient.php:147-155 | off the success path, the source's choice equals the corrected choice whenever one exists, and is the strategy applied to null otherwise |
| AsWritten.HeartbeatAsWritten | src/EurekaClient.php:100-130 | as written, a heartbeat completes on every reply and throws an `Error` when the request itself raised |
| AsWritten.HeartbeatAbsorbsStatus | src/EurekaClient.php:113-128 | on every reply that reaches the client, 200 or not, the source's heartbeat equals the intended one; only a raised request makes them differ |
| AsWritten.LostConnectionEndsLoop | src/EurekaClient.php:125-142 | in the source, `start()`'s loop completes every heartbeat before the first lost connection and ends there with an escaping error |
| AsWritten.HttpErrorsDefault | src/EurekaClient.php:35-171 | under Guzzle's defaults a reply with status 400 or above makes registration and deregistration propagate the `RequestException`, makes the heartbeat throw from its catch block, and sends a fetch without a hit to the connection-failure branch |

## Left out

- HTTP requests through Guzzle, headers, base URL and request paths: each request is an abstract `Outcome`.
- Guzzle's default `http_errors` option: the model treats every status as a reply, but with Guzzle's default a 4xx/5xx reply raises a `RequestException` instead. The member contracts and lemmas, `Lifecycle.Heartbeat` and `AsWritten.HeartbeatAbsorbsStatus` included, hold for replies that reach the client; what changes under the default is stated only by `AsWritten.HttpErrorsDefault`.
- JSON encoding of the registration payload and JSON decoding of replies: decoding is a parameter, except that the empty string decodes to null.
- `EurekaConfig`, the discovery strategy and the instance provider implementations: these are not part of this model and appear as opaque parameters. No round-robin or other selection behaviour is assumed.
- Lifecycle.Start: models only a finite prefix of ticks of `start()`'s endless `while (true)` loop, because the loop never terminates; `sleep` and the heartbeat counter are left out as timing only.
- Logging (`Logger`, a process-wide singleton writing files with wall-clock timestamps) and console output (`output()`): side effects only.
- Exceptions raised by logging or by reading the body inside `fetchInstances`' `try` block: only `RequestException` is modelled as a transport failure.
- Concurrent discovery calls: the PHP client is single-threaded; calls are modelled one after another.
- `test/Example.php`: a demo against a live server, with no assertions.

## Findings

| source | as written | input that shows it | evidently intended | confidence | as-written member | corrected member |
|---|---|---|---|---|---|---|
| src/EurekaClient.php:176-188 | the reply body is read with `getContents()` for the log entry and read again for `json_decode`; the second read of the consumed stream is `""`, which decodes to null | a 200 reply whose body lists one instance, no provider | decode the text read once; cache and return the list | high; not executed | AsWritten.DoubleReadDropsRegistryList | Discovery.SuccessWritesOneKey |
| src/EurekaClient.php:149-154 | the lookup failure is caught and only logged, then the strategy is called with the never-assigned `$instances` (null) | no cached entry, a failed request, no provider | propagate the lookup failure and do not call the strategy | high; not executed | AsWritten.UndefinedListReachesStrategy | Discovery.FetchInstance |
| src/EurekaClient.php:100-128 | when the heartbeat request raises, `$response` is still null and the catch block's `$response->getBody()` throws an `Error`, which escapes `heartbeat()` and ends `start()`'s loop | one heartbeat tick whose request raises | log the connection error and keep beating | high; not executed | AsWritten.LostConnectionEndsLoop | Lifecycle.StartKeepsBeating |
