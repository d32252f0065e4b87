/**
 The status-code rules of registration, deregistration and heartbeat, and
 the register-then-heartbeat sequence of `start()`. Each request is reduced
 to its `Outcome`; logging and console output are not modelled.
 */
module Lifecycle {
  import opened Wrappers
  import opened Transport

  /** The only status the registry returns for a successful registration. */
  const RegisteredStatus := 204
  /** The only status accepted for a successful deregistration. */
  const DeregisteredStatus := 200
  /** The only status counted as a successful heartbeat. */
  const HeartbeatStatus := 200

  /** What can escape a lifecycle call. */
  datatype Raised =
    | RegisterFailure     // RegisterFailureException
    | DeRegisterFailure   // DeRegisterFailureException
    | RequestError        // Guzzle's RequestException, propagated unchanged
    | NullDereference     // PHP's Error for a method call on null

  /** Normal return with a value, or an exception escaping to the caller. */
  datatype Completion<+T> = Returned(value: T) | Threw(exception: Raised)

  /** `register()`: the registration request's outcome decides the call. */
  function Register(o: Outcome): (r: Completion<()>)
    ensures r.Returned? <==> o.Responded? && o.code == RegisteredStatus
    ensures r == Threw(RegisterFailure) <==> o.Responded? && o.code != RegisteredStatus
    ensures r == Threw(RequestError) <==> o.Failed?
  {
    match o
    case Failed => Threw(RequestError)
    case Responded(code, _) => if code != RegisteredStatus then Threw(RegisterFailure) else Returned(())
  }

  /** `deRegister()`: the deletion request's outcome decides the call. */
  function DeRegister(o: Outcome): (r: Completion<()>)
    ensures r.Returned? <==> o.Responded? && o.code == DeregisteredStatus
    ensures r == Threw(DeRegisterFailure) <==> o.Responded? && o.code != DeregisteredStatus
    ensures r == Threw(RequestError) <==> o.Failed?
  {
    match o
    case Failed => Threw(RequestError)
    case Responded(code, _) => if code != DeregisteredStatus then Threw(DeRegisterFailure) else Returned(())
  }

  /** Only the status code decides registration and deregistration: the
      reply's body never matters. */
  lemma StatusRulesExact(code: int, body1: string, body2: string)
    ensures Register(Responded(code, body1)) == Register(Responded(code, body2))
    ensures DeRegister(Responded(code, body1)) == DeRegister(Responded(code, body2))
  {
  }

  /** What a heartbeat records in its log entry. */
  datatype Beat = Accepted | Refused(code: int) | ConnectionLost

  /** The log entry of a heartbeat whose PUT got a reply with `code`: a
      success exactly for status 200, otherwise a failure naming the code. */
  function Recorded(code: int): (b: Beat)
    ensures b == Accepted <==> code == HeartbeatStatus
    ensures b != Accepted ==> b == Refused(code)
  {
    if code != HeartbeatStatus then Refused(code) else Accepted
  }

  /** `heartbeat()` with its catch block doing what was evidently intended:
      log the connection error and return. */
  function Heartbeat(o: Outcome): (r: Completion<Beat>)
    ensures r.Returned?
    ensures r.value == Accepted <==> o.Responded? && o.code == HeartbeatStatus
    ensures r.value.Refused? <==> o.Responded? && o.code != HeartbeatStatus
    ensures r.value.Refused? ==> r.value.code == o.code
  {
    match o
    case Failed => Returned(ConnectionLost)
    case Responded(code, _) => Returned(Recorded(code))
  }

  /** What `start()` did over a finite prefix of its endless loop: the
      registration's completion, the heartbeats that completed, and the
      exception that ended the loop early, if any. */
  datatype StartRun = StartRun(registration: Completion<()>, beats: seq<Beat>, escaped: Option<Raised>)

  /** The heartbeat loop over the given ticks, each with the outcome of its
      PUT request; it stops at the first heartbeat that throws. */
  function Beats(heartbeat: Outcome -> Completion<Beat>, ticks: seq<Outcome>): (r: (seq<Beat>, Option<Raised>))
    ensures |r.0| <= |ticks|
    ensures r.1.None? ==> |r.0| == |ticks|
    ensures r.1.Some? ==> |r.0| < |ticks| && heartbeat(ticks[|r.0|]) == Threw(r.1.value)
    ensures forall i :: 0 <= i < |r.0| ==> heartbeat(ticks[i]) == Returned(r.0[i])
    decreases |ticks|
  {
    if ticks == [] then ([], None)
    else
      match heartbeat(ticks[0])
      case Threw(e) => ([], Some(e))
      case Returned(b) =>
        var (rest, escaped) := Beats(heartbeat, ticks[1..]);
        assert escaped.Some? ==> ticks[1..][|rest|] == ticks[|rest| + 1];
        ([b] + rest, escaped)
  }

  /** `start()`: register, then send a heartbeat on every tick. */
  function Start(heartbeat: Outcome -> Completion<Beat>, registration: Outcome, ticks: seq<Outcome>): (r: StartRun)
    ensures r.registration == Register(registration)
    ensures r.registration.Threw? ==> r.beats == [] && r.escaped == Some(r.registration.exception)
    ensures r.registration.Returned? ==> (r.beats, r.escaped) == Beats(heartbeat, ticks)
  {
    match Register(registration)
    case Threw(e) => StartRun(Threw(e), [], Some(e))
    case Returned(_) =>
      var (beats, escaped) := Beats(heartbeat, ticks);
      StartRun(Returned(()), beats, escaped)
  }

  /** With a heartbeat that absorbs every failure, a successful registration
      is followed by one completed heartbeat per tick, in order, and nothing
      escapes; a failed registration sends no heartbeat at all. */
  lemma StartKeepsBeating(registration: Outcome, ticks: seq<Outcome>)
    ensures var r := Start(Heartbeat, registration, ticks);
            && (r.registration.Returned? ==> r.escaped.None? && |r.beats| == |ticks|)
            && (r.registration.Threw? ==> r.beats == [])
            && (forall i :: 0 <= i < |r.beats| ==> Heartbeat(ticks[i]) == Returned(r.beats[i]))
  {
  }
}
