/**
 This module describes what one HTTP request through the registry transport
 (Guzzle, in the client) can produce, and how the client reads a reply body.
 The transport itself, request headers and JSON decoding are not modelled:
 a request is reduced to its outcome, and decoding to a function parameter.
 */
module Transport {

  /** One element of `application.instance` in the registry's reply, kept as
      the decoded JSON object (field name to value). The client never looks
      inside it. */
  datatype InstanceRecord = InstanceRecord(fields: map<string, string>)

  /** What the test `isset($body->application->instance)` finds in a decoded
      reply: nothing usable, or the instance list. */
  datatype Payload = Absent | Present(instances: seq<InstanceRecord>)

  /** The outcome of one request. The model lets every status code arrive
      as `Responded`, as with Guzzle's `http_errors` option switched off; the
      clients are built with its default, under which a 4xx/5xx reply raises
      instead (see `UnderHttpErrors`). */
  datatype Outcome =
    | Failed                              // a RequestException was raised
    | Responded(code: int, body: string)  // a reply with its status and body text

  /** The outcome a client built with Guzzle's default options sees: a reply
      whose status is 400 or above raises a `RequestException`. */
  function UnderHttpErrors(o: Outcome): (r: Outcome)
    ensures r.Failed? <==> o.Failed? || o.code >= 400
    ensures r.Responded? ==> r == o
  {
    match o
    case Failed => Failed
    case Responded(code, _) => if code >= 400 then Failed else o
  }

  /** A reply body stream: its text and the current read position. */
  datatype Stream = Stream(text: string, pos: nat)

  /** A fresh reply body, positioned at its start. */
  function Open(text: string): Stream
  {
    Stream(text, 0)
  }

  /** `getContents()`: everything from the read position to the end, leaving
      the stream positioned at its end. */
  function GetContents(s: Stream): (r: (string, Stream))
    ensures r.1.text == s.text && r.1.pos == |s.text|
    ensures s.pos <= |s.text| ==> s.text[..s.pos] + r.0 == s.text
    ensures s.pos >= |s.text| ==> r.0 == ""
  {
    if s.pos < |s.text| then (s.text[s.pos..], Stream(s.text, |s.text|))
    else ("", Stream(s.text, |s.text|))
  }

  /** Reading a fresh body once yields its whole text. */
  lemma FirstReadIsWholeBody(text: string)
    ensures GetContents(Open(text)).0 == text
  {
    assert Open(text).text[..0] == [];
  }

  /** Reading a stream a second time yields the empty string, whatever the
      first read returned: a consumed stream has nothing left. */
  lemma SecondReadIsEmpty(s: Stream)
    ensures GetContents(GetContents(s).1).0 == ""
  {
  }

  /** `json_decode` followed by the `isset(...)` test. Decoding of a
      non-empty text is left to the `decode` parameter; the empty string
      decodes to null, which has no `application.instance`. */
  function ParseBody(decode: string -> Payload, text: string): Payload
  {
    if text == "" then Absent else decode(text)
  }
}
