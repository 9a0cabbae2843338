/**
 How `decodeVIN` sorts the outcome of its one HTTP call: a network failure, a body
 that is not JSON, a non-2xx status, or a truthy `error` field in the payload all
 become one error message; only an ok reply without a truthy `error` field
 reaches the display.
 */
module Classification {
  import opened Text
  import opened Records

  const StatusFailurePrefix := "API request failed with status: "

  /** The result of `response.json()`: a decoded object, or the parse error's message. */
  datatype Body = Json(record: Record) | Unparsable(reason: string)

  /** The result of `fetch`: it rejected (with a message), or a reply arrived with a status and a body. */
  datatype Reply = NetworkFailure(reason: string) | Received(status: nat, body: Body)

  /** `response.ok`: the Fetch Standard's ok status range 200 to 299. */
  predicate IsOk(status: nat) {
    200 <= status <= 299
  }

  /** Where `decodeVIN` goes next: throw with a message, or hand the payload to `displayResults`. */
  datatype Verdict = Failed(message: string) | Show(record: Record)

  /** The message used when a failing reply carries no `error` field; the status can be read back from it. */
  function StatusMessage(status: nat): (m: string)
    ensures |StatusFailurePrefix| < |m| && m[..|StatusFailurePrefix|] == StatusFailurePrefix
    ensures AllDigits(m[|StatusFailurePrefix|..]) && ParseDecimal(m[|StatusFailurePrefix|..]) == status
    ensures m[|StatusFailurePrefix|] == '0' ==> status == 0 && |m| == |StatusFailurePrefix| + 1
  {
    var digits := DecimalString(status);
    DecimalRoundTrip(status);
    assert (StatusFailurePrefix + digits)[|StatusFailurePrefix|..] == digits;
    assert (StatusFailurePrefix + digits)[|StatusFailurePrefix|] == digits[0];
    StatusFailurePrefix + digits
  }

  /**
   The body of the `try` block in `decodeVIN`. The body is decoded before the
   status is looked at, so an unreadable body wins over a failing status; an
   `error` field wins over the status message.
   */
  function Classify(reply: Reply): (v: Verdict)
    ensures v.Show? <==>
      reply.Received? && reply.body.Json? && IsOk(reply.status) && !Truthy(reply.body.record, "error")
    ensures v.Show? ==> v.record == reply.body.record
    ensures reply.NetworkFailure? ==> v == Failed(reply.reason)
    ensures reply.Received? && reply.body.Unparsable? ==> v == Failed(reply.body.reason)
    ensures reply.Received? && reply.body.Json? && Truthy(reply.body.record, "error") ==>
      v == Failed(reply.body.record["error"])
    ensures reply.Received? && reply.body.Json? && !IsOk(reply.status) && !Truthy(reply.body.record, "error") ==>
      v == Failed(StatusMessage(reply.status))
  {
    match reply
    case NetworkFailure(reason) => Failed(reason)
    case Received(status, body) =>
      match body
      case Unparsable(reason) => Failed(reason)
      case Json(data) =>
        if !IsOk(status) then
          Failed(if Truthy(data, "error") then data["error"] else StatusMessage(status))
        else if Truthy(data, "error") then
          Failed(data["error"])
        else
          Show(data)
  }

  /** A failing status never reaches the display, whatever the payload says. */
  lemma FailingStatusNeverShown(status: nat, body: Body)
    requires !IsOk(status)
    ensures Classify(Received(status, body)).Failed?
  {
  }

  /** Two failing replies that differ only in status and carry no `error` field are told apart by their messages. */
  lemma StatusMessagesDistinguishStatuses(a: nat, b: nat)
    requires a != b
    ensures StatusMessage(a) != StatusMessage(b)
  {
  }
}
