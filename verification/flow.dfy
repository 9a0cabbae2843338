/**
 One submission end to end: the submit handler's gating, then (only when it
 decides to decode) the classification of the reply and `displayResults`. The
 reply is a parameter; it stands for whatever the one HTTP call returned.
 */
module Flow {
  import opened Text
  import opened Vin
  import opened Records
  import opened Submission
  import opened Classification
  import opened Display

  /** What the `catch` block of `decodeVIN` puts in front of an error's message. */
  const CaughtPrefix := "Error: "

  /**
   The two regions of the page. `error` is the error region's text, `""` while
   it is hidden (`showError(null)`); `rows` is the results list, `[]` while the
   results region is hidden. A decode clears the list whenever it hides the
   region, and shows the region only with at least one row, so an empty list
   and a hidden region go together.
   */
  datatype Screen = Screen(error: string, rows: seq<Item>)

  /** The page before any submission: both regions hidden. */
  const Blank := Screen("", [])

  predicate StartsWith(s: string, prefix: string) {
    |prefix| <= |s| && s[..|prefix|] == prefix
  }

  /**
   A submission of the two form fields on a page showing `before`; `reply` is
   consulted only when a decode starts. A refusal only writes the error region,
   so rows from an earlier decode stay visible beside the message; a decode
   resets both regions first.
   */
  function Run(before: Screen, vinField: string, keyField: string, reply: Reply): (after: Screen)
    ensures Trim(keyField) == [] ==> after == Screen(ApiKeyMissing, before.rows)
    ensures Trim(keyField) != [] && !ValidateVin(Normalize(vinField)) ==> after == Screen(InvalidVin, before.rows)
    ensures Submit(vinField, keyField).action.Decode? && Classify(reply).Failed? ==>
      after == Screen(CaughtPrefix + Classify(reply).message, [])
    ensures after.error == "" <==>
      && Trim(keyField) != [] && ValidateVin(Normalize(vinField))
      && reply.Received? && reply.body.Json? && IsOk(reply.status)
      && !Truthy(reply.body.record, "error")
      && HasShownField(reply.body.record)
    ensures after.error == "" ==> after.rows == Project(reply.body.record) && |after.rows| > 0
  {
    match Submit(vinField, keyField).action
    case Refuse(message) => Screen(message, before.rows)
    case Decode(vin, apiKey) =>
      match Classify(reply)
      case Failed(message) => Screen(CaughtPrefix + message, [])
      case Show(data) =>
        match DisplayResults(data)
        case NoData(message) => Screen(message, [])
        case Results(rows) => Screen("", rows)
  }

  /** When the handler refuses, no request is made, so no reply can influence the page. */
  lemma ReplyIgnoredWithoutDecode(before: Screen, vinField: string, keyField: string, a: Reply, b: Reply)
    requires Trim(keyField) == [] || !ValidateVin(Normalize(vinField))
    ensures Run(before, vinField, keyField, a) == Run(before, vinField, keyField, b)
  {
  }

  /** A decode resets both regions, so what the page showed before it no longer matters. */
  lemma DecodeForgetsEarlierScreen(a: Screen, b: Screen, vinField: string, keyField: string, reply: Reply)
    requires Submit(vinField, keyField).action.Decode?
    ensures Run(a, vinField, keyField, reply) == Run(b, vinField, keyField, reply)
  {
  }

  /** After a decode exactly one region is visible: an error message, or the result rows. */
  lemma DecodeShowsOneRegion(before: Screen, vinField: string, keyField: string, reply: Reply)
    requires Submit(vinField, keyField).action.Decode?
    ensures var after := Run(before, vinField, keyField, reply); (after.error == "") <==> (after.rows != [])
  {
    var after := Run(before, vinField, keyField, reply);
    if Classify(reply).Failed? {
      assert after.error[..|CaughtPrefix|] == CaughtPrefix;
    } else if !HasShownField(Classify(reply).record) {
      assert after.error == NoDataMessage && NoDataMessage[0] == 'V';
    }
  }

  /** A refused submission after a successful one leaves the earlier rows visible under the refusal's message. */
  lemma RefusalKeepsEarlierRows(vinA: string, keyA: string, reply: Reply, vinB: string, keyB: string, replyB: Reply)
    requires Run(Blank, vinA, keyA, reply).error == ""
    requires Submit(vinB, keyB).action.Refuse?
    ensures var after := Run(Run(Blank, vinA, keyA, reply), vinB, keyB, replyB);
      && after.rows == Project(reply.body.record) && after.rows != []
      && (after.error == ApiKeyMissing || after.error == InvalidVin)
  {
  }

  /**
   The "Error: " prefix marks exactly the failures of the HTTP call: the key
   message, the VIN message and the no-data message are shown without it.
   */
  lemma CaughtErrorsArePrefixed(before: Screen, vinField: string, keyField: string, reply: Reply)
    requires Run(before, vinField, keyField, reply).error != ""
    ensures StartsWith(Run(before, vinField, keyField, reply).error, CaughtPrefix) <==>
      Submit(vinField, keyField).action.Decode? && Classify(reply).Failed?
  {
    var message := Run(before, vinField, keyField, reply).error;
    if Submit(vinField, keyField).action.Decode? && Classify(reply).Failed? {
      assert message == CaughtPrefix + Classify(reply).message;
    } else {
      FixedMessagesUnprefixed();
      assert message == ApiKeyMissing || message == InvalidVin || message == NoDataMessage;
    }
  }

  lemma FixedMessagesUnprefixed()
    ensures !StartsWith(ApiKeyMissing, CaughtPrefix)
    ensures !StartsWith(InvalidVin, CaughtPrefix)
    ensures !StartsWith(NoDataMessage, CaughtPrefix)
  {
    assert CaughtPrefix[0] == 'E';
    assert ApiKeyMissing[0] == 'P' && InvalidVin[0] == 'P' && NoDataMessage[0] == 'V';
  }

  /** A failing status is shown as "Error: " followed by the payload's `error`, or else by the status message. */
  lemma FailingStatusMessage(before: Screen, vinField: string, keyField: string, status: nat, data: Record)
    requires Trim(keyField) != [] && ValidateVin(Normalize(vinField)) && !IsOk(status)
    ensures Run(before, vinField, keyField, Received(status, Json(data))) ==
      Screen(CaughtPrefix + (if Truthy(data, "error") then data["error"] else StatusMessage(status)), [])
  {
    assert Submit(vinField, keyField).action.Decode?;
    assert Classify(Received(status, Json(data))) ==
      Failed(if Truthy(data, "error") then data["error"] else StatusMessage(status));
  }

  /** An ok reply whose payload has none of the whitelisted fields ends in the no-data message. */
  lemma EmptyPayloadShowsNoData(before: Screen, vinField: string, keyField: string, status: nat, data: Record)
    requires Trim(keyField) != [] && ValidateVin(Normalize(vinField)) && IsOk(status)
    requires !Truthy(data, "error")
    requires !HasShownField(data)
    ensures Run(before, vinField, keyField, Received(status, Json(data))) == Screen(NoDataMessage, [])
  {
    assert Submit(vinField, keyField).action.Decode?;
    assert Classify(Received(status, Json(data))) == Show(data);
    assert DisplayResults(data) == NoData(NoDataMessage);
  }
}
