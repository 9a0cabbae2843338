/**
 The form's submit handler: it reads both fields, checks the API key before the
 VIN, remembers a non-empty key, and either refuses with one message or starts a
 decode of the normalised VIN. Also the request that `decodeVIN` sends.
 */
module Submission {
  import opened Text
  import opened Vin

  const ApiKeyMissing := "Please enter your API-Ninjas API key."
  // Split in two so that proofs can index its first characters.
  const InvalidVin := "Please enter a valid 17-character VIN." + " Letters I, O, and Q are not allowed."

  /** What happens to the stored API key: left as it was, or overwritten with the trimmed key. */
  datatype KeyStore = Keep | Store(key: string)

  /** The handler's decision: show one validation message, or decode `vin` with `apiKey`. */
  datatype Action = Refuse(message: string) | Decode(vin: string, apiKey: string)

  datatype Submitted = Submitted(store: KeyStore, action: Action)

  /** The submit handler, given the raw contents of the VIN and API-key fields. */
  function Submit(vinField: string, keyField: string): (r: Submitted)
    ensures r.action.Decode? <==> Trim(keyField) != [] && ValidateVin(Normalize(vinField))
    ensures r.action.Decode? ==> r.action == Decode(Normalize(vinField), Trim(keyField))
    ensures Trim(keyField) == [] ==> r == Submitted(Keep, Refuse(ApiKeyMissing))
    ensures Trim(keyField) != [] ==> r.store == Store(Trim(keyField))
    ensures Trim(keyField) != [] && !ValidateVin(Normalize(vinField)) ==> r.action == Refuse(InvalidVin)
    ensures r.action.Refuse? ==> r.action.message == ApiKeyMissing || r.action.message == InvalidVin
  {
    var vin := Normalize(vinField);
    var apiKey := Trim(keyField);
    if apiKey == [] then
      Submitted(Keep, Refuse(ApiKeyMissing))
    else if ValidateVin(vin) then
      Submitted(Store(apiKey), Decode(vin, apiKey))
    else
      Submitted(Store(apiKey), Refuse(InvalidVin))
  }

  /** With an empty key the VIN field is never looked at: any two VINs give the same outcome. */
  lemma KeyCheckComesFirst(vinA: string, vinB: string, keyField: string)
    requires Trim(keyField) == []
    ensures Submit(vinA, keyField) == Submit(vinB, keyField)
    ensures Submit(vinA, keyField).action == Refuse(ApiKeyMissing)
  {
  }

  /** A decoded VIN always passes the format check and the key is never blank. */
  lemma DecodeOnlyValid(vinField: string, keyField: string)
    requires Submit(vinField, keyField).action.Decode?
    ensures ValidateVin(Submit(vinField, keyField).action.vin)
    ensures IsTrimmed(Submit(vinField, keyField).action.apiKey) && Submit(vinField, keyField).action.apiKey != []
  {
  }

  // ---------------------------------------------------------------------------
  // The request `decodeVIN` sends.

  const Endpoint := "https://api.api-ninjas.com/v1/vinlookup?vin="

  /** A GET of `url` carrying the key in the `X-Api-Key` header. */
  datatype Request = Request(url: string, apiKeyHeader: string)

  /** The VIN is appended to the query without URL encoding. */
  function BuildRequest(vin: string, apiKey: string): (req: Request)
    ensures |req.url| == |Endpoint| + |vin|
    ensures req.url[..|Endpoint|] == Endpoint && req.url[|Endpoint|..] == vin
    ensures req.apiKeyHeader == apiKey
  {
    Request(Endpoint + vin, apiKey)
  }

  /** Distinct VINs or keys give distinct requests: both can be read back from the request. */
  lemma BuildRequestInjective(vinA: string, keyA: string, vinB: string, keyB: string)
    requires BuildRequest(vinA, keyA) == BuildRequest(vinB, keyB)
    ensures vinA == vinB && keyA == keyB
  {
    assert vinA == BuildRequest(vinA, keyA).url[|Endpoint|..];
  }

  datatype Option<T> = None | Some(value: T)

  /**
   The request a submission sends: none when the handler refuses, otherwise one
   whose URL ends in the normalised VIN, which passes `validateVIN`, and whose
   header is the trimmed key.
   */
  function RequestSent(vinField: string, keyField: string): (sent: Option<Request>)
    ensures sent.Some? <==> Submit(vinField, keyField).action.Decode?
    ensures sent.Some? ==>
      && sent.value.url == Endpoint + Normalize(vinField)
      && sent.value.apiKeyHeader == Trim(keyField) && sent.value.apiKeyHeader != []
    ensures sent.Some? ==>
      |sent.value.url| == |Endpoint| + VinLength && ValidateVin(sent.value.url[|Endpoint|..])
  {
    match Submit(vinField, keyField).action
    case Refuse(_) => None
    case Decode(vin, apiKey) => Some(BuildRequest(vin, apiKey))
  }
}
