# VIN decoder page — a Dafny model

The repository is a single web page. A user types a Vehicle Identification
Number (VIN) and an API-Ninjas key into a form. The page checks both fields,
remembers the key, and asks the `vinlookup` service about the VIN. The page has
an error region and a results region. A lookup leaves exactly one of them
visible: a short list of vehicle facts or one error message. A refused
submission only writes the error region, so rows from an earlier lookup stay
on screen beside it. All of the behaviour lives
in `script.js`. This project models that behaviour as pure functions over
immutable data, and proves what the page promises about it.

Modules, in the order the page works:

- `Text`: the two string operations the handler applies to the form fields.
  `Trim` strips ECMAScript white space and line terminators from both ends.
  `ToUpper` upper-cases. The module also holds the decimal rendering of a
  number, which the status message uses.
- `Vin`: `validateVIN` (exactly 17 characters, none of I, O, Q) and the
  normalisation of the VIN field (trim, then upper-case).
- `Records`: the decoded JSON payload as a map from field names to strings,
  and JavaScript truthiness of a field.
- `Submission`: the submit handler. The key is checked before the VIN. A
  non-empty key is stored even when the VIN is then refused. The module also
  builds the request URL and the `X-Api-Key` header.
- `Classification`: the `try` block of `decodeVIN`. The network reply becomes
  either an error message or a payload to display. The body is decoded before
  the status is looked at. A truthy payload `error` field wins over the status message.
- `Display`: `displayResults`. It walks the fixed whitelist `manufacturer`,
  `model`, `year`, `country`, `region`, `wmi`, and makes one row per truthy
  field, in whitelist order, with `wmi` labelled `WMI`. With no row it shows the
  no-data message. The loop with its `hasData` flag is modelled as a method.
- `Flow`: one submission end to end. It starts from what the page showed
  before, takes the two raw fields and the network reply, and returns what the
  page shows after. Only messages caught from the HTTP call get the
  `Error: ` prefix.

## Model

| member | source | states |
|---|---|---|
| Text.TrimIsKeptText | script.js:17-18 | `trim()` keeps exactly the text between the leading and trailing white space: any split of a string into blank prefix, kept text that starts and ends with a non-blank, and blank suffix is the one `Trim` returns |
| Text.TrimRemovesPadding | script.js:17-18 | padding a text that starts and ends with non-blank characters with white space on both sides, then trimming, gives back that text |
| Text.TrimIgnoresPadding | script.js:17-18 | extra white space added around a field does not change what the handler reads from it |
| Text.TrimIdempotent | script.js:17-18 | trimming an already trimmed field changes nothing |
| Text.Trim | script.js:17-18 | the trimmed field starts and ends with a non-blank character (or is empty) and is never longer than the raw field |
| Text.TrimToUpperCommute | script.js:17 | trimming then upper-casing gives the same VIN as upper-casing then trimming |
| Text.ToUpper | script.js:17 | upper-casing keeps the length and leaves no lower-case ASCII letter; each character is mapped on its own by `UpperChar` |
| Text.UpperChar | script.js:17 | a changed character was a lower-case ASCII letter and became its capital; white space stays white space |
| Text.ToUpperIdempotent | script.js:17 | upper-casing twice is upper-casing once |
| Text.DecimalString | script.js:68 | `${response.status}` is a non-empty run of decimal digits without a leading zero, except for 0 itself |
| Text.DecimalRoundTrip | script.js:68 | the decimal digits interpolated for a status read back as that status |
| Vin.ContainsForbidden | script.js:39 | `/[IOQ]/.test` is true exactly when some position holds I, O or Q |
| Vin.ValidateVin | script.js:35-43 | a VIN is accepted exactly when it has 17 characters and no position holds I, O or Q; no other condition applies |
| Vin.Normalize | script.js:17 | the VIN the handler checks is trimmed, as long as the trimmed field, and has no lower-case ASCII letter left |
| Vin.NormalizeEitherOrder | script.js:17 | the order of trimming and upper-casing does not matter to the VIN |
| Vin.NormalizeIdempotent | script.js:17 | normalising an already normalised VIN changes nothing |
| Vin.NormalizeIgnoresPadding | script.js:17 | white space around the VIN field counts neither towards the length nor as a character |
| Vin.NormalizedVinValid | script.js:35-43 | on the raw field, the handler accepts exactly: 17 characters after trimming, with none of I, O, Q, i, o, q |
| Vin.LowerCaseForbiddenRejected | script.js:39 | a lower-case i, o or q anywhere in the raw field is refused, because upper-casing happens before the test |
| Vin.NonAlphanumericAccepted | script.js:35-43 | seventeen dashes and seventeen digits pass, 16 characters fail, and an O in the last place fails |
| Records.TruthyTable | script.js:95 | `data[key]` is falsy when the field is missing or the empty string, truthy for any other string, and other fields do not affect it |
| Records.Field | script.js:95 | a field shows text exactly when `data[key]` is truthy, and that text is the field's value |
| Submission.Submit | script.js:17-32 | an empty trimmed key refuses with the key message and stores nothing; otherwise the trimmed key is stored; then an invalid VIN refuses with the VIN message; a decode starts exactly when the key is non-empty and the normalised VIN is valid, and it uses those two values |
| Submission.KeyCheckComesFirst | script.js:21-26 | with an empty key, the VIN field has no influence on the outcome |
| Submission.DecodeOnlyValid | script.js:28-29 | a decode only ever receives a valid VIN and a non-empty, trimmed key |
| Submission.BuildRequest | script.js:53-62 | the URL is the endpoint followed by the VIN unchanged, so the VIN can be read back from it; the key travels in the `X-Api-Key` header |
| Submission.BuildRequestInjective | script.js:53-62 | the VIN and the key can both be read back from the request, so different inputs never send the same request |
| Submission.RequestSent | script.js:28-62 | a request is sent exactly when the handler decodes; its URL ends in the normalised VIN, which has 17 characters and passes `validateVIN`, and its header is the trimmed, non-empty key |
| Classification.StatusMessage | script.js:68 | the fallback message starts with "API request failed with status: " and the rest is the status in decimal, without leading zeros, so the message is fixed exactly |
| Classification.StatusMessagesDistinguishStatuses | script.js:68 | two different statuses give two different fallback messages |
| Classification.Classify | script.js:55-77 | a payload is displayed exactly when the reply arrived, its body decoded, the status is 2xx and there is no truthy `error`; a network failure or undecodable body fails with its own message, even on a failing status; a truthy `error` fails with that error; otherwise a failing status fails with the status message |
| Classification.FailingStatusNeverShown | script.js:66-69 | no reply with a non-2xx status reaches the display |
| Display.Label | script.js:100 | `wmi` is labelled `WMI` and every other key is labelled by itself |
| Display.LabelRoundTrip | script.js:100 | the field a whitelist label came from can be recovered from the label |
| Display.LabelInjective | script.js:100 | two whitelist fields never share a label |
| Display.Contribution | script.js:95-103 | one field gives one row, with its label and value, exactly when it is truthy, and no row otherwise |
| Display.ProjectKeys | script.js:94-104 | walking a key list appends at most one row per key; its rows are pinned down by the soundness and completeness lemmas below |
| Display.ProjectKeysSound | script.js:94-104 | every row the loop appends belongs to a truthy field of the walked list and carries that field's value |
| Display.ProjectKeysComplete | script.js:94-104 | every truthy field of the walked list gets its row |
| Display.ProjectKeysAppend | script.js:94-104 | walking two key lists one after the other appends their rows |
| Display.ProjectKeysFrame | script.js:94-104 | only the walked fields affect the rows |
| Display.SuffixOrdered | script.js:89-104 | rows come out in strictly increasing whitelist position |
| Display.Project | script.js:89-104 | the rendered rows: at most six, each the row of a truthy whitelisted field, every such field present, in whitelist order |
| Display.OnlyWhitelistLabels | script.js:89-100 | no row is labelled `error`, `wmi` or any field outside the whitelist |
| Display.ProjectIgnoresOtherFields | script.js:89-95 | two payloads that agree on the six whitelisted fields render the same rows |
| Display.DisplayResults | script.js:87-112 | the no-data message is shown exactly when no whitelisted field is truthy; otherwise the rendered rows are non-empty |
| Display.AppendRows | script.js:91-104 | the `forEach` loop appends exactly the rows of the walked list, and `hasData` is set exactly when it appended some |
| Display.RenderRows | script.js:87-109 | over the whitelist, the loop yields the rendered rows, and `hasData` is clear exactly in the no-data case |
| Flow.Run | script.js:14-112 | a blank key shows the key message and a refused VIN the VIN message, each keeping the earlier rows; a failed HTTP call shows "Error: " followed by the caught message and no rows; the error region is hidden exactly when the key is non-empty, the VIN valid, the reply a decodable 2xx without a truthy `error`, and some whitelisted field truthy, and then the rows are the rendered ones |
| Flow.ReplyIgnoredWithoutDecode | script.js:21-32 | when the handler refuses, no reply can change what the page shows |
| Flow.DecodeForgetsEarlierScreen | script.js:47-51 | a lookup hides both regions and clears the list first, so the earlier screen cannot affect its outcome |
| Flow.DecodeShowsOneRegion | script.js:47-111 | after a lookup exactly one region is visible: an error message or the result rows |
| Flow.RefusalKeepsEarlierRows | script.js:21-32 | a refused submission after a successful lookup keeps its rows visible under the key or VIN message |
| Flow.CaughtErrorsArePrefixed | script.js:79-80 | an error shown starts with "Error: " exactly when it came from the HTTP call; the key, VIN and no-data messages never do |
| Flow.FailingStatusMessage | script.js:66-69 | a failing status shows "Error: " followed by the payload's `error`, or else by the status message |
| Flow.EmptyPayloadShowsNoData | script.js:106-108 | a 2xx payload without whitelisted data ends in the no-data message, without the "Error: " prefix, and with the results region hidden |

## Left out

- The DOM is not modelled. This covers element lookup, `innerHTML`, CSS classes, the loading indicator, the disabled button and the `finally` block. `Flow.Screen` keeps only the text of the error region and the rows of the results region. A hidden region is an empty text or an empty list. The initial state `Flow.Blank` assumes both regions start hidden; the page's HTML is not part of this model.
- Values are inserted into `innerHTML` without HTML escaping. This is not modelled; rows carry the raw value.
- Reading the stored key into the field at page load (line 12) is not modelled. Writing it is modelled only as the decision `KeyStore`: the trimmed key is stored whenever it is non-empty.
- Submission.Submit: the storage write at line 22 is assumed to succeed. `localStorage.setItem` may throw, for example a `QuotaExceededError`, or on every call in some private-browsing modes. When it throws, the handler stops before `validateVIN`: no message is shown and no decode starts. The model decodes in that case, so the "a decode starts exactly when" clause of `Submit`, and through it `Flow.Run`, holds only when the write succeeds.
- `fetch`, `await` and `response.json()` are not modelled. The reply is a parameter. Each submission is modelled as finishing before the next one starts. On the page, the disabled button stops a second submission from interleaving with a pending lookup, and that button is not modelled. A rejected fetch or an undecodable body carries its error message.
- Submission.BuildRequest: does not record the `GET` method or the `Content-Type` header, because they never vary.
- JSON values other than strings are left out: numbers, booleans, `null`, arrays and nested objects. A payload is a map from field names to strings. Truthiness is reduced to "present and non-empty". A non-object payload is also not modelled.
- Text.Trim: the white-space set is the fixed list of ECMAScript WhiteSpace and LineTerminator code points.
- Text.ToUpper: only ASCII a-z are mapped. Other Unicode case mappings are left out, including those that change length (such as `ß` to `SS`). This makes the property weaker than `toUpperCase` only for non-ASCII input.
- Vin.NormalizedVinValid: because upper-casing is ASCII-only, characters that JavaScript's `toUpperCase` maps onto a forbidden letter are accepted here but refused by the page. An example is U+0131 `ı`, which becomes `I`. Mappings that change length are also missed: `ß` followed by 15 digits upper-cases to 17 characters (`SS…`) and is accepted by the page, while the model counts 16 characters and refuses it.
- Vin.ValidateVin: the length is counted in characters, not UTF-16 code units. The two differ only for characters outside the Basic Multilingual Plane.
- The VIN is put into the URL without percent-encoding. `Submission.BuildRequest` states this as written, and no property about the query string's structure is claimed.
