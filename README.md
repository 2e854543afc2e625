# PigeonService: the mock and record network layer, in Dafny

PigeonService is a small Swift networking library. An `APIService` turns a typed
`APIRequestType` into a `URLRequest` and hands it to a `URLSessionType`. It then
routes the answer: a non-2xx status becomes an error, and a 2xx body is decoded
into the response type. This model covers that path and the three sessions used
in tests:

- **`MockURLSession`** (with request validation) replays JSON fixtures from disk.
  - A per-path counter picks `<directory>/<colon path>/<n>.json`, where the colon
    path is the URL path with every `/` replaced by `:`.
  - On a miss, the counter is reset to 0 and index 0 is read. After that comes
    `<mock_responses>default/<colon path>.json`.
  - When validation is on, the live request is compared with the fixture's
    recorded `"request"`. Path and method are always compared. Headers and bodies
    are compared according to the criteria. Ignored keys are dropped from headers,
    and stripped from bodies at every depth.
- **The older `MockURLSession`** does the same lookup, with no validation.
- **`RecordURLSession`** forwards each request to an inner session. For every
  successful answer, when `mock_responses` is set, it writes
  `{"status", "response"}` to `<mock_responses>/-recorded/<colon path>/<n>.json`.

Foundation is not modelled. A `Platform` value supplies its routines as functions:
JSON parsing and rendering, UTF-8 conversion, `URL(string:)` and `URLComponents`.
Lemmas that need a round trip assume it through `JsonRoundTrips` or
`Utf8RoundTrips`. JSON trees are compared by structural equality. That stands in
for the library's comparison of sorted-key serialisations.

The file system is a map from location strings to bytes. The `mock_responses`
environment value is an `Option<string>` argument.

Each session is a class with a `urlCounter` map. Its `Send` method is proved equal
to a specification function over the old counters. The lemmas state the
properties of those functions.

Some of the code's behaviour is easy to get wrong; the model follows the code:

- The first fixture found, whether at the incremented index, at index 0 or in the
  default folder, is the answer. A fixture whose recorded request fails validation
  is not skipped in favour of the next candidate: its `requestValidationFailed`
  error is the answer.
- When body matching is on, only a *missing* body is read as `{}`. A recorded
  body of empty text is parsed as it is, and that fails.
- The recorder never writes a `"request"` entry. Its fixtures therefore fail
  validation (`mockRequestNotFound`) when replayed with validation on.
- The location named in `unableToLocateResponse` uses the raw path, not the
  colon form, and always index 0. The counter has been reset by then.
- Replay counters are keyed by the raw path. The recorder's counters are keyed by
  the colon form, so `/a/b` and `/a:b` share one recorder counter.

## Model

| member | source | states |
|---|---|---|
| RequestValidation.All | Sources/PigeonService/URLSession/MockURLSession/RequestValidationMode.swift:14 | the preset compares both bodies and headers and ignores no key |
| RequestValidation.FlagsCharacterised | Sources/PigeonService/URLSession/MockURLSession/RequestValidationMode.swift:16-42 | `matchBody` holds iff `.matchBody` or some `.matchBodyIgnoring` is in the set, and likewise for headers (both directions) |
| RequestValidation.EmptyMatchesNothing | Sources/PigeonService/URLSession/MockURLSession/RequestValidationMode.swift:16-42 | the empty criteria set switches both comparisons off |
| RequestValidation.FlagsMonotone | Sources/PigeonService/URLSession/MockURLSession/RequestValidationMode.swift:16-42 | adding criteria never switches a comparison off or un-ignores a key |
| RequestValidation.DimensionsIndependent | Sources/PigeonService/URLSession/MockURLSession/RequestValidationMode.swift:5-42 | body criteria never change the header flag or ignored header keys, and header criteria never change the body side |
| RequestValidation.BodyIgnoredKeys | Sources/PigeonService/URLSession/URLRequest.swift:122-127 | a key is ignored in bodies iff some `matchBodyIgnoring` of the set lists it |
| RequestValidation.HeaderIgnoredKeys | Sources/PigeonService/URLSession/URLRequest.swift:94-99 | a key is ignored in headers iff some `matchHeadersIgnoring` of the set lists it |
| RequestValidation.IgnoredKeysInsert | Sources/PigeonService/URLSession/URLRequest.swift:94-99 | visiting one more criterion adds exactly its keys to the ignored keys of its dimension |
| KeyStripping.Strip | Sources/PigeonService/URLSession/URLRequest.swift:144-161 | stripping keeps the shape of the tree; an object loses exactly the stripped keys; scalars are untouched |
| KeyStripping.StripRemovesEverywhere | Sources/PigeonService/URLSession/URLRequest.swift:144-161 | after stripping, no dictionary at any depth holds a stripped key |
| KeyStripping.StripWithoutKeys | Sources/PigeonService/URLSession/URLRequest.swift:144-161 | a tree holding none of the keys is left unchanged |
| KeyStripping.StripNothing | Sources/PigeonService/URLSession/URLRequest.swift:137-142 | removing no key leaves the tree as it is |
| KeyStripping.StripCompose | Sources/PigeonService/URLSession/URLRequest.swift:122-127 | stripping one key set and then another equals stripping their union, so the order of the criteria does not matter |
| KeyStripping.StripIdempotent | Sources/PigeonService/URLSession/URLRequest.swift:122-127 | stripping twice is stripping once |
| KeyStripping.StripNestedExample | Sources/PigeonService/URLSession/URLRequest.swift:144-152 | a key is removed inside nested dictionaries as well as at the top |
| KeyStripping.RemoveAllValuesForKey | Sources/PigeonService/URLSession/URLRequest.swift:144-161 | the recursive dictionary/array walk computes the tree stripped of that key |
| KeyStripping.RemoveAllValues | Sources/PigeonService/URLSession/URLRequest.swift:137-142 | removing each key of the list in turn computes the tree stripped of the whole key set |
| RequestCoding.EncodeRequest | Sources/PigeonService/URLSession/URLRequest.swift:27-35 | the encoding is an object with `httpMethod`, `path` and `headers`, and has `body` exactly when the request has one |
| RequestCoding.DecodeString | Sources/PigeonService/URLSession/URLRequest.swift:55-56 | a required string decodes iff the key is present and holds a string |
| RequestCoding.DecodeRequest | Sources/PigeonService/URLSession/URLRequest.swift:48-61 | a decoded request has the URL `URL(string:)` makes of the `path` string and the `httpMethod` string; headers are absent iff missing or null, and otherwise encode back to the given object; the body is absent iff missing or null, and a string body is its UTF-8 bytes |
| RequestCoding.RequestRoundTrip | Sources/PigeonService/URLSession/URLRequest.swift:27-61 | decoding an encoded request with a URL gives back its URL, method, headers and (UTF-8) body |
| RequestCoding.RequestRoundTripExact | Sources/PigeonService/URLSession/URLRequest.swift:27-61 | for a request whose body is UTF-8 text, decode after encode is the identity |
| RequestCoding.RequestWithoutURLDoesNotDecode | Sources/PigeonService/URLSession/URLRequest.swift:30 | a request without a URL encodes `path` as null, which does not decode |
| RequestMatching.MatchHTTPHeaders | Sources/PigeonService/URLSession/URLRequest.swift:85-103 | the loop over the criteria computes `HeadersAgree`: true when headers are not compared, else equality after the ignored keys are dropped |
| RequestMatching.MatchHTTPBody | Sources/PigeonService/URLSession/URLRequest.swift:105-134 | the loop computes `BodiesAgree`: true when bodies are not compared, a thrown error when a body does not parse, else equality of the stripped trees |
| RequestMatching.Match | Sources/PigeonService/URLSession/URLRequest.swift:65-83 | it throws iff the body check throws; it is true iff path, method, headers and bodies all agree |
| RequestMatching.MatchSymmetric | Sources/PigeonService/URLSession/URLRequest.swift:65-134 | swapping recorded and live request never changes the outcome |
| RequestMatching.PathAndMethodAlwaysCompared | Sources/PigeonService/URLSession/URLRequest.swift:66-82 | a different path or method never matches, whatever the criteria |
| RequestMatching.HeadersIgnoredWithoutCriterion | Sources/PigeonService/URLSession/URLRequest.swift:90-102 | without a header criterion, headers do not affect the outcome |
| RequestMatching.BodiesIgnoredWithoutCriterion | Sources/PigeonService/URLSession/URLRequest.swift:110-116 | without a body criterion, bodies are never parsed and do not affect the outcome |
| RequestMatching.HeadersAgreeMeaning | Sources/PigeonService/URLSession/URLRequest.swift:90-100 | with a header criterion, the check passes iff both sides are nil, or both present with equal values on every key that is not ignored |
| RequestMatching.FilterCompose | Sources/PigeonService/URLSession/URLRequest.swift:94-99 | filtering headers by one key set and then another is filtering by their union |
| RequestMatching.MissingBodyIsEmptyObject | Sources/PigeonService/URLSession/URLRequest.swift:112-113 | a missing body is compared as `{}` |
| RequestMatching.EmptyTextBodyIsAnError | Sources/PigeonService/URLSession/URLRequest.swift:112-118 | a present but empty body is parsed and makes the match throw |
| RequestMatching.IgnoredTimestampExample | Sources/PigeonService/URLSession/URLRequest.swift:122-133 | bodies that differ only in an ignored key match |
| FixtureStore.ColonForm | Sources/PigeonService/URLSession/MockURLSession/MockURLSession.swift:22 | every `/` becomes `:`, every other character is kept, and no `/` remains |
| FixtureStore.ColonFormCollides | Sources/PigeonService/URLSession/MockURLSession/MockURLSession.swift:22 | two different paths can share one fixture folder |
| FixtureStore.Decimal | Sources/PigeonService/URLSession/MockURLSession/MockURLSession.swift:25 | `String(describing:)` of a counter starts with `-` iff the counter is negative |
| FixtureStore.NatDigits | Sources/PigeonService/URLSession/MockURLSession/MockURLSession.swift:25 | the digits denote the number and have no leading zero |
| FixtureStore.DecimalInjective | Sources/PigeonService/URLSession/MockURLSession/MockURLSession.swift:25 | distinct counters print differently |
| FixtureStore.TestFolderPathInjective | Sources/PigeonService/URLSession/MockURLSession/MockURLSession.swift:21-30 | different counts of one path are different fixture files |
| FixtureStore.ReportedPathIsNotSearched | Sources/PigeonService/URLSession/MockURLSession/MockURLSession.swift:68-73 | for every directory, path and count, the location reported as missing is not the indexed file read for that count |
| FixtureStore.Read | Sources/PigeonService/URLSession/MockURLSession/MockURLSession.swift:27 | a read yields the file's bytes iff the file exists |
| FixtureStore.FirstPresent | Sources/PigeonService/URLSession/MockURLSession/MockURLSession.swift:48-66 | the first location of the list that is present, every earlier one being absent; none iff no location is present |
| FixtureStore.Resolve | Sources/PigeonService/URLSession/MockURLSession/MockURLSession.swift:48-74 | one lookup touches only the request's path counter: it keeps the incremented value exactly when that index's file exists, and is 0 otherwise |
| FixtureStore.ResolveReadsFirstCandidate | Sources/PigeonService/URLSession/MockURLSession/MockURLSession.swift:48-74 | the lookup answers with the first present of incremented index, index 0 and default fixture, and reports the raw path at index 0 when none is present |
| FixtureStore.FirstCallReadsIndexZero | Sources/PigeonService/URLSession/MockURLSession/MockURLSession.swift:49-50 | a path seen for the first time reads index 0 (the counter starts at -1) |
| FixtureStore.ReplayCycles | Sources/PigeonService/URLSession/MockURLSession/MockURLSession.swift:48-60 | with fixtures 0..n-1 and no n, call k of a fresh path reads index k mod n and leaves the counter there |
| FixtureStore.OtherPathsUntouched | Sources/PigeonService/URLSession/MockURLSession/MockURLSession.swift:49-56 | replaying one path never changes another path's counter |
| FixtureStore.WrapIsMod | Sources/PigeonService/URLSession/MockURLSession/MockURLSession.swift:48-60 | counting up and wrapping round to 0 at n is the remainder mod n |
| FixtureStore.FixtureJSON | Sources/PigeonService/URLSession/RecordURLSession.swift:41-44 | a fixture is an object with `status` and `response`, with `request` exactly when there is one |
| FixtureStore.ParseFixture | Sources/PigeonService/URLSession/MockURLSession/MockURLSession.swift:79-83 | fixture bytes are accepted iff they parse to an object with an integer `status` and an array or object `response` |
| FixtureStore.FixtureRoundTrip | Sources/PigeonService/URLSession/MockURLSession/MockURLSession.swift:79-83 | a fixture written and parsed back is the same fixture |
| FixtureStore.ResponseMustBeContainer | Sources/PigeonService/URLSession/MockURLSession/MockURLSession.swift:82-83 | a missing or scalar `response` is rejected |
| MockSession.MockURLSession.LoadJsonFromTestFolder | Sources/PigeonService/URLSession/MockURLSession/MockURLSession.swift:21-30 | data is returned iff the path has a counter and `<directory>/<colon path>/<count>.json` exists |
| MockSession.MockURLSession.LoadJsonFromDefaultFolder | Sources/PigeonService/URLSession/MockURLSession/MockURLSession.swift:32-41 | data is returned iff `mock_responses` is set and `<mock_responses>default/<colon path>.json` exists |
| MockSession.ProcessSpec | Sources/PigeonService/URLSession/MockURLSession/MockURLSession.swift:77-114 | success iff the fixture parses and validation passes; the answer carries the fixture's status and response; unparsable bytes give `unableToParseResponse` |
| MockSession.MockURLSession.Process | Sources/PigeonService/URLSession/MockURLSession/MockURLSession.swift:77-114 | the step-by-step `process` returns exactly `ProcessSpec` |
| MockSession.SendSpec | Sources/PigeonService/URLSession/MockURLSession/MockURLSession.swift:42-75 | no URL gives `noURL` with counters unchanged; otherwise the counters are those of the lookup |
| MockSession.MockURLSession.Send | Sources/PigeonService/URLSession/MockURLSession/MockURLSession.swift:42-75 | the new counters and the completion result are exactly `SendSpec` of the old counters |
| MockSession.NoURLLeavesCountersAlone | Sources/PigeonService/URLSession/MockURLSession/MockURLSession.swift:43-46 | a request without URL fails with `noURL` and changes no counter |
| MockSession.FoundFixtureEndsTheRequest | Sources/PigeonService/URLSession/MockURLSession/MockURLSession.swift:49-53 | once the incremented index exists, its `process` result is the answer, even a failure |
| MockSession.NothingFound | Sources/PigeonService/URLSession/MockURLSession/MockURLSession.swift:62-74 | with every candidate missing, the error names `<directory><raw path>/0.json` and the counter is 0 |
| MockSession.ValidationOffIgnoresRequest | Sources/PigeonService/URLSession/MockURLSession/MockURLSession.swift:91 | with validation off, the live request does not affect the result |
| MockSession.MissingRecordedRequest | Sources/PigeonService/URLSession/MockURLSession/MockURLSession.swift:93-95 | with validation on, a fixture without `request` fails with `mockRequestNotFound` |
| MockSession.ValidationOutcome | Sources/PigeonService/URLSession/MockURLSession/MockURLSession.swift:91-108 | with validation on, a fixture recording request R (with or without a UTF-8 body) answers with its status and response iff the live request matches R, and otherwise fails with `requestValidationFailed` |
| MockSession.AnswerCarriesResponse | Sources/PigeonService/URLSession/MockURLSession/MockURLSession.swift:107-108 | the answer's bytes parse back to the fixture's `response` |
| MockSession.FromLegacy | Sources/PigeonService/URLSession/MockURLSession.swift:3-7 | the older session's errors map to the same-named errors here |
| MockSession.ValidationOffIsLegacy | Sources/PigeonService/URLSession/MockURLSession.swift:57-112 | with validation off, both replay sessions move their counters alike and answer alike |
| LegacyMockSession.Process | Sources/PigeonService/URLSession/MockURLSession.swift:92-112 | success iff the fixture parses, carrying its status and response; otherwise `unableToParseResponse` |
| LegacyMockSession.SendSpec | Sources/PigeonService/URLSession/MockURLSession.swift:57-90 | no URL gives `noURL` with counters unchanged; otherwise the counters are those of the lookup |
| LegacyMockSession.MockURLSession.LoadJsonFromTestFolder | Sources/PigeonService/URLSession/MockURLSession.swift:36-45 | data is returned iff the path has a counter and the indexed file exists |
| LegacyMockSession.MockURLSession.LoadJsonFromDefaultFolder | Sources/PigeonService/URLSession/MockURLSession.swift:47-56 | data is returned iff `mock_responses` is set and the default file exists |
| LegacyMockSession.MockURLSession.Send | Sources/PigeonService/URLSession/MockURLSession.swift:57-90 | the new counters and the result are exactly `SendSpec` of the old counters |
| LegacyMockSession.NoURLLeavesCountersAlone | Sources/PigeonService/URLSession/MockURLSession.swift:58-61 | a request without URL fails with `noURL` and changes no counter |
| LegacyMockSession.DefaultFolderAnswers | Sources/PigeonService/URLSession/MockURLSession.swift:63-81 | when both indexed reads miss, the default fixture answers and the counter is left at 0 |
| LegacyMockSession.NothingFound | Sources/PigeonService/URLSession/MockURLSession.swift:83-89 | with every candidate missing, the error names the raw path at index 0 |
| RecordSession.AppendPathComponent | Sources/PigeonService/URLSession/RecordURLSession.swift:35-37 | exactly one `/` separates base and component |
| RecordSession.RecordedFixture | Sources/PigeonService/URLSession/RecordURLSession.swift:40-44 | the recorded fixture has the live status, the parsed body or `{}`, and no `request` |
| RecordSession.RecordSpec | Sources/PigeonService/URLSession/RecordURLSession.swift:16-66 | failures pass through unchanged; without `mock_responses` or a URL the handler is never called; a result handed on is the live one |
| RecordSession.RecordURLSession.Send | Sources/PigeonService/URLSession/RecordURLSession.swift:16-66 | the new counters, file system and callback are exactly `RecordSpec` of the old counters |
| RecordSession.FailurePassesThrough | Sources/PigeonService/URLSession/RecordURLSession.swift:62-63 | a transport failure is forwarded, nothing is written and no counter moves |
| RecordSession.NoEnvironmentNoCallback | Sources/PigeonService/URLSession/RecordURLSession.swift:20-25 | without `mock_responses` the completion handler is never called |
| RecordSession.RecordsUnderNextIndex | Sources/PigeonService/URLSession/RecordURLSession.swift:28-59 | the colon-key counter advances by one from -1, the fixture is written at that index, the answer is handed on, and a failed write loses only the file |
| RecordSession.TargetsDistinct | Sources/PigeonService/URLSession/RecordURLSession.swift:35-37 | recordings under different indices never overwrite each other |
| RecordSession.AppendInjective | Sources/PigeonService/URLSession/RecordURLSession.swift:35-37 | appending to one base is one-to-one in the component |
| RecordSession.ColonKeysShareCounter | Sources/PigeonService/URLSession/RecordURLSession.swift:79-83 | `/a/b` then `/a:b` are recorded under indices 0 and 1 of one counter |
| RecordSession.RecordTargetIsTestFolder | Sources/PigeonService/URLSession/RecordURLSession.swift:35-37 | the recorder writes where a replay session over `<mock_responses>/-recorded` reads |
| RecordSession.RecordThenReplay | Sources/PigeonService/URLSession/RecordURLSession.swift:35-53 | replaying a recording with the older session answers with the recorded status and a body that parses to the live body tree |
| FixtureStore.NextCount | Sources/PigeonService/URLSession/MockURLSession/MockURLSession.swift:49 | the index tried first: one more than the stored counter, which defaults to -1 |
| FixtureStore.TestFolderPath | Sources/PigeonService/URLSession/MockURLSession/MockURLSession.swift:22-25 | the indexed fixture `<directory>/<colon path>/<count>.json` |
| FixtureStore.DefaultFolderPath | Sources/PigeonService/URLSession/MockURLSession/MockURLSession.swift:33-36 | the default fixture `<mock_responses>default/<colon path>.json` |
| FixtureStore.MissingReport | Sources/PigeonService/URLSession/MockURLSession/MockURLSession.swift:71 | the reported location `<directory><raw path>/<count>.json` |
| MockSession.FirstFoundFixtureAnswers | Sources/PigeonService/URLSession/MockURLSession/MockURLSession.swift:48-66 | whichever candidate is present first (incremented index, index 0 or default fixture), its `process` result is the answer, even a failure |
| MockSession.ValidationError | Sources/PigeonService/URLSession/MockURLSession/MockURLSession.swift:91-105 | validation off never fails; on, a missing `request` gives `mockRequestNotFound`, and the only session errors it raises are that and `requestValidationFailed` |
| MockSession.MockURLSession.constructor | Sources/PigeonService/URLSession/MockURLSession/MockURLSession.swift:16-19 | directory and validation mode as given, and no counters |
| LegacyMockSession.MockURLSession.constructor | Sources/PigeonService/URLSession/MockURLSession.swift:32-34 | directory as given, and no counters |
| RecordSession.RecordURLSession.constructor | Sources/PigeonService/URLSession/RecordURLSession.swift:12-14 | no counters |
| RecordSession.RecordTarget | Sources/PigeonService/URLSession/RecordURLSession.swift:35-37 | the write target `<mock_responses>/-recorded/<colon key>/<n>.json` |
| RequestValidation.MatchesBody | Sources/PigeonService/URLSession/MockURLSession/RequestValidationMode.swift:16-28 | some criterion of the set is `.matchBody` or `.matchBodyIgnoring` |
| RequestValidation.MatchesHeaders | Sources/PigeonService/URLSession/MockURLSession/RequestValidationMode.swift:30-42 | some criterion of the set is `.matchHeaders` or `.matchHeadersIgnoring` |
| RequestMatching.FilterHeaders | Sources/PigeonService/URLSession/URLRequest.swift:96-97 | nil stays nil; a map keeps exactly its keys outside the ignored set, with their values |
| RequestMatching.HeadersAgree | Sources/PigeonService/URLSession/URLRequest.swift:90-102 | the header check: true when headers are not compared, else equality of the filtered maps |
| RequestMatching.BodiesAgree | Sources/PigeonService/URLSession/URLRequest.swift:110-133 | true when bodies are not compared; an error iff they are and a body does not parse as an array or object |
| RequestMatching.MatchSpec | Sources/PigeonService/URLSession/URLRequest.swift:65-83 | the body check's error, or the conjunction of path, method, header and body agreement |
| RequestCoding.DecodeHeaders | Sources/PigeonService/URLSession/URLRequest.swift:57 | missing or null headers are absent; an object of strings is the header map; anything else is a type mismatch |
| RequestCoding.DecodeBody | Sources/PigeonService/URLSession/URLRequest.swift:58-60 | a missing or null body is absent; a string is its UTF-8 bytes; anything else is a type mismatch |
| RequestCoding.TextBodyRoundTrip | Sources/PigeonService/URLSession/URLRequest.swift:27-61 | with a UTF-8 codec that reads back what it writes, a request whose body is encoded text decodes back exactly |
| HTTPResponse.IsSuccess | Sources/PigeonService/Utilities/HTTPURLResponse.swift:6 | a response is a success iff its status code's hundreds digit is 2 |
| HTTPResponse.TestedCodes | Tests/UnitTests/HTTPURLResponseTests.swift:5-16 | 200, 250 and 299 are successes; 199, 300, 400 and 500 are not |
| HTTPResponse.RangeIsOneHundredWide | Sources/PigeonService/Utilities/HTTPURLResponse.swift:6 | a code and the code 100 above it are never both successes |
| APIRequest.HTTPMethod.RawValue | Sources/PigeonService/APIRequest.swift:7-13 | the five wire names DELETE, GET, PATCH, POST and PUT |
| APIRequest.MethodFromRawValue | Sources/PigeonService/APIRequest.swift:7-13 | a name maps back only to the method bearing it |
| APIRequest.RawValueRoundTrip | Sources/PigeonService/APIRequest.swift:7-13 | every method's wire name maps back to it |
| APIRequest.WithDefaults | Sources/PigeonService/APIRequest.swift:61-62 | the protocol's defaults leave headers and queries nil |
| APIRequest.JsonEncodeBody | Sources/PigeonService/APIRequest.swift:54-57 | `EmptyBody` gives no data; any other body gives the encoder's output or its error |
| APIRequest.MergedHeaders | Sources/PigeonService/APIRequest.swift:84-90 | keys are the defaults', the request's and `Authorization` with a token; the request's value wins over the default |
| APIRequest.TokenSetsAuthorization | Tests/UnitTests/APIServiceTests.swift:77-85 | with a token, `Authorization` is `Bearer <token>` |
| APIRequest.NoTokenKeepsAuthorization | Tests/UnitTests/APIServiceTests.swift:70-76 | without a token, `Authorization` is only what the headers say |
| APIRequest.NilHeadersKeepDefaults | Sources/PigeonService/APIRequest.swift:84 | nil request headers and no token leave the defaults exactly |
| APIRequest.MergeExample | Tests/UnitTests/APIRequestTests.swift:96-116 | the request's `version` overrides the default one and other keys are kept |
| APIRequest.URLRequestFor | Sources/PigeonService/APIRequest.swift:64-93 | an unparsable URL gives `invalidURL`; a bad query gives `invalidQueryItems`; success iff URL, query and body all succeed, with the merged headers and raw method |
| APIRequest.UrlRequest | Sources/PigeonService/APIRequest.swift:64-93 | the field-by-field build returns exactly `URLRequestFor` |
| APIService.ErrorFor | Sources/PigeonService/APIService.swift:170-190 | 401 is `unauthorized` whatever the body; an empty body is `responseFailedWithoutErrorBody`; otherwise the decoded domain error or the decoding error |
| APIService.DataToDecode | Sources/PigeonService/APIService.swift:135 | never empty, and a non-empty body is decoded as it is |
| APIService.Route | Sources/PigeonService/APIService.swift:111-162 | session failures are forwarded; non-2xx goes to error classification; 2xx is decoded |
| APIService.BuildError | Sources/PigeonService/APIService.swift:165-167 | a build failure is reported as the error that was thrown |
| APIService.APIService.Send | Sources/PigeonService/APIService.swift:86-168 | a build failure never reaches the session; otherwise the built request is sent once and its answer is routed |
| APIService.APIService.constructor | Sources/PigeonService/APIService.swift:68-84 | base URL and default headers as given, and no access token |
| APIService.ErrorStatusIgnoresResponseDecoder | Sources/PigeonService/APIService.swift:117-132 | a non-2xx answer is always a failure and never depends on the response decoder |
| APIService.UnauthorizedWhateverTheBody | Sources/PigeonService/APIService.swift:176 | a 401 is `unauthorized` whatever the body |
| APIService.EmptySuccessIsEmptyObject | Sources/PigeonService/APIService.swift:135 | an empty 2xx body gives the same result as the body `{}` |
| APIService.SuccessStatusIsDecoded | Sources/PigeonService/APIService.swift:135-152 | a 2xx answer is never classified as an HTTP error: the result is the decoded value or a decoding error |

## Left out

- Foundation's JSON parser and renderer, UTF-8 conversion, `URL(string:)` and `URLComponents` are supplied functions. Their round-trip laws are lemma preconditions, not proofs.
- JSON numbers are integers. Floating point, and NSNumber's bridging of booleans to integers, are not modelled.
- Swift `Int` overflow of the counters is not modelled. Counters are unbounded integers.
- HTTP header names are compared case-sensitively, as plain dictionary keys.
- Strings are compared as exact sequences of Unicode scalars. Swift's `String` `==`, which treats canonically equivalent strings (a precomposed `é` and `e` followed by a combining accent) as equal, is not modelled. This affects the path comparison of `match` (`RequestMatching.PathOf` in `MatchSpec`), the header dictionary comparison (`HeadersAgree`), the `urlCounter` keys (`NextCount`, `Resolve`) and the `/` search of `replacingOccurrences` (`ColonForm`). Where Swift would see two equivalent paths as one, with one counter and a match, the model sees two.
- A URL is modelled by its path only. URL normalisation is not modelled.
- The file system is a map. A location that `URL(string:)` rejects is folded into a missing file.
- `createFolder` and the file write are one `writable` flag. A failed write only loses the file.
- Logging, timing and the `print` calls of the recorder are left out.
- Sessions are synchronous. The inner session's answer is a parameter (`RecordURLSession.Send`) or a function (`APIService.Send`), so "the completion handler is called at most once" holds by construction.
- `errorDescription` strings are not modelled.
- Pretty-printing options and sorted-key serialisation are replaced by structural equality of trees.
- The in-place mutation of `NSMutableDictionary` and `NSMutableArray` is modelled on immutable values: `RemoveAllValuesForKey` returns the stripped tree. Aliasing between nested containers is not captured.
- A fixture `"request"` that is not an array or object traps in `JSONSerialization.data(withJSONObject:)`. It is modelled as the error `RequestNotSerializable`.
- `JSONDecoder`'s own parse of the re-serialised request uses the supplied parser. A failure is reported as `dataCorrupted` with an empty coding path.
- The `URLSession` conformance of the real `URLSession` is not part of this model.
- The `decoder` and `encoder` fields of `APIService` are the supplied decode and encode functions.
- `EmptyBody` as a response type is not modelled separately; it is whatever `decodeBody` makes of `{}`.
- APIService.Route: the error values carry the decoder's error, not Swift's `Error` existential.
