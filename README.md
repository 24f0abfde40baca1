# Surf forecast core in Dafny

A model of the two sequential pieces of a surf-forecast API:

- **The StormGlass client** (`StormGlass` module, `storm_glass.dfy`). It covers
  the completeness check on raw hourly points: a time and a truthy reading
  under the fixed source `"noaa"` for each of seven metrics. It covers the
  normalisation of a provider response, a stable filter followed by a
  projection onto flat forecast points. And it covers the classification of
  one request outcome into the normalised points, a `StormGlassResponseError`
  or a `ClientRequestError`, each with its exact message.
- **The forecast service** (`Forecast` module, `forecast.dfy`). It covers the
  loop that fetches each beach's points in input order and copies the beach's
  coordinates, name and position, plus a placeholder rating of 1, onto every
  point. It appends the enriched points to one flat list and stops at the
  first failing fetch.

`Wrappers` (`wrappers.dfy`) holds the `Option` and `Result` datatypes.

Modelling choices:

- Numbers (coordinates and readings) are `real`. A number is truthy when it is
  not zero; a string is truthy when it is not empty.
- A raw point is validated as a partial record, so every field is an
  `Option`. A metric's readings are a `map<string, real>`; a missing key reads
  as `undefined`, which is falsy.
- A request's outcome is an input: `Received(body)` or
  `Rejected(RequestFailure(message, response))`. A failure "is a request
  error" when it carries a response. A received body may lack its `hours`
  array or hold `null` hours. Normalising such a body throws a `TypeError`,
  which the client reports as a `ClientRequestError`. The engine's wording of
  that `TypeError` is a parameter of `StormGlass.FetchPoints`.
- The service holds a `Forecast.StormGlassClient`. Its `FetchPoints` method
  answers with a fixed function `answer` of the coordinates, which stands for
  `StormGlass.FetchPoints` applied to the request's outcome. Each call appends
  its coordinates to the client's ghost `log`. Every fetch the loop
  makes goes through that method, so what it adds to the log is the fetches
  it made, in order.
- The loop is a method proved against the function `Forecast.Accumulate`.

The model follows the code. `processForecastForBeaches` returns the flat list
of enriched points: it does not group them by time. It has no `try`/`catch`,
so a fetch error reaches the caller unchanged rather than re-raised as a
generic error.

## Model

| member | source | states |
|---|---|---|
| `StormGlass.IsValidPoint` | src/clients/stormGlass.ts:72-82 | the completeness check: a present, non-empty time and, for each of the seven metrics in the source's order, a present map with a non-zero `"noaa"` entry |
| `StormGlass.ValidPointIff` | src/clients/stormGlass.ts:72-82 | a point is valid exactly when its time is present and non-empty and every one of the seven metrics has a truthy reading under `"noaa"` |
| `StormGlass.MissingOrZeroRejects` | src/clients/stormGlass.ts:75-81 | a metric whose map is absent, has no `"noaa"` entry, or whose entry is 0 rejects the point |
| `StormGlass.MissingTimeRejects` | src/clients/stormGlass.ts:74 | a missing or empty time rejects the point |
| `StormGlass.Project` | src/clients/stormGlass.ts:61-68 | the flat point's time is the raw time and each metric's value is that metric's `"noaa"` reading |
| `StormGlass.FilterValid` | src/clients/stormGlass.ts:60 | the filter keeps only valid points and never more points than it was given |
| `StormGlass.ValidIndices` | src/clients/stormGlass.ts:60 | the positions of the valid hours: in range, strictly increasing, and holding a position exactly when its hour is valid |
| `StormGlass.FilterValidAt` | src/clients/stormGlass.ts:60 | the k-th point the filter keeps is the input hour at the k-th valid position, and there are as many kept points as valid positions |
| `StormGlass.NormalizeResponse` | src/clients/stormGlass.ts:59-70 | the output is no longer than the input hours; every output point has a non-empty time and seven non-zero readings |
| `StormGlass.NormalizeIsStableFilter` | src/clients/stormGlass.ts:60-69 | the k-th output point is the projection of the k-th valid hour; those hours keep their input order, and every valid hour is among them |
| `StormGlass.NormalizeProvenance` | src/clients/stormGlass.ts:61-68 | every output point copies the time and the `"noaa"` readings of some valid input hour |
| `StormGlass.FilterValidAppend` | src/clients/stormGlass.ts:60 | filtering a concatenation is the concatenation of the filtered parts |
| `StormGlass.NormalizeAppend` | src/clients/stormGlass.ts:60 | normalising two batches of hours separately and concatenating gives the normalisation of the joined batch |
| `StormGlass.FilterValidAllValid` | src/clients/stormGlass.ts:60 | when every hour is valid the filter returns its input unchanged |
| `StormGlass.NormalizeAllValid` | src/clients/stormGlass.ts:60-69 | when every hour is valid the output has one point per hour, the k-th being the projection of the k-th hour |
| `StormGlass.FilterValidNoneValid` | src/clients/stormGlass.ts:60 | when no hour is valid the filter returns the empty list |
| `StormGlass.NormalizeNoneValid` | src/clients/stormGlass.ts:60 | an empty or all-invalid response normalises to the empty list, not to an error |
| `StormGlass.DecimalString` | src/clients/stormGlass.ts:99 | a status code prints as a non-empty string of decimal digits |
| `StormGlass.DecimalRoundTrip` | src/clients/stormGlass.ts:99 | reading the printed status code back as a decimal number gives the status code |
| `StormGlass.ReadBody` | src/clients/stormGlass.ts:60 | a received body can be normalised exactly when it has an `hours` array none of whose entries is missing, and then its hours are those entries, in order |
| `StormGlass.FetchPoints` | src/clients/stormGlass.ts:85-103 | a readable body yields its normalised points; an unreadable one yields a `ClientRequestError` whose message is the transport prefix followed by the `TypeError`'s message; a failure with a response yields a `StormGlassResponseError` whose message is the service prefix, then `Error: `, the body, ` Code: ` and the status; any other failure yields a `ClientRequestError` whose message is the transport prefix followed by the failure's message |
| `StormGlass.FailsUnlessReadable` | src/clients/stormGlass.ts:86-102 | a fetch fails exactly when the request was rejected or its body cannot be normalised |
| `StormGlass.ErrorKindFromMessage` | src/clients/stormGlass.ts:38-50 | for every failed fetch, the error's kind can be read off its message prefix in both directions; it is a service error exactly when the request was rejected with a response |
| `StormGlass.TransportCauseRecoverable` | src/clients/stormGlass.ts:96-101 | the text after a transport error's prefix is the underlying failure's message, or the `TypeError`'s message for an unreadable body |
| `StormGlass.ServiceErrorRecoverable` | src/clients/stormGlass.ts:99 | the number written by a service error message's trailing digits is the response's status code, whatever the serialised body holds |
| `Forecast.EnrichPoint` | src/services/forecast.ts:32-41 | an enriched record carries the beach's lat, lng, name and position and rating 1, and projecting it back gives the fetched point |
| `Forecast.EnrichPoints` | src/services/forecast.ts:32-41 | a beach's records correspond one to one and in order to its fetched points, each carrying that beach's metadata |
| `Forecast.FirstFailure` | src/services/forecast.ts:29-31 | the position of the first beach whose fetch fails: every earlier fetch succeeds, and the fetch at that position fails unless it is the end of the list |
| `Forecast.StormGlassClient.FetchPoints` | src/services/forecast.ts:31 | a fetch answers with the client's response for those coordinates and appends them to the client's log |
| `Forecast.Accumulate` | src/services/forecast.ts:29-43 | the result of processing the beaches in order: each beach's enriched points appended to the earlier ones, or the error of the first failing fetch |
| `Forecast.FailureSticks` | src/services/forecast.ts:31 | once a prefix of the beaches fails, the later beaches do not change the result |
| `Forecast.FailsAtFirstFailure` | src/services/forecast.ts:29-31 | processing fails exactly when some beach's fetch fails, and then with the unchanged error of the first such beach |
| `Forecast.SuccessPrefix` | src/services/forecast.ts:29-43 | processing a prefix of a successful list of beaches succeeds, and its result is a prefix of the whole result |
| `Forecast.SuccessStep` | src/services/forecast.ts:29-42 | after a successful prefix, processing one more beach appends that beach's enriched points to the earlier result |
| `Forecast.SuccessLength` | src/services/forecast.ts:29-43 | a successful result holds as many records as the sum over beaches of the points fetched for each |
| `Forecast.SuccessLayout` | src/services/forecast.ts:29-42 | in a successful result, the record at the total point count of the beaches before k, plus j, carries beach k's metadata and rating 1 and projects back to the j-th point fetched for beach k |
| `Forecast.SuccessProvenance` | src/services/forecast.ts:32-42 | every record of a successful result has some beach's metadata and rating 1, and its time and readings are those of a point fetched for that beach |
| `Forecast.ProcessForecastForBeaches` | src/services/forecast.ts:26-46 | the loop returns what `Accumulate` describes, and an empty list for no beaches; the client's log grows by one entry per beach, in input order, with that beach's coordinates, up to and including the first failing fetch and no further |

## Left out

- HTTP transport, the request wrapper and the body of `isRequestError` are not
  part of this model. A request's outcome is an input, and "is a request error"
  is read as "the failure carries a response".
- Configuration (`apiUrl`, `apiToken`) and the construction of the request URL
  and headers are left out, and so is the metric list sent with it. The fixed
  source `"noaa"` is kept as a constant.
- `StormGlass.FetchPoints`: a body whose `hours` is present but is not an
  array, or a body that is not an object, is not modelled. Which property
  access raises the `TypeError`, and its wording, are not modelled either:
  the message is a parameter.
- `Forecast.StormGlassClient`: its answers are a function of the coordinates,
  so two beaches with the same coordinates get the same answer. In the
  program each beach gets its own HTTP request, whose answer may differ.
- `JSON.stringify` of the error body is a library serialiser. The body is taken
  as an already serialised string.
- The `InternalError` base class is not part of this model. An error is its
  kind plus its full message.
- `async`/`await`: the fetches run one after another, so they are plain calls.
- Floating-point semantics: coordinates and readings are `real` values that are
  only compared with zero and copied. `NaN`, which is also falsy in
  JavaScript, is not modelled.
- Status codes are natural numbers. Non-integer or negative numbers printed in
  a template literal are not modelled.
- The test's JSON fixtures (three raw hours and their normalised form) are not
  part of this model, so the fixture scenario is covered only by the general
  lemmas.
- Grouping the enriched points by time, and re-raising failures as one generic
  error, are not done by the code and are not modelled.
- The point is spread after the beach fields in the enrichment. Normalised
  points and beach fields share no key, so no field is overridden and the
  model has no overlapping fields.
