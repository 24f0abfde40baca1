/**
 * The StormGlass client: validation of raw hourly points, their normalisation
 * into flat forecast points read from one fixed data source, and the
 * classification of a failed request into one of two error kinds.
 */
module StormGlass {
  import opened Wrappers

  /** The readings of one metric, keyed by the name of the data source. */
  type PointSource = map<string, real>

  /**
   * One hour of raw provider data. Every field may be missing (the source
   * validates a `Partial` point), so every field is optional here.
   */
  datatype RawPoint = RawPoint(
    time: Option<string>,
    waveHeight: Option<PointSource>,
    waveDirection: Option<PointSource>,
    swellDirection: Option<PointSource>,
    swellHeight: Option<PointSource>,
    swellPeriod: Option<PointSource>,
    windDirection: Option<PointSource>,
    windSpeed: Option<PointSource>)

  /** The body of a successful provider response. */
  datatype ForecastResponse = ForecastResponse(hours: seq<RawPoint>)

  /** A normalised point: the time and the seven readings of the fixed source. */
  datatype ForecastPoint = ForecastPoint(
    time: string,
    waveHeight: real,
    waveDirection: real,
    swellDirection: real,
    swellHeight: real,
    swellPeriod: real,
    windDirection: real,
    windSpeed: real)

  /** The seven metrics, so that statements about "every metric" can quantify. */
  datatype Metric =
    | SwellDirection | SwellHeight | SwellPeriod
    | WaveDirection | WaveHeight | WindDirection | WindSpeed

  /** The one data source whose readings are kept. */
  const APISource: string := "noaa"

  /** The raw map of readings that a point holds for metric `m`. */
  function RawMetric(p: RawPoint, m: Metric): Option<PointSource>
  {
    match m
    case SwellDirection => p.swellDirection
    case SwellHeight => p.swellHeight
    case SwellPeriod => p.swellPeriod
    case WaveDirection => p.waveDirection
    case WaveHeight => p.waveHeight
    case WindDirection => p.windDirection
    case WindSpeed => p.windSpeed
  }

  /** The reading that a normalised point holds for metric `m`. */
  function PointMetric(f: ForecastPoint, m: Metric): real
  {
    match m
    case SwellDirection => f.swellDirection
    case SwellHeight => f.swellHeight
    case SwellPeriod => f.swellPeriod
    case WaveDirection => f.waveDirection
    case WaveHeight => f.waveHeight
    case WindDirection => f.windDirection
    case WindSpeed => f.windSpeed
  }

  /** JavaScript truthiness of a number: every number but zero is truthy. */
  predicate Truthy(v: real)
  {
    v != 0.0
  }

  /**
   * `source?.[APISource]` is truthy: the map is present, has an entry for the
   * fixed source, and that entry is not zero.
   */
  predicate TruthyAtSource(source: Option<PointSource>)
  {
    source.Some? && APISource in source.value && Truthy(source.value[APISource])
  }

  /** The completeness check applied to every raw point. */
  predicate IsValidPoint(p: RawPoint)
  {
    && p.time.Some? && p.time.value != ""
    && TruthyAtSource(p.swellDirection)
    && TruthyAtSource(p.swellHeight)
    && TruthyAtSource(p.swellPeriod)
    && TruthyAtSource(p.waveDirection)
    && TruthyAtSource(p.waveHeight)
    && TruthyAtSource(p.windDirection)
    && TruthyAtSource(p.windSpeed)
  }

  /**
   * A point is valid exactly when it has a non-empty time and every one of
   * the seven metrics has a truthy reading under the fixed source.
   */
  lemma ValidPointIff(p: RawPoint)
    ensures IsValidPoint(p) <==>
      (p.time.Some? && p.time.value != "" && forall m: Metric :: TruthyAtSource(RawMetric(p, m)))
  {
    if p.time.Some? && p.time.value != "" && forall m: Metric :: TruthyAtSource(RawMetric(p, m)) {
      assert TruthyAtSource(RawMetric(p, SwellDirection));
      assert TruthyAtSource(RawMetric(p, SwellHeight));
      assert TruthyAtSource(RawMetric(p, SwellPeriod));
      assert TruthyAtSource(RawMetric(p, WaveDirection));
      assert TruthyAtSource(RawMetric(p, WaveHeight));
      assert TruthyAtSource(RawMetric(p, WindDirection));
      assert TruthyAtSource(RawMetric(p, WindSpeed));
    }
  }

  /**
   * One metric without a truthy reading rejects the point: the map is
   * missing, it has no entry for the fixed source, or that entry is zero.
   */
  lemma MissingOrZeroRejects(p: RawPoint, m: Metric)
    requires RawMetric(p, m).None?
          || APISource !in RawMetric(p, m).value
          || RawMetric(p, m).value[APISource] == 0.0
    ensures !IsValidPoint(p)
  {
    ValidPointIff(p);
  }

  /** A missing or empty time rejects the point. */
  lemma MissingTimeRejects(p: RawPoint)
    requires p.time.None? || p.time.value == ""
    ensures !IsValidPoint(p)
  {
  }

  /** The flat point made from a valid raw point: every reading taken from the fixed source. */
  function Project(p: RawPoint): (f: ForecastPoint)
    requires IsValidPoint(p)
    ensures f.time == p.time.value
    ensures forall m: Metric :: RawMetric(p, m).Some? && APISource in RawMetric(p, m).value
                                && PointMetric(f, m) == RawMetric(p, m).value[APISource]
  {
    ForecastPoint(
      time := p.time.value,
      waveHeight := p.waveHeight.value[APISource],
      waveDirection := p.waveDirection.value[APISource],
      swellDirection := p.swellDirection.value[APISource],
      swellHeight := p.swellHeight.value[APISource],
      swellPeriod := p.swellPeriod.value[APISource],
      windDirection := p.windDirection.value[APISource],
      windSpeed := p.windSpeed.value[APISource])
  }

  /** The raw points that pass the completeness check, in their original order. */
  function FilterValid(hours: seq<RawPoint>): (valid: seq<RawPoint>)
    ensures |valid| <= |hours|
    ensures forall k :: 0 <= k < |valid| ==> IsValidPoint(valid[k])
  {
    if hours == [] then []
    else
      var last := hours[|hours| - 1];
      var init := FilterValid(hours[..|hours| - 1]);
      if IsValidPoint(last) then init + [last] else init
  }

  /**
   * The positions of the valid raw points: strictly increasing, and holding
   * exactly the positions whose point is valid.
   */
  function ValidIndices(hours: seq<RawPoint>): (idx: seq<nat>)
    ensures forall k :: 0 <= k < |idx| ==> idx[k] < |hours|
    ensures forall k, l :: 0 <= k < l < |idx| ==> idx[k] < idx[l]
    ensures forall i :: 0 <= i < |hours| ==> (i in idx <==> IsValidPoint(hours[i]))
  {
    if hours == [] then []
    else
      var n := |hours| - 1;
      var rest := ValidIndices(hours[..n]);
      assert n !in rest;
      assert forall i :: 0 <= i < n ==> hours[i] == hours[..n][i];
      if IsValidPoint(hours[n]) then rest + [n] else rest
  }

  /** The filter keeps, one by one, the points at the valid positions. */
  lemma {:induction false} FilterValidAt(hours: seq<RawPoint>)
    ensures |ValidIndices(hours)| == |FilterValid(hours)|
    ensures forall k :: 0 <= k < |FilterValid(hours)| ==>
      FilterValid(hours)[k] == hours[ValidIndices(hours)[k]]
  {
    if hours != [] {
      var n := |hours| - 1;
      var init := hours[..n];
      FilterValidAt(init);
      var kept, idx := FilterValid(init), ValidIndices(init);
      forall k | 0 <= k < |kept|
        ensures kept[k] == hours[idx[k]]
      {
        assert idx[k] < n;
        assert init[idx[k]] == hours[idx[k]];
      }
      if IsValidPoint(hours[n]) {
        assert FilterValid(hours) == kept + [hours[n]];
        assert ValidIndices(hours) == idx + [n];
      } else {
        assert FilterValid(hours) == kept;
        assert ValidIndices(hours) == idx;
      }
    }
  }

  /** The normalisation of a response: filter the valid hours, then project each. */
  function NormalizeResponse(response: ForecastResponse): (points: seq<ForecastPoint>)
    ensures |points| <= |response.hours|
    ensures forall k :: 0 <= k < |points| ==>
      points[k].time != "" && forall m: Metric :: Truthy(PointMetric(points[k], m))
  {
    var valid := FilterValid(response.hours);
    seq(|valid|, k requires 0 <= k < |valid| => Project(valid[k]))
  }

  /**
   * The normalisation is a stable filter followed by a projection: its k-th
   * point is the projection of the k-th valid hour, the positions of those
   * hours increase, and every valid hour is among them.
   */
  lemma NormalizeIsStableFilter(response: ForecastResponse)
    ensures var idx := ValidIndices(response.hours);
      && |NormalizeResponse(response)| == |idx|
      && (forall k :: 0 <= k < |idx| ==>
            idx[k] < |response.hours| && IsValidPoint(response.hours[idx[k]])
            && NormalizeResponse(response)[k] == Project(response.hours[idx[k]]))
      && (forall k, l :: 0 <= k < l < |idx| ==> idx[k] < idx[l])
      && (forall i :: 0 <= i < |response.hours| ==> (i in idx <==> IsValidPoint(response.hours[i])))
  {
    FilterValidAt(response.hours);
  }

  /** Every output point copies the time and the fixed-source readings of some valid input hour. */
  lemma NormalizeProvenance(response: ForecastResponse, k: nat)
    requires k < |NormalizeResponse(response)|
    ensures exists i :: (0 <= i < |response.hours| && IsValidPoint(response.hours[i])
      && NormalizeResponse(response)[k].time == response.hours[i].time.value
      && forall m: Metric ::
           PointMetric(NormalizeResponse(response)[k], m) == RawMetric(response.hours[i], m).value[APISource])
  {
    NormalizeIsStableFilter(response);
    var i := ValidIndices(response.hours)[k];
    assert NormalizeResponse(response)[k] == Project(response.hours[i]);
  }

  /** Filtering distributes over concatenation. */
  lemma {:induction false} FilterValidAppend(a: seq<RawPoint>, b: seq<RawPoint>)
    ensures FilterValid(a + b) == FilterValid(a) + FilterValid(b)
    decreases |b|
  {
    if b == [] {
      assert a + b == a;
    } else {
      var n := |b| - 1;
      var ab := a + b;
      assert ab[..|ab| - 1] == a + b[..n];
      assert ab[|ab| - 1] == b[n];
      FilterValidAppend(a, b[..n]);
    }
  }

  /**
   * Normalising two batches of hours separately gives the concatenation of
   * the two normalisations.
   */
  lemma NormalizeAppend(a: seq<RawPoint>, b: seq<RawPoint>)
    ensures NormalizeResponse(ForecastResponse(a + b))
         == NormalizeResponse(ForecastResponse(a)) + NormalizeResponse(ForecastResponse(b))
  {
    FilterValidAppend(a, b);
  }

  /** When every hour is valid, every hour survives, in order. */
  lemma {:induction false} FilterValidAllValid(hours: seq<RawPoint>)
    requires forall i :: 0 <= i < |hours| ==> IsValidPoint(hours[i])
    ensures FilterValid(hours) == hours
  {
    if hours != [] {
      var n := |hours| - 1;
      FilterValidAllValid(hours[..n]);
      assert hours[..n] + [hours[n]] == hours;
    }
  }

  /** When every hour is valid, the output has one point per hour, copied from the fixed source. */
  lemma NormalizeAllValid(response: ForecastResponse)
    requires forall i :: 0 <= i < |response.hours| ==> IsValidPoint(response.hours[i])
    ensures |NormalizeResponse(response)| == |response.hours|
    ensures forall k :: 0 <= k < |response.hours| ==>
      NormalizeResponse(response)[k] == Project(response.hours[k])
  {
    FilterValidAllValid(response.hours);
  }

  /** No valid hour (in particular, no hour at all) gives an empty list, not an error. */
  lemma NormalizeNoneValid(response: ForecastResponse)
    requires forall i :: 0 <= i < |response.hours| ==> !IsValidPoint(response.hours[i])
    ensures NormalizeResponse(response) == []
  {
    FilterValidNoneValid(response.hours);
  }

  lemma {:induction false} FilterValidNoneValid(hours: seq<RawPoint>)
    requires forall i :: 0 <= i < |hours| ==> !IsValidPoint(hours[i])
    ensures FilterValid(hours) == []
  {
    if hours != [] {
      FilterValidNoneValid(hours[..|hours| - 1]);
    }
  }

  // ---------------------------------------------------------------------
  // Request failures and their classification
  // ---------------------------------------------------------------------

  /** The response carried by a failure when the provider answered with an error status. */
  datatype ErrorResponse = ErrorResponse(status: nat, data: string)

  /** A failed request: its message and, if the provider answered, its response. */
  datatype RequestFailure = RequestFailure(message: string, response: Option<ErrorResponse>)

  /**
   * A received body as parsed JSON: the `hours` array may be missing, and any
   * of its entries may be `null` or `undefined`.
   */
  datatype ResponseBody = ResponseBody(hours: Option<seq<Option<RawPoint>>>)

  /** What one request to the provider gives back. */
  datatype RequestOutcome =
    | Received(body: ResponseBody)
    | Rejected(failure: RequestFailure)

  /**
   * The body read as a forecast response, or `None` when normalising it
   * throws: reading `hours.filter` of a body without hours, or `time` of a
   * missing hour, raises a `TypeError`.
   */
  function ReadBody(body: ResponseBody): (r: Option<ForecastResponse>)
    ensures r.Some? <==>
      (body.hours.Some? && forall i :: 0 <= i < |body.hours.value| ==> body.hours.value[i].Some?)
    ensures r.Some? ==> |r.value.hours| == |body.hours.value|
                        && forall i :: 0 <= i < |r.value.hours| ==> Some(r.value.hours[i]) == body.hours.value[i]
  {
    match body.hours
    case None => None
    case Some(hours) =>
      if forall i :: 0 <= i < |hours| ==> hours[i].Some? then
        Some(ForecastResponse(seq(|hours|, i requires 0 <= i < |hours| => hours[i].value)))
      else None
  }

  /** The two error kinds the client throws; `message` is the full internal message. */
  datatype ClientError =
    | ClientRequestError(message: string)
    | StormGlassResponseError(message: string)

  const ClientRequestErrorPrefix: string :=
    "Unexpected error when trying to communicate to StormGlass: "

  const StormGlassResponseErrorPrefix: string :=
    "Unexpected error returned by the StormGlass service: "

  /** The failure carries a response from the provider. */
  predicate IsRequestError(failure: RequestFailure)
  {
    failure.response.Some?
  }

  predicate IsDigit(c: char)
  {
    '0' <= c <= '9'
  }

  predicate AllDigits(s: string)
  {
    forall i :: 0 <= i < |s| ==> IsDigit(s[i])
  }

  /** The decimal rendering of a status code, as a template literal prints an integer. */
  function DecimalString(n: nat): (s: string)
    ensures |s| > 0 && AllDigits(s)
    decreases n
  {
    if n < 10 then ['0' + n as char]
    else DecimalString(n / 10) + ['0' + (n % 10) as char]
  }

  /** The number that a string of decimal digits denotes. */
  function ParseDecimal(s: string): nat
  {
    if s == [] then 0
    else
      var c := s[|s| - 1];
      ParseDecimal(s[..|s| - 1]) * 10 + (if IsDigit(c) then (c - '0') as nat else 0)
  }

  /** The longest run of digits at the end of a string. */
  function TrailingDigits(s: string): (d: string)
    ensures AllDigits(d)
  {
    if s == [] || !IsDigit(s[|s| - 1]) then []
    else TrailingDigits(s[..|s| - 1]) + [s[|s| - 1]]
  }

  lemma {:induction false} DecimalRoundTrip(n: nat)
    ensures ParseDecimal(DecimalString(n)) == n
    decreases n
  {
    if n >= 10 {
      DecimalRoundTrip(n / 10);
      var s := DecimalString(n);
      assert s[..|s| - 1] == DecimalString(n / 10);
    }
  }

  /** The digits after the last non-digit of `a + [c] + d` are exactly `d`. */
  lemma {:induction false} TrailingDigitsAfter(a: string, c: char, d: string)
    requires !IsDigit(c) && AllDigits(d)
    ensures TrailingDigits(a + [c] + d) == d
    decreases |d|
  {
    var s := a + [c] + d;
    if d == [] {
      assert s[|s| - 1] == c;
    } else {
      var n := |d| - 1;
      assert s[..|s| - 1] == a + [c] + d[..n];
      assert s[|s| - 1] == d[n];
      TrailingDigitsAfter(a, c, d[..n]);
      assert d[..n] + [d[n]] == d;
    }
  }

  const ErrorLabel: string := "Error: "
  const CodeLabel: string := " Code: "

  /** The detail a provider error response contributes to the error message. */
  function ResponseErrorDetail(response: ErrorResponse): string
  {
    ErrorLabel + response.data + CodeLabel + DecimalString(response.status)
  }

  /**
   * The outcome of one fetch: the normalised points of a readable body, a
   * `StormGlassResponseError` for a failure that carries a response, and a
   * `ClientRequestError` for any other failure, including the `TypeError`
   * thrown while normalising an unreadable body. `typeError` is the message
   * the JavaScript engine gives that `TypeError`.
   */
  function FetchPoints(outcome: RequestOutcome, typeError: string): (r: Result<seq<ForecastPoint>, ClientError>)
    ensures outcome.Received? && ReadBody(outcome.body).Some? ==>
      r == Success(NormalizeResponse(ReadBody(outcome.body).value))
    ensures outcome.Received? && ReadBody(outcome.body).None? ==>
      r == Failure(ClientRequestError(ClientRequestErrorPrefix + typeError))
    ensures outcome.Rejected? && IsRequestError(outcome.failure) ==>
      r == Failure(StormGlassResponseError(
             StormGlassResponseErrorPrefix + ResponseErrorDetail(outcome.failure.response.value)))
    ensures outcome.Rejected? && !IsRequestError(outcome.failure) ==>
      r == Failure(ClientRequestError(ClientRequestErrorPrefix + outcome.failure.message))
  {
    match outcome
    case Received(body) =>
      (match ReadBody(body)
       case Some(response) => Success(NormalizeResponse(response))
       case None => Failure(ClientRequestError(ClientRequestErrorPrefix + typeError)))
    case Rejected(failure) =>
      if IsRequestError(failure) then
        Failure(StormGlassResponseError(
          StormGlassResponseErrorPrefix + ResponseErrorDetail(failure.response.value)))
      else
        Failure(ClientRequestError(ClientRequestErrorPrefix + failure.message))
  }

  predicate StartsWith(s: string, prefix: string)
  {
    |prefix| <= |s| && s[..|prefix|] == prefix
  }

  /** Every outcome that is not a readable body fails. */
  lemma FailsUnlessReadable(outcome: RequestOutcome, typeError: string)
    ensures FetchPoints(outcome, typeError).Failure? <==>
      (outcome.Rejected? || ReadBody(outcome.body).None?)
  {
  }

  /**
   * The message alone tells the two error kinds apart: a thrown error is a
   * `ClientRequestError` exactly when its message starts with that kind's
   * prefix, and a `StormGlassResponseError` exactly when it starts with the
   * other's. It is a service error exactly when the failure carries a
   * response, whatever the failure's own message says.
   */
  lemma ErrorKindFromMessage(outcome: RequestOutcome, typeError: string)
    requires FetchPoints(outcome, typeError).Failure?
    ensures var e := FetchPoints(outcome, typeError).error;
      && (e.ClientRequestError? <==> StartsWith(e.message, ClientRequestErrorPrefix))
      && (e.StormGlassResponseError? <==> StartsWith(e.message, StormGlassResponseErrorPrefix))
      && (e.StormGlassResponseError? <==> (outcome.Rejected? && IsRequestError(outcome.failure)))
  {
    var e := FetchPoints(outcome, typeError).error;
    // The two prefixes first differ at position 17 ('w' against 'r').
    assert ClientRequestErrorPrefix[17] == 'w';
    assert StormGlassResponseErrorPrefix[17] == 'r';
    if e.ClientRequestError? {
      assert e.message[..|ClientRequestErrorPrefix|] == ClientRequestErrorPrefix;
      assert e.message[17] == 'w';
    } else {
      assert e.message[..|StormGlassResponseErrorPrefix|] == StormGlassResponseErrorPrefix;
      assert e.message[17] == 'r';
    }
  }

  /**
   * The cause of a transport error is the text after the prefix: the
   * failure's own message, or the engine's message for an unreadable body.
   */
  lemma TransportCauseRecoverable(outcome: RequestOutcome, typeError: string)
    requires FetchPoints(outcome, typeError).Failure?
    requires outcome.Rejected? ==> !IsRequestError(outcome.failure)
    ensures var m := FetchPoints(outcome, typeError).error.message;
      && |ClientRequestErrorPrefix| <= |m|
      && m[|ClientRequestErrorPrefix|..] == (if outcome.Rejected? then outcome.failure.message else typeError)
  {
  }

  /** In `front + tag + digits`, where the tag ends in a non-digit, the trailing digits are `digits`. */
  lemma SplitReadBack(front: string, tag: string, digits: string)
    requires |tag| > 0 && !IsDigit(tag[|tag| - 1]) && AllDigits(digits)
    ensures TrailingDigits(front + tag + digits) == digits
  {
    var t := |tag| - 1;
    assert front + tag + digits == (front + tag[..t]) + [tag[t]] + digits;
    TrailingDigitsAfter(front + tag[..t], tag[t], digits);
  }

  /**
   * The status code of a service error can be read back from its message:
   * it is the number written by the message's trailing digits, whatever the
   * serialised body holds.
   */
  lemma ServiceErrorRecoverable(failure: RequestFailure, typeError: string)
    requires IsRequestError(failure)
    ensures ParseDecimal(TrailingDigits(FetchPoints(Rejected(failure), typeError).error.message))
         == failure.response.value.status
  {
    var response := failure.response.value;
    var digits := DecimalString(response.status);
    var front := StormGlassResponseErrorPrefix + ErrorLabel + response.data;
    assert FetchPoints(Rejected(failure), typeError).error.message == front + CodeLabel + digits;
    assert CodeLabel[|CodeLabel| - 1] == ' ';
    SplitReadBack(front, CodeLabel, digits);
    DecimalRoundTrip(response.status);
  }
}
