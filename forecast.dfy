/**
 * The forecast service: for each beach in turn it fetches the beach's
 * normalised points, copies the beach's metadata onto each of them, and
 * appends them to one flat list.
 */
module Forecast {
  import opened Wrappers
  import opened StormGlass

  datatype BeachPosition = S | E | W | N

  datatype Beach = Beach(name: string, position: BeachPosition, lat: real, lng: real, user: string)

  /** A forecast point enriched with its beach's metadata; the owner is dropped. */
  datatype BeachForecast = BeachForecast(
    lat: real,
    lng: real,
    name: string,
    position: BeachPosition,
    rating: int,
    time: string,
    waveHeight: real,
    waveDirection: real,
    swellDirection: real,
    swellHeight: real,
    swellPeriod: real,
    windDirection: real,
    windSpeed: real)

  /** The placeholder rating given to every enriched point. */
  const Rating: int := 1

  /** The answer the StormGlass client's `FetchPoints` gives for one coordinate pair. */
  type Fetch = (real, real) -> Result<seq<ForecastPoint>, ClientError>

  /**
   * The StormGlass client the service holds. Every fetch goes through
   * `FetchPoints`, which appends its coordinates to the ghost `log`.
   */
  class StormGlassClient {
    const answer: Fetch
    ghost var log: seq<(real, real)>

    constructor(answer: Fetch)
      ensures this.answer == answer && log == []
    {
      this.answer := answer;
      log := [];
    }

    method FetchPoints(lat: real, lng: real) returns (r: Result<seq<ForecastPoint>, ClientError>)
      modifies this
      ensures r == answer(lat, lng)
      ensures log == old(log) + [(lat, lng)]
    {
      log := log + [(lat, lng)];
      r := answer(lat, lng);
    }
  }

  /** The forecast point an enriched record was made from. */
  function PointOf(f: BeachForecast): ForecastPoint
  {
    ForecastPoint(f.time, f.waveHeight, f.waveDirection, f.swellDirection,
                  f.swellHeight, f.swellPeriod, f.windDirection, f.windSpeed)
  }

  /** The record carries the beach's coordinates, name and position, and the placeholder rating. */
  predicate FromBeach(f: BeachForecast, b: Beach)
  {
    f.lat == b.lat && f.lng == b.lng && f.name == b.name && f.position == b.position
    && f.rating == Rating
  }

  /**
   * One enriched record. The point is spread after the beach fields; the two
   * sets of keys are disjoint, so every field comes from exactly one side.
   */
  function EnrichPoint(b: Beach, p: ForecastPoint): (f: BeachForecast)
    ensures FromBeach(f, b) && PointOf(f) == p
  {
    BeachForecast(
      lat := b.lat, lng := b.lng, name := b.name, position := b.position, rating := Rating,
      time := p.time,
      waveHeight := p.waveHeight, waveDirection := p.waveDirection,
      swellDirection := p.swellDirection, swellHeight := p.swellHeight,
      swellPeriod := p.swellPeriod, windDirection := p.windDirection,
      windSpeed := p.windSpeed)
  }

  /** The `map` over one beach's points: one record per point, in fetch order. */
  function EnrichPoints(b: Beach, points: seq<ForecastPoint>): (r: seq<BeachForecast>)
    ensures |r| == |points|
    ensures forall j :: 0 <= j < |r| ==> FromBeach(r[j], b) && PointOf(r[j]) == points[j]
  {
    seq(|points|, j requires 0 <= j < |points| => EnrichPoint(b, points[j]))
  }

  /** The fetch made for one beach, with its own coordinates. */
  function FetchFor(fetch: Fetch, b: Beach): Result<seq<ForecastPoint>, ClientError>
  {
    fetch(b.lat, b.lng)
  }

  /** The points fetched for a beach, or none when its fetch fails. */
  function PointsFor(fetch: Fetch, b: Beach): seq<ForecastPoint>
  {
    if FetchFor(fetch, b).Success? then FetchFor(fetch, b).value else []
  }

  /** The number of points fetched over a list of beaches. */
  function TotalPoints(fetch: Fetch, beaches: seq<Beach>): nat
  {
    if beaches == [] then 0
    else TotalPoints(fetch, beaches[..|beaches| - 1]) + |PointsFor(fetch, beaches[|beaches| - 1])|
  }

  /** The position of the first beach whose fetch fails, or the number of beaches if none does. */
  function FirstFailure(fetch: Fetch, beaches: seq<Beach>): (k: nat)
    ensures k <= |beaches|
    ensures forall j :: 0 <= j < k ==> FetchFor(fetch, beaches[j]).Success?
    ensures k < |beaches| ==> FetchFor(fetch, beaches[k]).Failure?
  {
    if beaches == [] || FetchFor(fetch, beaches[0]).Failure? then 0
    else 1 + FirstFailure(fetch, beaches[1..])
  }

  /** The arguments of one fetch per beach, in beach order. */
  function Coordinates(beaches: seq<Beach>): seq<(real, real)>
  {
    seq(|beaches|, j requires 0 <= j < |beaches| => (beaches[j].lat, beaches[j].lng))
  }

  /**
   * What processing a list of beaches yields: beach by beach, the enriched
   * points appended to what came before; the first failing fetch ends it.
   */
  function Accumulate(fetch: Fetch, beaches: seq<Beach>): Result<seq<BeachForecast>, ClientError>
  {
    if beaches == [] then Success([])
    else
      match Accumulate(fetch, beaches[..|beaches| - 1])
      case Failure(e) => Failure(e)
      case Success(acc) =>
        var b := beaches[|beaches| - 1];
        match FetchFor(fetch, b)
        case Failure(e) => Failure(e)
        case Success(points) => Success(acc + EnrichPoints(b, points))
  }

  /** Once processing has failed, later beaches do not change the result. */
  lemma {:induction false} FailureSticks(fetch: Fetch, beaches: seq<Beach>, k: nat)
    requires k <= |beaches| && Accumulate(fetch, beaches[..k]).Failure?
    ensures Accumulate(fetch, beaches) == Accumulate(fetch, beaches[..k])
    decreases |beaches| - k
  {
    if k < |beaches| {
      assert beaches[..k + 1][..k] == beaches[..k];
      FailureSticks(fetch, beaches, k + 1);
    } else {
      assert beaches[..k] == beaches;
    }
  }

  /**
   * Processing fails exactly when some beach's fetch fails, and then with the
   * error of the first such beach, unchanged.
   */
  lemma {:induction false} FailsAtFirstFailure(fetch: Fetch, beaches: seq<Beach>)
    ensures Accumulate(fetch, beaches).Failure? <==> FirstFailure(fetch, beaches) < |beaches|
    ensures FirstFailure(fetch, beaches) < |beaches| ==>
      Accumulate(fetch, beaches) == Failure(FetchFor(fetch, beaches[FirstFailure(fetch, beaches)]).error)
    decreases |beaches|
  {
    if beaches != [] {
      var n := |beaches| - 1;
      var init := beaches[..n];
      FailsAtFirstFailure(fetch, init);
      var k, k' := FirstFailure(fetch, beaches), FirstFailure(fetch, init);
      assert forall j :: 0 <= j < n ==> init[j] == beaches[j];
      if k' < n {
        // The first failure of the whole list lies in its prefix.
        assert FetchFor(fetch, beaches[k']).Failure?;
        assert k == k';
      } else {
        assert k >= n;
      }
    }
  }

  /** A successful result holds one record per fetched point, summed over the beaches. */
  lemma {:induction false} SuccessLength(fetch: Fetch, beaches: seq<Beach>)
    requires Accumulate(fetch, beaches).Success?
    ensures |Accumulate(fetch, beaches).value| == TotalPoints(fetch, beaches)
    decreases |beaches|
  {
    if beaches != [] {
      SuccessLength(fetch, beaches[..|beaches| - 1]);
    }
  }

  /**
   * Processing a prefix of a successful list of beaches succeeds too, and
   * its result is a prefix of the whole result.
   */
  lemma {:induction false} SuccessPrefix(fetch: Fetch, beaches: seq<Beach>, k: nat)
    requires k <= |beaches| && Accumulate(fetch, beaches).Success?
    ensures Accumulate(fetch, beaches[..k]).Success?
    ensures Accumulate(fetch, beaches[..k]).value <= Accumulate(fetch, beaches).value
    decreases |beaches|
  {
    if k < |beaches| {
      var n := |beaches| - 1;
      SuccessPrefix(fetch, beaches[..n], k);
      assert beaches[..n][..k] == beaches[..k];
    } else {
      assert beaches[..k] == beaches;
    }
  }

  /**
   * A successful result is the concatenation, in beach order, of each
   * beach's enriched points in fetch order: the j-th point of beach k sits
   * right after the points of the beaches before k.
   */
  lemma SuccessLayout(fetch: Fetch, beaches: seq<Beach>, k: nat, j: nat)
    requires Accumulate(fetch, beaches).Success?
    requires k < |beaches| && j < |PointsFor(fetch, beaches[k])|
    ensures TotalPoints(fetch, beaches[..k]) + j < |Accumulate(fetch, beaches).value|
    ensures var f := Accumulate(fetch, beaches).value[TotalPoints(fetch, beaches[..k]) + j];
      FromBeach(f, beaches[k]) && PointOf(f) == PointsFor(fetch, beaches[k])[j]
  {
    SuccessPrefix(fetch, beaches, k + 1);
    SuccessStep(fetch, beaches, k);
    SuccessLength(fetch, beaches[..k]);
    var before := Accumulate(fetch, beaches[..k]).value;
    var tail := EnrichPoints(beaches[k], PointsFor(fetch, beaches[k]));
    var whole := Accumulate(fetch, beaches).value;
    ElementAfterPrefix(before, tail, whole, j);
    assert |before| == TotalPoints(fetch, beaches[..k]);
    assert whole[|before| + j] == tail[j];
    assert FromBeach(tail[j], beaches[k]) && PointOf(tail[j]) == PointsFor(fetch, beaches[k])[j];
  }

  /** In a list that starts with `front + back`, the j-th element of `back` sits at `|front| + j`. */
  lemma ElementAfterPrefix<T>(front: seq<T>, back: seq<T>, whole: seq<T>, j: nat)
    requires front + back <= whole && j < |back|
    ensures |front| + j < |whole| && whole[|front| + j] == back[j]
  {
    assert (front + back)[|front| + j] == back[j];
  }

  /** Processing one more beach after a successful prefix appends that beach's enriched points. */
  lemma SuccessStep(fetch: Fetch, beaches: seq<Beach>, k: nat)
    requires k < |beaches| && Accumulate(fetch, beaches[..k + 1]).Success?
    ensures Accumulate(fetch, beaches[..k]).Success?
    ensures Accumulate(fetch, beaches[..k + 1]).value
         == Accumulate(fetch, beaches[..k]).value + EnrichPoints(beaches[k], PointsFor(fetch, beaches[k]))
  {
    var upTo := beaches[..k + 1];
    assert upTo[..k] == beaches[..k];
    assert upTo[k] == beaches[k];
  }

  /**
   * Every record of a successful result comes from one beach: it carries that
   * beach's metadata and the placeholder rating, and its time and readings
   * are those of a point fetched for that beach.
   */
  lemma {:induction false} SuccessProvenance(fetch: Fetch, beaches: seq<Beach>, i: nat)
    requires Accumulate(fetch, beaches).Success? && i < |Accumulate(fetch, beaches).value|
    ensures exists k :: 0 <= k < |beaches| && FromBeach(Accumulate(fetch, beaches).value[i], beaches[k])
                        && PointOf(Accumulate(fetch, beaches).value[i]) in PointsFor(fetch, beaches[k])
    decreases |beaches|
  {
    var n := |beaches| - 1;
    var init := beaches[..n];
    var acc := Accumulate(fetch, init).value;
    var points := PointsFor(fetch, beaches[n]);
    assert Accumulate(fetch, beaches).value == acc + EnrichPoints(beaches[n], points);
    if i < |acc| {
      SuccessProvenance(fetch, init, i);
      var k :| 0 <= k < n && FromBeach(acc[i], init[k]) && PointOf(acc[i]) in PointsFor(fetch, init[k]);
      assert init[k] == beaches[k];
    } else {
      assert PointOf(Accumulate(fetch, beaches).value[i]) == points[i - |acc|];
    }
  }

  /**
   * The service's loop: one fetch per beach, in order, with that beach's
   * coordinates; each beach's enriched points are appended to one list. The
   * first failing fetch is passed on unchanged and no later beach is fetched:
   * the client's log grows by exactly the coordinates of the beaches fetched.
   */
  method ProcessForecastForBeaches(stormGlass: StormGlassClient, beaches: seq<Beach>)
    returns (r: Result<seq<BeachForecast>, ClientError>)
    modifies stormGlass
    ensures r == Accumulate(stormGlass.answer, beaches)
    ensures beaches == [] ==> r == Success([])
    ensures var fetched := if r.Success? then |beaches| else FirstFailure(stormGlass.answer, beaches) + 1;
      fetched <= |beaches| && stormGlass.log == old(stormGlass.log) + Coordinates(beaches[..fetched])
  {
    var pointsWithCorrectSources: seq<BeachForecast> := [];
    for i := 0 to |beaches|
      invariant Accumulate(stormGlass.answer, beaches[..i]) == Success(pointsWithCorrectSources)
      invariant i <= FirstFailure(stormGlass.answer, beaches)
      invariant stormGlass.log == old(stormGlass.log) + Coordinates(beaches[..i])
    {
      var beach := beaches[i];
      assert beaches[..i + 1][..i] == beaches[..i];
      assert Coordinates(beaches[..i + 1]) == Coordinates(beaches[..i]) + [(beach.lat, beach.lng)];
      var points := stormGlass.FetchPoints(beach.lat, beach.lng);
      if points.Failure? {
        FailureSticks(stormGlass.answer, beaches, i + 1);
        FailsAtFirstFailure(stormGlass.answer, beaches);
        return Failure(points.error);
      }
      var enrichedBeachData := EnrichPoints(beach, points.value);
      pointsWithCorrectSources := pointsWithCorrectSources + enrichedBeachData;
    }
    assert beaches[..|beaches|] == beaches;
    FailsAtFirstFailure(stormGlass.answer, beaches);
    r := Success(pointsWithCorrectSources);
  }
}
