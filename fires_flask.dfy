/**
 * fires.py: the Flask endpoint `/fires`.  Modelled here: `norm_lon`,
 * `inside` (which sorts each bound pair), `detect` (whose Greenland box
 * counts as north_america), the counting loop of `fires()` and its
 * five-minute cache, a two-field object that a request either reads or
 * replaces as a whole.
 */
module FiresFlask {
  import opened Options
  import opened Regions
  import opened Feed

  const EuropeLat := (34.0, 72.0)
  const EuropeLon := (-25.0, 60.0)
  const AsiaLat := (-11.0, 81.0)
  const AsiaLon := (60.0, 180.0)
  const AfricaLat := (-36.0, 38.0)
  const AfricaLon := (-20.0, 52.0)
  const NaLat := (5.0, 83.0)
  const NaLon := (-170.0, -50.0)
  const GreenlandLat := (58.0, 83.0)
  const GreenlandLon := (-73.0, -12.0)
  const SaLat := (-56.0, 13.0)
  const SaLon := (-82.0, -35.0)
  const AuLat := (-45.0, -10.0)
  const AuLon := (110.0, 155.0)

  /** The keys of the `counts` dict built by `fires()`. */
  const FlaskKeys: seq<string> := ["asia", "africa", "north_america", "europe", "australia", "south_america"]

  lemma FlaskKeysDistinct()
    ensures Distinct(FlaskKeys)
  {
  }

  /** The label `detect` gives a point in no box; it is not a key of `counts`. */
  const Unknown := "unknown"

  /**
   * `norm_lon`: one shift down by 360 above 180, then one shift up by 360
   * below -180.  A single shift each way brings only [-540, 540] into range.
   */
  function NormLon(lon: real): (r: real)
    ensures 180.0 < lon ==> r == lon - 360.0
    ensures lon < -180.0 ==> r == lon + 360.0
    ensures -180.0 <= lon <= 180.0 ==> r == lon
    ensures -540.0 <= lon <= 540.0 ==> -180.0 <= r <= 180.0
  {
    var shifted := if lon > 180.0 then lon - 360.0 else lon;
    if shifted < -180.0 then shifted + 360.0 else shifted
  }

  /** On [-540, 540] normalising twice is normalising once. */
  lemma NormLonIdempotent(lon: real)
    requires -540.0 <= lon <= 540.0
    ensures NormLon(NormLon(lon)) == NormLon(lon)
  {
  }

  /** Outside [-540, 540] it is not: 600 becomes 240, and 240 becomes -120. */
  lemma NormLonNotIdempotent()
    ensures NormLon(600.0) == 240.0
    ensures NormLon(NormLon(600.0)) == -120.0
  {
  }

  /** `sorted(pair)`: the same two bounds, smaller first. */
  function Sorted(p: (real, real)): (q: (real, real))
    ensures q.0 <= q.1
    ensures (q.0 == p.0 && q.1 == p.1) || (q.0 == p.1 && q.1 == p.0)
  {
    if p.0 <= p.1 then p else (p.1, p.0)
  }

  /** `inside`: closed containment after sorting each bound pair. */
  predicate Inside(lat: real, lon: real, la: (real, real), lo: (real, real))
    ensures Inside(lat, lon, la, lo)
        <==> (la.0 <= lat <= la.1 || la.1 <= lat <= la.0) && (lo.0 <= lon <= lo.1 || lo.1 <= lon <= lo.0)
  {
    var x := Sorted(la);
    var y := Sorted(lo);
    x.0 <= lat <= x.1 && y.0 <= lon <= y.1
  }

  /** Giving either pair reversed changes nothing. */
  lemma InsideSymmetric(lat: real, lon: real, la: (real, real), lo: (real, real))
    ensures Inside(lat, lon, la, lo) == Inside(lat, lon, (la.1, la.0), lo)
    ensures Inside(lat, lon, la, lo) == Inside(lat, lon, la, (lo.1, lo.0))
  {
  }

  /** With the pairs written smaller first, `inside` is the stored-order test, ends included. */
  lemma InsideOrdered(lat: real, lon: real, la: (real, real), lo: (real, real))
    requires la.0 <= la.1 && lo.0 <= lo.1
    ensures Inside(lat, lon, la, lo) <==> InBox(lat, lon, Box(la.0, la.1, lo.0, lo.1))
    ensures Inside(la.0, lo.0, la, lo) && Inside(la.1, lo.1, la, lo)
  {
  }

  /** `detect`: the if-chain over the normalised point. */
  function Detect(lat: real, lon: real): (c: string)
    ensures c == Unknown || c in FlaskKeys
  {
    var x := NormLon(lon);
    if Inside(lat, x, EuropeLat, EuropeLon) then "europe"
    else if Inside(lat, x, AsiaLat, AsiaLon) then "asia"
    else if Inside(lat, x, AfricaLat, AfricaLon) then "africa"
    else if Inside(lat, x, AuLat, AuLon) then "australia"
    else if Inside(lat, x, NaLat, NaLon) || Inside(lat, x, GreenlandLat, GreenlandLon) then "north_america"
    else if Inside(lat, x, SaLat, SaLon) then "south_america"
    else Unknown
  }

  /** The order `detect` tests its boxes in, with Greenland as a second north_america row. */
  const DetectTable: seq<Entry> := [
    Entry("europe", Box(34.0, 72.0, -25.0, 60.0)),
    Entry("asia", Box(-11.0, 81.0, 60.0, 180.0)),
    Entry("africa", Box(-36.0, 38.0, -20.0, 52.0)),
    Entry("australia", Box(-45.0, -10.0, 110.0, 155.0)),
    Entry("north_america", Box(5.0, 83.0, -170.0, -50.0)),
    Entry("north_america", Box(58.0, 83.0, -73.0, -12.0)),
    Entry("south_america", Box(-56.0, 13.0, -82.0, -35.0))
  ]

  /**
   * `detect` is the generic first match over DetectTable, with no exclusion,
   * applied to the normalised longitude; no match is "unknown".
   */
  lemma DetectIsFirstMatch(lat: real, lon: real)
    ensures Detect(lat, lon) == match Classify(DetectTable, None, InBox, lat, NormLon(lon))
                                case None => Unknown
                                case Some(name) => name
  {
    var x := NormLon(lon);
    var t := DetectTable;
    DetectRows(lat, lon);
    if InBox(lat, x, t[0].box) || InBox(lat, x, t[1].box) || InBox(lat, x, t[2].box) || InBox(lat, x, t[3].box) {
      DetectEarlyRows(lat, x);
    } else {
      DetectLateRows(lat, x);
    }
  }

  /** A point in one of the first four rows is labelled by the first of them that contains it. */
  lemma DetectEarlyRows(lat: real, x: real)
    requires exists i :: 0 <= i < 4 && InBox(lat, x, DetectTable[i].box)
    ensures var t := DetectTable;
            Classify(t, None, InBox, lat, x)
            == if InBox(lat, x, t[0].box) then Some(t[0].name)
               else if InBox(lat, x, t[1].box) then Some(t[1].name)
               else if InBox(lat, x, t[2].box) then Some(t[2].name)
               else Some(t[3].name)
  {
    var t := DetectTable;
    if InBox(lat, x, t[0].box) {
      ClassifyFirst(t, None, InBox, lat, x, 0);
    } else if InBox(lat, x, t[1].box) {
      ClassifyFirst(t, None, InBox, lat, x, 1);
    } else if InBox(lat, x, t[2].box) {
      ClassifyFirst(t, None, InBox, lat, x, 2);
    } else {
      ClassifyFirst(t, None, InBox, lat, x, 3);
    }
  }

  /** A point in none of the first four rows is labelled by the later rows, or not at all. */
  lemma DetectLateRows(lat: real, x: real)
    requires forall i :: 0 <= i < 4 ==> !InBox(lat, x, DetectTable[i].box)
    ensures var t := DetectTable;
            Classify(t, None, InBox, lat, x)
            == if InBox(lat, x, t[4].box) then Some(t[4].name)
               else if InBox(lat, x, t[5].box) then Some(t[5].name)
               else if InBox(lat, x, t[6].box) then Some(t[6].name)
               else None
  {
    var t := DetectTable;
    if InBox(lat, x, t[4].box) {
      ClassifyFirst(t, None, InBox, lat, x, 4);
    } else if InBox(lat, x, t[5].box) {
      ClassifyFirst(t, None, InBox, lat, x, 5);
    } else if InBox(lat, x, t[6].box) {
      ClassifyFirst(t, None, InBox, lat, x, 6);
    } else {
      assert forall i :: 0 <= i < |t| ==> !InBox(lat, x, t[i].box);
    }
  }

  /** Each test of the if-chain is the stored-order test of one DetectTable row. */
  lemma DetectRows(lat: real, lon: real)
    ensures var x := NormLon(lon);
            var t := DetectTable;
            Detect(lat, lon)
            == if InBox(lat, x, t[0].box) then t[0].name
               else if InBox(lat, x, t[1].box) then t[1].name
               else if InBox(lat, x, t[2].box) then t[2].name
               else if InBox(lat, x, t[3].box) then t[3].name
               else if InBox(lat, x, t[4].box) then t[4].name
               else if InBox(lat, x, t[5].box) then t[5].name
               else if InBox(lat, x, t[6].box) then t[6].name
               else Unknown
  {
  }

  /** "unknown" exactly when no box contains the normalised point. */
  lemma DetectUnknown(lat: real, lon: real)
    ensures Detect(lat, lon) == Unknown
        <==> forall i :: 0 <= i < |DetectTable| ==> !InBox(lat, NormLon(lon), DetectTable[i].box)
  {
    DetectIsFirstMatch(lat, lon);
    var r := Classify(DetectTable, None, InBox, lat, NormLon(lon));
    if r.Some? {
      var i :| 0 <= i < |DetectTable| && r.value == DetectTable[i].name;
    }
  }

  /**
   * A point in the Greenland box is north_america unless europe, asia,
   * africa or australia, tested earlier, already contains it.
   */
  lemma DetectGreenland(lat: real, lon: real)
    requires Inside(lat, NormLon(lon), GreenlandLat, GreenlandLon)
    ensures !Inside(lat, NormLon(lon), EuropeLat, EuropeLon)
            && !Inside(lat, NormLon(lon), AsiaLat, AsiaLon)
            && !Inside(lat, NormLon(lon), AfricaLat, AfricaLon)
            && !Inside(lat, NormLon(lon), AuLat, AuLon)
            <==> Detect(lat, lon) == "north_america"
  {
  }

  /**
   * The line loop of `fires()`: a counter per key from zero, the header
   * flag, and `counts[c] += 1` guarded by `c in counts`, so "unknown" is
   * never counted.
   */
  method CountDetections(lines: seq<string>, parse: string -> Option<real>) returns (counts: map<string, nat>)
    ensures counts == Aggregate(FlaskKeys, lines, parse, Detect)
    ensures counts.Keys == set k | k in FlaskKeys
    ensures Total(counts, FlaskKeys) <= |DataLines(lines)|
  {
    counts := Zeros(FlaskKeys);
    var first := true;
    for i := 0 to |lines|
      invariant first <==> NonBlank(lines[..i]) == []
      invariant counts == Scan(FlaskKeys, lines[..i], parse, Detect)
    {
      var raw := lines[i];
      assert lines[..i + 1][..i] == lines[..i];
      if raw == "" {
        // blank: skipped without using up the header
      } else if first {
        first := false;
      } else {
        var point := DecodeLine(raw, parse);
        if point.Some? {
          var c := Detect(point.value.lat, point.value.lon);
          if c in counts {
            counts := counts[c := counts[c] + 1];
          }
        }
      }
    }
    assert lines[..|lines|] == lines;
    ScanIsAggregate(FlaskKeys, lines, parse, Detect);
    FlaskKeysDistinct();
    AggregateTotal(FlaskKeys, lines, parse, Detect);
  }

  // ---------------------------------------------------------------------
  // The cached endpoint

  /** The payload `{"counts": ..., "ts": ..., "days": ...}`. */
  datatype Snapshot = Snapshot(counts: map<string, nat>, ts: int, days: int)

  /** What the endpoint answers: the JSON payload, or an error when the handler raises. */
  datatype Response = Json(body: Snapshot) | ServerError

  /** The outcome of the upstream request: the body's lines, or a raised error. */
  datatype Fetch = Fetched(lines: seq<string>) | FetchFailed

  /** The `days` query parameter: absent (defaulting to "1") or the given text. */
  datatype DaysArg = Absent | Given(text: string)

  /** `int(x)` on a real: truncation toward zero. */
  function Trunc(x: real): (n: int)
    ensures 0.0 <= x ==> n as real <= x < n as real + 1.0
    ensures x < 0.0 ==> n as real - 1.0 < x <= n as real
  {
    if x >= 0.0 then x.Floor else -((-x).Floor)
  }

  /**
   * `max(1, min(int(request.args.get("days", "1")), 7))`, or None when
   * `int` raises on the given text.
   */
  function RequestedDays(arg: DaysArg, parseInt: string -> Option<int>): (r: Option<int>)
    ensures arg.Absent? ==> r == Some(1)
    ensures r.Some? ==> 1 <= r.value <= 7
    ensures arg.Given? ==> (r.None? <==> parseInt(arg.text).None?)
    ensures arg.Given? && parseInt(arg.text).Some? ==> r == Some(ClampDays(parseInt(arg.text).value))
  {
    match arg
    case Absent => Some(ClampDays(1))
    case Given(text) =>
      match parseInt(text)
      case None => None
      case Some(d) => Some(ClampDays(d))
  }

  /** `_cache`: the time of the last refresh and its payload (`{}` before the first). */
  class Cache {
    var ts: int
    var data: Option<Snapshot>

    constructor()
      ensures ts == 0 && data == None
      ensures forall now :: !Fresh(now)
    {
      ts := 0;
      data := None;
    }

    /**
     * The test at the top of `fires()`: a snapshot is held and it expires
     * 300 seconds after the stored time.
     */
    predicate Fresh(now: real)
      reads this
      ensures Fresh(now) ==> data.Some?
      ensures now >= ts as real + 300.0 ==> !Fresh(now)
      ensures data.Some? && now < ts as real + 300.0 ==> Fresh(now)
    {
      now - ts as real < 300.0 && data.Some?
    }
  }

  /**
   * One request to `/fires` at clock reading `now`, where the upstream
   * request, if made, returns `fetch` and the clock reads `doneAt` when the
   * payload is built.  A fresh cache is answered as is, whatever the days
   * argument; otherwise a bad days argument or a failed fetch raises and
   * leaves the cache alone, and a good one replaces both fields together.
   */
  method Fires(cache: Cache, now: real, arg: DaysArg, parseInt: string -> Option<int>,
               fetch: Fetch, doneAt: real, parse: string -> Option<real>) returns (resp: Response)
    modifies cache
    ensures old(cache.Fresh(now)) ==> resp == Json(old(cache.data).value) && unchanged(cache)
    ensures !old(cache.Fresh(now)) && (RequestedDays(arg, parseInt).None? || fetch.FetchFailed?) ==>
              resp == ServerError && unchanged(cache)
    ensures !old(cache.Fresh(now)) && RequestedDays(arg, parseInt).Some? && fetch.Fetched? ==>
              var snap := Snapshot(Aggregate(FlaskKeys, fetch.lines, parse, Detect), Trunc(doneAt),
                                   RequestedDays(arg, parseInt).value);
              resp == Json(snap) && cache.data == Some(snap) && cache.ts == snap.ts
  {
    if now - cache.ts as real < 300.0 && cache.data.Some? {
      return Json(cache.data.value);
    }
    var days := RequestedDays(arg, parseInt);
    if days.None? {
      return ServerError;
    }
    if fetch.FetchFailed? {
      return ServerError;
    }
    var counts := CountDetections(fetch.lines, parse);
    var data := Snapshot(counts, Trunc(doneAt), days.value);
    cache.ts := data.ts;
    cache.data := Some(data);
    return Json(data);
  }

  /**
   * After a refresh whose payload was built at `doneAt >= 0`, the stored
   * time is `int(doneAt)`, so the cache is served for between 299 and 300
   * seconds after `doneAt`, not a full 300.
   */
  lemma CacheWindow(doneAt: real, now: real)
    requires 0.0 <= doneAt
    ensures now - doneAt < 299.0 ==> now - Trunc(doneAt) as real < 300.0
    ensures now - Trunc(doneAt) as real < 300.0 ==> now - doneAt < 300.0
  {
  }
}
