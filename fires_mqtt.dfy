/**
 * fires_mqtt.py: the publisher that counts detections per continent and
 * pushes them to an MQTT broker.  Modelled here: the continent table and
 * its Greenland exclusion, `continent_for`, the counting loop of
 * `fetch_counts` over the lines of a response, and the reconnect backoff
 * of `main`.
 */
module FiresMqtt {
  import opened Options
  import opened Regions
  import opened Feed

  const Europe := Box(34.0, 72.0, -25.0, 60.0)
  const Asia := Box(-11.0, 81.0, 60.0, 180.0)
  const Africa := Box(-36.0, 38.0, -20.0, 52.0)
  const NorthAmerica := Box(5.0, 83.0, -170.0, -50.0)
  /** Tested before the table; a point inside it is ignored. */
  const Greenland := Box(58.0, 83.0, -73.0, -12.0)
  const SouthAmerica := Box(-56.0, 13.0, -82.0, -35.0)
  const Australia := Box(-44.0, -8.0, 110.0, 155.0)

  /** CONTINENTS, in its insertion order. */
  const Continents: seq<Entry> := [
    Entry("asia", Asia),
    Entry("africa", Africa),
    Entry("north_america", NorthAmerica),
    Entry("europe", Europe),
    Entry("australia", Australia),
    Entry("south_america", SouthAmerica)
  ]

  /** The keys of the counts returned by `fetch_counts`. */
  const Keys: seq<string> := ["asia", "africa", "north_america", "europe", "australia", "south_america"]

  /** The keys are the CONTINENTS names in order, distinct, and none of them is the empty label. */
  lemma KeysFacts()
    ensures |Keys| == |Continents|
    ensures forall j :: 0 <= j < |Continents| ==> Continents[j].name == Keys[j]
    ensures Distinct(Keys)
    ensures "" !in Keys
  {
  }

  /**
   * The continent of a point, or "" for a point in the Greenland box or in
   * no box.
   */
  function ContinentFor(lat: real, lon: real): (c: string)
    ensures c == "" || c in Keys
    ensures InBox(lat, lon, Greenland) ==> c == ""
    ensures c == "" <==> InBox(lat, lon, Greenland)
                         || forall i :: 0 <= i < |Continents| ==> !InBox(lat, lon, Continents[i].box)
  {
    match Classify(Continents, Some(Greenland), InBox, lat, lon)
    case None => ""
    case Some(name) => name
  }

  /** Outside the Greenland box, the first row of CONTINENTS that contains the point names it. */
  lemma ContinentForFirst(lat: real, lon: real, i: nat)
    requires i < |Continents| && InBox(lat, lon, Continents[i].box)
    requires forall j :: 0 <= j < i ==> !InBox(lat, lon, Continents[j].box)
    requires !InBox(lat, lon, Greenland)
    ensures ContinentFor(lat, lon) == Continents[i].name
  {
    ClassifyFirst(Continents, Some(Greenland), InBox, lat, lon, i);
  }

  /** A point outside all six rows of CONTINENTS is ignored. */
  lemma ContinentForNone(lat: real, lon: real)
    requires !InBox(lat, lon, Continents[0].box) && !InBox(lat, lon, Continents[1].box)
    requires !InBox(lat, lon, Continents[2].box) && !InBox(lat, lon, Continents[3].box)
    requires !InBox(lat, lon, Continents[4].box) && !InBox(lat, lon, Continents[5].box)
    ensures ContinentFor(lat, lon) == ""
  {
    assert forall i :: 0 <= i < |Continents| ==> !InBox(lat, lon, Continents[i].box);
  }

  /**
   * `fetch_counts` after the response has arrived: the six counters, each
   * the number of data lines whose point `continent_for` puts in that
   * continent.  `counts[c] += 1` runs only for a non-empty `c`, which is
   * always a key.
   */
  method FetchCounts(lines: seq<string>, parse: string -> Option<real>) returns (counts: map<string, nat>)
    ensures counts == Aggregate(Keys, lines, parse, ContinentFor)
    ensures counts.Keys == set k | k in Keys
    ensures Total(counts, Keys) <= |DataLines(lines)|
  {
    counts := Zeros(Keys);
    var first := true;
    for i := 0 to |lines|
      invariant first <==> NonBlank(lines[..i]) == []
      invariant counts == Scan(Keys, lines[..i], parse, ContinentFor)
    {
      var raw := lines[i];
      assert lines[..i + 1][..i] == lines[..i];
      if raw == "" {
        // blank: skipped without using up the header
      } else if first {
        first := false;
      } else {
        var point := DecodeLine(raw, parse);
        if point.Some? {
          var c := ContinentFor(point.value.lat, point.value.lon);
          assert c != "" <==> c in counts by {
            KeysFacts();
          }
          if c != "" {
            counts := counts[c := counts[c] + 1];
          }
        }
      }
    }
    assert lines[..|lines|] == lines;
    ScanIsAggregate(Keys, lines, parse, ContinentFor);
    KeysFacts();
    AggregateTotal(Keys, lines, parse, ContinentFor);
  }

  // ---------------------------------------------------------------------
  // Reconnect backoff

  /** The delay after a failed connect: doubled, at most 30 seconds. */
  function NextBackoff(backoff: int): (r: int)
    ensures r <= 30
    ensures 1 <= backoff ==> backoff < r || r == 30
    ensures 1 <= backoff <= 30 ==> 1 <= r <= 30
  {
    if backoff * 2 < 30 then backoff * 2 else 30
  }

  function Pow2(n: nat): nat
  {
    if n == 0 then 1 else 2 * Pow2(n - 1)
  }

  /** How many connects have failed since the last successful one. */
  function TrailingFailures(attempts: seq<bool>): (n: nat)
    ensures n <= |attempts|
  {
    if attempts == [] || attempts[|attempts| - 1] then 0
    else TrailingFailures(attempts[..|attempts| - 1]) + 1
  }

  /** The delay in force after a sequence of connect outcomes: 2^failures, capped at 30. */
  function BackoffAfter(attempts: seq<bool>): int
  {
    var p := Pow2(TrailingFailures(attempts));
    if p < 30 then p else 30
  }

  /** The sleeps taken: one per failed connect, of the delay in force before it. */
  function SleepSchedule(attempts: seq<bool>): seq<int>
  {
    if attempts == [] then []
    else
      var init := attempts[..|attempts| - 1];
      SleepSchedule(init) + if attempts[|attempts| - 1] then [] else [BackoffAfter(init)]
  }

  function Failures(attempts: seq<bool>): nat
  {
    if attempts == [] then 0
    else Failures(attempts[..|attempts| - 1]) + if attempts[|attempts| - 1] then 0 else 1
  }

  /** Doubling the capped delay is the capped delay of one more failure. */
  lemma NextBackoffAfter(attempts: seq<bool>)
    ensures NextBackoff(BackoffAfter(attempts)) == BackoffAfter(attempts + [false])
  {
    assert (attempts + [false])[..|attempts|] == attempts;
  }

  /** Every delay lies in [1, 30]. */
  lemma {:induction false} SleepScheduleBounds(attempts: seq<bool>)
    ensures 1 <= BackoffAfter(attempts) <= 30
    ensures |SleepSchedule(attempts)| == Failures(attempts)
    ensures forall k :: 0 <= k < |SleepSchedule(attempts)| ==> 1 <= SleepSchedule(attempts)[k] <= 30
  {
    Pow2Positive(TrailingFailures(attempts));
    if attempts != [] {
      SleepScheduleBounds(attempts[..|attempts| - 1]);
    }
  }

  lemma {:induction false} Pow2Positive(n: nat)
    ensures Pow2(n) >= 1
  {
    if n > 0 {
      Pow2Positive(n - 1);
    }
  }

  /** After five failures in a row the delay stays at the cap. */
  lemma {:induction false} Pow2AtLeast32(n: nat)
    requires n >= 5
    ensures Pow2(n) >= 32
  {
    if n > 5 {
      Pow2AtLeast32(n - 1);
    }
  }

  /**
   * From a fresh start, consecutive failures sleep 1, 2, 4, 8, 16, 30, 30, ...
   * seconds.
   */
  lemma {:induction false} FailureRun(n: nat)
    ensures SleepSchedule(seq(n, _ => false)) == seq(n, k => if 0 <= k < 5 then Pow2(k) else 30)
  {
    if n > 0 {
      var run := seq(n, _ => false);
      var shorter := seq(n - 1, _ => false);
      assert run[..n - 1] == shorter;
      FailureRun(n - 1);
      assert TrailingFailures(shorter) == n - 1 by {
        TrailingRun(n - 1);
      }
      if n - 1 >= 5 {
        Pow2AtLeast32(n - 1);
      }
      assert Pow2(4) == 16;
    }
  }

  lemma {:induction false} TrailingRun(n: nat)
    ensures TrailingFailures(seq(n, _ => false)) == n
  {
    if n > 0 {
      assert seq(n, _ => false)[..n - 1] == seq(n - 1, _ => false);
      TrailingRun(n - 1);
    }
  }

  /**
   * The reconnect loop of `main`, over the outcomes of its connect
   * attempts (true: connected).  The delay starts at 1, a success resets it
   * to 1, and a failure sleeps the current delay and then doubles it up to
   * 30.
   */
  method Reconnect(attempts: seq<bool>) returns (backoff: int, sleeps: seq<int>)
    ensures backoff == BackoffAfter(attempts)
    ensures sleeps == SleepSchedule(attempts)
    ensures 1 <= backoff <= 30
    ensures forall k :: 0 <= k < |sleeps| ==> 1 <= sleeps[k] <= 30
  {
    backoff := 1;
    sleeps := [];
    for i := 0 to |attempts|
      invariant backoff == BackoffAfter(attempts[..i])
      invariant sleeps == SleepSchedule(attempts[..i])
    {
      assert attempts[..i + 1][..i] == attempts[..i];
      if attempts[i] {
        backoff := 1;
      } else {
        sleeps := sleeps + [backoff];
        NextBackoffAfter(attempts[..i]);
        backoff := NextBackoff(backoff);
      }
    }
    assert attempts[..|attempts|] == attempts;
    SleepScheduleBounds(attempts);
  }
}
