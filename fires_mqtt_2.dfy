/**
 * fires_mqtt_2.py: the minimal publisher.  Modelled here: the BOX table,
 * whose bounds are compared as stored (no sorting, no longitude
 * normalisation, no Greenland exclusion), and the counting loop of
 * `counts_last_days`, whose inner loop over BOX stops at the first box
 * that contains the point.
 */
module FiresMqtt2 {
  import opened Options
  import opened Regions
  import opened Feed

  /** BOX, in its insertion order, each row (lat_min, lat_max, lon_min, lon_max). */
  const Boxes: seq<Entry> := [
    Entry("europe", Box(34.0, 72.0, -25.0, 60.0)),
    Entry("asia", Box(-11.0, 81.0, 60.0, 180.0)),
    Entry("africa", Box(-36.0, 38.0, -20.0, 52.0)),
    Entry("north_america", Box(5.0, 83.0, -170.0, -50.0)),
    Entry("south_america", Box(-56.0, 13.0, -82.0, -35.0)),
    Entry("australia", Box(-50.0, -10.0, 110.0, 180.0))
  ]

  /** The keys of `c = {k: 0 for k in BOX}`. */
  const BoxKeys: seq<string> := ["europe", "asia", "africa", "north_america", "south_america", "australia"]

  /** The keys are the names of the rows, distinct, and none of them is "". */
  lemma BoxKeysFacts()
    ensures |BoxKeys| == |Boxes|
    ensures forall j :: 0 <= j < |Boxes| ==> Boxes[j].name == BoxKeys[j]
    ensures Distinct(BoxKeys)
    ensures "" !in BoxKeys
  {
  }

  /**
   * The counter the inner loop increments for a point: the name of the
   * first row of BOX that contains it, or "" (no counter) when none does.
   */
  function Label(lat: real, lon: real): (c: string)
    ensures c == "" <==> forall j :: 0 <= j < |Boxes| ==> !InBox(lat, lon, Boxes[j].box)
    ensures c != "" ==> c in BoxKeys
  {
    BoxKeysFacts();
    FirstName(Boxes, InBox, lat, lon)
  }

  /** The row that contains the point, with no containing row before it, gives the label. */
  lemma LabelFirst(lat: real, lon: real, j: nat)
    requires j < |Boxes| && InBox(lat, lon, Boxes[j].box)
    requires forall k :: 0 <= k < j ==> !InBox(lat, lon, Boxes[k].box)
    ensures Label(lat, lon) == BoxKeys[j]
  {
    FirstMatchAt(Boxes, InBox, lat, lon, j);
    BoxKeysFacts();
  }

  /**
   * The inner loop of `counts_last_days` for one point, over the rows of
   * `box` (BOX at the call): walk them in order, and at the first row that
   * contains the point increment its counter and break.  A point in no
   * row changes nothing, since "" is not a counter.
   */
  method CountPoint(box: seq<Entry>, c: map<string, nat>, lat: real, lon: real) returns (c': map<string, nat>)
    requires forall j :: 0 <= j < |box| ==> box[j].name in c
    requires "" !in c
    ensures c' == Bump(c, FirstName(box, InBox, lat, lon))
  {
    c' := c;
    var j := 0;
    while j < |box|
      invariant 0 <= j <= |box|
      invariant forall k :: 0 <= k < j ==> !InBox(lat, lon, box[k].box)
    {
      if InBox(lat, lon, box[j].box) {
        FirstMatchAt(box, InBox, lat, lon, j);
        c' := c[box[j].name := c[box[j].name] + 1];
        break;
      }
      j := j + 1;
    }
  }

  /**
   * `counts_last_days` after the response has arrived: blank lines and the
   * header are skipped, a line that does not decode is skipped, and the
   * inner loop increments the counter of the first box containing the
   * point and breaks.
   */
  method CountsLastDays(lines: seq<string>, parse: string -> Option<real>) returns (c: map<string, nat>)
    ensures c == Aggregate(BoxKeys, lines, parse, Label)
    ensures c.Keys == set k | k in BoxKeys
    ensures Total(c, BoxKeys) <= |DataLines(lines)|
  {
    c := Zeros(BoxKeys);
    var first := true;
    for i := 0 to |lines|
      invariant first <==> NonBlank(lines[..i]) == []
      invariant c == Scan(BoxKeys, lines[..i], parse, Label)
    {
      var line := lines[i];
      assert lines[..i + 1][..i] == lines[..i];
      if line == "" {
        // blank: skipped without using up the header
      } else if first {
        first := false;
      } else {
        var point := DecodeLine(line, parse);
        if point.Some? {
          BoxKeysFacts();
          c := CountPoint(Boxes, c, point.value.lat, point.value.lon);
        }
      }
    }
    assert lines[..|lines|] == lines;
    ScanIsAggregate(BoxKeys, lines, parse, Label);
    BoxKeysFacts();
    AggregateTotal(BoxKeys, lines, parse, Label);
  }
}
