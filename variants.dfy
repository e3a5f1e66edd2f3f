/**
 * The three scripts side by side: points on which their classifiers
 * disagree, and one response body that all three count the same way.
 */
module Variants {
  import opened Options
  import opened Regions
  import opened Feed
  import FiresMqtt
  import FiresFlask
  import FiresMqtt2

  /**
   * Inside Greenland: fires_mqtt.py ignores the point, fires.py counts it
   * as north_america, and fires_mqtt_2.py finds no box for it.
   */
  lemma GreenlandInterior()
    ensures FiresMqtt.ContinentFor(72.0, -40.0) == ""
    ensures FiresFlask.Detect(72.0, -40.0) == "north_america"
    ensures FiresMqtt2.Label(72.0, -40.0) == ""
  {
  }

  /**
   * Iceland lies in both the Greenland box and the europe box: the
   * exclusion wins in fires_mqtt.py, europe wins in the other two.
   */
  lemma Iceland()
    ensures FiresMqtt.ContinentFor(64.0, -19.0) == ""
    ensures FiresFlask.Detect(64.0, -19.0) == "europe"
    ensures FiresMqtt2.Label(64.0, -19.0) == "europe"
  {
  }

  /**
   * The africa and europe boxes overlap for latitudes 34 to 38: africa
   * comes first in CONTINENTS, europe comes first in `detect` and in BOX.
   */
  lemma AfricaEuropeOverlap()
    ensures FiresMqtt.ContinentFor(36.0, 10.0) == "africa"
    ensures FiresFlask.Detect(36.0, 10.0) == "europe"
    ensures FiresMqtt2.Label(36.0, 10.0) == "europe"
  {
    FiresMqtt.ContinentForFirst(36.0, 10.0, 1);
    FiresMqtt2.LabelFirst(36.0, 10.0, 0);
  }

  /**
   * The three australia boxes differ, (-44, -8, 110, 155), (-45, -10, 110, 155)
   * and (-50, -10, 110, 180): a point south of the first two is counted
   * only by fires_mqtt_2.py.
   */
  lemma AustraliaSouth()
    ensures FiresMqtt.ContinentFor(-47.0, 170.0) == ""
    ensures FiresFlask.Detect(-47.0, 170.0) == "unknown"
    ensures FiresMqtt2.Label(-47.0, 170.0) == "australia"
  {
    FiresMqtt.ContinentForNone(-47.0, 170.0);
    FiresMqtt2.LabelFirst(-47.0, 170.0, 5);
  }

  /** A point between latitudes -45 and -44 is missed by fires_mqtt.py only. */
  lemma AustraliaEdge()
    ensures FiresMqtt.ContinentFor(-44.5, 130.0) == ""
    ensures FiresFlask.Detect(-44.5, 130.0) == "australia"
    ensures FiresMqtt2.Label(-44.5, 130.0) == "australia"
  {
    FiresMqtt.ContinentForNone(-44.5, 130.0);
    FiresMqtt2.LabelFirst(-44.5, 130.0, 5);
  }

  /** Only fires.py normalises longitude: 200 east is 160 west, inside north_america. */
  lemma LongitudeBeyond180()
    ensures FiresMqtt.ContinentFor(40.0, 200.0) == ""
    ensures FiresFlask.Detect(40.0, 200.0) == "north_america"
    ensures FiresMqtt2.Label(40.0, 200.0) == ""
  {
    FiresMqtt.ContinentForNone(40.0, 200.0);
  }

  /** A response body: a header, three data lines and a line without a comma. */
  const ExampleLines: seq<string> := ["lat,lon", "48.8,2.3", "35.6,139.7", "-9.9,-9.9", "badline"]

  /** Of four lines, the first three of which decode and the last does not, three points remain, in order. */
  lemma FourLinePoints(a: string, b: string, c: string, d: string, parse: string -> Option<real>)
    requires DecodeLine(a, parse).Some? && DecodeLine(b, parse).Some? && DecodeLine(c, parse).Some?
    requires DecodeLine(d, parse).None?
    ensures Points([a, b, c, d], parse)
         == [DecodeLine(a, parse).value, DecodeLine(b, parse).value, DecodeLine(c, parse).value]
  {
    var l1 := [] + [a];
    var l2 := l1 + [b];
    var l3 := l2 + [c];
    PointsSnoc([], a, parse);
    PointsSnoc(l1, b, parse);
    PointsSnoc(l2, c, parse);
    PointsSnoc(l3, d, parse);
    assert l3 + [d] == [a, b, c, d];
  }

  /**
   * A body of a header and four more lines, none blank, of which the first
   * three decode and the last does not: the header is dropped and the
   * three decoded points remain, in order.
   */
  lemma FiveLinePoints(h: string, a: string, b: string, c: string, d: string, parse: string -> Option<real>)
    requires h != "" && a != "" && b != "" && c != "" && d != ""
    requires DecodeLine(a, parse).Some? && DecodeLine(b, parse).Some? && DecodeLine(c, parse).Some?
    requires DecodeLine(d, parse).None?
    ensures Points(DataLines([h, a, b, c, d]), parse)
         == [DecodeLine(a, parse).value, DecodeLine(b, parse).value, DecodeLine(c, parse).value]
  {
    var data := [a, b, c, d];
    HeaderDiscarded(0, h, data);
    assert seq(0, _ => "") + [h] + data == [h, a, b, c, d];
    NonBlankNoBlanks(data);
    FourLinePoints(a, b, c, d, parse);
  }

  /** A line of two comma-free fields decodes to the two parsed numbers. */
  lemma DecodePair(line: string, lat: string, lon: string, parse: string -> Option<real>, x: real, y: real)
    requires line == lat + "," + lon
    requires ',' !in lat && ',' !in lon
    requires parse(lat) == Some(x) && parse(lon) == Some(y)
    ensures DecodeLine(line, parse) == Some(Point(x, y))
  {
    DecodeFields(lat, lon, [], parse);
    assert Join([lat, lon] + [], ',') == line;
  }

  lemma DecodeParis(parse: string -> Option<real>)
    requires parse("48.8") == Some(48.8) && parse("2.3") == Some(2.3)
    ensures DecodeLine("48.8,2.3", parse) == Some(Point(48.8, 2.3))
  {
    DecodePair("48.8,2.3", "48.8", "2.3", parse, 48.8, 2.3);
  }

  lemma DecodeTokyo(parse: string -> Option<real>)
    requires parse("35.6") == Some(35.6) && parse("139.7") == Some(139.7)
    ensures DecodeLine("35.6,139.7", parse) == Some(Point(35.6, 139.7))
  {
    DecodePair("35.6,139.7", "35.6", "139.7", parse, 35.6, 139.7);
  }

  lemma DecodeGulf(parse: string -> Option<real>)
    requires parse("-9.9") == Some(-9.9)
    ensures DecodeLine("-9.9,-9.9", parse) == Some(Point(-9.9, -9.9))
  {
    DecodePair("-9.9,-9.9", "-9.9", "-9.9", parse, -9.9, -9.9);
  }

  lemma DecodeBadline(parse: string -> Option<real>)
    ensures DecodeLine("badline", parse) == None
  {
    DecodeNoComma("badline", parse);
  }

  /** The three data lines with a comma decode; "badline" does not. */
  lemma ExamplePoints(parse: string -> Option<real>)
    requires parse("48.8") == Some(48.8) && parse("2.3") == Some(2.3)
    requires parse("35.6") == Some(35.6) && parse("139.7") == Some(139.7)
    requires parse("-9.9") == Some(-9.9)
    ensures Points(DataLines(ExampleLines), parse) == [Point(48.8, 2.3), Point(35.6, 139.7), Point(-9.9, -9.9)]
  {
    DecodeParis(parse);
    DecodeTokyo(parse);
    DecodeGulf(parse);
    DecodeBadline(parse);
    FiveLinePoints("lat,lon", "48.8,2.3", "35.6,139.7", "-9.9,-9.9", "badline", parse);
  }

  /** fires_mqtt.py labels the three points europe, asia and africa. */
  lemma ExampleLabelsMqtt()
    ensures FiresMqtt.ContinentFor(48.8, 2.3) == "europe"
    ensures FiresMqtt.ContinentFor(35.6, 139.7) == "asia"
    ensures FiresMqtt.ContinentFor(-9.9, -9.9) == "africa"
  {
    FiresMqtt.ContinentForFirst(48.8, 2.3, 3);
    FiresMqtt.ContinentForFirst(35.6, 139.7, 0);
    FiresMqtt.ContinentForFirst(-9.9, -9.9, 1);
  }

  /** So does fires.py. */
  lemma ExampleLabelsFlask()
    ensures FiresFlask.Detect(48.8, 2.3) == "europe"
    ensures FiresFlask.Detect(35.6, 139.7) == "asia"
    ensures FiresFlask.Detect(-9.9, -9.9) == "africa"
  {
  }

  /** And so does fires_mqtt_2.py. */
  lemma ExampleLabelsMqtt2()
    ensures FiresMqtt2.Label(48.8, 2.3) == "europe"
    ensures FiresMqtt2.Label(35.6, 139.7) == "asia"
    ensures FiresMqtt2.Label(-9.9, -9.9) == "africa"
  {
    FiresMqtt2.LabelFirst(48.8, 2.3, 0);
    FiresMqtt2.LabelFirst(35.6, 139.7, 1);
    FiresMqtt2.LabelFirst(-9.9, -9.9, 2);
  }

  /** The three scripts count under the same six keys. */
  lemma ExampleKeys()
    ensures (set k | k in FiresMqtt.Keys) == ExampleExpected.Keys
    ensures (set k | k in FiresFlask.FlaskKeys) == ExampleExpected.Keys
    ensures (set k | k in FiresMqtt2.BoxKeys) == ExampleExpected.Keys
  {
  }

  /** The counts every script reports for ExampleLines. */
  const ExampleExpected: map<string, nat> :=
    map["asia" := 1, "africa" := 1, "north_america" := 0, "europe" := 1, "australia" := 0, "south_america" := 0]

  /** Each of europe, asia and africa occurs once among the example labels, any other label never. */
  lemma ExampleCount(k: string)
    ensures Count(["europe", "asia", "africa"], k) == if k in ["europe", "asia", "africa"] then 1 else 0
  {
    var labels := ["europe", "asia", "africa"];
    assert labels[..2] == ["europe", "asia"];
    assert ["europe", "asia"][..1] == ["europe"];
    assert ["europe"][..0] == [];
    var e := if k == "europe" then 1 else 0;
    var a := if k == "asia" then 1 else 0;
    var f := if k == "africa" then 1 else 0;
    assert Count(["europe"], k) == e;
    assert Count(["europe", "asia"], k) == e + a;
    assert Count(labels, k) == e + a + f;
    assert "europe" != "africa" && "europe" != "asia" && "asia" != "africa";
  }

  /** One europe, one asia and one africa label, over the six continent keys in any order. */
  lemma ExampleTally(keys: seq<string>)
    requires (set k | k in keys) == ExampleExpected.Keys
    ensures Tally(keys, ["europe", "asia", "africa"]) == ExampleExpected
  {
    var t := Tally(keys, ["europe", "asia", "africa"]);
    forall k | k in t
      ensures t[k] == ExampleExpected[k]
    {
      ExampleCount(k);
    }
  }

  /**
   * The counts of a body whose points are labelled europe, asia and africa,
   * over the six continent keys.
   */
  lemma ExampleAggregate(keys: seq<string>, lines: seq<string>, parse: string -> Option<real>,
                          classify: (real, real) -> string, p: Point, q: Point, r: Point)
    requires Points(DataLines(lines), parse) == [p, q, r]
    ensures Aggregate(keys, lines, parse, classify)
         == Tally(keys, [classify(p.lat, p.lon), classify(q.lat, q.lon), classify(r.lat, r.lon)])
  {
    assert Labels([p, q, r], classify) == [classify(p.lat, p.lon), classify(q.lat, q.lon), classify(r.lat, r.lon)];
  }

  /**
   * For that body all three scripts report one fire in europe, one in asia
   * and one in africa: (-9.9, -9.9) lies in every africa box, and the last
   * line is skipped.
   */
  lemma ExampleCounts(parse: string -> Option<real>)
    requires parse("48.8") == Some(48.8) && parse("2.3") == Some(2.3)
    requires parse("35.6") == Some(35.6) && parse("139.7") == Some(139.7)
    requires parse("-9.9") == Some(-9.9)
    ensures Aggregate(FiresMqtt.Keys, ExampleLines, parse, FiresMqtt.ContinentFor) == ExampleExpected
    ensures Aggregate(FiresFlask.FlaskKeys, ExampleLines, parse, FiresFlask.Detect) == ExampleExpected
    ensures Aggregate(FiresMqtt2.BoxKeys, ExampleLines, parse, FiresMqtt2.Label) == ExampleExpected
  {
    ExamplePoints(parse);
    ExampleLabelsMqtt();
    ExampleAggregate(FiresMqtt.Keys, ExampleLines, parse, FiresMqtt.ContinentFor, Point(48.8, 2.3), Point(35.6, 139.7), Point(-9.9, -9.9));
    ExampleKeys();
    ExampleTally(FiresMqtt.Keys);
    ExampleLabelsFlask();
    ExampleAggregate(FiresFlask.FlaskKeys, ExampleLines, parse, FiresFlask.Detect, Point(48.8, 2.3), Point(35.6, 139.7), Point(-9.9, -9.9));
    ExampleTally(FiresFlask.FlaskKeys);
    ExampleLabelsMqtt2();
    ExampleAggregate(FiresMqtt2.BoxKeys, ExampleLines, parse, FiresMqtt2.Label, Point(48.8, 2.3), Point(35.6, 139.7), Point(-9.9, -9.9));
    ExampleTally(FiresMqtt2.BoxKeys);
  }
}
