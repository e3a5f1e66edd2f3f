/**
 * The region classifier shared by the three scripts: a fixed, ordered table
 * of closed latitude/longitude rectangles, searched front to back, where the
 * first rectangle containing the point gives the label.  The containment
 * test is a parameter because fires.py sorts each bound pair before testing
 * while the two publishers use the bounds as stored.
 */
module Regions {
  import opened Options

  /** A rectangle as stored in the source: (lat_min, lat_max, lon_min, lon_max). */
  datatype Box = Box(latLo: real, latHi: real, lonLo: real, lonHi: real)

  /** One named row of a region table. */
  datatype Entry = Entry(name: string, box: Box)

  /** Closed containment with the bounds taken in stored order (`in_box`). */
  predicate InBox(lat: real, lon: real, b: Box)
    ensures InBox(lat, lon, b) ==> b.latLo <= b.latHi && b.lonLo <= b.lonHi
  {
    b.latLo <= lat <= b.latHi && b.lonLo <= lon <= b.lonHi
  }

  /**
   * Both ends of each range are inside; a range stored high end first
   * contains nothing, since the bounds are not sorted.
   */
  lemma InBoxBounds(b: Box)
    ensures b.latLo <= b.latHi && b.lonLo <= b.lonHi ==>
              InBox(b.latLo, b.lonLo, b) && InBox(b.latHi, b.lonHi, b)
    ensures b.latLo > b.latHi || b.lonLo > b.lonHi ==> forall lat, lon :: !InBox(lat, lon, b)
  {
  }

  /**
   * The index of the first row whose rectangle contains the point, or None
   * when no row does.
   */
  function FirstMatch(t: seq<Entry>, contains: (real, real, Box) -> bool, lat: real, lon: real): (r: Option<nat>)
    ensures r.None? <==> forall i :: 0 <= i < |t| ==> !contains(lat, lon, t[i].box)
    ensures r.Some? ==> r.value < |t| && contains(lat, lon, t[r.value].box)
    ensures r.Some? ==> forall j :: 0 <= j < r.value ==> !contains(lat, lon, t[j].box)
  {
    if t == [] then None
    else if contains(lat, lon, t[0].box) then Some(0)
    else match FirstMatch(t[1..], contains, lat, lon)
      case None => None
      case Some(i) => Some(i + 1)
  }

  /** The row that contains the point and has no containing row before it is the first match. */
  lemma FirstMatchAt(t: seq<Entry>, contains: (real, real, Box) -> bool, lat: real, lon: real, i: nat)
    requires i < |t| && contains(lat, lon, t[i].box)
    requires forall j :: 0 <= j < i ==> !contains(lat, lon, t[j].box)
    ensures FirstMatch(t, contains, lat, lon) == Some(i)
  {
    var r := FirstMatch(t, contains, lat, lon);
    assert r.Some?;
  }

  /** The name of the first row that contains the point, or "" when none does. */
  function FirstName(t: seq<Entry>, contains: (real, real, Box) -> bool, lat: real, lon: real): (c: string)
    ensures FirstMatch(t, contains, lat, lon).None? ==> c == ""
    ensures FirstMatch(t, contains, lat, lon).Some? ==> c == t[FirstMatch(t, contains, lat, lon).value].name
  {
    match FirstMatch(t, contains, lat, lon)
    case None => ""
    case Some(i) => t[i].name
  }

  /**
   * First-match classification with an optional exclusion rectangle that is
   * tested before the table: a point inside it gets no label at all.
   */
  function Classify(t: seq<Entry>, exclusion: Option<Box>, contains: (real, real, Box) -> bool,
                    lat: real, lon: real): (r: Option<string>)
    ensures exclusion.Some? && contains(lat, lon, exclusion.value) ==> r.None?
    ensures r.None? <==> (exclusion.Some? && contains(lat, lon, exclusion.value))
                         || forall i :: 0 <= i < |t| ==> !contains(lat, lon, t[i].box)
    ensures r.Some? ==> exists i :: 0 <= i < |t| && r.value == t[i].name
  {
    if exclusion.Some? && contains(lat, lon, exclusion.value) then None
    else match FirstMatch(t, contains, lat, lon)
      case None => None
      case Some(i) => Some(t[i].name)
  }

  /** The row that contains the point and has no containing row before it names the point. */
  lemma ClassifyFirst(t: seq<Entry>, exclusion: Option<Box>, contains: (real, real, Box) -> bool,
                      lat: real, lon: real, i: nat)
    requires i < |t| && contains(lat, lon, t[i].box)
    requires forall j :: 0 <= j < i ==> !contains(lat, lon, t[j].box)
    requires exclusion.None? || !contains(lat, lon, exclusion.value)
    ensures Classify(t, exclusion, contains, lat, lon) == Some(t[i].name)
  {
    var r := FirstMatch(t, contains, lat, lon);
    assert r.Some?;
  }

  /** A point contained in exactly one row (and not excluded) gets that row's label. */
  lemma ClassifyUnique(t: seq<Entry>, exclusion: Option<Box>, contains: (real, real, Box) -> bool,
                       lat: real, lon: real, i: nat)
    requires i < |t| && contains(lat, lon, t[i].box)
    requires forall j :: 0 <= j < |t| && j != i ==> !contains(lat, lon, t[j].box)
    requires exclusion.None? || !contains(lat, lon, exclusion.value)
    ensures Classify(t, exclusion, contains, lat, lon) == Some(t[i].name)
  {
    ClassifyFirst(t, exclusion, contains, lat, lon, i);
  }
}
