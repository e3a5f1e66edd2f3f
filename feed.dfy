/**
 * The feed decoder and the counter fold shared by the three scripts.
 *
 * The response body is a sequence of text lines.  Blank lines are ignored,
 * the first non-blank line is a header, every later line is split on ','
 * and its first two fields are parsed as latitude and longitude; a line
 * that does not decode is skipped.  Each decoded point is classified and
 * the counter of its label is incremented when the label is one of the
 * output keys.
 *
 * This module gives the reference definitions (filters and a tally); the
 * loops of the three scripts are proved equal to Aggregate.
 */
module Feed {
  import opened Options

  datatype Point = Point(lat: real, lon: real)

  // ---------------------------------------------------------------------
  // Splitting a line on a separator, as Python's str.split(sep) does

  /** The number of occurrences of `c` in `s`. */
  function Occurrences(s: string, c: char): nat
  {
    if s == [] then 0 else (if s[0] == c then 1 else 0) + Occurrences(s[1..], c)
  }

  /** The fields of `s` between occurrences of `sep`: one more than there are separators. */
  function Split(s: string, sep: char): (parts: seq<string>)
    ensures |parts| == Occurrences(s, sep) + 1
    ensures |parts| == 1 <==> sep !in s
    decreases |s|
  {
    if s == [] then [""]
    else
      var rest := Split(s[1..], sep);
      if s[0] == sep then [""] + rest
      else [[s[0]] + rest[0]] + rest[1..]
  }

  /** The fields glued back together with `sep` between them. */
  function Join(parts: seq<string>, sep: char): string
    requires |parts| >= 1
  {
    if |parts| == 1 then parts[0] else parts[0] + [sep] + Join(parts[1..], sep)
  }

  /** A character put in front of the first field comes first in the joined line. */
  lemma JoinCons(c: char, parts: seq<string>, sep: char)
    requires |parts| >= 1
    ensures Join([[c] + parts[0]] + parts[1..], sep) == [c] + Join(parts, sep)
  {
    var q := [[c] + parts[0]] + parts[1..];
    if |parts| > 1 {
      assert q[1..] == parts[1..];
      assert Join(q, sep) == ([c] + parts[0]) + [sep] + Join(parts[1..], sep);
    }
  }

  /** Splitting loses nothing: joining the fields gives the line back. */
  lemma {:induction false} JoinSplit(s: string, sep: char)
    ensures Join(Split(s, sep), sep) == s
    decreases |s|
  {
    if s != [] {
      var rest := Split(s[1..], sep);
      JoinSplit(s[1..], sep);
      if s[0] == sep {
        assert Split(s, sep)[1..] == rest;
      } else {
        JoinCons(s[0], rest, sep);
      }
      assert [s[0]] + s[1..] == s;
    }
  }

  /** No field contains the separator. */
  lemma {:induction false} SplitFieldsFree(s: string, sep: char)
    ensures forall i :: 0 <= i < |Split(s, sep)| ==> sep !in Split(s, sep)[i]
    decreases |s|
  {
    if s != [] {
      SplitFieldsFree(s[1..], sep);
    }
  }

  /** A separator-free prefix becomes the start of the first field. */
  lemma {:induction false} SplitPrefix(a: string, tail: string, sep: char)
    requires sep !in a
    ensures Split(a + tail, sep) == [a + Split(tail, sep)[0]] + Split(tail, sep)[1..]
    decreases |a|
  {
    if a != [] {
      assert (a + tail)[1..] == a[1..] + tail;
      assert (a + tail)[0] == a[0];
      SplitPrefix(a[1..], tail, sep);
      assert [a[0]] + (a[1..] + Split(tail, sep)[0]) == a + Split(tail, sep)[0];
    } else {
      var parts := Split(tail, sep);
      assert a + tail == tail;
      assert a + parts[0] == parts[0];
      assert parts == [parts[0]] + parts[1..];
    }
  }

  /** Splitting undoes joining, as long as no field contains the separator. */
  lemma {:induction false} SplitJoin(parts: seq<string>, sep: char)
    requires |parts| >= 1
    requires forall i :: 0 <= i < |parts| ==> sep !in parts[i]
    ensures Split(Join(parts, sep), sep) == parts
    decreases |parts|
  {
    if |parts| == 1 {
      SplitPrefix(parts[0], "", sep);
      assert parts[0] + "" == parts[0];
    } else {
      var rest := Join(parts[1..], sep);
      SplitJoin(parts[1..], sep);
      var tail := [sep] + rest;
      assert Join(parts, sep) == parts[0] + tail;
      SplitPrefix(parts[0], tail, sep);
      assert tail[0] == sep && tail[1..] == rest;
      assert Split(tail, sep) == [""] + parts[1..];
      assert parts[0] + "" == parts[0];
      assert parts == [parts[0]] + parts[1..];
    }
  }

  // ---------------------------------------------------------------------
  // Decoding one data line

  /**
   * The point of one data line: None when it has fewer than two fields or
   * when either of its first two fields does not parse.  `parse` stands for
   * Python's float() on a field; None stands for its ValueError.
   */
  function DecodeLine(line: string, parse: string -> Option<real>): (r: Option<Point>)
    ensures r.None? <==> ',' !in line
                         || parse(Split(line, ',')[0]).None? || parse(Split(line, ',')[1]).None?
  {
    var parts := Split(line, ',');
    if |parts| < 2 then None
    else
      var lat := parse(parts[0]);
      var lon := parse(parts[1]);
      if lat.None? || lon.None? then None else Some(Point(lat.value, lon.value))
  }

  /** A decoded line's point is its first two fields, parsed. */
  lemma DecodeLinePoint(line: string, parse: string -> Option<real>)
    ensures DecodeLine(line, parse).Some? ==>
              DecodeLine(line, parse).value
              == Point(parse(Split(line, ',')[0]).value, parse(Split(line, ',')[1]).value)
  {
  }

  /** A line built from fields decodes to its first two fields, whatever follows them. */
  lemma DecodeFields(lat: string, lon: string, more: seq<string>, parse: string -> Option<real>)
    requires ',' !in lat && ',' !in lon
    requires forall i :: 0 <= i < |more| ==> ',' !in more[i]
    ensures DecodeLine(Join([lat, lon] + more, ','), parse)
         == if parse(lat).Some? && parse(lon).Some? then Some(Point(parse(lat).value, parse(lon).value)) else None
  {
    var parts := [lat, lon] + more;
    forall i | 0 <= i < |parts| ensures ',' !in parts[i] {
      if i == 0 {
        assert parts[i] == lat;
      } else if i == 1 {
        assert parts[i] == lon;
      } else {
        assert parts[i] == more[i - 2];
      }
    }
    SplitJoin(parts, ',');
    assert parts[0] == lat && parts[1] == lon;
  }

  /** A line without a comma has one field and never decodes. */
  lemma DecodeNoComma(line: string, parse: string -> Option<real>)
    requires ',' !in line
    ensures DecodeLine(line, parse) == None
  {
    SplitPrefix(line, "", ',');
    assert line + "" == line;
  }

  // ---------------------------------------------------------------------
  // Which lines are data lines

  /** The non-blank lines, in order. */
  function NonBlank(lines: seq<string>): (r: seq<string>)
    ensures |r| <= |lines|
    ensures forall i :: 0 <= i < |r| ==> r[i] != ""
  {
    if lines == [] then []
    else
      var rest := NonBlank(lines[..|lines| - 1]);
      if lines[|lines| - 1] == "" then rest else rest + [lines[|lines| - 1]]
  }

  /** The non-blank lines after the first one, which is the header. */
  function DataLines(lines: seq<string>): (r: seq<string>)
    ensures |r| <= |lines|
    ensures NonBlank(lines) == [] ==> r == []
    ensures NonBlank(lines) != [] ==> NonBlank(lines) == [NonBlank(lines)[0]] + r
  {
    var nb := NonBlank(lines);
    if nb == [] then [] else nb[1..]
  }

  /** Blank lines have no effect: dropping them first changes nothing. */
  lemma {:induction false} NonBlankIdempotent(lines: seq<string>)
    ensures NonBlank(NonBlank(lines)) == NonBlank(lines)
    ensures DataLines(NonBlank(lines)) == DataLines(lines)
  {
    if lines != [] {
      var init := lines[..|lines| - 1];
      NonBlankIdempotent(init);
      var nb := NonBlank(init);
      if lines[|lines| - 1] != "" {
        assert (nb + [lines[|lines| - 1]])[..|nb|] == nb;
      }
    }
  }

  /** NonBlank read from the front: a non-blank line is kept, a blank one dropped. */
  lemma {:induction false} NonBlankCons(x: string, rest: seq<string>)
    ensures NonBlank([x] + rest) == (if x == "" then [] else [x]) + NonBlank(rest)
    decreases |rest|
  {
    if rest == [] {
      assert ([x] + rest)[..0] == [];
    } else {
      var init := rest[..|rest| - 1];
      assert ([x] + rest)[..|rest|] == [x] + init;
      NonBlankCons(x, init);
    }
  }

  /**
   * The header is the first non-blank line however many blank lines come
   * before it; everything non-blank after it is data.
   */
  lemma {:induction false} HeaderDiscarded(blanks: nat, header: string, rest: seq<string>)
    requires header != ""
    ensures DataLines(seq(blanks, _ => "") + [header] + rest) == NonBlank(rest)
    decreases blanks
  {
    var lines := seq(blanks, _ => "") + [header] + rest;
    if blanks == 0 {
      assert lines == [header] + rest;
      NonBlankCons(header, rest);
      assert ([header] + NonBlank(rest))[1..] == NonBlank(rest);
    } else {
      var shorter := seq(blanks - 1, _ => "") + [header] + rest;
      assert lines == [""] + shorter;
      NonBlankCons("", shorter);
      assert [] + NonBlank(shorter) == NonBlank(shorter);
      HeaderDiscarded(blanks - 1, header, rest);
    }
  }

  // ---------------------------------------------------------------------
  // Decoded points, their labels and the tally

  /** The points of the lines that decode, in order. */
  function Points(lines: seq<string>, parse: string -> Option<real>): (r: seq<Point>)
    ensures |r| <= |lines|
  {
    if lines == [] then []
    else
      var rest := Points(lines[..|lines| - 1], parse);
      match DecodeLine(lines[|lines| - 1], parse)
      case None => rest
      case Some(p) => rest + [p]
  }

  /** The label of every point. */
  function Labels(points: seq<Point>, classify: (real, real) -> string): seq<string>
  {
    seq(|points|, i requires 0 <= i < |points| => classify(points[i].lat, points[i].lon))
  }

  /** How many labels equal `k`. */
  function Count(labels: seq<string>, k: string): (n: nat)
    ensures n <= |labels|
  {
    if labels == [] then 0
    else Count(labels[..|labels| - 1], k) + if labels[|labels| - 1] == k then 1 else 0
  }

  /** How many labels are output keys. */
  function CountIn(labels: seq<string>, keys: seq<string>): (n: nat)
    ensures n <= |labels|
  {
    if labels == [] then 0
    else CountIn(labels[..|labels| - 1], keys) + if labels[|labels| - 1] in keys then 1 else 0
  }

  /** One counter per key, each holding the number of labels equal to it. */
  function Tally(keys: seq<string>, labels: seq<string>): map<string, nat>
  {
    map k | k in keys :: Count(labels, k)
  }

  /** The counts a script reports for a response body. */
  function Aggregate(keys: seq<string>, lines: seq<string>, parse: string -> Option<real>,
                     classify: (real, real) -> string): (counts: map<string, nat>)
    ensures counts.Keys == set k | k in keys
    ensures forall k :: k in counts ==> counts[k] <= |DataLines(lines)|
  {
    Tally(keys, Labels(Points(DataLines(lines), parse), classify))
  }

  /** `counts[c] += 1` guarded by `c in counts`. */
  function Bump(counts: map<string, nat>, c: string): (r: map<string, nat>)
    ensures r.Keys == counts.Keys
    ensures c in counts ==> r[c] == counts[c] + 1
    ensures forall k :: k in counts && k != c ==> r[k] == counts[k]
  {
    if c in counts then counts[c := counts[c] + 1] else counts
  }

  /** The sum of the counters of the given keys. */
  function Total(counts: map<string, nat>, keys: seq<string>): nat
    requires forall k :: k in keys ==> k in counts
  {
    if keys == [] then 0 else counts[keys[0]] + Total(counts, keys[1..])
  }

  predicate Distinct(keys: seq<string>)
  {
    forall i, j :: 0 <= i < j < |keys| ==> keys[i] != keys[j]
  }

  /** The tally has exactly the keys, and every counter starts at zero. */
  lemma TallyKeys(keys: seq<string>, labels: seq<string>)
    ensures Tally(keys, labels).Keys == set k | k in keys
    ensures labels == [] ==> forall k :: k in keys ==> Tally(keys, labels)[k] == 0
  {
  }

  /** `{k: 0 for k in keys}`: one counter per key, all zero. */
  function Zeros(keys: seq<string>): (m: map<string, nat>)
    ensures m.Keys == set k | k in keys
    ensures forall k :: k in m ==> m[k] == 0
  {
    map k | k in keys :: 0
  }

  /** Before any line is read every counter is zero. */
  lemma AggregateEmpty(keys: seq<string>, parse: string -> Option<real>, classify: (real, real) -> string)
    ensures Aggregate(keys, [], parse, classify) == Zeros(keys)
  {
  }

  /** One more label increments exactly its own counter, and only if it is a key. */
  lemma TallySnoc(keys: seq<string>, labels: seq<string>, c: string)
    ensures Tally(keys, labels + [c]) == Bump(Tally(keys, labels), c)
  {
    assert (labels + [c])[..|labels|] == labels;
  }

  /** The counts depend only on the multiset of labels, not on their order. */
  lemma {:induction false} CountMultiplicity(labels: seq<string>, k: string)
    ensures Count(labels, k) == multiset(labels)[k]
  {
    if labels != [] {
      var init := labels[..|labels| - 1];
      CountMultiplicity(init, k);
      assert labels == init + [labels[|labels| - 1]];
    }
  }

  lemma TallyPermutation(keys: seq<string>, a: seq<string>, b: seq<string>)
    requires multiset(a) == multiset(b)
    ensures Tally(keys, a) == Tally(keys, b)
  {
    forall k | k in keys ensures Count(a, k) == Count(b, k) {
      CountMultiplicity(a, k);
      CountMultiplicity(b, k);
    }
  }

  /**
   * The last element of `d` occurs somewhere in a reordering `e` of it;
   * without it, the rest of `d` is a reordering of the rest of `e`.
   */
  lemma Peel<T>(d: seq<T>, e: seq<T>) returns (front: seq<T>, back: seq<T>)
    requires d != [] && multiset(d) == multiset(e)
    ensures e == front + ([d[|d| - 1]] + back)
    ensures multiset(d[..|d| - 1]) == multiset(front + back)
  {
    var init := d[..|d| - 1];
    var x := d[|d| - 1];
    assert d == init + [x];
    assert multiset(d) == multiset(init) + multiset{x};
    assert x in multiset(e);
    var j :| 0 <= j < |e| && e[j] == x;
    front, back := e[..j], e[j + 1..];
    assert e == front + ([x] + back);
    assert multiset(e) == multiset(front) + multiset{x} + multiset(back);
    assert multiset(front + back) == multiset(front) + multiset(back);
    MultisetCancel(multiset(init), multiset(front + back), x);
  }

  /** Labels of a concatenation are the concatenated labels. */
  lemma LabelsAppend(a: seq<Point>, b: seq<Point>, classify: (real, real) -> string)
    ensures Labels(a + b, classify) == Labels(a, classify) + Labels(b, classify)
  {
  }

  /** One element taken off both sides of an equation between multisets. */
  lemma MultisetCancel<T>(a: multiset<T>, b: multiset<T>, x: T)
    requires a + multiset{x} == b + multiset{x}
    ensures a == b
  {
    forall y ensures a[y] == b[y] {
      assert (a + multiset{x})[y] == (b + multiset{x})[y];
    }
  }

  /** Labelling a reordering of the points gives a reordering of the labels. */
  lemma {:induction false} LabelsPermutation(p: seq<Point>, q: seq<Point>, classify: (real, real) -> string)
    requires multiset(p) == multiset(q)
    ensures multiset(Labels(p, classify)) == multiset(Labels(q, classify))
    decreases |p|
  {
    if p == [] {
      assert |q| == |multiset(q)| == 0;
    } else {
      var init := p[..|p| - 1];
      var x := p[|p| - 1];
      assert p == init + [x];
      var front, back := Peel(p, q);
      var rest := front + back;
      LabelsPermutation(init, rest, classify);
      LabelsAppend(init, [x], classify);
      LabelsAppend(front, [x] + back, classify);
      LabelsAppend([x], back, classify);
      LabelsAppend(front, back, classify);
      var l := Labels([x], classify);
      assert multiset(Labels(p, classify)) == multiset(Labels(init, classify)) + multiset(l);
      assert multiset(Labels(q, classify))
          == multiset(Labels(front, classify)) + multiset(l) + multiset(Labels(back, classify));
    }
  }

  /** The counts depend only on which points were decoded, not on their order. */
  lemma PointsPermutation(keys: seq<string>, p: seq<Point>, q: seq<Point>, classify: (real, real) -> string)
    requires multiset(p) == multiset(q)
    ensures Tally(keys, Labels(p, classify)) == Tally(keys, Labels(q, classify))
  {
    LabelsPermutation(p, q, classify);
    TallyPermutation(keys, Labels(p, classify), Labels(q, classify));
  }

  /** Points of a concatenation are the concatenated points. */
  lemma {:induction false} PointsAppend(a: seq<string>, b: seq<string>, parse: string -> Option<real>)
    ensures Points(a + b, parse) == Points(a, parse) + Points(b, parse)
    decreases |b|
  {
    if b == [] {
      assert a + b == a;
    } else {
      var init := b[..|b| - 1];
      var x := b[|b| - 1];
      assert b == init + [x];
      assert a + b == (a + init) + [x];
      PointsAppend(a, init, parse);
      PointsSnoc(a + init, x, parse);
      PointsSnoc(init, x, parse);
    }
  }

  /** Decoding a reordering of the lines gives a reordering of the points. */
  lemma {:induction false} PointsOfPermutation(d: seq<string>, e: seq<string>, parse: string -> Option<real>)
    requires multiset(d) == multiset(e)
    ensures multiset(Points(d, parse)) == multiset(Points(e, parse))
    decreases |d|
  {
    if d == [] {
      assert |e| == |multiset(e)| == 0;
    } else {
      var init := d[..|d| - 1];
      var x := d[|d| - 1];
      assert d == init + [x];
      var front, back := Peel(d, e);
      var rest := front + back;
      PointsOfPermutation(init, rest, parse);
      PointsAppend(init, [x], parse);
      PointsAppend(front, [x] + back, parse);
      PointsAppend([x], back, parse);
      PointsAppend(front, back, parse);
      var px := Points([x], parse);
      var pf, pb := Points(front, parse), Points(back, parse);
      assert Points(d, parse) == Points(init, parse) + px;
      assert Points(e, parse) == pf + (px + pb);
      assert multiset(pf + (px + pb)) == multiset(pf + pb) + multiset(px);
    }
  }

  /** A blank line never decodes, so dropping blank lines first keeps the same points. */
  lemma {:induction false} PointsNonBlank(d: seq<string>, parse: string -> Option<real>)
    ensures Points(NonBlank(d), parse) == Points(d, parse)
    decreases |d|
  {
    if d != [] {
      var init := d[..|d| - 1];
      var x := d[|d| - 1];
      PointsNonBlank(init, parse);
      PointsSnoc(init, x, parse);
      assert d == init + [x];
      if x == "" {
        assert Split(x, ',') == [""];
      } else {
        PointsSnoc(NonBlank(init), x, parse);
      }
    }
  }

  /**
   * After the header, the order of the lines does not matter: any reordering
   * of the lines that follow it yields the same counts.
   */
  lemma LinesPermutation(keys: seq<string>, header: string, d: seq<string>, e: seq<string>,
                         parse: string -> Option<real>, classify: (real, real) -> string)
    requires header != ""
    requires multiset(d) == multiset(e)
    ensures Aggregate(keys, [header] + d, parse, classify) == Aggregate(keys, [header] + e, parse, classify)
  {
    HeaderDiscarded(0, header, d);
    HeaderDiscarded(0, header, e);
    assert seq(0, _ => "") + [header] + d == [header] + d;
    assert seq(0, _ => "") + [header] + e == [header] + e;
    PointsNonBlank(d, parse);
    PointsNonBlank(e, parse);
    PointsOfPermutation(d, e, parse);
    PointsPermutation(keys, Points(d, parse), Points(e, parse), classify);
  }

  /** Incrementing one key's counter adds one to the total exactly when it is a key. */
  lemma {:induction false} TotalBump(m: map<string, nat>, keys: seq<string>, c: string)
    requires forall k :: k in keys ==> k in m
    requires c in m && Distinct(keys)
    ensures Total(m[c := m[c] + 1], keys) == Total(m, keys) + if c in keys then 1 else 0
    decreases |keys|
  {
    if keys != [] {
      assert Distinct(keys[1..]);
      TotalBump(m, keys[1..], c);
      assert c == keys[0] ==> c !in keys[1..];
      assert c in keys <==> c == keys[0] || c in keys[1..];
    }
  }

  lemma {:induction false} TotalZero(m: map<string, nat>, keys: seq<string>)
    requires forall k :: k in keys ==> k in m && m[k] == 0
    ensures Total(m, keys) == 0
    decreases |keys|
  {
    if keys != [] {
      TotalZero(m, keys[1..]);
    }
  }

  /** With distinct keys the counters sum to the number of labels that are keys. */
  lemma {:induction false} TotalTally(keys: seq<string>, labels: seq<string>)
    requires Distinct(keys)
    ensures Total(Tally(keys, labels), keys) == CountIn(labels, keys)
  {
    if labels == [] {
      TotalZero(Tally(keys, labels), keys);
    } else {
      var init := labels[..|labels| - 1];
      var c := labels[|labels| - 1];
      assert labels == init + [c];
      TotalTally(keys, init);
      TallySnoc(keys, init, c);
      if c in keys {
        TotalBump(Tally(keys, init), keys, c);
      }
    }
  }

  /**
   * The reported counts never add up to more than the data lines: each
   * data line is counted at most once.
   */
  lemma AggregateTotal(keys: seq<string>, lines: seq<string>, parse: string -> Option<real>,
                       classify: (real, real) -> string)
    requires Distinct(keys)
    ensures Total(Aggregate(keys, lines, parse, classify), keys)
         == CountIn(Labels(Points(DataLines(lines), parse), classify), keys)
    ensures Total(Aggregate(keys, lines, parse, classify), keys) <= |DataLines(lines)|
  {
    TotalTally(keys, Labels(Points(DataLines(lines), parse), classify));
  }

  /** A sequence without blank lines is its own NonBlank. */
  lemma {:induction false} NonBlankNoBlanks(lines: seq<string>)
    requires forall i :: 0 <= i < |lines| ==> lines[i] != ""
    ensures NonBlank(lines) == lines
  {
    if lines != [] {
      NonBlankNoBlanks(lines[..|lines| - 1]);
    }
  }

  /** One more line: blank lines and the header are not data, any later line is. */
  lemma DataLinesSnoc(lines: seq<string>, x: string)
    ensures NonBlank(lines + [x]) == [] <==> NonBlank(lines) == [] && x == ""
    ensures DataLines(lines + [x])
         == if x == "" || NonBlank(lines) == [] then DataLines(lines) else DataLines(lines) + [x]
  {
    assert (lines + [x])[..|lines|] == lines;
    var nb := NonBlank(lines);
    if x != "" && nb != [] {
      assert (nb + [x])[1..] == nb[1..] + [x];
    }
  }

  lemma PointsSnoc(lines: seq<string>, x: string, parse: string -> Option<real>)
    ensures Points(lines + [x], parse)
         == match DecodeLine(x, parse) case None => Points(lines, parse) case Some(p) => Points(lines, parse) + [p]
  {
    assert (lines + [x])[..|lines|] == lines;
  }

  lemma LabelsSnoc(points: seq<Point>, p: Point, classify: (real, real) -> string)
    ensures Labels(points + [p], classify) == Labels(points, classify) + [classify(p.lat, p.lon)]
  {
  }

  /** The counters are exactly the keys. */
  lemma AggregateKeys(keys: seq<string>, lines: seq<string>, parse: string -> Option<real>,
                      classify: (real, real) -> string)
    ensures Aggregate(keys, lines, parse, classify).Keys == set k | k in keys
  {
  }

  /**
   * The loop step of all three scripts: a blank line and the header change
   * nothing; a later line changes at most the counter of its own label.
   */
  lemma AggregateSnoc(keys: seq<string>, lines: seq<string>, x: string,
                      parse: string -> Option<real>, classify: (real, real) -> string)
    ensures NonBlank(lines + [x]) == [] <==> NonBlank(lines) == [] && x == ""
    ensures x == "" || NonBlank(lines) == [] || DecodeLine(x, parse).None? ==>
              Aggregate(keys, lines + [x], parse, classify) == Aggregate(keys, lines, parse, classify)
    ensures x != "" && NonBlank(lines) != [] && DecodeLine(x, parse).Some? ==>
              var p := DecodeLine(x, parse).value;
              Aggregate(keys, lines + [x], parse, classify)
              == Bump(Aggregate(keys, lines, parse, classify), classify(p.lat, p.lon))
  {
    DataLinesSnoc(lines, x);
    var data := DataLines(lines);
    if x != "" && NonBlank(lines) != [] {
      PointsSnoc(data, x, parse);
      var pts := Points(data, parse);
      if DecodeLine(x, parse).Some? {
        var p := DecodeLine(x, parse).value;
        LabelsSnoc(pts, p, classify);
        TallySnoc(keys, Labels(pts, classify), classify(p.lat, p.lon));
      }
    }
  }
  /**
   * The counts as the loops of the three scripts build them, one line at a
   * time: blank lines and the header are skipped, a line that does not
   * decode is skipped, and any other line bumps the counter of its label.
   */
  function Scan(keys: seq<string>, lines: seq<string>, parse: string -> Option<real>,
                classify: (real, real) -> string): (counts: map<string, nat>)
    ensures counts.Keys == set k | k in keys
  {
    if lines == [] then Zeros(keys)
    else
      var init := lines[..|lines| - 1];
      var x := lines[|lines| - 1];
      var before := Scan(keys, init, parse, classify);
      if x == "" || NonBlank(init) == [] then before
      else match DecodeLine(x, parse)
        case None => before
        case Some(p) => Bump(before, classify(p.lat, p.lon))
  }

  /** Reading the lines one at a time yields the tally of the labels of the data lines. */
  lemma {:induction false} ScanIsAggregate(keys: seq<string>, lines: seq<string>, parse: string -> Option<real>,
                                           classify: (real, real) -> string)
    ensures Scan(keys, lines, parse, classify) == Aggregate(keys, lines, parse, classify)
  {
    if lines == [] {
      AggregateEmpty(keys, parse, classify);
    } else {
      var init := lines[..|lines| - 1];
      var x := lines[|lines| - 1];
      assert lines == init + [x];
      ScanIsAggregate(keys, init, parse, classify);
      AggregateSnoc(keys, init, x, parse, classify);
    }
  }

  // ---------------------------------------------------------------------
  // The lookback window

  /** `max(1, min(days, 7))`: the request window is one to seven days. */
  function ClampDays(days: int): (r: int)
    ensures 1 <= r <= 7
    ensures 1 <= days <= 7 ==> r == days
    ensures days < 1 ==> r == 1
    ensures days > 7 ==> r == 7
  {
    var capped := if days < 7 then days else 7;
    if 1 < capped then capped else 1
  }
}
