/** The GeoJSON values the core reads and writes. */
module GeoJson {
  import opened Wrappers

  /** A position: longitude/latitude in geodetic space, x/y in projected space. */
  datatype Coord = Coord(x: real, y: real)

  /** The "geometry" member of a feature, by its "type" member. */
  datatype Geometry =
    | Point(coord: Coord)
    | LineString(coords: seq<Coord>)
    | Polygon(rings: seq<seq<Coord>>)
    | MultiPoint(points: seq<Coord>)
    | MultiLineString(lines: seq<seq<Coord>>)
    | MultiPolygon(polygons: seq<seq<seq<Coord>>>)
    | Untyped                   // a geometry object without a "type" member
    | OtherType(name: string)   // any other "type", e.g. "GeometryCollection": name is none of the six above

  /** Opaque feature properties. */
  type Properties = map<string, string>

  /** A feature: None stands for a missing "geometry" or "properties" member. */
  datatype Feature = Feature(geometry: Option<Geometry>, properties: Option<Properties>)

  /** The three single-part geometry types the burn path handles. */
  predicate IsSingle(g: Geometry) {
    g.Point? || g.LineString? || g.Polygon?
  }

  /** A feature whose geometry is present and single-part. */
  predicate HasSingleGeometry(f: Feature) {
    f.geometry.Some? && IsSingle(f.geometry.value)
  }

  function Concat<T>(ss: seq<seq<T>>): (r: seq<T>)
    ensures |ss| == 0 ==> r == []
  {
    if |ss| == 0 then [] else ss[0] + Concat(ss[1..])
  }

  lemma {:induction false} ConcatAppend<T>(a: seq<seq<T>>, b: seq<seq<T>>)
    ensures Concat(a + b) == Concat(a) + Concat(b)
  {
    if |a| == 0 {
      assert a + b == b;
    } else {
      assert (a + b)[1..] == a[1..] + b;
      ConcatAppend(a[1..], b);
    }
  }

  lemma {:induction false} InConcat<T>(ss: seq<seq<T>>, v: T)
    ensures v in Concat(ss) <==> exists i :: 0 <= i < |ss| && v in ss[i]
  {
    if |ss| > 0 {
      InConcat(ss[1..], v);
      if v in Concat(ss[1..]) {
        var i :| 0 <= i < |ss[1..]| && v in ss[1..][i];
        assert v in ss[i + 1];
      }
      if exists i :: 0 <= i < |ss| && v in ss[i] {
        var i :| 0 <= i < |ss| && v in ss[i];
        if i > 0 {
          assert v in ss[1..][i - 1];
        }
      }
    }
  }

  /** Every vertex of a single-part geometry, rings flattened in order. */
  function Vertices(g: Geometry): seq<Coord> {
    match g
    case Point(c) => [c]
    case LineString(cs) => cs
    case Polygon(rings) => Concat(rings)
    case _ => []
  }

  /** A relation that holds pairwise on two tails and on their heads holds on the whole sequences. */
  lemma PairwiseCons<A, B>(p: (A, B) -> bool, xs: seq<A>, b: B, rest: seq<B>)
    requires |xs| > 0 && p(xs[0], b)
    requires |rest| == |xs| - 1
    requires forall i :: 0 <= i < |rest| ==> p(xs[1..][i], rest[i])
    ensures forall i :: 0 <= i < |xs| ==> p(xs[i], ([b] + rest)[i])
  {
    forall i | 0 <= i < |xs| ensures p(xs[i], ([b] + rest)[i]) {
      if i == 0 {
        assert ([b] + rest)[i] == b;
      } else {
        assert xs[i] == xs[1..][i - 1] && ([b] + rest)[i] == rest[i - 1];
      }
    }
  }
}
