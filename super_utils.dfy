/**
 * Tile-set utilities: tile names, the x/y range and zoom of a tile array, the
 * padded occupancy grid, the 8-neighbour offsets and the flattening of
 * multi-part features.
 *
 * A tile array is a sequence of rows, each row [x, y, z].
 */
module SuperUtils {
  import opened Wrappers
  import opened GeoJson
  import opened Collaborators
  import opened NdArray

  // ---------------------------------------------------------------- tile names

  predicate IsDigit(c: char) {
    '0' <= c <= '9'
  }

  predicate AllDigits(s: string) {
    forall i :: 0 <= i < |s| ==> IsDigit(s[i])
  }

  /** The length of the longest run of digits starting at position i. */
  function DigitRun(s: string, i: nat): (n: nat)
    requires i <= |s|
    ensures i + n <= |s|
    decreases |s| - i
  {
    if i < |s| && IsDigit(s[i]) then 1 + DigitRun(s, i + 1) else 0
  }

  /** The run is all digits and is not followed by a further digit. */
  lemma {:induction false} DigitRunMaximal(s: string, i: nat)
    requires i <= |s|
    ensures AllDigits(s[i..i + DigitRun(s, i)])
    ensures i + DigitRun(s, i) == |s| || !IsDigit(s[i + DigitRun(s, i)])
    decreases |s| - i
  {
    if i < |s| && IsDigit(s[i]) {
      DigitRunMaximal(s, i + 1);
      var n := DigitRun(s, i + 1);
      assert s[i..i + 1 + n] == [s[i]] + s[i + 1..i + 1 + n];
    }
  }

  lemma {:induction false} DigitRunExact(s: string, i: nat, n: nat)
    requires i + n <= |s|
    requires AllDigits(s[i..i + n])
    requires i + n == |s| || !IsDigit(s[i + n])
    ensures DigitRun(s, i) == n
    decreases n
  {
    if n > 0 {
      assert IsDigit(s[i..i + n][0]);
      assert s[i + 1..i + n] == s[i..i + n][1..];
      DigitRunExact(s, i + 1, n - 1);
    }
  }

  /**
   * s begins with the tile name a-b-c: three non-empty digit strings joined by
   * '-', and the third is not followed by a further digit (the greedy match).
   */
  ghost predicate BeginsWithName(s: string, a: string, b: string, c: string) {
    |a| > 0 && |b| > 0 && |c| > 0 && AllDigits(a) && AllDigits(b) && AllDigits(c) &&
    var m := a + "-" + b + "-" + c;
    |m| <= |s| && s[..|m|] == m && (|m| == |s| || !IsDigit(s[|m|]))
  }

  /** re.compile(r"[\d]+-[\d]+-[\d]+").match(s), split at '-': the three fields of the matched prefix. */
  function MatchTileName(s: string): (r: Option<(string, string, string)>)
    ensures r.Some? ==> AllDigits(r.value.0) && AllDigits(r.value.1) && AllDigits(r.value.2)
  {
    var n1 := DigitRun(s, 0);
    if n1 == 0 || n1 == |s| || s[n1] != '-' then None
    else
      var i2 := n1 + 1;
      var n2 := DigitRun(s, i2);
      if n2 == 0 || i2 + n2 == |s| || s[i2 + n2] != '-' then None
      else
        var i3 := i2 + n2 + 1;
        var n3 := DigitRun(s, i3);
        if n3 == 0 then None
        else
          DigitRunMaximal(s, 0);
          DigitRunMaximal(s, i2);
          DigitRunMaximal(s, i3);
          Some((s[..n1], s[i2..i2 + n2], s[i3..i3 + n3]))
  }

  /** Whatever the matcher finds is a tile name at the start of s. */
  lemma MatchTileNameSound(s: string)
    requires MatchTileName(s).Some?
    ensures var (a, b, c) := MatchTileName(s).value; BeginsWithName(s, a, b, c)
  {
    var n1 := DigitRun(s, 0);
    var i2 := n1 + 1;
    var n2 := DigitRun(s, i2);
    var i3 := i2 + n2 + 1;
    var n3 := DigitRun(s, i3);
    DigitRunMaximal(s, 0);
    DigitRunMaximal(s, i2);
    DigitRunMaximal(s, i3);
    var a, b, c := s[..n1], s[i2..i2 + n2], s[i3..i3 + n3];
    assert MatchTileName(s).value == (a, b, c);
    assert s[..i3 + n3] == a + "-" + b + "-" + c;
  }

  lemma NameLayout(s: string, a: string, b: string, c: string)
    requires BeginsWithName(s, a, b, c)
    ensures |a| + |b| + |c| + 2 <= |s|
    ensures s[..|a|] == a && s[|a|] == '-'
    ensures s[|a| + 1..|a| + 1 + |b|] == b && s[|a| + 1 + |b|] == '-'
    ensures s[|a| + |b| + 2..|a| + |b| + 2 + |c|] == c
    ensures |a| + |b| + 2 + |c| == |s| || !IsDigit(s[|a| + |b| + 2 + |c|])
  {
    var m := a + "-" + b + "-" + c;
    assert s[..|m|] == m;
    assert forall k :: 0 <= k < |m| ==> s[k] == m[k];
    assert forall k :: 0 <= k < |a| ==> m[k] == a[k];
    assert forall k :: 0 <= k < |b| ==> m[|a| + 1 + k] == b[k];
    assert forall k :: 0 <= k < |c| ==> m[|a| + |b| + 2 + k] == c[k];
    assert m[|a|] == '-' && m[|a| + 1 + |b|] == '-';
  }

  /** The matcher's result once the three digit runs and the two dashes are known. */
  lemma MatchTileNameRuns(s: string, n1: nat, n2: nat, n3: nat)
    requires 0 < n1 < |s| && DigitRun(s, 0) == n1 && s[n1] == '-'
    requires 0 < n2 && n1 + 1 + n2 < |s| && DigitRun(s, n1 + 1) == n2 && s[n1 + 1 + n2] == '-'
    requires 0 < n3 && DigitRun(s, n1 + n2 + 2) == n3
    ensures MatchTileName(s) == Some((s[..n1], s[n1 + 1..n1 + 1 + n2], s[n1 + n2 + 2..n1 + n2 + 2 + n3]))
  {
  }

  /** Replaces the fields of a matched triple by equal strings (keeps the matcher folded). */
  lemma SameFields(m: Option<(string, string, string)>, x: (string, string, string), a: string, b: string, c: string)
    requires m == Some(x) && x.0 == a && x.1 == b && x.2 == c
    ensures m == Some((a, b, c))
  {
  }

  /** Whenever s begins with a tile name, the matcher finds exactly that name. */
  lemma MatchTileNameComplete(s: string, a: string, b: string, c: string)
    requires BeginsWithName(s, a, b, c)
    ensures MatchTileName(s) == Some((a, b, c))
  {
    NameLayout(s, a, b, c);
    MatchLaidOutName(s, a, b, c);
  }

  lemma MatchLaidOutName(s: string, a: string, b: string, c: string)
    requires |a| > 0 && |b| > 0 && |c| > 0 && AllDigits(a) && AllDigits(b) && AllDigits(c)
    requires |a| + |b| + |c| + 2 <= |s|
    requires s[..|a|] == a && s[|a|] == '-'
    requires s[|a| + 1..|a| + 1 + |b|] == b && s[|a| + 1 + |b|] == '-'
    requires s[|a| + |b| + 2..|a| + |b| + 2 + |c|] == c
    requires |a| + |b| + 2 + |c| == |s| || !IsDigit(s[|a| + |b| + 2 + |c|])
    ensures MatchTileName(s) == Some((a, b, c))
  {
    assert s[0..|a|] == a;
    DigitRunOf(s, 0, a);
    DigitRunOf(s, |a| + 1, b);
    DigitRunOf(s, |a| + |b| + 2, c);
    var n1, n2, n3 := |a|, |b|, |c|;
    MatchTileNameRuns(s, n1, n2, n3);
    SameFields(MatchTileName(s), (s[..n1], s[n1 + 1..n1 + 1 + n2], s[n1 + n2 + 2..n1 + n2 + 2 + n3]), a, b, c);
  }

  /** A digit string d found at position i, and not followed by a digit, is the digit run there. */
  lemma DigitRunOf(s: string, i: nat, d: string)
    requires i + |d| <= |s| && s[i..i + |d|] == d && AllDigits(d)
    requires i + |d| == |s| || !IsDigit(s[i + |d|])
    ensures DigitRun(s, i) == |d|
  {
    DigitRunExact(s, i, |d|);
  }

  /** int() of a string of decimal digits. */
  function DecimalValue(ds: string): nat
    requires AllDigits(ds)
  {
    if |ds| == 0 then 0
    else 10 * DecimalValue(ds[..|ds| - 1]) + (ds[|ds| - 1] as int - '0' as int)
  }

  /** The decimal notation of n, without leading zeros. */
  function ToDecimal(n: nat): (ds: string)
    ensures |ds| > 0 && AllDigits(ds)
    ensures DecimalValue(ds) == n
  {
    var d := ['0' + (n % 10) as char];
    if n < 10 then d
    else
      var ds := ToDecimal(n / 10) + d;
      assert ds[..|ds| - 1] == ToDecimal(n / 10);
      ds
  }

  /** parseString: the three fields as integers, the first moved to the end (z-x-y becomes [x, y, z]). */
  function ParseString(s: string): (r: Result<seq<int>>)
    ensures r.Ok? <==> MatchTileName(s).Some?
    ensures r.Err? ==> r.error == MalformedTile
    ensures r.Ok? ==> var (a, b, c) := MatchTileName(s).value;
      r.value == [DecimalValue(b), DecimalValue(c), DecimalValue(a)]
  {
    match MatchTileName(s)
    case None => Err(MalformedTile)
    case Some((a, b, c)) =>
      var tile := [DecimalValue(a), DecimalValue(b), DecimalValue(c)];
      // tile.append(tile.pop(0))
      Ok(tile[1..] + [tile[0]])
  }

  /** parseString as a sequence of steps: the matched fields as integers, then pop(0) and append. */
  method ParseTile(s: string) returns (r: Result<seq<int>>)
    ensures r == ParseString(s)
  {
    var fields := MatchTileName(s);
    if fields.None? {
      // .group() on the None that match returns
      return Err(MalformedTile);
    }
    var (a, b, c) := fields.value;
    var tile := [DecimalValue(a), DecimalValue(b), DecimalValue(c)];
    var first := tile[0];
    tile := tile[1..];
    tile := tile + [first];
    return Ok(tile);
  }

  /** The name of tile (x, y, z): "z-x-y". */
  function TileName(x: nat, y: nat, z: nat): string {
    ToDecimal(z) + "-" + ToDecimal(x) + "-" + ToDecimal(y)
  }

  /** A name z-x-y, followed by anything but a digit, parses back to [x, y, z]. */
  lemma ParseTileName(x: nat, y: nat, z: nat, rest: string)
    requires |rest| == 0 || !IsDigit(rest[0])
    ensures ParseString(TileName(x, y, z) + rest) == Ok([x, y, z])
  {
    var s := TileName(x, y, z) + rest;
    assert s[..|TileName(x, y, z)|] == TileName(x, y, z);
    MatchTileNameComplete(s, ToDecimal(z), ToDecimal(x), ToDecimal(y));
  }

  /** parseString fails exactly on strings that do not begin with digits-digits-digits. */
  lemma ParseStringFails(s: string)
    ensures ParseString(s).Err? <==> forall a, b, c :: !BeginsWithName(s, a, b, c)
  {
    if ParseString(s).Err? {
      forall a, b, c ensures !BeginsWithName(s, a, b, c) {
        if BeginsWithName(s, a, b, c) {
          MatchTileNameComplete(s, a, b, c);
        }
      }
    } else {
      MatchTileNameSound(s);
    }
  }

  /** The lines given to tile_parser: tile names (parsenames) or already-decoded JSON arrays. */
  datatype TileLines = NameLines(names: seq<string>) | JsonLines(rows: seq<seq<int>>)

  function ParseAll(names: seq<string>): (r: Result<seq<seq<int>>>)
    ensures r.Ok? <==> forall i :: 0 <= i < |names| ==> ParseString(names[i]).Ok?
    ensures r.Err? ==> r.error == MalformedTile
    ensures r.Ok? ==> (|r.value| == |names| &&
      forall i :: 0 <= i < |names| ==> ParseString(names[i]) == Ok(r.value[i]))
  {
    if |names| == 0 then Ok([])
    else
      var head :- ParseString(names[0]);
      var tail :- ParseAll(names[1..]);
      assert forall i :: 1 <= i < |names| ==> names[i] == names[1..][i - 1];
      Ok([head] + tail)
  }

  /** tile_parser: np.array of the parsed lines; a ragged JSON array is rejected. */
  function TileParser(input: TileLines): (r: Result<seq<seq<int>>>)
    ensures input.NameLines? ==>
      (r.Ok? <==> forall i :: 0 <= i < |input.names| ==> MatchTileName(input.names[i]).Some?)
    ensures input.NameLines? && r.Ok? ==> (|r.value| == |input.names| &&
      forall i :: 0 <= i < |input.names| ==> |r.value[i]| == 3 && ParseString(input.names[i]) == Ok(r.value[i]))
    ensures input.JsonLines? ==> r == if Rectangular(input.rows) then Ok(input.rows) else Err(InvalidShape)
  {
    match input
    case NameLines(names) => ParseAll(names)
    case JsonLines(rows) => if Rectangular(rows) then Ok(rows) else Err(InvalidShape)
  }

  // ---------------------------------------------------------------- range and zoom

  /** The inclusive x/y range (xmin, xmax, ymin, ymax) of a tile array. */
  datatype Range = Range(xmin: int, xmax: int, ymin: int, ymax: int)

  /** get_range: column-wise min and max of x and y. */
  function GetRange(tiles: seq<seq<int>>): (r: Result<Range>)
    ensures r.Ok? <==> |tiles| > 0 && forall i :: 0 <= i < |tiles| ==> |tiles[i]| >= 2
    ensures r.Err? ==> r.error == if |tiles| == 0 then EmptyInput else InvalidShape
    ensures r.Ok? ==> r.value.xmin <= r.value.xmax && r.value.ymin <= r.value.ymax
    ensures r.Ok? ==> forall i :: 0 <= i < |tiles| ==>
      r.value.xmin <= tiles[i][0] <= r.value.xmax && r.value.ymin <= tiles[i][1] <= r.value.ymax
    ensures r.Ok? ==>
      (exists i :: 0 <= i < |tiles| && tiles[i][0] == r.value.xmin) &&
      (exists i :: 0 <= i < |tiles| && tiles[i][0] == r.value.xmax) &&
      (exists i :: 0 <= i < |tiles| && tiles[i][1] == r.value.ymin) &&
      (exists i :: 0 <= i < |tiles| && tiles[i][1] == r.value.ymax)
  {
    if |tiles| == 0 then Err(EmptyInput)
    else if exists i :: 0 <= i < |tiles| && |tiles[i]| < 2 then Err(InvalidShape)
    else
      var xs, ys := Column(tiles, 0), Column(tiles, 1);
      Ok(Range(Min(xs), Max(xs), Min(ys), Max(ys)))
  }

  /** get_zoom: the zoom shared by all tiles of a non-empty n x 3 array. */
  function GetZoom(tiles: seq<seq<int>>): (r: Result<int>)
    ensures r.Ok? <==> (|tiles| > 0 && (forall i :: 0 <= i < |tiles| ==> |tiles[i]| == 3) &&
      forall i, j :: 0 <= i < |tiles| && 0 <= j < |tiles| ==> tiles[i][2] == tiles[j][2])
    ensures r.Err? ==> (r.error ==
      if |tiles| == 0 || exists i :: 0 <= i < |tiles| && |tiles[i]| != 3 then InvalidShape else MixedZoom)
    ensures r.Ok? ==> forall i :: 0 <= i < |tiles| ==> tiles[i][2] == r.value
  {
    if |tiles| < 1 || exists i :: 0 <= i < |tiles| && |tiles[i]| != 3 then Err(InvalidShape)
    else
      var zs := Column(tiles, 2);
      if Min(zs) != Max(zs) then Err(MixedZoom) else Ok(tiles[0][2])
  }

  // ---------------------------------------------------------------- occupancy grid

  /** Some tile of the array has column x and row y. */
  ghost predicate HasTile(tiles: seq<seq<int>>, x: int, y: int) {
    exists k :: 0 <= k < |tiles| && |tiles[k]| >= 2 && tiles[k][0] == x && tiles[k][1] == y
  }

  /**
   * burnXYZs: a boolean grid indexed [x - xmin + pad, y - ymin + pad], true
   * exactly at the tiles of the array. The source's pad defaults to 1 (the
   * padded grid of edge finding); union passes 0. Here pad is always given.
   */
  method BurnXYZs(tiles: seq<seq<int>>, xmin: int, xmax: int, ymin: int, ymax: int, pad: nat)
    returns (burn: array2<bool>)
    requires xmax - xmin + 2 * pad + 1 >= 0 && ymax - ymin + 2 * pad + 1 >= 0
    requires forall k :: 0 <= k < |tiles| ==>
      |tiles[k]| >= 2 && xmin <= tiles[k][0] <= xmax && ymin <= tiles[k][1] <= ymax
    ensures burn.Length0 == xmax - xmin + 2 * pad + 1 && burn.Length1 == ymax - ymin + 2 * pad + 1
    ensures forall i, j :: 0 <= i < burn.Length0 && 0 <= j < burn.Length1 ==>
      (burn[i, j] <==> HasTile(tiles, i + xmin - pad, j + ymin - pad))
    ensures forall i, j ::
      (0 <= i < burn.Length0 && 0 <= j < burn.Length1 &&
       (i < pad || i >= burn.Length0 - pad || j < pad || j >= burn.Length1 - pad)) ==> !burn[i, j]
  {
    burn := new bool[xmax - xmin + 2 * pad + 1, ymax - ymin + 2 * pad + 1]((i, j) => false);
    for k := 0 to |tiles|
      invariant forall i, j :: 0 <= i < burn.Length0 && 0 <= j < burn.Length1 ==>
        (burn[i, j] <==> HasTile(tiles[..k], i + xmin - pad, j + ymin - pad))
    {
      burn[tiles[k][0] - xmin + pad, tiles[k][1] - ymin + pad] := true;
      forall i, j | 0 <= i < burn.Length0 && 0 <= j < burn.Length1
        ensures burn[i, j] <==> HasTile(tiles[..k + 1], i + xmin - pad, j + ymin - pad)
      {
        assert tiles[..k + 1] == tiles[..k] + [tiles[k]];
        if HasTile(tiles[..k + 1], i + xmin - pad, j + ymin - pad) {
          var m :| 0 <= m < k + 1 && |tiles[..k + 1][m]| >= 2 &&
            tiles[..k + 1][m][0] == i + xmin - pad && tiles[..k + 1][m][1] == j + ymin - pad;
          if m < k {
            assert tiles[..k][m] == tiles[..k + 1][m];
          }
        }
        if HasTile(tiles[..k], i + xmin - pad, j + ymin - pad) {
          var m :| 0 <= m < k && |tiles[..k][m]| >= 2 &&
            tiles[..k][m][0] == i + xmin - pad && tiles[..k][m][1] == j + ymin - pad;
          assert tiles[..k + 1][m] == tiles[..k][m];
        }
      }
    }
    assert tiles[..|tiles|] == tiles;
  }

  // ---------------------------------------------------------------- neighbour offsets

  /** get_idx: the offsets of the eight neighbours of a cell, in row-major order. */
  function GetIdx(): (r: seq<seq<int>>)
    ensures r == [[-1, -1], [-1, 0], [-1, 1], [0, -1], [0, 1], [1, -1], [1, 0], [1, 1]]
  {
    // tt = zeros((3, 3)); tt[1, 1] = True; the set cells of ~tt, shifted by -1
    var notCentre := seq(3, i => seq(3, j => !(i == 1 && j == 1)));
    assert notCentre == [[true, true, true], [true, false, true], [true, true, true]] by {
      assert notCentre[0] == [true, true, true];
      assert notCentre[1] == [true, false, true];
      assert notCentre[2] == [true, true, true];
    }
    var cells := Where(notCentre);
    assert cells == [Cell(0, 0), Cell(0, 1), Cell(0, 2), Cell(1, 0), Cell(1, 2), Cell(2, 0), Cell(2, 1), Cell(2, 2)] by {
      assert RowCells([true, true, true], 0, 0) == [Cell(0, 0), Cell(0, 1), Cell(0, 2)];
      assert RowCells([true, false, true], 1, 0) == [Cell(1, 0), Cell(1, 2)];
      assert RowCells([true, true, true], 2, 0) == [Cell(2, 0), Cell(2, 1), Cell(2, 2)];
      assert WhereFrom(notCentre, 3) == [];
      assert WhereFrom(notCentre, 2) == RowCells(notCentre[2], 2, 0) + WhereFrom(notCentre, 3);
      assert WhereFrom(notCentre, 1) == RowCells(notCentre[1], 1, 0) + WhereFrom(notCentre, 2);
      assert WhereFrom(notCentre, 0) == RowCells(notCentre[0], 0, 0) + WhereFrom(notCentre, 1);
    }
    seq(|cells|, k requires 0 <= k < |cells| => [cells[k].row - 1, cells[k].col - 1])
  }

  /** The offsets are exactly the eight non-zero vectors of {-1, 0, 1} x {-1, 0, 1}. */
  lemma GetIdxIsNeighbourhood()
    ensures forall dx, dy :: [dx, dy] in GetIdx() <==> -1 <= dx <= 1 && -1 <= dy <= 1 && (dx != 0 || dy != 0)
  {
  }

  // ---------------------------------------------------------------- feature flattening

  /** What filter_features yields for one feature. */
  function FeatureParts(f: Feature): seq<Feature> {
    match f.geometry
    case None => []
    case Some(g) =>
      match g
      case Polygon(_) => [f]
      case Point(_) => [f]
      case LineString(_) => [f]
      case MultiPolygon(parts) =>
        seq(|parts|, k requires 0 <= k < |parts| => Feature(Some(Polygon(parts[k])), None))
      case MultiPoint(parts) =>
        seq(|parts|, k requires 0 <= k < |parts| => Feature(Some(Point(parts[k])), None))
      case MultiLineString(parts) =>
        seq(|parts|, k requires 0 <= k < |parts| => Feature(Some(LineString(parts[k])), None))
      case _ => []
  }

  /** The whole stream filter_features yields, feature by feature. */
  function Flattened(fs: seq<Feature>): seq<Feature> {
    if |fs| == 0 then [] else FeatureParts(fs[0]) + Flattened(fs[1..])
  }

  lemma {:induction false} FlattenedAppend(a: seq<Feature>, b: seq<Feature>)
    ensures Flattened(a + b) == Flattened(a) + Flattened(b)
  {
    if |a| == 0 {
      assert a + b == b;
    } else {
      assert (a + b)[1..] == a[1..] + b;
      FlattenedAppend(a[1..], b);
    }
  }

  /** The body of filter_features' loop for one feature: what it yields, part by part. */
  method YieldParts(f: Feature) returns (parts: seq<Feature>)
    ensures parts == FeatureParts(f)
  {
    parts := [];
    if f.geometry.Some? && !f.geometry.value.Untyped? {
      match f.geometry.value {
        case Polygon(_) =>
          parts := [f];
        case Point(_) =>
          parts := [f];
        case LineString(_) =>
          parts := [f];
        case MultiPolygon(coords) =>
          for j := 0 to |coords|
            invariant parts == seq(j, k requires 0 <= k < j => Feature(Some(Polygon(coords[k])), None))
          {
            parts := parts + [Feature(Some(Polygon(coords[j])), None)];
          }
        case MultiPoint(coords) =>
          for j := 0 to |coords|
            invariant parts == seq(j, k requires 0 <= k < j => Feature(Some(Point(coords[k])), None))
          {
            parts := parts + [Feature(Some(Point(coords[j])), None)];
          }
        case MultiLineString(coords) =>
          for j := 0 to |coords|
            invariant parts == seq(j, k requires 0 <= k < j => Feature(Some(LineString(coords[k])), None))
          {
            parts := parts + [Feature(Some(LineString(coords[j])), None)];
          }
        case _ =>
      }
    }
  }

  /** filter_features: the loop over features, yielding each part of a multi-part geometry. */
  method FilterFeatures(features: seq<Feature>) returns (out: seq<Feature>)
    ensures out == Flattened(features)
  {
    out := [];
    for i := 0 to |features|
      invariant out == Flattened(features[..i])
    {
      var f := features[i];
      var parts := YieldParts(f);
      out := out + parts;
      assert features[..i + 1] == features[..i] + [f];
      FlattenedAppend(features[..i], [f]);
      assert Flattened([f]) == FeatureParts(f) by {
        assert [f][1..] == [];
      }
    }
    assert features[..|features|] == features;
  }

  /** Every feature filter_features yields has a Point, LineString or Polygon geometry. */
  lemma {:induction false} FlattenedAreSingle(fs: seq<Feature>)
    ensures forall k :: 0 <= k < |Flattened(fs)| ==> HasSingleGeometry(Flattened(fs)[k])
  {
    if |fs| > 0 {
      FlattenedAreSingle(fs[1..]);
      var p, rest := FeatureParts(fs[0]), Flattened(fs[1..]);
      forall k | 0 <= k < |p + rest| ensures HasSingleGeometry((p + rest)[k]) {
        if k >= |p| {
          assert (p + rest)[k] == rest[k - |p|];
        }
      }
    }
  }

  /** Features that already have a single-part geometry pass through unchanged and in order. */
  lemma {:induction false} FlattenedKeepsSingle(fs: seq<Feature>)
    requires forall k :: 0 <= k < |fs| ==> HasSingleGeometry(fs[k])
    ensures Flattened(fs) == fs
  {
    if |fs| > 0 {
      FlattenedKeepsSingle(fs[1..]);
      assert [fs[0]] + fs[1..] == fs;
    }
  }

  /** Filtering twice yields what filtering once yields. */
  lemma FlattenedIdempotent(fs: seq<Feature>)
    ensures Flattened(Flattened(fs)) == Flattened(fs)
  {
    FlattenedAreSingle(fs);
    FlattenedKeepsSingle(Flattened(fs));
  }
}
