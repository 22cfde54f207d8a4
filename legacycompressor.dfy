/**
 * The older map codec (js/mapcompressor.js): four cumulative compression
 * levels over the data Map.exportData produces.
 *   level 1  short property names, the tile rows flattened into one list
 *   level 2  every tile, building and unit record replaced by an array of its fields
 *   level 3  everything written into one string: width|height|tiles|buildings|units,
 *            records separated by '-', fields by ','
 * compress applies the levels up to the requested one, decompress undoes
 * them in the reverse order.
 *
 * Renaming a property does not change a value, so a record under its short
 * names is the same Dafny value as under its long ones; the JSON-like
 * objects are datatypes holding the fields the codec copies.
 */
module LegacyCompressor {
  import opened Wrappers
  import opened JsText
  import opened Seqs

  datatype TileData = TileData(typ: int, lightSfx: int)
  datatype BuildingData = BuildingData(x: int, y: int, typ: int, player: int)
  datatype UnitData = UnitData(x: int, y: int, direction: int, typ: int, player: int)

  /** Map.exportData: the tile rows, the buildings and the units. */
  datatype MapData = MapData(tiles: seq<seq<TileData>>, buildings: seq<BuildingData>, units: seq<UnitData>)

  /** Level 1: the tiles in one list ({t, l}), buildings {x, y, t, p}, units {x, y, d, t, p}. */
  datatype Level1 = Level1(width: int, height: int, tiles: seq<TileData>, buildings: seq<BuildingData>, units: seq<UnitData>)

  /** An array element at level 2: a number, or the string level 3 decoding leaves there. */
  datatype Field = Num(n: int) | Text(s: JsString)

  /** Level 2: every record an array of fields. */
  datatype Level2 = Level2(width: int, height: int, tiles: seq<seq<Field>>, buildings: seq<seq<Field>>, units: seq<seq<Field>>)

  /** What compress returns and decompress accepts, at the four levels. */
  datatype Payload = Exported(data: MapData) | Shortened(short: Level1) | Arrays(arrays: Level2) | Packed(text: JsString)

  datatype Failure =
    | NoTiles        // mapTiles[0].length on a map without tile rows
    | MissingTile    // a tile row shorter than the first one
    | NotANumber     // parseInt gave NaN
    | MissingSection // a level-3 string with fewer than three '|'-separated parts
    | Diverges       // spliceTiles with a width of at most 0 and tiles left: the while loop never ends
    | WrongPayload   // a payload of another level than the one decompress is told

  const Pipe: CodeUnit := 124
  const Dash: CodeUnit := 45
  const Comma: CodeUnit := 44

  // ---------------------------------------------------------------- level 1

  /**
   * compressLevel1's tile loops: the rows from the last to the first, each
   * row's first `cols` tiles from the last to the first.
   */
  function RevRows(rows: seq<seq<TileData>>, cols: nat): seq<TileData>
    requires forall j :: 0 <= j < |rows| ==> |rows[j]| >= cols
  {
    if rows == [] then [] else RevRows(rows[1..], cols) + Reverse(rows[0][..cols])
  }

  /** compressLevel1: the width is the length of the first row, the height the number of rows. */
  function Shorten(m: MapData): (r: Result<Level1, Failure>)
    ensures r.Ok? <==> m.tiles != [] && forall j :: 0 <= j < |m.tiles| ==> |m.tiles[j]| >= |m.tiles[0]|
    ensures r.Ok? ==> r.value.width == |m.tiles[0]| && r.value.height == |m.tiles|
    ensures r.Ok? ==> r.value.buildings == Reverse(m.buildings) && r.value.units == Reverse(m.units)
  {
    if m.tiles == [] then Err(NoTiles)
    else
      var cols := |m.tiles[0]|;
      if exists j :: 0 <= j < |m.tiles| && |m.tiles[j]| < cols then Err(MissingTile)
      else Ok(Level1(cols, |m.tiles|, RevRows(m.tiles, cols), Reverse(m.buildings), Reverse(m.units)))
  }

  /** spliceTiles before its final reverse: runs of `cols` tiles, the last one possibly shorter. */
  function Chunks(tiles: seq<TileData>, cols: int): (r: seq<seq<TileData>>)
    requires cols > 0 || tiles == []
    ensures forall k :: 0 <= k < |r| ==> 0 < |r[k]| <= cols
    decreases |tiles|
  {
    if tiles == [] then []
    else if |tiles| <= cols then [tiles]
    else [tiles[..cols]] + Chunks(tiles[cols..], cols)
  }

  /** decompressLevel1Tiles: the rows of spliceTiles, each reversed back. */
  function Rows(tiles: seq<TileData>, cols: int): (r: Result<seq<seq<TileData>>, Failure>)
    ensures r.Err? <==> cols <= 0 && tiles != []
  {
    if cols <= 0 && tiles != [] then Err(Diverges)
    else Ok(ReverseRows(Reverse(Chunks(tiles, cols))))
  }

  /** decompressLevel1: the tile rows back, the buildings and units reversed back. */
  function Lengthen(l: Level1): (r: Result<MapData, Failure>)
    ensures r.Err? <==> l.width <= 0 && l.tiles != []
    ensures r.Ok? ==> r.value.buildings == Reverse(l.buildings) && r.value.units == Reverse(l.units)
  {
    match Rows(l.tiles, l.width)
    case Err(e) => Err(e)
    case Ok(rows) => Ok(MapData(rows, Reverse(l.buildings), Reverse(l.units)))
  }

  // ---------------------------------------------------------------- level 2

  function TileFields(t: TileData): seq<Field> {
    [Num(t.typ), Num(t.lightSfx)]
  }

  function BuildingFields(b: BuildingData): seq<Field> {
    [Num(b.x), Num(b.y), Num(b.typ), Num(b.player)]
  }

  function UnitFields(u: UnitData): seq<Field> {
    [Num(u.x), Num(u.y), Num(u.direction), Num(u.typ), Num(u.player)]
  }

  /** compressLevel2: each list of records becomes the reversed list of their field arrays. */
  function Tabulate(l: Level1): (r: Level2)
    ensures r.width == l.width && r.height == l.height
    ensures |r.tiles| == |l.tiles| && |r.buildings| == |l.buildings| && |r.units| == |l.units|
  {
    Level2(l.width, l.height,
           Reverse(Map(TileFields, l.tiles)), Reverse(Map(BuildingFields, l.buildings)), Reverse(Map(UnitFields, l.units)))
  }

  /** The string JavaScript converts a field to, in parseInt and in join. */
  function FieldText(f: Field): JsString {
    match f
    case Num(n) => NumberText(n)
    case Text(s) => s
  }

  /** `parseInt(record[k], 10)`; a missing element is undefined, which parses to NaN. */
  function FieldAt(record: seq<Field>, k: nat): (r: Option<int>)
    ensures k >= |record| ==> r.None?
  {
    if k < |record| then ParseInt(FieldText(record[k])) else None
  }

  function TileOf(record: seq<Field>): Option<TileData> {
    match (FieldAt(record, 0), FieldAt(record, 1))
    case (Some(t), Some(l)) => Some(TileData(t, l))
    case _ => None
  }

  function BuildingOf(record: seq<Field>): Option<BuildingData> {
    match (FieldAt(record, 0), FieldAt(record, 1), FieldAt(record, 2), FieldAt(record, 3))
    case (Some(x), Some(y), Some(t), Some(p)) => Some(BuildingData(x, y, t, p))
    case _ => None
  }

  function UnitOf(record: seq<Field>): Option<UnitData> {
    match (FieldAt(record, 0), FieldAt(record, 1), FieldAt(record, 2), FieldAt(record, 3), FieldAt(record, 4))
    case (Some(x), Some(y), Some(d), Some(t), Some(p)) => Some(UnitData(x, y, d, t, p))
    case _ => None
  }

  /** decompressLevel2: each list reversed back, each array parsed field by field. */
  function Untabulate(l: Level2): (r: Result<Level1, Failure>)
    ensures r.Ok? ==> r.value.width == l.width && r.value.height == l.height
    ensures r.Ok? ==> |r.value.tiles| == |l.tiles| && |r.value.buildings| == |l.buildings| && |r.value.units| == |l.units|
  {
    match (AllSome(Reverse(Map(TileOf, l.tiles))), AllSome(Reverse(Map(BuildingOf, l.buildings))),
           AllSome(Reverse(Map(UnitOf, l.units))))
    case (Some(tiles), Some(buildings), Some(units)) => Ok(Level1(l.width, l.height, tiles, buildings, units))
    case _ => Err(NotANumber)
  }

  // ---------------------------------------------------------------- level 3

  /** `record.join(',')`. */
  function RecordText(record: seq<Field>): JsString {
    Join(Map(FieldText, record), Comma)
  }

  /** compressLevel3: `[width, height, tiles, buildings, units].join('|')`, records joined by '-'. */
  function Pack(l: Level2): JsString {
    Join([NumberText(l.width), NumberText(l.height), Join(Map(RecordText, l.tiles), Dash),
          Join(Map(RecordText, l.buildings), Dash), Join(Map(RecordText, l.units), Dash)], Pipe)
  }

  function AsText(s: JsString): Field {
    Text(s)
  }

  /** `record.split(',')`: the fields, as strings. */
  function Fields(record: JsString): seq<Field> {
    Map(AsText, Split(record, Comma))
  }

  /** The records of one '|' part; an empty or missing buildings or units part is no record at all. */
  function Records(part: JsString): seq<seq<Field>> {
    if part == [] then [] else Map(Fields, Split(part, Dash))
  }

  /** decompressLevel3. */
  function Unpack(s: JsString): (r: Result<Level2, Failure>)
    ensures r.Ok? ==> |Split(s, Pipe)| >= 3
    ensures r.Ok? && (|Split(s, Pipe)| <= 3 || Split(s, Pipe)[3] == []) ==> r.value.buildings == []
    ensures r.Ok? && (|Split(s, Pipe)| <= 4 || Split(s, Pipe)[4] == []) ==> r.value.units == []
  {
    var parts := Split(s, Pipe);
    if |parts| < 3 then Err(MissingSection)
    else
      match (ParseInt(parts[0]), ParseInt(parts[1]))
      case (Some(width), Some(height)) =>
        Ok(Level2(width, height, Map(Fields, Split(parts[2], Dash)),
                  if |parts| > 3 then Records(parts[3]) else [],
                  if |parts| > 4 then Records(parts[4]) else []))
      case _ => Err(NotANumber)
  }

  // ---------------------------------------------------------------- the levels together

  /** compress: the levels up to `level`, one after another. */
  function Compression(m: MapData, level: int): (r: Result<Payload, Failure>)
    ensures level <= 0 ==> r == Ok(Exported(m))
    ensures level > 0 ==> (r.Ok? <==> Shorten(m).Ok?)
    ensures r.Ok? && level == 1 ==> r.value.Shortened?
    ensures r.Ok? && level == 2 ==> r.value.Arrays?
    ensures r.Ok? && level >= 3 ==> r.value.Packed?
  {
    if level <= 0 then Ok(Exported(m))
    else
      match Shorten(m)
      case Err(e) => Err(e)
      case Ok(short) =>
        if level == 1 then Ok(Shortened(short))
        else if level == 2 then Ok(Arrays(Tabulate(short)))
        else Ok(Packed(Pack(Tabulate(short))))
  }

  function UndoLevel3(p: Payload): Result<Payload, Failure> {
    match p
    case Packed(s) => (match Unpack(s) case Ok(l) => Ok(Arrays(l)) case Err(e) => Err(e))
    case _ => Err(WrongPayload)
  }

  function UndoLevel2(p: Payload): Result<Payload, Failure> {
    match p
    case Arrays(l) => (match Untabulate(l) case Ok(short) => Ok(Shortened(short)) case Err(e) => Err(e))
    case _ => Err(WrongPayload)
  }

  function UndoLevel1(p: Payload): Result<Payload, Failure> {
    match p
    case Shortened(short) => (match Lengthen(short) case Ok(m) => Ok(Exported(m)) case Err(e) => Err(e))
    case _ => Err(WrongPayload)
  }

  function Then(r: Result<Payload, Failure>, cond: bool, undo: Payload -> Result<Payload, Failure>): Result<Payload, Failure> {
    if !cond then r
    else match r
      case Err(e) => Err(e)
      case Ok(p) => undo(p)
  }

  /** decompress: the levels above 2, 1 and 0 undone, in that order. */
  function Decompression(p: Payload, level: int): (r: Result<Payload, Failure>)
    ensures level <= 0 ==> r == Ok(p)
    ensures level > 0 && r.Ok? ==> r.value.Exported?
  {
    Then(Then(Then(Ok(p), level > 2, UndoLevel3), level > 1, UndoLevel2), level > 0, UndoLevel1)
  }

  // ---------------------------------------------------------------- the loops

  /** `for (i = xs.length; i--;) out.push(copy of xs[i])`: a record copied under its other names. */
  method CopyReversed<T>(xs: seq<T>) returns (out: seq<T>)
    ensures out == Reverse(xs)
  {
    out := [];
    var i := |xs|;
    while i > 0
      invariant 0 <= i <= |xs|
      invariant out == Reverse(xs[i..])
    {
      i := i - 1;
      assert xs[i..][1..] == xs[i + 1..];
      out := out + [xs[i]];
    }
    assert xs[0..] == xs;
  }

  /** `for (i = xs.length; i--;) out.push(f(xs[i]))`. */
  method PushReversed<A, B>(f: A -> B, xs: seq<A>) returns (out: seq<B>)
    ensures out == Reverse(Map(f, xs))
  {
    out := [];
    var i := |xs|;
    while i > 0
      invariant 0 <= i <= |xs|
      invariant out == Reverse(Map(f, xs[i..]))
    {
      i := i - 1;
      assert xs[i..][1..] == xs[i + 1..];
      out := out + [f(xs[i])];
    }
    assert xs[0..] == xs;
  }

  /** `for (i = xs.length; i--;) xs[i] = f(xs[i])`: every element replaced, the last first. */
  method Overwrite<A, B>(f: A -> B, xs: seq<A>) returns (ys: seq<B>)
    ensures ys == Map(f, xs)
  {
    ys := [];
    var i := |xs|;
    while i > 0
      invariant 0 <= i <= |xs|
      invariant ys == Map(f, xs[i..])
    {
      i := i - 1;
      assert xs[i..][1..] == xs[i + 1..];
      ys := [f(xs[i])] + ys;
    }
    assert xs[0..] == xs;
  }

  /** compressLevel1Buildings. */
  method CompressLevel1Buildings(mapBuildings: seq<BuildingData>) returns (buildings: seq<BuildingData>)
    ensures buildings == Reverse(mapBuildings)
  {
    buildings := CopyReversed(mapBuildings);
  }

  /** compressLevel1: a row shorter than the first one fails at its first missing tile. */
  method CompressLevel1(m: MapData) returns (r: Result<Level1, Failure>)
    ensures r == Shorten(m)
  {
    var mapTiles := m.tiles;
    if |mapTiles| == 0 {
      return Err(NoTiles);
    }
    var rowCount := |mapTiles|;
    var colCount := |mapTiles[0]|;
    var tiles: seq<TileData> := [];
    var j := rowCount;
    while j > 0
      invariant 0 <= j <= rowCount
      invariant forall k :: j <= k < rowCount ==> |mapTiles[k]| >= colCount
      invariant tiles == RevRows(mapTiles[j..], colCount)
    {
      j := j - 1;
      var mapTilesRow := mapTiles[j];
      if |mapTilesRow| < colCount {
        return Err(MissingTile);
      }
      tiles := PushRow(tiles, mapTilesRow, colCount);
      assert mapTiles[j..][1..] == mapTiles[j + 1..];
    }
    assert mapTiles[0..] == mapTiles;
    var buildings := CompressLevel1Buildings(m.buildings);
    var units := CopyReversed(m.units);
    return Ok(Level1(colCount, rowCount, tiles, buildings, units));
  }

  /** compressLevel1's inner loop: the first `cols` tiles of a row pushed from the last to the first. */
  method PushRow(tiles: seq<TileData>, row: seq<TileData>, cols: nat) returns (out: seq<TileData>)
    requires |row| >= cols
    ensures out == tiles + Reverse(row[..cols])
  {
    out := tiles;
    var i := cols;
    while i > 0
      invariant 0 <= i <= cols
      invariant out == tiles + Reverse(row[i..cols])
    {
      i := i - 1;
      assert row[i..cols][1..] == row[i + 1..cols];
      out := out + [row[i]];
    }
    assert row[0..cols] == row[..cols];
  }

  /** compressLevel2. */
  method CompressLevel2(l: Level1) returns (r: Level2)
    ensures r == Tabulate(l)
  {
    var tiles := PushReversed(TileFields, l.tiles);
    var buildings := PushReversed(BuildingFields, l.buildings);
    var units := PushReversed(UnitFields, l.units);
    return Level2(l.width, l.height, tiles, buildings, units);
  }

  /** compressLevel3: each record joined in place, then the parts joined. */
  method CompressLevel3(l: Level2) returns (s: JsString)
    ensures s == Pack(l)
  {
    var tiles := Overwrite(RecordText, l.tiles);
    var buildings := Overwrite(RecordText, l.buildings);
    var units := Overwrite(RecordText, l.units);
    s := Join([NumberText(l.width), NumberText(l.height), Join(tiles, Dash), Join(buildings, Dash), Join(units, Dash)], Pipe);
  }

  /** decompressLevel3: the parts split, each record split in place. */
  method DecompressLevel3(s: JsString) returns (r: Result<Level2, Failure>)
    ensures r == Unpack(s)
  {
    var parts := Split(s, Pipe);
    if |parts| < 3 {
      return Err(MissingSection);
    }
    var tiles := Overwrite(Fields, Split(parts[2], Dash));
    var buildings: seq<seq<Field>> := [];
    if |parts| > 3 && parts[3] != [] {
      buildings := Overwrite(Fields, Split(parts[3], Dash));
    }
    var units: seq<seq<Field>> := [];
    if |parts| > 4 && parts[4] != [] {
      units := Overwrite(Fields, Split(parts[4], Dash));
    }
    var width, height := ParseInt(parts[0]), ParseInt(parts[1]);
    if width.None? || height.None? {
      return Err(NotANumber);
    }
    return Ok(Level2(width.value, height.value, tiles, buildings, units));
  }

  /** decompressLevel2: the arrays parsed back into records, each list reversed back. */
  method DecompressLevel2(l: Level2) returns (r: Result<Level1, Failure>)
    ensures r == Untabulate(l)
  {
    var tiles := PushReversed(TileOf, l.tiles);
    var buildings := PushReversed(BuildingOf, l.buildings);
    var units := PushReversed(UnitOf, l.units);
    match (AllSome(tiles), AllSome(buildings), AllSome(units))
    case (Some(t), Some(b), Some(u)) => return Ok(Level1(l.width, l.height, t, b, u));
    case _ => return Err(NotANumber);
  }

  /** spliceTiles: runs of `cols` tiles cut from the front while any remain, then reversed. */
  method SpliceTiles(tiles: seq<TileData>, cols: int) returns (r: Result<seq<seq<TileData>>, Failure>)
    ensures cols <= 0 && tiles != [] ==> r == Err(Diverges)
    ensures cols > 0 || tiles == [] ==> r == Ok(Reverse(Chunks(tiles, cols)))
  {
    if cols <= 0 && tiles != [] {
      return Err(Diverges);
    }
    var rows: seq<seq<TileData>> := [];
    var rest := tiles;
    while |rest| > 0
      invariant cols > 0 || rest == []
      invariant rows + Chunks(rest, cols) == Chunks(tiles, cols)
      decreases |rest|
    {
      var k := if cols < |rest| then cols else |rest|;
      if |rest| <= cols {
        assert Chunks(rest, cols) == [rest];
        assert rest[..k] == rest;
      } else {
        assert Chunks(rest, cols) == [rest[..k]] + Chunks(rest[k..], cols);
      }
      rows := rows + [rest[..k]];
      rest := rest[k..];
    }
    assert rows + [] == rows;
    return Ok(Reverse(rows));
  }

  /** decompressLevel1Tiles: the spliced rows, each reversed in place. */
  method DecompressLevel1Tiles(l: Level1) returns (r: Result<seq<seq<TileData>>, Failure>)
    ensures r == Rows(l.tiles, l.width)
  {
    var spliced := SpliceTiles(l.tiles, l.width);
    if spliced.Err? {
      return spliced;
    }
    var rows := spliced.value;
    var i := |rows|;
    while i > 0
      invariant 0 <= i <= |rows| == |spliced.value|
      invariant forall j :: 0 <= j < i ==> rows[j] == spliced.value[j]
      invariant forall j :: i <= j < |rows| ==> rows[j] == Reverse(spliced.value[j])
    {
      i := i - 1;
      var row := CopyReversed(rows[i]);
      rows := rows[i := row];
    }
    assert rows == ReverseRows(spliced.value);
    return Ok(rows);
  }

  /**
   * decompressLevel1: the buildings and the units reversed in place; the
   * loops that copy each record under its long names leave its values as they are.
   */
  method DecompressLevel1(l: Level1) returns (r: Result<MapData, Failure>)
    ensures r == Lengthen(l)
  {
    var tiles := DecompressLevel1Tiles(l);
    if tiles.Err? {
      return Err(tiles.error);
    }
    return Ok(MapData(tiles.value, Reverse(l.buildings), Reverse(l.units)));
  }

  /** compress. */
  method Compress(m: MapData, level: int) returns (r: Result<Payload, Failure>)
    ensures r == Compression(m, level)
  {
    if level <= 0 {
      return Ok(Exported(m));
    }
    var short := CompressLevel1(m);
    if short.Err? {
      return Err(short.error);
    }
    if level == 1 {
      return Ok(Shortened(short.value));
    }
    var arrays := CompressLevel2(short.value);
    if level == 2 {
      return Ok(Arrays(arrays));
    }
    var text := CompressLevel3(arrays);
    return Ok(Packed(text));
  }

  /** decompress: the levels undone from the top, a payload of another level refused. */
  method Decompress(p: Payload, level: int) returns (r: Result<Payload, Failure>)
    ensures r == Decompression(p, level)
  {
    r := Ok(p);
    if level > 2 {
      r := UndoStep3(p);
    }
    if level > 1 && r.Ok? {
      r := UndoStep2(r.value);
    }
    if level > 0 && r.Ok? {
      r := UndoStep1(r.value);
    }
  }

  method UndoStep3(p: Payload) returns (r: Result<Payload, Failure>)
    ensures r == UndoLevel3(p)
  {
    if !p.Packed? {
      return Err(WrongPayload);
    }
    var arrays := DecompressLevel3(p.text);
    r := if arrays.Ok? then Ok(Arrays(arrays.value)) else Err(arrays.error);
  }

  method UndoStep2(p: Payload) returns (r: Result<Payload, Failure>)
    ensures r == UndoLevel2(p)
  {
    if !p.Arrays? {
      return Err(WrongPayload);
    }
    var short := DecompressLevel2(p.arrays);
    r := if short.Ok? then Ok(Shortened(short.value)) else Err(short.error);
  }

  method UndoStep1(p: Payload) returns (r: Result<Payload, Failure>)
    ensures r == UndoLevel1(p)
  {
    if !p.Shortened? {
      return Err(WrongPayload);
    }
    var m := DecompressLevel1(p.short);
    r := if m.Ok? then Ok(Exported(m.value)) else Err(m.error);
  }

  // ---------------------------------------------------------------- level 1 lemmas

  /** compressLevel1's tile loops flatten a rectangular map and reverse the result. */
  lemma {:induction false} RevRowsFlatten(rows: seq<seq<TileData>>, cols: nat)
    requires Rectangular(rows, cols)
    ensures RevRows(rows, cols) == Reverse(Flatten(rows))
  {
    if rows != [] {
      RevRowsFlatten(rows[1..], cols);
      assert rows[0][..cols] == rows[0];
      ReverseAppend(rows[0], Flatten(rows[1..]));
    }
  }

  /** spliceTiles cuts a flattened rectangular list back into its rows. */
  lemma {:induction false} ChunksFlatten(rows: seq<seq<TileData>>, cols: int)
    requires cols > 0 && Rectangular(rows, cols)
    ensures Chunks(Flatten(rows), cols) == rows
  {
    if rows != [] {
      var f := Flatten(rows);
      if |rows| == 1 {
        assert rows[1..] == [];
        assert Flatten(rows[1..]) == [];
        assert f == rows[0] + [];
        assert f == rows[0];
        assert |rows[0]| == cols;
        assert rows == [rows[0]];
      } else {
        assert Flatten(rows[1..]) == rows[1] + Flatten(rows[2..]);
        assert f[..cols] == rows[0];
        assert f[cols..] == Flatten(rows[1..]);
        ChunksFlatten(rows[1..], cols);
      }
    }
  }

  /** decompressLevel1Tiles gives back the rows compressLevel1 flattened. */
  lemma TilesBack(rows: seq<seq<TileData>>, cols: int)
    requires cols > 0 && Rectangular(rows, cols)
    ensures Rows(Reverse(Flatten(rows)), cols) == Ok(rows)
  {
    var mirrored := Reverse(ReverseRows(rows));
    RevFlatten(rows);
    MirroredRectangular(rows, cols);
    ChunksFlatten(mirrored, cols);
    ReverseReverse(ReverseRows(rows));
    MapReverseTwice(rows);
  }

  lemma MirroredRectangular(rows: seq<seq<TileData>>, cols: int)
    requires Rectangular(rows, cols)
    ensures Rectangular(Reverse(ReverseRows(rows)), cols)
  {
  }

  // ---------------------------------------------------------------- round trips

  /** A rectangular map with at least one column: what Map.exportData writes. */
  predicate Exportable(m: MapData) {
    m.tiles != [] && |m.tiles[0]| > 0 && Rectangular(m.tiles, |m.tiles[0]|)
  }

  /** Level 1 flattens the tiles fully reversed and reverses the buildings and the units. */
  lemma ShortenExported(m: MapData)
    requires Exportable(m)
    ensures Shorten(m) == Ok(Level1(|m.tiles[0]|, |m.tiles|, Reverse(Flatten(m.tiles)), Reverse(m.buildings), Reverse(m.units)))
  {
    RevRowsFlatten(m.tiles, |m.tiles[0]|);
  }

  /** decompressLevel1 undoes compressLevel1. */
  lemma Level1RoundTrip(m: MapData)
    requires Exportable(m)
    ensures Shorten(m).Ok? && Lengthen(Shorten(m).value) == Ok(m)
  {
    ShortenExported(m);
    TilesBack(m.tiles, |m.tiles[0]|);
    ReverseReverse(m.buildings);
    ReverseReverse(m.units);
  }

  lemma TileBack(t: TileData)
    ensures TileOf(TileFields(t)) == Some(t)
  {
    ParseNumber(t.typ);
    ParseNumber(t.lightSfx);
  }

  lemma BuildingBack(b: BuildingData)
    ensures BuildingOf(BuildingFields(b)) == Some(b)
  {
    ParseNumber(b.x);
    ParseNumber(b.y);
    ParseNumber(b.typ);
    ParseNumber(b.player);
  }

  lemma UnitBack(u: UnitData)
    ensures UnitOf(UnitFields(u)) == Some(u)
  {
    ParseNumber(u.x);
    ParseNumber(u.y);
    ParseNumber(u.direction);
    ParseNumber(u.typ);
    ParseNumber(u.player);
  }

  /** Parsing the reversed arrays of the reversed records gives the records back. */
  lemma ParseAll<A>(parse: seq<Field> -> Option<A>, fields: A -> seq<Field>, xs: seq<A>)
    requires forall x :: parse(fields(x)) == Some(x)
    ensures AllSome(Reverse(Map(parse, Reverse(Map(fields, xs))))) == Some(xs)
  {
    MapReverse(parse, Map(fields, xs));
    ReverseReverse(Map(parse, Map(fields, xs)));
    ParseEach(parse, fields, xs);
  }

  lemma {:induction false} ParseEach<A>(parse: seq<Field> -> Option<A>, fields: A -> seq<Field>, xs: seq<A>)
    requires forall x :: parse(fields(x)) == Some(x)
    ensures AllSome(Map(parse, Map(fields, xs))) == Some(xs)
  {
    if xs != [] {
      ParseEach(parse, fields, xs[1..]);
      assert Map(fields, xs)[1..] == Map(fields, xs[1..]);
      assert xs == [xs[0]] + xs[1..];
    }
  }

  /** decompressLevel2 undoes compressLevel2. */
  lemma Level2RoundTrip(l: Level1)
    ensures Untabulate(Tabulate(l)) == Ok(l)
  {
    forall t { TileBack(t); }
    forall b { BuildingBack(b); }
    forall u { UnitBack(u); }
    ParseAll(TileOf, TileFields, l.tiles);
    ParseAll(BuildingOf, BuildingFields, l.buildings);
    ParseAll(UnitOf, UnitFields, l.units);
  }

  // ---------------------------------------------------------------- level 3 round trip

  /** Records of at least one field, every field a non-negative number: digits only once written. */
  predicate Plain(records: seq<seq<Field>>) {
    forall i :: 0 <= i < |records| ==> PlainRecord(records[i])
  }

  predicate PlainRecord(record: seq<Field>) {
    record != [] && forall k :: 0 <= k < |record| ==> record[k].Num? && record[k].n >= 0
  }

  /** Level 2 holds the tiles as [t, l], the buildings as [x, y, t, p] and the units as [x, y, d, t, p], in reverse order. */
  lemma TabulatedRecords(l: Level1)
    ensures forall i :: 0 <= i < |l.tiles| ==> Tabulate(l).tiles[i] == [Num(l.tiles[|l.tiles| - 1 - i].typ), Num(l.tiles[|l.tiles| - 1 - i].lightSfx)]
    ensures forall i :: 0 <= i < |l.buildings| ==> Tabulate(l).buildings[i] == BuildingFields(l.buildings[|l.buildings| - 1 - i])
    ensures forall i :: 0 <= i < |l.units| ==> Tabulate(l).units[i] == UnitFields(l.units[|l.units| - 1 - i])
  {
    var a := Tabulate(l);
    forall i | 0 <= i < |l.tiles| ensures a.tiles[i] == TileFields(l.tiles[|l.tiles| - 1 - i]) {
      assert a.tiles[i] == Map(TileFields, l.tiles)[|l.tiles| - 1 - i];
    }
    forall i | 0 <= i < |l.buildings| ensures a.buildings[i] == BuildingFields(l.buildings[|l.buildings| - 1 - i]) {
      assert a.buildings[i] == Map(BuildingFields, l.buildings)[|l.buildings| - 1 - i];
    }
    forall i | 0 <= i < |l.units| ensures a.units[i] == UnitFields(l.units[|l.units| - 1 - i]) {
      assert a.units[i] == Map(UnitFields, l.units)[|l.units| - 1 - i];
    }
  }

  /** A field as decompressLevel3 leaves it: the string it was written as. */
  function TextField(f: Field): Field {
    Text(FieldText(f))
  }

  function TextRecord(record: seq<Field>): seq<Field> {
    Map(TextField, record)
  }

  /** The arrays with every field turned into its text. */
  function AsTexts(l: Level2): Level2 {
    Level2(l.width, l.height, Map(TextRecord, l.tiles), Map(TextRecord, l.buildings), Map(TextRecord, l.units))
  }

  /** A record of plain fields: split at ',' gives its fields back, and it holds no '-' or '|'. */
  lemma RecordTextBack(record: seq<Field>)
    requires PlainRecord(record)
    ensures Split(RecordText(record), Comma) == Map(FieldText, record)
    ensures Dash !in RecordText(record) && Pipe !in RecordText(record) && RecordText(record) != []
  {
    var parts := Map(FieldText, record);
    assert forall k :: 0 <= k < |parts| ==> Comma !in parts[k] && Dash !in parts[k] && Pipe !in parts[k] by {
      forall k | 0 <= k < |parts| ensures Comma !in parts[k] && Dash !in parts[k] && Pipe !in parts[k] {
        assert parts[k] == NumberText(record[k].n);
      }
    }
    SplitJoin(parts, Comma);
    JoinNoSep(parts, Comma, Dash);
    JoinNoSep(parts, Comma, Pipe);
  }

  lemma FieldsBack(record: seq<Field>)
    requires PlainRecord(record)
    ensures Fields(RecordText(record)) == TextRecord(record)
  {
    RecordTextBack(record);
  }

  /** The '-'-joined records of one part split back into their texts. */
  lemma PartBack(records: seq<seq<Field>>)
    requires Plain(records) && records != []
    ensures Map(Fields, Split(Join(Map(RecordText, records), Dash), Dash)) == Map(TextRecord, records)
    ensures Pipe !in Join(Map(RecordText, records), Dash) && Join(Map(RecordText, records), Dash) != []
  {
    var texts := Map(RecordText, records);
    forall i | 0 <= i < |records|
      ensures Dash !in texts[i] && Pipe !in texts[i] && texts[i] != []
      ensures Fields(texts[i]) == TextRecord(records[i])
    {
      RecordTextBack(records[i]);
      FieldsBack(records[i]);
    }
    SplitJoin(texts, Dash);
    JoinNoSep(texts, Dash, Pipe);
  }

  /** The buildings or units part: no records write an empty part, which reads back as none. */
  lemma RecordsBack(records: seq<seq<Field>>)
    requires Plain(records)
    ensures Records(Join(Map(RecordText, records), Dash)) == Map(TextRecord, records)
    ensures Pipe !in Join(Map(RecordText, records), Dash)
  {
    if records != [] {
      PartBack(records);
    }
  }

  /** decompressLevel3 reads back what compressLevel3 writes, every field now a string. */
  lemma PackBack(l: Level2)
    requires l.tiles != [] && Plain(l.tiles) && Plain(l.buildings) && Plain(l.units)
    ensures Unpack(Pack(l)) == Ok(AsTexts(l))
  {
    var parts := [NumberText(l.width), NumberText(l.height), Join(Map(RecordText, l.tiles), Dash),
                  Join(Map(RecordText, l.buildings), Dash), Join(Map(RecordText, l.units), Dash)];
    PartBack(l.tiles);
    RecordsBack(l.buildings);
    RecordsBack(l.units);
    NumberNoPipe(l.width);
    NumberNoPipe(l.height);
    SplitFive(parts[0], parts[1], parts[2], parts[3], parts[4]);
    ParseNumber(l.width);
    ParseNumber(l.height);
  }

  lemma SplitFive(a: JsString, b: JsString, c: JsString, d: JsString, e: JsString)
    requires Pipe !in a && Pipe !in b && Pipe !in c && Pipe !in d && Pipe !in e
    ensures Split(Join([a, b, c, d, e], Pipe), Pipe) == [a, b, c, d, e]
  {
    SplitJoin([a, b, c, d, e], Pipe);
  }

  lemma NumberNoPipe(n: int)
    ensures Pipe !in NumberText(n)
  {
    if n < 0 {
      assert NumberText(n) == [Minus] + ToDecimal(-n);
    }
  }

  /** parseInt sees a field and its text alike. */
  lemma SameTexts(l: Level2)
    ensures Untabulate(AsTexts(l)) == Untabulate(l)
  {
    forall r: seq<Field>, k: nat ensures FieldAt(TextRecord(r), k) == FieldAt(r, k) {
    }
    forall r: seq<Field> ensures TileOf(TextRecord(r)) == TileOf(r) {
      assert FieldAt(TextRecord(r), 0) == FieldAt(r, 0) && FieldAt(TextRecord(r), 1) == FieldAt(r, 1);
    }
    forall r: seq<Field> ensures BuildingOf(TextRecord(r)) == BuildingOf(r) {
      assert FieldAt(TextRecord(r), 0) == FieldAt(r, 0) && FieldAt(TextRecord(r), 1) == FieldAt(r, 1);
      assert FieldAt(TextRecord(r), 2) == FieldAt(r, 2) && FieldAt(TextRecord(r), 3) == FieldAt(r, 3);
    }
    forall r: seq<Field> ensures UnitOf(TextRecord(r)) == UnitOf(r) {
      assert FieldAt(TextRecord(r), 0) == FieldAt(r, 0) && FieldAt(TextRecord(r), 1) == FieldAt(r, 1);
      assert FieldAt(TextRecord(r), 2) == FieldAt(r, 2) && FieldAt(TextRecord(r), 3) == FieldAt(r, 3);
      assert FieldAt(TextRecord(r), 4) == FieldAt(r, 4);
    }
    ParseAlike(TileOf, l.tiles);
    ParseAlike(BuildingOf, l.buildings);
    ParseAlike(UnitOf, l.units);
  }

  lemma ParseAlike<A>(parse: seq<Field> -> Option<A>, records: seq<seq<Field>>)
    requires forall r :: parse(TextRecord(r)) == parse(r)
    ensures Map(parse, Map(TextRecord, records)) == Map(parse, records)
  {
  }

  predicate NaturalTile(t: TileData) {
    t.typ >= 0 && t.lightSfx >= 0
  }

  predicate NaturalBuilding(b: BuildingData) {
    b.x >= 0 && b.y >= 0 && b.typ >= 0 && b.player >= 0
  }

  predicate NaturalUnit(u: UnitData) {
    u.x >= 0 && u.y >= 0 && u.direction >= 0 && u.typ >= 0 && u.player >= 0
  }

  /** No negative number anywhere in the map data: level 3 writes a minus sign as its record separator. */
  predicate Natural(m: MapData) {
    && (forall row, t :: row in m.tiles && t in row ==> NaturalTile(t))
    && (forall b :: b in m.buildings ==> NaturalBuilding(b))
    && (forall u :: u in m.units ==> NaturalUnit(u))
  }

  /** Every record of level 1 natural. */
  predicate NaturalLevel1(l: Level1) {
    && (forall i :: 0 <= i < |l.tiles| ==> NaturalTile(l.tiles[i]))
    && (forall i :: 0 <= i < |l.buildings| ==> NaturalBuilding(l.buildings[i]))
    && (forall i :: 0 <= i < |l.units| ==> NaturalUnit(l.units[i]))
  }

  /** Level 1 of a natural map is natural: it holds the same records. */
  lemma ShortNatural(m: MapData)
    requires Exportable(m) && Natural(m)
    ensures NaturalLevel1(Shorten(m).value)
  {
    ShortenExported(m);
    var l := Shorten(m).value;
    forall i | 0 <= i < |l.tiles| ensures NaturalTile(l.tiles[i]) {
      InReverse(Flatten(m.tiles), l.tiles[i]);
      InFlatten(m.tiles, l.tiles[i]);
    }
    forall i | 0 <= i < |l.buildings| ensures NaturalBuilding(l.buildings[i]) {
      InReverse(m.buildings, l.buildings[i]);
    }
    forall i | 0 <= i < |l.units| ensures NaturalUnit(l.units[i]) {
      InReverse(m.units, l.units[i]);
    }
  }

  /** Level 2 of a natural level 1 holds plain records only. */
  lemma TabulatedPlain(l: Level1)
    requires NaturalLevel1(l)
    ensures Plain(Tabulate(l).tiles) && Plain(Tabulate(l).buildings) && Plain(Tabulate(l).units)
  {
    PlainTiles(l.tiles);
    PlainBuildings(l.buildings);
    PlainUnits(l.units);
  }

  lemma TilePlain(x: TileData)
    requires NaturalTile(x)
    ensures PlainRecord(TileFields(x))
  {
  }

  lemma PlainTiles(tiles: seq<TileData>)
    requires forall i :: 0 <= i < |tiles| ==> NaturalTile(tiles[i])
    ensures Plain(Reverse(Map(TileFields, tiles)))
  {
    var a := Reverse(Map(TileFields, tiles));
    forall i | 0 <= i < |a| ensures PlainRecord(a[i]) {
      TilePlain(tiles[|tiles| - 1 - i]);
    }
  }

  lemma BuildingPlain(x: BuildingData)
    requires NaturalBuilding(x)
    ensures PlainRecord(BuildingFields(x))
  {
  }

  lemma PlainBuildings(buildings: seq<BuildingData>)
    requires forall i :: 0 <= i < |buildings| ==> NaturalBuilding(buildings[i])
    ensures Plain(Reverse(Map(BuildingFields, buildings)))
  {
    var a := Reverse(Map(BuildingFields, buildings));
    forall i | 0 <= i < |a| ensures PlainRecord(a[i]) {
      BuildingPlain(buildings[|buildings| - 1 - i]);
    }
  }

  lemma UnitPlain(x: UnitData)
    requires NaturalUnit(x)
    ensures PlainRecord(UnitFields(x))
  {
  }

  lemma PlainUnits(units: seq<UnitData>)
    requires forall i :: 0 <= i < |units| ==> NaturalUnit(units[i])
    ensures Plain(Reverse(Map(UnitFields, units)))
  {
    var a := Reverse(Map(UnitFields, units));
    forall i | 0 <= i < |a| ensures PlainRecord(a[i]) {
      UnitPlain(units[|units| - 1 - i]);
    }
  }

  /** Levels 3 and 2 undone: the level-1 data back. */
  lemma PackedBack(l: Level1)
    requires NaturalLevel1(l) && l.tiles != []
    ensures UndoLevel3(Packed(Pack(Tabulate(l)))) == Ok(Arrays(AsTexts(Tabulate(l))))
    ensures UndoLevel2(Arrays(AsTexts(Tabulate(l)))) == Ok(Shortened(l))
  {
    TabulatedPlain(l);
    UndoPacked(Tabulate(l));
    Level2RoundTrip(l);
    UndoTexts(Tabulate(l), l);
  }

  lemma UndoPacked(a: Level2)
    requires a.tiles != [] && Plain(a.tiles) && Plain(a.buildings) && Plain(a.units)
    ensures UndoLevel3(Packed(Pack(a))) == Ok(Arrays(AsTexts(a)))
  {
    PackBack(a);
  }

  lemma UndoTexts(a: Level2, l: Level1)
    requires Untabulate(a) == Ok(l)
    ensures UndoLevel2(Arrays(AsTexts(a))) == Ok(Shortened(l))
  {
    SameTexts(a);
  }

  /** decompress(compress(m, level), level) gives back the exported map data, at every level. */
  lemma CompressRoundTrip(m: MapData, level: int)
    requires Exportable(m)
    requires level > 2 ==> Natural(m)
    ensures Compression(m, level).Ok?
    ensures Decompression(Compression(m, level).value, level) == Ok(Exported(m))
  {
    if level > 0 {
      Level1RoundTrip(m);
      var short := Shorten(m).value;
      assert UndoLevel1(Shortened(short)) == Ok(Exported(m));
      if level == 1 {
        UndoEach(Shortened(short), 1, Shortened(short), Shortened(short), Exported(m));
      } else {
        Level2RoundTrip(short);
        assert UndoLevel2(Arrays(Tabulate(short))) == Ok(Shortened(short));
        if level == 2 {
          UndoEach(Arrays(Tabulate(short)), 2, Arrays(Tabulate(short)), Shortened(short), Exported(m));
        } else {
          ShortNatural(m);
          PackedBack(short);
          UndoEach(Packed(Pack(Tabulate(short))), level, Arrays(AsTexts(Tabulate(short))), Shortened(short), Exported(m));
        }
      }
    }
  }

  /** Undoing the levels one after another, each taking what the one above gave. */
  lemma UndoEach(p: Payload, level: int, arrays: Payload, short: Payload, exported: Payload)
    requires level > 0
    requires level > 2 ==> UndoLevel3(p) == Ok(arrays)
    requires level <= 2 ==> arrays == p
    requires level > 1 ==> UndoLevel2(arrays) == Ok(short)
    requires level <= 1 ==> short == arrays
    requires UndoLevel1(short) == Ok(exported)
    ensures Decompression(p, level) == Ok(exported)
  {
  }
}
