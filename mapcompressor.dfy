/**
 * The map codec of engine/util/mapcompressor.js.
 *
 * Map.toPackedJson gives a packed map: the version 90, the name as char codes,
 * width, height, the tiles row by row, the buildings, the units and the
 * projectiles, each record an array of numbers. serializeMapData flattens it
 * into one array of numbers (the name and every unit prefixed with their
 * lengths, the three record lists with their counts), and deserializeMapData
 * reads it back with an offset that walks the array. Level 3 then writes every
 * number as two code units (value div 256, value mod 256) after a "3".
 *
 * JSON text is abstracted: the payload of levels 0 to 2 is the value that
 * JSON.stringify would write, and JSON.parse gives that value back.
 */
module MapCompressor {
  import opened Wrappers
  import opened JsText
  import Seqs

  /** The only map format version deserializeMapData accepts (0.9). */
  const Version := 90

  /** The character '3' that starts a level-3 text. */
  const LevelThree: CodeUnit := 51

  /** `new Array(n)` throws a RangeError unless n < 2^32. */
  const MaxArrayLength := 0x1_0000_0000

  datatype PackedMap = PackedMap(
    version: nat,
    name: seq<nat>,
    width: nat,
    height: nat,
    tiles: seq<seq<nat>>,
    buildings: seq<seq<nat>>,
    units: seq<seq<nat>>,
    projectiles: seq<seq<nat>>)

  datatype Failure =
    | OlderVersion            // "Cannot import map of version older than 0.9"
    | NewerVersion            // "Cannot import map of version greater than 0.9"
    | Malformed               // a read past the end, an array too long, or "Invalid map data - expected length"
    | UnsupportedLevel(level: int)
    | OddLevel3Payload        // a level-3 text whose payload is not a whole number of pairs
    | JsonText                // text that decompress would hand to JSON.parse

  // ---------------------------------------------------------------- serialization

  /** serializeVariableLengthArray: the array with its length in front. */
  function SerializeVariable(data: seq<nat>): (r: seq<nat>)
    ensures r == [|data|] + data
    ensures data == [] ==> r == [0]
  {
    if data == [] then [0] else [|data|] + data
  }

  /** `[].concat.apply([], records)`: the records one after another. */
  function Flatten(records: seq<seq<nat>>): seq<nat> {
    if records == [] then [] else records[0] + Flatten(records[1..])
  }

  /** `records.map(serializeVariableLengthArray)`. */
  function SerializeAll(records: seq<seq<nat>>): seq<seq<nat>> {
    seq(|records|, k requires 0 <= k < |records| => SerializeVariable(records[k]))
  }

  /**
   * serializeMapData: the version and the name, width, height and the tiles,
   * then the buildings, the units and the projectiles, each list after its
   * count, appended one after another.
   */
  function Serialize(p: PackedMap): seq<nat> {
    HeadPart(p) + TilesPart(p) + BuildingsPart(p) + UnitsPart(p) + ProjectilesPart(p)
  }

  function HeadPart(p: PackedMap): seq<nat> {
    [p.version] + SerializeVariable(p.name)
  }

  function TilesPart(p: PackedMap): seq<nat> {
    [p.width, p.height] + Flatten(p.tiles)
  }

  function BuildingsPart(p: PackedMap): seq<nat> {
    [|p.buildings|] + Flatten(p.buildings)
  }

  function UnitsPart(p: PackedMap): seq<nat> {
    [|p.units|] + Flatten(SerializeAll(p.units))
  }

  function ProjectilesPart(p: PackedMap): seq<nat> {
    [|p.projectiles|] + Flatten(p.projectiles)
  }

  /** Where the sections after the head start in serializeMapData's output. */
  function TilesStart(p: PackedMap): nat {
    |HeadPart(p)|
  }

  function BuildingsStart(p: PackedMap): nat {
    |HeadPart(p)| + |TilesPart(p)|
  }

  function UnitsStart(p: PackedMap): nat {
    |HeadPart(p)| + |TilesPart(p)| + |BuildingsPart(p)|
  }

  function ProjectilesStart(p: PackedMap): nat {
    |HeadPart(p)| + |TilesPart(p)| + |BuildingsPart(p)| + |UnitsPart(p)|
  }

  /** Every record of `records` has `size` numbers. */
  predicate Uniform(records: seq<seq<nat>>, size: nat) {
    forall k :: 0 <= k < |records| ==> |records[k]| == size
  }

  /** The packed maps the round trip holds for: the shape Map.toPackedJson writes. */
  predicate Shaped(p: PackedMap) {
    && p.version == Version
    && Area(p.width, p.height) < MaxArrayLength
    && |p.tiles| == Area(p.width, p.height)
    && Uniform(p.tiles, 2)
    && |p.buildings| < MaxArrayLength && Uniform(p.buildings, 6)
    && |p.units| < MaxArrayLength
    && |p.projectiles| < MaxArrayLength && Uniform(p.projectiles, 15)
  }

  // ---------------------------------------------------------------- deserialization

  /** `d.slice(a, b)` for non-negative a and b: clipped to the array, empty when b <= a. */
  function Slice(d: seq<nat>, a: nat, b: nat): (r: seq<nat>)
    ensures |r| <= |d|
    ensures b <= |d| && a <= b ==> r == d[a..b]
  {
    var lo := if a < |d| then a else |d|;
    var hi := if b < |d| then b else |d|;
    if hi <= lo then [] else d[lo..hi]
  }

  /** `width * height`, the number of tiles, as repeated addition. */
  function Area(width: nat, height: nat): nat {
    if width == 0 then 0 else Area(width - 1, height) + height
  }

  lemma {:induction false} AreaIsProduct(width: nat, height: nat)
    ensures Area(width, height) == width * height
  {
    if width > 0 {
      AreaIsProduct(width - 1, height);
      assert (width - 1) * height + height == width * height;
    }
  }

  /** `count * size`, the numbers that `count` records of `size` numbers take. */
  function Span(count: nat, size: nat): nat {
    count * size
  }

  /** The fixed-size records a loop with `index = offset + i * size` slices out. */
  function Records(d: seq<nat>, offset: nat, count: nat, size: nat): (r: seq<seq<nat>>)
    ensures |r| == count
  {
    seq(count, i requires 0 <= i < count => Slice(d, offset + Span(i, size), offset + Span(i, size) + size))
  }

  /**
   * The units loop from its `i`-th pass on: each unit is a length, then that
   * many numbers; `done` are the units read so far. None when a length would
   * be read past the end.
   */
  function VariableFrom(d: seq<nat>, offset: nat, remaining: nat, done: seq<seq<nat>>): Option<(seq<seq<nat>>, nat)>
    decreases remaining
  {
    if remaining == 0 then Some((done, offset))
    else if offset >= |d| then None
    else
      var size := d[offset];
      VariableFrom(d, offset + 1 + size, remaining - 1, done + [Slice(d, offset + 1, offset + 1 + size)])
  }

  /** The four sections after the name, in the order deserializeMapData reads them. */
  datatype Section = Tiles | Buildings | Units | Projectiles

  const Sections: seq<Section> := [Tiles, Buildings, Units, Projectiles]

  /** deserializeMapData: the version, the name, then the sections and the length check. */
  function Deserialize(d: seq<nat>): (r: Result<PackedMap, Failure>)
    ensures |d| > 0 && d[0] < Version ==> r == Err(OlderVersion)
    ensures |d| > 0 && d[0] > Version ==> r == Err(NewerVersion)
    ensures r.Ok? ==> r.value.version == Version
  {
    if |d| > 0 && d[0] < Version then Err(OlderVersion)
    else if |d| > 0 && d[0] > Version then Err(NewerVersion)
    else if |d| < 2 then Err(Malformed)
    else
      var name := Slice(d, 2, 2 + d[1]);
      ReadSections(d, PackedMap(d[0], name, 0, 0, [], [], [], []), 2 + |name|, Sections)
  }

  /**
   * The sections from `offset` on, one after another, each filling in its
   * part of `p`; the data must end where the last one does.
   */
  function ReadSections(d: seq<nat>, p: PackedMap, offset: nat, sections: seq<Section>): (r: Result<PackedMap, Failure>)
    ensures r.Ok? ==> r.value.version == p.version && r.value.name == p.name
    decreases |sections|
  {
    if sections == [] then
      if offset != |d| then Err(Malformed) else Ok(p)
    else
      match ReadSection(d, p, offset, sections[0])
      case Err(e) => Err(e)
      case Ok((next, after)) => ReadSections(d, next, after, sections[1..])
  }

  function ReadSection(d: seq<nat>, p: PackedMap, offset: nat, section: Section): (r: Result<(PackedMap, nat), Failure>)
    ensures r.Ok? ==> r.value.0.version == p.version && r.value.0.name == p.name
  {
    match section
    case Tiles => ReadTiles(d, p, offset)
    case Buildings => ReadBuildings(d, p, offset)
    case Units => ReadUnits(d, p, offset)
    case Projectiles => ReadProjectiles(d, p, offset)
  }

  /**
   * Width, height and width * height tiles of two numbers from `offset` on:
   * the map with them filled in, and the offset after them.
   */
  function ReadTiles(d: seq<nat>, p: PackedMap, offset: nat): (r: Result<(PackedMap, nat), Failure>)
    ensures r.Ok? ==> r.value.0 == p.(width := r.value.0.width, height := r.value.0.height, tiles := r.value.0.tiles)
  {
    if offset + 2 > |d| || Area(d[offset], d[offset + 1]) >= MaxArrayLength then Err(Malformed)
    else
      var width, height := d[offset], d[offset + 1];
      var tiles := Records(d, offset + 2, Area(width, height), 2);
      Ok((p.(width := width, height := height, tiles := tiles), offset + 2 + Span(Area(width, height), 2)))
  }

  /** A count, then that many buildings of six numbers. */
  function ReadBuildings(d: seq<nat>, p: PackedMap, offset: nat): (r: Result<(PackedMap, nat), Failure>)
    ensures r.Ok? ==> r.value.0 == p.(buildings := r.value.0.buildings)
  {
    if offset >= |d| || d[offset] >= MaxArrayLength then Err(Malformed)
    else Ok((p.(buildings := Records(d, offset + 1, d[offset], 6)), offset + 1 + Span(d[offset], 6)))
  }

  /** A count, then that many units, each with its length in front. */
  function ReadUnits(d: seq<nat>, p: PackedMap, offset: nat): (r: Result<(PackedMap, nat), Failure>)
    ensures r.Ok? ==> r.value.0 == p.(units := r.value.0.units)
  {
    if offset >= |d| || d[offset] >= MaxArrayLength then Err(Malformed)
    else
      match VariableFrom(d, offset + 1, d[offset], [])
      case None => Err(Malformed)
      case Some((units, next)) => Ok((p.(units := units), next))
  }

  /** A count, then that many projectiles of fifteen numbers. */
  function ReadProjectiles(d: seq<nat>, p: PackedMap, offset: nat): (r: Result<(PackedMap, nat), Failure>)
    ensures r.Ok? ==> r.value.0 == p.(projectiles := r.value.0.projectiles)
  {
    if offset >= |d| || d[offset] >= MaxArrayLength then Err(Malformed)
    else Ok((p.(projectiles := Records(d, offset + 1, d[offset], 15)), offset + 1 + Span(d[offset], 15)))
  }

  /** The loop that fills `count` records of `size` numbers from `offset` (lines 116-119, 123-126, 137-140). */
  method ReadRecords(d: seq<nat>, offset: nat, count: nat, size: nat) returns (records: seq<seq<nat>>)
    ensures records == Records(d, offset, count, size)
  {
    var a := new seq<nat>[count];
    var i := 0;
    while i < count
      invariant 0 <= i <= count
      invariant forall j :: 0 <= j < i ==> a[j] == Slice(d, offset + Span(j, size), offset + Span(j, size) + size)
    {
      var index := offset + Span(i, size);
      a[i] := Slice(d, index, index + size);
      i := i + 1;
    }
    records := a[..];
  }

  /** The units loop (lines 129-134): a length, then that many numbers, per unit. */
  method ReadVariableRecords(d: seq<nat>, start: nat, count: nat) returns (r: Option<(seq<seq<nat>>, nat)>)
    ensures r == VariableFrom(d, start, count, [])
  {
    var records := new seq<nat>[count];
    var offset: nat := start;
    var i := 0;
    while i < count
      invariant 0 <= i <= count
      invariant VariableFrom(d, start, count, []) == VariableFrom(d, offset, count - i, records[..i])
    {
      if offset >= |d| {
        return None;
      }
      var size := d[offset];
      offset := offset + 1;
      records[i] := Slice(d, offset, offset + size);
      offset := offset + size;
      assert records[..i + 1] == records[..i] + [records[i]];
      i := i + 1;
    }
    assert records[..i] == records[..];
    r := Some((records[..], offset));
  }

  /** deserializeMapData (engine/util/mapcompressor.js lines 94-147); a read past the end fails at once. */
  method DeserializeMapData(mapData: seq<nat>) returns (r: Result<PackedMap, Failure>)
    ensures r == Deserialize(mapData)
  {
    if |mapData| > 0 && mapData[0] < Version {
      return Err(OlderVersion);
    }
    if |mapData| > 0 && mapData[0] > Version {
      return Err(NewerVersion);
    }
    if |mapData| < 2 {
      return Err(Malformed);
    }
    var name := Slice(mapData, 2, 2 + mapData[1]);
    var offset := 2 + |name|;
    var p := PackedMap(mapData[0], name, 0, 0, [], [], [], []);
    assert Deserialize(mapData) == ReadSections(mapData, p, offset, Sections);
    var section := TilesSection(mapData, p, offset);
    if section.Err? {
      return Err(section.error);
    }
    assert Deserialize(mapData) == ReadSections(mapData, section.value.0, section.value.1, Sections[1..]);
    section := BuildingsSection(mapData, section.value.0, section.value.1);
    if section.Err? {
      return Err(section.error);
    }
    assert Deserialize(mapData) == ReadSections(mapData, section.value.0, section.value.1, Sections[2..]);
    section := UnitsSection(mapData, section.value.0, section.value.1);
    if section.Err? {
      return Err(section.error);
    }
    assert Deserialize(mapData) == ReadSections(mapData, section.value.0, section.value.1, Sections[3..]);
    section := ProjectilesSection(mapData, section.value.0, section.value.1);
    if section.Err? {
      return Err(section.error);
    }
    assert Deserialize(mapData) == ReadSections(mapData, section.value.0, section.value.1, []);
    if section.value.1 != |mapData| {
      return Err(Malformed);
    }
    r := Ok(section.value.0);
  }

  /** Lines 108-120: width, height and the tiles. */
  method TilesSection(mapData: seq<nat>, p: PackedMap, offset: nat) returns (r: Result<(PackedMap, nat), Failure>)
    ensures r == ReadTiles(mapData, p, offset)
  {
    if offset + 2 > |mapData| || Area(mapData[offset], mapData[offset + 1]) >= MaxArrayLength {
      return Err(Malformed);
    }
    var width := mapData[offset];
    var height := mapData[offset + 1];
    var tileCount := Area(width, height);
    var tiles := ReadRecords(mapData, offset + 2, tileCount, 2);
    r := Ok((p.(width := width, height := height, tiles := tiles), offset + 2 + Span(tileCount, 2)));
  }

  /** Lines 121-127: the buildings. */
  method BuildingsSection(mapData: seq<nat>, p: PackedMap, offset: nat) returns (r: Result<(PackedMap, nat), Failure>)
    ensures r == ReadBuildings(mapData, p, offset)
  {
    if offset >= |mapData| || mapData[offset] >= MaxArrayLength {
      return Err(Malformed);
    }
    var buildingCount := mapData[offset];
    var buildings := ReadRecords(mapData, offset + 1, buildingCount, 6);
    r := Ok((p.(buildings := buildings), offset + 1 + Span(buildingCount, 6)));
  }

  /** Lines 128-134: the units. */
  method UnitsSection(mapData: seq<nat>, p: PackedMap, offset: nat) returns (r: Result<(PackedMap, nat), Failure>)
    ensures r == ReadUnits(mapData, p, offset)
  {
    if offset >= |mapData| || mapData[offset] >= MaxArrayLength {
      return Err(Malformed);
    }
    var read := ReadVariableRecords(mapData, offset + 1, mapData[offset]);
    if read.None? {
      return Err(Malformed);
    }
    r := Ok((p.(units := read.value.0), read.value.1));
  }

  /** Lines 135-141: the projectiles. */
  method ProjectilesSection(mapData: seq<nat>, p: PackedMap, offset: nat) returns (r: Result<(PackedMap, nat), Failure>)
    ensures r == ReadProjectiles(mapData, p, offset)
  {
    if offset >= |mapData| || mapData[offset] >= MaxArrayLength {
      return Err(Malformed);
    }
    var projectileCount := mapData[offset];
    var projectiles := ReadRecords(mapData, offset + 1, projectileCount, 15);
    r := Ok((p.(projectiles := projectiles), offset + 1 + Span(projectileCount, 15)));
  }

  // ---------------------------------------------------------------- serialize, then deserialize

  /** `x` sits in `d` from `offset` on. */
  predicate At(d: seq<nat>, offset: nat, x: seq<nat>) {
    offset + |x| <= |d| && d[offset..offset + |x|] == x
  }

  lemma AtConcat(a: seq<nat>, x: seq<nat>, b: seq<nat>)
    ensures At(a + x + b, |a|, x)
  {
    assert (a + x + b)[|a|..|a| + |x|] == x;
  }


  lemma AtPart(d: seq<nat>, offset: nat, x: seq<nat>, y: seq<nat>)
    requires At(d, offset, x + y)
    ensures At(d, offset, x) && At(d, offset + |x|, y)
  {
    assert d[offset..offset + |x|] == (x + y)[..|x|];
    assert d[offset + |x|..offset + |x| + |y|] == (x + y)[|x|..];
  }

  /** The `i`-th record of uniform records starts at i * size of their concatenation. */
  lemma {:induction false} FlattenAt(records: seq<seq<nat>>, size: nat, i: nat)
    requires Uniform(records, size) && i < |records|
    ensures At(Flatten(records), Span(i, size), records[i])
    decreases |records|
  {
    var rest := records[1..];
    assert Flatten(records) == records[0] + Flatten(rest);
    if i == 0 {
      AtFront(records[0], Flatten(rest));
    } else {
      UniformTail(records, size);
      FlattenAt(rest, size, i - 1);
      assert rest[i - 1] == records[i];
      AtShift(records[0], Flatten(rest), Span(i - 1, size), records[i]);
      SpanStep(i, size);
    }
  }

  lemma {:induction false} FlattenLength(records: seq<seq<nat>>, size: nat)
    requires Uniform(records, size)
    ensures |Flatten(records)| == Span(|records|, size)
    decreases |records|
  {
    if records != [] {
      UniformTail(records, size);
      FlattenLength(records[1..], size);
      SpanStep(|records|, size);
    }
  }

  lemma UniformTail(records: seq<seq<nat>>, size: nat)
    requires Uniform(records, size) && records != []
    ensures |records[0]| == size && Uniform(records[1..], size)
  {
    forall k | 0 <= k < |records[1..]|
      ensures |records[1..][k]| == size
    {
      assert records[1..][k] == records[k + 1];
    }
  }

  lemma SpanStep(count: nat, size: nat)
    requires count > 0
    ensures Span(count, size) == size + Span(count - 1, size)
  {
  }

  lemma AtFront(x: seq<nat>, rest: seq<nat>)
    ensures At(x + rest, 0, x)
  {
    assert (x + rest)[..|x|] == x;
  }

  lemma AtShift(x: seq<nat>, f: seq<nat>, o: nat, y: seq<nat>)
    requires At(f, o, y)
    ensures At(x + f, |x| + o, y)
  {
    assert (x + f)[|x| + o..|x| + o + |y|] == f[o..o + |y|];
  }

  lemma AtWithin(d: seq<nat>, offset: nat, f: seq<nat>, o: nat, x: seq<nat>)
    requires At(d, offset, f) && At(f, o, x)
    ensures At(d, offset + o, x)
  {
    forall k | 0 <= k < |x|
      ensures d[offset + o + k] == x[k]
    {
      assert d[offset..offset + |f|][o + k] == f[o + k];
      assert f[o..o + |x|][k] == x[k];
    }
    assert d[offset + o..offset + o + |x|] == x;
  }

  /** The value the fixed-size loop sees for record `i`, given where that record sits. */
  lemma RecordAt(d: seq<nat>, offset: nat, count: nat, size: nat, i: nat, x: seq<nat>)
    requires i < count && |x| == size && At(d, offset + Span(i, size), x)
    ensures Records(d, offset, count, size)[i] == x
  {
    var a := offset + Span(i, size);
    assert Records(d, offset, count, size)[i] == Slice(d, a, a + size);
  }

  lemma RecordAtIndex(d: seq<nat>, offset: nat, records: seq<seq<nat>>, size: nat, i: nat)
    requires Uniform(records, size) && i < |records|
    requires At(d, offset, Flatten(records))
    ensures Records(d, offset, |records|, size)[i] == records[i]
  {
    FlattenAt(records, size, i);
    RecordWithin(d, offset, Flatten(records), |records|, size, i, records[i]);
  }

  /** A record at its place inside a stretch `f` of `d` is what the loop slices out for it. */
  lemma RecordWithin(d: seq<nat>, offset: nat, f: seq<nat>, count: nat, size: nat, i: nat, x: seq<nat>)
    requires At(d, offset, f) && At(f, Span(i, size), x) && |x| == size && i < count
    ensures Records(d, offset, count, size)[i] == x
  {
    AtWithin(d, offset, f, Span(i, size), x);
    RecordAt(d, offset, count, size, i, x);
  }

  /** Uniform records laid out from `offset` are read back by the fixed-size loop. */
  lemma RecordsAt(d: seq<nat>, offset: nat, records: seq<seq<nat>>, size: nat)
    requires Uniform(records, size) && At(d, offset, Flatten(records))
    ensures Records(d, offset, |records|, size) == records
  {
    var r := Records(d, offset, |records|, size);
    forall i | 0 <= i < |records|
      ensures r[i] == records[i]
    {
      RecordAtIndex(d, offset, records, size, i);
    }
  }

  /** Each unit sits in `d` after its length, one after another from `offset` on. */
  predicate UnitsAt(d: seq<nat>, offset: nat, units: seq<seq<nat>>)
    decreases |units|
  {
    units == [] ||
    (offset < |d| && d[offset] == |units[0]| && Slice(d, offset + 1, offset + 1 + |units[0]|) == units[0]
     && UnitsAt(d, offset + 1 + |units[0]|, units[1..]))
  }

  /** The length of the units after serializeVariableLengthArray. */
  function SerializedLength(units: seq<seq<nat>>): nat
    decreases |units|
  {
    if units == [] then 0 else 1 + |units[0]| + SerializedLength(units[1..])
  }

  /** What serializeMapData writes for the units is laid out as the units loop expects. */
  lemma {:induction false} UnitsLaidOut(d: seq<nat>, offset: nat, units: seq<seq<nat>>)
    requires At(d, offset, Flatten(SerializeAll(units)))
    ensures UnitsAt(d, offset, units) && |Flatten(SerializeAll(units))| == SerializedLength(units)
    decreases |units|
  {
    if units != [] {
      var u := units[0];
      var rest := Flatten(SerializeAll(units[1..]));
      SerializedUnits(units);
      UnitAt(d, offset, u, rest);
      UnitsLaidOut(d, offset + 1 + |u|, units[1..]);
    }
  }

  /** Units laid out from `offset` are read back by the units loop. */
  lemma {:induction false} VariableAt(d: seq<nat>, offset: nat, units: seq<seq<nat>>, done: seq<seq<nat>>)
    requires UnitsAt(d, offset, units)
    ensures VariableFrom(d, offset, |units|, done) == Some((done + units, offset + SerializedLength(units)))
    decreases |units|
  {
    if units == [] {
      Seqs.EmptyAppend(done);
    } else {
      var u := units[0];
      VariableStep(d, offset, |units|, done, u);
      VariableAt(d, offset + 1 + |u|, units[1..], done + [u]);
      AppendFirst(done, units);
    }
  }

  /** One turn of the units loop: a length, then that many values. */
  lemma VariableStep(d: seq<nat>, offset: nat, remaining: nat, done: seq<seq<nat>>, u: seq<nat>)
    requires remaining > 0 && offset < |d| && d[offset] == |u| && Slice(d, offset + 1, offset + 1 + |u|) == u
    ensures VariableFrom(d, offset, remaining, done) == VariableFrom(d, offset + 1 + |u|, remaining - 1, done + [u])
  {
  }

  lemma AppendFirst<T>(done: seq<T>, items: seq<T>)
    requires items != []
    ensures done + [items[0]] + items[1..] == done + items
  {
    assert items == [items[0]] + items[1..];
  }

  lemma SerializedUnits(units: seq<seq<nat>>)
    requires units != []
    ensures Flatten(SerializeAll(units)) == [|units[0]|] + units[0] + Flatten(SerializeAll(units[1..]))
  {
    assert SerializeAll(units) == [SerializeVariable(units[0])] + SerializeAll(units[1..]);
  }

  /** A unit with its length in front, as the units loop reads it. */
  lemma UnitAt(d: seq<nat>, offset: nat, u: seq<nat>, rest: seq<nat>)
    requires At(d, offset, [|u|] + u + rest)
    ensures offset < |d| && d[offset] == |u| && Slice(d, offset + 1, offset + 1 + |u|) == u
    ensures At(d, offset + 1 + |u|, rest)
  {
    AtPart(d, offset, [|u|] + u, rest);
    AtPart(d, offset, [|u|], u);
    assert d[offset..offset + 1][0] == |u|;
  }

  /** A count in front of what follows it. */
  lemma CountAt(d: seq<nat>, offset: nat, n: nat, rest: seq<nat>)
    requires At(d, offset, [n] + rest)
    ensures offset < |d| && d[offset] == n && At(d, offset + 1, rest)
  {
    AtPart(d, offset, [n], rest);
    assert d[offset..offset + 1][0] == n;
  }

  lemma TilesBack(d: seq<nat>, p: PackedMap, offset: nat, width: nat, height: nat, tiles: seq<seq<nat>>)
    requires Area(width, height) < MaxArrayLength && |tiles| == Area(width, height) && Uniform(tiles, 2)
    requires At(d, offset, [width, height] + Flatten(tiles))
    ensures ReadTiles(d, p, offset)
         == Ok((PackedMap(p.version, p.name, width, height, tiles, p.buildings, p.units, p.projectiles),
                offset + 2 + |Flatten(tiles)|))
  {
    FlattenLength(tiles, 2);
    AtPart(d, offset, [width, height], Flatten(tiles));
    assert d[offset..offset + 2][0] == width && d[offset..offset + 2][1] == height;
    RecordsAt(d, offset + 2, tiles, 2);
  }

  lemma BuildingsBack(d: seq<nat>, p: PackedMap, offset: nat, buildings: seq<seq<nat>>)
    requires |buildings| < MaxArrayLength && Uniform(buildings, 6)
    requires At(d, offset, [|buildings|] + Flatten(buildings))
    ensures ReadBuildings(d, p, offset)
         == Ok((PackedMap(p.version, p.name, p.width, p.height, p.tiles, buildings, p.units, p.projectiles),
                offset + 1 + |Flatten(buildings)|))
  {
    FlattenLength(buildings, 6);
    CountAt(d, offset, |buildings|, Flatten(buildings));
    RecordsAt(d, offset + 1, buildings, 6);
  }

  lemma UnitsBack(d: seq<nat>, p: PackedMap, offset: nat, units: seq<seq<nat>>)
    requires |units| < MaxArrayLength
    requires At(d, offset, [|units|] + Flatten(SerializeAll(units)))
    ensures ReadUnits(d, p, offset)
         == Ok((PackedMap(p.version, p.name, p.width, p.height, p.tiles, p.buildings, units, p.projectiles),
                offset + 1 + |Flatten(SerializeAll(units))|))
  {
    CountAt(d, offset, |units|, Flatten(SerializeAll(units)));
    UnitsLaidOut(d, offset + 1, units);
    VariableAt(d, offset + 1, units, []);
    Seqs.EmptyAppend(units);
  }

  lemma ProjectilesBack(d: seq<nat>, p: PackedMap, offset: nat, projectiles: seq<seq<nat>>)
    requires |projectiles| < MaxArrayLength && Uniform(projectiles, 15)
    requires At(d, offset, [|projectiles|] + Flatten(projectiles))
    ensures ReadProjectiles(d, p, offset)
         == Ok((PackedMap(p.version, p.name, p.width, p.height, p.tiles, p.buildings, p.units, projectiles),
                offset + 1 + |Flatten(projectiles)|))
  {
    FlattenLength(projectiles, 15);
    CountAt(d, offset, |projectiles|, Flatten(projectiles));
    RecordsAt(d, offset + 1, projectiles, 15);
  }

  /** `p` with the sections from `k` on not read yet. */
  function Upto(p: PackedMap, k: nat): PackedMap {
    PackedMap(p.version, p.name,
              if k > 0 then p.width else 0, if k > 0 then p.height else 0, if k > 0 then p.tiles else [],
              if k > 1 then p.buildings else [], if k > 2 then p.units else [], if k > 3 then p.projectiles else [])
  }

  lemma ProjectilesRead(d: seq<nat>, p: PackedMap)
    requires |p.projectiles| < MaxArrayLength && Uniform(p.projectiles, 15)
    requires At(d, ProjectilesStart(p), ProjectilesPart(p)) && |d| == ProjectilesStart(p) + |ProjectilesPart(p)|
    ensures ReadSection(d, Upto(p, 3), ProjectilesStart(p), Projectiles) == Ok((p, |d|))
  {
    assert |d| == ProjectilesStart(p) + 1 + |Flatten(p.projectiles)|;
    ProjectilesBack(d, Upto(p, 3), ProjectilesStart(p), p.projectiles);
  }

  lemma ProjectilesStep(d: seq<nat>, p: PackedMap)
    requires |p.projectiles| < MaxArrayLength && Uniform(p.projectiles, 15)
    requires At(d, ProjectilesStart(p), ProjectilesPart(p)) && |d| == ProjectilesStart(p) + |ProjectilesPart(p)|
    ensures ReadSections(d, Upto(p, 3), ProjectilesStart(p), Sections[3..]) == Ok(p)
  {
    ProjectilesRead(d, p);
    SectionStep(d, Upto(p, 3), ProjectilesStart(p), Sections[3..], p, |d|);
  }

  lemma UnitsRead(d: seq<nat>, p: PackedMap)
    requires |p.units| < MaxArrayLength && At(d, UnitsStart(p), UnitsPart(p))
    ensures ReadSection(d, Upto(p, 2), UnitsStart(p), Units) == Ok((Upto(p, 3), ProjectilesStart(p)))
  {
    assert ProjectilesStart(p) == UnitsStart(p) + 1 + |Flatten(SerializeAll(p.units))|;
    UnitsBack(d, Upto(p, 2), UnitsStart(p), p.units);
  }

  lemma UnitsStep(d: seq<nat>, p: PackedMap)
    requires |p.units| < MaxArrayLength && At(d, UnitsStart(p), UnitsPart(p))
    requires ReadSections(d, Upto(p, 3), ProjectilesStart(p), Sections[3..]) == Ok(p)
    ensures ReadSections(d, Upto(p, 2), UnitsStart(p), Sections[2..]) == Ok(p)
  {
    UnitsRead(d, p);
    SectionStep(d, Upto(p, 2), UnitsStart(p), Sections[2..], Upto(p, 3), ProjectilesStart(p));
    assert Sections[2..][1..] == Sections[3..];
  }

  lemma BuildingsRead(d: seq<nat>, p: PackedMap)
    requires |p.buildings| < MaxArrayLength && Uniform(p.buildings, 6) && At(d, BuildingsStart(p), BuildingsPart(p))
    ensures ReadSection(d, Upto(p, 1), BuildingsStart(p), Buildings) == Ok((Upto(p, 2), UnitsStart(p)))
  {
    assert UnitsStart(p) == BuildingsStart(p) + 1 + |Flatten(p.buildings)|;
    BuildingsBack(d, Upto(p, 1), BuildingsStart(p), p.buildings);
  }

  lemma BuildingsStep(d: seq<nat>, p: PackedMap)
    requires |p.buildings| < MaxArrayLength && Uniform(p.buildings, 6) && At(d, BuildingsStart(p), BuildingsPart(p))
    requires ReadSections(d, Upto(p, 2), UnitsStart(p), Sections[2..]) == Ok(p)
    ensures ReadSections(d, Upto(p, 1), BuildingsStart(p), Sections[1..]) == Ok(p)
  {
    BuildingsRead(d, p);
    SectionStep(d, Upto(p, 1), BuildingsStart(p), Sections[1..], Upto(p, 2), UnitsStart(p));
    assert Sections[1..][1..] == Sections[2..];
  }

  lemma TilesRead(d: seq<nat>, p: PackedMap)
    requires Area(p.width, p.height) < MaxArrayLength && |p.tiles| == Area(p.width, p.height) && Uniform(p.tiles, 2)
    requires At(d, TilesStart(p), TilesPart(p))
    ensures ReadSection(d, Upto(p, 0), TilesStart(p), Tiles) == Ok((Upto(p, 1), BuildingsStart(p)))
  {
    assert BuildingsStart(p) == TilesStart(p) + 2 + |Flatten(p.tiles)|;
    TilesBack(d, Upto(p, 0), TilesStart(p), p.width, p.height, p.tiles);
  }

  lemma TilesStep(d: seq<nat>, p: PackedMap)
    requires Area(p.width, p.height) < MaxArrayLength && |p.tiles| == Area(p.width, p.height) && Uniform(p.tiles, 2)
    requires At(d, TilesStart(p), TilesPart(p))
    requires ReadSections(d, Upto(p, 1), BuildingsStart(p), Sections[1..]) == Ok(p)
    ensures ReadSections(d, Upto(p, 0), TilesStart(p), Sections) == Ok(p)
  {
    TilesRead(d, p);
    SectionStep(d, Upto(p, 0), TilesStart(p), Sections, Upto(p, 1), BuildingsStart(p));
  }

  /** Reading the sections is reading the first, then the rest from where it ends. */
  lemma SectionStep(d: seq<nat>, p: PackedMap, offset: nat, sections: seq<Section>, next: PackedMap, after: nat)
    requires sections != [] && ReadSection(d, p, offset, sections[0]) == Ok((next, after))
    ensures ReadSections(d, p, offset, sections) == ReadSections(d, next, after, sections[1..])
  {
  }

  /** Five stretches one after another in `d`, the last one ending it. */
  predicate Placed(d: seq<nat>, a: seq<nat>, b: seq<nat>, c: seq<nat>, e: seq<nat>, f: seq<nat>) {
    At(d, 0, a) && At(d, |a|, b) && At(d, |a| + |b|, c) && At(d, |a| + |b| + |c|, e)
    && At(d, |a| + |b| + |c| + |e|, f) && |d| == |a| + |b| + |c| + |e| + |f|
  }

  /** Five stretches are placed that way in their concatenation. */
  lemma FiveAt(a: seq<nat>, b: seq<nat>, c: seq<nat>, e: seq<nat>, f: seq<nat>)
    ensures Placed(a + b + c + e + f, a, b, c, e, f)
  {
    AtEnd([], a);
    AtEnd(a, b);
    AtEnd(a + b, c);
    AtEnd(a + b + c, e);
    AtEnd(a + b + c + e, f);
    Seqs.EmptyAppend(a);
    AtExtend(a, b, 0, a);
    AtExtend(a + b, c, 0, a);
    AtExtend(a + b + c, e, 0, a);
    AtExtend(a + b + c + e, f, 0, a);
    AtExtend(a + b, c, |a|, b);
    AtExtend(a + b + c, e, |a|, b);
    AtExtend(a + b + c + e, f, |a|, b);
    AtExtend(a + b + c, e, |a| + |b|, c);
    AtExtend(a + b + c + e, f, |a| + |b|, c);
    AtExtend(a + b + c + e, f, |a| + |b| + |c|, e);
  }

  lemma AtEnd(x: seq<nat>, m: seq<nat>)
    ensures At(x + m, |x|, m)
  {
    assert (x + m)[|x|..|x| + |m|] == m;
  }

  lemma AtExtend(x: seq<nat>, y: seq<nat>, o: nat, m: seq<nat>)
    requires At(x, o, m)
    ensures At(x + y, o, m)
  {
    assert (x + y)[o..o + |m|] == x[o..o + |m|];
  }

  /** The version and the name at the start of the data. */
  lemma HeadAt(d: seq<nat>, version: nat, name: seq<nat>)
    requires At(d, 0, [version] + SerializeVariable(name))
    ensures |d| >= 2 && d[0] == version && d[1] == |name| && Slice(d, 2, 2 + d[1]) == name
  {
    AtPart(d, 0, [version, |name|], name);
    assert d[..2][0] == version && d[..2][1] == |name|;
  }

  /** deserializeMapData gives `p` back once the name is in place and the sections read the rest. */
  lemma ChainBack(d: seq<nat>, p: PackedMap)
    requires |d| >= 2 && d[0] == p.version && p.version == Version && d[1] == |p.name| && Slice(d, 2, 2 + d[1]) == p.name
    requires ReadSections(d, Upto(p, 0), 2 + |p.name|, Sections) == Ok(p)
    ensures Deserialize(d) == Ok(p)
  {
  }

  /** Where serializeMapData puts each part of `p`, and nothing after them. */
  predicate Layout(d: seq<nat>, p: PackedMap) {
    Placed(d, HeadPart(p), TilesPart(p), BuildingsPart(p), UnitsPart(p), ProjectilesPart(p))
  }

  /** serializeMapData lays `p` out in that way. */
  lemma SerializedLayout(p: PackedMap)
    ensures Layout(Serialize(p), p)
  {
    FiveAt(HeadPart(p), TilesPart(p), BuildingsPart(p), UnitsPart(p), ProjectilesPart(p));
  }

  /** The sections read `p` back from any data laid out that way. */
  lemma SectionsBack(d: seq<nat>, p: PackedMap)
    requires Shaped(p) && Layout(d, p)
    ensures ReadSections(d, Upto(p, 0), TilesStart(p), Sections) == Ok(p)
  {
    ProjectilesStep(d, p);
    UnitsStep(d, p);
    BuildingsStep(d, p);
    TilesStep(d, p);
  }

  /** deserializeMapData reads `p` back from any data laid out that way. */
  lemma ReadBack(d: seq<nat>, p: PackedMap)
    requires Shaped(p) && Layout(d, p)
    ensures Deserialize(d) == Ok(p)
  {
    HeadAt(d, p.version, p.name);
    SectionsBack(d, p);
    assert TilesStart(p) == 2 + |p.name|;
    ChainBack(d, p);
  }

  /** deserializeMapData undoes serializeMapData on every packed map of the shape toPackedJson writes. */
  lemma DeserializeSerialized(p: PackedMap)
    requires Shaped(p)
    ensures Deserialize(Serialize(p)) == Ok(p)
  {
    SerializedLayout(p);
    ReadBack(Serialize(p), p);
  }

  // ---------------------------------------------------------------- level 3 text

  /** Math.floor(v / 256) written with String.fromCharCode, which keeps it modulo 2^16. */
  function High(v: nat): CodeUnit {
    FromCharCode(v / 256)
  }

  function Low(v: nat): CodeUnit {
    v % 256
  }

  /** The two code units per value that compress level 3 appends, in order. */
  function Pairs(values: seq<nat>): (r: JsString)
    ensures |r| == 2 * |values|
  {
    if values == [] then []
    else Pairs(values[..|values| - 1]) + [High(values[|values| - 1]), Low(values[|values| - 1])]
  }

  /** `high * 256 + low` on two code units. */
  function Value(high: CodeUnit, low: CodeUnit): nat {
    high as int * 256 + low as int
  }

  /** The `count` values decompress level 3 rebuilds from a payload of that many pairs: high * 256 + low. */
  function Values(payload: JsString, count: nat): (r: seq<nat>)
    requires |payload| == 2 * count
    ensures |r| == count
  {
    if count == 0 then []
    else Values(payload[..2 * count - 2], count - 1) + [Value(payload[2 * count - 2], payload[2 * count - 1])]
  }

  /** A value survives the two code units exactly when its high part fits in one code unit. */
  lemma PairRoundTrip(v: nat)
    ensures Value(High(v), Low(v)) == v <==> v < 0x100_0000
  {
    if v >= 0x100_0000 {
      assert v / 256 >= 0x1_0000;
      assert High(v) < v / 256;
    }
  }

  /** Every value of a level-3 text whose values are below 2^24 comes back. */
  lemma {:induction false} ValuesOfPairs(values: seq<nat>)
    requires forall k :: 0 <= k < |values| ==> values[k] < 0x100_0000
    ensures Values(Pairs(values), |values|) == values
    decreases |values|
  {
    if values != [] {
      var n := |values| - 1;
      var init := values[..n];
      var p := Pairs(values);
      assert p[..2 * n] == Pairs(init);
      ValuesOfPairs(init);
      PairRoundTrip(values[n]);
      assert values == init + [values[n]];
    }
  }

  /** A value of 2^24 or more does not come back. */
  lemma WideValueLost(v: nat)
    requires v >= 0x100_0000
    ensures Values(Pairs([v]), 1) != [v]
  {
    assert [v][..0] == [];
    PairRoundTrip(v);
  }

  /** compress level 3 on serialized data (lines 42-49). */
  method CompressLevel3(serialized: seq<nat>) returns (compressed: JsString)
    ensures compressed == [LevelThree] + Pairs(serialized)
    ensures |compressed| == 1 + 2 * |serialized|
  {
    compressed := [LevelThree];
    var i := 0;
    while i < |serialized|
      invariant 0 <= i <= |serialized|
      invariant compressed == [LevelThree] + Pairs(serialized[..i])
    {
      var positionValue := serialized[i];
      var high := positionValue / 256;
      var low := positionValue % 256;
      compressed := compressed + [FromCharCode(high), FromCharCode(low)];
      assert serialized[..i + 1][..i] == serialized[..i];
      i := i + 1;
    }
    assert serialized[..i] == serialized;
  }

  /**
   * The values decompress's level-3 loop rebuilds after the leading "3". A
   * payload of odd length makes the source read past the end of the text and
   * store NaN as the last value; NaN is not modelled, so that is an error here.
   */
  function DecodeLevel3(text: JsString): (r: Result<seq<nat>, Failure>)
    requires |text| > 0
    ensures r.Ok? ==> |r.value| == (|text| - 1) / 2
  {
    if |text| % 2 == 0 then Err(OddLevel3Payload) else Ok(Values(text[1..], |text| / 2))
  }

  /** decompress's level-3 branch before deserializeMapData (lines 65-72). */
  method DecompressLevel3(mapData: JsString) returns (r: Result<seq<nat>, Failure>)
    requires |mapData| > 0
    ensures r == DecodeLevel3(mapData)
  {
    if |mapData| % 2 == 0 {
      return Err(OddLevel3Payload);
    }
    var payload := mapData[1..];
    assert |payload| == 2 * (|mapData| / 2);
    var decodedMap := new nat[(|mapData| - 1) / 2];
    var nextInsertPosition := 0;
    var i := 1;
    while i < |mapData|
      invariant 1 <= i <= |mapData| && i == 2 * nextInsertPosition + 1
      invariant nextInsertPosition <= decodedMap.Length
      invariant decodedMap[..nextInsertPosition] == Values(payload[..2 * nextInsertPosition], nextInsertPosition)
    {
      assert payload[..2 * nextInsertPosition + 2][..2 * nextInsertPosition] == payload[..2 * nextInsertPosition];
      decodedMap[nextInsertPosition] := mapData[i] as int * 256 + mapData[i + 1] as int;
      assert decodedMap[..nextInsertPosition + 1] == decodedMap[..nextInsertPosition] + [decodedMap[nextInsertPosition]];
      nextInsertPosition := nextInsertPosition + 1;
      i := i + 2;
    }
    assert decodedMap[..] == decodedMap[..nextInsertPosition];
    assert payload[..2 * nextInsertPosition] == payload;
    r := Ok(decodedMap[..]);
  }

  // ---------------------------------------------------------------- compress and decompress

  /** What compress returns; `X` is the object map.exportData() gives, which level 0 writes. */
  datatype Payload<X> =
    | ExportText(exported: X)           // level 0: JSON of map.exportData()
    | PackedText(packed: PackedMap)     // level 1: JSON of map.toPackedJson()
    | SerializedText(values: seq<nat>)  // level 2: "2" and the JSON of the serialized array
    | CharText(text: JsString)          // level 3: "3" and two code units per value

  /** What decompress builds the map from: Map.fromPackedJson for arrays, map.importData otherwise. */
  datatype Decompressed<X> = Imported(data: X) | Unpacked(packed: PackedMap)

  /** compress */
  function Compression<X>(exported: X, p: PackedMap, level: int): (r: Result<Payload<X>, Failure>)
    ensures r.Err? <==> !(0 <= level <= 3)
    ensures r.Err? ==> r.error == UnsupportedLevel(level)
    ensures level == 3 ==> r.value.CharText? && |r.value.text| > 0 && r.value.text[0] == LevelThree
  {
    match level
    case 0 => Ok(ExportText(exported))
    case 1 => Ok(PackedText(p))
    case 2 => Ok(SerializedText(Serialize(p)))
    case 3 => Ok(CharText([LevelThree] + Pairs(Serialize(p))))
    case _ => Err(UnsupportedLevel(level))
  }

  function FromData<X>(data: Result<PackedMap, Failure>): Result<Decompressed<X>, Failure> {
    match data
    case Ok(p) => Ok(Unpacked(p))
    case Err(e) => Err(e)
  }

  /** decompress */
  function Decompression<X>(payload: Payload<X>): Result<Decompressed<X>, Failure> {
    match payload
    case ExportText(x) => Ok(Imported(x))
    case PackedText(p) => Ok(Unpacked(p))
    case SerializedText(values) => FromData(Deserialize(values))
    case CharText(text) =>
      if |text| == 0 || text[0] != LevelThree then Err(JsonText)
      else
        match DecodeLevel3(text)
        case Err(e) => Err(e)
        case Ok(values) => FromData(Deserialize(values))
  }

  /**
   * decompress undoes compress at every supported level: levels 2 and 3 need
   * the packed map's own shape, and level 3 also needs every serialized
   * value below 2^24, since two code units keep 24 bits.
   */
  lemma CompressRoundTrip<X>(exported: X, p: PackedMap, level: int)
    requires 0 <= level <= 3
    requires level >= 2 ==> Shaped(p)
    requires level == 3 ==> forall k :: 0 <= k < |Serialize(p)| ==> Serialize(p)[k] < 0x100_0000
    ensures Decompression(Compression(exported, p, level).value)
         == Ok(if level == 0 then Imported(exported) else Unpacked(p))
  {
    if level >= 2 {
      DeserializeSerialized(p);
      if level == 3 {
        CharTextBack(Serialize(p));
      }
    }
  }

  /** Level 3 text gives back the serialized values it was made of, when they all fit in 24 bits. */
  lemma CharTextBack(values: seq<nat>)
    requires forall k :: 0 <= k < |values| ==> values[k] < 0x100_0000
    ensures DecodeLevel3([LevelThree] + Pairs(values)) == Ok(values)
  {
    var text := [LevelThree] + Pairs(values);
    assert text[1..] == Pairs(values);
    HalfOfOdd(|text|, |values|);
    ValuesOfPairs(values);
  }

  lemma HalfOfOdd(m: nat, n: nat)
    requires m == 1 + 2 * n
    ensures m % 2 == 1 && m / 2 == n
  {
  }

  /** compress (engine/util/mapcompressor.js lines 27-53). */
  method Compress<X>(exported: X, p: PackedMap, level: int) returns (r: Result<Payload<X>, Failure>)
    ensures r == Compression(exported, p, level)
  {
    if level == 0 {
      r := Ok(ExportText(exported));
    } else if level == 1 {
      r := Ok(PackedText(p));
    } else if level == 2 {
      r := Ok(SerializedText(Serialize(p)));
    } else if level == 3 {
      var text := CompressLevel3(Serialize(p));
      r := Ok(CharText(text));
    } else {
      r := Err(UnsupportedLevel(level));
    }
  }

  /** decompress (engine/util/mapcompressor.js lines 63-85). */
  method Decompress<X>(payload: Payload<X>) returns (r: Result<Decompressed<X>, Failure>)
    ensures r == Decompression(payload)
  {
    match payload {
      case ExportText(x) =>
        r := Ok(Imported(x));
      case PackedText(p) =>
        r := Ok(Unpacked(p));
      case SerializedText(values) =>
        var data := DeserializeMapData(values);
        r := FromData(data);
      case CharText(text) =>
        if |text| == 0 || text[0] != LevelThree {
          r := Err(JsonText);
        } else {
          var decoded := DecompressLevel3(text);
          if decoded.Err? {
            r := Err(decoded.error);
          } else {
            var data := DeserializeMapData(decoded.value);
            r := FromData(data);
          }
        }
    }
  }
}
