/**
 * A map tile (engine/core/tile.js): its type, the properties copied from the
 * tile-type definition table, and the width of its light beam. A tile is
 * never changed after it is made, so it is a value.
 *
 * The definition table (TilesDefinition) is a parameter: `types[k]` is the
 * definition of type k, and a type outside the table has no definition, so
 * the constructor's first read of it throws.
 */
module Tiles {
  import opened Wrappers

  datatype TileDefinition = TileDefinition(
    image: string, accessible: bool, buildable: bool, minimap: string, resource: Option<int>)

  datatype Tile = Tile(
    typ: int, image: string, accessible: bool, buildable: bool, minimap: string,
    resource: Option<int>, lightSfx: int)

  /** What exportData returns: {type, lightSfx}. */
  datatype TileData = TileData(typ: int, lightSfx: int)

  datatype Failure =
    | UnknownType   // TilesDefinition.getType gave undefined, so reading definition.image throws
    | MissingValue  // a packed tile without its second element leaves lightSfx undefined

  /** The tile holds the definition of its own type. */
  predicate Describes(types: seq<TileDefinition>, t: Tile) {
    0 <= t.typ < |types| &&
    var d := types[t.typ];
    t.image == d.image && t.accessible == d.accessible && t.buildable == d.buildable &&
    t.minimap == d.minimap && t.resource == d.resource
  }

  /** new Tile(type): the definition's properties and no light beam. */
  function NewTile(types: seq<TileDefinition>, typ: int): (r: Result<Tile, Failure>)
    ensures r.Ok? <==> 0 <= typ < |types|
    ensures r.Ok? ==> r.value.typ == typ && r.value.lightSfx == 0 && Describes(types, r.value)
    ensures r.Ok? ==> r.value.accessible == types[typ].accessible
  {
    if 0 <= typ < |types| then
      var d := types[typ];
      Ok(Tile(typ, d.image, d.accessible, d.buildable, d.minimap, d.resource, 0))
    else Err(UnknownType)
  }

  /** exportData. */
  function ExportData(t: Tile): TileData {
    TileData(t.typ, t.lightSfx)
  }

  /** Tile.importData: a new tile of the exported type with the exported light beam. */
  function ImportData(types: seq<TileDefinition>, data: TileData): (r: Result<Tile, Failure>)
    ensures r.Ok? <==> 0 <= data.typ < |types|
    ensures r.Ok? ==> Describes(types, r.value) && ExportData(r.value) == data
  {
    match NewTile(types, data.typ)
    case Err(e) => Err(e)
    case Ok(t) => Ok(t.(lightSfx := data.lightSfx))
  }

  /** toPackedJson: [type, lightSfx]. */
  function ToPackedJson(t: Tile): (r: seq<int>)
    ensures |r| == 2 && r[0] == t.typ && r[1] == t.lightSfx
  {
    [t.typ, t.lightSfx]
  }

  /** Tile.fromPackedJson: the type from the first element, the light beam from the second. */
  function FromPackedJson(types: seq<TileDefinition>, data: seq<int>): (r: Result<Tile, Failure>)
    ensures r.Ok? <==> |data| >= 2 && 0 <= data[0] < |types|
    ensures r.Ok? ==> Describes(types, r.value) && ToPackedJson(r.value) == data[..2]
  {
    if data == [] then Err(UnknownType)
    else match NewTile(types, data[0])
      case Err(e) => Err(e)
      case Ok(t) => if |data| < 2 then Err(MissingValue) else Ok(t.(lightSfx := data[1]))
  }

  /** A tile made from the definitions comes back from its export. */
  lemma ImportExported(types: seq<TileDefinition>, t: Tile)
    requires Describes(types, t)
    ensures ImportData(types, ExportData(t)) == Ok(t)
  {
    var d := types[t.typ];
    assert ImportData(types, ExportData(t)) == Ok(Tile(t.typ, d.image, d.accessible, d.buildable, d.minimap, d.resource, t.lightSfx));
  }

  /** A tile made from the definitions comes back from its packed array. */
  lemma UnpackPacked(types: seq<TileDefinition>, t: Tile)
    requires Describes(types, t)
    ensures FromPackedJson(types, ToPackedJson(t)) == Ok(t)
  {
    var d := types[t.typ];
    assert FromPackedJson(types, ToPackedJson(t)) == Ok(Tile(t.typ, d.image, d.accessible, d.buildable, d.minimap, d.resource, t.lightSfx));
  }
}
