# futuremesh core in Dafny

This project models the core of futuremesh, a browser real-time strategy game engine written in JavaScript, together with its map-saving CGI script. It proves properties about that model. The modules follow the engine's files:

- **Codecs**
  - `MapCompressor` covers engine/util/mapcompressor.js: the packed-array map serialisation, and the level-3 string coding of it (two 8-bit code units per value).
  - `LegacyCompressor` covers js/mapcompressor.js: the older four-level map codec.
  - `Lzw` covers js/lzw.js.
  - `Base64` covers engine/util/base64.js.
  - `JsText` and `Seqs` hold the fragment of JavaScript string, number and array semantics that these codecs rely on:
    - UTF-16 code units;
    - the 16-bit truncation of `String.fromCharCode`;
    - the truncating `%` operator;
    - `split`, `join`, `parseInt`, `reverse` and `map`.
- **Game objects**
  - `Tiles` models engine/core/tile.js. A tile never changes after it is made, so it is a value.
  - `Buildings` models engine/core/building.js and `Units` models engine/core/unit.js. Both are classes, because several plug-ins change the same objects in place.
  - Each of the two classes has an id counter object that plays the part of the module-level `id` variable.
- **The map**: `GameMap` models engine/core/map.js.
  - It holds the tile rows and the lists of buildings, units and projectiles.
  - It also holds the building, unit and navigation indexes, which the add, remove and move operations keep in step with the lists.
- **The runtime**: `Gameplay` models engine/core/gameplay.js: plug-in registration, the event queue, and the event-delivery plug-in.
- **The plug-ins**
  - `ResourceManagement`: resource requests and gains.
  - `PowerManagement`: the per-player energy balance.
  - `BuildingRepair`: the repair list.
  - `Projectiles`: projectile flight and strikes.
  - `BuildingControl`: the sell and repair modes, building placement, selection and sale.
  - `UnitAI`: unit ticks, turning, heading choice, the look ahead and box selection.
- **Images**: `Colorifier` models js/colorifier.js, the colour shift that makes each player's copy of an image.
- **Server**: `SaveMap` models cgi-bin/savemap.py. The filesystem is a map from path to content.

Modelling conventions:

- **Objects that the source changes in place are classes.** Their methods state the whole new state, often through a specification function on values, and lemmas prove the promised properties of those functions.
- **Failures are values.** A JavaScript `throw` is an `Err` result, or a `Failure` value where a method reports it.
- **Data tables are parameters.** The definition tables under data/ (tile, building and unit types) are passed in: `types[k]` is the definition of type k.
- **Outgoing events and renderer calls are recorded.** Events a plug-in sends go to an outbox field `sent`. Calls on the view and on the effects renderer go to a field `display`.
- **Settings and wiring are set at construction.** Values the source receives from the settings or from the initialisation events are given to the plug-in's constructor: the map, the player, the construction distance and the refund factor.

Where the code and its documentation disagree, the model follows the code. The main cases are listed under "## Findings" below:

- LZW encoding pads its output with NULs.
- Base64 coding of the empty string does not round-trip.
- A refused resource request keeps some deductions.
- `loadSavePoint` clears only half of its lists.

## Model

| member | source | states |
|---|---|---|
| Base64.KeyIndex | engine/util/base64.js:15-16 | the index found for a unit is the position of that unit in the 65-character key string, or -1 when the unit is not in it |
| Base64.KeyIndexIsIndexOf | engine/util/base64.js:59-62 | the index agrees with `keyString.indexOf`, a search from the front of the key string |
| Base64.KeyIndexOfSymbol | engine/util/base64.js:15-16 | looking up the k-th key character gives back k, so the key string has no repeated character |
| Base64.QuadRoundTrip | engine/util/base64.js:33-36 | three bytes become four key indexes below the pad, and the decoder's shifts and masks at lines 63-65 give them back |
| Base64.PaddedQuad | engine/util/base64.js:63-68 | the first decoded unit depends on the first two indexes only, and the second on the first three, so a pad in a later place does not disturb them |
| Base64.CharAt | engine/util/base64.js:39-40 | `keyString.charAt(k)` is the k-th key character, or the empty string past the end |
| Base64.IndexAt | engine/util/base64.js:59-62 | an index read past the end of the input is 0, since `charAt` gives '' and `indexOf('')` is 0; an index read inside it names that character |
| Base64.DecodeGroup | engine/util/base64.js:63-68 | one decoder pass writes one unit, plus one more for each of the third and fourth places that is not a pad |
| Base64.EncodeString | engine/util/base64.js:27-42 | the do-while loop produces exactly the block-by-block encoding, with at least one pass even for the empty input |
| Base64.DecodeString | engine/util/base64.js:56-69 | the do-while loop produces exactly the block-by-block decoding |
| Base64.EncodedSymbols | engine/util/base64.js:39-40 | every character the encoder writes is a character of the key string, which is what decode needs |
| Base64.EncodedLength | engine/util/base64.js:29-41 | a non-empty string of n bytes encodes to 4·⌈n/3⌉ characters; the empty string still encodes to 4 |
| Base64.EncodeGroupLength | engine/util/base64.js:39-40 | every pass writes exactly four characters |
| Base64.GroupRoundTrip | engine/util/base64.js:30-40 | one decoder pass undoes one encoder pass over the next one to three bytes, whatever follows them |
| Base64.BlocksRoundTrip | engine/util/base64.js:24-71 | the decoder's loop undoes the encoder's loop on every non-empty string of bytes |
| Base64.RoundTrip | engine/util/base64.js:4-7 | decode(encode(s)) == s for every non-empty escaped string, as the header comment promises |
| Base64.EmptyRoundTripFails | engine/util/base64.js:29-41 | the empty string encodes to "AA==", which decodes to a single NUL unit |
| Base64.RoundTripIntended | engine/util/base64.js:4-7 | with the empty string mapped to itself in both directions, the round trip holds for every escaped string |
| Lzw.ToUnits | js/lzw.js:36-38 | `String.fromCharCode` applied to each code gives one unit per code |
| Lzw.Padded | js/lzw.js:36-38 | the conversion loop as written gives exactly as many units as the input has |
| Lzw.EncodeCodes | js/lzw.js:17-35 | the main loop over the input pushes exactly the codes of the dictionary fold, over a dictionary that holds only the phrases the encoder added |
| Lzw.Encode | js/lzw.js:15-40 | encode as written equals the fold followed by the padded conversion, and the result is as long as the input; the dictionary holds only added phrases |
| Lzw.EncodeCorrected | js/lzw.js:15-40 | with the conversion bounded by the number of codes, encode equals the fold and is never longer than the input; the dictionary holds only added phrases |
| Lzw.DecodeString | js/lzw.js:52-71 | the decoder loop equals the decoding fold; the empty string decodes to the empty string |
| Lzw.EncodeFromOutput | js/lzw.js:23-33 | each remaining unit adds at most one code to the output |
| Lzw.CodesShorter | js/lzw.js:17-35 | the encoder never pushes more codes than the input has units |
| Lzw.AsWrittenLength | js/lzw.js:36-39 | as written the encoding is always exactly as long as the input, and the corrected one is never longer |
| Lzw.AsWrittenPadsWithNul | js/lzw.js:36-38 | "aaa" encodes as written to [97, 256, 0], which decodes to "aaa" followed by a NUL |
| Lzw.DecodeLiterals | js/lzw.js:59-66 | a string whose units are all below 256 decodes to itself |
| Lzw.DecodeIsFold | js/lzw.js:52-71 | decode is the left fold of the decoder step over the input |
| Lzw.TracksStep | js/lzw.js:23-33 | the decoder state that follows the encoded codes advances exactly when the encoder emits a code |
| Lzw.SimulatesStart | js/lzw.js:17-22 | after the first unit, the encoder and the decoder start in step |
| Lzw.DecoderReadsPhrase | js/lzw.js:60-65 | the code emitted for the current phrase fits a UTF-16 unit, and the decoder reads it back as that phrase, including the case where the code is not yet in the decoder's dictionary |
| Lzw.StepHit | js/lzw.js:25-26 | extending a phrase already in the dictionary keeps the encoder and the decoder in step |
| Lzw.MissLags | js/lzw.js:27-31 | emitting a code and adding a dictionary entry keeps the decoder exactly one entry behind the encoder |
| Lzw.MissKnown | js/lzw.js:27-31 | after a new encoder entry and the matching decoder step, every encoder entry is still known to the decoder, the new one as its newest |
| Lzw.SimulatesStep | js/lzw.js:23-33 | every iteration of the encoder's loop keeps the two in step |
| Lzw.SimulatesAt | js/lzw.js:23-33 | the encoder and the decoder stay in step over the whole input |
| Lzw.Finish | js/lzw.js:34-35 | the final push completes the decoded output to the whole input |
| Lzw.RoundTrip | js/lzw.js:4-7 | decode inverts the corrected encode on every non-empty string of units below 256 that is short enough for every code to fit a UTF-16 unit, with dictionaries that hold only added phrases |
| MapCompressor.SerializeVariable | engine/util/mapcompressor.js:222-230 | an array becomes its length followed by its elements, so an empty array becomes [0] |
| MapCompressor.Slice | engine/util/mapcompressor.js:106 | `slice(a, b)` is clipped to the array: inside it, it is the stretch from a to b |
| MapCompressor.AreaIsProduct | engine/util/mapcompressor.js:115 | the tile count is width * height |
| MapCompressor.Records | engine/util/mapcompressor.js:116-119 | the fixed-size loop slices out exactly `count` records |
| MapCompressor.Deserialize | engine/util/mapcompressor.js:97-104 | a version below 90 is refused as too old, one above 90 as too new, and every map read back has version 90 |
| MapCompressor.ReadSections | engine/util/mapcompressor.js:108-146 | reading the sections never changes the version or the name |
| MapCompressor.ReadTiles | engine/util/mapcompressor.js:108-120 | the tiles step fills in only the width, the height and the tiles |
| MapCompressor.ReadBuildings | engine/util/mapcompressor.js:121-127 | the buildings step fills in only the buildings |
| MapCompressor.ReadUnits | engine/util/mapcompressor.js:128-134 | the units step fills in only the units |
| MapCompressor.ReadProjectiles | engine/util/mapcompressor.js:135-141 | the projectiles step fills in only the projectiles |
| MapCompressor.ReadRecords | engine/util/mapcompressor.js:116-119 | the loop fills exactly the records that `index = offset + i * size` slices out |
| MapCompressor.ReadVariableRecords | engine/util/mapcompressor.js:129-134 | the units loop reads a length and then that many numbers per unit, and fails when a length would be read past the end |
| MapCompressor.DeserializeMapData | engine/util/mapcompressor.js:94-147 | the method computes exactly the deserialization, including the version checks and the check that the data ends where the last section does |
| MapCompressor.TilesSection | engine/util/mapcompressor.js:108-120 | the tiles section of the method equals its specification |
| MapCompressor.BuildingsSection | engine/util/mapcompressor.js:121-127 | the buildings section of the method equals its specification |
| MapCompressor.UnitsSection | engine/util/mapcompressor.js:128-134 | the units section of the method equals its specification |
| MapCompressor.ProjectilesSection | engine/util/mapcompressor.js:135-141 | the projectiles section of the method equals its specification |
| MapCompressor.FlattenAt | engine/util/mapcompressor.js:201-204 | in records of one size laid end to end, record i starts at i * size |
| MapCompressor.RecordsAt | engine/util/mapcompressor.js:116-126 | records of one size laid out from an offset are read back by the fixed-size loop |
| MapCompressor.UnitsLaidOut | engine/util/mapcompressor.js:206-208 | each serialized unit is its length followed by its numbers, one after another |
| MapCompressor.VariableAt | engine/util/mapcompressor.js:129-134 | units laid out that way are read back by the units loop, which stops right after them |
| MapCompressor.TilesBack | engine/util/mapcompressor.js:108-120 | the width, the height and the tiles written by serializeMapData are read back |
| MapCompressor.BuildingsBack | engine/util/mapcompressor.js:121-127 | the building count and the buildings written by serializeMapData are read back |
| MapCompressor.UnitsBack | engine/util/mapcompressor.js:128-134 | the unit count and the units written by serializeMapData are read back |
| MapCompressor.ProjectilesBack | engine/util/mapcompressor.js:135-141 | the projectile count and the projectiles written by serializeMapData are read back |
| MapCompressor.SerializedLayout | engine/util/mapcompressor.js:192-213 | serializeMapData writes the version, the name with its length, the width, the height, the tiles, and each list after its count, with nothing after them |
| MapCompressor.ReadBack | engine/util/mapcompressor.js:94-147 | deserializeMapData gives the packed map back from any data laid out that way, and the final length check passes |
| MapCompressor.DeserializeSerialized | engine/util/mapcompressor.js:94-147 | deserializeMapData(serializeMapData(p)) == p for every map packed with tiles of 2 numbers, buildings of 6 and projectiles of 15 |
| MapCompressor.Pairs | engine/util/mapcompressor.js:43-48 | level 3 writes two code units per value |
| MapCompressor.Values | engine/util/mapcompressor.js:68-72 | decompression rebuilds one value from each pair of code units |
| MapCompressor.PairRoundTrip | engine/util/mapcompressor.js:45-47 | high * 256 + low gives the value back exactly when the value is below 2^24, since `String.fromCharCode` keeps the high part modulo 2^16 |
| MapCompressor.ValuesOfPairs | engine/util/mapcompressor.js:65-72 | every value below 2^24 in a level-3 text comes back |
| MapCompressor.WideValueLost | engine/util/mapcompressor.js:45-47 | a value of 2^24 or more does not come back |
| MapCompressor.CompressLevel3 | engine/util/mapcompressor.js:42-49 | the level-3 text is "3" followed by high = v div 256 and low = v mod 256 for each value, 1 + 2n units long |
| MapCompressor.DecodeLevel3 | engine/util/mapcompressor.js:65-72 | a level-3 text of odd length m gives (m - 1) / 2 values; an even length, where the source's last value is NaN, is an error here |
| MapCompressor.DecompressLevel3 | engine/util/mapcompressor.js:65-72 | the loop computes that decoding, the even-length error included |
| MapCompressor.Compression | engine/util/mapcompressor.js:27-53 | compress fails exactly for a level other than 0 to 3, naming the level, and level 3 output starts with "3" |
| MapCompressor.CharTextBack | engine/util/mapcompressor.js:42-49 | the level-3 text gives back the serialized values it was made of, when they all fit in 24 bits |
| MapCompressor.CompressRoundTrip | engine/util/mapcompressor.js:55-85 | decompress undoes compress at every supported level: level 0 and 1 always, level 2 for maps of the packed shape, and level 3 also when every serialized value fits in 24 bits |
| MapCompressor.Compress | engine/util/mapcompressor.js:27-53 | the method computes exactly compress's result |
| MapCompressor.Decompress | engine/util/mapcompressor.js:63-85 | the method computes the model's Decompression, which is decompress's result except that an even-length level-3 text is an error |
| LegacyCompressor.Shorten | js/mapcompressor.js:221-256 | level 1 succeeds exactly when there is a first row and no row is shorter than it; the width is the first row's length, the height the number of rows, and the buildings and units come out in reverse order |
| LegacyCompressor.CompressLevel1 | js/mapcompressor.js:221-256 | the two tile loops, the buildings helper and the unit loop compute Shorten, failing at a row shorter than the first |
| LegacyCompressor.CompressLevel1Buildings | js/mapcompressor.js:258-270 | the buildings come out in reverse order, each record unchanged |
| LegacyCompressor.PushRow | js/mapcompressor.js:230-235 | the inner tile loop appends the first `cols` tiles of a row from the last to the first |
| LegacyCompressor.RevRowsFlatten | js/mapcompressor.js:228-236 | on a rectangular map the tile loops give the flattened rows fully reversed |
| LegacyCompressor.Chunks | js/mapcompressor.js:96-101 | every run cut by spliceTiles is non-empty and holds at most `cols` tiles |
| LegacyCompressor.SpliceTiles | js/mapcompressor.js:96-104 | with no positive column count and tiles left the loop never ends (an error here); otherwise the runs of `cols` tiles cut from the front, in reverse order |
| LegacyCompressor.ChunksFlatten | js/mapcompressor.js:96-101 | cutting a flattened rectangular list into runs of the row length gives the rows back |
| LegacyCompressor.Rows | js/mapcompressor.js:80-94 | restoring the tile rows fails exactly when the width is not positive and tiles remain |
| LegacyCompressor.DecompressLevel1Tiles | js/mapcompressor.js:80-94 | splicing and then reversing each row in place computes Rows |
| LegacyCompressor.TilesBack | js/mapcompressor.js:80-104 | the tile rows are restored from the fully reversed flat list that level 1 writes |
| LegacyCompressor.Lengthen | js/mapcompressor.js:49-78 | undoing level 1 fails exactly when the width is not positive and tiles remain, and reverses the buildings and the units back |
| LegacyCompressor.DecompressLevel1 | js/mapcompressor.js:49-78 | the in-place reversals and the renaming loops compute Lengthen |
| LegacyCompressor.ShortenExported | js/mapcompressor.js:221-256 | on an exportable map level 1 is the width, the height, the fully reversed flat tiles and the reversed buildings and units |
| LegacyCompressor.Level1RoundTrip | js/mapcompressor.js:49-104 | decompressLevel1 gives back every rectangular map with at least one column that compressLevel1 took |
| LegacyCompressor.Tabulate | js/mapcompressor.js:193-219 | level 2 keeps the width and height and one field array for each tile, building and unit |
| LegacyCompressor.TabulatedRecords | js/mapcompressor.js:197-211 | the i-th array is [t, l], [x, y, t, p] or [x, y, d, t, p] of the record i places from the end |
| LegacyCompressor.CompressLevel2 | js/mapcompressor.js:193-219 | the three push loops compute Tabulate |
| LegacyCompressor.FieldAt | js/mapcompressor.js:112-113 | reading past the end of an array is undefined, which parseInt turns into NaN |
| LegacyCompressor.Untabulate | js/mapcompressor.js:106-144 | a successful level-2 decoding keeps the width and height and the number of records of each kind |
| LegacyCompressor.DecompressLevel2 | js/mapcompressor.js:106-144 | the three parse loops compute Untabulate |
| LegacyCompressor.TileBack | js/mapcompressor.js:110-115 | parsing a tile's array gives the tile back |
| LegacyCompressor.BuildingBack | js/mapcompressor.js:118-125 | parsing a building's array gives the building back |
| LegacyCompressor.UnitBack | js/mapcompressor.js:128-135 | parsing a unit's array gives the unit back |
| LegacyCompressor.Level2RoundTrip | js/mapcompressor.js:106-144 | decompressLevel2 gives back every level-1 map that compressLevel2 took |
| LegacyCompressor.CompressLevel3 | js/mapcompressor.js:170-191 | joining every record in place and then the five parts computes Pack |
| LegacyCompressor.Unpack | js/mapcompressor.js:146-168 | decoding needs at least three '\|' parts, and an empty or missing buildings or units part gives no records |
| LegacyCompressor.DecompressLevel3 | js/mapcompressor.js:146-168 | the splits and the in-place record splits compute Unpack |
| LegacyCompressor.RecordTextBack | js/mapcompressor.js:153-174 | a record of non-negative numbers joined with ',' splits back into its fields' texts and holds no '-' or '\|' |
| LegacyCompressor.PartBack | js/mapcompressor.js:149-187 | the '-'-joined records of one part split back into their texts |
| LegacyCompressor.RecordsBack | js/mapcompressor.js:150-189 | an empty buildings or units list writes an empty part, which reads back as no records |
| LegacyCompressor.PackBack | js/mapcompressor.js:146-191 | decompressLevel3 reads back what compressLevel3 wrote, each field now the string it was written as |
| LegacyCompressor.SameTexts | js/mapcompressor.js:112-134 | parseInt reads a number and its decimal text the same, so level 2 decodes the string fields as it would the numbers |
| LegacyCompressor.ShortNatural | js/mapcompressor.js:221-256 | level 1 of a map without negative numbers holds no negative number |
| LegacyCompressor.TabulatedPlain | js/mapcompressor.js:193-219 | level 2 of such a map holds only non-empty arrays of non-negative numbers |
| LegacyCompressor.Compression | js/mapcompressor.js:27-32 | level 0 or below leaves the map as it is; above 0 it fails exactly when level 1 does; levels 1, 2 and 3 or more give the level-1 object, the arrays and the string |
| LegacyCompressor.Compress | js/mapcompressor.js:27-32 | the three guarded steps compute Compression |
| LegacyCompressor.Decompression | js/mapcompressor.js:42-47 | level 0 or below returns the payload as it is; a successful decoding at a positive level gives exported map data |
| LegacyCompressor.Decompress | js/mapcompressor.js:42-47 | the three guarded steps, the top one first, compute Decompression |
| LegacyCompressor.UndoEach | js/mapcompressor.js:42-47 | decompress is the three level undos chained from the top one |
| LegacyCompressor.CompressRoundTrip | js/mapcompressor.js:27-47 | for every exportable map, at every level (above 2 only without negative numbers), compress succeeds and decompress at the same level gives the map back |
| Tiles.NewTile | engine/core/tile.js:10-68 | a tile exists exactly for a type in the definition table; it holds that type, its definition's properties and no light beam |
| Tiles.ImportData | engine/core/tile.js:103-108 | importing succeeds exactly for a known type, and the tile exports back the data it was made from |
| Tiles.ToPackedJson | engine/core/tile.js:91-93 | the packed tile is the pair of its type and its light beam |
| Tiles.FromPackedJson | engine/core/tile.js:117-122 | unpacking succeeds exactly for two or more elements whose first is a known type, and the tile packs back to the first two |
| Tiles.ImportExported | engine/core/tile.js:78-108 | every tile made from the definitions comes back unchanged from its exported data |
| Tiles.UnpackPacked | engine/core/tile.js:91-122 | every tile made from the definitions comes back unchanged from its packed array |
| Buildings.Pack | engine/core/building.js:222-231 | six numbers, the last one 0 or 1 for the production flag |
| Buildings.Unpack | engine/core/building.js:257-263 | the fields of a packed building can be read back exactly when there are at least five elements |
| Buildings.UnpackPack | engine/core/building.js:222-263 | every exported field comes back from the packed array, the flag included |
| Buildings.Building.constructor | engine/core/building.js:23-193 | a new building holds its id, position, type and owner, its definition's properties, full hitpoints and no production flag |
| Buildings.Building.ExportData | engine/core/building.js:204-214 | the exported data carries the building's current position, hitpoints and production flag |
| Buildings.Building.ToPackedJson | engine/core/building.js:222-231 | the packed array reads back as the building's exported data |
| Buildings.BuildingIds.NewBuilding | engine/core/building.js:23-193 | every new building uses up the next id, even of an unknown type; a known type gives a fresh building with its definition's properties and the given colour or else the owner's |
| Buildings.BuildingIds.ImportData | engine/core/building.js:241-248 | an imported building of a known type exports back the data it was made from, in its owner's colour |
| Buildings.BuildingIds.FromPackedJson | engine/core/building.js:257-263 | unpacking succeeds exactly for five or more elements whose third is a known type, and the building's exported data is what the array holds |
| Buildings.PackedRoundTrip | engine/core/building.js:222-263 | a building rebuilt from its own packed array exports the same data and has the same definition's properties |
| Units.Step | engine/core/unit.js:288-317 | a step north or south moves two rows with x unchanged, east or west one column on the same row, and a direction outside 0..7 stays put |
| Units.StepCount | engine/core/unit.js:279-285 | move takes `distance` steps, and a single step when the distance is at most 1 |
| Units.StepBack | engine/core/unit.js:288-317 | away from the top edge, a step followed by a step in the opposite direction returns to the cell, on both row parities |
| Units.StepRows | engine/core/unit.js:288-317 | a step moves at most two rows up or down |
| Units.WalkRows | engine/core/unit.js:283-285 | n steps move at most 2n rows up |
| Units.WalkAfterStep | engine/core/unit.js:283-285 | the recursive move takes its first step first: n steps are one step and then n - 1 |
| Units.WalkBack | engine/core/unit.js:279-320 | far enough from the top edge, n steps back in the opposite direction undo n steps |
| Units.Unit.constructor | engine/core/unit.js:36-258 | a new unit holds its id, position, heading, type and owner, its definition's properties, its position as the last one, action 0, no move offset, no move target and no waypoints |
| Units.Unit.Move | engine/core/unit.js:279-320 | the unit ends StepCount(distance) steps further in its direction, the position before the whole move recorded as the last one, in action 2 with no offset, and nothing else changed |
| Units.Unit.ExportData | engine/core/unit.js:360-368 | the exported data is the unit's current position, heading, type and owner |
| Units.UnitIds.NewUnit | engine/core/unit.js:36-258 | every new unit uses up the next id, even of an unknown type; a known type gives a fresh unit with its definition's properties, exporting the given fields, in the given colour or else the owner's |
| Units.UnitIds.ImportData | engine/core/unit.js:377-380 | an imported unit of a known type exports back the data it was made from, in its owner's colour |
| GameMap.Projectile.constructor | engine/core/projectile.js:57-230 | a new projectile holds its type, duration, target tile, damage, owner and shooter, with no progress |
| GameMap.Blank | engine/core/map.js:616-627 | height rows of width cells, every cell blank |
| GameMap.Map.CreateIndex | engine/core/map.js:616-627 | the two nested push loops build height rows of width null cells |
| GameMap.Accessibility | engine/core/map.js:654-663 | the navigation index has the tiles' shape and each cell is the tile's accessibility |
| GameMap.Map.InitNavigationIndex | engine/core/map.js:654-663 | the backward loops leave every navigation cell equal to its tile's accessibility, and nothing else changes |
| GameMap.Map.CreateIndexes | engine/core/map.js:637-642 | the building and unit indexes become empty with the tiles' height and width, and navigation is the tiles' accessibility |
| GameMap.Map.SetTiles | engine/core/map.js:235-238 | the new tiles are kept and every index rebuilt for them |
| GameMap.Map.constructor | engine/core/map.js:8-69 | a new map is named "unnamed map" and holds no tiles, buildings, units or projectiles |
| GameMap.Diagonal | engine/core/map.js:594-605 | the inner loop writes `count` cells, each one row down and one column right on odd rows |
| GameMap.DiagonalsCount | engine/core/map.js:591-606 | `rows` diagonals of `width` cells give rows * width cells |
| GameMap.FootprintCount | engine/core/map.js:586-608 | getBuildingPositions returns exactly width * height cells |
| GameMap.BuildingPositions | engine/core/map.js:586-608 | the two loops, starting each diagonal half a row to the left, compute the building's footprint Cells |
| GameMap.Set | engine/core/map.js:95 | writing a cell keeps the shape of the index |
| GameMap.Paint | engine/core/map.js:93-98 | writing a value on listed cells keeps the shape of the index |
| GameMap.PaintAt | engine/core/map.js:93-98 | after the writes a cell holds the value exactly when it is listed, and otherwise what it held |
| GameMap.PaintShaped | engine/core/map.js:93-98 | the writes keep an index of height rows of width cells |
| GameMap.Map.PaintCells | engine/core/map.js:93-120 | the backward loop over the positions computes Paint |
| GameMap.LastBuilding | engine/core/map.js:108-113 | the index found is the last entry with the id, or -1 when no entry has it |
| GameMap.LastUnit | engine/core/map.js:168-173 | the index found is the last entry with the id, or -1 when no entry has it |
| GameMap.Map.WithoutLastBuilding | engine/core/map.js:108-113 | the backward search splices out the last entry with the id, or leaves the list when there is none |
| GameMap.Map.WithoutLastUnit | engine/core/map.js:168-173 | the backward search splices out the last entry with the id, or leaves the list when there is none |
| GameMap.Map.UpdateBuilding | engine/core/map.js:89-99 | the building is appended to the list and written on each of its cells, which become unnavigable unless it is passable; nothing else changes and the indexes keep their shape |
| GameMap.Map.RemoveBuilding | engine/core/map.js:106-121 | the last list entry with the building's id is removed and its cells emptied, made navigable again unless it is passable; nothing else changes |
| GameMap.PaintTwice | engine/core/map.js:93-120 | writing the same cells twice leaves only the second value |
| GameMap.PaintSame | engine/core/map.js:115-120 | writing on cells the value they already hold changes nothing |
| GameMap.RemoveUndoesPlace | engine/core/map.js:89-121 | emptying the cells a building was written on, when they were empty, restores the index |
| GameMap.DropLastBuilding | engine/core/map.js:91-113 | removing a building just appended gives back the earlier list |
| GameMap.DropLastUnit | engine/core/map.js:163-173 | removing a unit just appended gives back the earlier list |
| GameMap.ReleaseUndoesOccupy | engine/core/map.js:162-179 | a unit placed on an empty navigable cell holds it, and freeing it restores both indexes |
| GameMap.Map.UpdateUnit | engine/core/map.js:159-190 | action 0 creates, action 1 destroys and action 2 moves the unit, any other action changes nothing; buildings, tiles and projectiles are untouched |
| GameMap.Map.AddUnit | engine/core/map.js:162-166 | the unit is appended, stands on its cell and blocks navigation there |
| GameMap.Map.DropUnit | engine/core/map.js:167-179 | the last list entry with the unit's id is removed, and its cell is freed and made navigable only if it holds that unit |
| GameMap.Map.MoveUnit | engine/core/map.js:180-188 | the last cell is freed only if it holds this unit, then the unit stands on its new cell and blocks it |
| GameMap.Map.ObjectAt | engine/core/map.js:223-228 | a unit on the cell is found before a building on it, a building when there is no unit, and nothing off the map |
| GameMap.Map.AddProjectile | engine/core/map.js:128-130 | the projectile is appended |
| GameMap.SpliceOne | engine/core/map.js:150-152 | splice(index, 1) removes the element at an index inside the list and leaves the list otherwise |
| GameMap.Map.RemoveProjectile | engine/core/map.js:150-152 | the projectile list becomes SpliceOne of it |
| GameMap.ForEachSpliceOdd | engine/core/map.js:520-529 | the visits left from k keep the first k entries and every other entry after them |
| GameMap.ForEachSpliceKeepsHalf | engine/core/map.js:520-529 | removing each entry from inside forEach leaves the entries at odd positions, half the list |
| GameMap.ForEachSpliceTwo | engine/core/map.js:520-529 | of two entries the second survives |
| GameMap.Map.RemoveAt | engine/core/map.js:520-522 | removeBuilding on the k-th listed building takes exactly that entry off the list |
| GameMap.Map.ForEachRemoveBuilding | engine/core/map.js:520-522 | the forEach over the buildings leaves ForEachSplice of the list |
| GameMap.Map.DestroyAt | engine/core/map.js:523-526 | the k-th unit is marked destroyed and taken off the list |
| GameMap.Map.ForEachDestroyUnit | engine/core/map.js:523-526 | the forEach over the units leaves ForEachSplice of the list |
| GameMap.Map.ForEachRemoveProjectile | engine/core/map.js:527-529 | the forEach over the projectiles leaves ForEachSplice of the list |
| GameMap.Map.DiscardAsWritten | engine/core/map.js:520-529 | the three removal loops as written leave half of every list |
| GameMap.Map.Discard | engine/core/map.js:520-529 | every building, unit and projectile is removed and every old unit marked destroyed |
| GameMap.Map.DiscardBuildings | engine/core/map.js:520-522 | all buildings removed, the units and projectiles kept |
| GameMap.Map.DiscardUnits | engine/core/map.js:523-526 | all units marked destroyed and removed, the buildings and projectiles kept |
| GameMap.Map.DiscardProjectiles | engine/core/map.js:527-529 | all projectiles removed and nothing else changed |
| GameMap.Map.LoadSavePoint | engine/core/map.js:512-554 | a version below or above 90 is refused before anything changes; version 90 empties the map, rebuilds its indexes and leaves exactly the saved buildings, units and projectiles listed, given them already decoded; the building index is then the blank grid with the saved buildings painted in turn, the unit index the blank grid with each saved unit on its cell, and the navigation index the tiles' accessibility with every impassable saved building's cells and every saved unit's cell unnavigable (PaintAll, SetUnits, BlockAll and BlockUnits, whose meaning the lemmas below state); with a saved unit the source throws instead (see "## Left out") |
| GameMap.Map.PlaceBuildings | engine/core/map.js:531-534 | the saved buildings are listed in order; the building index is each painted in turn over its cells (PaintAll) and the navigation index has each impassable one painted unnavigable in turn (BlockAll); the unit index and the lists of units and projectiles are untouched |
| GameMap.Map.PlaceUnits | engine/core/map.js:535-538 | the saved units are listed in order; each is written on its cell of the unit index in turn (SetUnits) and makes that cell unnavigable (BlockUnits); buildings, tiles and projectiles are untouched |
| GameMap.Map.PlaceProjectiles | engine/core/map.js:549-553 | the saved projectiles are appended in order |
| GameMap.Map.Reload | engine/core/map.js:530-553 | on an emptied map, createIndexes followed by the three loops leaves the saved lists and the three indexes as PaintAll, SetUnits and BlockUnits over BlockAll of the accessibility have them, the tiles untouched |
| GameMap.Map.PlaceBuilding | engine/core/map.js:89-99 | one more updateBuilding extends the building index's PaintAll and the navigation index's BlockAll by that building |
| GameMap.Map.PlaceUnit | engine/core/map.js:159-166 | one more updateUnit of a created unit extends the unit index's SetUnits and the navigation index's BlockUnits by that unit |
| GameMap.PaintAllStep | engine/core/map.js:89-99 | painting one more building that fits is writing it over each of its cells |
| GameMap.BlockAllStep | engine/core/map.js:89-99 | one more building that fits leaves the navigation fold as it was when passable and makes its cells unnavigable otherwise |
| GameMap.SetUnitsStep | engine/core/map.js:159-166 | one more created unit on the grid is written on its cell |
| GameMap.BlockUnitsStep | engine/core/map.js:159-166 | one more created unit on the grid makes its cell unnavigable |
| GameMap.PaintAllStands | engine/core/map.js:531-534 | after the buildings are placed, each cell of a saved building holds that building unless a later saved building covers the cell |
| GameMap.BlockAllBlocks | engine/core/map.js:89-99 | after the buildings are placed, every cell of every impassable saved building is unnavigable |
| GameMap.BlockAllElsewhere | engine/core/map.js:89-99 | a cell that no impassable saved building covers keeps its navigability |
| GameMap.SetUnitsStand | engine/core/map.js:535-538 | after the units are placed, each saved unit stands on its cell unless a later saved unit is on the same cell |
| GameMap.SetUnitsElsewhere | engine/core/map.js:535-538 | a cell that no saved unit stands on keeps what the unit index held |
| GameMap.BlockUnitsBlocks | engine/core/map.js:159-166 | after the units are placed, every saved unit's cell is unnavigable |
| GameMap.BlockUnitsElsewhere | engine/core/map.js:159-166 | a cell that no saved unit stands on keeps its navigability |
| GameMap.PaintNullShrinks | engine/core/map.js:115-120 | emptying cells adds no building to the index |
| GameMap.SetNullShrinks | engine/core/map.js:176-183 | freeing a cell adds no unit to the index |
| GameMap.PaintOneGrows | engine/core/map.js:93-98 | writing a building adds only that building to the index |
| GameMap.PlacedKept | engine/core/map.js:106-190 | every indexed building still covers map cells and every indexed unit still stands on the map after a step that added nothing and moved nothing |
| GameMap.PlacedGrown | engine/core/map.js:89-99 | the same after a step that added only buildings covering map cells |
| GameMap.ObjectOnMap | engine/core/map.js:223-228 | what getObjectAt finds is held by the unit or the building index |
| GameMap.NavigableInMap | engine/core/map.js:286-288 | on a valid map a navigation cell is a map cell |
| Gameplay.ListenCount | engine/core/gameplay.js:183-193 | a plugin observing a name k times is appended k times to that name's list, and every other list is untouched |
| Gameplay.Add | engine/core/gameplay.js:196-218 | registering one object fails exactly when it is of no plugin class |
| Gameplay.RegisterFails | engine/core/gameplay.js:195-219 | the constructor fails exactly when one of the objects is not a plugin |
| Gameplay.AddListens | engine/core/gameplay.js:198-214 | a mixed, event-driven or UI plugin lands on the list of each observed name as many times as it observes it |
| Gameplay.ToEach | engine/core/gameplay.js:97-102 | one event reaches each of its listeners once, the last registered first |
| Gameplay.DeliveredTo | engine/core/gameplay.js:92-104 | a handleEvent call is made exactly for an event in the queue and a plugin listening for its name |
| Gameplay.InToEach | engine/core/gameplay.js:97-102 | the calls for one event are that event given to each of its listeners |
| Gameplay.DeliveriesAppend | engine/core/gameplay.js:92-104 | events are delivered in queue order: the calls for a queue are the calls for its front part followed by those for the rest |
| Gameplay.DeliveriesStep | engine/core/gameplay.js:92-104 | delivering one more event adds its calls at the end |
| Gameplay.RepliesStep | engine/core/gameplay.js:98-101 | the events one more call sends land after those sent before |
| Gameplay.RepliesAppend | engine/core/gameplay.js:87-104 | the events sent during two runs of calls are those of each run, in order |
| Gameplay.GamePlay.constructor | engine/core/gameplay.js:167-173 | an empty queue, empty plugin lists and no threads running |
| Gameplay.GamePlay.New | engine/core/gameplay.js:165-222 | construction fails exactly when an object is not a plugin; otherwise the lists are those registration gives, with the event-delivery plugin last on the scheduled list, the queue empty and nothing running |
| Gameplay.GamePlay.RegisterPlugin | engine/core/gameplay.js:196-214 | one pass of the loop puts the plugin on the lists its class names, and nothing else changes |
| Gameplay.GamePlay.SchedulePlugin | engine/core/gameplay.js:198-206 | a plugin ignoring extra ticks joins the single-tick list, otherwise the scheduled list, and one handling sub-ticks the sub-tick list too |
| Gameplay.GamePlay.RegisterEventDrivenPlugin | engine/core/gameplay.js:183-193 | the plugin is appended to the list of each observed name, a list created for a new name, and no other list changes; the table holds only the names registered |
| Gameplay.GamePlay.SendEvent | engine/core/gameplay.js:121-126 | the event joins the end of the queue and nothing else changes |
| Gameplay.GamePlay.DeliverEvents | engine/core/gameplay.js:81-105 | every queued event is handed, in queue order, to every plugin listening for it; the queue afterwards holds exactly the events the handlers sent, waiting for the next tick |
| Gameplay.GamePlay.HandleEach | engine/core/gameplay.js:97-102 | one event is handed to each listener from the last, and what they send is queued in that order |
| Gameplay.GamePlay.Start | engine/core/gameplay.js:133-145 | start while running is refused with nothing changed; otherwise the threads run, "start" is delivered at once after the waiting events, and "running" is queued after what the handlers sent |
| Gameplay.GamePlay.Stop | engine/core/gameplay.js:153-161 | stop while not running is refused with nothing changed; otherwise the threads stop and "stop" is delivered at once after the waiting events |
| ResourceManagement.HighestShort | engine/gameplay-plugins/event-driven-plugins/resourcemanagerplugin.js:51-60 | the index the reverse loop stops at is the highest one whose amount exceeds the stock, every index above it is covered, and -1 means none is short |
| ResourceManagement.NoShortIffCovers | engine/gameplay-plugins/event-driven-plugins/resourcemanagerplugin.js:51-63 | the loop finds no short index exactly when the stock covers every requested amount |
| ResourceManagement.GainUndoesDeduct | engine/gameplay-plugins/event-driven-plugins/resourcemanagerplugin.js:61-81 | gaining back what a granted request took restores the stock |
| ResourceManagement.DeductKeepsNonNegative | engine/gameplay-plugins/event-driven-plugins/resourcemanagerplugin.js:51-63 | a granted request never drives a non-negative stock below zero |
| ResourceManagement.RefusalKeepsDeductions | engine/gameplay-plugins/event-driven-plugins/resourcemanagerplugin.js:51-62 | a refused request keeps the deductions made above the short index: stock [0, 5] asked for [1, 2] is refused and left at [0, 3] |
| ResourceManagement.ResourceManagerPlugin.constructor | engine/gameplay-plugins/event-driven-plugins/resourcemanagerplugin.js:95-96 | the plug-in starts with the initial resource stats and has sent nothing |
| ResourceManagement.ResourceManagerPlugin.OnResourceRequestAsWritten | engine/gameplay-plugins/event-driven-plugins/resourcemanagerplugin.js:41-66 | as written: the amounts above the highest short index are taken off, and exactly one dispatch carrying the request's target, target type and player is sent, echoing the amounts when none was short and refusing otherwise |
| ResourceManagement.ResourceManagerPlugin.OnResourceRequest | engine/gameplay-plugins/event-driven-plugins/resourcemanagerplugin.js:41-66 | corrected: a covered request has every amount taken off and echoed; otherwise nothing is taken and the dispatch refuses; exactly one dispatch is sent and other players are untouched |
| ResourceManagement.ResourceManagerPlugin.OnResourcesGained | engine/gameplay-plugins/event-driven-plugins/resourcemanagerplugin.js:77-84 | the gained amounts are added element-wise to the named player's stock only |
| ResourceManagement.AsWrittenAgreesWhenCovered | engine/gameplay-plugins/event-driven-plugins/resourcemanagerplugin.js:51-63 | on a covered request both versions take the same amounts; only a refusal tells them apart |
| PowerManagement.Lookup | engine/gameplay-plugins/event-driven-plugins/powermanagement.js:158-163 | the record found is the last one of the player, and -1 means the player has none |
| PowerManagement.Ensure | engine/gameplay-plugins/event-driven-plugins/powermanagement.js:156-174 | afterwards the player has a record: the existing records when there was one, else a zeroed record appended |
| PowerManagement.Charge | engine/gameplay-plugins/event-driven-plugins/powermanagement.js:98-105 | a positive requirement changes only consumption, a non-positive one only production, and the level moves by the requirement against the sign |
| PowerManagement.LookupSamePlayers | engine/gameplay-plugins/event-driven-plugins/powermanagement.js:158-163 | records holding the same players in the same places give the same lookup |
| PowerManagement.Record | engine/gameplay-plugins/event-driven-plugins/powermanagement.js:94-107 | a handler keeps the players of the records and leaves the player with a record |
| PowerManagement.RecordBalanced | engine/gameplay-plugins/event-driven-plugins/powermanagement.js:22-105 | level == production - consumption stays true of every record after a handler |
| PowerManagement.RecordOnePerPlayer | engine/gameplay-plugins/event-driven-plugins/powermanagement.js:156-174 | there is still at most one record per player |
| PowerManagement.RecordOthers | engine/gameplay-plugins/event-driven-plugins/powermanagement.js:156-174 | other players' records are untouched, and only the player's record can be added |
| PowerManagement.PlaceThenDestroy | engine/gameplay-plugins/event-driven-plugins/powermanagement.js:73-107 | placing and then destroying the same building type gives the player's record back |
| PowerManagement.ChargeAllStep | engine/gameplay-plugins/event-driven-plugins/powermanagement.js:118-142 | one more charge is applied after the earlier ones |
| PowerManagement.ChargeAllAppend | engine/gameplay-plugins/event-driven-plugins/powermanagement.js:117-142 | charging two runs of requirements is charging the first run and then the second |
| PowerManagement.ChargeAllValid | engine/gameplay-plugins/event-driven-plugins/powermanagement.js:117-142 | charging any number of requirements keeps every record correct and one record per player |
| PowerManagement.BuildingCharges | engine/gameplay-plugins/event-driven-plugins/powermanagement.js:117-129 | the buildings' requirements, charged to their owners from the last building to the first |
| PowerManagement.UnitCharges | engine/gameplay-plugins/event-driven-plugins/powermanagement.js:130-142 | the units' requirements, charged to their owners from the last unit to the first |
| PowerManagement.PowerManagementPlugin.constructor | engine/gameplay-plugins/event-driven-plugins/powermanagement.js:33-35 | no records and nothing sent |
| PowerManagement.PowerManagementPlugin.GetEnergyLevel | engine/gameplay-plugins/event-driven-plugins/powermanagement.js:156-174 | the backward search returns the player's record, appending a zeroed one when there is none, and sends nothing |
| PowerManagement.PowerManagementPlugin.Apply | engine/gameplay-plugins/event-driven-plugins/powermanagement.js:97-105 | the player's record is charged or given back the requirement and nothing is sent |
| PowerManagement.PowerManagementPlugin.Account | engine/gameplay-plugins/event-driven-plugins/powermanagement.js:94-106 | the records stay correct and one per player, the player's record is changed, and it is the one event sent |
| PowerManagement.PowerManagementPlugin.OnBuildingPlaced | engine/gameplay-plugins/event-driven-plugins/powermanagement.js:94-107 | the owner is charged the building type's requirement and the changed record is sent |
| PowerManagement.PowerManagementPlugin.OnBuildingDestroyed | engine/gameplay-plugins/event-driven-plugins/powermanagement.js:73-86 | the building type's requirement is given back to the owner and the changed record is sent |
| PowerManagement.PowerManagementPlugin.OnUnitCreated | engine/gameplay-plugins/event-driven-plugins/powermanagement.js:52-65 | the owner is charged the unit type's requirement and the changed record is sent |
| PowerManagement.PowerManagementPlugin.OnUnitDestroyed | engine/gameplay-plugins/event-driven-plugins/powermanagement.js:37-50 | the unit type's requirement is given back to the owner and the changed record is sent |
| PowerManagement.PowerManagementPlugin.ChargeBuildings | engine/gameplay-plugins/event-driven-plugins/powermanagement.js:117-129 | the first loop charges every building's requirement, the last building first, and sends nothing |
| PowerManagement.PowerManagementPlugin.ChargeUnits | engine/gameplay-plugins/event-driven-plugins/powermanagement.js:130-142 | the second loop charges every unit's requirement, the last unit first, and sends nothing |
| PowerManagement.PowerManagementPlugin.SendAll | engine/gameplay-plugins/event-driven-plugins/powermanagement.js:143-145 | every record is sent, the last first, and the records are unchanged |
| PowerManagement.PowerManagementPlugin.OnGameMapInitialization | engine/gameplay-plugins/event-driven-plugins/powermanagement.js:115-146 | the buildings' and then the units' requirements are charged, the records stay correct and one per player, and then every record is sent |
| BuildingRepair.RepairEntry.constructor | engine/gameplay-plugins/mixed-plugins/buildingrepairer.js:105-109 | an entry holds the building and its type's definition |
| BuildingRepair.StandingFlags | engine/gameplay-plugins/mixed-plugins/buildingrepairer.js:38 | one flag per entry, true exactly when its building has hitpoints left |
| BuildingRepair.Standing | engine/gameplay-plugins/mixed-plugins/buildingrepairer.js:36-41 | the entries kept by handleTick are at most those from i on |
| BuildingRepair.InStanding | engine/gameplay-plugins/mixed-plugins/buildingrepairer.js:36-41 | exactly the entries whose building stands are kept |
| BuildingRepair.RepairRequest | engine/gameplay-plugins/mixed-plugins/buildingrepairer.js:45-50 | the request names the entry as target, "repair-building" as target type, the building's owner, and one repair step's resources |
| BuildingRepair.Requests | engine/gameplay-plugins/mixed-plugins/buildingrepairer.js:42-51 | at most one request per entry |
| BuildingRepair.StandingSetStep | engine/gameplay-plugins/mixed-plugins/buildingrepairer.js:36-52 | the loop's entry joins the waiting set when it stands, and it is no later entry |
| BuildingRepair.IndexOf | engine/gameplay-plugins/mixed-plugins/buildingrepairer.js:64-68 | the entry found by the backward identity search, or -1 exactly when it is not listed |
| BuildingRepair.IndexOfBuilding | engine/gameplay-plugins/mixed-plugins/buildingrepairer.js:99-104 | the entry found for the building, or -1 exactly when no entry names it |
| BuildingRepair.Repaired | engine/gameplay-plugins/mixed-plugins/buildingrepairer.js:79-81 | a granted step sets hitpoints to min(hitpoints + step, maximum), never lowering them |
| BuildingRepair.RepairsFinish | engine/gameplay-plugins/mixed-plugins/buildingrepairer.js:78-84 | enough granted steps of a positive size bring a building to its maximum, after which it leaves the list |
| BuildingRepair.RepairedAtMaximum | engine/gameplay-plugins/mixed-plugins/buildingrepairer.js:79-81 | a building at its maximum stays there |
| BuildingRepair.DropDistinct | engine/gameplay-plugins/mixed-plugins/buildingrepairer.js:39-101 | splicing out an entry keeps entries and buildings unrepeated and removes only that building |
| BuildingRepair.StandingDistinct | engine/gameplay-plugins/mixed-plugins/buildingrepairer.js:36-41 | the kept entries are unrepeated too |
| BuildingRepair.BuildingRepairer.constructor | engine/gameplay-plugins/mixed-plugins/buildingrepairer.js:29-31 | no building is being repaired and no request sent |
| BuildingRepair.BuildingRepairer.HandleTick | engine/gameplay-plugins/mixed-plugins/buildingrepairer.js:34-53 | destroyed buildings leave the list, every remaining entry ends waiting, and exactly one request is sent for each standing entry that was not waiting, the last entry first |
| BuildingRepair.BuildingRepairer.TickEntry | engine/gameplay-plugins/mixed-plugins/buildingrepairer.js:37-51 | the entry is dropped when destroyed, left alone when waiting, and otherwise sends its request and starts waiting |
| BuildingRepair.BuildingRepairer.TickStep | engine/gameplay-plugins/mixed-plugins/buildingrepairer.js:36-51 | entry i is not among the standing entries above it; a destroyed entry adds nothing, a standing one adds itself and, when it was not waiting, one request |
| BuildingRepair.BuildingRepairer.OnResourceDispatch | engine/gameplay-plugins/mixed-plugins/buildingrepairer.js:62-87 | an answer for no listed entry changes nothing; otherwise the entry stops waiting, a destroyed building leaves the list, a refusal leaves the hitpoints, and a grant repairs one step, a fully repaired building leaving the list |
| BuildingRepair.BuildingRepairer.OnRepairBuilding | engine/gameplay-plugins/mixed-plugins/buildingrepairer.js:97-110 | a listed building is taken off the list; any other is appended as a fresh entry for its type, not waiting |
| BuildingRepair.BuildingRepairer.RepairTwice | engine/gameplay-plugins/mixed-plugins/buildingrepairer.js:97-110 | asking twice to repair a building not listed leaves the list as it was |
| Projectiles.Damaged | engine/gameplay-plugins/mixed-plugins/projectilecontrol.js:102 | a strike leaves max(0, hitpoints - damage): zero exactly when the damage reaches the hitpoints, never more than before for a non-negative damage |
| Projectiles.StruckOnMap | engine/gameplay-plugins/mixed-plugins/projectilecontrol.js:97-98 | the occupant of the target tile is a building or unit held by the map's indexes |
| Projectiles.ProjectileSetTail | engine/gameplay-plugins/mixed-plugins/projectilecontrol.js:43-44 | the projectiles of a list are its head and those of its tail |
| Projectiles.Progresses | engine/gameplay-plugins/mixed-plugins/projectilecontrol.js:44-64 | entry k is the progress of projectile k |
| Projectiles.HighestUnsupported | engine/gameplay-plugins/mixed-plugins/projectilecontrol.js:43-58 | the highest index of a projectile of a type other than 0 and 1, the first the downward loop throws at; all above it are supported |
| Projectiles.HighestIs | engine/gameplay-plugins/mixed-plugins/projectilecontrol.js:43-58 | an unsupported index with only supported projectiles above it is that highest one |
| Projectiles.Kept | engine/gameplay-plugins/mixed-plugins/projectilecontrol.js:60-63 | the projectiles from i on that have not reached their duration, in list order |
| Projectiles.Advancing | engine/gameplay-plugins/mixed-plugins/projectilecontrol.js:60-64 | the progresses after the loop has reached index i: every projectile from i on moved on unless it had arrived |
| Projectiles.AdvancingStep | engine/gameplay-plugins/mixed-plugins/projectilecontrol.js:60-64 | reaching one more projectile changes only its own progress |
| Projectiles.InKept | engine/gameplay-plugins/mixed-plugins/projectilecontrol.js:60-63 | a projectile is kept exactly when it stands at an index from i on and its progress differs from its duration |
| Projectiles.KeptStep | engine/gameplay-plugins/mixed-plugins/projectilecontrol.js:60-63 | handling index i removes that projectile exactly when it has arrived |
| Projectiles.Strikers | engine/gameplay-plugins/mixed-plugins/projectilecontrol.js:45-55 | the projectiles from i on that strike on this tick, the last one first |
| Projectiles.Advanced | engine/gameplay-plugins/mixed-plugins/projectilecontrol.js:60-64 | a projectile that has not arrived gains one progress, one that has arrived keeps it |
| Projectiles.AdvancedBounded | engine/gameplay-plugins/mixed-plugins/projectilecontrol.js:60-64 | from 0 up to the duration, progress never passes the duration, and reaches it exactly one tick before the end |
| Projectiles.StrikesOnce | engine/gameplay-plugins/mixed-plugins/projectilecontrol.js:45-55 | over the ticks 0 .. duration a type 0 projectile strikes only at progress 0, a type 1 one only at its duration |
| Projectiles.TickedAt | engine/gameplay-plugins/mixed-plugins/projectilecontrol.js:40-66 | a tick that stopped at an unsupported projectile (or went through) has the tick's outcome: error, strikers and remaining projectiles |
| Projectiles.ProjectileControl.constructor | engine/gameplay-plugins/mixed-plugins/projectilecontrol.js:35-37 | the plug-in starts holding the map it was given and having sent nothing |
| Projectiles.ProjectileControl.HandleTick | engine/gameplay-plugins/mixed-plugins/projectilecontrol.js:40-66 | the map stays valid; the projectiles below an unsupported one are untouched and its type is the error; above it, arrived projectiles leave the map, the rest keep their order and gain one progress, and the strikers are those due by their type |
| Projectiles.ProjectileControl.Step | engine/gameplay-plugins/mixed-plugins/projectilecontrol.js:44-64 | one loop step: an unsupported type stops with its error and changes nothing; otherwise the projectile strikes when due, then leaves or moves on |
| Projectiles.ProjectileControl.StrikeIfDue | engine/gameplay-plugins/mixed-plugins/projectilecontrol.js:45-55 | the projectile strikes exactly when its type and progress make it due; the projectile list and progresses stay as they were |
| Projectiles.ProjectileControl.Advance | engine/gameplay-plugins/mixed-plugins/projectilecontrol.js:60-64 | the projectile at i leaves the list if it has arrived, otherwise its progress grows by one |
| Projectiles.ProjectileControl.AffectTarget | engine/gameplay-plugins/mixed-plugins/projectilecontrol.js:95-127 | an empty target tile changes nothing; a struck building at 0 hitpoints is removed from the map and reported; a unit at 0 is marked destroyed (action 1), taken off the map and reported; a surviving enemy unit standing still without a target is ordered to attack the shooter |
| Projectiles.ProjectileControl.StrikeBuilding | engine/gameplay-plugins/mixed-plugins/projectilecontrol.js:102-109 | the building's hitpoints drop by the damage, not below 0; at 0 the building leaves the indexes and the list and buildingDestroyed is sent, otherwise the map is unchanged |
| Projectiles.ProjectileControl.StrikeUnit | engine/gameplay-plugins/mixed-plugins/projectilecontrol.js:102-125 | the unit's hitpoints drop by the damage, not below 0; at 0 it is marked destroyed, removed and reported; otherwise only the attack order may be sent |
| BuildingControl.SellSwitched | engine/gameplay-plugins/event-driven-plugins/buildingcontrol.js:109-115 | sell mode flips; repair mode survives only a switch that turns sell mode off; the two modes are never both on afterwards |
| BuildingControl.RepairSwitched | engine/gameplay-plugins/event-driven-plugins/buildingcontrol.js:127-133 | repair mode flips; sell mode survives only a switch that turns repair mode off; the two modes are never both on afterwards |
| BuildingControl.RightClickAction | engine/gameplay-plugins/event-driven-plugins/buildingcontrol.js:268-279 | a right click switches sell mode off when it is on, else repair mode, else cancels the placement, else deselects: each action exactly in its case |
| BuildingControl.RightClickLeavesModes | engine/gameplay-plugins/event-driven-plugins/buildingcontrol.js:268-272 | the mode switch a right click requests, once handled, leaves both modes off |
| BuildingControl.Steps | engine/gameplay-plugins/event-driven-plugins/buildingcontrol.js:326 | the ceiling of 1000 / stepProgress: the fewest steps whose progress reaches 1000 |
| BuildingControl.Refund | engine/gameplay-plugins/event-driven-plugins/buildingcontrol.js:324-330 | the refund has one amount per construction step, each the step's cost times the number of steps times the refund factor, in step order |
| BuildingControl.ReachMeans | engine/gameplay-plugins/event-driven-plugins/buildingcontrol.js:185-205 | the search allows placement only when one of the player's non-resource buildings has its centre near the building to place, refuses it only when none does, and fails exactly on a building of the player of unknown type; with known types it never fails |
| BuildingControl.ScanMeans | engine/gameplay-plugins/event-driven-plugins/buildingcontrol.js:228-236 | the placement check passes exactly when every tile of the building is empty and passable in the navigation index; it throws only on a tile outside the index's rows |
| BuildingControl.FreeCovers | engine/gameplay-plugins/event-driven-plugins/buildingcontrol.js:228-237 | a building whose tiles all pass the check lies on the map, so it can be written to the indexes |
| BuildingControl.BuildingControlPlugin.constructor | engine/gameplay-plugins/event-driven-plugins/buildingcontrol.js:94-102 | both modes start off, nothing is being placed, and the map, player, building types and settings are the ones given |
| BuildingControl.BuildingControlPlugin.DropPlacement | engine/gameplay-plugins/event-driven-plugins/buildingcontrol.js:116-119 | the building being placed is dropped, and the renderer is told only when there was one |
| BuildingControl.BuildingControlPlugin.OnSellModeSwitch | engine/gameplay-plugins/event-driven-plugins/buildingcontrol.js:109-120 | the modes become SellSwitched of the old modes, placement is cancelled, and the invariant (never both modes on, map valid) is kept |
| BuildingControl.BuildingControlPlugin.OnRepairModeSwitch | engine/gameplay-plugins/event-driven-plugins/buildingcontrol.js:127-138 | the modes become RepairSwitched of the old modes, placement is cancelled, and the invariant is kept |
| BuildingControl.BuildingControlPlugin.OnStartBuildingPlacing | engine/gameplay-plugins/event-driven-plugins/buildingcontrol.js:148-150 | a fresh building of the requested type, at (0, 0), owned by the player, becomes the building to place; an unknown type fails and changes nothing |
| BuildingControl.BuildingControlPlugin.Mouseover | engine/gameplay-plugins/event-driven-plugins/buildingcontrol.js:173-181 | a building under the cursor is highlighted unless it is a resource field, anything else clears the highlight, and a building of unknown type fails |
| BuildingControl.BuildingControlPlugin.Search | engine/gameplay-plugins/event-driven-plugins/buildingcontrol.js:186-205 | the loop over the map's buildings from the last one gives exactly the search's outcome |
| BuildingControl.BuildingControlPlugin.FollowCursor | engine/gameplay-plugins/event-driven-plugins/buildingcontrol.js:182-208 | the building to place is centred on the tile, and placement is allowed exactly when the search finds a near anchor; the renderer is told the outcome |
| BuildingControl.BuildingControlPlugin.OnMouseTileMove | engine/gameplay-plugins/event-driven-plugins/buildingcontrol.js:163-209 | a building of unknown type under the cursor fails and changes nothing; otherwise the renderer is told the building under the cursor (none when there is no building, nothing for a resource field), then a building being placed follows the cursor, the placement flag is the search's outcome and the renderer is told the placement, unless the search fails, which leaves the flag and adds no placement entry; with nothing being placed the call succeeds and the flag stays |
| BuildingControl.BuildingControlPlugin.ScanCells | engine/gameplay-plugins/event-driven-plugins/buildingcontrol.js:230-236 | the loop over the building's tiles from the last one gives exactly the placement check's outcome |
| BuildingControl.BuildingControlPlugin.SellBuilding | engine/gameplay-plugins/event-driven-plugins/buildingcontrol.js:321-334 | the sold building has 0 hitpoints, leaves the map's list and its cells of the building index, makes its cells navigable again unless it is passable, and one resourcesGained event carries the player and the refund; units, tiles and projectiles are untouched |
| BuildingControl.BuildingControlPlugin.HandleBuildingSell | engine/gameplay-plugins/event-driven-plugins/buildingcontrol.js:308-335 | a building of the player, of known type and not a resource field, is sold and refunded; anything else on the tile changes nothing; only the player's building of unknown type fails |
| BuildingControl.BuildingControlPlugin.PutOnMap | engine/gameplay-plugins/event-driven-plugins/buildingcontrol.js:237-243 | the building is appended to the map's list and painted on its tiles, which become unnavigable unless it is passable, buildingPlaced is sent, and the renderer stops showing a building to place; units, tiles and projectiles are untouched |
| BuildingControl.BuildingControlPlugin.Place | engine/gameplay-plugins/event-driven-plugins/buildingcontrol.js:224-245 | when placement is allowed and every tile is free, the building goes on the map and is announced, and nothing is being placed; otherwise nothing changes, and a tile off the index's rows fails |
| BuildingControl.BuildingControlPlugin.Select | engine/gameplay-plugins/event-driven-plugins/buildingcontrol.js:246-258 | the player's own non-resource building is selected, the player's own unit clears the selection, anything else is ignored, and the player's building of unknown type fails |
| BuildingControl.BuildingControlPlugin.OnLeftMouseButtonClick | engine/gameplay-plugins/event-driven-plugins/buildingcontrol.js:218-259 | the modes never change. In sell mode (handleBuildingSell): a sellable building on the tile gets 0 hitpoints, is redrawn, leaves the map's list and building index, frees its cells for navigation unless passable, and one resourcesGained event with the refund is sent; anything else leaves the map, events and display as they were, and only the player's building of unknown type fails. Else, with a building to place that is allowed and whose tiles are all free: it is appended to the map's list, painted on the building index and (unless passable) blocks its cells, buildingPlaced is sent, the renderer is told, and nothing is being placed; not allowed or not free leaves everything as it was, failing only on a tile off the index's rows. Else the map and events are untouched, and the player's own building is selected unless a resource field (an unknown type fails), the player's own unit clears the selection, and anything else shows nothing |
| BuildingControl.BuildingControlPlugin.OnRightMouseButtonClick | engine/gameplay-plugins/event-driven-plugins/buildingcontrol.js:268-279 | a right click sends sellModeSwitch, else repairModeSwitch, else cancels the placement, else clears the selection, exactly as RightClickAction says |
| UnitAI.FiringTimer | engine/gameplay-plugins/mixed-plugins/unitai.js:82-85 | a timer below 1000 grows by the firing speed but never past 1000; a full timer stays |
| UnitAI.ChargedBounded | engine/gameplay-plugins/mixed-plugins/unitai.js:82-85 | over any number of ticks a timer that starts at most 1000 never passes 1000 |
| UnitAI.ChargedFull | engine/gameplay-plugins/mixed-plugins/unitai.js:82-85 | with a positive speed the timer is exactly 1000 once the ticks' speed covers the gap |
| UnitAI.Turn | engine/gameplay-plugins/mixed-plugins/unitai.js:685-707 | with no azimuth left the unit stands (action 4); otherwise progress grows by the turn speed, and on reaching 1000 the heading moves one step towards the azimuth's sign (wrapping within 0..7), the azimuth shrinks by one step and progress restarts at 0 |
| UnitAI.SpinAdds | engine/gameplay-plugins/mixed-plugins/unitai.js:685-707 | turning for a + b ticks is turning for a ticks, then for b |
| UnitAI.OneStep | engine/gameplay-plugins/mixed-plugins/unitai.js:685-707 | from any progress, after the ticks one step needs, the unit has turned exactly one step towards the azimuth's sign |
| UnitAI.TurnedIs | engine/gameplay-plugins/mixed-plugins/unitai.js:696-705 | turning all steps of an azimuth moves the heading by the azimuth modulo 8 |
| UnitAI.AllSteps | engine/gameplay-plugins/mixed-plugins/unitai.js:685-707 | from a standing start, as many steps as the azimuth's absolute value of equal ticks leave the unit facing the turned heading with no azimuth left |
| UnitAI.Azimuth | engine/gameplay-plugins/mixed-plugins/unitai.js:947-955 | the turn from the heading to the target is at most four steps either way, and turning by its negation reaches the target |
| UnitAI.TurnsToTarget | engine/gameplay-plugins/mixed-plugins/unitai.js:947-957 | a unit set turning by the negated azimuth faces the target after its turning ticks and, one tick later, stands still |
| UnitAI.PreferredDirection | engine/gameplay-plugins/mixed-plugins/unitai.js:1010-1051 | the preferred heading is always a direction 0..7 |
| UnitAI.PreferredToNeighbour | engine/gameplay-plugins/mixed-plugins/unitai.js:1010-1051 | the preferred heading towards the neighbouring cell in a direction is that direction |
| UnitAI.ReasonableDirection | engine/gameplay-plugins/mixed-plugins/unitai.js:985-996 | the preferred heading plus the free offset (0 when there is none) is taken back into 0..7, modulo 8 |
| UnitAI.IsFree | engine/gameplay-plugins/mixed-plugins/unitai.js:1107-1119 | a direction is free exactly when its cell holds a moving unit not heading straight back, or the navigation index marks it passable; a cell off the index's rows throws |
| UnitAI.CheckAhead | engine/gameplay-plugins/mixed-plugins/unitai.js:1138-1160 | 2 (wait) exactly for a moving unit ahead not heading straight back; 0 (go) exactly when no unit and no impassable building is ahead and the index marks the cell passable; otherwise 1, or a throw off the index's rows |
| UnitAI.Offsets | engine/gameplay-plugins/mixed-plugins/unitai.js:1069-1094 | eight offsets, straight on first, none more than four steps either way |
| UnitAI.FirstFreeMeans | engine/gameplay-plugins/mixed-plugins/unitai.js:1067-1096 | the search finds an offset only when its cell is free and no earlier one is, and finds none exactly when no offset is free |
| UnitAI.FindFreeRange | engine/gameplay-plugins/mixed-plugins/unitai.js:1067-1096 | straight on is taken when it is free; any offset found lies in -4..4 and its cell is free |
| UnitAI.FindFreeDirection | engine/gameplay-plugins/mixed-plugins/unitai.js:1067-1096 | the loops return exactly the first free offset in the order the earlier heading picks (the positive offsets first when the preferred heading is numbered higher than the current one, a plain comparison that ignores wrap-around) |
| UnitAI.Ticked | engine/gameplay-plugins/mixed-plugins/unitai.js:81-112 | one unit's tick: the timer step; a new unit starts standing, a turning one turns, a destroyed one keeps its fields |
| UnitAI.Drives | engine/gameplay-plugins/mixed-plugins/unitai.js:79-81 | entry k holds the fields handleTick drives for unit k |
| UnitAI.LastUnsupported | engine/gameplay-plugins/mixed-plugins/unitai.js:86-111 | the highest index of a unit whose action is not 0..7, the one the downward loop throws at; all above it are supported |
| UnitAI.LastIs | engine/gameplay-plugins/mixed-plugins/unitai.js:86-111 | an unsupported index with only supported units above it is that highest one |
| UnitAI.RowPicksMeans | engine/gameplay-plugins/mixed-plugins/unitai.js:202-209 | a unit is picked in a row exactly when it is the player's and stands on one of the row's cells |
| UnitAI.BoxPicksMeans | engine/gameplay-plugins/mixed-plugins/unitai.js:201-210 | a unit is picked exactly when it is the player's and stands on a cell of the box |
| UnitAI.BoxPicksRows | engine/gameplay-plugins/mixed-plugins/unitai.js:201-210 | a unit is among the box's picks exactly when it is among the picks of one of its rows |
| UnitAI.InRowsMeans | engine/gameplay-plugins/mixed-plugins/unitai.js:201-210 | being picked in one of the rows is being the player's unit on a cell of the box |
| UnitAI.OnBoxStep | engine/gameplay-plugins/mixed-plugins/unitai.js:201-210 | a unit stands on the box of n rows exactly when it stands on the box of n - 1 rows or on its last row |
| UnitAI.ObjectAtUnit | engine/gameplay-plugins/mixed-plugins/unitai.js:203-206 | getObjectAt finds a unit on a cell exactly when the unit index holds one there, and it is that unit |
| UnitAI.UnitAIPlugin.constructor | engine/gameplay-plugins/mixed-plugins/unitai.js:71-74 | the plug-in starts with no selected units and nothing asked of the renderer |
| UnitAI.UnitAIPlugin.PickRow | engine/gameplay-plugins/mixed-plugins/unitai.js:202-209 | the inner loop gives exactly the row's picks |
| UnitAI.UnitAIPlugin.PickBox | engine/gameplay-plugins/mixed-plugins/unitai.js:201-210 | the two loops give exactly the box's picks |
| UnitAI.UnitAIPlugin.OnLeftMouseButtonBoxSelect | engine/gameplay-plugins/mixed-plugins/unitai.js:196-216 | the player's units in the box spanned by the two corners become the selection and are shown, with the building selection cleared; a box with none leaves selection and display as they were |
| UnitAI.UnitAIPlugin.TurnUnit | engine/gameplay-plugins/mixed-plugins/unitai.js:685-707 | the unit's heading, azimuth, progress and action become those of one Turn step |
| UnitAI.UnitAIPlugin.TrimUnitWaypoints | engine/gameplay-plugins/mixed-plugins/unitai.js:667-677 | a unit with waypoints keeps one, at its own cell, which becomes its move target; one without waypoints is left as it was |
| UnitAI.UnitAIPlugin.TickUnit | engine/gameplay-plugins/mixed-plugins/unitai.js:81-112 | the unit's drive fields become Ticked of their old values, and it throws exactly for an unsupported action, naming it |
| UnitAI.UnitAIPlugin.TickAt | engine/gameplay-plugins/mixed-plugins/unitai.js:79-112 | the tick of unit i, the units above it having had theirs: it takes its tick, the others keep their fields, and it throws exactly for an unsupported action |
| UnitAI.UnitAIPlugin.HandleTick | engine/gameplay-plugins/mixed-plugins/unitai.js:77-114 | the units from the last down to the last unsupported one take their tick, that one throws after its timer step naming its action, and the units below it keep their fields |
| Colorifier.HexValue | js/colorifier.js:102-104 | a hexadecimal digit of either case has a value below 16 |
| Colorifier.HexPrefix | js/colorifier.js:102-104 | the length of the leading run of hexadecimal digits: every character before it is a digit and the one after it is not |
| Colorifier.ParseHex | js/colorifier.js:102-104 | parseInt(s, 16) is NaN (None) exactly when s does not start with a hexadecimal digit |
| Colorifier.Substring | js/colorifier.js:100-104 | substring with its bounds clamped to the length is never longer than the bounds' span |
| Colorifier.DecodeColor | js/colorifier.js:99-106 | a decoded colour has every channel within 0..255 |
| Colorifier.TwoDigits | js/colorifier.js:102-104 | at most two hexadecimal digits parse to a value below 256 |
| Colorifier.ParseHexByte | js/colorifier.js:102-104 | the two lower-case digits of a byte parse back to that byte |
| Colorifier.DecodeEncode | js/colorifier.js:99-106 | decodeColor reads back every "#rrggbb" colour and every "rrggbb" one |
| Colorifier.FirstIgnored | js/colorifier.js:100 | of seven characters the first is dropped, whatever it is |
| Colorifier.Clamp | js/colorifier.js:88-90 | Math.max(0, Math.min(255, v)) lies within 0..255, keeps a value already in range, and sends values below and above to 0 and 255 |
| Colorifier.TargetColor | js/colorifier.js:82-92 | each channel of the new colour is the pixel's channel moved by the target's difference from the source, clamped to 0..255 |
| Colorifier.SourceBecomesTarget | js/colorifier.js:82-92 | a pixel of exactly the source colour becomes exactly the target colour |
| Colorifier.GradientKept | js/colorifier.js:82-92 | where no channel is clamped, the differences between two pixels survive the shift |
| Colorifier.Recolored | js/colorifier.js:64-79 | an alpha byte keeps its value; a colour byte of a complete pixel within the distance takes the shifted channel; every other byte keeps its value |
| Colorifier.ProcessData | js/colorifier.js:60-80 | after the loop every byte of the buffer is the Recolored value of the buffer as it was |
| Colorifier.RecolorPixel | js/colorifier.js:64-79 | one turn of the loop: the four bytes of the pixel at i become their shifted values and no other byte changes |
| Colorifier.RecoloredPixel | js/colorifier.js:64-79 | for the n-th pixel, the Recolored value of each of its bytes is the pixel's shift of that byte, the alpha byte unchanged |
| SaveMap.Request | cgi-bin/savemap.py:7-24 | the header always comes first; a missing name is reported before a missing data field and nothing is written then; a file is written exactly when both fields are present with a value, at the working directory, "/data/maps/" and the first name, holding the first data value |
| SaveMap.Apply | cgi-bin/savemap.py:22-24 | the written file holds the content, every other file keeps its content, no file appears but the written one, and a response that writes nothing leaves the files as they were |
| SaveMap.SaveIdempotent | cgi-bin/savemap.py:22-24 | saving the same request twice leaves the same files as saving it once |
| SaveMap.LastSaveWins | cgi-bin/savemap.py:19-24 | a later save under the same name replaces an earlier one, whatever that one held |
| SaveMap.Server.constructor | cgi-bin/savemap.py:18 | the server starts with the given working directory and files and has printed nothing |
| SaveMap.Server.HandleRequest | cgi-bin/savemap.py:7-24 | the run prints the request's text after what was printed before, ends as Request says, and leaves the files as Apply says |

## Left out

- Rendering, sound, the DOM and the view: the calls a plug-in makes on the view and the effects renderer are recorded as `display` entries, and their drawing is not modelled.
- The timing of the game loop (`Date`, `setInterval`, `requestAnimationFrame`) and the logic and rendering threads of engine/core/gameplay.js: ticks are method calls.
- Floating-point code inside core files: `Unit.setMoveOffset`, the harvesting trigonometry of the unit AI, and the pixel offsets of engine/core/projectile.js. The construction distance and refund factor of the building control and the colour distance are `real`. Square-root comparisons are stated exactly through squares.
- JSON text: `JSON.stringify` and `JSON.parse` are abstracted, so a JSON payload is the value it encodes.
- `escape` / `unescape` around Base64 are JavaScript built-ins: the codec is modelled over the escaped string, whose code units are all below 256.
- Lzw.EncodeCodes: `LZW.encode("")` throws a TypeError in the source (it reads `charCodeAt` of an undefined first character); the model requires a non-empty input instead of modelling that throw.
- Lzw.RoundTrip: proved for inputs of at most 65280 code units; longer inputs can create dictionary codes of 65536 or more, which `String.fromCharCode` truncates.
- Lzw.Encode: the source's dictionary is a plain `{}` object, so every Object.prototype name (`valueOf`, `toString`, `constructor`, `hasOwnProperty`, `__proto__` and the rest) is already a truthy key of it; once a phrase one unit short of such a name is known, js/lzw.js:25 extends the phrase to the name and js/lzw.js:28 later pushes the inherited function, which converts to "\0". The model's dictionary is a map that starts empty, so on inputs that spell such a name ("valueOf" repeated 30 times, say) it emits other codes than the source.
- Lzw.EncodeCorrected: the same inherited-name gap as Encode; only the length of the final conversion is corrected.
- Lzw.EncodeCodes: the same inherited-name gap; the fold looks phrases up in a map holding only the phrases added.
- Lzw.RoundTrip: the round trip is proved for the model's map dictionaries; the source's `{}` encoder dictionary (js/lzw.js:17) breaks it on inputs that spell an Object.prototype name, which are not covered.
- Gameplay.GamePlay.RegisterEventDrivenPlugin: the source's table is a plain `{}` object (engine/core/gameplay.js:188-191); a plug-in observing an Object.prototype name such as "toString" finds the inherited function and the `push` throws a TypeError, where the model creates a list for it.
- MapCompressor.DecodeLevel3: a level-3 text of even length is the error OddLevel3Payload here. The source reads `charCodeAt` past the end (engine/util/mapcompressor.js:68-72), stores NaN as the last value and goes on to deserializeMapData, which then throws (`new Array(NaN)` or the final length check) or, when the NaN lands in the last projectile's last field, returns a map holding that NaN. NaN values are not modelled.
- MapCompressor.DecompressLevel3: the same even-length error as DecodeLevel3, where the source yields a NaN value.
- MapCompressor.Decompress: equals the model's Decompression, so it shares the even-length level-3 error, where the source may decode a map with a NaN field.
- JsText.NumberText: writes every integer in plain decimal; JavaScript writes numbers of 1e21 and more in exponent form, which `parseInt` reads back as its leading digit, and integers above 2^53 are not exact in JavaScript at all. The legacy level-3 round trip (LegacyCompressor.CompressRoundTrip) therefore holds in the source only for fields below 2^53, where this model proves it for every natural.
- Tiles.FromPackedJson: a packed tile of one element is the error MissingValue here; the source builds the tile with `lightSfx` undefined (engine/core/tile.js:117-121).
- Buildings.BuildingIds.FromPackedJson: fewer than five elements is an error here; the source builds the building with undefined fields, the hitpoints among them (engine/core/building.js:257-263).
- ResourceManagement.ResourceManagerPlugin: OnResourceRequest, OnResourceRequestAsWritten and OnResourcesGained require a known player and a request no longer than the player's stock. With an unknown player the source throws a TypeError; with a longer request it compares and subtracts against undefined entries (storing NaN entries). Neither case is modelled.
- BuildingRepair.BuildingRepairer.OnRepairBuilding: it requires a building of a known type; the source would append an entry whose definition is undefined, and the next tick that requests its repair would throw at engine/gameplay-plugins/mixed-plugins/buildingrepairer.js:49.
- LegacyCompressor.Decompress: `parseInt` giving NaN is the error NotANumber and a payload of the wrong level is WrongPayload, where the source would carry NaN or fail later; `spliceTiles` with a width of 0 or less loops forever in the source and is the error Diverges here.
- LegacyCompressor.CompressRoundTrip: level 3 round-trips only records of non-negative numbers, because '-' separates records; a save without a "units" key is not modelled.
- LegacyCompressor: the source changes its argument arrays in place (reverse, splice, overwriting elements); the model computes new sequences, so the aliasing of the caller's arrays is not captured.
- GameMap.Map: operations require in-map coordinates; with a coordinate off the map the source throws (a missing row) or grows a row (a missing column).
- GameMap.Map.LoadSavePoint: it takes the buildings, units and projectiles already decoded (`Building.fromPackedJson`, `Projectile.fromPackedJson`), and it uses the corrected Discard. engine/core/unit.js defines no `Unit.fromPackedJson`, `toPackedJson` or `Unit.finishImport`, so the source's loadSavePoint throws a TypeError at engine/core/map.js:537 on the first saved unit, after the saved buildings are already placed; the model's load of a save point with units is a state the source as given cannot reach, and it describes the evidently intended load. For the same reason `createSavePoint` (engine/core/map.js:444) and `importData` (engine/core/map.js:497) throw for any map with a unit; neither is part of this model. The source also passes `Unit.finishImport` `units[i]`, a row of the unit index, where the i-th loaded unit is evidently meant.
- Gameplay.GamePlay: a plug-in's `handleEvent` is not part of this model; delivery takes, as a function `reply`, the events a handler sends back, and logs the calls it makes. The reflective plug-in base classes are not modelled; a plug-in is a value naming its class and declarations.
- PowerManagement: the source sends the live record object with each `energyLevelUpdate` event, so a later change shows through earlier events; the model sends a snapshot of the record.
- BuildingRepair: each entry's `waiting` flag is kept as the repairer's set of waiting entries, since only the repairer reads or writes it.
- Projectiles.ProjectileControl.HandleTick: its effect on the struck buildings and units is stated strike by strike (AffectTarget), not as one formula over the whole tick; it requires every indexed object to lie on the map.
- BuildingControl.BuildingControlPlugin: the map, the player, the definition table and the settings are given at construction. In the source they arrive through `onGameMapInitialization`, `onPlayerInitialization` and `Settings`. Every building type must have a positive `stepProgress`; with 0 the source computes an infinite step count.
- UnitAI.UnitAIPlugin.HandleTick: the handlers of actions 2, 3, 4, 5 and 7 (startMovingUnitProgress, moveUnit, handleStandingStill, wait, attackTarget) are not part of this model; the model states that they leave the fields this tick drives as they are.
- UnitAI: `Unit.getAheadCoordinates` and `Unit.getCoordinatesAtDirection` are not part of this model, so the coordinates they give are inputs.
- UnitAI.UnitAIPlugin.TrimUnitWaypoints: waypoints are values, so the sharing of the first waypoint object with other holders is not captured.
- UnitAI: `onMouseTileMove`, the unit orders of `onLeftMouseButtonClick`, the harvesting and the free-tile search are not modelled (they are float and pathfinding code).
- Colorifier.DecodeColor: a channel that does not parse is NaN in the source; here the whole colour is then None. `parseInt`'s handling of leading whitespace, a sign and "0x" is not modelled.
- Colorifier: `colorify` and `colorifyForPlayers` are canvas work (drawing the image, `getImageData`, `putImageData`) and are not modelled; ProcessData is given the pixel buffer.
- SaveMap: failures to open or write the file are outside the model, and the map name is put into the path without normalisation, as the source does.
- Map generation, the editor, the loaders, local storage and the other server scripts are not part of the core modelled.

## Findings

| source | as written | input that shows it | evidently intended | confidence | as-written member | corrected member |
|---|---|---|---|---|---|---|
| js/lzw.js:36-38 | the final conversion loop runs over the input length, not over the emitted codes, so the output is padded with NUL code units | "aaa" encodes to [97, 256, 0], which decodes to "aaa\0" | convert exactly the emitted codes, so that decode(encode(s)) == s | not executed | Lzw.AsWrittenPadsWithNul | Lzw.RoundTrip |
| engine/util/base64.js:29-41 | the do-while loops run once on the empty string | "" encodes to "AA==", which decodes to "\0" | the empty string encodes and decodes to itself | not executed | Base64.EmptyRoundTripFails | Base64.RoundTripIntended |
| engine/gameplay-plugins/event-driven-plugins/resourcemanagerplugin.js:51-62 | the reverse loop deducts each covered amount before it has checked the lower indexes, and a refusal keeps those deductions | stock [0, 5] with request [1, 2] is refused, yet the stock becomes [0, 3] | a refused request takes nothing | not executed | ResourceManagement.RefusalKeepsDeductions | ResourceManagement.ResourceManagerPlugin.OnResourceRequest |
| engine/core/map.js:520-529 | forEach over the list while each callback splices its element out skips every other element | a map with two buildings keeps the second after loadSavePoint's removals | every building, unit and projectile is removed | not executed | GameMap.ForEachSpliceKeepsHalf | GameMap.Map.Discard |
