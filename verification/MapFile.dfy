/**
The binary map and catalog formats of sow-core/src/map_file.rs: little-endian
integers, length-prefixed UTF-8 strings, and an optional geographic record that
current files carry behind the terrain.
*/
module MapFile {
  import opened Wrappers

  type U8 = x: int | 0 <= x < 0x100
  type U16 = x: int | 0 <= x < 0x1_0000
  type U32 = x: int | 0 <= x < 0x1_0000_0000
  type I32 = x: int | -0x8000_0000 <= x < 0x8000_0000
  type Bytes = seq<U8>

  /** Text as its UTF-8 bytes. */
  type Text = s: Bytes | ValidUtf8(s) witness []

  const MAP_MAGIC: Bytes := [0x53, 0x4F, 0x57, 0x4D]
  const MAP_VERSION: U16 := 1
  const MAP_VERSION_INLINE_GEO: U16 := 2
  const GEO_TAG_NONE: U8 := 0
  const GEO_TAG_EQUIRECT: U8 := 1
  const CATALOG_MAGIC: Bytes := [0x53, 0x4F, 0x57, 0x43]
  const CATALOG_VERSION: U16 := 2

  datatype MapSpawn = MapSpawn(name: Text, flag: Text, x: U32, y: U32)

  datatype GeoBounds = GeoBounds(minLon: I32, minLat: I32, maxLon: I32, maxLat: I32)

  datatype MapHeader = MapHeader(name: Text, width: U32, height: U32, numLandTiles: U32, spawnCount: nat,
                                 geo: Option<GeoBounds>, headerBytes: nat)

  datatype Map = Map(name: Text, width: U32, height: U32, numLandTiles: U32, spawns: seq<MapSpawn>,
                     geo: Option<GeoBounds>, terrain: Bytes)

  datatype MapFileError =
    | TooShort
    | BadMagic
    | UnsupportedVersion(version: U16)
    | BadGeoTag(tag: U8)
    | InvalidUtf8
    | TerrainLengthMismatch(expected: nat, got: nat)

  // ---- UTF-8 (section 4 of RFC 3629) ----

  predicate Tail(b: U8) {
    0x80 <= b <= 0xBF
  }

  // The length of the well-formed sequence at the front, or zero.
  function CharLength(s: Bytes): (n: nat)
    requires s != []
    ensures n <= |s|
  {
    var b := s[0];
    if b <= 0x7F then 1
    else if 0xC2 <= b <= 0xDF && |s| >= 2 && Tail(s[1]) then 2
    else if |s| >= 3 && Tail(s[1]) && Tail(s[2]) &&
            ((b == 0xE0 && s[1] >= 0xA0) || 0xE1 <= b <= 0xEC || (b == 0xED && s[1] <= 0x9F) || 0xEE <= b <= 0xEF)
    then 3
    else if |s| >= 4 && Tail(s[1]) && Tail(s[2]) && Tail(s[3]) &&
            ((b == 0xF0 && s[1] >= 0x90) || 0xF1 <= b <= 0xF3 || (b == 0xF4 && s[1] <= 0x8F)) then 4
    else 0
  }

  predicate ValidUtf8(s: Bytes) {
    s == [] || (CharLength(s) > 0 && ValidUtf8(s[CharLength(s)..]))
  }

  // ---- Little-endian integers ----

  function U16Bytes(v: U16): (r: Bytes)
    ensures |r| == 2
  {
    [v % 0x100, v / 0x100]
  }

  function U32Bytes(v: U32): (r: Bytes)
    ensures |r| == 4
  {
    U16Bytes(v % 0x1_0000) + U16Bytes(v / 0x1_0000)
  }

  function AsU32(v: I32): U32 {
    if v < 0 then v + 0x1_0000_0000 else v
  }

  function AsI32(v: U32): I32 {
    if v >= 0x8000_0000 then v - 0x1_0000_0000 else v
  }

  function I32Bytes(v: I32): (r: Bytes)
    ensures |r| == 4
  {
    U32Bytes(AsU32(v))
  }

  function U16Of(b: Bytes): U16
    requires |b| == 2
  {
    var low: int, high: int := b[0], b[1];
    low + 0x100 * high
  }

  function U32Of(b: Bytes): U32
    requires |b| == 4
  {
    U16Of(b[..2]) + 0x1_0000 * U16Of(b[2..])
  }

  lemma U16Back(v: U16)
    ensures U16Of(U16Bytes(v)) == v
  {
  }

  lemma U32Back(v: U32)
    ensures U32Of(U32Bytes(v)) == v
  {
    hide U16Of, U16Bytes;
    U16Back(v % 0x1_0000);
    U16Back(v / 0x1_0000);
    assert U32Bytes(v)[..2] == U16Bytes(v % 0x1_0000);
    assert U32Bytes(v)[2..] == U16Bytes(v / 0x1_0000);
  }

  lemma I32Back(v: I32)
    ensures AsI32(AsU32(v)) == v
  {
  }

  // ---- Readers ----

  /** A value and the offset behind it. */
  type Read<T> = Result<(T, nat), MapFileError>

  function Slice(data: Bytes, off: nat, n: nat): Result<Bytes, MapFileError> {
    if off + n <= |data| then Ok(data[off..off + n]) else Err(TooShort)
  }

  function ReadU8(data: Bytes, off: nat): Read<U8> {
    if off < |data| then Ok((data[off], off + 1)) else Err(TooShort)
  }

  function ReadU16(data: Bytes, off: nat): Read<U16> {
    var b :- Slice(data, off, 2);
    Ok((U16Of(b), off + 2))
  }

  function ReadU32(data: Bytes, off: nat): Read<U32> {
    var b :- Slice(data, off, 4);
    Ok((U32Of(b), off + 4))
  }

  function ReadI32(data: Bytes, off: nat): Read<I32> {
    var v :- ReadU32(data, off);
    Ok((AsI32(v.0), v.1))
  }

  function ReadString(data: Bytes, off: nat): Read<Text> {
    var len :- ReadU16(data, off);
    var b :- Slice(data, len.1, len.0);
    if ValidUtf8(b) then Ok((b, len.1 + len.0)) else Err(InvalidUtf8)
  }

  function ReadBounds(data: Bytes, off: nat): Read<GeoBounds> {
    var minLon :- ReadI32(data, off);
    var minLat :- ReadI32(data, minLon.1);
    var maxLon :- ReadI32(data, minLat.1);
    var maxLat :- ReadI32(data, maxLon.1);
    Ok((GeoBounds(minLon.0, minLat.0, maxLon.0, maxLat.0), maxLat.1))
  }

  function ReadGeoRecord(data: Bytes, off: nat): Read<Option<GeoBounds>> {
    var tag :- ReadU8(data, off);
    if tag.0 == GEO_TAG_NONE then Ok((None, tag.1))
    else if tag.0 == GEO_TAG_EQUIRECT then
      var bounds :- ReadBounds(data, tag.1);
      Ok((Some(bounds.0), bounds.1))
    else Err(BadGeoTag(tag.0))
  }

  function ReadSpawn(data: Bytes, off: nat): Read<MapSpawn> {
    var name :- ReadString(data, off);
    var flag :- ReadString(data, name.1);
    var x :- ReadU32(data, flag.1);
    var y :- ReadU32(data, x.1);
    Ok((MapSpawn(name.0, flag.0, x.0, y.0), y.1))
  }

  function ReadSpawns(data: Bytes, off: nat, n: nat): Read<seq<MapSpawn>> {
    if n == 0 then Ok(([], off)) else
      var init :- ReadSpawns(data, off, n - 1);
      var last :- ReadSpawn(data, init.1);
      Ok((init.0 + [last.0], last.1))
  }

  // ---- Writers ----

  /** The length prefix keeps only 16 bits of the length. */
  function StringBytes(s: Text): Bytes {
    U16Bytes(|s| % 0x1_0000) + s
  }

  function BoundsBytes(b: GeoBounds): (r: Bytes)
    ensures |r| == 16
  {
    I32Bytes(b.minLon) + I32Bytes(b.minLat) + I32Bytes(b.maxLon) + I32Bytes(b.maxLat)
  }

  function GeoRecord(b: GeoBounds): (r: Bytes)
    ensures |r| == 17
  {
    [GEO_TAG_EQUIRECT] + BoundsBytes(b)
  }

  function SpawnBytes(s: MapSpawn): Bytes {
    StringBytes(s.name) + StringBytes(s.flag) + U32Bytes(s.x) + U32Bytes(s.y)
  }

  function SpawnsBytes(spawns: seq<MapSpawn>): Bytes {
    if spawns == [] then [] else SpawnsBytes(spawns[..|spawns| - 1]) + SpawnBytes(spawns[|spawns| - 1])
  }

  // ---- What a reader does where its bytes are, and where they are cut off ----

  /** `bytes` stands in full at offset `off`. */
  ghost predicate Holds(data: Bytes, off: nat, bytes: Bytes) {
    off + |bytes| <= |data| && data[off..off + |bytes|] == bytes
  }

  /** The data ends inside of `bytes`, which starts at offset `off`. */
  ghost predicate Cut(data: Bytes, off: nat, bytes: Bytes) {
    off <= |data| < off + |bytes| && data[off..] == bytes[..|data| - off]
  }

  lemma HoldsJoin(data: Bytes, off: nat, a: Bytes, b: Bytes)
    requires Holds(data, off, a + b)
    ensures Holds(data, off, a) && Holds(data, off + |a|, b)
  {
    var all := data[off..off + |a + b|];
    assert data[off..off + |a|] == all[..|a|] == a;
    assert data[off + |a|..off + |a| + |b|] == all[|a|..] == b;
  }

  lemma CutJoin(data: Bytes, off: nat, a: Bytes, b: Bytes)
    requires Cut(data, off, a + b)
    ensures Cut(data, off, a) || (Holds(data, off, a) && Cut(data, off + |a|, b))
  {
    var n := |data| - off;
    assert data[off..] == (a + b)[..n];
    if n < |a| {
      assert (a + b)[..n] == a[..n];
    } else {
      assert data[off..off + |a|] == data[off..][..|a|] == a;
      assert data[off + |a|..] == data[off..][|a|..] == b[..n - |a|];
    }
  }

  lemma Split(data: Bytes, off: nat, a: Bytes, b: Bytes)
    ensures Holds(data, off, a + b) ==> Holds(data, off, a) && Holds(data, off + |a|, b)
    ensures Cut(data, off, a + b) ==> Cut(data, off, a) || (Holds(data, off, a) && Cut(data, off + |a|, b))
  {
    hide Holds, Cut;
    if Holds(data, off, a + b) {
      HoldsJoin(data, off, a, b);
    }
    if Cut(data, off, a + b) {
      CutJoin(data, off, a, b);
    }
  }

  /** A reader that delivers a value from its bytes and reports their end missing. */
  ghost predicate Faithful<T>(r: Read<T>, data: Bytes, off: nat, bytes: Bytes, v: T) {
    && (Holds(data, off, bytes) ==> r == Ok((v, off + |bytes|)))
    && (Cut(data, off, bytes) ==> r == Err(TooShort))
  }

  lemma U16Faithful(data: Bytes, off: nat, v: U16)
    ensures Faithful(ReadU16(data, off), data, off, U16Bytes(v), v)
  {
    hide U16Of, U16Bytes;
    U16Back(v);
  }

  lemma U32Faithful(data: Bytes, off: nat, v: U32)
    ensures Faithful(ReadU32(data, off), data, off, U32Bytes(v), v)
  {
    hide U32Of, U32Bytes;
    U32Back(v);
  }

  lemma I32Faithful(data: Bytes, off: nat, v: I32)
    ensures Faithful(ReadI32(data, off), data, off, I32Bytes(v), v)
  {
    hide U32Of, U32Bytes, ReadU32;
    U32Faithful(data, off, AsU32(v));
    I32Back(v);
  }

  lemma StringFaithful(data: Bytes, off: nat, s: Text)
    requires |s| < 0x1_0000
    ensures Faithful(ReadString(data, off), data, off, StringBytes(s), s)
  {
    hide ReadU16, U16Bytes, ValidUtf8;
    U16Faithful(data, off, |s|);
    Split(data, off, U16Bytes(|s|), s);
  }

  lemma BoundsFaithful(data: Bytes, off: nat, b: GeoBounds)
    ensures Faithful(ReadBounds(data, off), data, off, BoundsBytes(b), b)
  {
    hide Holds, Cut, I32Bytes, ReadI32;
    var w, x, y, z := I32Bytes(b.minLon), I32Bytes(b.minLat), I32Bytes(b.maxLon), I32Bytes(b.maxLat);
    Split(data, off, w + x + y, z);
    Split(data, off, w + x, y);
    Split(data, off, w, x);
    I32Faithful(data, off, b.minLon);
    I32Faithful(data, off + 4, b.minLat);
    I32Faithful(data, off + 8, b.maxLon);
    I32Faithful(data, off + 12, b.maxLat);
  }

  lemma TagFaithful(data: Bytes, off: nat, tag: U8)
    ensures Faithful(ReadU8(data, off), data, off, [tag], tag)
  {
  }

  /** What the writer puts for the optional bounds inline: a tag, and the bounds if there are any. */
  function InlineGeo(geo: Option<GeoBounds>): Bytes {
    match geo
    case None => [GEO_TAG_NONE]
    case Some(b) => GeoRecord(b)
  }

  lemma GeoFaithful(data: Bytes, off: nat, geo: Option<GeoBounds>)
    ensures Faithful(ReadGeoRecord(data, off), data, off, InlineGeo(geo), geo)
  {
    hide Holds, Cut, BoundsBytes, ReadBounds, ReadU8;
    match geo
    case None => TagFaithful(data, off, GEO_TAG_NONE);
    case Some(b) =>
      TagFaithful(data, off, GEO_TAG_EQUIRECT);
      BoundsFaithful(data, off + 1, b);
      Split(data, off, [GEO_TAG_EQUIRECT], BoundsBytes(b));
  }

  /** The strings fit their length prefixes. */
  predicate SpawnFits(s: MapSpawn) {
    |s.name| < 0x1_0000 && |s.flag| < 0x1_0000
  }

  lemma SpawnFaithful(data: Bytes, off: nat, s: MapSpawn)
    requires SpawnFits(s)
    ensures Faithful(ReadSpawn(data, off), data, off, SpawnBytes(s), s)
  {
    hide Holds, Cut, U32Bytes, ReadU32, StringBytes, ReadString;
    var a, b, x, y := StringBytes(s.name), StringBytes(s.flag), U32Bytes(s.x), U32Bytes(s.y);
    Split(data, off, a + b + x, y);
    Split(data, off, a + b, x);
    Split(data, off, a, b);
    StringFaithful(data, off, s.name);
    StringFaithful(data, off + |a|, s.flag);
    U32Faithful(data, off + |a| + |b|, s.x);
    U32Faithful(data, off + |a| + |b| + 4, s.y);
  }

  lemma {:induction false} SpawnsFaithful(data: Bytes, off: nat, spawns: seq<MapSpawn>)
    requires forall k :: 0 <= k < |spawns| ==> SpawnFits(spawns[k])
    ensures Faithful(ReadSpawns(data, off, |spawns|), data, off, SpawnsBytes(spawns), spawns)
  {
    hide ReadSpawn, SpawnBytes;
    if spawns != [] {
      var init, last := spawns[..|spawns| - 1], spawns[|spawns| - 1];
      Split(data, off, SpawnsBytes(init), SpawnBytes(last));
      SpawnsFaithful(data, off, init);
      SpawnFaithful(data, off + |SpawnsBytes(init)|, last);
      assert spawns == init + [last];
    }
  }

  // ---- The header ----

  datatype Preamble = Preamble(version: U16, width: U32, height: U32, numLandTiles: U32, name: Text,
                               spawns: seq<MapSpawn>, end: nat)

  /** Everything from the version to the end of the spawn table. */
  function ReadPreamble(data: Bytes): Result<Preamble, MapFileError> {
    var version :- ReadU16(data, 4);
    var width :- ReadU32(data, version.1 + 2);
    var height :- ReadU32(data, width.1);
    var numLandTiles :- ReadU32(data, height.1);
    var name :- ReadString(data, numLandTiles.1);
    var count :- ReadU16(data, name.1);
    var spawns :- ReadSpawns(data, count.1, count.0);
    Ok(Preamble(version.0, width.0, height.0, numLandTiles.0, name.0, spawns.0, spawns.1))
  }

  /** The record behind the terrain of a version 1 file, if the data goes that far. */
  function TrailingGeo(data: Bytes, tail: nat): Result<Option<GeoBounds>, MapFileError> {
    if |data| > tail then
      var geo :- ReadGeoRecord(data, tail);
      Ok(geo.0)
    else Ok(None)
  }

  function Area(width: U32, height: U32): nat {
    width * height
  }

  function HeaderWith(p: Preamble, geo: Option<GeoBounds>, headerBytes: nat): MapHeader {
    MapHeader(p.name, p.width, p.height, p.numLandTiles, |p.spawns|, geo, headerBytes)
  }

  function HeaderBody(data: Bytes, p: Preamble): Result<MapHeader, MapFileError> {
    if p.version == MAP_VERSION then
      var geo :- TrailingGeo(data, p.end + Area(p.width, p.height));
      Ok(HeaderWith(p, geo, p.end))
    else
      var geo :- ReadGeoRecord(data, p.end);
      Ok(HeaderWith(p, geo.0, geo.1))
  }

  predicate Known(version: U16) {
    version == MAP_VERSION || version == MAP_VERSION_INLINE_GEO
  }

  /** The checks in front of the preamble. */
  function CheckVersion(data: Bytes): Result<U16, MapFileError> {
    if |data| < 20 then Err(TooShort)
    else if data[..4] != MAP_MAGIC then Err(BadMagic)
    else
      var version :- ReadU16(data, 4);
      if Known(version.0) then Ok(version.0) else Err(UnsupportedVersion(version.0))
  }

  function HeaderOf(data: Bytes): Result<MapHeader, MapFileError> {
    var _ :- CheckVersion(data);
    var p :- ReadPreamble(data);
    HeaderBody(data, p)
  }

  function TerrainOf(data: Bytes, header: MapHeader): Result<Bytes, MapFileError> {
    var size := Area(header.width, header.height);
    var start := header.headerBytes;
    if start + size > |data| then
      Err(TerrainLengthMismatch(size, if |data| >= start then |data| - start else 0))
    else Ok(data[start..start + size])
  }

  function MapFrom(header: MapHeader, terrain: Bytes, p: Preamble): Map {
    Map(p.name, header.width, header.height, p.numLandTiles, p.spawns, header.geo, terrain)
  }

  /** The map a file stands for. */
  function MapOf(data: Bytes): Result<Map, MapFileError> {
    var header :- HeaderOf(data);
    var terrain :- TerrainOf(data, header);
    var p :- ReadPreamble(data);
    Ok(MapFrom(header, terrain, p))
  }

  // ---- The encoding ----

  function Opening(version: U16): Bytes {
    MAP_MAGIC + U16Bytes(version) + U16Bytes(0)
  }

  function PreambleBytes(version: U16, m: Map): Bytes {
    Opening(version) + U32Bytes(m.width) + U32Bytes(m.height) + U32Bytes(m.numLandTiles) + StringBytes(m.name)
    + U16Bytes(|m.spawns| % 0x1_0000) + SpawnsBytes(m.spawns)
  }

  function TrailingRecord(geo: Option<GeoBounds>): Bytes {
    match geo
    case None => []
    case Some(b) => GeoRecord(b)
  }

  /** The current layout. */
  function Encoded(m: Map): Bytes {
    PreambleBytes(MAP_VERSION, m) + m.terrain + TrailingRecord(m.geo)
  }

  /** The transitional layout, with the record in front of the terrain. */
  function EncodedInline(m: Map): Bytes {
    PreambleBytes(MAP_VERSION_INLINE_GEO, m) + InlineGeo(m.geo) + m.terrain
  }

  /** The map fits the format: counts and lengths in 16 bits, one terrain byte for each tile. */
  predicate Fits(m: Map) {
    && |m.name| < 0x1_0000 && |m.spawns| < 0x1_0000
    && (forall k :: 0 <= k < |m.spawns| ==> SpawnFits(m.spawns[k]))
    && |m.terrain| == Area(m.width, m.height)
  }

  // ---- Reading back an encoding, whole or cut off ----

  lemma OpeningRead(data: Bytes, version: U16)
    ensures Holds(data, 0, Opening(version)) ==>
              |data| >= 8 && data[..4] == MAP_MAGIC && ReadU16(data, 4) == Ok((version, 6))
    ensures Cut(data, 0, Opening(version)) ==> |data| < 8
  {
    hide ReadU16, U16Bytes;
    Split(data, 0, MAP_MAGIC + U16Bytes(version), U16Bytes(0));
    Split(data, 0, MAP_MAGIC, U16Bytes(version));
    U16Faithful(data, 4, version);
  }

  lemma PreambleFaithful(data: Bytes, version: U16, m: Map)
    requires Fits(m)
    ensures var bytes := PreambleBytes(version, m);
            && |bytes| >= 20
            && (Holds(data, 0, bytes) ==>
                  Holds(data, 0, Opening(version)) &&
                  ReadPreamble(data) ==
                    Ok(Preamble(version, m.width, m.height, m.numLandTiles, m.name, m.spawns, |bytes|)))
            && (Cut(data, 0, bytes) && |data| >= 20 ==>
                  Holds(data, 0, Opening(version)) && ReadPreamble(data) == Err(TooShort))
  {
    hide Holds, Cut, U32Bytes, ReadU32, StringBytes, ReadString, U16Bytes, ReadU16, SpawnsBytes, ReadSpawns;
    var o, w, h, n := Opening(version), U32Bytes(m.width), U32Bytes(m.height), U32Bytes(m.numLandTiles);
    var s, c, p := StringBytes(m.name), U16Bytes(|m.spawns|), SpawnsBytes(m.spawns);
    OpeningRead(data, version);
    hide Opening;
    OpeningSize(version);
    Split(data, 0, o + w + h + n + s + c, p);
    Split(data, 0, o + w + h + n + s, c);
    Split(data, 0, o + w + h + n, s);
    Split(data, 0, o + w + h, n);
    Split(data, 0, o + w, h);
    Split(data, 0, o, w);
    U32Faithful(data, 8, m.width);
    U32Faithful(data, 12, m.height);
    U32Faithful(data, 16, m.numLandTiles);
    StringFaithful(data, 20, m.name);
    U16Faithful(data, 20 + |s|, |m.spawns|);
    SpawnsFaithful(data, 22 + |s|, m.spawns);
  }

  lemma OpeningSize(version: U16)
    ensures |Opening(version)| == 8
  {
  }

  lemma HoldsPrefix(bytes: Bytes, rest: Bytes, k: nat)
    requires k <= |bytes + rest|
    ensures k >= |bytes| ==> Holds((bytes + rest)[..k], 0, bytes)
    ensures k < |bytes| ==> Cut((bytes + rest)[..k], 0, bytes)
  {
    var data := (bytes + rest)[..k];
    if k >= |bytes| {
      assert data[0..|bytes|] == bytes;
    } else {
      assert data[0..] == bytes[..k];
    }
  }

  lemma HoldsAfter(bytes: Bytes, rest: Bytes, k: nat)
    requires |bytes| <= k <= |bytes + rest|
    ensures k == |bytes + rest| ==> Holds((bytes + rest)[..k], |bytes|, rest)
    ensures k < |bytes + rest| ==> Cut((bytes + rest)[..k], |bytes|, rest)
  {
    var data := (bytes + rest)[..k];
    assert data[|bytes|..] == rest[..k - |bytes|];
    if k == |bytes + rest| {
      assert data[|bytes|..|bytes| + |rest|] == rest;
    }
  }

  /** What parsing the first `k` bytes of an encoding yields. */
  function PrefixOutcome(m: Map, k: nat): Result<Map, MapFileError> {
    var start := |PreambleBytes(MAP_VERSION, m)|;
    var tail := start + |m.terrain|;
    if k < start then Err(TooShort)
    else if k < tail then Err(TerrainLengthMismatch(|m.terrain|, k - start))
    else if k == tail then Ok(m.(geo := None))
    else if k < tail + |TrailingRecord(m.geo)| then Err(TooShort)
    else Ok(m)
  }

  // The part of the outcome that depends on the data behind the preamble.
  lemma BodyOutcome(data: Bytes, m: Map, k: nat, p: Preamble)
    requires Fits(m) && k <= |Encoded(m)| && data == Encoded(m)[..k] && k >= |PreambleBytes(MAP_VERSION, m)|
    requires p == Preamble(MAP_VERSION, m.width, m.height, m.numLandTiles, m.name, m.spawns,
                           |PreambleBytes(MAP_VERSION, m)|)
    ensures match HeaderBody(data, p)
            case Err(e) => PrefixOutcome(m, k) == Err(e)
            case Ok(header) =>
              match TerrainOf(data, header)
              case Err(e) => PrefixOutcome(m, k) == Err(e)
              case Ok(terrain) => PrefixOutcome(m, k) == Ok(MapFrom(header, terrain, p))
  {
    hide PreambleBytes, Area, ReadGeoRecord, GeoRecord, Holds, Cut;
    var front := PreambleBytes(MAP_VERSION, m);
    var tail := |front| + |m.terrain|;
    if k > tail {
      HoldsAfter(front + m.terrain, TrailingRecord(m.geo), k);
      GeoFaithful(data, tail, m.geo);
    }
    if k >= tail {
      assert data[|front|..tail] == m.terrain;
    }
  }

  lemma EncodedParts(m: Map)
    ensures Encoded(m) == PreambleBytes(MAP_VERSION, m) + (m.terrain + TrailingRecord(m.geo))
  {
    hide PreambleBytes, TrailingRecord;
  }

  lemma EarlyOutcome(m: Map, k: nat)
    ensures k < |PreambleBytes(MAP_VERSION, m)| ==> PrefixOutcome(m, k) == Err(TooShort)
  {
    hide PreambleBytes;
  }

  /** The outcome of parsing any prefix of an encoding, the whole included. */
  lemma ParsePrefix(m: Map, k: nat)
    requires Fits(m) && k <= |Encoded(m)|
    ensures MapOf(Encoded(m)[..k]) == PrefixOutcome(m, k)
  {
    hide PreambleBytes, TerrainOf, MapFrom, HeaderBody, ReadPreamble, Opening, ReadU16, Fits, PrefixOutcome;
    hide Encoded;
    var data := Encoded(m)[..k];
    var front := PreambleBytes(MAP_VERSION, m);
    EncodedParts(m);
    EarlyOutcome(m, k);
    HoldsPrefix(front, m.terrain + TrailingRecord(m.geo), k);
    PreambleFaithful(data, MAP_VERSION, m);
    OpeningRead(data, MAP_VERSION);
    if k >= |front| {
      BodyOutcome(data, m, k, ReadPreamble(data).value);
    }
  }

  /** Every strict prefix is rejected, except the one that drops exactly the geographic record. */
  lemma StrictPrefixRejected(m: Map, k: nat)
    requires Fits(m) && k < |Encoded(m)|
    ensures var r := MapOf(Encoded(m)[..k]);
            if m.geo.Some? && k + 17 == |Encoded(m)| then r == Ok(m.(geo := None)) else r.Err?
  {
    hide PreambleBytes, MapOf, Fits, GeoRecord;
    ParsePrefix(m, k);
  }

  /** A stamped file is the unstamped one and 17 bytes more. */
  lemma StampAppends(m: Map, b: GeoBounds)
    ensures Encoded(m.(geo := Some(b))) == Encoded(m.(geo := None)) + GeoRecord(b)
    ensures |Encoded(m.(geo := Some(b)))| == |Encoded(m.(geo := None))| + 17
  {
    hide GeoRecord;
    SamePreamble(m, Some(b));
    SamePreamble(m, None);
    hide PreambleBytes;
  }

  lemma SamePreamble(m: Map, geo: Option<GeoBounds>)
    ensures PreambleBytes(MAP_VERSION, m.(geo := geo)) == PreambleBytes(MAP_VERSION, m)
  {
  }

  lemma {:induction false} SpawnsRead(data: Bytes, off: nat, n: nat)
    ensures var r := ReadSpawns(data, off, n);
            r.Ok? ==> |r.value.0| == n && forall k :: 0 <= k < n ==> SpawnFits(r.value.0[k])
  {
    hide ReadSpawn, SpawnFits;
    if n > 0 {
      SpawnsRead(data, off, n - 1);
      if ReadSpawns(data, off, n).Ok? {
        SpawnRead(data, ReadSpawns(data, off, n - 1).value.1);
      }
    }
  }

  lemma SpawnRead(data: Bytes, off: nat)
    ensures var r := ReadSpawn(data, off); r.Ok? ==> SpawnFits(r.value.0)
  {
    hide ReadU16, ReadU32, ValidUtf8;
  }

  lemma PreambleFits(data: Bytes)
    ensures var r := ReadPreamble(data);
            r.Ok? ==> |r.value.name| < 0x1_0000 && |r.value.spawns| < 0x1_0000
                      && forall k :: 0 <= k < |r.value.spawns| ==> SpawnFits(r.value.spawns[k])
  {
    hide ReadU16, ReadU32, ValidUtf8, ReadSpawns, SpawnFits;
    var version := ReadU16(data, 4);
    if ReadPreamble(data).Ok? {
      var width := ReadU32(data, version.value.1 + 2).value;
      var height := ReadU32(data, width.1).value;
      var numLandTiles := ReadU32(data, height.1).value;
      var name := ReadString(data, numLandTiles.1).value;
      var count := ReadU16(data, name.1).value;
      SpawnsRead(data, count.1, count.0);
    }
  }

  /** Only maps that fit the format come out of the parser. */
  lemma ParsedFits(data: Bytes)
    ensures MapOf(data).Ok? ==> Fits(MapOf(data).value)
  {
    hide ReadPreamble, ReadGeoRecord, SpawnFits;
    PreambleFits(data);
  }

  /** Encoding and parsing is the identity on exactly the maps that fit the format. */
  lemma RoundTrip(m: Map)
    ensures MapOf(Encoded(m)) == Ok(m) <==> Fits(m)
  {
    hide PreambleBytes, MapOf, Fits, GeoRecord;
    ParsedFits(Encoded(m));
    if Fits(m) {
      ParsePrefix(m, |Encoded(m)|);
      assert Encoded(m)[..|Encoded(m)|] == Encoded(m);
    }
  }

  /** The transitional layout parses to the same map, with or without bounds. */
  lemma InlineRoundTrip(m: Map)
    requires Fits(m)
    ensures MapOf(EncodedInline(m)) == Ok(m)
  {
    hide PreambleBytes, ReadPreamble, Opening, ReadU16, ReadGeoRecord, Holds, Cut, Area;
    var front, geo := PreambleBytes(MAP_VERSION_INLINE_GEO, m), InlineGeo(m.geo);
    var data := EncodedInline(m);
    assert data[..|data|] == data;
    assert data == front + (geo + m.terrain);
    HoldsPrefix(front, geo + m.terrain, |data|);
    PreambleFaithful(data, MAP_VERSION_INLINE_GEO, m);
    OpeningRead(data, MAP_VERSION_INLINE_GEO);
    HoldsAfter(front, geo + m.terrain, |data|);
    Split(data, |front|, geo, m.terrain);
    GeoFaithful(data, |front|, m.geo);
    assert data[|front| + |geo|..|front| + |geo| + |m.terrain|] == m.terrain;
  }

  // ---- The code that does it ----

  method ReadSpawnTable(data: Bytes, off: nat, n: nat) returns (r: Read<seq<MapSpawn>>)
    ensures r == ReadSpawns(data, off, n)
  {
    hide ReadSpawn;
    var spawns: seq<MapSpawn> := [];
    var at := off;
    for k := 0 to n
      invariant ReadSpawns(data, off, k) == Ok((spawns, at))
    {
      var spawn := ReadSpawn(data, at);
      if spawn.Err? {
        StaysFailed(data, off, k + 1, n);
        return Err(spawn.error);
      }
      spawns := spawns + [spawn.value.0];
      at := spawn.value.1;
    }
    return Ok((spawns, at));
  }

  lemma {:induction false} StaysFailed(data: Bytes, off: nat, k: nat, n: nat)
    requires k <= n && ReadSpawns(data, off, k).Err?
    ensures ReadSpawns(data, off, n) == Err(ReadSpawns(data, off, k).error)
    decreases n
  {
    hide ReadSpawn;
    if k < n {
      StaysFailed(data, off, k, n - 1);
    }
  }

  /** From the version to the end of the spawn table, advancing the offset field by field. */
  method ParsePreamble(data: Bytes) returns (r: Result<Preamble, MapFileError>)
    ensures r == ReadPreamble(data)
  {
    hide ReadU16, ReadU32, ReadString, ReadSpawns;
    var off := 4;
    var version :- ReadU16(data, off);
    off := version.1 + 2;
    var width :- ReadU32(data, off);
    off := width.1;
    var height :- ReadU32(data, off);
    off := height.1;
    var numLandTiles :- ReadU32(data, off);
    off := numLandTiles.1;
    var name :- ReadString(data, off);
    off := name.1;
    var count :- ReadU16(data, off);
    off := count.1;
    var spawns := ReadSpawnTable(data, off, count.0);
    if spawns.Err? {
      return Err(spawns.error);
    }
    off := spawns.value.1;
    return Ok(Preamble(version.0, width.0, height.0, numLandTiles.0, name.0, spawns.value.0, off));
  }

  /** `parse_header`. */
  method ParseHeader(data: Bytes) returns (r: Result<MapHeader, MapFileError>)
    ensures r == HeaderOf(data)
  {
    hide ReadU16, ReadPreamble, ReadGeoRecord, Area;
    if |data| < 20 {
      return Err(TooShort);
    }
    if data[..4] != MAP_MAGIC {
      return Err(BadMagic);
    }
    var version :- ReadU16(data, 4);
    if !Known(version.0) {
      return Err(UnsupportedVersion(version.0));
    }
    var p :- ParsePreamble(data);
    var geo: Option<GeoBounds> := None;
    var off := p.end;
    if p.version == MAP_VERSION_INLINE_GEO {
      SameVersion(data);
      var inline :- ReadGeoRecord(data, off);
      geo, off := inline.0, inline.1;
    }
    var headerBytes := off;
    if p.version == MAP_VERSION {
      var tail := headerBytes + Area(p.width, p.height);
      if |data| > tail {
        var trailing :- ReadGeoRecord(data, tail);
        geo := trailing.0;
      }
    }
    SameVersion(data);
    return Ok(HeaderWith(p, geo, headerBytes));
  }

  lemma SameVersion(data: Bytes)
    ensures ReadPreamble(data).Ok? ==>
              ReadU16(data, 4).Ok? && ReadPreamble(data).value.version == ReadU16(data, 4).value.0
  {
    hide ReadU16, ReadU32, ReadString, ReadSpawns;
  }

  /** `parse`. */
  method Parse(data: Bytes) returns (r: Result<Map, MapFileError>)
    ensures r == MapOf(data)
  {
    hide ReadPreamble, HeaderOf, Area;
    var header :- ParseHeader(data);
    var size := Area(header.width, header.height);
    var start := header.headerBytes;
    if start + size > |data| {
      return Err(TerrainLengthMismatch(size, if |data| >= start then |data| - start else 0));
    }
    var terrain := data[start..start + size];
    var p :- ParsePreamble(data);
    return Ok(MapFrom(header, terrain, p));
  }

  /** `encode`. */
  method Encode(m: Map) returns (out: Bytes)
    ensures out == Encoded(m)
  {
    hide U16Bytes, U32Bytes, StringBytes, SpawnBytes, GeoRecord;
    out := MAP_MAGIC;
    out := out + U16Bytes(MAP_VERSION);
    out := out + U16Bytes(0);
    out := out + U32Bytes(m.width);
    out := out + U32Bytes(m.height);
    out := out + U32Bytes(m.numLandTiles);
    out := out + StringBytes(m.name);
    out := out + U16Bytes(|m.spawns| % 0x1_0000);
    ghost var front := out;
    assert PreambleBytes(MAP_VERSION, m) == front + SpawnsBytes(m.spawns);
    for k := 0 to |m.spawns|
      invariant out == front + SpawnsBytes(m.spawns[..k])
    {
      assert m.spawns[..k + 1][..k] == m.spawns[..k];
      assert front + SpawnsBytes(m.spawns[..k]) + SpawnBytes(m.spawns[k]) == front + SpawnsBytes(m.spawns[..k + 1]);
      out := out + SpawnBytes(m.spawns[k]);
    }
    assert m.spawns[..|m.spawns|] == m.spawns;
    out := out + m.terrain;
    if m.geo.Some? {
      out := out + GeoRecord(m.geo.value);
    }
  }
}
