/**
Where the bytes of a map or catalog file stand, field by field: the layout that
sow-core/src/map_file.rs writes and accepts, stated on the bytes themselves and
without its readers and writers, and the proof that exactly the files laid out
this way parse.
*/
module MapLayout {
  import opened Wrappers
  import opened MapFile
  import opened MapCatalog

  // ---- Little-endian numbers and text ----

  /** The number that bytes stand for, the least significant first. */
  ghost function LittleEndian(b: Bytes): nat {
    if b == [] then 0 else b[0] + 0x100 * LittleEndian(b[1..])
  }

  ghost predicate NumberAt(data: Bytes, off: nat, size: nat, v: int) {
    off + size <= |data| && LittleEndian(data[off..off + size]) == v
  }

  /** Two's complement in 32 bits. */
  ghost predicate SignedAt(data: Bytes, off: nat, v: I32) {
    NumberAt(data, off, 4, if v < 0 then v + 0x1_0000_0000 else v)
  }

  ghost predicate TextAt(data: Bytes, off: nat, s: Text) {
    NumberAt(data, off, 2, |s|) && off + 2 + |s| <= |data| && data[off + 2..off + 2 + |s|] == s
  }

  lemma U16At(data: Bytes, off: nat, v: U16)
    ensures ReadU16(data, off) == Ok((v, off + 2)) <==> NumberAt(data, off, 2, v)
    ensures ReadU16(data, off).Ok? ==> ReadU16(data, off).value.1 == off + 2
  {
    if off + 2 <= |data| {
      var b := data[off..off + 2];
      assert b[1..][1..] == [];
      assert LittleEndian(b) == b[0] + 0x100 * LittleEndian(b[1..]);
    }
  }

  lemma U32Is(b: Bytes)
    requires |b| == 4
    ensures U32Of(b) == LittleEndian(b)
  {
    var w: int, x: int, y: int, z: int := b[0], b[1], b[2], b[3];
    assert b[1..][1..] == b[2..] && b[2..][1..] == b[3..] && b[3..][1..] == [];
    assert LittleEndian(b[3..]) == z;
    assert LittleEndian(b[2..]) == y + 0x100 * z;
    assert LittleEndian(b[1..]) == x + 0x100 * LittleEndian(b[2..]);
    assert U16Of(b[2..]) == y + 0x100 * z && U16Of(b[..2]) == w + 0x100 * x;
  }

  lemma U32At(data: Bytes, off: nat, v: U32)
    ensures ReadU32(data, off) == Ok((v, off + 4)) <==> NumberAt(data, off, 4, v)
    ensures ReadU32(data, off).Ok? ==> ReadU32(data, off).value.1 == off + 4
  {
    hide U32Of, LittleEndian;
    if off + 4 <= |data| {
      U32Is(data[off..off + 4]);
    }
  }

  lemma I32At(data: Bytes, off: nat, v: I32)
    ensures ReadI32(data, off) == Ok((v, off + 4)) <==> SignedAt(data, off, v)
    ensures ReadI32(data, off).Ok? ==> ReadI32(data, off).value.1 == off + 4
  {
    hide ReadU32, NumberAt;
    U32At(data, off, AsU32(v));
    if ReadU32(data, off).Ok? {
      U32At(data, off, ReadU32(data, off).value.0);
    }
  }

  lemma StringAt(data: Bytes, off: nat, s: Text)
    ensures ReadString(data, off) == Ok((s, off + 2 + |s|)) <==> TextAt(data, off, s)
    ensures var r := ReadString(data, off); r.Ok? ==> r.value.1 == off + 2 + |r.value.0|
  {
    hide ReadU16, NumberAt, ValidUtf8;
    if |s| < 0x1_0000 {
      U16At(data, off, |s|);
    } else {
      WideNumber(data, off, |s|);
    }
    if ReadU16(data, off).Ok? {
      U16At(data, off, ReadU16(data, off).value.0);
    }
  }

  // Two bytes hold no more than 16 bits.
  lemma WideNumber(data: Bytes, off: nat, v: nat)
    requires v >= 0x1_0000
    ensures !NumberAt(data, off, 2, v)
  {
    if off + 2 <= |data| {
      var b := data[off..off + 2];
      assert b[1..][1..] == [];
      assert LittleEndian(b) == b[0] + 0x100 * LittleEndian(b[1..]);
    }
  }

  // ---- UTF-8 (section 3 of RFC 3629) ----

  /** A Unicode scalar value. */
  ghost predicate Scalar(c: int) {
    0 <= c < 0xD800 || 0xE000 <= c < 0x11_0000
  }

  ghost function Utf8(c: int): Bytes
    requires Scalar(c)
  {
    if c < 0x80 then [c]
    else if c < 0x800 then [0xC0 + c / 0x40, 0x80 + c % 0x40]
    else if c < 0x1_0000 then [0xE0 + c / 0x1000, 0x80 + c / 0x40 % 0x40, 0x80 + c % 0x40]
    else [0xF0 + c / 0x4_0000, 0x80 + c / 0x1000 % 0x40, 0x80 + c / 0x40 % 0x40, 0x80 + c % 0x40]
  }

  lemma Digits(a: nat, b: nat, c: nat, d: nat)
    requires b < 0x40 && c < 0x40 && d < 0x40
    ensures var v := 0x4_0000 * a + 0x1000 * b + 0x40 * c + d;
            v / 0x4_0000 == a && v / 0x1000 % 0x40 == b && v / 0x40 % 0x40 == c && v % 0x40 == d
  {
    var v := 0x4_0000 * a + 0x1000 * b + 0x40 * c + d;
    assert v / 0x1000 == 0x40 * a + b;
    assert v / 0x40 == 0x1000 * a + 0x40 * b + c;
  }

  lemma Found1(b: int) returns (c: int)
    requires 0 <= b <= 0x7F
    ensures Scalar(c) && Utf8(c) == [b]
  {
    c := b;
  }

  lemma Found2(b: int, x: int) returns (c: int)
    requires 0xC2 <= b <= 0xDF && 0x80 <= x <= 0xBF
    ensures Scalar(c) && Utf8(c) == [b, x]
  {
    c := 0x40 * (b - 0xC0) + (x - 0x80);
  }

  lemma Found3(b: int, x: int, y: int) returns (c: int)
    requires 0xE0 <= b <= 0xEF && 0x80 <= x <= 0xBF && 0x80 <= y <= 0xBF
    requires (b == 0xE0 ==> x >= 0xA0) && (b == 0xED ==> x <= 0x9F)
    ensures Scalar(c) && Utf8(c) == [b, x, y]
  {
    Digits(0, b - 0xE0, x - 0x80, y - 0x80);
    c := 0x1000 * (b - 0xE0) + 0x40 * (x - 0x80) + (y - 0x80);
    assert c / 0x1000 == b - 0xE0;
  }

  lemma Found4(b: int, x: int, y: int, z: int) returns (c: int)
    requires 0xF0 <= b <= 0xF4 && 0x80 <= x <= 0xBF && 0x80 <= y <= 0xBF && 0x80 <= z <= 0xBF
    requires (b == 0xF0 ==> x >= 0x90) && (b == 0xF4 ==> x <= 0x8F)
    ensures Scalar(c) && Utf8(c) == [b, x, y, z]
  {
    Digits(b - 0xF0, x - 0x80, y - 0x80, z - 0x80);
    c := 0x4_0000 * (b - 0xF0) + 0x1000 * (x - 0x80) + 0x40 * (y - 0x80) + (z - 0x80);
  }

  lemma CharFound(s: Bytes) returns (c: int)
    requires s != [] && CharLength(s) > 0
    ensures Scalar(c) && s[..CharLength(s)] == Utf8(c)
  {
    hide Scalar, Utf8;
    match CharLength(s)
    case 1 => c := Found1(s[0]);
    case 2 => c := Found2(s[0], s[1]);
    case 3 => c := Found3(s[0], s[1], s[2]);
    case _ => c := Found4(s[0], s[1], s[2], s[3]);
  }

  lemma Lead2(c: int)
    requires 0x80 <= c < 0x800
    ensures 0xC2 <= 0xC0 + c / 0x40 <= 0xDF && 0x80 <= 0x80 + c % 0x40 <= 0xBF
  {
  }

  lemma Lead3(c: int)
    requires 0x800 <= c < 0x1_0000 && Scalar(c)
    ensures var b, x, y := 0xE0 + c / 0x1000, 0x80 + c / 0x40 % 0x40, 0x80 + c % 0x40;
            && 0xE0 <= b <= 0xEF && 0x80 <= x <= 0xBF && 0x80 <= y <= 0xBF
            && (b == 0xE0 ==> x >= 0xA0) && (b == 0xED ==> x <= 0x9F)
  {
  }

  lemma Lead4(c: int)
    requires 0x1_0000 <= c < 0x11_0000
    ensures var b, x, y, z := 0xF0 + c / 0x4_0000, 0x80 + c / 0x1000 % 0x40, 0x80 + c / 0x40 % 0x40, 0x80 + c % 0x40;
            && 0xF0 <= b <= 0xF4 && 0x80 <= x <= 0xBF && 0x80 <= y <= 0xBF && 0x80 <= z <= 0xBF
            && (b == 0xF0 ==> x >= 0x90) && (b == 0xF4 ==> x <= 0x8F)
  {
  }

  // The bytes of a scalar value are in the ranges of well-formed sequences (section 4 of RFC 3629).
  lemma Wellformed(c: int)
    requires Scalar(c)
    ensures var u := Utf8(c);
            && 1 <= |u| <= 4
            && (|u| == 1 ==> u[0] <= 0x7F)
            && (|u| == 2 ==> 0xC2 <= u[0] <= 0xDF && Tail(u[1]))
            && (|u| == 3 ==>
                  && 0xE0 <= u[0] <= 0xEF && Tail(u[1]) && Tail(u[2])
                  && (u[0] == 0xE0 ==> u[1] >= 0xA0) && (u[0] == 0xED ==> u[1] <= 0x9F))
            && (|u| == 4 ==>
                  && 0xF0 <= u[0] <= 0xF4 && Tail(u[1]) && Tail(u[2]) && Tail(u[3])
                  && (u[0] == 0xF0 ==> u[1] >= 0x90) && (u[0] == 0xF4 ==> u[1] <= 0x8F))
  {
    if 0x80 <= c < 0x800 {
      Lead2(c);
    } else if 0x800 <= c < 0x1_0000 {
      Lead3(c);
    } else if 0x1_0000 <= c {
      Lead4(c);
    }
  }

  lemma CharTaken(s: Bytes, c: int)
    requires Scalar(c) && Utf8(c) <= s
    ensures CharLength(s) == |Utf8(c)| > 0
  {
    hide Utf8, Scalar;
    Wellformed(c);
    assert forall k :: 0 <= k < |Utf8(c)| ==> s[k] == Utf8(c)[k];
  }

  /** A sequence is accepted at the front exactly if it encodes a scalar value. */
  lemma CharLengthIs(s: Bytes, n: nat)
    requires s != [] && n > 0
    ensures CharLength(s) == n <==> exists c :: Scalar(c) && |Utf8(c)| == n && Utf8(c) <= s
  {
    hide Utf8, Scalar, CharLength;
    if CharLength(s) == n {
      var c := CharFound(s);
      assert Utf8(c) <= s;
    }
    if c :| Scalar(c) && |Utf8(c)| == n && Utf8(c) <= s {
      CharTaken(s, c);
    }
  }

  // ---- The map file ----

  ghost predicate BoundsAt(data: Bytes, off: nat, b: GeoBounds) {
    && SignedAt(data, off, b.minLon) && SignedAt(data, off + 4, b.minLat)
    && SignedAt(data, off + 8, b.maxLon) && SignedAt(data, off + 12, b.maxLat)
  }

  ghost function GeoSize(geo: Option<GeoBounds>): nat {
    if geo.None? then 1 else 17
  }

  ghost predicate GeoAt(data: Bytes, off: nat, geo: Option<GeoBounds>) {
    && off < |data|
    && match geo
       case None => data[off] == 0
       case Some(b) => data[off] == 1 && BoundsAt(data, off + 1, b)
  }

  ghost function SpawnSize(s: MapSpawn): nat {
    12 + |s.name| + |s.flag|
  }

  ghost predicate SpawnAt(data: Bytes, off: nat, s: MapSpawn) {
    && TextAt(data, off, s.name)
    && TextAt(data, off + 2 + |s.name|, s.flag)
    && NumberAt(data, off + 4 + |s.name| + |s.flag|, 4, s.x)
    && NumberAt(data, off + 8 + |s.name| + |s.flag|, 4, s.y)
  }

  ghost function SpawnsSize(spawns: seq<MapSpawn>): nat {
    if spawns == [] then 0 else SpawnsSize(spawns[..|spawns| - 1]) + SpawnSize(spawns[|spawns| - 1])
  }

  /** Each spawn stands behind those in front of it. */
  ghost predicate SpawnsAt(data: Bytes, off: nat, spawns: seq<MapSpawn>) {
    forall k :: 0 <= k < |spawns| ==> SpawnAt(data, off + SpawnsSize(spawns[..k]), spawns[k])
  }

  /** The offset behind the spawn table. */
  ghost function TableEnd(m: Map): nat {
    24 + |m.name| + SpawnsSize(m.spawns)
  }

  /** The fields from the version to the spawn table. */
  ghost predicate FieldsAt(data: Bytes, version: U16, m: Map) {
    && NumberAt(data, 4, 2, version)
    && NumberAt(data, 8, 4, m.width) && NumberAt(data, 12, 4, m.height) && NumberAt(data, 16, 4, m.numLandTiles)
    && TextAt(data, 20, m.name)
    && NumberAt(data, 22 + |m.name|, 2, |m.spawns|)
    && SpawnsAt(data, 24 + |m.name|, m.spawns)
  }

  /** "SOWM" and the fields; the two bytes at offset 6 are not looked at. */
  ghost predicate FrontAt(data: Bytes, version: U16, m: Map) {
    |data| >= 4 && data[..4] == [0x53, 0x4F, 0x57, 0x4D] && FieldsAt(data, version, m)
  }

  ghost predicate TerrainAt(data: Bytes, off: nat, m: Map) {
    |m.terrain| == m.width * m.height && off + |m.terrain| <= |data| && data[off..off + |m.terrain|] == m.terrain
  }

  /** Version 1: the terrain behind the spawn table, the geographic record behind the terrain or missing. */
  ghost predicate CurrentLayout(data: Bytes, m: Map) {
    var tail := TableEnd(m) + |m.terrain|;
    FrontAt(data, 1, m) && TerrainAt(data, TableEnd(m), m)
    && if |data| > tail then GeoAt(data, tail, m.geo) else m.geo == None
  }

  /** Version 2: the geographic record in front of the terrain. */
  ghost predicate InlineLayout(data: Bytes, m: Map) {
    FrontAt(data, 2, m) && GeoAt(data, TableEnd(m), m.geo) && TerrainAt(data, TableEnd(m) + GeoSize(m.geo), m)
  }

  lemma BoundsRead(data: Bytes, off: nat, b: GeoBounds)
    ensures ReadBounds(data, off) == Ok((b, off + 16)) <==> BoundsAt(data, off, b)
    ensures ReadBounds(data, off).Ok? ==> ReadBounds(data, off).value.1 == off + 16
  {
    hide ReadI32, SignedAt;
    I32At(data, off, b.minLon);
    I32At(data, off + 4, b.minLat);
    I32At(data, off + 8, b.maxLon);
    I32At(data, off + 12, b.maxLat);
  }

  lemma GeoRead(data: Bytes, off: nat, geo: Option<GeoBounds>)
    ensures ReadGeoRecord(data, off) == Ok((geo, off + GeoSize(geo))) <==> GeoAt(data, off, geo)
    ensures var r := ReadGeoRecord(data, off); r.Ok? ==> r.value.1 == off + GeoSize(r.value.0)
  {
    hide ReadBounds, BoundsAt;
    if geo.Some? {
      BoundsRead(data, off + 1, geo.value);
    }
    if ReadBounds(data, off + 1).Ok? {
      BoundsRead(data, off + 1, ReadBounds(data, off + 1).value.0);
    }
  }

  lemma SpawnRead(data: Bytes, off: nat, s: MapSpawn)
    ensures ReadSpawn(data, off) == Ok((s, off + SpawnSize(s))) <==> SpawnAt(data, off, s)
    ensures var r := ReadSpawn(data, off); r.Ok? ==> r.value.1 == off + SpawnSize(r.value.0)
  {
    hide ReadString, ReadU32, TextAt, NumberAt;
    StringAt(data, off, s.name);
    StringAt(data, off + 2 + |s.name|, s.flag);
    U32At(data, off + 4 + |s.name| + |s.flag|, s.x);
    U32At(data, off + 8 + |s.name| + |s.flag|, s.y);
    var r := ReadSpawn(data, off);
    if r.Ok? {
      var v := r.value.0;
      StringAt(data, off, v.name);
      StringAt(data, off + 2 + |v.name|, v.flag);
      U32At(data, off + 4 + |v.name| + |v.flag|, v.x);
      U32At(data, off + 8 + |v.name| + |v.flag|, v.y);
    }
  }

  lemma SpawnsAtInit(data: Bytes, off: nat, spawns: seq<MapSpawn>)
    requires spawns != []
    ensures var init, last := spawns[..|spawns| - 1], spawns[|spawns| - 1];
            SpawnsAt(data, off, spawns) <==>
              SpawnsAt(data, off, init) && SpawnAt(data, off + SpawnsSize(init), last)
  {
    hide SpawnAt, SpawnsSize;
    var init := spawns[..|spawns| - 1];
    assert forall k :: 0 <= k < |init| ==> spawns[..k] == init[..k];
  }

  lemma {:induction false} TableRead(data: Bytes, off: nat, spawns: seq<MapSpawn>)
    ensures ReadSpawns(data, off, |spawns|) == Ok((spawns, off + SpawnsSize(spawns))) <==> SpawnsAt(data, off, spawns)
  {
    hide ReadSpawn, SpawnAt, SpawnSize, SpawnsAt, SpawnsSize;
    SpawnsSizeIs(spawns);
    if spawns == [] {
      NoSpawns(data, off);
    } else {
      var init, last := spawns[..|spawns| - 1], spawns[|spawns| - 1];
      SpawnsAtInit(data, off, spawns);
      TableRead(data, off, init);
      SpawnRead(data, off + SpawnsSize(init), last);
      if ReadSpawns(data, off, |spawns|).Ok? {
        TableSize(data, off, |init|);
        assert spawns == init + [last];
      }
    }
  }

  lemma SpawnsSizeIs(spawns: seq<MapSpawn>)
    ensures SpawnsSize(spawns) ==
              if spawns == [] then 0 else SpawnsSize(spawns[..|spawns| - 1]) + SpawnSize(spawns[|spawns| - 1])
  {
    hide SpawnSize;
  }

  lemma NoSpawns(data: Bytes, off: nat)
    ensures SpawnsAt(data, off, [])
  {
  }

  lemma {:induction false} TableSize(data: Bytes, off: nat, n: nat)
    ensures var r := ReadSpawns(data, off, n);
            r.Ok? ==> |r.value.0| == n && r.value.1 == off + SpawnsSize(r.value.0)
  {
    hide ReadSpawn, SpawnSize;
    if n > 0 && ReadSpawns(data, off, n).Ok? {
      TableSize(data, off, n - 1);
      var init := ReadSpawns(data, off, n - 1).value;
      var last := ReadSpawn(data, init.1).value;
      SpawnRead(data, init.1, last.0);
      assert (init.0 + [last.0])[..n - 1] == init.0;
    }
  }

  ghost function FrontOf(version: U16, m: Map): Preamble {
    Preamble(version, m.width, m.height, m.numLandTiles, m.name, m.spawns, TableEnd(m))
  }

  lemma CountRead(data: Bytes, off: nat, n: nat)
    ensures ReadU16(data, off).Ok? && ReadU16(data, off).value.0 == n <==> NumberAt(data, off, 2, n)
  {
    hide ReadU16, NumberAt;
    if n < 0x1_0000 {
      U16At(data, off, n);
    } else {
      WideNumber(data, off, n);
    }
    if ReadU16(data, off).Ok? {
      U16At(data, off, ReadU16(data, off).value.0);
    }
  }

  lemma FrontRead(data: Bytes, version: U16, m: Map)
    ensures ReadPreamble(data) == Ok(FrontOf(version, m)) <==> FieldsAt(data, version, m)
  {
    hide ReadU16, ReadU32, ReadString, ReadSpawns, NumberAt, TextAt, SpawnsAt, SpawnsSize;
    U16At(data, 4, version);
    U32At(data, 8, m.width);
    U32At(data, 12, m.height);
    U32At(data, 16, m.numLandTiles);
    StringAt(data, 20, m.name);
    CountRead(data, 22 + |m.name|, |m.spawns|);
    TableRead(data, 24 + |m.name|, m.spawns);
    if ReadPreamble(data) == Ok(FrontOf(version, m)) {
      FrontParts(data, version, m);
    }
    if ReadU16(data, 22 + |m.name|).Ok? {
      U16At(data, 22 + |m.name|, ReadU16(data, 22 + |m.name|).value.0);
    }
  }

  // The readings a preamble is made of.
  lemma FrontParts(data: Bytes, version: U16, m: Map)
    requires ReadPreamble(data) == Ok(FrontOf(version, m))
    ensures ReadU16(data, 4) == Ok((version, 6)) && ReadU32(data, 8) == Ok((m.width, 12))
    ensures ReadU32(data, 12) == Ok((m.height, 16)) && ReadU32(data, 16) == Ok((m.numLandTiles, 20))
    ensures ReadString(data, 20) == Ok((m.name, 22 + |m.name|))
    ensures ReadU16(data, 22 + |m.name|) == Ok((|m.spawns|, 24 + |m.name|))
    ensures ReadSpawns(data, 24 + |m.name|, |m.spawns|) == Ok((m.spawns, TableEnd(m)))
  {
    hide ReadU16, ReadU32, ReadString, ReadSpawns, NumberAt, TextAt, SpawnsSize;
    U16At(data, 4, version);
    U32At(data, 8, m.width);
    U32At(data, 12, m.height);
    U32At(data, 16, m.numLandTiles);
    StringAt(data, 20, m.name);
    var count := ReadU16(data, 22 + |m.name|).value;
    U16At(data, 22 + |m.name|, count.0);
    TableSize(data, 24 + |m.name|, count.0);
  }

  lemma FrontEnds(data: Bytes)
    ensures var r := ReadPreamble(data);
            r.Ok? ==> r.value.end == 24 + |r.value.name| + SpawnsSize(r.value.spawns)
  {
    hide ReadU16, ReadU32, ReadString, ReadSpawns, NumberAt, TextAt, SpawnsSize;
    if ReadPreamble(data).Ok? {
      var p := ReadPreamble(data).value;
      U16At(data, 4, p.version);
      U32At(data, 8, p.width);
      U32At(data, 12, p.height);
      U32At(data, 16, p.numLandTiles);
      StringAt(data, 20, p.name);
      var count := ReadU16(data, 22 + |p.name|).value;
      U16At(data, 22 + |p.name|, count.0);
      TableSize(data, 24 + |p.name|, count.0);
    }
  }

  /** A file parses to a map exactly if it holds the map in one of the two layouts. */
  lemma ParseIs(data: Bytes, m: Map)
    ensures MapOf(data) == Ok(m) <==> CurrentLayout(data, m) || InlineLayout(data, m)
  {
    hide ReadU16, ReadPreamble, ReadGeoRecord, NumberAt, TextAt, SpawnsAt, SpawnsSize, BoundsAt;
    FrontRead(data, 1, m);
    FrontRead(data, 2, m);
    FrontEnds(data);
    SameVersion(data);
    GeoRead(data, TableEnd(m) + |m.terrain|, m.geo);
    GeoRead(data, TableEnd(m), m.geo);
  }

  /** The record behind the place of the terrain, whether the terrain is there or not, or in front of it. */
  ghost predicate HeaderLayout(data: Bytes, version: U16, m: Map) {
    var tail := TableEnd(m) + Area(m.width, m.height);
    && FrontAt(data, version, m)
    && if version == 2 then GeoAt(data, TableEnd(m), m.geo)
       else version == 1 && if |data| > tail then GeoAt(data, tail, m.geo) else m.geo == None
  }

  /** The header of such a file, for which the terrain need not be there; it ends where the terrain starts. */
  lemma HeaderIs(data: Bytes, version: U16, m: Map)
    requires HeaderLayout(data, version, m)
    ensures var end := TableEnd(m) + if version == 2 then GeoSize(m.geo) else 0;
            HeaderOf(data) == Ok(MapHeader(m.name, m.width, m.height, m.numLandTiles, |m.spawns|, m.geo, end))
  {
    hide ReadU16, ReadPreamble, ReadGeoRecord, NumberAt, TextAt, SpawnsAt, SpawnsSize, BoundsAt;
    FrontRead(data, version, m);
    SameVersion(data);
    LongFront(data, version, m);
    GeoRead(data, TableEnd(m) + Area(m.width, m.height), m.geo);
    GeoRead(data, TableEnd(m), m.geo);
  }

  lemma LongFront(data: Bytes, version: U16, m: Map)
    requires FieldsAt(data, version, m)
    ensures |data| >= 20
  {
    hide LittleEndian, SpawnsAt;
  }

  /** The encoder writes the current layout, two zero bytes at offset 6, and nothing else. */
  lemma EncodedIs(m: Map)
    requires Fits(m)
    ensures CurrentLayout(Encoded(m), m) && Encoded(m)[6..8] == [0, 0]
    ensures |Encoded(m)| == TableEnd(m) + |m.terrain| + if m.geo.None? then 0 else 17
  {
    hide MapOf, CurrentLayout, InlineLayout, Fits, PreambleBytes, GeoRecord;
    var data := Encoded(m);
    RoundTrip(m);
    ParseIs(data, m);
    EncodedStart(m);
    FirstVersion(data, m);
    FrontEndsAt(m);
  }

  lemma EncodedStart(m: Map)
    ensures |Encoded(m)| >= 8 && Encoded(m)[6..8] == [0, 0] && NumberAt(Encoded(m), 4, 2, 1)
  {
    hide U32Bytes, StringBytes, SpawnsBytes, TrailingRecord, ReadU16;
    var rest := U32Bytes(m.width) + U32Bytes(m.height) + U32Bytes(m.numLandTiles) + StringBytes(m.name)
                + U16Bytes(|m.spawns| % 0x1_0000) + SpawnsBytes(m.spawns) + m.terrain + TrailingRecord(m.geo);
    assert Encoded(m) == [0x53, 0x4F, 0x57, 0x4D, 1, 0, 0, 0] + rest;
    assert Encoded(m)[4..6] == [1, 0];
    assert LittleEndian([1, 0]) == 1 by {
      assert [1, 0][1..] == [0] && [0][1..] == [];
    }
  }

  lemma FirstVersion(data: Bytes, m: Map)
    requires NumberAt(data, 4, 2, 1)
    ensures !InlineLayout(data, m)
  {
    hide GeoAt, TextAt, SpawnsAt, LittleEndian;
  }

  lemma FrontEndsAt(m: Map)
    requires Fits(m)
    ensures |PreambleBytes(MAP_VERSION, m)| == TableEnd(m)
  {
    hide U32Bytes, SpawnsBytes, SpawnsSize, SpawnFits;
    TableBytes(m.spawns);
  }

  lemma {:induction false} TableBytes(spawns: seq<MapSpawn>)
    ensures |SpawnsBytes(spawns)| == SpawnsSize(spawns)
  {
    if spawns != [] {
      TableBytes(spawns[..|spawns| - 1]);
    }
  }

  /** The two rejections in front of the fields, by the bytes that cause them. */
  lemma Rejected(data: Bytes, v: U16)
    ensures MapOf(data) == Err(BadMagic) <==> |data| >= 20 && data[..4] != [0x53, 0x4F, 0x57, 0x4D]
    ensures MapOf(data) == Err(UnsupportedVersion(v)) <==>
              |data| >= 20 && data[..4] == [0x53, 0x4F, 0x57, 0x4D] && NumberAt(data, 4, 2, v) && v != 1 && v != 2
  {
    hide NumberAt, ReadPreamble, ReadGeoRecord;
    U16At(data, 4, v);
    FrontErrors(data);
    GeoErrors(data);
  }

  /** What a field can fail with. */
  ghost predicate FieldError(e: MapFileError) {
    e == TooShort || e == InvalidUtf8
  }

  lemma GeoErrors(data: Bytes)
    ensures forall off: nat :: var r := ReadGeoRecord(data, off); r.Err? ==> r.error == TooShort || r.error.BadGeoTag?
  {
    hide U32Of;
  }

  lemma SpawnErrors(data: Bytes, off: nat)
    ensures ReadSpawn(data, off).Err? ==> FieldError(ReadSpawn(data, off).error)
  {
    hide U32Of, U16Of, ValidUtf8;
  }

  lemma {:induction false} TableErrors(data: Bytes, off: nat, n: nat)
    ensures ReadSpawns(data, off, n).Err? ==> FieldError(ReadSpawns(data, off, n).error)
  {
    hide ReadSpawn, FieldError;
    if n > 0 {
      TableErrors(data, off, n - 1);
      if ReadSpawns(data, off, n - 1).Ok? {
        SpawnErrors(data, ReadSpawns(data, off, n - 1).value.1);
      }
    }
  }

  lemma FrontErrors(data: Bytes)
    ensures ReadPreamble(data).Err? ==> FieldError(ReadPreamble(data).error)
  {
    hide U32Of, U16Of, ValidUtf8, ReadSpawns;
    if ReadU16(data, 4).Ok? && ReadU32(data, 8).Ok? && ReadU32(data, 12).Ok? && ReadU32(data, 16).Ok? {
      if ReadString(data, 20).Ok? {
        var name := ReadString(data, 20).value;
        if ReadU16(data, name.1).Ok? {
          TableErrors(data, name.1 + 2, ReadU16(data, name.1).value.0);
        }
      }
    }
  }

  // ---- The catalog ----

  ghost function EntrySize(e: Entry, version: nat): nat {
    12 + |e.key| + |e.name| + if version >= 2 then 8 else 0
  }

  /** Version 2 holds two numbers more; older entries stand for 0 land tiles and one ticket. */
  ghost predicate EntryAt(data: Bytes, off: nat, version: nat, e: Entry) {
    var fields := off + 4 + |e.key| + |e.name|;
    && TextAt(data, off, e.key) && TextAt(data, off + 2 + |e.key|, e.name)
    && NumberAt(data, fields, 4, e.width) && NumberAt(data, fields + 4, 4, e.height)
    && if version >= 2 then NumberAt(data, fields + 8, 4, e.numLandTiles) && NumberAt(data, fields + 12, 4, e.frequency)
       else e.numLandTiles == 0 && e.frequency == 1
  }

  ghost function EntriesSize(entries: seq<Entry>, version: nat): nat {
    if entries == [] then 0 else
      EntriesSize(entries[..|entries| - 1], version) + EntrySize(entries[|entries| - 1], version)
  }

  ghost predicate EntriesAt(data: Bytes, off: nat, version: nat, entries: seq<Entry>) {
    forall k :: 0 <= k < |entries| ==> EntryAt(data, off + EntriesSize(entries[..k], version), version, entries[k])
  }

  /** "SOWC", a version of at most 2, the number of entries at offset 8, and the entries. */
  ghost predicate CatalogLayout(data: Bytes, version: nat, entries: seq<Entry>) {
    && |data| >= 4 && data[..4] == [0x53, 0x4F, 0x57, 0x43]
    && version <= 2 && NumberAt(data, 4, 2, version)
    && NumberAt(data, 8, 4, |entries|)
    && EntriesAt(data, 12, version, entries)
  }

  lemma EntryRead(data: Bytes, off: nat, version: U16, e: Entry)
    ensures ReadEntry(data, off, version) == Ok((e, off + EntrySize(e, version))) <==> EntryAt(data, off, version, e)
    ensures var r := ReadEntry(data, off, version); r.Ok? ==> r.value.1 == off + EntrySize(r.value.0, version)
  {
    hide ReadString, ReadU32, TextAt, NumberAt;
    EntryFields(data, off, e);
    var r := ReadEntry(data, off, version);
    if r.Ok? {
      EntryFields(data, off, r.value.0);
    }
  }

  lemma EntryFields(data: Bytes, off: nat, e: Entry)
    ensures var fields := off + 4 + |e.key| + |e.name|;
            && (ReadString(data, off) == Ok((e.key, off + 2 + |e.key|)) <==> TextAt(data, off, e.key))
            && (ReadString(data, off + 2 + |e.key|) == Ok((e.name, fields)) <==>
                  TextAt(data, off + 2 + |e.key|, e.name))
            && (ReadU32(data, fields) == Ok((e.width, fields + 4)) <==> NumberAt(data, fields, 4, e.width))
            && (ReadU32(data, fields + 4) == Ok((e.height, fields + 8)) <==> NumberAt(data, fields + 4, 4, e.height))
            && (ReadU32(data, fields + 8) == Ok((e.numLandTiles, fields + 12)) <==>
                  NumberAt(data, fields + 8, 4, e.numLandTiles))
            && (ReadU32(data, fields + 12) == Ok((e.frequency, fields + 16)) <==>
                  NumberAt(data, fields + 12, 4, e.frequency))
    ensures forall o: nat :: ReadString(data, o).Ok? ==>
              ReadString(data, o).value.1 == o + 2 + |ReadString(data, o).value.0|
    ensures forall o: nat :: ReadU32(data, o).Ok? ==> ReadU32(data, o).value.1 == o + 4
  {
    hide ReadString, ReadU32, TextAt, NumberAt;
    var fields := off + 4 + |e.key| + |e.name|;
    StringAt(data, off, e.key);
    StringAt(data, off + 2 + |e.key|, e.name);
    U32At(data, fields, e.width);
    U32At(data, fields + 4, e.height);
    U32At(data, fields + 8, e.numLandTiles);
    U32At(data, fields + 12, e.frequency);
    forall o: nat ensures ReadString(data, o).Ok? ==>
                            ReadString(data, o).value.1 == o + 2 + |ReadString(data, o).value.0|
    {
      StringAt(data, o, []);
    }
    forall o: nat ensures ReadU32(data, o).Ok? ==> ReadU32(data, o).value.1 == o + 4 {
      U32At(data, o, 0);
    }
  }

  lemma EntriesAtInit(data: Bytes, off: nat, version: nat, entries: seq<Entry>)
    requires entries != []
    ensures var init, last := entries[..|entries| - 1], entries[|entries| - 1];
            EntriesAt(data, off, version, entries) <==>
              EntriesAt(data, off, version, init) && EntryAt(data, off + EntriesSize(init, version), version, last)
  {
    hide EntryAt, EntriesSize;
    var init := entries[..|entries| - 1];
    assert forall k :: 0 <= k < |init| ==> entries[..k] == init[..k];
  }

  lemma {:induction false} EntriesRead(data: Bytes, off: nat, version: U16, entries: seq<Entry>)
    ensures ReadEntries(data, off, version, |entries|) == Ok((entries, off + EntriesSize(entries, version))) <==>
              EntriesAt(data, off, version, entries)
  {
    hide ReadEntry, EntryAt, EntrySize, EntriesAt;
    if entries == [] {
      NoEntries(data, off, version);
    } else {
      var init, last := entries[..|entries| - 1], entries[|entries| - 1];
      EntriesAtInit(data, off, version, entries);
      EntriesRead(data, off, version, init);
      EntryRead(data, off + EntriesSize(init, version), version, last);
      if ReadEntries(data, off, version, |entries|).Ok? {
        EntriesEnd(data, off, version, |init|);
        assert entries == init + [last];
      }
    }
  }

  lemma NoEntries(data: Bytes, off: nat, version: nat)
    ensures EntriesAt(data, off, version, [])
  {
  }

  lemma {:induction false} EntriesEnd(data: Bytes, off: nat, version: U16, n: nat)
    ensures var r := ReadEntries(data, off, version, n);
            r.Ok? ==> |r.value.0| == n && r.value.1 == off + EntriesSize(r.value.0, version)
  {
    hide ReadEntry, EntrySize;
    if n > 0 && ReadEntries(data, off, version, n).Ok? {
      EntriesEnd(data, off, version, n - 1);
      var init := ReadEntries(data, off, version, n - 1).value;
      var last := ReadEntry(data, init.1, version).value;
      EntryRead(data, init.1, version, last.0);
      assert (init.0 + [last.0])[..n - 1] == init.0;
    }
  }

  lemma LongCatalog(data: Bytes, version: nat, entries: seq<Entry>)
    requires CatalogLayout(data, version, entries)
    ensures |data| >= 12 && version < 0x1_0000 && |entries| < 0x1_0000_0000
  {
    hide EntriesAt;
    Widest(data[8..12]);
  }

  lemma Widest(b: Bytes)
    requires |b| == 4
    ensures LittleEndian(b) < 0x1_0000_0000
  {
    hide LittleEndian;
    U32Is(b);
  }

  /** A catalog parses to exactly the entries it holds. */
  lemma CatalogIs(data: Bytes, entries: seq<Entry>)
    ensures CatalogOf(data) == Ok(entries) <==> exists version: nat :: CatalogLayout(data, version, entries)
  {
    hide ReadU16, ReadU32, ReadEntries, NumberAt, EntriesAt, EntriesSize;
    if CatalogOf(data) == Ok(entries) {
      var version := ReadU16(data, 4).value.0;
      U16At(data, 4, version);
      var count := ReadU32(data, 8).value.0;
      U32At(data, 8, count);
      EntriesEnd(data, 12, version, count);
      EntriesRead(data, 12, version, entries);
      assert CatalogLayout(data, version, entries);
    }
    if version: nat :| CatalogLayout(data, version, entries) {
      LongCatalog(data, version, entries);
      U16At(data, 4, version);
      U32At(data, 8, |entries|);
      EntriesRead(data, 12, version, entries);
    }
  }
}
