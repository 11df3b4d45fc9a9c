/**
The map catalog of sow-core/src/map_file.rs. Version 2 added two fields to each
entry; older catalogs are still read, with defaults in their place.
*/
module MapCatalog {
  import opened Wrappers
  import opened MapFile

  datatype Entry = Entry(key: Text, name: Text, width: U32, height: U32, numLandTiles: U32, frequency: U32)

  // ---- Reading ----

  /** The two fields of version 2, or their defaults. */
  function ReadExtra(data: Bytes, off: nat, version: U16): Read<(U32, U32)> {
    if version >= 2 then
      var numLandTiles :- ReadU32(data, off);
      var frequency :- ReadU32(data, numLandTiles.1);
      Ok(((numLandTiles.0, frequency.0), frequency.1))
    else Ok(((0, 1), off))
  }

  function ReadEntry(data: Bytes, off: nat, version: U16): Read<Entry> {
    var key :- ReadString(data, off);
    var name :- ReadString(data, key.1);
    var width :- ReadU32(data, name.1);
    var height :- ReadU32(data, width.1);
    var extra :- ReadExtra(data, height.1, version);
    Ok((Entry(key.0, name.0, width.0, height.0, extra.0.0, extra.0.1), extra.1))
  }

  function ReadEntries(data: Bytes, off: nat, version: U16, n: nat): Read<seq<Entry>> {
    if n == 0 then Ok(([], off)) else
      var init :- ReadEntries(data, off, version, n - 1);
      var last :- ReadEntry(data, init.1, version);
      Ok((init.0 + [last.0], last.1))
  }

  /** The catalog a file stands for; bytes behind the last entry are ignored. */
  function CatalogOf(data: Bytes): Result<seq<Entry>, MapFileError> {
    if |data| < 12 then Err(TooShort)
    else if data[..4] != CATALOG_MAGIC then Err(BadMagic)
    else
      var version :- ReadU16(data, 4);
      if version.0 > CATALOG_VERSION then Err(UnsupportedVersion(version.0))
      else
        var count :- ReadU32(data, version.1 + 2);
        var entries :- ReadEntries(data, count.1, version.0, count.0);
        Ok(entries.0)
  }

  // ---- Writing ----

  function ExtraBytes(e: Entry, version: U16): Bytes {
    if version >= 2 then U32Bytes(e.numLandTiles) + U32Bytes(e.frequency) else []
  }

  function EntryBytes(e: Entry, version: U16): Bytes {
    StringBytes(e.key) + StringBytes(e.name) + U32Bytes(e.width) + U32Bytes(e.height) + ExtraBytes(e, version)
  }

  function EntriesBytes(entries: seq<Entry>, version: U16): Bytes {
    if entries == [] then [] else
      EntriesBytes(entries[..|entries| - 1], version) + EntryBytes(entries[|entries| - 1], version)
  }

  function CatalogOpening(version: U16, n: nat): Bytes {
    CATALOG_MAGIC + U16Bytes(version) + U16Bytes(0) + U32Bytes(n % 0x1_0000_0000)
  }

  /** The layout of the given version; the program writes the current one. */
  function CatalogBytes(entries: seq<Entry>, version: U16): Bytes {
    CatalogOpening(version, |entries|) + EntriesBytes(entries, version)
  }

  predicate EntryFits(e: Entry) {
    |e.key| < 0x1_0000 && |e.name| < 0x1_0000
  }

  predicate CatalogFits(entries: seq<Entry>) {
    |entries| < 0x1_0000_0000 && forall k :: 0 <= k < |entries| ==> EntryFits(entries[k])
  }

  /** What a catalog of the given version preserves of an entry. */
  function Kept(e: Entry, version: U16): Entry {
    if version >= 2 then e else e.(numLandTiles := 0, frequency := 1)
  }

  function AllKept(entries: seq<Entry>, version: U16): (r: seq<Entry>)
    ensures |r| == |entries| && forall k :: 0 <= k < |r| ==> r[k] == Kept(entries[k], version)
  {
    seq(|entries|, k requires 0 <= k < |entries| => Kept(entries[k], version))
  }

  // ---- Reading back ----

  lemma ExtraFaithful(data: Bytes, off: nat, e: Entry, version: U16)
    requires version >= 2
    ensures Faithful(ReadExtra(data, off, version), data, off, ExtraBytes(e, version), (e.numLandTiles, e.frequency))
  {
    hide Holds, Cut, U32Bytes, ReadU32;
    Split(data, off, U32Bytes(e.numLandTiles), U32Bytes(e.frequency));
    U32Faithful(data, off, e.numLandTiles);
    U32Faithful(data, off + 4, e.frequency);
  }

  lemma EntryFaithful(data: Bytes, off: nat, e: Entry, version: U16)
    requires EntryFits(e)
    ensures Faithful(ReadEntry(data, off, version), data, off, EntryBytes(e, version), Kept(e, version))
  {
    hide Holds, Cut, U32Bytes, ReadU32, StringBytes, ReadString, ExtraBytes, ReadExtra;
    var a, b, x, y := StringBytes(e.key), StringBytes(e.name), U32Bytes(e.width), U32Bytes(e.height);
    Split(data, off, a + b + x + y, ExtraBytes(e, version));
    Split(data, off, a + b + x, y);
    Split(data, off, a + b, x);
    Split(data, off, a, b);
    StringFaithful(data, off, e.key);
    StringFaithful(data, off + |a|, e.name);
    U32Faithful(data, off + |a| + |b|, e.width);
    U32Faithful(data, off + |a| + |b| + 4, e.height);
    ExtraRead(data, off + |a| + |b| + 8, e, version);
  }

  lemma ExtraRead(data: Bytes, off: nat, e: Entry, version: U16)
    ensures var k := Kept(e, version);
            Faithful(ReadExtra(data, off, version), data, off, ExtraBytes(e, version), (k.numLandTiles, k.frequency))
  {
    if version >= 2 {
      hide ReadU32, U32Bytes;
      ExtraFaithful(data, off, e, version);
    }
  }

  lemma KeptInit(entries: seq<Entry>, version: U16)
    ensures if entries == [] then AllKept(entries, version) == [] else
              AllKept(entries, version) ==
                AllKept(entries[..|entries| - 1], version) + [Kept(entries[|entries| - 1], version)]
  {
    hide Kept;
  }

  lemma Nothing(data: Bytes, off: nat)
    ensures Holds(data, off, []) ==> off <= |data|
    ensures !Cut(data, off, [])
  {
  }

  lemma {:induction false} EntriesFaithful(data: Bytes, off: nat, entries: seq<Entry>, version: U16)
    requires forall k :: 0 <= k < |entries| ==> EntryFits(entries[k])
    ensures Faithful(ReadEntries(data, off, version, |entries|), data, off, EntriesBytes(entries, version),
                     AllKept(entries, version))
  {
    hide ReadEntry, EntryBytes, Kept, AllKept, EntryFits, Holds, Cut;
    KeptInit(entries, version);
    if entries == [] {
      Nothing(data, off);
    } else {
      var init, last := entries[..|entries| - 1], entries[|entries| - 1];
      Split(data, off, EntriesBytes(init, version), EntryBytes(last, version));
      EntriesFaithful(data, off, init, version);
      EntryFaithful(data, off + |EntriesBytes(init, version)|, last, version);
    }
  }

  lemma CatalogOpeningRead(data: Bytes, version: U16, n: nat)
    requires n < 0x1_0000_0000
    ensures |CatalogOpening(version, n)| == 12
    ensures Holds(data, 0, CatalogOpening(version, n)) ==>
              && |data| >= 12 && data[..4] == CATALOG_MAGIC
              && ReadU16(data, 4) == Ok((version, 6)) && ReadU32(data, 8) == Ok((n, 12))
    ensures Cut(data, 0, CatalogOpening(version, n)) ==> |data| < 12
  {
    hide ReadU16, U16Bytes, ReadU32, U32Bytes;
    Split(data, 0, CATALOG_MAGIC + U16Bytes(version) + U16Bytes(0), U32Bytes(n));
    Split(data, 0, CATALOG_MAGIC + U16Bytes(version), U16Bytes(0));
    Split(data, 0, CATALOG_MAGIC, U16Bytes(version));
    U16Faithful(data, 4, version);
    U32Faithful(data, 8, n);
  }

  // A file that starts with, or is cut off inside, the bytes of a catalog.
  lemma CatalogRead(data: Bytes, entries: seq<Entry>, version: U16)
    requires CatalogFits(entries) && version <= CATALOG_VERSION
    ensures Holds(data, 0, CatalogBytes(entries, version)) ==> CatalogOf(data) == Ok(AllKept(entries, version))
    ensures Cut(data, 0, CatalogBytes(entries, version)) ==> CatalogOf(data) == Err(TooShort)
  {
    hide Holds, Cut, CatalogOpening, ReadU16, ReadU32, EntriesBytes, ReadEntries, EntryFits;
    CatalogOpeningRead(data, version, |entries|);
    Split(data, 0, CatalogOpening(version, |entries|), EntriesBytes(entries, version));
    EntriesFaithful(data, 12, entries, version);
    CutSize(data, CatalogOpening(version, |entries|));
  }

  lemma CutSize(data: Bytes, bytes: Bytes)
    ensures Cut(data, 0, bytes) ==> |data| < |bytes|
  {
  }

  lemma {:induction false} EntriesReadFit(data: Bytes, off: nat, version: U16, n: nat)
    ensures var r := ReadEntries(data, off, version, n);
            r.Ok? ==> |r.value.0| == n && forall k :: 0 <= k < n ==> EntryFits(r.value.0[k])
  {
    hide ReadEntry, EntryFits;
    if n > 0 {
      EntriesReadFit(data, off, version, n - 1);
      if ReadEntries(data, off, version, n).Ok? {
        EntryReadFits(data, ReadEntries(data, off, version, n - 1).value.1, version);
      }
    }
  }

  lemma EntryReadFits(data: Bytes, off: nat, version: U16)
    ensures var r := ReadEntry(data, off, version); r.Ok? ==> EntryFits(r.value.0)
  {
    hide ReadU16, ReadU32, ValidUtf8, ReadExtra;
  }

  lemma ParsedCatalogFits(data: Bytes)
    ensures CatalogOf(data).Ok? ==> CatalogFits(CatalogOf(data).value)
  {
    hide ReadU16, ReadU32, ReadEntries, EntryFits;
    if CatalogOf(data).Ok? {
      var version := ReadU16(data, 4).value;
      var count := ReadU32(data, version.1 + 2).value;
      EntriesReadFit(data, count.1, version.0, count.0);
    }
  }

  /** Encoding and parsing is the identity on exactly the catalogs that fit the format. */
  lemma CatalogRoundTrip(entries: seq<Entry>)
    ensures CatalogOf(CatalogBytes(entries, CATALOG_VERSION)) == Ok(entries) <==> CatalogFits(entries)
  {
    hide CatalogOf, CatalogBytes, CatalogFits;
    var data := CatalogBytes(entries, CATALOG_VERSION);
    ParsedCatalogFits(data);
    if CatalogFits(entries) {
      CatalogRead(data, entries, CATALOG_VERSION);
      HoldsWhole(data, []);
      assert data + [] == data;
      assert AllKept(entries, CATALOG_VERSION) == entries;
    }
  }

  /** Older catalogs parse to the same entries with the new fields at 0 and 1. */
  lemma OldCatalogRead(entries: seq<Entry>, version: U16)
    requires CatalogFits(entries) && version < 2
    ensures var r := CatalogOf(CatalogBytes(entries, version));
            && r.Ok? && |r.value| == |entries|
            && forall k :: 0 <= k < |entries| ==> r.value[k] == entries[k].(numLandTiles := 0, frequency := 1)
  {
    hide CatalogOf, CatalogBytes, CatalogFits;
    var data := CatalogBytes(entries, version);
    CatalogRead(data, entries, version);
    HoldsWhole(data, []);
    assert data + [] == data;
  }

  /** Bytes behind the last entry change nothing. */
  lemma TrailingBytesIgnored(entries: seq<Entry>, rest: Bytes)
    requires CatalogFits(entries)
    ensures CatalogOf(CatalogBytes(entries, CATALOG_VERSION) + rest) == Ok(entries)
  {
    hide CatalogOf, CatalogBytes, CatalogFits;
    var data := CatalogBytes(entries, CATALOG_VERSION);
    CatalogRead(data + rest, entries, CATALOG_VERSION);
    HoldsWhole(data, rest);
    assert AllKept(entries, CATALOG_VERSION) == entries;
  }

  lemma HoldsWhole(bytes: Bytes, rest: Bytes)
    ensures Holds(bytes + rest, 0, bytes)
  {
    assert (bytes + rest)[0..|bytes|] == bytes;
  }

  /** Every strict prefix of a catalog is rejected. */
  lemma CutCatalogRejected(entries: seq<Entry>, version: U16, k: nat)
    requires CatalogFits(entries) && version <= CATALOG_VERSION && k < |CatalogBytes(entries, version)|
    ensures CatalogOf(CatalogBytes(entries, version)[..k]) == Err(TooShort)
  {
    hide CatalogOf, CatalogBytes, CatalogFits;
    var data := CatalogBytes(entries, version);
    CatalogRead(data[..k], entries, version);
    assert data[..k][0..] == data[..k];
  }

  // ---- The code that does it ----

  lemma {:induction false} EntriesStayFailed(data: Bytes, off: nat, version: U16, k: nat, n: nat)
    requires k <= n && ReadEntries(data, off, version, k).Err?
    ensures ReadEntries(data, off, version, n) == Err(ReadEntries(data, off, version, k).error)
    decreases n
  {
    hide ReadEntry;
    if k < n {
      EntriesStayFailed(data, off, version, k, n - 1);
    }
  }

  /** `parse_catalog`. */
  method ParseCatalog(data: Bytes) returns (r: Result<seq<Entry>, MapFileError>)
    ensures r == CatalogOf(data)
  {
    hide ReadU16, ReadU32, ReadEntry;
    if |data| < 12 {
      return Err(TooShort);
    }
    if data[..4] != CATALOG_MAGIC {
      return Err(BadMagic);
    }
    var off := 4;
    var version :- ReadU16(data, off);
    off := version.1;
    if version.0 > CATALOG_VERSION {
      return Err(UnsupportedVersion(version.0));
    }
    off := off + 2;
    var count :- ReadU32(data, off);
    off := count.1;
    var entries: seq<Entry> := [];
    for k := 0 to count.0
      invariant ReadEntries(data, count.1, version.0, k) == Ok((entries, off))
    {
      var entry := ReadEntry(data, off, version.0);
      if entry.Err? {
        EntriesStayFailed(data, count.1, version.0, k + 1, count.0);
        return Err(entry.error);
      }
      entries := entries + [entry.value.0];
      off := entry.value.1;
    }
    return Ok(entries);
  }

  /** `encode_catalog`. */
  method EncodeCatalog(entries: seq<Entry>) returns (out: Bytes)
    ensures out == CatalogBytes(entries, CATALOG_VERSION)
  {
    hide U16Bytes, U32Bytes, EntryBytes;
    out := CATALOG_MAGIC;
    out := out + U16Bytes(CATALOG_VERSION);
    out := out + U16Bytes(0);
    out := out + U32Bytes(|entries| % 0x1_0000_0000);
    ghost var front := out;
    for k := 0 to |entries|
      invariant out == front + EntriesBytes(entries[..k], CATALOG_VERSION)
    {
      assert entries[..k + 1][..k] == entries[..k];
      ghost var init := EntriesBytes(entries[..k], CATALOG_VERSION);
      var last := EntryBytes(entries[k], CATALOG_VERSION);
      assert front + init + last == front + (init + last);
      out := out + EntryBytes(entries[k], CATALOG_VERSION);
    }
    assert entries[..|entries|] == entries;
  }
}
