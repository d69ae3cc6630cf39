/** Locating the embedding licence bits of an embedded font. */
module Sfnt {
  import opened Prelude

  type Byte = x: int | 0 <= x < 256

  type Bytes = seq<Byte>

  function U16(b: Bytes, at: nat): (v: int)
    requires at + 2 <= |b|
    ensures 0 <= v < 0x1_0000
  {
    (b[at] as int) * 0x100 + (b[at + 1] as int)
  }

  function U32(b: Bytes, at: nat): (v: int)
    requires at + 4 <= |b|
    ensures 0 <= v < 0x1_0000_0000
  {
    (b[at] as int) * 0x100_0000 + (b[at + 1] as int) * 0x1_0000 + (b[at + 2] as int) * 0x100 + (b[at + 3] as int)
  }

  const OS2: Bytes := [0x4F, 0x53, 0x2F, 0x32]
  const TRUETYPE: Bytes := [0, 1, 0, 0]
  const OTTO: Bytes := [0x4F, 0x54, 0x54, 0x4F]
  const APPLE_TRUE: Bytes := [0x74, 0x72, 0x75, 0x65]
  const TYP1: Bytes := [0x74, 0x79, 0x70, 0x31]

  const HEADER := 12
  const RECORD := 16

  predicate KnownVersion(v: Bytes) {
    v == TRUETYPE || v == OTTO || v == APPLE_TRUE || v == TYP1
  }

  // ---- Flags ----------------------------------------------------------------------------

  function Pow2(n: nat): (p: nat)
    ensures p > 0
  {
    if n == 0 then 1 else 2 * Pow2(n - 1)
  }

  predicate Bit(v: nat, n: nat) {
    v / Pow2(n) % 2 == 1
  }

  const LABELS: seq<(nat, string)> := [
    (1, "restricted_license_embedding"), (2, "preview_and_print_embedding"), (3, "editable_embedding"),
    (8, "no_subsetting"), (9, "bitmap_only")]

  /** The labels of the set bits among the first n, in the order of the table. */
  function LabelsOf(v: nat, n: nat): seq<string>
    requires n <= |LABELS|
  {
    if n == 0 then []
    else LabelsOf(v, n - 1) + (if Bit(v, LABELS[n - 1].0) then [LABELS[n - 1].1] else [])
  }

  /** Each is the label of a set bit, the bits come in table order, and so none is listed twice. */
  lemma {:induction false} LabelsInOrder(v: nat, n: nat)
    requires n <= |LABELS|
    ensures forall k :: 0 <= k < n ==> (LABELS[k].1 in LabelsOf(v, n) <==> Bit(v, LABELS[k].0))
    ensures forall f :: f in LabelsOf(v, n) ==> exists k :: 0 <= k < n && f == LABELS[k].1
    ensures forall i, j :: 0 <= i < j < |LabelsOf(v, n)| ==> LabelsOf(v, n)[i] != LabelsOf(v, n)[j]
  {
    hide Bit;
    LabelsDiffer();
    if n > 0 {
      LabelsInOrder(v, n - 1);
      var earlier := LabelsOf(v, n - 1);
      forall i | 0 <= i < |earlier| ensures earlier[i] != LABELS[n - 1].1 {
        assert earlier[i] in earlier;
        var k :| 0 <= k < n - 1 && earlier[i] == LABELS[k].1;
      }
    }
  }

  method FormatFlags(v: nat) returns (flags: seq<string>)
    ensures flags == LabelsOf(v, |LABELS|)
    ensures forall k :: 0 <= k < |LABELS| ==> (LABELS[k].1 in flags <==> Bit(v, LABELS[k].0))
    ensures forall f :: f in flags ==> exists k :: 0 <= k < |LABELS| && f == LABELS[k].1
    ensures flags == [] <==> forall k :: 0 <= k < |LABELS| ==> !Bit(v, LABELS[k].0)
  {
    LabelsInOrder(v, |LABELS|);
    flags := [];
    if v == 0 {
      forall n: nat ensures !Bit(0, n) {
        NoBitOfZero(n);
      }
      NoLabelsOfZero(|LABELS|);
      return;
    }
    for i := 0 to |LABELS|
      invariant flags == LabelsOf(v, i)
    {
      if Bit(v, LABELS[i].0) {
        flags := flags + [LABELS[i].1];
      }
    }
    if flags != [] {
      assert flags[0] in flags;
    }
  }

  lemma {:induction false} NoLabelsOfZero(n: nat)
    requires n <= |LABELS|
    ensures LabelsOf(0, n) == []
  {
    if n > 0 {
      NoLabelsOfZero(n - 1);
      NoBitOfZero(LABELS[n - 1].0);
    }
  }

  lemma NoBitOfZero(n: nat)
    ensures !Bit(0, n)
  {
  }

  lemma LabelsDiffer()
    ensures forall j, k :: 0 <= j < k < |LABELS| ==> LABELS[j].1 != LABELS[k].1
  {
    assert LABELS[0].1[0] == 'r' && LABELS[1].1[0] == 'p' && LABELS[2].1[0] == 'e';
    assert LABELS[3].1[0] == 'n' && LABELS[4].1[0] == 'b';
  }

  // ---- Parsing --------------------------------------------------------------------------

  datatype FsTypeInfo = FsTypeInfo(
    value: nat, flags: seq<string>, restricted: bool, noSubsetting: bool, bitmapOnly: bool)

  /** The header and the whole table directory are there. */
  predicate HasDirectory(b: Bytes) {
    |b| >= HEADER && KnownVersion(b[..4]) && |b| >= HEADER + U16(b, 4) * RECORD
  }

  function TagAt(b: Bytes, i: nat): Bytes
    requires HEADER + (i + 1) * RECORD <= |b|
  {
    b[HEADER + i * RECORD..HEADER + i * RECORD + 4]
  }

  function OffsetAt(b: Bytes, i: nat): int
    requires HEADER + (i + 1) * RECORD <= |b|
  {
    U32(b, HEADER + i * RECORD + 8)
  }

  /** Record i is the first one for the OS/2 table. */
  ghost predicate FirstOs2(b: Bytes, i: nat)
    requires HasDirectory(b)
  {
    i < U16(b, 4) && TagAt(b, i) == OS2 && forall j: nat :: j < i ==> TagAt(b, j) != OS2
  }

  /** The fsType the file declares: the 16-bit value at offset 8 of its first OS/2 table. */
  ghost predicate Declares(b: Bytes, v: nat) {
    HasDirectory(b) && exists i: nat :: FirstOs2(b, i) && OffsetAt(b, i) + 10 <= |b| && v == U16(b, OffsetAt(b, i) + 8)
  }

  /** Total on every byte string: a result exactly when a value is declared, and then that value. */
  method ParseFsType(b: Bytes) returns (r: Option<FsTypeInfo>)
    ensures r.None? ==> forall v: nat :: !Declares(b, v)
    ensures r.Some? ==> Declares(b, r.value.value)
    ensures r.Some? ==>
      var v := r.value.value;
      && (r.value.restricted <==> Bit(v, 1) || Bit(v, 2) || Bit(v, 3))
      && (r.value.noSubsetting <==> Bit(v, 8)) && (r.value.bitmapOnly <==> Bit(v, 9))
      && r.value.flags == LabelsOf(v, |LABELS|)
      && forall k :: 0 <= k < |LABELS| ==> (LABELS[k].1 in r.value.flags <==> Bit(v, LABELS[k].0))
  {
    if |b| < HEADER || !KnownVersion(b[..4]) {
      return None;
    }
    var n := U16(b, 4);
    if |b| < HEADER + n * RECORD {
      return None;
    }
    var offset: Option<nat> := None;
    var i := 0;
    while i < n
      invariant 0 <= i <= n && offset.None?
      invariant forall j: nat :: j < i ==> TagAt(b, j) != OS2
    {
      if TagAt(b, i) == OS2 {
        offset := Some(OffsetAt(b, i));
        break;
      }
      i := i + 1;
    }
    if offset.None? {
      return None;
    }
    assert FirstOs2(b, i);
    OnlyOneFirst(b, i);
    if |b| < offset.value + 10 {
      return None;
    }
    var v := U16(b, offset.value + 8);
    var flags := FormatFlags(v);
    return Some(FsTypeInfo(v, flags, Bit(v, 1) || Bit(v, 2) || Bit(v, 3), Bit(v, 8), Bit(v, 9)));
  }

  lemma OnlyOneFirst(b: Bytes, i: nat)
    requires HasDirectory(b) && FirstOs2(b, i)
    ensures forall j: nat :: FirstOs2(b, j) ==> j == i
  {
  }

  // ---- Building -------------------------------------------------------------------------

  function U16Bytes(v: int): Bytes
    requires 0 <= v < 0x1_0000
  {
    [v / 0x100, v % 0x100]
  }

  function U32Bytes(v: int): Bytes
    requires 0 <= v < 0x1_0000_0000
  {
    [v / 0x100 / 0x100 / 0x100, v / 0x100 / 0x100 % 0x100, v / 0x100 % 0x100, v % 0x100]
  }

  /** One byte taken off a number. */
  lemma SplitByte(v: int)
    requires v >= 0
    ensures v == v / 0x100 * 0x100 + v % 0x100 && 0 <= v % 0x100 < 0x100 && 0 <= v / 0x100 <= v
  {
  }

  lemma ReadBack32(v: int)
    requires 0 <= v < 0x1_0000_0000
    ensures U32(U32Bytes(v), 0) == v
  {
    SplitByte(v);
    SplitByte(v / 0x100);
    SplitByte(v / 0x100 / 0x100);
  }

  /** A table of a font: its tag, a checksum nobody checks, and where its contents stand. */
  datatype Table = Table(tag: Bytes, checksum: int, offset: nat, body: Bytes)

  predicate GoodTable(t: Table) {
    |t.tag| == 4 && 0 <= t.checksum < 0x1_0000_0000 && t.offset < 0x1_0000_0000 && |t.body| < 0x1_0000_0000
  }

  predicate GoodTables(ts: seq<Table>) {
    |ts| < 0x1_0000 && forall k :: 0 <= k < |ts| ==> GoodTable(ts[k])
  }

  function RecordOf(t: Table): (r: Bytes)
    requires GoodTable(t)
    ensures |r| == RECORD
  {
    t.tag + U32Bytes(t.checksum) + U32Bytes(t.offset) + U32Bytes(|t.body|)
  }

  function Directory(ts: seq<Table>): (d: Bytes)
    requires forall k :: 0 <= k < |ts| ==> GoodTable(ts[k])
    ensures |d| == RECORD * |ts|
  {
    if ts == [] then [] else RecordOf(ts[0]) + Directory(ts[1..])
  }

  /** A font file: version, table count, three search fields, the directory, and whatever follows it. */
  function Build(version: Bytes, search: Bytes, ts: seq<Table>, rest: Bytes): Bytes
    requires |version| == 4 && |search| == 6 && GoodTables(ts)
  {
    version + U16Bytes(|ts|) + search + Directory(ts) + rest
  }

  /** The bytes of p stand in b from a position on. */
  ghost predicate Stands(b: Bytes, at: nat, p: Bytes) {
    at + |p| <= |b| && forall k :: 0 <= k < |p| ==> b[at + k] == p[k]
  }

  /** The file is laid out as its directory says: every table's contents stand at its offset, in any order, with any
      gaps, even shared. */
  ghost predicate LaidOut(b: Bytes, ts: seq<Table>) {
    forall k :: 0 <= k < |ts| ==> Stands(b, ts[k].offset, ts[k].body)
  }

  lemma StandsWithin(b: Bytes, at: nat, p: Bytes, at': nat, q: Bytes)
    requires Stands(b, at, p) && Stands(p, at', q)
    ensures Stands(b, at + at', q)
  {
    forall k | 0 <= k < |q| ensures b[at + at' + k] == q[k] {
      assert b[at + (at' + k)] == p[at' + k];
    }
  }

  lemma StandsFirst(a: Bytes, b: Bytes)
    ensures Stands(a + b, 0, a) && Stands(a + b, |a|, b)
  {
  }

  lemma {:induction false} DirectoryRecord(ts: seq<Table>, i: nat)
    requires i < |ts| && forall k :: 0 <= k < |ts| ==> GoodTable(ts[k])
    ensures Stands(Directory(ts), RECORD * i, RecordOf(ts[i]))
  {
    hide Stands, RecordOf;
    var d := Directory(ts[1..]);
    StandsFirst(RecordOf(ts[0]), d);
    if i > 0 {
      DirectoryRecord(ts[1..], i - 1);
      StandsWithin(Directory(ts), RECORD, d, RECORD * (i - 1), RecordOf(ts[i]));
    }
  }

  lemma RecordFields(t: Table)
    requires GoodTable(t)
    ensures var r := RecordOf(t); Stands(r, 0, t.tag) && Stands(r, 8, U32Bytes(t.offset))
  {
  }

  lemma BuiltLayout(version: Bytes, search: Bytes, ts: seq<Table>, rest: Bytes)
    requires KnownVersion(version) && |search| == 6 && GoodTables(ts)
    ensures var b := Build(version, search, ts, rest);
            && HasDirectory(b) && U16(b, 4) == |ts| && |b| == HEADER + RECORD * |ts| + |rest|
            && Stands(b, HEADER, Directory(ts))
  {
    hide Stands, Directory;
    var b := Build(version, search, ts, rest);
    var head := version + U16Bytes(|ts|) + search;
    assert |head| == HEADER && b == head + Directory(ts) + rest;
    StandsFirst(head + Directory(ts), rest);
    StandsFirst(head, Directory(ts));
    StandsWithin(b, 0, head + Directory(ts), HEADER, Directory(ts));
    assert b[..4] == version;
    assert b[4] == U16Bytes(|ts|)[0] && b[5] == U16Bytes(|ts|)[1];
  }

  lemma BuiltRecord(version: Bytes, search: Bytes, ts: seq<Table>, rest: Bytes, j: nat)
    requires KnownVersion(version) && |search| == 6 && GoodTables(ts) && j < |ts|
    ensures var b := Build(version, search, ts, rest);
            |b| >= HEADER + RECORD * |ts| && TagAt(b, j) == ts[j].tag && OffsetAt(b, j) == ts[j].offset
  {
    hide Build, Stands, Directory, U32, RecordOf;
    var b := Build(version, search, ts, rest);
    BuiltLayout(version, search, ts, rest);
    DirectoryRecord(ts, j);
    StandsWithin(b, HEADER, Directory(ts), RECORD * j, RecordOf(ts[j]));
    FieldsThatStand(b, HEADER + RECORD * j, ts[j]);
  }

  lemma FieldsThatStand(b: Bytes, at: nat, t: Table)
    requires GoodTable(t) && Stands(b, at, RecordOf(t))
    ensures at + RECORD <= |b| && b[at..at + 4] == t.tag && U32(b, at + 8) == t.offset
  {
    hide Stands, RecordOf, U32, U32Bytes;
    var r := RecordOf(t);
    RecordFields(t);
    StandsWithin(b, at, r, 0, t.tag);
    StandsWithin(b, at, r, 8, U32Bytes(t.offset));
    SliceThatStands(b, at, r);
    SliceThatStands(b, at, t.tag);
    NumberThatStands(b, at + 8, t.offset);
  }

  lemma SliceThatStands(b: Bytes, at: nat, p: Bytes)
    requires Stands(b, at, p)
    ensures at + |p| <= |b| && b[at..at + |p|] == p
  {
  }

  lemma NumberThatStands(b: Bytes, at: nat, v: nat)
    requires v < 0x1_0000_0000 && Stands(b, at, U32Bytes(v))
    ensures at + 4 <= |b| && U32(b, at) == v
  {
    ReadBack32(v);
    assert forall k :: 0 <= k < 4 ==> b[at + k] == U32Bytes(v)[k];
    assert b[at + 0] == U32Bytes(v)[0] && b[at + 1] == U32Bytes(v)[1];
    assert b[at + 2] == U32Bytes(v)[2] && b[at + 3] == U32Bytes(v)[3];
  }

  /** The first OS/2 table of the directory. */
  predicate IsFirstOs2(ts: seq<Table>, i: nat) {
    i < |ts| && ts[i].tag == OS2 && forall j :: 0 <= j < i ==> ts[j].tag != OS2
  }

  /** What any file with a directory declares: nothing without an OS/2 table, and otherwise the two bytes from the
      eighth after its offset, when the file has them. */
  lemma BuiltDeclaresIff(version: Bytes, search: Bytes, ts: seq<Table>, rest: Bytes, v: nat)
    requires KnownVersion(version) && |search| == 6 && GoodTables(ts)
    ensures var b := Build(version, search, ts, rest);
            Declares(b, v) <==>
              exists i: nat :: IsFirstOs2(ts, i) && ts[i].offset + 10 <= |b| && v == U16(b, ts[i].offset + 8)
  {
    hide Build, U16, U32, TagAt, OffsetAt;
    var b := Build(version, search, ts, rest);
    BuiltLayout(version, search, ts, rest);
    forall j: nat | j < |ts| ensures TagAt(b, j) == ts[j].tag && OffsetAt(b, j) == ts[j].offset {
      BuiltRecord(version, search, ts, rest, j);
    }
    forall i: nat ensures FirstOs2(b, i) <==> IsFirstOs2(ts, i) {}
  }

  /** Parsing inverts building: for any layout, the value found is the one stored at offset 8 of the first OS/2 table
      when the table is long enough to hold it. A shorter table declares a value as well, unless the file ends first:
      its second byte at least comes from behind the table. */
  lemma BuiltFontDeclares(version: Bytes, search: Bytes, ts: seq<Table>, rest: Bytes, i: nat)
    requires KnownVersion(version) && |search| == 6 && GoodTables(ts) && IsFirstOs2(ts, i)
    requires LaidOut(Build(version, search, ts, rest), ts)
    ensures var b, t := Build(version, search, ts, rest), ts[i];
            if |t.body| >= 10 then Declares(b, U16(t.body, 8))
            else if t.offset + 10 <= |b| then
              Declares(b, (if |t.body| == 9 then t.body[8] else b[t.offset + 8]) as int * 0x100 + b[t.offset + 9] as int)
            else forall v :: !Declares(b, v)
  {
    hide Build, Declares;
    var b, t := Build(version, search, ts, rest), ts[i];
    assert Stands(b, t.offset, t.body);
    forall j: nat ensures IsFirstOs2(ts, j) ==> j == i {}
    if t.offset + 10 <= |b| {
      BuiltDeclaresIff(version, search, ts, rest, U16(b, t.offset + 8));
      assert |t.body| >= 9 ==> b[t.offset + 8] == t.body[8];
      assert |t.body| >= 10 ==> b[t.offset + 9] == t.body[9];
    } else {
      forall v: nat ensures !Declares(b, v) {
        BuiltDeclaresIff(version, search, ts, rest, v);
      }
    }
  }

  function Contents(ts: seq<Table>): Bytes {
    if ts == [] then [] else ts[0].body + Contents(ts[1..])
  }

  /** The tables follow one another from a position on. */
  predicate Consecutive(ts: seq<Table>, start: nat) {
    ts != [] ==> ts[0].offset == start && Consecutive(ts[1..], start + |ts[0].body|)
  }

  lemma {:induction false} ContentsStand(b: Bytes, ts: seq<Table>, start: nat)
    requires Consecutive(ts, start) && Stands(b, start, Contents(ts))
    ensures LaidOut(b, ts)
  {
    hide Stands;
    if ts != [] {
      var t := ts[0];
      StandsFirst(t.body, Contents(ts[1..]));
      StandsWithin(b, start, Contents(ts), 0, t.body);
      StandsWithin(b, start, Contents(ts), |t.body|, Contents(ts[1..]));
      ContentsStand(b, ts[1..], start + |t.body|);
      assert ts == [t] + ts[1..];
    }
  }

  /** Writing the tables one after another behind the directory is such a layout. */
  lemma PackedIsLaidOut(version: Bytes, search: Bytes, ts: seq<Table>)
    requires KnownVersion(version) && |search| == 6 && GoodTables(ts) && Consecutive(ts, HEADER + RECORD * |ts|)
    ensures LaidOut(Build(version, search, ts, Contents(ts)), ts)
  {
    hide Stands, Consecutive, Contents, Directory;
    var head := version + U16Bytes(|ts|) + search + Directory(ts);
    StandsFirst(head, Contents(ts));
    assert |head| == HEADER + RECORD * |ts|;
    ContentsStand(Build(version, search, ts, Contents(ts)), ts, HEADER + RECORD * |ts|);
  }

  /** An OS/2 table of eight zero bytes at the end of the directory: with two more bytes behind it the file declares
      those, and with none it declares nothing. */
  lemma ShortTable(x: Byte, y: Byte)
    ensures var t := Table(OS2, 0, 28, seq(8, _ => 0));
            var file := Build(TRUETYPE, seq(6, _ => 0), [t], t.body + [x, y]);
            && LaidOut(file, [t]) && |t.body| < 10
            && Declares(file, (x as int) * 0x100 + (y as int))
            && var short := Build(TRUETYPE, seq(6, _ => 0), [t], t.body);
               forall v :: !Declares(short, v)
  {
    var zeros: Bytes := seq(6, _ => 0);
    var t := Table(OS2, 0, 28, seq(8, _ => 0));
    ShortTableStands(t, zeros, t.body + [x, y]);
    ShortTableStands(t, zeros, t.body);
    hide Build, Declares;
    BuiltFontDeclares(TRUETYPE, zeros, [t], t.body + [x, y], 0);
    BuiltFontDeclares(TRUETYPE, zeros, [t], t.body, 0);
  }

  lemma ShortTableStands(t: Table, search: Bytes, rest: Bytes)
    requires GoodTable(t) && t.offset == 28 && |search| == 6 && |t.body| == 8 && t.body <= rest
    ensures var b := Build(TRUETYPE, search, [t], rest);
            && LaidOut(b, [t]) && |b| == 28 + |rest|
            && forall k :: 8 <= k < |rest| ==> b[28 + k] == rest[k]
  {
    var b := Build(TRUETYPE, search, [t], rest);
    var head := TRUETYPE + U16Bytes(1) + search + Directory([t]);
    assert b == head + rest && |head| == 28;
  }
}
