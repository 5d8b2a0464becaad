/** The level file: one 32-bit record for each tile, and the 1024 by 1024 matrix of tiles in memory
    (mervbot/map.cpp). */
module TileMap {
  import opened Bytes

  const CELLS: nat := 0x10_0000
  const TYPES: nat := 0x100_0000

  const ASTEROID_END: Byte := 218
  const STATION: Byte := 219
  const WORMHOLE: Byte := 220

  type Word = r: nat | r < U32 witness 0

  datatype TileData = TileData(x: nat, y: nat, kind: Byte)

  /** A tile whose coordinates fit the twelve bits a record has for each. */
  type Tile = t: TileData | t.x < 4096 && t.y < 4096 witness TileData(0, 0, 0)

  // ---------- Records ----------

  function Record(x: nat, y: nat, kind: Byte): Word {
    x % 4096 + y % 4096 * 4096 + kind as int * TYPES
  }

  function TileOf(raw: Word): Tile {
    TileData(raw % 4096, raw / 4096 % 4096, (raw / TYPES) as Byte)
  }

  lemma Fields(a: nat, b: nat, c: nat)
    requires a < 4096 && b < 4096
    ensures (a + b * 4096 + c * TYPES) % 4096 == a
    ensures (a + b * 4096 + c * TYPES) / 4096 % 4096 == b
    ensures (a + b * 4096 + c * TYPES) / TYPES == c
  {
    assert (a + b * 4096 + c * TYPES) / 4096 == b + c * 4096;
  }

  lemma TileOfRecord(x: nat, y: nat, kind: Byte)
    ensures TileOf(Record(x, y, kind)) == TileData(x % 4096, y % 4096, kind)
  {
    Fields(x % 4096, y % 4096, kind as int);
  }

  lemma RecordOfTile(raw: Word)
    ensures var t := TileOf(raw); Record(t.x, t.y, t.kind) == raw
  {
  }

  lemma OneByte(a: nat, q: nat)
    requires a < 256
    ensures (a + 256 * q) % 256 == a && (a + 256 * q) / 256 == q
  {
  }

  lemma FourBytes(a: Byte, b: Byte, c: Byte, d: Byte, r: nat)
    requires r == a as int + 256 * (b as int + 256 * (c as int + 256 * d as int)) && r < U32
    ensures Long(r) == [a, b, c, d]
  {
    OneByte(a as int, b as int + 256 * (c as int + 256 * d as int));
    OneByte(b as int, c as int + 256 * d as int);
    OneByte(c as int, d as int);
    Quotients(r);
    LongIs(r);
  }

  /** The four bytes of a record: the low eight bits of x, the high four of x and the low four of y, the high eight
      of y, and the type. */
  lemma RecordBytes(x: nat, y: nat, kind: Byte)
    requires x < 4096 && y < 4096
    ensures Long(Record(x, y, kind)) == [(x % 256) as Byte, (x / 256 + y % 16 * 16) as Byte, (y / 16) as Byte, kind]
  {
    var r: nat := Record(x, y, kind);
    assert x == x / 256 * 256 + x % 256 && y == y / 16 * 16 + y % 16;
    FourBytes((x % 256) as Byte, (x / 256 + y % 16 * 16) as Byte, (y / 16) as Byte, kind, r);
  }

  // ---------- The matrix ----------

  function Linear(x: nat, y: nat): (c: nat)
    ensures c < CELLS
  {
    y % 1024 * 1024 + x % 1024
  }

  lemma LinearCell(x: nat, y: nat)
    ensures Linear(x, y) % 1024 == x % 1024 && Linear(x, y) / 1024 == y % 1024
  {
  }

  /** The number of columns and of rows that a tile covers. */
  function Size(kind: Byte): nat {
    if kind == ASTEROID_END then 2
    else if kind == WORMHOLE then 5
    else if kind == STATION then 6
    else 1
  }

  /** How far to the right of column x, around the edge, a cell lies; and how far below row y. */
  function Right(c: nat, x: nat): nat {
    (c % 1024 + 1024 - x % 1024) % 1024
  }

  function Below(c: nat, y: nat): nat {
    (c / 1024 + 1024 - y % 1024) % 1024
  }

  predicate Covers(t: TileData, c: nat) {
    Right(c, t.x) < Size(t.kind) && Below(c, t.y) < Size(t.kind)
  }

  lemma CellAt(x: nat, y: nat, i: nat, j: nat, c: nat)
    requires i < 1024 && j < 1024 && c < CELLS
    ensures c == Linear(x + i, y + j) <==> Right(c, x) == i && Below(c, y) == j
  {
    LinearCell(x + i, y + j);
    Around(c % 1024, x, i);
    Around(c / 1024, y, j);
    assert c == c / 1024 * 1024 + c % 1024;
  }

  lemma Around(a: nat, x: nat, i: nat)
    requires a < 1024 && i < 1024
    ensures a == (x + i) % 1024 <==> (a + 1024 - x % 1024) % 1024 == i
  {
    assert (x + i) % 1024 == (x % 1024 + i) % 1024;
  }

  /** The matrix once a tile is placed; a tile off the map is skipped. */
  function Placed(m: Bytes, t: TileData): (r: Bytes)
    ensures |r| == |m|
  {
    if t.x >= 1024 || t.y >= 1024 then m
    else seq(|m|, c requires 0 <= c < |m| => if Covers(t, c) then t.kind else m[c])
  }

  function Zeros(): (m: Bytes)
    ensures |m| == CELLS
  {
    seq(CELLS, c => 0)
  }

  /** A tile on the map fills a square to the right of its place and below, around the edges: two cells wide for the
      large asteroid, six for the station, five for the wormhole, and one for every other type. */
  lemma PlacedCell(m: Bytes, t: TileData, i: nat, j: nat)
    requires |m| == 0x10_0000 && t.x < 1024 && t.y < 1024 && i < 1024 && j < 1024
    ensures var (c, n) := ((t.y + j) % 1024 * 1024 + (t.x + i) % 1024,
                           if t.kind == 218 then 2 else if t.kind == 219 then 6 else if t.kind == 220 then 5 else 1);
            Placed(m, t)[c] == if i < n && j < n then t.kind else m[c]
  {
    var c := Linear(t.x + i, t.y + j);
    CellAt(t.x, t.y, i, j, c);
  }

  /** Every cell is some way to the right and some way below. */
  lemma EveryCell(t: TileData, c: nat) returns (i: nat, j: nat)
    requires c < 0x10_0000
    ensures i < 1024 && j < 1024 && c == (t.y + j) % 1024 * 1024 + (t.x + i) % 1024
  {
    i, j := Right(c, t.x), Below(c, t.y);
    CellAt(t.x, t.y, i, j, c);
  }

  /** A tile off the map is skipped. */
  lemma OffTheMap(m: Bytes, t: TileData)
    requires t.x >= 1024 || t.y >= 1024
    ensures Placed(m, t) == m
  {
  }

  // ---------- Reading ----------

  function Rounded(len: nat): (n: nat)
    ensures n % 4 == 0 && len <= n < len + 4
  {
    (len + 3) / 4 * 4
  }

  /** The records at the front of f, as long as less than len bytes are consumed. */
  function ReadTiles(m: Bytes, f: Bytes, len: nat): (r: Bytes)
    requires Rounded(len) <= |f|
    ensures |r| == |m|
    decreases len
  {
    if len == 0 then m
    else ReadTiles(Placed(m, TileOf(GetLong(f, 0))), f[4..], if len < 4 then 0 else len - 4)
  }

  predicate HasTileset(file: Bytes)
    requires 2 <= |file|
  {
    file[0] == 'B' as int as Byte && file[1] == 'M' as int as Byte
  }

  /** The file and the len that a call may pass: every byte the loop looks at is in the file. */
  predicate Readable(file: Bytes, len: nat) {
    && len <= 0xFFFF_FFFC && 2 <= |file|
    && if HasTileset(file) then
         6 <= |file| && GetLong(file, 2) <= len && GetLong(file, 2) + Rounded(len - GetLong(file, 2)) <= |file|
       else
         Rounded(len) <= |file|
  }

  function Start(file: Bytes): nat
    requires 2 <= |file| && (HasTileset(file) ==> 6 <= |file|)
  {
    if HasTileset(file) then GetLong(file, 2) else 0
  }

  function Matrix(file: Bytes, len: nat): (m: Bytes)
    requires Readable(file, len)
    ensures |m| == CELLS
  {
    ReadTiles(Zeros(), file[Start(file)..], len - Start(file))
  }

  // ---------- Writing ----------

  /** The tiles that are written: the regular and the animated ones, not the internal ones. */
  predicate Stored(kind: Byte) {
    1 <= kind <= 190 || 216 <= kind <= 220
  }

  function TilesAt(m: Bytes, x: nat, y: nat): seq<Tile>
    requires |m| == CELLS && x < 4096 && y < 4096
  {
    var kind := m[Linear(x, y)];
    if Stored(kind) then [TileData(x, y, kind)] else []
  }

  /** The tiles of column x, from row y on. */
  function Column(m: Bytes, x: nat, y: nat): seq<Tile>
    requires |m| == CELLS && x < 1023 && y <= 1023
    decreases 1023 - y
  {
    if y == 1023 then [] else TilesAt(m, x, y) + Column(m, x, y + 1)
  }

  /** The tiles of the columns from x on. */
  function Columns(m: Bytes, x: nat): seq<Tile>
    requires |m| == CELLS && x <= 1023
    decreases 1023 - x
  {
    if x == 1023 then [] else Column(m, x, 1) + Columns(m, x + 1)
  }

  function Octets(tiles: seq<Tile>): (f: Bytes)
    ensures |f| == 4 * |tiles|
  {
    if tiles == [] then [] else Long(Record(tiles[0].x, tiles[0].y, tiles[0].kind)) + Octets(tiles[1..])
  }

  /** The records that are written, as tiles. */
  function Tiles(m: Bytes): seq<Tile>
    requires |m| == CELLS
  {
    Columns(m, 1)
  }

  // ---------- Writing, then reading ----------

  predicate Interior(c: nat) {
    1 <= c % 1024 <= 1022 && 1 <= c / 1024 <= 1022
  }

  predicate NoObjects(m: Bytes) {
    forall c :: 0 <= c < |m| ==> !(218 <= m[c] <= 220)
  }

  /** What a matrix becomes when records are read one after the other. */
  function PlaceAll(b: Bytes, tiles: seq<Tile>): (r: Bytes)
    ensures |r| == |b|
    decreases tiles
  {
    if tiles == [] then b else PlaceAll(Placed(b, tiles[0]), tiles[1..])
  }

  lemma {:induction false} PlaceConcat(b: Bytes, tiles: seq<Tile>, more: seq<Tile>)
    ensures PlaceAll(b, tiles + more) == PlaceAll(PlaceAll(b, tiles), more)
    decreases tiles
  {
    if tiles == [] {
      assert tiles + more == more;
    } else {
      assert (tiles + more)[1..] == tiles[1..] + more;
      PlaceConcat(Placed(b, tiles[0]), tiles[1..], more);
    }
  }

  lemma RoundedWhole(n: nat)
    ensures Rounded(4 * n) == 4 * n
  {
  }

  /** The first record of a file is read. */
  lemma FirstRecord(t: Tile, later: Bytes)
    ensures var f := Long(Record(t.x, t.y, t.kind)) + later; TileOf(GetLong(f, 0)) == t && f[4..] == later
  {
    var r: nat := Record(t.x, t.y, t.kind);
    LongRoundTrip([], r, later);
    assert [] + Long(r) + later == Long(r) + later;
    TileOfRecord(t.x, t.y, t.kind);
  }

  lemma RoundedPart(len: nat, n: nat)
    requires len <= 4 * n < len + 4
    ensures Rounded(len) == 4 * n
  {
  }

  lemma RoundedLess(len: nat)
    requires len > 0
    ensures Rounded(if len < 4 then 0 else len - 4) == Rounded(len) - 4
  {
  }

  lemma ReadStep(b: Bytes, f: Bytes, len: nat, left: nat, t: Tile, later: Bytes)
    requires len > 0 && Rounded(len) <= |f| && left == if len < 4 then 0 else len - 4
    requires TileOf(GetLong(f, 0)) == t && f[4..] == later
    ensures Rounded(left) <= |later| && ReadTiles(b, f, len) == ReadTiles(Placed(b, t), later, left)
  {
    RoundedLess(len);
  }

  lemma ReadFirst(b: Bytes, t: Tile, later: Bytes, len: nat, left: nat)
    requires len > 0 && Rounded(len) <= 4 + |later| && left == if len < 4 then 0 else len - 4
    ensures Rounded(left) <= |later|
    ensures ReadTiles(b, Long(Record(t.x, t.y, t.kind)) + later, len) == ReadTiles(Placed(b, t), later, left)
  {
    FirstRecord(t, later);
    ReadStep(b, Long(Record(t.x, t.y, t.kind)) + later, len, left, t, later);
  }

  /** A length that ends inside a record reads that record too. */
  lemma {:induction false} ReadPart(b: Bytes, tiles: seq<Tile>, g: Bytes, len: nat)
    requires len <= 4 * |tiles| < len + 4
    ensures Rounded(len) <= |Octets(tiles) + g|
    ensures ReadTiles(b, Octets(tiles) + g, len) == PlaceAll(b, tiles)
    decreases tiles
  {
    RoundedPart(len, |tiles|);
    if tiles != [] {
      var t, left := tiles[0], if len < 4 then 0 else len - 4;
      ConcatAssociates(Long(Record(t.x, t.y, t.kind)), Octets(tiles[1..]), g);
      ReadFirst(b, t, Octets(tiles[1..]) + g, len, left);
      ReadPart(Placed(b, t), tiles[1..], g, left);
    }
  }

  /** Reading the records that start a file, whatever follows them. */
  lemma ReadOctets(b: Bytes, tiles: seq<Tile>, g: Bytes)
    ensures Rounded(4 * |tiles|) <= |Octets(tiles) + g|
    ensures ReadTiles(b, Octets(tiles) + g, 4 * |tiles|) == PlaceAll(b, tiles)
  {
    ReadPart(b, tiles, g, 4 * |tiles|);
  }

  /** What reading the records of column x, from row y on, makes of a matrix b. */
  function Restored(b: Bytes, m: Bytes, x: nat, y: nat): (r: Bytes)
    requires |b| == |m|
    ensures |r| == |b|
  {
    seq(|b|, c requires 0 <= c < |b| => RestoredCell(b, m, x, y, c))
  }

  function RestoredCell(b: Bytes, m: Bytes, x: nat, y: nat, c: nat): Byte
    requires c < |b| == |m|
  {
    if c % 1024 == x && y <= c / 1024 < 1023 && Stored(m[c]) then m[c] else b[c]
  }

  /** A tile of size one changes its own cell only. */
  lemma PlacedOne(b: Bytes, x: nat, y: nat, kind: Byte, c: nat)
    requires |b| == CELLS && x < 1024 && y < 1024 && Size(kind) == 1 && c < CELLS
    ensures Placed(b, TileData(x, y, kind))[c] == if c == Linear(x, y) then kind else b[c]
  {
    CellAt(x, y, 0, 0, c);
  }

  lemma OneCell(x: nat, y: nat, c: nat)
    requires x < 1024 && y < 1024 && c < CELLS
    ensures c == Linear(x, y) <==> c % 1024 == x && c / 1024 == y
  {
    LinearCell(x, y);
  }

  lemma RestoreStored(b: Bytes, m: Bytes, x: nat, y: nat, kind: Byte)
    requires |b| == |m| == CELLS && x < 1024 && y < 1023 && kind == m[Linear(x, y)] && Stored(kind) && Size(kind) == 1
    ensures Restored(b, m, x, y) == Restored(Placed(b, TileData(x, y, kind)), m, x, y + 1)
  {
    var p := Placed(b, TileData(x, y, kind));
    forall c: nat | c < CELLS
      ensures RestoredCell(b, m, x, y, c) == RestoredCell(p, m, x, y + 1, c)
    {
      PlacedOne(b, x, y, kind, c);
      OneCell(x, y, c);
    }
  }

  lemma RestoreSkipped(b: Bytes, m: Bytes, x: nat, y: nat)
    requires |b| == |m| == CELLS && x < 1024 && y < 1023 && !Stored(m[Linear(x, y)])
    ensures Restored(b, m, x, y) == Restored(b, m, x, y + 1)
  {
    forall c: nat | c < CELLS
      ensures RestoredCell(b, m, x, y, c) == RestoredCell(b, m, x, y + 1, c)
    {
      OneCell(x, y, c);
    }
  }

  lemma NothingRestored(b: Bytes, m: Bytes, x: nat)
    requires |b| == |m|
    ensures Restored(b, m, x, 1023) == b
  {
  }

  lemma PlaceTilesAt(b: Bytes, m: Bytes, x: nat, y: nat)
    requires |b| == |m| == CELLS && x < 1023 && y < 1023 && NoObjects(m)
    ensures Restored(PlaceAll(b, TilesAt(m, x, y)), m, x, y + 1) == Restored(b, m, x, y)
  {
    var kind := m[Linear(x, y)];
    if Stored(kind) {
      var t: Tile := TileData(x, y, kind);
      assert [t][1..] == [];
      RestoreStored(b, m, x, y, kind);
    } else {
      RestoreSkipped(b, m, x, y);
    }
  }

  lemma {:induction false} PlaceColumn(b: Bytes, m: Bytes, x: nat, y: nat)
    requires |b| == |m| == CELLS && x < 1023 && y <= 1023 && NoObjects(m)
    ensures PlaceAll(b, Column(m, x, y)) == Restored(b, m, x, y)
    decreases 1023 - y
  {
    if y < 1023 {
      var p := PlaceAll(b, TilesAt(m, x, y));
      PlaceTilesAt(b, m, x, y);
      PlaceColumn(p, m, x, y + 1);
      PlaceParts(b, TilesAt(m, x, y), Column(m, x, y + 1), Column(m, x, y), p);
    } else {
      NothingRestored(b, m, x);
    }
  }

  lemma PlaceParts(b: Bytes, first: seq<Tile>, rest: seq<Tile>, all: seq<Tile>, p: Bytes)
    requires all == first + rest && p == PlaceAll(b, first)
    ensures PlaceAll(b, all) == PlaceAll(p, rest)
  {
    PlaceConcat(b, first, rest);
  }

  // ---------- All columns ----------

  /** What survives being written and read: the interior cells whose type is stored. */
  function ReadBack(m: Bytes, c: nat): Byte
    requires c < |m|
  {
    if Interior(c) && Stored(m[c]) then m[c] else 0
  }

  ghost predicate RestoredUpTo(b: Bytes, m: Bytes, x: nat) {
    |b| == |m| == CELLS && forall c: nat :: c < CELLS ==> b[c] == if c % 1024 < x then ReadBack(m, c) else 0
  }

  lemma RestoredNext(b: Bytes, m: Bytes, x: nat)
    requires 1 <= x < 1023 && RestoredUpTo(b, m, x)
    ensures RestoredUpTo(Restored(b, m, x, 1), m, x + 1)
  {
  }

  lemma {:induction false} PlaceColumns(b: Bytes, m: Bytes, x: nat)
    requires 1 <= x <= 1023 && RestoredUpTo(b, m, x) && NoObjects(m)
    ensures RestoredUpTo(PlaceAll(b, Columns(m, x)), m, 1023)
    decreases 1023 - x
  {
    if x < 1023 {
      PlaceConcat(b, Column(m, x, 1), Columns(m, x + 1));
      PlaceColumn(b, m, x, 1);
      RestoredNext(b, m, x);
      PlaceColumns(Restored(b, m, x, 1), m, x + 1);
    }
  }

  lemma PlaceTiles(m: Bytes)
    requires |m| == CELLS && NoObjects(m)
    ensures |PlaceAll(Zeros(), Tiles(m))| == CELLS
    ensures forall c: nat :: c < CELLS ==> PlaceAll(Zeros(), Tiles(m))[c] == ReadBack(m, c)
  {
    assert RestoredUpTo(Zeros(), m, 1);
    PlaceColumns(Zeros(), m, 1);
  }

  // ---------- The header ----------

  lemma SecondByte(q: nat, t: nat)
    requires t < 4096
    ensures (4096 * q + t) / 256 % 16 == t / 256
  {
    assert (4096 * q + t) / 256 == 16 * q + t / 256;
  }

  lemma SixteenDivides(n: nat)
    ensures n % 256 % 16 == n % 16
  {
  }

  lemma SecondOfRecord(x: nat, y: nat, kind: Byte)
    requires x < 1024
    ensures Record(x, y, kind) / 256 % 256 % 16 == x / 256
  {
    SecondByte(y % 4096 + kind as int * 4096, x);
    SixteenDivides(Record(x, y, kind) / 256);
  }

  lemma LowBytes(r: nat)
    ensures Long(r)[1] == (r / 256 % 256) as Byte
  {
    assert Digits(r, 4) == [(r % 256) as Byte] + Digits(r / 256, 3);
    assert Digits(r / 256, 3)[0] == (r / 256 % 256) as Byte;
  }

  /** A record of a tile on the map never looks like a tileset header. */
  lemma NoHeader(x: nat, y: nat, kind: Byte, g: Bytes)
    requires x < 1024
    ensures !HasTileset(Long(Record(x, y, kind)) + g)
  {
    var r: nat := Record(x, y, kind);
    SecondOfRecord(x, y, kind);
    LowBytes(r);
    assert (Long(r) + g)[1] == Long(r)[1];
  }

  // ---------- What is written ----------

  /** The cell of a tile holds its type, which is written. */
  predicate Writes(m: Bytes, t: Tile)
    requires |m| == CELLS
  {
    m[Linear(t.x, t.y)] == t.kind && Stored(t.kind)
  }

  lemma TilesAtHas(m: Bytes, x: nat, y: nat, t: Tile)
    requires |m| == CELLS && x < 4096 && y < 4096
    ensures t in TilesAt(m, x, y) <==> t.x == x && t.y == y && Writes(m, t)
  {
  }

  lemma InParts<T>(all: seq<T>, a: seq<T>, b: seq<T>, t: T)
    requires all == a + b
    ensures t in all <==> t in a || t in b
  {
  }

  lemma {:induction false} ColumnHas(m: Bytes, x: nat, y: nat, t: Tile)
    requires |m| == CELLS && x < 1023 && y <= 1023
    ensures t in Column(m, x, y) <==> t.x == x && y <= t.y < 1023 && Writes(m, t)
    decreases 1023 - y
  {
    if y < 1023 {
      var z := y + 1;
      ColumnHas(m, x, z, t);
      TilesAtHas(m, x, y, t);
      InParts(Column(m, x, y), TilesAt(m, x, y), Column(m, x, z), t);
    }
  }

  lemma {:induction false} ColumnsHas(m: Bytes, x: nat, t: Tile)
    requires |m| == CELLS && x <= 1023
    ensures t in Columns(m, x) <==> x <= t.x < 1023 && 1 <= t.y < 1023 && Writes(m, t)
    decreases 1023 - x
  {
    if x < 1023 {
      var z, top := x + 1, 1;
      ColumnHas(m, x, top, t);
      ColumnsHas(m, z, t);
      InParts(Columns(m, x), Column(m, x, top), Columns(m, z), t);
    }
  }

  lemma WritesIs(m: Bytes, t: Tile)
    requires |m| == 0x10_0000 && t.x < 1024 && t.y < 1024
    ensures Writes(m, t) <==> m[t.y * 1024 + t.x] == t.kind && (1 <= t.kind <= 190 || 216 <= t.kind <= 220)
  {
    assert Linear(t.x, t.y) == t.y * 1024 + t.x;
  }

  lemma WrittenFrom(m: Bytes, x: nat, t: Tile)
    requires |m| == 0x10_0000 && x == 1
    ensures t in Columns(m, x) <==>
              && 1 <= t.x <= 1022 && 1 <= t.y <= 1022 && m[t.y * 1024 + t.x] == t.kind
              && (1 <= t.kind <= 190 || 216 <= t.kind <= 220)
  {
    ColumnsHas(m, x, t);
    if t.x < 1024 && t.y < 1024 {
      WritesIs(m, t);
    }
  }

  /** The records that are written are those of the cells inside the border whose type is 1 to 190 or 216 to 220. */
  lemma WrittenIff(m: Bytes, t: Tile)
    requires |m| == 0x10_0000
    ensures t in Tiles(m) <==>
              && 1 <= t.x <= 1022 && 1 <= t.y <= 1022 && m[t.y * 1024 + t.x] == t.kind
              && (1 <= t.kind <= 190 || 216 <= t.kind <= 220)
  {
    WrittenFrom(m, 1, t);
  }

  predicate Before(t: Tile, u: Tile) {
    t.x < u.x || (t.x == u.x && t.y < u.y)
  }

  /** Column by column, from the top down, none twice. */
  predicate InOrder(tiles: seq<Tile>) {
    forall i, j :: 0 <= i < j < |tiles| ==> Before(tiles[i], tiles[j])
  }

  lemma InOrderOn(all: seq<Tile>, a: seq<Tile>, b: seq<Tile>)
    requires InOrder(a) && InOrder(b) && all == a + b
    requires forall t: Tile, u: Tile :: t in a && u in b ==> Before(t, u)
    ensures InOrder(all)
  {
    forall i, j | 0 <= i < j < |all|
      ensures Before(all[i], all[j])
    {
      if i < |a| <= j {
        assert all[i] in a && all[j] in b;
      }
    }
  }

  lemma {:induction false} ColumnInOrder(m: Bytes, x: nat, y: nat)
    requires |m| == CELLS && x < 1023 && y <= 1023
    ensures InOrder(Column(m, x, y))
    decreases 1023 - y
  {
    if y < 1023 {
      var z := y + 1;
      ColumnInOrder(m, x, z);
      forall t: Tile, u: Tile | t in TilesAt(m, x, y) && u in Column(m, x, z)
        ensures Before(t, u)
      {
        TilesAtHas(m, x, y, t);
        ColumnHas(m, x, z, u);
      }
      InOrderOn(Column(m, x, y), TilesAt(m, x, y), Column(m, x, z));
    }
  }

  lemma ColumnsBefore(m: Bytes, x: nat, top: nat, z: nat, t: Tile, u: Tile)
    requires |m| == CELLS && x < z <= 1023 && top <= 1023 && t in Column(m, x, top) && u in Columns(m, z)
    ensures Before(t, u)
  {
    ColumnHas(m, x, top, t);
    ColumnsHas(m, z, u);
  }

  lemma {:induction false} ColumnsInOrder(m: Bytes, x: nat, top: nat)
    requires |m| == CELLS && x <= 1023 && top == 1
    ensures InOrder(Columns(m, x))
    decreases 1023 - x
  {
    if x < 1023 {
      var z := x + 1;
      ColumnInOrder(m, x, top);
      ColumnsInOrder(m, z, top);
      forall t: Tile, u: Tile | t in Column(m, x, top) && u in Columns(m, z)
        ensures Before(t, u)
      {
        ColumnsBefore(m, x, top, z, t, u);
      }
      InOrderOn(Columns(m, x), Column(m, x, top), Columns(m, z));
    }
  }

  lemma TilesInOrder(m: Bytes)
    requires |m| == CELLS
    ensures InOrder(Tiles(m))
  {
    ColumnsInOrder(m, 1, 1);
  }

  // ---------- What is read ----------

  lemma BehindTileset(tileset: Bytes, records: Bytes)
    requires |tileset| >= 6 && tileset[0] == 66 && tileset[1] == 77 && GetLong(tileset, 2) == |tileset|
    ensures var file := tileset + records;
            HasTileset(file) && GetLong(file, 2) == |tileset| && file[|tileset|..] == records
  {
    var file := tileset + records;
    assert file[2..6] == tileset[2..6];
  }

  /** A file may begin with a bitmap of the tileset: the letters BM, and its length behind them. The records that
      follow it are read, one after the other, into an empty matrix. */
  lemma ReadBehindTileset(tileset: Bytes, tiles: seq<Tile>, g: Bytes)
    requires |tileset| >= 6 && tileset[0] == 66 && tileset[1] == 77 && GetLong(tileset, 2) == |tileset|
    requires |tileset| + 4 * |tiles| <= 0xFFFF_FFFC
    ensures var (file, len) := (tileset + (Octets(tiles) + g), |tileset| + 4 * |tiles|);
            Readable(file, len) && Matrix(file, len) == PlaceAll(seq(0x10_0000, c => 0), tiles)
  {
    BehindTileset(tileset, Octets(tiles) + g);
    RoundedWhole(|tiles|);
    ReadOctets(Zeros(), tiles, g);
  }

  /** Without one the file is all records. */
  lemma ReadFromStart(tiles: seq<Tile>, g: Bytes)
    requires 4 * |tiles| <= 0xFFFF_FFFC && |Octets(tiles) + g| >= 2
    requires (Octets(tiles) + g)[0] != 66 || (Octets(tiles) + g)[1] != 77
    ensures var file := Octets(tiles) + g;
            Readable(file, 4 * |tiles|) && Matrix(file, 4 * |tiles|) == PlaceAll(seq(0x10_0000, c => 0), tiles)
  {
    var file := Octets(tiles) + g;
    assert file[0..] == file;
    RoundedWhole(|tiles|);
    ReadOctets(Zeros(), tiles, g);
  }

  // ---------- The round trip ----------

  lemma {:induction false} ColumnTiles(m: Bytes, x: nat, y: nat)
    requires |m| == CELLS && x < 1023 && y <= 1023
    ensures |Column(m, x, y)| <= 1023 - y && forall t: Tile :: t in Column(m, x, y) ==> t.x == x
    decreases 1023 - y
  {
    if y < 1023 {
      ColumnTiles(m, x, y + 1);
    }
  }

  lemma {:induction false} ColumnsTiles(m: Bytes, x: nat)
    requires |m| == CELLS && x <= 1023
    ensures |Columns(m, x)| <= (1023 - x) * 1022 && forall t: Tile :: t in Columns(m, x) ==> t.x < 1023
    decreases 1023 - x
  {
    if x < 1023 {
      ColumnTiles(m, x, 1);
      ColumnsTiles(m, x + 1);
    }
  }

  /** Every tile that is not empty is inside the border and of a stored type. */
  predicate Clean(m: Bytes) {
    forall c: nat :: c < |m| && m[c] != 0 ==> Interior(c) && Stored(m[c])
  }

  lemma FileIsReadable(m: Bytes, rest: Bytes)
    requires |m| == CELLS && (Tiles(m) != [] || (2 <= |rest| && !HasTileset(rest)))
    ensures Readable(Octets(Tiles(m)) + rest, 4 * |Tiles(m)|) && !HasTileset(Octets(Tiles(m)) + rest)
  {
    var tiles := Tiles(m);
    ColumnsTiles(m, 1);
    RoundedWhole(|tiles|);
    if tiles == [] {
      ConcatEmpty(rest);
    } else {
      var t := tiles[0];
      assert t in tiles;
      NoHeader(t.x, t.y, t.kind, Octets(tiles[1..]) + rest);
      ConcatAssociates(Long(Record(t.x, t.y, t.kind)), Octets(tiles[1..]), rest);
    }
  }

  /** For a map without multi-tile objects, what comes back are the interior cells of a stored type; so the whole
      map comes back exactly when it is clean. An empty map has an empty file, and the reader then looks at what
      follows it. */
  lemma RoundTripIff(m: Bytes, rest: Bytes)
    requires |m| == CELLS && NoObjects(m) && (Tiles(m) != [] || (2 <= |rest| && !HasTileset(rest)))
    ensures Readable(Octets(Tiles(m)) + rest, 4 * |Tiles(m)|)
    ensures var back := Matrix(Octets(Tiles(m)) + rest, 4 * |Tiles(m)|);
            (forall c: nat :: c < CELLS ==> back[c] == ReadBack(m, c)) && (back == m <==> Clean(m))
  {
    FileIsReadable(m, rest);
    ReadOctets(Zeros(), Tiles(m), rest);
    PlaceTiles(m);
    var file := Octets(Tiles(m)) + rest;
    assert file[0..] == file;
    SameIffClean(Matrix(file, 4 * |Tiles(m)|), m);
  }

  lemma SameIffClean(back: Bytes, m: Bytes)
    requires |back| == |m| == CELLS && forall c: nat :: c < CELLS ==> back[c] == ReadBack(m, c)
    ensures back == m <==> Clean(m)
  {
    if back == m {
      forall c: nat | c < |m| && m[c] != 0
        ensures Interior(c) && Stored(m[c])
      {
        assert back[c] == ReadBack(m, c);
      }
    }
  }

  // ---------- The three passes ----------

  /** The inner loop of GetMapSize. */
  method CountColumn(mapData: array<Byte>, x: nat) returns (count: nat)
    requires mapData.Length == CELLS && x < 1023
    ensures count == |Column(mapData[..], x, 1)|
  {
    ghost var m := mapData[..];
    count := 0;
    var y := 1;
    while y < 1023
      invariant 1 <= y <= 1023 && count + |Column(m, x, y)| == |Column(m, x, 1)|
    {
      var t := mapData[Linear(x, y)];
      TilesAtLength(m, x, y);
      if t != 0 && ((1 <= t <= 190) || (216 <= t <= 220)) {
        count := count + 1;
      }
      y := y + 1;
    }
  }

  lemma TilesAtLength(m: Bytes, x: nat, y: nat)
    requires |m| == CELLS && x < 1023 && y < 1023
    ensures |Column(m, x, y)| == (if Stored(m[Linear(x, y)]) then 1 else 0) + |Column(m, x, y + 1)|
  {
  }

  method GetMapSize(mapData: array<Byte>) returns (size: nat)
    requires mapData.Length == CELLS
    ensures size == 4 * |Tiles(mapData[..])| && size < U32
  {
    ghost var m := mapData[..];
    var offset := 0;
    var x := 1;
    while x < 1023
      invariant 1 <= x <= 1023 && offset + |Columns(m, x)| == |Tiles(m)|
    {
      var count := CountColumn(mapData, x);
      offset := offset + count;
      x := x + 1;
    }
    ColumnsTiles(m, 1);
    size := offset * 4;
  }

  /** A file whose first records are those of the tiles done. */
  ghost predicate Begun(file: Bytes, was: Bytes, done: seq<Tile>) {
    4 * |done| <= |was| && file == Octets(done) + was[4 * |done|..]
  }

  lemma BegunNext(file: Bytes, was: Bytes, done: seq<Tile>, t: Tile, w: Bytes, next: Bytes)
    requires Begun(file, was, done) && 4 * |done| + 4 <= |was| && w == Long(Record(t.x, t.y, t.kind))
    requires next == file[..4 * |done|] + w + file[4 * |done| + 4..]
    ensures Begun(next, was, done + [t])
  {
    OctetsAppend(done, t);
    var n := 4 * |done|;
    assert file[..n] == Octets(done);
    assert file[n + 4..] == was[n + 4..];
  }

  /** The store of one record. */
  method StoreRecord(fileData: array<Byte>, offset: nat, t: Tile, ghost was: Bytes, ghost done: seq<Tile>)
    requires Begun(fileData[..], was, done) && |done| == offset && 4 * offset + 4 <= |was|
    modifies fileData
    ensures Begun(fileData[..], was, done + [t])
  {
    ghost var file := fileData[..];
    var w := Long(Record(t.x, t.y, t.kind));
    fileData[4 * offset] := w[0];
    fileData[4 * offset + 1] := w[1];
    fileData[4 * offset + 2] := w[2];
    fileData[4 * offset + 3] := w[3];
    assert fileData[..] == file[..4 * offset] + w + file[4 * offset + 4..];
    BegunNext(file, was, done, t, w, fileData[..]);
  }

  lemma {:induction false} OctetsAppend(done: seq<Tile>, t: Tile)
    ensures Octets(done + [t]) == Octets(done) + Long(Record(t.x, t.y, t.kind))
  {
    if done == [] {
      assert [] + [t] == [t] && [t][1..] == [];
    } else {
      assert (done + [t])[1..] == done[1..] + [t];
      OctetsAppend(done[1..], t);
    }
  }

  lemma NextCell(m: Bytes, x: nat, y: nat, done: seq<Tile>)
    requires |m| == CELLS && x < 1023 && y < 1023
    ensures done + Column(m, x, y)
         == if Stored(m[Linear(x, y)]) then done + [TileData(x, y, m[Linear(x, y)])] + Column(m, x, y + 1)
            else done + Column(m, x, y + 1)
  {
    ConcatAssociates(done, TilesAt(m, x, y), Column(m, x, y + 1));
    assert [] + Column(m, x, y + 1) == Column(m, x, y + 1);
  }

  /** The inner loop of ConvertMatrixToFile. */
  method ConvertColumn(mapData: array<Byte>, fileData: array<Byte>, x: nat, start: nat,
                       ghost was: Bytes, ghost before: seq<Tile>) returns (offset: nat)
    requires mapData.Length == CELLS && mapData != fileData && x < 1023 && start == |before|
    requires Begun(fileData[..], was, before) && 4 * |before + Column(mapData[..], x, 1)| <= |was|
    modifies fileData
    ensures offset == |before + Column(mapData[..], x, 1)|
    ensures Begun(fileData[..], was, before + Column(mapData[..], x, 1))
  {
    ghost var m, done, all := mapData[..], before, before + Column(mapData[..], x, 1);
    offset := start;
    var y := 1;
    while y < 1023
      invariant 1 <= y <= 1023 && offset == |done| && done + Column(m, x, y) == all
      invariant Begun(fileData[..], was, done) && mapData[..] == m
    {
      var t := mapData[Linear(x, y)];
      NextCell(m, x, y, done);
      if t != 0 && ((1 <= t <= 190) || (216 <= t <= 220)) {
        var tile: Tile := TileData(x, y, t);
        assert |all| >= |done| + 1;
        StoreRecord(fileData, offset, tile, was, done);
        done := done + [tile];
        offset := offset + 1;
      }
      y := y + 1;
    }
    assert done + [] == done;
  }

  lemma BegunNone(was: Bytes)
    ensures Begun(was, was, [])
  {
    ConcatEmpty(was);
  }

  method ConvertMatrixToFile(mapData: array<Byte>, fileData: array<Byte>)
    requires mapData.Length == CELLS && mapData != fileData && 4 * |Tiles(mapData[..])| <= fileData.Length
    modifies fileData
    ensures fileData[..] == Octets(Tiles(mapData[..])) + old(fileData[..])[4 * |Tiles(mapData[..])|..]
  {
    ghost var m, was, done: seq<Tile> := mapData[..], fileData[..], [];
    ghost var all := Tiles(m);
    BegunNone(was);
    ConcatEmpty(all);
    var offset := 0;
    var x := 1;
    while x < 1023
      invariant 1 <= x <= 1023 && offset == |done| && done + Columns(m, x) == all
      invariant Begun(fileData[..], was, done) && mapData[..] == m
    {
      ConcatAssociates(done, Column(m, x, 1), Columns(m, x + 1));
      offset := ConvertColumn(mapData, fileData, x, offset, was, done);
      done := done + Column(m, x, 1);
      x := x + 1;
    }
    ConcatEmpty(done);
  }

  /** One tile of a file, with the cells around it that an object covers. */
  method PlaceTile(mapData: array<Byte>, t: TileData)
    requires mapData.Length == CELLS && t.x < 1024 && t.y < 1024
    modifies mapData
    ensures mapData[..] == Placed(old(mapData[..]), t)
  {
    ghost var was := mapData[..];
    var n := Size(t.kind);
    var i := 0;
    while i < n
      invariant 0 <= i <= n
      invariant forall c: nat :: c < CELLS ==>
        mapData[c] == if Right(c, t.x) < i && Below(c, t.y) < n then t.kind else was[c]
    {
      var j := 0;
      while j < n
        invariant 0 <= j <= n
        invariant forall c: nat :: c < CELLS ==>
          mapData[c] == if (Right(c, t.x) < i && Below(c, t.y) < n) || (Right(c, t.x) == i && Below(c, t.y) < j)
                        then t.kind else was[c]
      {
        forall c: nat | c < CELLS
          ensures c == Linear(t.x + i, t.y + j) <==> Right(c, t.x) == i && Below(c, t.y) == j
        {
          CellAt(t.x, t.y, i, j, c);
        }
        mapData[Linear(t.x + i, t.y + j)] := t.kind;
        j := j + 1;
      }
      i := i + 1;
    }
  }

  method Clear(mapData: array<Byte>)
    requires mapData.Length == CELLS
    modifies mapData
    ensures mapData[..] == Zeros()
  {
    var i := 0;
    while i < CELLS
      invariant 0 <= i <= CELLS && forall c :: 0 <= c < i ==> mapData[c] == 0
    {
      mapData[i] := 0;
      i := i + 1;
    }
  }

  function Remaining(len: nat, i: nat): nat {
    if i < len then len - i else 0
  }

  ghost predicate LeftToRead(f: Bytes, i: nat, len: nat) {
    i <= |f| && Rounded(Remaining(len, i)) <= |f| - i
  }

  lemma ReadNext(m: Bytes, f: Bytes, i: nat, len: nat)
    requires i < len && LeftToRead(f, i, len)
    ensures i + 4 <= |f| && LeftToRead(f, i + 4, len)
    ensures ReadTiles(m, f[i..], Remaining(len, i))
         == ReadTiles(Placed(m, TileOf(GetLong(f, i))), f[i + 4..], Remaining(len, i + 4))
  {
    assert f[i..][0..4] == f[i..i + 4];
    assert f[i..][4..] == f[i + 4..];
  }

  /** The loop of ConvertFileToMatrix over the bytes that follow the tileset. */
  method FillTiles(fileData: array<Byte>, mapData: array<Byte>, start: nat, len: nat)
    requires start + Rounded(len) <= fileData.Length && mapData.Length == CELLS && mapData != fileData
    modifies mapData
    ensures mapData[..] == ReadTiles(old(mapData[..]), fileData[start..], len)
  {
    ghost var f, all := fileData[start..], ReadTiles(mapData[..], fileData[start..], len);
    var i := 0;
    assert f[0..] == f;
    while i < len
      invariant LeftToRead(f, i, len) && fileData[start..] == f
      invariant ReadTiles(mapData[..], f[i..], Remaining(len, i)) == all
    {
      ReadNext(mapData[..], f, i, len);
      assert fileData[start + i..start + i + 4] == f[i..i + 4];
      var t := TileOf(GetLong(fileData[start + i..start + i + 4], 0));
      assert t == TileOf(GetLong(f, i)) by { assert f[i..i + 4][0..4] == f[i..i + 4]; }
      if t.x < 1024 && t.y < 1024 {
        PlaceTile(mapData, t);
      }
      i := i + 4;
    }
  }

  method ConvertFileToMatrix(fileData: array<Byte>, mapData: array<Byte>, len: nat)
    requires Readable(fileData[..], len) && mapData.Length == CELLS && mapData != fileData
    modifies mapData
    ensures mapData[..] == Matrix(fileData[..], len)
  {
    Clear(mapData);
    var start, left := 0, len;
    if fileData[0] == 'B' as int as Byte && fileData[1] == 'M' as int as Byte {
      start := GetLong(fileData[..], 2);
      left := len - start;
    }
    FillTiles(fileData, mapData, start, left);
    assert fileData[start..] == fileData[..][start..];
  }
}
