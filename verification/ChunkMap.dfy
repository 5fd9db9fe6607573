/** The stored form of a map: one byte a cell, one bit a face. */
module ChunkMaps {
  import opened HexGrid
  import opened Lattices
  import opened LocalCells
  import opened ChunkGraphs
  import opened Params
  import opened Maps

  const FACE_BITS_MASK: bv8 := 0x3F

  /** Bit d of a byte. */
  function Bit(d: Direction): bv8 {
    match d
    case 0 => 0x01
    case 1 => 0x02
    case 2 => 0x04
    case 3 => 0x08
    case 4 => 0x10
    case _ => 0x20
  }

  function WithBit(b: bv8, d: Direction): bv8 {
    b | Bit(d)
  }

  predicate BitSet(b: bv8, d: Direction) {
    b & Bit(d) != 0
  }

  predicate HighClear(b: bv8) {
    b & !FACE_BITS_MASK == 0
  }

  /** Byte b stands for the face states f. */
  predicate Stands(b: bv8, f: CellFaces) {
    HighClear(b) && forall d: Direction :: f[d] == if BitSet(b, d) then FACE_PASSAGE else FACE_WALL
  }

  /** Every cell's states have exactly one byte, and every byte without high bits exactly one cell's states. */
  lemma StandsIsOneToOne(b: bv8, f: CellFaces, b': bv8, f': CellFaces)
    requires Stands(b, f) && Stands(b', f')
    ensures b == b' <==> f == f'
    ensures StatesOk(f)
  {
    if b == b' {
      assert forall d: Direction :: f[d] == f'[d];
      SixAgree(f, f');
    }
    if f == f' {
      forall d: Direction ensures BitSet(b, d) == BitSet(b', d) { assert f[d] == f'[d]; }
      SixBits(b, b');
    }
    forall d: Direction ensures IsState(f[d]) {}
  }

  /** A cell's byte: one for a passage to the first direction, two to the second, and so on, doubling. */
  function ByteOf(f: CellFaces): bv8 {
      (if f[0] == FACE_PASSAGE then 1 else 0) + (if f[1] == FACE_PASSAGE then 2 else 0) + (if f[2] == FACE_PASSAGE then 4 else 0)
    + (if f[3] == FACE_PASSAGE then 8 else 0) + (if f[4] == FACE_PASSAGE then 16 else 0) + (if f[5] == FACE_PASSAGE then 32 else 0)
  }

  /** The stored byte of a cell's states is that byte, and no other. */
  lemma StoredByte(b: bv8, f: CellFaces)
    requires StatesOk(f)
    ensures Stands(b, f) <==> b == ByteOf(f)
  {
    ByteStands(f);
    hide ByteOf;
    if Stands(b, f) { StandsIsOneToOne(b, f, ByteOf(f), f); }
  }

  lemma ByteStands(f: CellFaces)
    requires StatesOk(f)
    ensures Stands(ByteOf(f), f)
  {
    SixBitsOf(f[0] == FACE_PASSAGE, f[1] == FACE_PASSAGE, f[2] == FACE_PASSAGE, f[3] == FACE_PASSAGE, f[4] == FACE_PASSAGE, f[5] == FACE_PASSAGE);
    forall d: Direction ensures IsState(f[d]) {}
    hide BitSet, HighClear;
  }

  lemma SixBitsOf(a: bool, b: bool, c: bool, d: bool, e: bool, f: bool)
    ensures var x: bv8 := (if a then 1 else 0) + (if b then 2 else 0) + (if c then 4 else 0) + (if d then 8 else 0) + (if e then 16 else 0) + if f then 32 else 0;
            && HighClear(x) && (BitSet(x, 0) <==> a) && (BitSet(x, 1) <==> b) && (BitSet(x, 2) <==> c)
            && (BitSet(x, 3) <==> d) && (BitSet(x, 4) <==> e) && (BitSet(x, 5) <==> f)
  {
  }

  lemma SixAgree(f: CellFaces, f': CellFaces)
    requires forall d: Direction :: f[d] == f'[d]
    ensures f == f'
  {
    assert forall i :: 0 <= i < 6 ==> f[i] == f'[i] by {
      forall i | 0 <= i < 6 ensures f[i] == f'[i] { var d: Direction := i; assert f[d] == f'[d]; }
    }
  }

  lemma SixBits(b: bv8, b': bv8)
    requires HighClear(b) && HighClear(b') && forall d: Direction :: BitSet(b, d) == BitSet(b', d)
    ensures b == b'
  {
    assert BitSet(b, 0) == BitSet(b', 0) && BitSet(b, 1) == BitSet(b', 1) && BitSet(b, 2) == BitSet(b', 2);
    assert BitSet(b, 3) == BitSet(b', 3) && BitSet(b, 4) == BitSet(b', 4) && BitSet(b, 5) == BitSet(b', 5);
  }

  /** Blob stands, byte for byte, for the faces. */
  ghost predicate StandsFor(blob: seq<bv8>, faces: seq<CellFaces>) {
    |blob| == |faces| && forall i :: 0 <= i < |blob| ==> Stands(blob[i], faces[i])
  }

  lemma StandsForIsOneToOne(b: seq<bv8>, f: seq<CellFaces>, b': seq<bv8>, f': seq<CellFaces>)
    requires StandsFor(b, f) && StandsFor(b', f')
    ensures b == b' <==> f == f'
    ensures forall i :: 0 <= i < |f| ==> StatesOk(f[i])
  {
    forall i | 0 <= i < |b| && i < |b'|
      ensures (b[i] == b'[i] <==> f[i] == f'[i]) && StatesOk(f[i])
    {
      StandsIsOneToOne(b[i], f[i], b'[i], f'[i]);
    }
    forall i | 0 <= i < |f| ensures StatesOk(f[i]) { StandsIsOneToOne(b[i], f[i], b[i], f[i]); }
  }

  method EncodeCell(f: CellFaces) returns (b: bv8)
    requires StatesOk(f)
    ensures Stands(b, f)
  {
    b := 0;
    assert HighClear(b) && forall k: Direction :: !BitSet(b, k);
    hide BitSet, HighClear, Bit, WithBit;
    for d := 0 to 6
      invariant HighClear(b)
      invariant forall k: Direction :: BitSet(b, k) <==> k < d && f[k] == FACE_PASSAGE
    {
      if f[d] == FACE_PASSAGE {
        SetBit(b, d);
        b := WithBit(b, d);
      }
    }
  }

  lemma SetBit(b: bv8, d: Direction)
    ensures HighClear(b) ==> HighClear(WithBit(b, d))
    ensures forall k: Direction :: BitSet(WithBit(b, d), k) <==> BitSet(b, k) || k == d
  {
    HighOfBit(b, d);
    hide *;
    forall k: Direction
      ensures BitSet(WithBit(b, d), k) <==> BitSet(b, k) || k == d
    {
      SetBitAt(b, d, k);
    }
  }

  lemma SetBitAt(b: bv8, d: Direction, k: Direction)
    ensures BitSet(WithBit(b, d), k) <==> BitSet(b, k) || k == d
  {
    BitsDiffer(d, k);
    var x, y := Bit(d), Bit(k);
    if k == d { OrOwn(b, x); } else { OrOther(b, x, y); }
    hide Bit;
  }

  lemma BitsDiffer(d: Direction, k: Direction)
    ensures Bit(d) != 0 && (k != d ==> Bit(d) & Bit(k) == 0)
  {
  }

  lemma OrOwn(b: bv8, x: bv8)
    ensures (b | x) & x == x
  {
  }

  lemma OrOther(b: bv8, x: bv8, y: bv8)
    requires x & y == 0
    ensures (b | x) & y == b & y
  {
  }

  lemma HighOfBit(b: bv8, d: Direction)
    ensures HighClear(b) ==> HighClear(WithBit(b, d))
  {
  }

  /** encode. */
  method Encode(m: Map) returns (blob: seq<bv8>)
    requires WellFormed(m)
    ensures StandsFor(blob, m.faces)
  {
    hide Stands, StatesOk;
    var cells := ListCells(m.graph.radius);
    blob := [];
    for i := 0 to |cells|
      invariant |blob| == i
      invariant forall k :: 0 <= k < i ==> Stands(blob[k], m.faces[k])
    {
      CellsAreTheHexagon(m.graph.radius);
      assert cells[i] in cells;
      var faces, ok := Faces(m, cells[i]);
      assert m.graph.index[cells[i]] == i;
      var b := EncodeCell(faces);
      blob := blob + [b];
    }
  }

  /** The stored vocabulary, and the generator's own. */
  function ToMaze(typ: string): ChunkType {
    if typ == "fabric" then Fabric else if typ == "gate" then Gate else Unset
  }

  method DecodeCell(b: bv8) returns (f: CellFaces)
    requires HighClear(b)
    ensures Stands(b, f)
  {
    f := [FACE_WALL, FACE_WALL, FACE_WALL, FACE_WALL, FACE_WALL, FACE_WALL];
    for d := 0 to 6
      invariant forall k: Direction :: k < d ==> f[k] == if BitSet(b, k) then FACE_PASSAGE else FACE_WALL
    {
      f := f[d := if b & Bit(d) != 0 then FACE_PASSAGE else FACE_WALL];
    }
  }

  /** m is what the stored row rebuilds. */
  ghost predicate IsStoredAs(m: Map, ch: Chunk, typ: string, version: int, blob: seq<bv8>) {
    && WellFormed(m) && m.chunk == ch && m.typ == ToMaze(typ) && m.version == version && StandsFor(blob, m.faces)
  }

  /**
   decode: gives back exactly the map stored, at the lattice's own radius;
   refuses every row that no map is stored as, and a foreign radius first.
   */
  method Decode(ch: Chunk, typ: string, version: int, blob: seq<bv8>, R: nat) returns (res: MapResult)
    requires R <= MAX_INT32
    ensures res.MapOk? <==> exists m :: IsStoredAs(m, ch, typ, version, blob) && m.graph.radius == R
    ensures res.MapOk? ==> IsStoredAs(res.m, ch, typ, version, blob) && res.m.graph.radius == R
    ensures |blob| != CellCount(R) <==> res.MapErr? && res.error.RadiusMismatch?
    ensures res.MapErr? && res.error.StrayBits? ==> res.error.cell < |blob| && !HighClear(blob[res.error.cell])
  {
    hide IsChunkGraph, CellCount, Stands, HighClear, StatesOk, InteriorAgrees;
    forall m | IsStoredAs(m, ch, typ, version, blob) && m.graph.radius == R
      ensures |blob| == CellCount(R)
    {
      GraphCellCount(m.graph);
    }
    var want := CellCount(R);
    if |blob| != want {
      return MapErr(RadiusMismatch(|blob|, want));
    }
    var mazeType := ToMaze(typ);
    if mazeType == Unset {
      return MapErr(UnknownType);
    }
    var faces: seq<CellFaces> := [];
    for i := 0 to |blob|
      invariant |faces| == i
      invariant forall k :: 0 <= k < i ==> Stands(blob[k], faces[k])
    {
      HighClearOf(blob[i]);
      if blob[i] & !FACE_BITS_MASK != 0 {
        return MapErr(StrayBits(i));
      }
      var f := DecodeCell(blob[i]);
      faces := faces + [f];
    }
    forall m | IsStoredAs(m, ch, typ, version, blob)
      ensures IsRebuilt(m, ch, mazeType, version, faces)
    {
      StandsForIsOneToOne(blob, m.faces, blob, faces);
    }
    res := NewMap(ch, mazeType, version, faces);
    if res.MapOk? {
      GraphCellCount(res.m.graph);
      RadiusUnique(res.m.graph.radius, R);
    }
  }

  lemma HighClearOf(b: bv8)
    ensures HighClear(b) <==> b & !FACE_BITS_MASK == 0
    ensures forall f :: Stands(b, f) ==> HighClear(b)
  {
  }

  /**
   decode after encode: of all maps, only m itself is stored as m's own row.
   encode after decode: of all blobs, only the row's own stands for its map.
   */
  lemma StoredRowIsTheMap(m: Map, m': Map, typ: string, blob: seq<bv8>, blob': seq<bv8>)
    requires WellFormed(m) && ToMaze(typ) == m.typ && StandsFor(blob, m.faces)
    ensures IsStoredAs(m, m.chunk, typ, m.version, blob)
    ensures IsStoredAs(m', m.chunk, typ, m.version, blob) ==> m' == m
    ensures StandsFor(blob', m.faces) ==> blob' == blob
  {
    hide StandsFor;
    if IsStoredAs(m', m.chunk, typ, m.version, blob) {
      StandsForIsOneToOne(blob, m.faces, blob, m'.faces);
      MapDetermined(m, m');
    }
    if StandsFor(blob', m.faces) {
      StandsForIsOneToOne(blob, m.faces, blob', m.faces);
    }
  }

  /** Storing any map and reading it back gives that map. */
  method StoreThenRead(m: Map, typ: string) returns (res: MapResult)
    requires WellFormed(m) && ToMaze(typ) == m.typ
    ensures res == MapOk(m)
  {
    var blob := Encode(m);
    StoredRowIsTheMap(m, m, typ, blob, blob);
    res := Decode(m.chunk, typ, m.version, blob, m.graph.radius);
    StoredRowIsTheMap(m, res.m, typ, blob, blob);
  }

  /** Reading any row a map is stored as and writing that map gives the row's own bytes. */
  method ReadThenStore(ch: Chunk, typ: string, version: int, blob: seq<bv8>, R: nat) returns (res: MapResult, again: seq<bv8>)
    requires R <= MAX_INT32
    ensures res.MapOk? ==> again == blob
  {
    res := Decode(ch, typ, version, blob, R);
    again := [];
    if res.MapOk? {
      again := Encode(res.m);
      StandsForIsOneToOne(blob, res.m.faces, again, res.m.faces);
    }
  }
}
