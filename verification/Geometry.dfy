/** Where everything lies in the plane file (format.rs): slot addressing, the three regions, and the header that pins
    them. */
module Geometry {
  import opened Core
  import opened Arithmetic
  import opened LittleEndian

  const MAGIC: nat := 0x484E_5357
  const VERSION: nat := 8
  const VERSION_INT16: nat := 9
  const HEADER_SIZE: nat := 4096
  const PAGE: nat := 4096
  const KEY_PAYLOAD: nat := 4
  const S_VECTOR: nat := 20
  const U16_MAX: nat := 65535
  const U32: nat := 0x1_0000_0000
  const U64: nat := 0x1_0000_0000_0000_0000

  // Header field offsets.
  const H_MAGIC: nat := 0
  const H_VERSION: nat := 4
  const H_DIMS: nat := 8
  const H_QUANT: nat := 10
  const H_LAYER0_CAP: nat := 12
  const H_SLOT_SIZE: nat := 16
  const H_SLOTS_PER_PAGE: nat := 20
  const H_KEY_CAP: nat := 22
  const H_ENTRY: nat := 24
  const H_ID_HIGH_WATER: nat := 32
  const H_FREELIST_HEAD: nat := 40
  const H_MAX_NODES: nat := 64
  const H_UPPER_FREELIST: nat := 80
  const H_ENTRY_PREV: nat := 88
  const H_KEY_ARENA_PER_NODE: nat := 112

  datatype Quant = Int8 | Int16

  function ElemSize(q: Quant): nat {
    if q.Int8? then 1 else 2
  }

  // A slot's vector in bytes: everything after it is laid out from this, never from the dimension.
  function VectorBytes(dims: nat, q: Quant): nat {
    dims * ElemSize(q)
  }

  function HeaderByte(q: Quant): nat {
    if q.Int8? then 0 else 2
  }

  function VersionOf(q: Quant): nat {
    if q.Int8? then VERSION else VERSION_INT16
  }

  function FromHeader(version: nat, quantByte: nat): Option<Quant> {
    if version == VERSION && quantByte == 0 then Some(Int8)
    else if version == VERSION_INT16 && quantByte == 2 then Some(Int16)
    else None
  }

  // ---- Lengths ----

  function RoundUp(n: nat, unit: nat): nat
    requires unit > 0
  {
    (n + unit - 1) / unit * unit
  }

  function NeighborOffset(vectorBytes: nat): nat {
    S_VECTOR + RoundUp(vectorBytes, 4)
  }

  function KeyOffset(vectorBytes: nat, layer0Cap: nat): nat {
    NeighborOffset(vectorBytes) + layer0Cap * 4
  }

  function SlotSizeFor(vectorBytes: nat, layer0Cap: nat, keyCap: nat): nat {
    RoundUp(KeyOffset(vectorBytes, layer0Cap) + (if keyCap > 0 then KEY_PAYLOAD + keyCap else 0), 64)
  }

  // U_LISTS, then eight levels of a degree word and 64 ids each.
  const UPPER_ENTRY_SIZE: nat := RoundUp(8 + MAX_UPPER_LEVELS * (4 + UPPER_CAP * 4), 64)

  function SlotsPerPageFor(slotSize: nat): nat
    requires slotSize > 0
  {
    if slotSize > PAGE then 0
    else if PAGE - PAGE / slotSize * slotSize <= 128 then PAGE / slotSize
    else 0
  }

  function SlotRegionLen(maxNodes: nat, slotSize: nat, slotsPerPage: nat): nat {
    if slotsPerPage > 0 then (maxNodes + slotsPerPage - 1) / slotsPerPage * PAGE else maxNodes * slotSize
  }

  function KeyArenaLenFor(maxNodes: nat, keyCap: nat, perNode: nat): nat {
    if keyCap == 0 then 0 else if maxNodes * perNode < U64 then maxNodes * perNode else U64 - 1
  }

  datatype Geometry = Geometry(
    dims: nat, quant: Quant, layer0Cap: nat, keyCap: nat, maxNodes: nat, slotSize: nat, slotsPerPage: nat,
    upperOffset: nat, upperCapacity: nat, keyArenaOffset: nat, keyArenaLen: nat, arenaPerNode: nat)

  function Derived(dims: nat, quant: Quant, layer0Cap: nat, keyCap: nat, maxNodes: nat, arenaPerNode: nat): Geometry {
    var slotSize := SlotSizeFor(VectorBytes(dims, quant), layer0Cap, keyCap);
    SlotSizePositive(VectorBytes(dims, quant), layer0Cap, keyCap);
    var slotsPerPage := SlotsPerPageFor(slotSize);
    var upperOffset := HEADER_SIZE + SlotRegionLen(maxNodes, slotSize, slotsPerPage);
    var upperCapacity := maxNodes / 8 + 64;
    Geometry(dims, quant, layer0Cap, keyCap, maxNodes, slotSize, slotsPerPage, upperOffset, upperCapacity,
             upperOffset + upperCapacity * UPPER_ENTRY_SIZE, KeyArenaLenFor(maxNodes, keyCap, arenaPerNode),
               arenaPerNode)
  }

  lemma SlotSizePositive(vectorBytes: nat, layer0Cap: nat, keyCap: nat)
    ensures SlotSizeFor(vectorBytes, layer0Cap, keyCap) >= 64 && SlotSizeFor(vectorBytes, layer0Cap, keyCap) % 64 == 0
    ensures KeyOffset(vectorBytes, layer0Cap) + (if keyCap > 0 then KEY_PAYLOAD + keyCap
            else 0) <= SlotSizeFor(vectorBytes, layer0Cap, keyCap)
    ensures SlotSizeFor(vectorBytes, layer0Cap, keyCap) < KeyOffset(vectorBytes, layer0Cap) + KEY_PAYLOAD + keyCap + 64
  {
  }

  // create_with_options: what it refuses, and the geometry of what it accepts.
  function Create(
    dims: nat, layer0Cap: nat, maxNodes: nat, keyCap: nat, arenaPerNode: nat, quant: Quant): Option<Geometry> {
    if maxNodes >= NO_ID then None
    else if keyCap != 0 && !(KEY_CAP_MIN <= keyCap <= MAX_KEY_LEN) then None
    else if dims == 0 || dims > U16_MAX then None
    else if layer0Cap == 0 || layer0Cap > U16_MAX then None
    else if keyCap > 0 && arenaPerNode < 64 then None
    else
      var g := Derived(dims, quant, layer0Cap, keyCap, maxNodes, if keyCap > 0 then arenaPerNode else 0);
      if FileLen(g) < U64 then Some(g) else None
  }

  function FileLen(g: Geometry): nat {
    g.keyArenaOffset + g.keyArenaLen
  }

  // ---- Addresses ----

  // slot_ptr
  function SlotAt(g: Geometry, id: nat): nat {
    HEADER_SIZE +
    if g.slotsPerPage > 0 then id / g.slotsPerPage * PAGE + id % g.slotsPerPage * g.slotSize else id * g.slotSize
  }

  function UpperAt(g: Geometry, idx: nat): nat {
    g.upperOffset + idx * UPPER_ENTRY_SIZE
  }

  // A geometry that create accepts: it is what create makes of its own numbers.
  predicate Created(g: Geometry) {
    g.arenaPerNode < U32 && Create(g.dims, g.layer0Cap, g.maxNodes, g.keyCap, g.arenaPerNode, g.quant) == Some(g)
  }

  lemma CreateMakesCreated(dims: nat, layer0Cap: nat, maxNodes: nat, keyCap: nat, arenaPerNode: nat, quant: Quant)
    requires arenaPerNode < U32 && Create(dims, layer0Cap, maxNodes, keyCap, arenaPerNode, quant).Some?
    ensures Created(Create(dims, layer0Cap, maxNodes, keyCap, arenaPerNode, quant).value)
  {
    hide VectorBytes, SlotSizeFor, SlotRegionLen, KeyArenaLenFor, SlotsPerPageFor, FileLen;
  }

  // What slot addressing rests on: create establishes it, and open checks it.
  ghost predicate SlotsOk(g: Geometry) {
    && g.slotSize >= 64 && g.slotSize % 64 == 0
    && g.slotsPerPage == SlotsPerPageFor(g.slotSize)
    && g.upperOffset == HEADER_SIZE + SlotRegionLen(g.maxNodes, g.slotSize, g.slotsPerPage)
  }

  // What create leaves is determined by six numbers, all in range.
  lemma CreatedDerived(g: Geometry)
    requires Created(g)
    ensures g == Derived(g.dims, g.quant, g.layer0Cap, g.keyCap, g.maxNodes, g.arenaPerNode) && FileLen(g) < U64
    ensures 1 <= g.dims <= U16_MAX && 1 <= g.layer0Cap <= U16_MAX && g.maxNodes < NO_ID && g.arenaPerNode < U32
    ensures g.keyCap == 0 || (KEY_CAP_MIN <= g.keyCap <= MAX_KEY_LEN && g.arenaPerNode >= 64)
    ensures g.keyCap == 0 ==> g.arenaPerNode == 0
  {
    hide VectorBytes, SlotSizeFor, SlotRegionLen, KeyArenaLenFor, SlotsPerPageFor;
  }

  lemma CreatedSlots(g: Geometry)
    requires Created(g)
    ensures SlotsOk(g)
  {
    CreatedDerived(g);
    hide *;
    DerivedSlots(g);
  }

  lemma DerivedSlots(g: Geometry)
    requires g == Derived(g.dims, g.quant, g.layer0Cap, g.keyCap, g.maxNodes, g.arenaPerNode)
    ensures SlotsOk(g)
  {
    SlotSizePositive(VectorBytes(g.dims, g.quant), g.layer0Cap, g.keyCap);
    hide VectorBytes, SlotSizeFor, SlotRegionLen, KeyArenaLenFor, SlotsPerPageFor, KeyOffset, NeighborOffset;
  }

  // A page holds the slots it is given.
  lemma PerPageFits(slotSize: nat)
    requires slotSize >= 64
    ensures SlotsPerPageFor(slotSize) * slotSize <= PAGE && SlotsPerPageFor(slotSize) <= 64
  {
    DivMod(PAGE, slotSize);
    MulMono(64, slotSize, PAGE / slotSize);
  }

  // The slot's place: its page, and where in the page, when grouped.
  lemma GroupedPlace(g: Geometry, id: nat)
    requires SlotsOk(g) && g.slotsPerPage > 0
    ensures var inPage := id % g.slotsPerPage * g.slotSize;
            && SlotAt(g, id) == HEADER_SIZE + id / g.slotsPerPage * PAGE + inPage
            && 0 <= inPage && inPage + g.slotSize <= PAGE
  {
    var r := id % g.slotsPerPage;
    DivMod(id, g.slotsPerPage);
    MulMono(r + 1, g.slotsPerPage, g.slotSize);
    MulSucc(r, g.slotSize);
    MulMono(0, r, g.slotSize);
    PerPageFits(g.slotSize);
  }

  // Different slots share no byte.
  lemma SlotsDisjoint(g: Geometry, a: nat, b: nat)
    requires SlotsOk(g) && a < b
    ensures SlotAt(g, a) + g.slotSize <= SlotAt(g, b)
  {
    if g.slotsPerPage > 0 {
      GroupedPlace(g, a);
      GroupedPlace(g, b);
      var n := g.slotsPerPage;
      DivMod(a, n);
      DivMod(b, n);
      var pa, pb := a / n, b / n;
      if pa < pb {
        MulMono(pa + 1, pb, PAGE);
      } else {
        MulMono(pb, pa, n);
        if pb < pa {
          MulMono(pb + 1, pa, n);
          MulSucc(pb, n);
        }
        MulMono(a % n + 1, b % n, g.slotSize);
        MulSucc(a % n, g.slotSize);
      }
    } else {
      MulMono(a + 1, b, g.slotSize);
      MulSucc(a, g.slotSize);
    }
  }

  // Every slot is cache-line aligned, lies inside the slot region, and when grouped lies inside one page.
  lemma SlotPlaced(g: Geometry, id: nat)
    requires SlotsOk(g) && id < g.maxNodes
    ensures SlotAt(g, id) % 64 == 0
    ensures HEADER_SIZE <= SlotAt(g, id) && SlotAt(g, id) + g.slotSize <= g.upperOffset
    ensures g.slotsPerPage > 0 ==> SlotAt(g, id) / PAGE == (SlotAt(g, id) + g.slotSize - 1) / PAGE
  {
    Aligned(g, id);
    if g.slotsPerPage > 0 {
      PlacedGrouped(g, id);
    } else {
      PlacedPacked(g, id);
    }
    hide *;
  }

  lemma PlacedGrouped(g: Geometry, id: nat)
    requires SlotsOk(g) && id < g.maxNodes && g.slotsPerPage > 0
    ensures HEADER_SIZE <= SlotAt(g, id) && SlotAt(g, id) + g.slotSize <= g.upperOffset
    ensures SlotAt(g, id) / PAGE == (SlotAt(g, id) + g.slotSize - 1) / PAGE
  {
    GroupedPlace(g, id);
    var n := g.slotsPerPage;
    var page, inPage := id / n, id % n * g.slotSize;
    OnePage(page, inPage, g.slotSize);
    LastPage(id, g.maxNodes, n);
    var pages := (g.maxNodes + n - 1) / n;
    assert g.upperOffset == HEADER_SIZE + pages * PAGE;
    hide SlotsOk, SlotAt, SlotsPerPageFor, SlotRegionLen;
    MulMono(page + 1, pages, PAGE);
    MulMono(0, page, PAGE);
  }

  lemma PlacedPacked(g: Geometry, id: nat)
    requires SlotsOk(g) && id < g.maxNodes && g.slotsPerPage == 0
    ensures HEADER_SIZE <= SlotAt(g, id) && SlotAt(g, id) + g.slotSize <= g.upperOffset
  {
    MulMono(id + 1, g.maxNodes, g.slotSize);
    MulSucc(id, g.slotSize);
    MulMono(0, id, g.slotSize);
    hide SlotsPerPageFor;
  }

  lemma OnePage(page: nat, inPage: nat, size: nat)
    requires 0 < size && inPage + size <= PAGE
    ensures (HEADER_SIZE + page * PAGE + inPage) / PAGE == (HEADER_SIZE + page * PAGE + inPage + size - 1) / PAGE
  {
    DivUnique(HEADER_SIZE + page * PAGE + inPage, PAGE, page + 1, inPage);
    DivUnique(HEADER_SIZE + page * PAGE + inPage + size - 1, PAGE, page + 1, inPage + size - 1);
  }

  // The page of the last id is within the pages reserved.
  lemma LastPage(id: nat, maxNodes: nat, n: nat)
    requires id < maxNodes && n > 0
    ensures id / n + 1 <= (maxNodes + n - 1) / n
  {
    DivMod(id, n);
    DivMod(maxNodes + n - 1, n);
    var q := (maxNodes + n - 1) / n;
    MulSucc(q, n);
    MulSucc(id / n, n);
    if id / n + 1 > q {
      MulMono(q, id / n, n);
    }
  }

  lemma Aligned(g: Geometry, id: nat)
    requires SlotsOk(g)
    ensures SlotAt(g, id) % 64 == 0
  {
    DivMod(g.slotSize, 64);
    var k := g.slotSize / 64;
    if g.slotsPerPage > 0 {
      var r := id % g.slotsPerPage;
      DivMod(id, g.slotsPerPage);
      assert r * g.slotSize == r * (k * 64) == (r * k) * 64;
      MulNonNegative(r, k);
      Multiple(SlotAt(g, id), 64 + id / g.slotsPerPage * 64 + r * k);
    } else {
      assert id * g.slotSize == id * (k * 64) == (id * k) * 64;
      MulNonNegative(id, k);
      Multiple(SlotAt(g, id), 64 + id * k);
    }
  }

  lemma Multiple(x: nat, k: nat)
    requires x == k * 64
    ensures x % 64 == 0
  {
  }

  // Header, slots, upper entries and arena follow each other without overlap, and end where the file ends.
  lemma RegionsDisjoint(g: Geometry)
    requires Created(g)
    ensures HEADER_SIZE <= g.upperOffset && g.upperOffset + g.upperCapacity * UPPER_ENTRY_SIZE == g.keyArenaOffset
    ensures g.keyArenaOffset + g.keyArenaLen == FileLen(g) < U64
    ensures forall i: nat, j: nat :: i < j < g.upperCapacity ==> UpperAt(g, i) + UPPER_ENTRY_SIZE <= UpperAt(g, j)
    ensures forall i: nat ::
            i < g.upperCapacity ==>
            g.upperOffset <= UpperAt(g, i) && UpperAt(g, i) + UPPER_ENTRY_SIZE <= g.keyArenaOffset
  {
    CreatedDerived(g);
    hide Created, SlotSizeFor, KeyArenaLenFor, SlotsPerPageFor, SlotRegionLen;
    forall i: nat, j: nat | i < j < g.upperCapacity ensures UpperAt(g, i) + UPPER_ENTRY_SIZE <= UpperAt(g, j) {
      MulMono(i + 1, j, UPPER_ENTRY_SIZE);
      MulSucc(i, UPPER_ENTRY_SIZE);
    }
    forall i: nat | i < g.upperCapacity
      ensures g.upperOffset <= UpperAt(g, i) && UpperAt(g, i) + UPPER_ENTRY_SIZE <= g.keyArenaOffset {
      MulMono(i + 1, g.upperCapacity, UPPER_ENTRY_SIZE);
      MulSucc(i, UPPER_ENTRY_SIZE);
      MulMono(0, i, UPPER_ENTRY_SIZE);
    }
  }

  // Inside a slot: the vector, the 4-aligned neighbour array and the 4-aligned key field, in that order and in bounds.
  lemma SlotFields(g: Geometry)
    requires Created(g)
    ensures var vectorBytes := VectorBytes(g.dims, g.quant);
            && S_VECTOR + vectorBytes <= NeighborOffset(vectorBytes) && NeighborOffset(vectorBytes) % 4 == 0
            && NeighborOffset(vectorBytes) + 4 * g.layer0Cap == KeyOffset(vectorBytes, g.layer0Cap)
            && KeyOffset(vectorBytes, g.layer0Cap) % 4 == 0
            && KeyOffset(vectorBytes, g.layer0Cap) + (if g.keyCap > 0 then KEY_PAYLOAD + g.keyCap else 0) <= g.slotSize
  {
    CreatedDerived(g);
    hide Created, SlotSizeFor, KeyArenaLenFor, SlotsPerPageFor, SlotRegionLen, NeighborOffset, KeyOffset;
    SlotSizePositive(VectorBytes(g.dims, g.quant), g.layer0Cap, g.keyCap);
    FieldsAligned(VectorBytes(g.dims, g.quant), g.layer0Cap);
  }

  lemma FieldsAligned(vectorBytes: nat, layer0Cap: nat)
    ensures S_VECTOR + vectorBytes <= NeighborOffset(vectorBytes) && NeighborOffset(vectorBytes) % 4 == 0
    ensures NeighborOffset(vectorBytes) + 4 * layer0Cap == KeyOffset(vectorBytes, layer0Cap)
    ensures KeyOffset(vectorBytes, layer0Cap) % 4 == 0
  {
  }

  // ---- The header ----

  datatype Field = Field(at: nat, bytes: seq<Byte>)

  // What create writes, in its order: geometry and allocator state, then the version, the magic last.
  function HeaderFields(g: Geometry): seq<Field> {
    [Field(H_DIMS, Le2(g.dims)), Field(H_QUANT, [ByteOf(HeaderByte(g.quant))]), Field(H_LAYER0_CAP, Le2(g.layer0Cap)),
     Field(H_SLOT_SIZE, Le4(g.slotSize)), Field(H_SLOTS_PER_PAGE, Le2(g.slotsPerPage)), Field(H_KEY_CAP, Le2(g.keyCap)),
     Field(H_KEY_ARENA_PER_NODE, Le4(g.arenaPerNode)), Field(H_ENTRY, Le8(NO_ID)), Field(H_FREELIST_HEAD, Le8(NO_ID)),
     Field(H_MAX_NODES, Le8(g.maxNodes)), Field(H_UPPER_FREELIST, Le8(NO_ID)), Field(H_ENTRY_PREV, Le8(NO_ID)),
     Field(H_VERSION, Le4(VersionOf(g.quant))), Field(H_MAGIC, Le4(MAGIC))]
  }

  function WriteFields(header: seq<Byte>, fields: seq<Field>): (r: seq<Byte>)
    ensures |r| == |header|
    decreases |fields|
  {
    if fields == [] then header else WriteFields(Overwrite(header, fields[0].at, fields[0].bytes), fields[1..])
  }

  // A fresh file is zeros.
  function HeaderOf(g: Geometry): seq<Byte> {
    WriteFields(seq(HEADER_SIZE, _ => 0), HeaderFields(g))
  }

  function At2(h: seq<Byte>, at: nat): nat
    requires at + 2 <= |h|
  {
    FromLe2(h[at..at + 2])
  }

  function At4(h: seq<Byte>, at: nat): nat
    requires at + 4 <= |h|
  {
    FromLe4(h[at..at + 4])
  }

  function At8(h: seq<Byte>, at: nat): nat
    requires at + 8 <= |h|
  {
    FromLe8(h[at..at + 8])
  }

  // open_for_invalidation, up to the kernel calls: the geometry a file is adopted with, if it is.
  function Open(file: seq<Byte>, fileLen: nat): Option<Geometry> {
    if fileLen < HEADER_SIZE || |file| < HEADER_SIZE then None
    else if At4(file, H_MAGIC) != MAGIC then None
    else
      match FromHeader(At4(file, H_VERSION), file[H_QUANT])
      case None => None
      case Some(quant) => OpenAs(file, fileLen, quant)
  }

  function OpenAs(file: seq<Byte>, fileLen: nat, quant: Quant): Option<Geometry>
    requires |file| >= HEADER_SIZE
  {
    var dims, layer0Cap := At2(file, H_DIMS), At2(file, H_LAYER0_CAP);
    var slotSize, slotsPerPage := At4(file, H_SLOT_SIZE), At2(file, H_SLOTS_PER_PAGE);
    var maxNodes, keyCap, arenaPerNode := At8(file, H_MAX_NODES), At2(file, H_KEY_CAP), At4(file, H_KEY_ARENA_PER_NODE);
    if keyCap != 0 && keyCap < KEY_CAP_MIN then None
    else if dims == 0 || slotSize == 0 || slotSize != SlotSizeFor(VectorBytes(dims, quant), layer0Cap, keyCap) then None
    else if maxNodes > NO_ID || slotsPerPage != SlotsPerPageFor(slotSize) then None
    else if keyCap > 0 && arenaPerNode < 64 then None
    else
      var g := Derived(dims, quant, layer0Cap, keyCap, maxNodes, arenaPerNode);
      if FileLen(g) >= U64 || fileLen < FileLen(g) || At8(file, H_ID_HIGH_WATER) > maxNodes then None else Some(g)
  }

  predicate Apart(a: Field, b: Field) {
    a.at + |a.bytes| <= b.at || b.at + |b.bytes| <= a.at
  }

  ghost predicate FieldsApart(fields: seq<Field>) {
    forall i, j :: 0 <= i < j < |fields| ==> Apart(fields[i], fields[j])
  }

  // Bytes that no field touches keep their value.
  lemma {:induction false} WriteKeeps(header: seq<Byte>, fields: seq<Field>, from: nat, n: nat)
    requires from + n <= |header|
    requires forall i :: 0 <= i < |fields| ==> from + n <= fields[i].at || fields[i].at + |fields[i].bytes| <= from
    ensures WriteFields(header, fields)[from..from + n] == header[from..from + n]
    decreases |fields|
  {
    if fields != [] {
      OverwriteKeeps(header, fields[0].at, fields[0].bytes, from, n);
      WriteKeeps(Overwrite(header, fields[0].at, fields[0].bytes), fields[1..], from, n);
    }
  }

  // Fields that do not overlap all read back as written.
  lemma {:induction false} WriteHolds(header: seq<Byte>, fields: seq<Field>, i: nat)
    requires i < |fields| && FieldsApart(fields) && fields[i].at + |fields[i].bytes| <= |header|
    ensures WriteFields(header, fields)[fields[i].at..fields[i].at + |fields[i].bytes|] == fields[i].bytes
    decreases |fields|
  {
    var next := Overwrite(header, fields[0].at, fields[0].bytes);
    hide Overwrite;
    if i == 0 {
      OverwriteHolds(header, fields[0].at, fields[0].bytes);
      assert forall j :: 0 <= j < |fields| - 1 ==> Apart(fields[0], fields[1..][j]);
      WriteKeeps(next, fields[1..], fields[0].at, |fields[0].bytes|);
    } else {
      WriteHolds(next, fields[1..], i - 1);
    }
  }

  // Where each field lies, in writing order.
  const SPANS: seq<(nat, nat)> :=
    [(H_DIMS, 2), (H_QUANT, 1), (H_LAYER0_CAP, 2), (H_SLOT_SIZE, 4), (H_SLOTS_PER_PAGE, 2), (H_KEY_CAP, 2),
      (H_KEY_ARENA_PER_NODE, 4),
     (H_ENTRY, 8), (H_FREELIST_HEAD, 8), (H_MAX_NODES, 8), (H_UPPER_FREELIST, 8), (H_ENTRY_PREV, 8), (H_VERSION, 4),
       (H_MAGIC, 4)]

  lemma FieldSpans(g: Geometry)
    ensures |HeaderFields(g)| == |SPANS| == 14
    ensures forall i :: 0 <= i < 14 ==> HeaderFields(g)[i].at == SPANS[i].0 && |HeaderFields(g)[i].bytes| == SPANS[i].1
  {
    assert |Le2(g.dims)| == |Le2(g.layer0Cap)| == |Le2(g.slotsPerPage)| == |Le2(g.keyCap)| == 2;
    assert |Le4(g.slotSize)| == |Le4(g.arenaPerNode)| == |Le4(VersionOf(g.quant))| == |Le4(MAGIC)| == 4;
    assert |Le8(NO_ID)| == |Le8(g.maxNodes)| == 8;
    hide Le2, Le4, Le8;
  }

  lemma SpansApart()
    ensures |SPANS| == 14
    ensures forall i, j ::
            0 <= i < j < 14 ==> SPANS[i].0 + SPANS[i].1 <= SPANS[j].0 || SPANS[j].0 + SPANS[j].1 <= SPANS[i].0
    ensures forall i :: 0 <= i < 14 ==> SPANS[i].0 + SPANS[i].1 <= 116
    ensures forall i :: 0 <= i < 14 ==> SPANS[i].0 + SPANS[i].1 <= H_ID_HIGH_WATER || H_ID_HIGH_WATER + 8 <= SPANS[i].0
  {
  }

  lemma HeaderFieldsApart(g: Geometry)
    ensures FieldsApart(HeaderFields(g)) && |HeaderFields(g)| == 14
    ensures forall i :: 0 <= i < 14 ==> HeaderFields(g)[i].at + |HeaderFields(g)[i].bytes| <= 116
    ensures forall i ::
            0 <= i < 14 ==>
            HeaderFields(g)[i].at + |HeaderFields(g)[i].bytes| <= H_ID_HIGH_WATER
            || H_ID_HIGH_WATER + 8 <= HeaderFields(g)[i].at
  {
    hide HeaderFields, SPANS;
    FieldSpans(g);
    SpansApart();
  }

  lemma Le1(q: Quant)
    ensures ByteOf(HeaderByte(q)) == HeaderByte(q)
  {
  }

  lemma FieldReads(g: Geometry, i: nat)
    requires i < 14
    ensures var f := HeaderFields(g)[i];
            f.at + |f.bytes| <= |HeaderOf(g)| == HEADER_SIZE && HeaderOf(g)[f.at..f.at + |f.bytes|] == f.bytes
  {
    hide HeaderFields;
    HeaderFieldsApart(g);
    WriteHolds(seq(HEADER_SIZE, _ => 0), HeaderFields(g), i);
  }

  lemma Decodes2(h: seq<Byte>, at: nat, v: nat)
    requires |Le2(v)| == 2 && at + 2 <= |h| && h[at..at + 2] == Le2(v) && v < 0x1_0000
    ensures At2(h, at) == v
  {
    Le2RoundTrip(v);
    hide Le2, Le4, Le8, FromLe2, FromLe4, FromLe8;
  }

  lemma Reads2(g: Geometry, i: nat, v: nat)
    requires i < 14 && HeaderFields(g)[i].bytes == Le2(v) && v < 0x1_0000
    ensures HeaderFields(g)[i].at + 2 <= |HeaderOf(g)| && At2(HeaderOf(g), HeaderFields(g)[i].at) == v
  {
    assert |Le2(v)| == 2;
    hide HeaderOf, HeaderFields, Le2, Le4, Le8, FromLe2, FromLe4, FromLe8, At2, At4, At8;
    FieldReads(g, i);
    Decodes2(HeaderOf(g), HeaderFields(g)[i].at, v);
  }

  lemma Decodes4(h: seq<Byte>, at: nat, v: nat)
    requires |Le4(v)| == 4 && at + 4 <= |h| && h[at..at + 4] == Le4(v) && v < U32
    ensures At4(h, at) == v
  {
    Le4RoundTrip(v);
    hide Le2, Le4, Le8, FromLe2, FromLe4, FromLe8;
  }

  lemma Reads4(g: Geometry, i: nat, v: nat)
    requires i < 14 && HeaderFields(g)[i].bytes == Le4(v) && v < U32
    ensures HeaderFields(g)[i].at + 4 <= |HeaderOf(g)| && At4(HeaderOf(g), HeaderFields(g)[i].at) == v
  {
    assert |Le4(v)| == 4;
    hide HeaderOf, HeaderFields, Le2, Le4, Le8, FromLe2, FromLe4, FromLe8, At2, At4, At8;
    FieldReads(g, i);
    Decodes4(HeaderOf(g), HeaderFields(g)[i].at, v);
  }

  lemma Decodes8(h: seq<Byte>, at: nat, v: nat)
    requires |Le8(v)| == 8 && at + 8 <= |h| && h[at..at + 8] == Le8(v) && v < U64
    ensures At8(h, at) == v
  {
    Le8RoundTrip(v);
    hide Le2, Le4, Le8, FromLe2, FromLe4, FromLe8;
  }

  lemma Reads8(g: Geometry, i: nat, v: nat)
    requires i < 14 && HeaderFields(g)[i].bytes == Le8(v) && v < U64
    ensures HeaderFields(g)[i].at + 8 <= |HeaderOf(g)| && At8(HeaderOf(g), HeaderFields(g)[i].at) == v
  {
    assert |Le8(v)| == 8;
    hide HeaderOf, HeaderFields, Le2, Le4, Le8, FromLe2, FromLe4, FromLe8, At2, At4, At8;
    FieldReads(g, i);
    Decodes8(HeaderOf(g), HeaderFields(g)[i].at, v);
  }

  // The header reads back field by field; what create does not write is zero.
  lemma HeaderReads(g: Geometry)
    requires g.dims < 0x1_0000 && g.layer0Cap < 0x1_0000 && g.slotsPerPage < 0x1_0000 && g.keyCap < 0x1_0000
    requires g.slotSize < U32 && g.arenaPerNode < U32 && g.maxNodes < U64
    ensures var h := HeaderOf(g);
            && |h| == HEADER_SIZE && At4(h, H_MAGIC) == MAGIC && At4(h, H_VERSION) == VersionOf(g.quant)
              && h[H_QUANT] == HeaderByte(g.quant)
            && At2(h, H_DIMS) == g.dims && At2(h, H_LAYER0_CAP) == g.layer0Cap && At4(h, H_SLOT_SIZE) == g.slotSize
            && At2(h, H_SLOTS_PER_PAGE) == g.slotsPerPage && At2(h, H_KEY_CAP) == g.keyCap
            && At4(h, H_KEY_ARENA_PER_NODE) == g.arenaPerNode && At8(h, H_MAX_NODES) == g.maxNodes
            && At8(h, H_ID_HIGH_WATER) == 0
  {
    hide HeaderOf, Le2, Le4, Le8, At2, At4, At8;
    Reads2(g, 0, g.dims);
    QuantReads(g);
    Reads2(g, 2, g.layer0Cap);
    Reads4(g, 3, g.slotSize);
    Reads2(g, 4, g.slotsPerPage);
    Reads2(g, 5, g.keyCap);
    Reads4(g, 6, g.arenaPerNode);
    Reads8(g, 9, g.maxNodes);
    Reads4(g, 12, VersionOf(g.quant));
    Reads4(g, 13, MAGIC);
    HighWaterReads(g);
  }

  lemma QuantReads(g: Geometry)
    ensures |HeaderOf(g)| == HEADER_SIZE && HeaderOf(g)[H_QUANT] == HeaderByte(g.quant)
  {
    FieldReads(g, 1);
    Le1(g.quant);
    assert HeaderOf(g)[H_QUANT] == HeaderOf(g)[H_QUANT..H_QUANT + 1][0];
  }

  lemma HighWaterReads(g: Geometry)
    ensures |HeaderOf(g)| == HEADER_SIZE && At8(HeaderOf(g), H_ID_HIGH_WATER) == 0
  {
    HeaderFieldsApart(g);
    WriteKeeps(seq(HEADER_SIZE, _ => 0), HeaderFields(g), H_ID_HIGH_WATER, 8);
    ZeroReads(HeaderOf(g));
  }

  lemma ZeroReads(h: seq<Byte>)
    requires |h| == HEADER_SIZE && h[H_ID_HIGH_WATER..H_ID_HIGH_WATER + 8] ==
             seq(HEADER_SIZE, _ => 0)[H_ID_HIGH_WATER..H_ID_HIGH_WATER + 8]
    ensures At8(h, H_ID_HIGH_WATER) == 0
  {
    var bytes := h[H_ID_HIGH_WATER..H_ID_HIGH_WATER + 8];
    assert bytes == [0, 0, 0, 0, 0, 0, 0, 0];
    assert bytes == Le8(0);
    Le8RoundTrip(0);
  }

  // Opening what create wrote recovers the very geometry, given a file at least as long as create made it.
  lemma OpenRecovers(g: Geometry, fileLen: nat)
    requires Created(g) && fileLen >= FileLen(g)
    ensures Open(HeaderOf(g), fileLen) == Some(g)
  {
    hide Created, HeaderOf, Derived, FileLen, SlotSizeFor, SlotsPerPageFor, Open, OpenAs, At2, At4, At8;
    CreatedNumbers(g);
    HeaderReads(g);
    OpenAsIs(HeaderOf(g), fileLen, g);
    OpenIs(HeaderOf(g), fileLen, g.quant);
  }

  // Whatever create accepts, a later open of at least that many bytes adopts, with every number as it was given.
  lemma CreateThenOpen(
    dims: nat, layer0Cap: nat, maxNodes: nat, keyCap: nat, arenaPerNode: nat, quant: Quant, fileLen: nat)
    requires arenaPerNode < U32 && Create(dims, layer0Cap, maxNodes, keyCap, arenaPerNode, quant).Some?
    ensures var g := Create(dims, layer0Cap, maxNodes, keyCap, arenaPerNode, quant).value;
            && g.dims == dims && g.layer0Cap == layer0Cap && g.maxNodes == maxNodes && g.keyCap == keyCap
              && g.quant == quant
            && Open(HeaderOf(g), fileLen) == if fileLen >= FileLen(g) then Some(g) else None
  {
    var g := Create(dims, layer0Cap, maxNodes, keyCap, arenaPerNode, quant).value;
    CreateMakesCreated(dims, layer0Cap, maxNodes, keyCap, arenaPerNode, quant);
    OpenRecovers(g, FileLen(g));
    if fileLen >= FileLen(g) {
      OpenRecovers(g, fileLen);
    } else {
      OpenShort(HeaderOf(g), FileLen(g), fileLen);
    }
    hide HeaderOf, Open, SlotSizeFor, SlotRegionLen, KeyArenaLenFor, SlotsPerPageFor, FileLen;
  }

  // A file shorter than its header says is refused.
  lemma OpenShort(file: seq<Byte>, whole: nat, fileLen: nat)
    requires Open(file, whole).Some? && FileLen(Open(file, whole).value) == whole && fileLen < whole
    ensures Open(file, fileLen).None?
  {
    hide SlotSizeFor, SlotRegionLen, KeyArenaLenFor, SlotsPerPageFor, At2, At4, At8;
  }

  lemma CreatedNumbers(g: Geometry)
    requires Created(g)
    ensures g == Derived(g.dims, g.quant, g.layer0Cap, g.keyCap, g.maxNodes, g.arenaPerNode)
    ensures HEADER_SIZE <= FileLen(g) < U64 && 0 < g.slotSize < U32 && g.slotsPerPage <= 64
    ensures 0 < g.dims <= U16_MAX && g.layer0Cap <= U16_MAX && g.keyCap <= U16_MAX && g.arenaPerNode < U32
            && g.maxNodes < NO_ID
    ensures g.keyCap == 0 || (KEY_CAP_MIN <= g.keyCap && g.arenaPerNode >= 64)
    ensures g.slotSize == SlotSizeFor(VectorBytes(g.dims, g.quant), g.layer0Cap, g.keyCap)
    ensures g.slotsPerPage == SlotsPerPageFor(g.slotSize)
  {
    CreatedDerived(g);
    CreatedSlots(g);
    FileHolds(g);
    hide Created, VectorBytes, SlotSizeFor, SlotsPerPageFor, SlotRegionLen, KeyArenaLenFor, FileLen;
    PerPageFits(g.slotSize);
    SlotSizeFits(g);
  }

  lemma FileHolds(g: Geometry)
    requires Created(g)
    ensures HEADER_SIZE <= FileLen(g) < U64
  {
    RegionsDisjoint(g);
    hide Created;
    MulNonNegative(g.upperCapacity, UPPER_ENTRY_SIZE);
  }

  lemma OpenAsIs(file: seq<Byte>, fileLen: nat, g: Geometry)
    requires |file| >= HEADER_SIZE && fileLen >= FileLen(g) && FileLen(g) < U64
    requires At2(file, H_DIMS) == g.dims && At2(file, H_LAYER0_CAP) == g.layer0Cap
             && At4(file, H_SLOT_SIZE) == g.slotSize
    requires At2(file, H_SLOTS_PER_PAGE) == g.slotsPerPage && At2(file, H_KEY_CAP) == g.keyCap
    requires At4(file, H_KEY_ARENA_PER_NODE) == g.arenaPerNode && At8(file, H_MAX_NODES) == g.maxNodes
             && At8(file, H_ID_HIGH_WATER) == 0
    requires g.dims > 0 && g.slotSize > 0 && g.slotSize ==
             SlotSizeFor(VectorBytes(g.dims, g.quant), g.layer0Cap, g.keyCap)
    requires g.slotsPerPage == SlotsPerPageFor(g.slotSize) && g.maxNodes <= NO_ID
    requires g.keyCap == 0 || (KEY_CAP_MIN <= g.keyCap && g.arenaPerNode >= 64)
    requires g == Derived(g.dims, g.quant, g.layer0Cap, g.keyCap, g.maxNodes, g.arenaPerNode)
    ensures OpenAs(file, fileLen, g.quant) == Some(g)
  {
    hide At2, At4, At8, SlotSizeFor, SlotsPerPageFor, Derived, FileLen;
  }

  lemma OpenIs(file: seq<Byte>, fileLen: nat, quant: Quant)
    requires |file| >= HEADER_SIZE && fileLen >= HEADER_SIZE
    requires At4(file, H_MAGIC) == MAGIC && At4(file, H_VERSION) == VersionOf(quant)
             && file[H_QUANT] == HeaderByte(quant)
    ensures Open(file, fileLen) == OpenAs(file, fileLen, quant)
  {
    hide At4, OpenAs;
  }

  lemma SlotSizeFits(g: Geometry)
    requires g.dims <= U16_MAX && g.layer0Cap <= U16_MAX && g.keyCap <= U16_MAX
    requires g.slotSize == SlotSizeFor(VectorBytes(g.dims, g.quant), g.layer0Cap, g.keyCap)
    ensures g.slotSize < U32
  {
    SlotSizePositive(VectorBytes(g.dims, g.quant), g.layer0Cap, g.keyCap);
  }

  // A file is adopted only with the right magic, one of the two known version and codec pairs, and its full length.
  lemma OpenRefuses(file: seq<Byte>, fileLen: nat)
    ensures Open(file, fileLen).Some? ==>
              && |file| >= HEADER_SIZE && At4(file, H_MAGIC) == MAGIC
              && ((At4(file, H_VERSION) == 8 && file[H_QUANT] == 0)
                || (At4(file, H_VERSION) == 9 && file[H_QUANT] == 2))
              && FileLen(Open(file, fileLen).value) <= fileLen
              && (Open(file, fileLen).value.quant.Int8? <==> At4(file, H_VERSION) == 8)
  {
  }

  // What open adopts addresses its slots by the same rules, whoever wrote the header.
  lemma OpenedSlots(file: seq<Byte>, fileLen: nat)
    ensures Open(file, fileLen).Some? ==> SlotsOk(Open(file, fileLen).value)
  {
    if Open(file, fileLen).Some? {
      var g := Open(file, fileLen).value;
      SlotSizePositive(VectorBytes(g.dims, g.quant), g.layer0Cap, g.keyCap);
      hide SlotSizeFor, SlotRegionLen, KeyArenaLenFor, SlotsPerPageFor, At2, At4, At8;
    }
  }
}
