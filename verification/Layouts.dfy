/** The numbers behind a plane file's layout: which geometries create accepts, how slots fill pages, how many bytes a
    stored vector takes, and where in the header each number stands. */
module Layouts {
  import opened Core
  import opened Arithmetic
  import opened LittleEndian
  import opened Geometry
  import Dot

  // A vector as its slot holds it: a byte, or two in little-endian order, for each component.
  function StoredBytes(q: seq<int>, quant: Quant): seq<int> {
    if quant.Int8? then seq(|q|, i requires 0 <= i < |q| => q[i] % 256) else Dot.Bytes(q)
  }

  // It takes just the bytes that the rest of the slot is laid out after.
  lemma VectorFillsItsBytes(q: seq<int>, quant: Quant)
    ensures |StoredBytes(q, quant)| == VectorBytes(|q|, quant)
  {
  }

  // What the arena would take if lengths had no bound.
  function WholeArena(maxNodes: nat, keyCap: nat, arenaPerNode: nat): nat {
    if keyCap == 0 then 0 else maxNodes * arenaPerNode
  }

  // Header page, slots, an upper entry for every eighth node and 64 more, arena.
  function WholeLen(dims: nat, layer0Cap: nat, maxNodes: nat, keyCap: nat, arenaPerNode: nat, quant: Quant): nat {
    var slotSize := SlotSizeFor(VectorBytes(dims, quant), layer0Cap, keyCap);
    SlotSizePositive(VectorBytes(dims, quant), layer0Cap, keyCap);
    4096 + SlotRegionLen(maxNodes, slotSize, SlotsPerPageFor(slotSize)) + (maxNodes / 8 + 64) * 2112
      + WholeArena(maxNodes, keyCap, arenaPerNode)
  }

  // Create accepts just the numbers in range whose file fits a 64-bit length; an arena length that would not is never
  // taken for a small one.
  lemma CreateAcceptsExactly(
    dims: nat, layer0Cap: nat, maxNodes: nat, keyCap: nat, arenaPerNode: nat, quant: Quant)
    ensures Create(dims, layer0Cap, maxNodes, keyCap, arenaPerNode, quant).Some? <==>
              && 1 <= dims <= 65535 && 1 <= layer0Cap <= 65535 && maxNodes < 0xFFFF_FFFF
              && (keyCap == 0 || (8 <= keyCap <= 65535 && arenaPerNode >= 64))
              && WholeLen(dims, layer0Cap, maxNodes, keyCap, arenaPerNode, quant) < 0x1_0000_0000_0000_0000
  {
    hide SlotSizeFor, SlotsPerPageFor, SlotRegionLen, VectorBytes;
    EntriesAre();
  }

  // Where an upper entry has the degree of a level, after its lock word and level count, and the ids that follow it.
  function DegreeAt(level: nat): nat
    requires level > 0
  {
    8 + (level - 1) * (4 + UPPER_CAP * 4)
  }

  function UpperIdAt(level: nat, i: nat): nat
    requires level > 0
  {
    DegreeAt(level) + 4 + 4 * i
  }

  // An entry's 2112 bytes hold eight levels of 64 ids, each aligned, one level after the other.
  lemma UpperFields(level: nat, i: nat)
    requires 1 <= level <= 8 && i < 64
    ensures 8 <= DegreeAt(level) && DegreeAt(level) + 4 <= UpperIdAt(level, 0) && UpperIdAt(level, i) % 4 == 0
    ensures UpperIdAt(level, i) + 4 <= (if i < 63 then UpperIdAt(level, i + 1)
                                        else if level < 8 then DegreeAt(level + 1)
                                        else UPPER_ENTRY_SIZE)
    ensures UPPER_ENTRY_SIZE == 2112
  {
    EntriesAre();
  }

  lemma EntriesAre()
    ensures UPPER_ENTRY_SIZE == 2112
  {
  }

  // Slots are grouped by pages just when whole slots leave at most 128 bytes of a page, and then as many as fit.
  lemma GroupsExactly(slotSize: nat)
    requires slotSize > 0
    ensures var n := SlotsPerPageFor(slotSize);
            && (n > 0 <==> slotSize <= 4096 && 4096 % slotSize <= 128)
            && (n > 0 ==> n * slotSize <= 4096 < (n + 1) * slotSize)
  {
    DivMod(4096, slotSize);
    MulSucc(4096 / slotSize, slotSize);
  }

  // A slot is the least whole number of cache lines that holds its fields: the fixed part, the vector padded to a word,
  // the neighbours, and the key with its length word.
  lemma SlotSizeIsLeast(vectorBytes: nat, layer0Cap: nat, keyCap: nat, size: nat)
    ensures var need := 20 + (vectorBytes + 3) / 4 * 4 + 4 * layer0Cap + if keyCap > 0 then 4 + keyCap else 0;
            && SlotSizeFor(vectorBytes, layer0Cap, keyCap) % 64 == 0
            && need <= SlotSizeFor(vectorBytes, layer0Cap, keyCap)
            && (size % 64 == 0 && need <= size ==> SlotSizeFor(vectorBytes, layer0Cap, keyCap) <= size)
  {
  }

  // Where each number stands in the header, byte for byte.
  lemma HeaderIsWritten(g: Geometry)
    ensures var h := HeaderOf(g);
            && |h| == 4096
            && h[0..4] == Le4(0x484E_5357) && h[4..8] == Le4(if g.quant.Int8? then 8 else 9)
            && h[8..10] == Le2(g.dims) && h[10..11] == [if g.quant.Int8? then 0 else 2]
            && h[12..14] == Le2(g.layer0Cap) && h[16..20] == Le4(g.slotSize) && h[20..22] == Le2(g.slotsPerPage)
            && h[22..24] == Le2(g.keyCap) && h[24..32] == Le8(0xFFFF_FFFF) && h[40..48] == Le8(0xFFFF_FFFF)
            && h[64..72] == Le8(g.maxNodes) && h[80..88] == Le8(0xFFFF_FFFF) && h[88..96] == Le8(0xFFFF_FFFF)
            && h[112..116] == Le4(g.arenaPerNode)
  {
    FieldSpans(g);
    Le1(g.quant);
    forall i | 0 <= i < 14
      ensures var f := HeaderFields(g)[i];
              f.at + |f.bytes| <= |HeaderOf(g)| == HEADER_SIZE && HeaderOf(g)[f.at..f.at + |f.bytes|] == f.bytes
    {
      FieldReads(g, i);
    }
    hide HeaderOf, Le2, Le4, Le8;
    var f := HeaderFields(g);
    assert f[0].at == 8 && f[1].at == 10 && f[2].at == 12 && f[3].at == 16 && f[4].at == 20 && f[5].at == 22
           && f[6].at == 112 && f[7].at == 24 && f[8].at == 40 && f[9].at == 64 && f[10].at == 80 && f[11].at == 88
           && f[12].at == 4 && f[13].at == 0;
  }

  // An adopted file has numbers a slot can be addressed by, is as long as they ask, and was not issued more ids than it
  // holds.
  lemma OpenedNumbers(file: seq<Byte>, fileLen: nat)
    requires Open(file, fileLen).Some?
    ensures var g := Open(file, fileLen).value;
            && g == Derived(g.dims, g.quant, g.layer0Cap, g.keyCap, g.maxNodes, g.arenaPerNode)
            && 1 <= g.dims && (g.keyCap == 0 || (8 <= g.keyCap && g.arenaPerNode >= 64)) && g.maxNodes <= 0xFFFF_FFFF
            && FileLen(g) <= fileLen && FileLen(g) < 0x1_0000_0000_0000_0000
            && |file| >= 4096 && At8(file, 32) <= g.maxNodes
            && At2(file, 8) == g.dims && At2(file, 12) == g.layer0Cap && At2(file, 22) == g.keyCap
            && At8(file, 64) == g.maxNodes && At4(file, 112) == g.arenaPerNode
            && At4(file, 16) == g.slotSize && At2(file, 20) == g.slotsPerPage
  {
    hide SlotSizeFor, SlotRegionLen, KeyArenaLenFor, SlotsPerPageFor, At2, At4, At8;
  }
}
