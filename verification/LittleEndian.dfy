/** Little-endian words and in-place byte writes, as the file stores them. */
module LittleEndian {

  type Byte = b: nat | b < 256

  function ByteOf(v: nat): Byte {
    v % 0x100
  }

  function Le2(v: nat): seq<Byte> {
    [ByteOf(v), ByteOf(v / 0x100)]
  }

  function FromLe2(b: seq<Byte>): nat
    requires |b| == 2
  {
    var low: nat, high: nat := b[0], b[1];
    low + 0x100 * high
  }

  function Le4(v: nat): seq<Byte> {
    Le2(v) + Le2(v / 0x1_0000)
  }

  function FromLe4(b: seq<Byte>): nat
    requires |b| == 4
  {
    FromLe2(b[..2]) + 0x1_0000 * FromLe2(b[2..])
  }

  function Le8(v: nat): seq<Byte> {
    Le4(v) + Le4(v / 0x1_0000_0000)
  }

  function FromLe8(b: seq<Byte>): nat
    requires |b| == 8
  {
    FromLe4(b[..4]) + 0x1_0000_0000 * FromLe4(b[4..])
  }

  lemma Le2RoundTrip(v: nat)
    ensures FromLe2(Le2(v)) == v % 0x1_0000
  {
    var q := v / 0x100;
    assert v == 0x1_0000 * (q / 0x100) + (0x100 * (q % 0x100) + v % 0x100);
    ModUnique(v, q / 0x100, 0x100 * (q % 0x100) + v % 0x100);
  }

  lemma ModUnique(v: nat, q: nat, r: nat)
    requires v == 0x1_0000 * q + r && r < 0x1_0000
    ensures v % 0x1_0000 == r
  {
  }

  lemma ModUnique32(v: nat, q: nat, r: nat)
    requires v == 0x1_0000_0000 * q + r && r < 0x1_0000_0000
    ensures v % 0x1_0000_0000 == r
  {
  }

  lemma Le4RoundTrip(v: nat)
    ensures FromLe4(Le4(v)) == v % 0x1_0000_0000
  {
    Le2RoundTrip(v);
    Le2RoundTrip(v / 0x1_0000);
    assert Le4(v)[..2] == Le2(v) && Le4(v)[2..] == Le2(v / 0x1_0000);
    hide Le2, FromLe2;
    var q := v / 0x1_0000;
    assert v == 0x1_0000_0000 * (q / 0x1_0000) + (0x1_0000 * (q % 0x1_0000) + v % 0x1_0000);
    ModUnique32(v, q / 0x1_0000, 0x1_0000 * (q % 0x1_0000) + v % 0x1_0000);
  }

  lemma Le8RoundTrip(v: nat)
    requires v < 0x1_0000_0000_0000_0000
    ensures FromLe8(Le8(v)) == v
  {
    Le4RoundTrip(v);
    Le4RoundTrip(v / 0x1_0000_0000);
    assert Le8(v)[..4] == Le4(v) && Le8(v)[4..] == Le4(v / 0x1_0000_0000);
  }

  function Overwrite(cells: seq<Byte>, at: nat, bytes: seq<Byte>): (r: seq<Byte>)
    ensures |r| == |cells|
  {
    if at + |bytes| <= |cells| then cells[..at] + bytes + cells[at + |bytes|..] else cells
  }

  lemma OverwriteKeeps(cells: seq<Byte>, at: nat, bytes: seq<Byte>, from: nat, n: nat)
    requires from + n <= |cells| && (from + n <= at || at + |bytes| <= from)
    ensures Overwrite(cells, at, bytes)[from..from + n] == cells[from..from + n]
  {
  }

  lemma OverwriteHolds(cells: seq<Byte>, at: nat, bytes: seq<Byte>)
    requires at + |bytes| <= |cells|
    ensures Overwrite(cells, at, bytes)[at..at + |bytes|] == bytes
  {
  }
}
