// NOR flash as seen through the partition driver: bytes, sectors, and the two
// operations that change them.  Programming can only clear bits; erasing sets
// a whole sector to 0xFF.

module Flash {

  type byte = x: int | 0 <= x < 256

  const SECTOR_SIZE: nat := 4096
  const ERASED: byte := 0xFF
  const CHUNK: nat := 256

  /** Bitwise AND, bit by bit. */
  function BitAnd(a: nat, b: nat): (r: nat)
    ensures r <= a && r <= b
  {
    if a == 0 || b == 0 then 0
    else 2 * BitAnd(a / 2, b / 2) + (if a % 2 == 1 && b % 2 == 1 then 1 else 0)
  }

  /** The k low bits set. */
  function Ones(k: nat): nat {
    if k == 0 then 0 else 2 * Ones(k - 1) + 1
  }

  lemma {:induction false} OnesIsNeutral(k: nat, b: nat)
    requires b <= Ones(k)
    ensures BitAnd(Ones(k), b) == b
  {
    if k > 0 && b > 0 {
      OnesIsNeutral(k - 1, b / 2);
      assert Ones(k) / 2 == Ones(k - 1) && Ones(k) % 2 == 1;
    }
  }

  /** Programming over an erased byte stores exactly the byte asked for. */
  lemma ErasedIsNeutral(b: byte)
    ensures BitAnd(ERASED, b) == b
  {
    assert Ones(2) == 3;
    assert Ones(4) == 15;
    assert Ones(6) == 63;
    assert Ones(8) == 255;
    OnesIsNeutral(8, b);
  }

  /** n copies of b. */
  function Fill(b: byte, n: nat): (s: seq<byte>)
    ensures |s| == n && forall i :: 0 <= i < n ==> s[i] == b
  {
    seq(n, i => b)
  }

  lemma {:induction false} SliceOfSlice(s: seq<byte>, a: nat, b: nat, c: nat, d: nat)
    requires a <= b <= |s| && c <= d <= b - a
    ensures s[a..b][c..d] == s[a + c..a + d]
  {
    var t := s[a..b];
    forall i | 0 <= i < d - c
      ensures t[c..d][i] == s[a + c..a + d][i]
    {
      assert t[c..d][i] == t[c + i] == s[a + c + i];
    }
  }

  /** f with buf written over the bytes from off on. */
  function Splice(f: seq<byte>, off: nat, buf: seq<byte>): (r: seq<byte>)
    requires off + |buf| <= |f|
    ensures |r| == |f|
  {
    f[..off] + buf + f[off + |buf|..]
  }

  lemma SpliceTwice(f: seq<byte>, off: nat, a: seq<byte>, b: seq<byte>)
    requires off + |a| + |b| <= |f|
    ensures Splice(Splice(f, off, a), off + |a|, b) == Splice(f, off, a + b)
  {
  }

  /** What a program operation leaves in the cells: the AND of old and new. */
  function Programmed(f: seq<byte>, off: nat, buf: seq<byte>): (r: seq<byte>)
    requires off + |buf| <= |f|
    ensures |r| == |f|
  {
    seq(|f|, i requires 0 <= i < |f| =>
      if off <= i < off + |buf| then BitAnd(f[i], buf[i - off]) else f[i])
  }

  ghost predicate AllErased(f: seq<byte>, from: nat, to: nat)
    requires from <= to <= |f|
  {
    forall i :: from <= i < to ==> f[i] == ERASED
  }

  lemma ProgrammedOverErased(f: seq<byte>, off: nat, buf: seq<byte>)
    requires off + |buf| <= |f| && AllErased(f, off, off + |buf|)
    ensures Programmed(f, off, buf) == Splice(f, off, buf)
  {
    forall i | 0 <= i < |f|
      ensures Programmed(f, off, buf)[i] == Splice(f, off, buf)[i]
    {
      if off <= i < off + |buf| {
        ErasedIsNeutral(buf[i - off]);
      }
    }
  }

  /** The raw program operation: AND the buffer into the cells in place. */
  method Program(cells: array<byte>, off: nat, buf: seq<byte>)
    requires off + |buf| <= cells.Length
    modifies cells
    ensures cells[..] == Programmed(old(cells[..]), off, buf)
  {
    for i := 0 to |buf|
      invariant forall j :: 0 <= j < cells.Length ==>
        cells[j] == if off <= j < off + i then BitAnd(old(cells[j]), buf[j - off]) else old(cells[j])
    {
      cells[off + i] := BitAnd(cells[off + i], buf[i]);
    }
  }

  /** A program operation that keeps the NOR discipline: its precondition says
      that every byte it touches is still erased, so the buffer arrives intact. */
  method ProgramFresh(cells: array<byte>, off: nat, buf: seq<byte>)
    requires off + |buf| <= cells.Length
    requires AllErased(cells[..], off, off + |buf|)
    modifies cells
    ensures cells[..] == Splice(old(cells[..]), off, buf)
  {
    ProgrammedOverErased(cells[..], off, buf);
    Program(cells, off, buf);
  }

  method EraseRange(cells: array<byte>, off: nat, len: nat)
    requires off + len <= cells.Length
    modifies cells
    ensures cells[..] == Splice(old(cells[..]), off, Fill(ERASED, len))
  {
    for i := 0 to len
      invariant forall j :: 0 <= j < cells.Length ==>
        cells[j] == if off <= j < off + i then ERASED else old(cells[j])
    {
      cells[off + i] := ERASED;
    }
  }

  // ---- Sectors ------------------------------------------------------------

  function SectorEnd(x: nat): nat {
    (x / SECTOR_SIZE + 1) * SECTOR_SIZE
  }

  /** The bytes of sector k. */
  function SectorAt(f: seq<byte>, k: nat): (s: seq<byte>)
    requires (k + 1) * SECTOR_SIZE <= |f|
    ensures |s| == SECTOR_SIZE
  {
    f[k * SECTOR_SIZE..(k + 1) * SECTOR_SIZE]
  }

  lemma SectorOfOffset(k: nat, off: nat)
    requires off < SECTOR_SIZE
    ensures (k * SECTOR_SIZE + off) / SECTOR_SIZE == k
    ensures (k * SECTOR_SIZE + off) % SECTOR_SIZE == off
    ensures SectorEnd(k * SECTOR_SIZE + off) == (k + 1) * SECTOR_SIZE
  {
  }

  lemma SectorByte(f: seq<byte>, k: nat, off: nat)
    requires (k + 1) * SECTOR_SIZE <= |f| && off < SECTOR_SIZE
    ensures f[k * SECTOR_SIZE + off] == SectorAt(f, k)[off]
  {
  }

  /** Writing inside one sector changes that sector by the same write and
      leaves every other sector as it was. */
  lemma SpliceIsLocal(f: seq<byte>, k: nat, off: nat, buf: seq<byte>)
    requires (k + 1) * SECTOR_SIZE <= |f| && off + |buf| <= SECTOR_SIZE
    ensures SectorAt(Splice(f, k * SECTOR_SIZE + off, buf), k) == Splice(SectorAt(f, k), off, buf)
    ensures forall j: nat :: j != k && (j + 1) * SECTOR_SIZE <= |f| ==>
              SectorAt(Splice(f, k * SECTOR_SIZE + off, buf), j) == SectorAt(f, j)
  {
    var g := Splice(f, k * SECTOR_SIZE + off, buf);
    var base := k * SECTOR_SIZE;
    forall i | 0 <= i < SECTOR_SIZE
      ensures SectorAt(g, k)[i] == Splice(SectorAt(f, k), off, buf)[i]
    {
      assert SectorAt(g, k)[i] == g[base + i];
      assert SectorAt(f, k)[i] == f[base + i];
    }
    forall j: nat | j != k && (j + 1) * SECTOR_SIZE <= |f|
      ensures SectorAt(g, j) == SectorAt(f, j)
    {
      var other := j * SECTOR_SIZE;
      assert other + SECTOR_SIZE <= base || base + SECTOR_SIZE <= other;
      forall i | 0 <= i < SECTOR_SIZE
        ensures SectorAt(g, j)[i] == SectorAt(f, j)[i]
      {
        assert SectorAt(g, j)[i] == g[other + i];
        assert SectorAt(f, j)[i] == f[other + i];
      }
    }
  }
}
