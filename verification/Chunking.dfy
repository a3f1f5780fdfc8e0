/** Content-defined chunking: where a rolling Rabin-Karp hash cuts a file. */
module Chunking {

  type Byte = x: int | 0 <= x < 256 witness 0
  type Data = seq<Byte>

  const WORD := 0x1_0000_0000_0000_0000
  const PRIME := 31
  const HASHLEN := 32
  const MINCHUNK := 2048
  const TARGETCHUNK := 4096
  const MAXCHUNK := 8192

  type Word = x: int | 0 <= x < WORD witness 0

  // 64-bit unsigned arithmetic with wrap-around.
  function Wrap(x: int): Word {
    x % WORD
  }

  function Add64(x: Word, y: Word): Word {
    Wrap(x + y)
  }

  function Sub64(x: Word, y: Word): Word {
    Wrap(x - y)
  }

  function Mul64(x: Word, y: Word): Word {
    Wrap(x * y)
  }

  // ---- The hash as a polynomial ---------------------------------------------------------------

  function Pow(k: nat): nat {
    if k == 0 then 1 else PRIME * Pow(k - 1)
  }

  // The base-31 value of the bytes, most significant first, without wrap-around.
  function Poly(w: Data): int {
    if |w| == 0 then 0 else Poly(w[..|w| - 1]) * PRIME + w[|w| - 1]
  }

  lemma {:induction false} PolyHead(w: Data)
    requires |w| > 0
    ensures Poly(w) == w[0] * Pow(|w| - 1) + Poly(w[1..])
  {
    var k := |w| - 1;
    if k > 0 {
      PolyHead(w[..k]);
      assert w[..k][1..] == w[1..][..k - 1];
      WeightGrows(w[0], k);
    }
  }

  lemma WeightGrows(x: int, k: nat)
    requires k > 0
    ensures x * Pow(k) == (x * Pow(k - 1)) * PRIME
  {
  }

  lemma PolySlides(w: Data, d: Byte)
    requires |w| > 0
    ensures Poly(w[1..] + [d]) == (Poly(w) - w[0] * Pow(|w| - 1)) * PRIME + d
  {
    PolyHead(w);
    assert (w[1..] + [d])[..|w| - 1] == w[1..];
  }

  // ---- The hash as the scan maintains it ------------------------------------------------------

  function TopPower(k: nat): Word {
    if k == 0 then 1 else Mul64(TopPower(k - 1), PRIME)
  }

  // The table entry of byte i: i times the (wrapped) weight of the oldest byte in the window.
  function TableEntry(i: Byte): Word {
    Mul64(i, TopPower(HASHLEN - 1))
  }

  // The variable 'hash' once off bytes have been consumed.
  function Rolled(buf: Data, off: nat): Word
    requires off <= |buf|
  {
    if off == 0 then 0
    else if off <= HASHLEN then Add64(Mul64(Rolled(buf, off - 1), PRIME), buf[off - 1])
    else Add64(Mul64(Sub64(Rolled(buf, off - 1), TableEntry(buf[off - 1 - HASHLEN])), PRIME), buf[off - 1])
  }

  function Window(buf: Data, off: nat): Data
    requires off <= |buf|
  {
    if off <= HASHLEN then buf[..off] else buf[off - HASHLEN..off]
  }

  lemma WrapMul(x: int, y: int)
    ensures Wrap(x * Wrap(y)) == Wrap(x * y)
  {
    var q := y / WORD;
    assert y == q * WORD + Wrap(y);
    assert x * y == (x * q) * WORD + x * Wrap(y);
  }

  lemma WrapAdd(x: int, y: int)
    ensures Wrap(Wrap(x) + y) == Wrap(x + y)
  {
  }

  lemma WrapSub(x: int, y: int)
    ensures Wrap(Wrap(x) - Wrap(y)) == Wrap(x - y)
  {
  }

  lemma AppendStep(h: int, d: Byte)
    ensures Add64(Mul64(Wrap(h), PRIME), d) == Wrap(h * PRIME + d)
  {
    WrapMul(PRIME, h);
    WrapAdd(h * PRIME, d);
  }

  lemma SlideStep(h: int, s: int, d: Byte)
    ensures Add64(Mul64(Sub64(Wrap(h), Wrap(s)), PRIME), d) == Wrap((h - s) * PRIME + d)
  {
    WrapSub(h, s);
    AppendStep(h - s, d);
  }

  lemma {:induction false} TopPowerIsPow(k: nat)
    ensures TopPower(k) == Wrap(Pow(k))
  {
    if k > 0 {
      TopPowerIsPow(k - 1);
      WrapMul(PRIME, Pow(k - 1));
    }
  }

  lemma WindowSlides(buf: Data, off: nat, top: nat)
    requires HASHLEN < off <= |buf| && top == HASHLEN - 1
    requires Rolled(buf, off - 1) == Wrap(Poly(Window(buf, off - 1)))
    ensures Rolled(buf, off) == Wrap(Poly(Window(buf, off)))
  {
    WindowMoves(buf, off);
    RolledSlides(buf, off);
    SlideWindow(Window(buf, off - 1), buf[off - 1], top);
  }

  // The oldest byte's weight taken out and a byte put in, on wrapped values.
  lemma SlideWindow(w: Data, d: Byte, top: nat)
    requires |w| == HASHLEN == top + 1
    ensures Add64(Mul64(Sub64(Wrap(Poly(w)), TableEntry(w[0])), PRIME), d) == Wrap(Poly(w[1..] + [d]))
  {
    PolySlides(w, d);
    TableHolds(w[0], top);
    SlideStep(Poly(w), w[0] * Pow(top), d);
  }

  lemma WindowMoves(buf: Data, off: nat)
    requires HASHLEN < off <= |buf|
    ensures var w := Window(buf, off - 1);
      |w| == HASHLEN && w[0] == buf[off - 1 - HASHLEN] && Window(buf, off) == w[1..] + [buf[off - 1]]
  {
  }

  lemma RolledSlides(buf: Data, off: nat)
    requires HASHLEN < off <= |buf|
    ensures Rolled(buf, off) ==
      Add64(Mul64(Sub64(Rolled(buf, off - 1), TableEntry(buf[off - 1 - HASHLEN])), PRIME), buf[off - 1])
  {
  }

  // The table holds the wrapped weight of each byte.
  lemma TableHolds(i: Byte, top: nat)
    requires top == HASHLEN - 1
    ensures TableEntry(i) == Wrap(i * Pow(top))
  {
    TopPowerIsPow(top);
    WrapMul(i, Pow(top));
  }

  lemma WindowFills(buf: Data, off: nat)
    requires 0 < off <= HASHLEN && off <= |buf| && Rolled(buf, off - 1) == Wrap(Poly(buf[..off - 1]))
    ensures Rolled(buf, off) == Wrap(Poly(buf[..off]))
  {
    assert buf[..off][..off - 1] == buf[..off - 1];
    AppendStep(Poly(buf[..off - 1]), buf[off - 1]);
  }

  // At every step of the scan the incrementally updated hash is the polynomial hash of the last 32
  // bytes modulo 2^64, wrap-around of the table included.
  lemma {:induction false} RollingHash(buf: Data, off: nat)
    requires off <= |buf|
    ensures Rolled(buf, off) == Wrap(Poly(Window(buf, off)))
  {
    if 0 < off <= HASHLEN {
      RollingHash(buf, off - 1);
      WindowFills(buf, off);
    } else if off > HASHLEN {
      RollingHash(buf, off - 1);
      WindowSlides(buf, off, HASHLEN - 1);
    }
  }

  // ---- Where to cut ---------------------------------------------------------------------------

  predicate IsCut(buf: Data, off: nat)
    requires HASHLEN <= off <= |buf|
  {
    off >= MAXCHUNK || (off >= MINCHUNK && Wrap(Poly(buf[off - HASHLEN..off])) % TARGETCHUNK == 1)
  }

  // The first cut after off bytes, or the end.
  function CutAfter(buf: Data, off: nat): (r: nat)
    requires off == |buf| || HASHLEN <= off <= |buf|
    ensures off <= r <= |buf|
    decreases |buf| - off
  {
    if off == |buf| then off
    else if IsCut(buf, off + 1) then off + 1
    else CutAfter(buf, off + 1)
  }

  function NextCut(buf: Data): nat {
    CutAfter(buf, if |buf| < HASHLEN then |buf| else HASHLEN)
  }

  // The cut is the first position past the window where the hash or the size limit says so, or the
  // end of the data when there is none.
  lemma {:induction false} CutIsFirst(buf: Data, off: nat)
    requires off == |buf| || HASHLEN <= off <= |buf|
    ensures var r := CutAfter(buf, off);
      && (off < r < |buf| ==> IsCut(buf, r))
      && (forall k :: HASHLEN <= off < k < r ==> !IsCut(buf, k))
      && (off < |buf| ==> off < r)
    decreases |buf| - off
  {
    if off < |buf| && !IsCut(buf, off + 1) {
      CutIsFirst(buf, off + 1);
    }
  }

  lemma NextCutBounds(buf: Data)
    requires |buf| > 0
    ensures 1 <= NextCut(buf) <= |buf| && NextCut(buf) <= MAXCHUNK
    ensures NextCut(buf) < |buf| ==> NextCut(buf) >= MINCHUNK
  {
    var start := if |buf| < HASHLEN then |buf| else HASHLEN;
    CutIsFirst(buf, start);
    if NextCut(buf) > MAXCHUNK {
      assert IsCut(buf, MAXCHUNK);
    }
  }

  // The number whose digits in base 31 are these bytes.
  function Base31(w: Data): int {
    if |w| == 0 then 0 else w[0] * Power31(|w| - 1) + Base31(w[1..])
  }

  function Power31(k: nat): nat {
    if k == 0 then 1 else 31 * Power31(k - 1)
  }

  lemma {:induction false} PowerIs31(k: nat)
    ensures Pow(k) == Power31(k)
  {
    if k > 0 {
      PowerIs31(k - 1);
    }
  }

  lemma {:induction false} PolyIsBase31(w: Data)
    ensures Poly(w) == Base31(w)
  {
    if |w| > 0 {
      PolyHead(w);
      PowerIs31(|w| - 1);
      PolyIsBase31(w[1..]);
    }
  }

  // At k, at least 2048 bytes in, the 64-bit hash of the 32 bytes before k leaves 1 modulo 4096.
  ghost predicate HashHit(buf: Data, k: int) {
    2048 <= k <= |buf| && Base31(buf[k - 32..k]) % 0x1_0000_0000_0000_0000 % 4096 == 1
  }

  // k is where the data are cut: at the first hit of the hash, but after 8192 bytes at the latest,
  // and at the end if there is neither.
  ghost predicate CutsAt(buf: Data, k: int) {
    && 0 <= k <= |buf| && k <= 8192
    && (k < |buf| ==> k == 8192 || HashHit(buf, k))
    && forall j :: j < k ==> !HashHit(buf, j)
  }

  lemma CutsOnce(buf: Data, i: int, j: int)
    requires CutsAt(buf, i) && CutsAt(buf, j)
    ensures i == j
  {
  }

  lemma IsCutExactly(buf: Data, k: nat)
    requires HASHLEN <= k <= |buf|
    ensures IsCut(buf, k) <==> k >= 8192 || HashHit(buf, k)
  {
    PolyIsBase31(buf[k - HASHLEN..k]);
  }

  // The scan cuts just there.
  lemma NextCutCuts(buf: Data)
    ensures CutsAt(buf, NextCut(buf))
  {
    var start := if |buf| < HASHLEN then |buf| else HASHLEN;
    var r := NextCut(buf);
    CutIsFirst(buf, start);
    if |buf| > 0 {
      NextCutBounds(buf);
    }
    forall k: nat | HASHLEN <= k <= |buf| ensures IsCut(buf, k) <==> k >= 8192 || HashHit(buf, k) {
      IsCutExactly(buf, k);
    }
  }

  lemma {:induction false} ZerosAreZero(w: Data)
    requires forall i :: 0 <= i < |w| ==> w[i] == 0
    ensures Poly(w) == 0
  {
    if |w| > 0 {
      ZerosAreZero(w[..|w| - 1]);
    }
  }

  // Zeros up to a one at the end of the first 2048 bytes: cut after it, whatever follows.
  lemma OneCuts(buf: Data)
    requires |buf| >= 2048 && buf[2047] == 1 && forall i :: 0 <= i < 2047 ==> buf[i] == 0
    ensures NextCut(buf) == 2048
  {
    var k := 2048;
    var w := buf[k - HASHLEN..k];
    ZerosAreZero(w[..|w| - 1]);
    assert w[|w| - 1] == 1;
    PolyIsBase31(w);
    NextCutCuts(buf);
    assert HashHit(buf, k);
    if NextCut(buf) < |buf| {
      assert NextCut(buf) >= MINCHUNK by {
        NextCutBounds(buf);
      }
    }
  }

  // A cut inside the data does not depend on what follows it.
  lemma {:induction false} CutIsLocal(buf: Data, more: Data, off: nat)
    requires HASHLEN <= off <= |buf| && CutAfter(buf, off) < |buf|
    ensures CutAfter(buf + more, off) == CutAfter(buf, off)
    decreases |buf| - off
  {
    if off < |buf| {
      assert (buf + more)[off + 1 - HASHLEN..off + 1] == buf[off + 1 - HASHLEN..off + 1];
      if !IsCut(buf, off + 1) {
        CutIsLocal(buf, more, off + 1);
      }
    }
  }

  // ---- The chunks of a file -------------------------------------------------------------------

  function Chunks(data: Data): seq<Data>
    decreases |data|
  {
    if |data| == 0 then []
    else
      NextCutBounds(data);
      var k := NextCut(data);
      [data[..k]] + Chunks(data[k..])
  }

  function Flat(blocks: seq<Data>): Data {
    if |blocks| == 0 then [] else Flat(blocks[..|blocks| - 1]) + blocks[|blocks| - 1]
  }

  lemma {:induction false} FlatCons(b: Data, rest: seq<Data>)
    ensures Flat([b] + rest) == b + Flat(rest)
  {
    var all := [b] + rest;
    if |rest| == 0 {
      assert all[..0] == [];
    } else {
      var k := |rest| - 1;
      FlatCons(b, rest[..k]);
      assert all[..|all| - 1] == [b] + rest[..k];
    }
  }

  lemma {:induction false} ChunksRebuild(data: Data)
    ensures Flat(Chunks(data)) == data
    decreases |data|
  {
    if |data| > 0 {
      NextCutBounds(data);
      var k := NextCut(data);
      ChunksRebuild(data[k..]);
      FlatCons(data[..k], Chunks(data[k..]));
    }
  }

  lemma {:induction false} ChunkSizes(data: Data, i: nat)
    requires i < |Chunks(data)|
    ensures 1 <= |Chunks(data)[i]| <= MAXCHUNK
    ensures i < |Chunks(data)| - 1 ==> |Chunks(data)[i]| >= MINCHUNK
    decreases |data|
  {
    NextCutBounds(data);
    var k := NextCut(data);
    if i > 0 {
      ChunkSizes(data[k..], i - 1);
    }
  }

  // Where chunk i of the list begins.
  function Offset(blocks: seq<Data>, i: nat): nat
    requires i <= |blocks|
  {
    |Flat(blocks[..i])|
  }

  // Chunking the data from any chunk boundary yields exactly the tail of the original chunk list.
  lemma {:induction false} ChunksFromBoundary(data: Data, i: nat)
    requires i <= |Chunks(data)|
    ensures Offset(Chunks(data), i) <= |data|
    ensures Chunks(data[Offset(Chunks(data), i)..]) == Chunks(data)[i..]
    decreases |data|
  {
    if i == 0 {
      assert Chunks(data)[..0] == [] && data[0..] == data;
    } else {
      NextCutBounds(data);
      var k := NextCut(data);
      var rest := Chunks(data[k..]);
      ChunksFromBoundary(data[k..], i - 1);
      OffsetShifts(data[..k], rest, i - 1);
      assert Chunks(data) == [data[..k]] + rest;
      assert data[k..][Offset(rest, i - 1)..] == data[k + Offset(rest, i - 1)..];
    }
  }

  // Every chunk of a file ends where what follows its beginning is cut.
  lemma ChunkEnds(data: Data, i: nat)
    requires i < |Chunks(data)|
    ensures Offset(Chunks(data), i) <= |data|
    ensures var rest, chunk := data[Offset(Chunks(data), i)..], Chunks(data)[i];
      CutsAt(rest, |chunk|) && chunk == rest[..|chunk|]
  {
    ChunksFromBoundary(data, i);
    var rest := data[Offset(Chunks(data), i)..];
    assert Chunks(rest)[0] == Chunks(data)[i];
    NextCutCuts(rest);
    if |rest| > 0 {
      NextCutBounds(rest);
    }
  }

  lemma OffsetShifts(b: Data, rest: seq<Data>, i: nat)
    requires i <= |rest|
    ensures Offset([b] + rest, i + 1) == |b| + Offset(rest, i) && ([b] + rest)[i + 1..] == rest[i..]
  {
    assert ([b] + rest)[..i + 1] == [b] + rest[..i];
    FlatCons(b, rest[..i]);
  }

  // Appending bytes leaves every chunk except the last unchanged.
  lemma {:induction false} AppendingKeepsChunks(data: Data, more: Data)
    ensures |Chunks(data + more)| >= |Chunks(data)|
    ensures forall i :: 0 <= i < |Chunks(data)| - 1 ==> Chunks(data + more)[i] == Chunks(data)[i]
    decreases |data|
  {
    if |data| > 0 {
      NextCutBounds(data);
      var k := NextCut(data);
      if k < |data| {
        CutIsLocal(data, more, HASHLEN);
        assert (data + more)[k..] == data[k..] + more && (data + more)[..k] == data[..k];
        AppendingKeepsChunks(data[k..], more);
      } else {
        assert data[k..] == [];
        assert Chunks(data) == [data[..k]];
      }
    }
  }

  // ---- The scan as it runs --------------------------------------------------------------------

  method GetNextChunkOff(buf: Data) returns (off: nat)
    ensures off == NextCut(buf) && CutsAt(buf, off)
  {
    var bn: Word := 1;
    for i := 0 to HASHLEN - 1
      invariant bn == TopPower(i)
    {
      bn := Mul64(bn, PRIME);
    }
    var saved: seq<Word> := [];
    for i := 0 to 256
      invariant |saved| == i && forall j: Byte :: j < i ==> saved[j] == TableEntry(j)
    {
      saved := saved + [Mul64(i, bn)];
    }
    off := Scan(buf, saved);
    NextCutCuts(buf);
  }

  method Scan(buf: Data, saved: seq<Word>) returns (off: nat)
    requires |saved| == 256 && forall j: Byte :: saved[j] == TableEntry(j)
    ensures off == NextCut(buf)
  {
    off := 0;
    var hash: Word := 0;
    while off < HASHLEN && off < |buf|
      invariant off <= HASHLEN && off <= |buf| && hash == Rolled(buf, off)
    {
      hash := Add64(Mul64(hash, PRIME), buf[off]);
      off := off + 1;
    }
    while off < |buf|
      invariant off == |buf| || HASHLEN <= off <= |buf|
      invariant hash == Rolled(buf, off) && NextCut(buf) == CutAfter(buf, off)
    {
      hash := Add64(Mul64(Sub64(hash, saved[buf[off - HASHLEN]]), PRIME), buf[off]);
      off := off + 1;
      RollingHash(buf, off);
      if (off >= MINCHUNK && hash % TARGETCHUNK == 1) || off >= MAXCHUNK {
        return;
      }
    }
  }

  // The C form keeps its table between calls: b is 0 until the first call has filled it.
  class CachedChunker {
    var b: int
    var bn: Word
    const saved: array<Word>

    ghost predicate Valid()
      reads this, saved
    {
      saved.Length == 256 && (b != 0 ==> b == PRIME && forall j: Byte :: saved[j] == TableEntry(j))
    }

    constructor ()
      ensures Valid() && b == 0 && fresh(saved)
    {
      b, bn := 0, 0;
      saved := new Word[256](_ => 0);
    }

    method NextChunk(buf: Data) returns (off: nat)
      requires Valid()
      modifies this, saved
      ensures Valid() && b == PRIME && off == NextCut(buf) && CutsAt(buf, off)
    {
      if b == 0 {
        b, bn := PRIME, 1;
        for i := 0 to HASHLEN - 1
          invariant bn == TopPower(i) && b == PRIME
        {
          bn := Mul64(bn, PRIME);
        }
        for i := 0 to 256
          invariant b == PRIME && bn == TopPower(HASHLEN - 1)
          invariant forall j: Byte :: j < i ==> saved[j] == TableEntry(j)
        {
          saved[i] := Mul64(i, bn);
        }
      }
      off := Scan(buf, saved[..]);
      NextCutCuts(buf);
    }
  }
}
