/**
 The bulk writer of an image import: how a byte stream is cut into chunks, padded to whole
 blocks and written to a disk, with all-zero chunks skipped.
 */
module ImportChunks {

  const IMPORT_CHUNK_SIZE: nat := 512 * 1024
  const GIB: nat := 1024 * 1024 * 1024
  const MAX_INT64: int := 0x7fff_ffff_ffff_ffff

  type Byte = b: int | 0 <= b < 256

  type Length = n: nat | n <= MAX_INT64

  /** How a response body ends: with io.EOF, with io.ErrUnexpectedEOF (cut short), or with any other error. */
  datatype Ending = Complete | Truncated | Broken

  /** A response body: the declared Content-Length, the bytes that arrive, and how it ends. */
  datatype Stream = Stream(declared: Length, data: seq<Byte>, ending: Ending)

  predicate Zeros(s: seq<Byte>) {
    forall i :: 0 <= i < |s| ==> s[i] == 0
  }

  function Blank(n: nat): (s: seq<Byte>)
    ensures |s| == n && Zeros(s)
  {
    seq(n, _ => 0)
  }

  /** The block sizes the writer works for: those that divide a chunk. The CRD allows 512, 2048 and 4096. */
  type BlockSize = b: int | b > 0 && IMPORT_CHUNK_SIZE % b == 0 witness 512

  /** A disk bulk writes can fill chunk by chunk; whole GiB disks are. */
  predicate Holds(disk: seq<Byte>, data: seq<Byte>) {
    |disk| % IMPORT_CHUNK_SIZE == 0 && |data| <= |disk|
  }

  /** Every byte of the disk is either still zero or already the file's byte. */
  predicate Compatible(file: seq<Byte>, disk: seq<Byte>) {
    |file| <= |disk| && forall i :: 0 <= i < |disk| ==> disk[i] == 0 || (i < |file| && disk[i] == file[i])
  }

  /** The disk starts with the first n bytes of the file. */
  predicate StartsWith(file: seq<Byte>, n: nat, disk: seq<Byte>) {
    n <= |file| && n <= |disk| && forall i :: 0 <= i < n ==> disk[i] == file[i]
  }

  /** The disk is the file followed by zeros. */
  predicate IsFile(file: seq<Byte>, disk: seq<Byte>) {
    |file| <= |disk| && disk == file + Blank(|disk| - |file|)
  }

  function Min(a: nat, b: nat): nat {
    if a < b then a else b
  }

  // --- Sizes ---

  function RoundUp(n: nat, unit: int): int
    requires unit > 0
  {
    (n + unit - 1) / unit * unit
  }

  lemma MulIncreases(a: int, b: int, unit: int)
    requires a < b && unit > 0
    ensures a * unit + unit <= b * unit
  {
    var gap := b - a - 1;
    assert gap * unit >= 0;
    assert b * unit == a * unit + unit + gap * unit;
  }

  lemma RoundUpBounds(n: nat, unit: int)
    requires unit > 0
    ensures n <= RoundUp(n, unit) < n + unit && RoundUp(n, unit) % unit == 0
  {
    var q := (n + unit - 1) / unit;
    assert n + unit - 1 == q * unit + (n + unit - 1) % unit;
    MultipleMod(q, unit);
  }

  lemma MultipleMod(q: int, unit: int)
    requires unit > 0
    ensures (q * unit) % unit == 0
  {
    var r := (q * unit) % unit;
    var p := (q * unit) / unit;
    assert q * unit == p * unit + r;
    if p < q {
      MulIncreases(p, q, unit);
    } else if q < p {
      MulIncreases(q, p, unit);
    }
  }

  /**
   Padding to whole blocks never leaves the chunk: the write is a positive multiple of the block size, at
   most a chunk.
   */
  lemma PaddingFits(n: nat, blockSize: BlockSize)
    requires n <= IMPORT_CHUNK_SIZE
    ensures n <= RoundUp(n, blockSize) <= IMPORT_CHUNK_SIZE
    ensures RoundUp(n, blockSize) % blockSize == 0
  {
    RoundUpBounds(n, blockSize);
    var q, whole := (n + blockSize - 1) / blockSize, IMPORT_CHUNK_SIZE / blockSize;
    assert IMPORT_CHUNK_SIZE == whole * blockSize;
    if whole < q {
      MulIncreases(whole, q, blockSize);
    }
  }

  /** Go's int64 result of an addition. */
  function Wrap64(x: int): int {
    if x > MAX_INT64 then x - 0x1_0000_0000_0000_0000 else x
  }

  /** Go's truncating division by a positive constant. */
  function GoDiv(x: int, d: nat): int
    requires d > 0
  {
    if x >= 0 then x / d else -(-x / d)
  }

  /** The size createImportDisk asks for, in int64 arithmetic. */
  function DiskSize(length: Length): (size: nat)
  {
    var size := GoDiv(Wrap64(length + GIB - 1), GIB) * GIB;
    if size < GIB then GIB else size
  }

  /**
   The size is the least whole number of GiB, at least one, that holds the length, exactly when the sum does
   not overflow.
   */
  lemma DiskSizeIsLeast(length: Length)
    ensures DiskSize(length) >= length <==> length + GIB - 1 <= MAX_INT64
    ensures DiskSize(length) >= GIB && DiskSize(length) % GIB == 0
    ensures forall g: nat :: length + GIB - 1 <= MAX_INT64 && g >= 1 && g * GIB >= length ==>
        DiskSize(length) <= g * GIB
    ensures length + GIB - 1 > MAX_INT64 ==> DiskSize(length) == GIB
  {
    var sum := Wrap64(length + GIB - 1);
    if length + GIB - 1 > MAX_INT64 {
      assert sum < 0;
      assert -sum / GIB >= 0;
    }
  }

  /** A disk of that size is filled by whole chunks. */
  lemma DiskSizeHolds(length: Length)
    requires length + GIB - 1 <= MAX_INT64
    ensures length <= DiskSize(length) && DiskSize(length) % IMPORT_CHUNK_SIZE == 0
  {
    DiskSizeIsLeast(length);
    var size := DiskSize(length);
    assert size == size / GIB * GIB;
    MultipleMod(size / GIB * 2048, IMPORT_CHUNK_SIZE);
  }

  // --- Chunks ---

  /** How many bytes the first k chunks hold. */
  function Reach(data: seq<Byte>, k: nat): nat {
    Min(k * IMPORT_CHUNK_SIZE, |data|)
  }

  /** The bytes the k-th ReadFull gets. */
  function Chunk(data: seq<Byte>, k: nat): (c: seq<Byte>)
    ensures |c| <= IMPORT_CHUNK_SIZE
  {
    var from := Reach(data, k);
    data[from..Min(from + IMPORT_CHUNK_SIZE, |data|)]
  }

  /** What is written for the k-th chunk: its bytes, zero-padded to whole blocks. */
  function Payload(data: seq<Byte>, k: nat, blockSize: BlockSize): (p: seq<Byte>)
    ensures |Chunk(data, k)| <= |p| <= IMPORT_CHUNK_SIZE && |p| % blockSize == 0
  {
    var c := Chunk(data, k);
    PaddingFits(|c|, blockSize);
    c + Blank(RoundUp(|c|, blockSize) - |c|)
  }

  /** The i-th byte of the k-th payload is the data's byte there, or padding. */
  lemma PayloadByte(data: seq<Byte>, k: nat, blockSize: BlockSize, i: nat)
    requires i < |Payload(data, k, blockSize)|
    ensures Payload(data, k, blockSize)[i] == if k * IMPORT_CHUNK_SIZE + i < |data|
        then data[k * IMPORT_CHUNK_SIZE + i] else 0
  {
    var c := Chunk(data, k);
    var p := Payload(data, k, blockSize);
    if i < |c| {
      assert p[i] == c[i];
    } else {
      assert p[i] == Blank(RoundUp(|c|, blockSize) - |c|)[i - |c|];
    }
  }

  /** Less than a block is padding. */
  lemma PaddingIsLeast(data: seq<Byte>, k: nat, blockSize: BlockSize)
    ensures |Payload(data, k, blockSize)| < |Chunk(data, k)| + blockSize
  {
    RoundUpBounds(|Chunk(data, k)|, blockSize);
  }

  function Overwrite(disk: seq<Byte>, offset: nat, bytes: seq<Byte>): (d: seq<Byte>)
    requires offset + |bytes| <= |disk|
    ensures |d| == |disk|
  {
    disk[..offset] + bytes + disk[offset + |bytes|..]
  }

  lemma NothingToPad(blockSize: BlockSize)
    ensures RoundUp(0, blockSize) == 0
  {
    assert (0 + blockSize - 1) / blockSize == 0;
  }

  /** Every write is at a chunk boundary and ends within the disk. */
  lemma WriteFits(disk: seq<Byte>, data: seq<Byte>, k: nat, blockSize: BlockSize)
    requires Holds(disk, data)
    requires Payload(data, k, blockSize) != []
    ensures k * IMPORT_CHUNK_SIZE + |Payload(data, k, blockSize)| <= |disk|
    ensures k * IMPORT_CHUNK_SIZE < |data|
  {
    NothingToPad(blockSize);
    var n := |disk| / IMPORT_CHUNK_SIZE;
    assert |disk| == n * IMPORT_CHUNK_SIZE;
    assert k < n;
  }

  /** The disk after the k-th chunk: written, or left alone when skip is set and the chunk is all zeros. */
  function Put(disk: seq<Byte>, data: seq<Byte>, k: nat, blockSize: BlockSize, skip: bool): (d: seq<Byte>)
    requires Holds(disk, data)
    ensures Holds(d, data) && |d| == |disk|
  {
    var p := Payload(data, k, blockSize);
    if p == [] || (skip && Zeros(p)) then disk else
      WriteFits(disk, data, k, blockSize);
      Overwrite(disk, k * IMPORT_CHUNK_SIZE, p)
  }

  /** The disk after the first k chunks. */
  function Written(disk: seq<Byte>, data: seq<Byte>, k: nat, blockSize: BlockSize, skip: bool): (d: seq<Byte>)
    requires Holds(disk, data)
    ensures Holds(d, data) && |d| == |disk|
  {
    if k == 0 then disk else Put(Written(disk, data, k - 1, blockSize, skip), data, k - 1, blockSize, skip)
  }

  /** How many chunks hold any byte. */
  function Chunks(data: seq<Byte>): nat {
    RoundUp(|data|, IMPORT_CHUNK_SIZE) / IMPORT_CHUNK_SIZE
  }

  /** One whole write pass. */
  function Pass(disk: seq<Byte>, data: seq<Byte>, blockSize: BlockSize, skip: bool): (d: seq<Byte>)
    requires Holds(disk, data)
    ensures |d| == |disk|
  {
    Written(disk, data, Chunks(data), blockSize, skip)
  }

  // --- What a pass does ---

  /** What Put leaves at position i. */
  lemma PutByte(disk: seq<Byte>, data: seq<Byte>, k: nat, blockSize: BlockSize, skip: bool, i: nat)
    requires Holds(disk, data) && i < |disk|
    ensures var from, p := k * IMPORT_CHUNK_SIZE, Payload(data, k, blockSize);
            var d := Put(disk, data, k, blockSize, skip);
            d[i] == if from <= i < from + |p| && !(skip && Zeros(p)) then p[i - from] else disk[i]
  {
    var p := Payload(data, k, blockSize);
    if p != [] && !(skip && Zeros(p)) {
      WriteFits(disk, data, k, blockSize);
    }
  }

  predicate CompatibleAt(file: seq<Byte>, disk: seq<Byte>, i: nat)
    requires i < |disk|
  {
    disk[i] == 0 || (i < |file| && disk[i] == file[i])
  }

  lemma PutKeepsByte(file: seq<Byte>, data: seq<Byte>, disk: seq<Byte>, k: nat, blockSize: BlockSize, skip: bool,
      i: nat)
    requires Holds(disk, data) && data <= file && i < |disk| && CompatibleAt(file, disk, i)
    requires i < Reach(data, k) ==> disk[i] == data[i]
    ensures var d := Put(disk, data, k, blockSize, skip);
            && CompatibleAt(file, d, i)
            && (i < Reach(data, k + 1) ==> d[i] == data[i])
  {
    PutByte(disk, data, k, blockSize, skip, i);
    var from, p := k * IMPORT_CHUNK_SIZE, Payload(data, k, blockSize);
    if from <= i < from + |p| {
      PayloadByte(data, k, blockSize, i - from);
    }
  }

  /**
   One chunk of a download of `file`, complete or cut short, keeps the disk compatible with the
   file and brings the written prefix one chunk further, skipped or not.
   */
  lemma PutKeeps(file: seq<Byte>, data: seq<Byte>, disk: seq<Byte>, k: nat, blockSize: BlockSize, skip: bool)
    requires Holds(disk, data)
    requires data <= file && Compatible(file, disk)
    requires StartsWith(data, Reach(data, k), disk)
    ensures Compatible(file, Put(disk, data, k, blockSize, skip))
    ensures StartsWith(data, Reach(data, k + 1), Put(disk, data, k, blockSize, skip))
  {
    var d := Put(disk, data, k, blockSize, skip);
    forall i | 0 <= i < |disk|
      ensures CompatibleAt(file, d, i) && (i < Reach(data, k + 1) ==> d[i] == data[i])
    {
      PutKeepsByte(file, data, disk, k, blockSize, skip, i);
    }
  }

  lemma {:induction false} WrittenKeeps(file: seq<Byte>, data: seq<Byte>, disk: seq<Byte>, k: nat,
      blockSize: BlockSize, skip: bool)
    requires Holds(disk, data)
    requires data <= file && Compatible(file, disk)
    ensures Compatible(file, Written(disk, data, k, blockSize, skip))
    ensures StartsWith(data, Reach(data, k), Written(disk, data, k, blockSize, skip))
  {
    if k > 0 {
      WrittenKeeps(file, data, disk, k - 1, blockSize, skip);
      PutKeeps(file, data, Written(disk, data, k - 1, blockSize, skip), k - 1, blockSize, skip);
    }
  }

  lemma ChunksCover(data: seq<Byte>)
    ensures Reach(data, Chunks(data)) == |data|
    ensures Chunks(data) > 0 ==> (Chunks(data) - 1) * IMPORT_CHUNK_SIZE < |data|
  {
  }

  /** A disk compatible with the file that starts with all of it is the file followed by zeros. */
  lemma CompleteIsFile(file: seq<Byte>, disk: seq<Byte>)
    requires Compatible(file, disk) && StartsWith(file, |file|, disk)
    ensures IsFile(file, disk)
  {
    var padded := file + Blank(|disk| - |file|);
    assert forall i :: 0 <= i < |disk| ==> disk[i] == padded[i];
  }

  /**
   From an all-zero disk, or one any earlier passes of the same data left, a pass leaves the data followed
   by zeros.
   */
  lemma PassIsExact(disk: seq<Byte>, data: seq<Byte>, blockSize: BlockSize, skip: bool)
    requires Holds(disk, data) && Compatible(data, disk)
    ensures IsFile(data, Pass(disk, data, blockSize, skip))
  {
    WrittenKeeps(data, data, disk, Chunks(data), blockSize, skip);
    ChunksCover(data);
    CompleteIsFile(data, Pass(disk, data, blockSize, skip));
  }

  /** Skipping zero chunks refines the writer that writes every chunk. */
  lemma SkippingRefinesWritingAll(disk: seq<Byte>, data: seq<Byte>, blockSize: BlockSize)
    requires Holds(disk, data) && Compatible(data, disk)
    ensures Pass(disk, data, blockSize, true) == Pass(disk, data, blockSize, false)
  {
    PassIsExact(disk, data, blockSize, true);
    PassIsExact(disk, data, blockSize, false);
  }

  /** The disk after interrupted attempts that got ks[0], ks[1], ... chunks far. */
  function Attempts(disk: seq<Byte>, data: seq<Byte>, blockSize: BlockSize, ks: seq<nat>): (d: seq<Byte>)
    requires Holds(disk, data)
    ensures Holds(d, data) && |d| == |disk|
    decreases |ks|
  {
    if ks == [] then disk else
      Written(Attempts(disk, data, blockSize, ks[..|ks| - 1]), data, ks[|ks| - 1], blockSize, true)
  }

  lemma {:induction false} AttemptsKeep(disk: seq<Byte>, data: seq<Byte>, blockSize: BlockSize, ks: seq<nat>)
    requires Holds(disk, data) && Compatible(data, disk)
    ensures Compatible(data, Attempts(disk, data, blockSize, ks))
    decreases |ks|
  {
    if ks != [] {
      AttemptsKeep(disk, data, blockSize, ks[..|ks| - 1]);
      WrittenKeeps(data, data, Attempts(disk, data, blockSize, ks[..|ks| - 1]), ks[|ks| - 1], blockSize, true);
    }
  }

  /** However many attempts broke off wherever, the next whole pass leaves what one clean pass would. */
  lemma RewritingIsIdempotent(disk: seq<Byte>, data: seq<Byte>, blockSize: BlockSize, ks: seq<nat>)
    requires Holds(disk, data) && Zeros(disk)
    ensures Pass(Attempts(disk, data, blockSize, ks), data, blockSize, true) == Pass(disk, data, blockSize, true)
  {
    AttemptsKeep(disk, data, blockSize, ks);
    PassIsExact(Attempts(disk, data, blockSize, ks), data, blockSize, true);
    PassIsExact(disk, data, blockSize, true);
  }

  /** Byte i lies in a chunk the pass writes. */
  predicate Covered(data: seq<Byte>, blockSize: BlockSize, i: nat) {
    var p := Payload(data, i / IMPORT_CHUNK_SIZE, blockSize);
    !Zeros(p) && i % IMPORT_CHUNK_SIZE < |p|
  }

  /** What the pass leaves at position i once its chunk is through. */
  function ByteAfter(disk: seq<Byte>, data: seq<Byte>, blockSize: BlockSize, i: nat): Byte
    requires i < |disk|
  {
    if Covered(data, blockSize, i) then Payload(data, i / IMPORT_CHUNK_SIZE, blockSize)[i % IMPORT_CHUNK_SIZE]
        else disk[i]
  }

  /** Only the chunk q of position i changes it, to b. */
  ghost predicate OnlyChunk(disk: seq<Byte>, data: seq<Byte>, blockSize: BlockSize, i: nat, q: nat, b: Byte)
    requires i < |disk|
  {
    forall d: seq<Byte>, k: nat {:trigger Put(d, data, k, blockSize, true)} ::
      Holds(d, data) && |d| == |disk| && (k == q ==> d[i] == disk[i]) ==>
        Put(d, data, k, blockSize, true)[i] == if k == q then b else d[i]
  }

  lemma OnlyOwnChunk(disk: seq<Byte>, data: seq<Byte>, blockSize: BlockSize, i: nat)
    requires i < |disk|
    ensures OnlyChunk(disk, data, blockSize, i, i / IMPORT_CHUNK_SIZE, ByteAfter(disk, data, blockSize, i))
  {
    var q := i / IMPORT_CHUNK_SIZE;
    forall d: seq<Byte>, k: nat {:trigger Put(d, data, k, blockSize, true)}
      | Holds(d, data) && |d| == |disk| && (k == q ==> d[i] == disk[i])
      ensures Put(d, data, k, blockSize, true)[i] == if k == q then ByteAfter(disk, data, blockSize, i) else d[i]
    {
      PutAt(d, data, k, blockSize, i, q);
    }
  }

  lemma {:induction false} WrittenOnce(disk: seq<Byte>, data: seq<Byte>, k: nat, blockSize: BlockSize,
      i: nat, q: nat, b: Byte)
    requires Holds(disk, data) && i < |disk| && OnlyChunk(disk, data, blockSize, i, q, b)
    ensures Written(disk, data, k, blockSize, true)[i] == if q < k then b else disk[i]
  {
    if k > 0 {
      WrittenOnce(disk, data, k - 1, blockSize, i, q, b);
    }
  }

  lemma WrittenAt(disk: seq<Byte>, data: seq<Byte>, k: nat, blockSize: BlockSize, i: nat)
    requires Holds(disk, data) && i < |disk|
    ensures Written(disk, data, k, blockSize, true)[i]
            == if i / IMPORT_CHUNK_SIZE < k then ByteAfter(disk, data, blockSize, i) else disk[i]
  {
    OnlyOwnChunk(disk, data, blockSize, i);
    WrittenOnce(disk, data, k, blockSize, i, i / IMPORT_CHUNK_SIZE, ByteAfter(disk, data, blockSize, i));
  }

  /** Position i is in chunk k exactly when it lies between its bounds. */
  lemma InChunk(i: nat, k: nat)
    ensures i / IMPORT_CHUNK_SIZE == k <==> k * IMPORT_CHUNK_SIZE <= i < k * IMPORT_CHUNK_SIZE + IMPORT_CHUNK_SIZE
    ensures i / IMPORT_CHUNK_SIZE == k ==> i % IMPORT_CHUNK_SIZE == i - k * IMPORT_CHUNK_SIZE
  {
  }

  lemma PutAt(disk: seq<Byte>, data: seq<Byte>, k: nat, blockSize: BlockSize, i: nat, q: nat)
    requires Holds(disk, data) && i < |disk| && q == i / IMPORT_CHUNK_SIZE
    ensures Put(disk, data, k, blockSize, true)[i] == if q == k then ByteAfter(disk, data, blockSize, i) else disk[i]
  {
    InChunk(i, k);
    PutByte(disk, data, k, blockSize, true, i);
  }

  /**
   What the pass puts where byte i goes: a covered byte is the file's or padding, an uncovered one should
   read as zero.
   */
  lemma CoveredByte(disk: seq<Byte>, data: seq<Byte>, blockSize: BlockSize, i: nat)
    requires Holds(disk, data) && i < |disk|
    ensures var target := if i < |data| then data[i] else 0;
            if Covered(data, blockSize, i)
            then i / IMPORT_CHUNK_SIZE < Chunks(data) && ByteAfter(disk, data, blockSize, i) == target
            else target == 0
  {
    var k, at := i / IMPORT_CHUNK_SIZE, i % IMPORT_CHUNK_SIZE;
    InChunk(i, k);
    var p := Payload(data, k, blockSize);
    if at < |p| {
      PayloadByte(data, k, blockSize, at);
    }
    if Covered(data, blockSize, i) {
      WriteFits(disk, data, k, blockSize);
      ChunksCover(data);
    }
  }

  /**
   On any disk at all, a pass leaves the data followed by zeros if and only if every byte it does not
   write already reads as zero. A fresh disk does; one written with another file need not.
   */
  lemma PassIsExactIff(disk: seq<Byte>, data: seq<Byte>, blockSize: BlockSize)
    requires Holds(disk, data)
    ensures IsFile(data, Pass(disk, data, blockSize, true)) <==>
            forall i :: 0 <= i < |disk| && !Covered(data, blockSize, i) ==> disk[i] == 0
  {
    var d, target := Pass(disk, data, blockSize, true), data + Blank(|disk| - |data|);
    forall i | 0 <= i < |disk|
      ensures d[i] == target[i] <==> Covered(data, blockSize, i) || disk[i] == 0
    {
      WrittenAt(disk, data, Chunks(data), blockSize, i);
      CoveredByte(disk, data, blockSize, i);
      assert target[i] == if i < |data| then data[i] else 0;
    }
    assert d == target <==> forall i :: 0 <= i < |disk| ==> d[i] == target[i];
  }

  /** What the pass leaves at position i: the data's byte or padding where it writes, and otherwise what was there. */
  lemma PassByte(disk: seq<Byte>, data: seq<Byte>, blockSize: BlockSize, i: nat)
    requires Holds(disk, data) && i < |disk|
    ensures var target := if i < |data| then data[i] else 0;
            Pass(disk, data, blockSize, true)[i] == if Covered(data, blockSize, i) then target else disk[i]
  {
    WrittenAt(disk, data, Chunks(data), blockSize, i);
    CoveredByte(disk, data, blockSize, i);
  }

  /**
   With the file at the url changed between attempts, the second pass is exact if and only if the first
   file is zero wherever the second pass skips.
   */
  lemma RewriteIsExactIff(disk: seq<Byte>, before: seq<Byte>, after: seq<Byte>, blockSize: BlockSize)
    requires IsFile(before, disk) && Holds(disk, after)
    ensures IsFile(after, Pass(disk, after, blockSize, true)) <==>
            forall i :: 0 <= i < |before| && !Covered(after, blockSize, i) ==> before[i] == 0
  {
    PassIsExactIff(disk, after, blockSize);
    assert forall i :: 0 <= i < |disk| ==> disk[i] == if i < |before| then before[i] else 0;
  }

  /**
   Otherwise the disk can end up with neither file: here a chunk of the first stays, and one of the second
   is written.
   */
  lemma ChangedFileIsMixed()
    ensures var before, after := [7] + Blank(IMPORT_CHUNK_SIZE - 1) + [1], Blank(IMPORT_CHUNK_SIZE) + [2];
            var d := Pass(Pass(Blank(GIB), before, 512, true), after, 512, true);
            d[0] == 7 && d[IMPORT_CHUNK_SIZE] == 2 && !IsFile(before, d) && !IsFile(after, d)
  {
    var before, after := [7] + Blank(IMPORT_CHUNK_SIZE - 1) + [1], Blank(IMPORT_CHUNK_SIZE) + [2];
    var first := Pass(Blank(GIB), before, 512, true);
    PassIsExact(Blank(GIB), before, 512, true);
    assert first[0] == before[0] == 7;
    var d := Pass(first, after, 512, true);
    SkipsZeroChunk(after);
    PassByte(first, after, 512, 0);
    PassByte(first, after, 512, IMPORT_CHUNK_SIZE);
    assert before[IMPORT_CHUNK_SIZE] == 1 && after[IMPORT_CHUNK_SIZE] == 2 && after[0] == 0;
  }

  /** A leading zero chunk is skipped, a non-zero byte after it is written. */
  lemma SkipsZeroChunk(data: seq<Byte>)
    requires |data| == IMPORT_CHUNK_SIZE + 1 && Zeros(data[..IMPORT_CHUNK_SIZE]) && data[IMPORT_CHUNK_SIZE] != 0
    ensures !Covered(data, 512, 0) && Covered(data, 512, IMPORT_CHUNK_SIZE)
  {
    forall i | 0 <= i < |Payload(data, 0, 512)|
      ensures Payload(data, 0, 512)[i] == 0
    {
      PayloadByte(data, 0, 512, i);
      assert data[..IMPORT_CHUNK_SIZE][i] == 0;
    }
    assert |Payload(data, 1, 512)| > 0;
    PayloadByte(data, 1, 512, 0);
  }
}
