/** The page-addressed GRAM shared by the SSD1306 and SSD1315 OLED drivers:
    8 pages of 128 columns, 1024 bytes, addressed either linearly or as
    (column, page), the three-byte command that moves the controller's cursor,
    and the plan by which an append splits a write into per-line pieces. */
module Gram {
  import opened Bus
  import opened Common

  const GRAM_SIZE: nat := 1024
  const LINE_WIDTH: nat := 128
  const LINE_COUNT: nat := 8

  /** The uint32 sums of the drivers wrap modulo this. */
  const UINT32: nat := 0x1_0000_0000

  /** A sum stored in a uint32: it wraps past 2^32 - 1, and keeps its value
      when it does not overflow. */
  function Uint32(x: nat): (r: nat)
    ensures r < UINT32 && (x < UINT32 ==> r == x)
  {
    x % UINT32
  }

  /** Which of the optional bus hooks (`spi_aquire`, `spi_release`) are set. */
  datatype Hooks = Hooks(hasAcquire: bool, hasRelease: bool)

  /** The hooks and the script of call results. */
  datatype Conf = Conf(hooks: Hooks, rs: seq<int>)

  /** The call of the acquire hook, when it is set. */
  function AcquireStep(h: Hooks): seq<Event>
  {
    if h.hasAcquire then [Acquire] else []
  }

  /** The call of the release hook, when it is set. */
  function ReleaseStep(h: Hooks): seq<Event>
  {
    if h.hasRelease then [Release] else []
  }

  // ---------------------------------------------------- the cursor command

  /** The three command bytes of set_offset: page address 0xB0 | row, high
      column nibble 0x10 | (col >> 4), low column nibble col & 0x0F (each OR
      joins disjoint bit fields, so it is written as a sum). */
  function OffsetCommand(col: nat, row: nat): seq<int>
    requires col < LINE_WIDTH && row < LINE_COUNT
  {
    [0xB0 + row, 0x10 + col / 16, col % 16]
  }

  /** How the controller reads a page/column command back. */
  function DecodeOffset(b: seq<int>): Option<(nat, nat)>
  {
    if |b| == 3 && 0xB0 <= b[0] < 0xB8 && 0x10 <= b[1] < 0x18 && 0 <= b[2] < 16
    then Some(((b[1] - 0x10) * 16 + b[2], b[0] - 0xB0))
    else None
  }

  /** The command names exactly the column and page it was built from, and
      every command the controller accepts is one set_offset can build. */
  lemma OffsetCommandRoundTrip(col: nat, row: nat, b: seq<int>)
    requires col < LINE_WIDTH && row < LINE_COUNT
    ensures DecodeOffset(OffsetCommand(col, row)) == Some((col, row))
    ensures DecodeOffset(b) == Some((col, row)) ==> b == OffsetCommand(col, row)
  {
  }

  // ----------------------------------------------- the pieces of an append

  /** The sizes of the pieces the loop writes: the space `colLeft` computed
      from the starting column, again and again, then the rest. An empty write
      is one piece of size 0. */
  function ChunkSizes(n: nat, colLeft: nat): (s: seq<nat>)
    requires colLeft > 0
    ensures |s| >= 1 && Sum(s) == n
    decreases n
  {
    if n <= colLeft then [n]
    else
      var rest := ChunkSizes(n - colLeft, colLeft);
      assert ([colLeft] + rest)[1..] == rest;
      [colLeft] + rest
  }

  function Sum(s: seq<nat>): nat
  {
    if s == [] then 0 else s[0] + Sum(s[1..])
  }

  /** The pieces add up to the write, every piece but the last fills the
      space, and the last is never larger. */
  lemma {:induction false} ChunkSizesCover(n: nat, colLeft: nat)
    requires colLeft > 0
    ensures var s := ChunkSizes(n, colLeft);
            |s| >= 1 && Sum(s) == n && s[|s| - 1] <= colLeft
            && (n > 0 ==> s[|s| - 1] > 0)
            && forall i | 0 <= i < |s| - 1 :: s[i] == colLeft
    decreases n
  {
    if n > colLeft {
      ChunkSizesCover(n - colLeft, colLeft);
    }
  }

  /** The data the frames of an append trace carry, in order. */
  function AppendPayload(data: seq<int>, sizes: seq<nat>): seq<seq<int>>
    requires Sum(sizes) == |data|
    decreases |sizes|
  {
    if sizes == [] then [] else [data[..sizes[0]]] + AppendPayload(data[sizes[0]..], sizes[1..])
  }

  function Flatten(s: seq<seq<int>>): seq<int>
  {
    if s == [] then [] else s[0] + Flatten(s[1..])
  }

  /** The pieces, put back together, are the data: nothing lost, nothing
      repeated, nothing out of order. */
  lemma {:induction false} AppendPayloadFlattens(data: seq<int>, sizes: seq<nat>)
    requires Sum(sizes) == |data|
    ensures Flatten(AppendPayload(data, sizes)) == data
    decreases |sizes|
  {
    if sizes != [] {
      AppendPayloadFlattens(data[sizes[0]..], sizes[1..]);
      assert data[..sizes[0]] + data[sizes[0]..] == data;
    }
  }

  lemma AppendAssoc3(t: seq<Event>, a: seq<Event>, b: seq<Event>, c: seq<Event>)
    ensures t + a + b + c == t + (a + b + c)
  {
  }

  /** From column 0 the pieces are whole lines and then the rest: 129 bytes
      are written as 128 and 1. */
  lemma FromColumnZeroWholeLines()
    ensures ChunkSizes(129, LINE_WIDTH) == [128, 1]
    ensures ChunkSizes(128, LINE_WIDTH) == [128]
    ensures ChunkSizes(300, LINE_WIDTH) == [128, 128, 44]
  {
  }

  // ------------------------------------------------- where the pieces land

  /** The GRAM address the i-th piece is written at: the cursor for the first,
      column 0 of page row + i for the others. */
  function PieceStart(start: nat, i: nat): nat
  {
    if i == 0 then start else (start / LINE_WIDTH + i) * LINE_WIDTH
  }

  /** Each piece ends where the next one starts: the data lands on one
      stretch of the GRAM. */
  ghost predicate Contiguous(start: nat, sizes: seq<nat>)
  {
    forall i | 0 <= i < |sizes| - 1 :: PieceStart(start, i) + sizes[i] == PieceStart(start, i + 1)
  }

  /** The pieces as written: the space on the starting line reused for every
      line (the loop never recomputes it). */
  function PiecesAsWritten(start: nat, n: nat): seq<nat>
  {
    ChunkSizes(n, LINE_WIDTH - start % LINE_WIDTH)
  }

  /** From column 10 the space is 118 bytes on every line: 300 bytes go out
      as 118, 118 and 64, which leave a gap (the second piece ends at 246,
      the third starts at 256), and 1014 bytes, which fit the GRAM, are
      planned as nine pieces, one more than there are pages. */
  lemma PiecesFromColumnTen()
    ensures PiecesAsWritten(10, 300) == [118, 118, 64] && !Contiguous(10, [118, 118, 64])
    ensures PiecesAsWritten(10, 1014) == [118, 118, 118, 118, 118, 118, 118, 118, 70]
    ensures 10 + 1014 <= GRAM_SIZE && |PiecesAsWritten(10, 1014)| > LINE_COUNT
  {
    assert PieceStart(10, 1) + 118 != PieceStart(10, 2);
    assert ChunkSizes(300, 118) == [118, 118, 64];
    assert ChunkSizes(1014, 118) == [118, 118, 118, 118, 118, 118, 118, 118, 70];
  }

  /** The evidently intended pieces: the space left on the starting line,
      then whole lines, then the rest. */
  function Pieces(start: nat, n: nat): seq<nat>
  {
    var first := LINE_WIDTH - start % LINE_WIDTH;
    if n <= first then [n] else [first] + ChunkSizes(n - first, LINE_WIDTH)
  }

  /** The intended pieces cover the write, land on one stretch of the GRAM,
      and need no page past the last one when the write fits the GRAM. */
  lemma PiecesFit(start: nat, n: nat)
    requires start < GRAM_SIZE && start + n <= GRAM_SIZE
    ensures var s := Pieces(start, n);
            Sum(s) == n && Contiguous(start, s) && start / LINE_WIDTH + |s| <= LINE_COUNT
  {
    var first := LINE_WIDTH - start % LINE_WIDTH;
    var s := Pieces(start, n);
    if n > first {
      var rest := ChunkSizes(n - first, LINE_WIDTH);
      ChunkSizesCover(n - first, LINE_WIDTH);
      WholeLinesFromColumnZero(n - first);
      ChunkCount(n - first);
      forall i | 0 <= i < |s| - 1
        ensures PieceStart(start, i) + s[i] == PieceStart(start, i + 1)
      {
        if i > 0 {
          assert s[i] == rest[i - 1];
          assert PieceStart(start, i) == (start / LINE_WIDTH + 1 + (i - 1)) * LINE_WIDTH;
        }
      }
      var r, k := start / LINE_WIDTH, |rest|;
      assert start == r * LINE_WIDTH + start % LINE_WIDTH;
      assert (k - 1) * LINE_WIDTH < n - first;
      assert (k - 1) * LINE_WIDTH < (LINE_COUNT - 1 - r) * LINE_WIDTH;
      assert |s| == 1 + k;
    }
  }

  /** Whole-line pieces of a write that starts at column 0. */
  lemma {:induction false} WholeLinesFromColumnZero(n: nat)
    ensures var s := ChunkSizes(n, LINE_WIDTH);
            forall i | 0 <= i < |s| - 1 :: s[i] == LINE_WIDTH
    decreases n
  {
    ChunkSizesCover(n, LINE_WIDTH);
  }

  /** A write of n > 0 bytes from column 0 takes ceil(n / 128) lines. */
  lemma {:induction false} ChunkCount(n: nat)
    ensures (|ChunkSizes(n, LINE_WIDTH)| - 1) * LINE_WIDTH < n || n == 0
    ensures |ChunkSizes(n, LINE_WIDTH)| * LINE_WIDTH >= n
    decreases n
  {
    if n > LINE_WIDTH {
      ChunkCount(n - LINE_WIDTH);
    }
  }

  /** The intended cursor after a successful append: just past the data. */
  function IntendedCursor(start: nat, n: nat): nat
  {
    start + n
  }

  /** Written as the intended pieces, the last piece ends just past the
      data: the cursor the append should leave behind. */
  lemma CursorAfterPieces(start: nat, n: nat)
    requires start < GRAM_SIZE && start + n <= GRAM_SIZE
    ensures var s := Pieces(start, n);
            PieceStart(start, |s| - 1) + s[|s| - 1] == IntendedCursor(start, n)
  {
    var first := LINE_WIDTH - start % LINE_WIDTH;
    if n > first {
      LastPieceEnd(n - first);
      assert start + first == (start / LINE_WIDTH + 1) * LINE_WIDTH;
    }
  }

  /** Whole lines and then the rest: the last piece of n bytes written from
      column 0 ends at n. */
  lemma {:induction false} LastPieceEnd(n: nat)
    ensures var s := ChunkSizes(n, LINE_WIDTH);
            (|s| - 1) * LINE_WIDTH + s[|s| - 1] == n
    decreases n
  {
    if n > LINE_WIDTH {
      LastPieceEnd(n - LINE_WIDTH);
    }
  }

  // ------------------------------------------------------- repeated frames

  /** k copies of a list of events, one after the other. */
  function Copies(evs: seq<Event>, k: nat): seq<Event>
  {
    if k == 0 then [] else Copies(evs, k - 1) + evs
  }

  lemma {:induction false} CopiesCons(evs: seq<Event>, k: nat)
    ensures Copies(evs, k + 1) == evs + Copies(evs, k)
  {
    if k > 0 {
      CopiesCons(evs, k - 1);
    }
  }
}
