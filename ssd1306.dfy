/** The SSD1306 OLED driver: a GRAM of 8 pages of 128 columns (1024 bytes)
    written through the cursor `write_offset`. Every transfer is one SPI frame
    (CS and D/C pins around one `spi_write`), commands with D/C low and data
    with D/C high. `append` splits a write at line ends and moves the cursor
    to the start of the next page between the pieces. */
module Ssd1306 {
  import opened Errors
  import opened Bus
  import opened Gram
  import opened Common

  /** The driver's view of the device: the cursor (uint32) and the bus trace. */
  datatype Oled = Oled(offset: nat, trace: seq<Event>)

  datatype Out = Out(oled: Oled, err: int)

  // ------------------------------------------------------------- bus frames

  /** One transfer: acquire (if set), CS high, D/C, CS low, the write, CS high
      twice, D/C high, release (if set). Any failing call ends the transfer at
      once, without releasing the bus. */
  function Frame(h: Hooks, dc: int, payload: Event): seq<Event>
  {
    AcquireStep(h) + [Cs(1), Dc(dc), Cs(0), payload, Cs(1), Cs(1), Dc(1)] + ReleaseStep(h)
  }

  /** write_command_sequence: the bytes go out with D/C low. */
  function CommandFrame(h: Hooks, cmds: seq<int>): seq<Event>
  {
    Frame(h, 0, Cmd(cmds))
  }

  /** write_data: the bytes go out with D/C high. */
  function DataFrame(h: Hooks, data: seq<int>): seq<Event>
  {
    Frame(h, 1, Write(data))
  }

  // ------------------------------------------------------------- set_offset

  /** ssd1306_set_offset: reject a column past 127 or a page past 7 with
      E_MEMORY_OUT_OF_BOUND before any bus call; send the command; move the
      cursor to col + row * 128 only once the command has gone out. */
  function SetOffsetSpec(c: Conf, o: Oled, col: nat, row: nat): Out
  {
    if col >= LINE_WIDTH || row >= LINE_COUNT then Out(o, E_MEMORY_OUT_OF_BOUND)
    else
      var r := Run(c.rs, o.trace, CommandFrame(c.hooks, OffsetCommand(col, row)));
      if r.err != ALL_OK then Out(Oled(o.offset, r.trace), r.err)
      else Out(Oled(col + row * LINE_WIDTH, r.trace), ALL_OK)
  }

  /** set_offset moves the cursor exactly when it succeeds, and then to the
      address of (col, row); a rejected position leaves the bus untouched;
      with no failing call every position on the GRAM is accepted. */
  lemma SetOffsetMovesOnlyOnSuccess(c: Conf, o: Oled, col: nat, row: nat)
    ensures var r := SetOffsetSpec(c, o, col, row);
            (r.err != ALL_OK ==> r.oled.offset == o.offset)
            && (r.err == ALL_OK ==>
                  (r.oled.offset < GRAM_SIZE
                   && r.oled.offset % LINE_WIDTH == col && r.oled.offset / LINE_WIDTH == row
                   && r.oled.trace == o.trace + CommandFrame(c.hooks, OffsetCommand(col, row))))
            && ((col >= LINE_WIDTH || row >= LINE_COUNT) ==> r == Out(o, E_MEMORY_OUT_OF_BOUND))
            && (Faultless(c.rs) ==> (r.err == ALL_OK <==> col < LINE_WIDTH && row < LINE_COUNT))
  {
    if col < LINE_WIDTH && row < LINE_COUNT {
      RunShape(c.rs, o.trace, CommandFrame(c.hooks, OffsetCommand(col, row)));
      if Faultless(c.rs) {
        RunFaultless(c.rs, o.trace, CommandFrame(c.hooks, OffsetCommand(col, row)));
      }
    }
  }

  /** ssd1306_set_offset_by_addr: reject an address past the GRAM, otherwise
      set_offset(off % 128, off / 128). */
  function SetOffsetByAddrSpec(c: Conf, o: Oled, off: nat): Out
  {
    if off >= GRAM_SIZE then Out(o, E_MEMORY_OUT_OF_BOUND)
    else SetOffsetSpec(c, o, off % LINE_WIDTH, off / LINE_WIDTH)
  }

  /** Setting the cursor by address lands it on that address. */
  lemma SetOffsetByAddrRoundTrip(c: Conf, o: Oled, off: nat)
    ensures var r := SetOffsetByAddrSpec(c, o, off);
            (off >= GRAM_SIZE ==> r == Out(o, E_MEMORY_OUT_OF_BOUND))
            && (r.err == ALL_OK ==> r.oled.offset == off)
            && (r.err != ALL_OK ==> r.oled.offset == o.offset)
            && (Faultless(c.rs) ==> (r.err == ALL_OK <==> off < GRAM_SIZE))
  {
    if off < GRAM_SIZE {
      SetOffsetMovesOnlyOnSuccess(c, o, off % LINE_WIDTH, off / LINE_WIDTH);
    }
  }

  // ------------------------------------------------------------ append_gram

  /** The do-while loop of append_gram from `data` on, the cursor on page
      `row`: write min(left, colLeft) bytes (colLeft is the space computed once,
      before the loop, from the starting column); while data is left, move to
      column 0 of the next page and go on. */
  function AppendLoop(c: Conf, o: Oled, data: seq<int>, row: nat, colLeft: nat): Out
    requires colLeft > 0
    decreases |data|
  {
    var w := Min(|data|, colLeft);
    var r := Run(c.rs, o.trace, DataFrame(c.hooks, data[..w]));
    if r.err != ALL_OK then Out(Oled(o.offset, r.trace), r.err)
    else if w == |data| then Out(Oled(o.offset, r.trace), ALL_OK)
    else
      var s := SetOffsetSpec(c, Oled(o.offset, r.trace), 0, row + 1);
      if s.err != ALL_OK then s
      else AppendLoop(c, s.oled, data[w..], row + 1, colLeft)
  }

  /** ssd1306_append_gram: reject a write that runs past the GRAM (the sum is
      a uint32), then run the loop from the cursor's page with the space left
      on its line, and on success add the size to the cursor (uint32). */
  function AppendSpec(c: Conf, o: Oled, data: seq<int>): Out
    requires o.offset < UINT32 && |data| < UINT32
  {
    if Uint32(o.offset + |data|) > GRAM_SIZE then Out(o, E_MEMORY_OUT_OF_BOUND)
    else
      var l := AppendLoop(c, o, data, o.offset / LINE_WIDTH, LINE_WIDTH - o.offset % LINE_WIDTH);
      if l.err != ALL_OK then l
      else Out(Oled(Uint32(l.oled.offset + |data|), l.oled.trace), ALL_OK)
  }

  /** A write that does not fit between the cursor and the end of the GRAM is
      refused before any bus call. */
  lemma AppendRejectsOverflow(c: Conf, o: Oled, data: seq<int>)
    requires o.offset < UINT32 && |data| < UINT32
    requires o.offset + |data| < UINT32
    ensures o.offset + |data| > GRAM_SIZE <==> AppendSpec(c, o, data) == Out(o, E_MEMORY_OUT_OF_BOUND)
  {
    if o.offset + |data| <= GRAM_SIZE {
      var l := AppendLoop(c, o, data, o.offset / LINE_WIDTH, LINE_WIDTH - o.offset % LINE_WIDTH);
      AppendLoopKeepsError(c, o, data, o.offset / LINE_WIDTH, LINE_WIDTH - o.offset % LINE_WIDTH);
      if l.err == ALL_OK {
        assert |l.oled.trace| > |o.trace|;
      }
    }
  }

  /** The loop always issues its first data frame, so it never returns the
      cursor and the trace unchanged with E_MEMORY_OUT_OF_BOUND. */
  lemma {:induction false} AppendLoopKeepsError(c: Conf, o: Oled, data: seq<int>, row: nat, colLeft: nat)
    requires colLeft > 0
    ensures var l := AppendLoop(c, o, data, row, colLeft);
            |l.oled.trace| > |o.trace| && o.trace <= l.oled.trace
    decreases |data|
  {
    var w := Min(|data|, colLeft);
    RunShape(c.rs, o.trace, DataFrame(c.hooks, data[..w]));
    var r := Run(c.rs, o.trace, DataFrame(c.hooks, data[..w]));
    if r.err == ALL_OK && w < |data| {
      var s := SetOffsetSpec(c, Oled(o.offset, r.trace), 0, row + 1);
      SetOffsetMovesOnlyOnSuccess(c, Oled(o.offset, r.trace), 0, row + 1);
      if row + 1 < LINE_COUNT {
        RunShape(c.rs, r.trace, CommandFrame(c.hooks, OffsetCommand(0, row + 1)));
      }
      if s.err == ALL_OK {
        AppendLoopKeepsError(c, s.oled, data[w..], row + 1, colLeft);
      }
    }
  }

  /** The trace of a loop in which no call fails: each piece as a data frame,
      with the set_offset command for column 0 of the next page between two
      pieces. */
  function AppendTrace(h: Hooks, data: seq<int>, sizes: seq<nat>, row: nat): seq<Event>
    requires |sizes| >= 1 && Sum(sizes) == |data| && row + |sizes| <= LINE_COUNT
    decreases |sizes|
  {
    if |sizes| == 1 then DataFrame(h, data)
    else
      DataFrame(h, data[..sizes[0]]) + CommandFrame(h, OffsetCommand(0, row + 1))
      + AppendTrace(h, data[sizes[0]..], sizes[1..], row + 1)
  }

  /** With no failing call and enough pages below the cursor, the loop writes
      the pieces of ChunkSizes with one set_offset between two of them, and
      leaves the cursor where the last set_offset put it: unchanged for a single
      piece, column 0 of the last page written otherwise. */
  lemma {:induction false} AppendLoopFaultless(c: Conf, o: Oled, data: seq<int>, row: nat, colLeft: nat)
    requires Faultless(c.rs) && colLeft > 0
    requires row + |ChunkSizes(|data|, colLeft)| <= LINE_COUNT
    ensures var s := ChunkSizes(|data|, colLeft);
            AppendLoop(c, o, data, row, colLeft)
            == Out(Oled(if |s| == 1 then o.offset else (row + |s| - 1) * LINE_WIDTH,
                        o.trace + AppendTrace(c.hooks, data, s, row)), ALL_OK)
    decreases |data|
  {
    var s := ChunkSizes(|data|, colLeft);
    var w := Min(|data|, colLeft);
    RunFaultless(c.rs, o.trace, DataFrame(c.hooks, data[..w]));
    if w < |data| {
      var df := DataFrame(c.hooks, data[..w]);
      var cf := CommandFrame(c.hooks, OffsetCommand(0, row + 1));
      SetOffsetMovesOnlyOnSuccess(c, Oled(o.offset, o.trace + df), 0, row + 1);
      var s1 := SetOffsetSpec(c, Oled(o.offset, o.trace + df), 0, row + 1);
      assert s == [colLeft] + ChunkSizes(|data[w..]|, colLeft);
      assert s[1..] == ChunkSizes(|data[w..]|, colLeft);
      AppendLoopFaultless(c, s1.oled, data[w..], row + 1, colLeft);
      var rest := AppendTrace(c.hooks, data[w..], s[1..], row + 1);
      assert AppendTrace(c.hooks, data, s, row) == df + cf + rest;
      AppendAssoc3(o.trace, df, cf, rest);
    } else {
      assert data[..w] == data;
    }
  }

  /** A write that fits in the space left on the cursor's line is one data
      frame, with no set_offset, and moves the cursor by exactly its size. */
  lemma AppendWithinLine(c: Conf, o: Oled, data: seq<int>)
    requires Faultless(c.rs) && o.offset < GRAM_SIZE
    requires |data| <= LINE_WIDTH - o.offset % LINE_WIDTH
    ensures AppendSpec(c, o, data) == Out(Oled(o.offset + |data|, o.trace + DataFrame(c.hooks, data)), ALL_OK)
  {
    var colLeft := LINE_WIDTH - o.offset % LINE_WIDTH;
    assert ChunkSizes(|data|, colLeft) == [|data|];
    assert o.offset / LINE_WIDTH < LINE_COUNT;
    AppendLoopFaultless(c, o, data, o.offset / LINE_WIDTH, colLeft);
  }

  /** A write that crosses a line end, with no failing call and enough pages:
      the cursor ends at column 0 of the last page written plus the whole size
      again, not at the end of the data. */
  lemma AppendAcrossLines(c: Conf, o: Oled, data: seq<int>)
    requires Faultless(c.rs) && o.offset < GRAM_SIZE && o.offset + |data| <= GRAM_SIZE
    requires |data| > LINE_WIDTH - o.offset % LINE_WIDTH
    requires o.offset / LINE_WIDTH + |ChunkSizes(|data|, LINE_WIDTH - o.offset % LINE_WIDTH)| <= LINE_COUNT
    ensures var s := ChunkSizes(|data|, LINE_WIDTH - o.offset % LINE_WIDTH);
            var r := AppendSpec(c, o, data);
            r.err == ALL_OK && |s| >= 2
            && r.oled.offset == (o.offset / LINE_WIDTH + |s| - 1) * LINE_WIDTH + |data|
            && r.oled.trace == o.trace + AppendTrace(c.hooks, data, s, o.offset / LINE_WIDTH)
  {
    var colLeft := LINE_WIDTH - o.offset % LINE_WIDTH;
    var s := ChunkSizes(|data|, colLeft);
    ChunkSizesCover(|data|, colLeft);
    AppendLoopFaultless(c, o, data, o.offset / LINE_WIDTH, colLeft);
    var last := (o.offset / LINE_WIDTH + |s| - 1) * LINE_WIDTH;
    assert last + |data| <= 2 * GRAM_SIZE;
  }

  /** With no failing call, a write the loop needs more pages for than are
      left below the cursor stops with E_MEMORY_OUT_OF_BOUND from the
      set_offset to page 8. */
  lemma {:induction false} AppendLoopRunsOutOfPages(c: Conf, o: Oled, data: seq<int>, row: nat, colLeft: nat)
    requires Faultless(c.rs) && colLeft > 0 && row < LINE_COUNT
    requires row + |ChunkSizes(|data|, colLeft)| > LINE_COUNT
    ensures AppendLoop(c, o, data, row, colLeft).err == E_MEMORY_OUT_OF_BOUND
    decreases |data|
  {
    var w := Min(|data|, colLeft);
    RunFaultless(c.rs, o.trace, DataFrame(c.hooks, data[..w]));
    assert w < |data|;
    assert ChunkSizes(|data|, colLeft) == [colLeft] + ChunkSizes(|data[w..]|, colLeft);
    var t1 := o.trace + DataFrame(c.hooks, data[..w]);
    SetOffsetMovesOnlyOnSuccess(c, Oled(o.offset, t1), 0, row + 1);
    if row + 1 < LINE_COUNT {
      AppendLoopRunsOutOfPages(c, SetOffsetSpec(c, Oled(o.offset, t1), 0, row + 1).oled, data[w..], row + 1, colLeft);
    }
  }

  // ---------------------------------------------- where the pieces land

  /** A write of 300 bytes from column 10 leaves a gap (the second piece ends
      at 246, the third starts at 256), and a write of 1014 bytes from column
      10, which fits the GRAM, fails with E_MEMORY_OUT_OF_BOUND even when no
      call fails: eight pieces of 118 bytes are sent, then the reposition to
      page 8 is refused, so the last 70 bytes are never sent. */
  lemma PiecesAsWrittenMisplace(c: Conf, o: Oled, data: seq<int>)
    requires Faultless(c.rs) && o.offset == 10 && |data| == 1014
    ensures PiecesAsWritten(10, 300) == [118, 118, 64] && !Contiguous(10, [118, 118, 64])
    ensures o.offset + |data| <= GRAM_SIZE && AppendSpec(c, o, data).err == E_MEMORY_OUT_OF_BOUND
  {
    PiecesFromColumnTen();
    AppendLoopRunsOutOfPages(c, o, data, 0, 118);
  }

  /** The cursor as written overshoots the intended one by whole lines as soon
      as a write crosses a line end: 129 bytes from address 0 leave it at 257,
      not at 129. */
  lemma CursorAsWrittenOvershoots(c: Conf, o: Oled, data: seq<int>)
    requires Faultless(c.rs) && o.offset == 0 && |data| == 129
    ensures AppendSpec(c, o, data).oled.offset == 257 != IntendedCursor(0, 129)
  {
    assert ChunkSizes(129, 128) == [128, 1];
    AppendAcrossLines(c, o, data);
  }

  // ------------------------------------------------------------- write_gram

  /** SSD1306_write_gram: reject an address past the GRAM, place the cursor,
      then append, stopping at the first failure. */
  function WriteGramSpec(c: Conf, o: Oled, memOff: nat, data: seq<int>): Out
    requires o.offset < UINT32 && |data| < UINT32
  {
    if memOff >= GRAM_SIZE then Out(o, E_MEMORY_OUT_OF_BOUND)
    else
      var s := SetOffsetSpec(c, o, memOff % LINE_WIDTH, memOff / LINE_WIDTH);
      if s.err != ALL_OK then s
      else AppendSpec(c, s.oled, data)
  }

  /** write_gram appends at the address it is given. */
  lemma WriteGramAppendsAt(c: Conf, o: Oled, memOff: nat, data: seq<int>)
    requires o.offset < UINT32 && |data| < UINT32 && Faultless(c.rs)
    ensures memOff >= GRAM_SIZE ==> WriteGramSpec(c, o, memOff, data) == Out(o, E_MEMORY_OUT_OF_BOUND)
    ensures memOff < GRAM_SIZE ==>
              WriteGramSpec(c, o, memOff, data)
              == AppendSpec(c, Oled(memOff, o.trace + CommandFrame(c.hooks, OffsetCommand(memOff % LINE_WIDTH, memOff / LINE_WIDTH))), data)
  {
    if memOff < GRAM_SIZE {
      SetOffsetMovesOnlyOnSuccess(c, o, memOff % LINE_WIDTH, memOff / LINE_WIDTH);
    }
  }

  // ------------------------------------------------------------- clear_gram

  /** The 16-byte buffer clear_gram fills with `fill`. */
  function FillBytes(fill: nat): seq<int>
  {
    seq(16, _ => fill)
  }

  /** The inner loop: 128 / 16 = 8 data frames of the fill buffer. */
  function PageFill(h: Hooks, fill: nat): seq<Event>
  {
    Copies(DataFrame(h, FillBytes(fill)), LINE_WIDTH / 16)
  }

  /** The outer loop from page i on: cursor to column 0 of the page, then
      the page's fill frames. */
  function ClearPages(c: Conf, o: Oled, fill: nat, i: nat): Out
    decreases LINE_COUNT - i
  {
    if i >= LINE_COUNT then Out(o, ALL_OK)
    else
      var s := SetOffsetSpec(c, o, 0, i);
      if s.err != ALL_OK then s
      else
        var w := Run(c.rs, s.oled.trace, PageFill(c.hooks, fill));
        if w.err != ALL_OK then Out(Oled(s.oled.offset, w.trace), w.err)
        else ClearPages(c, Oled(s.oled.offset, w.trace), fill, i + 1)
  }

  /** ssd1306_clear_gram: cursor to address 0, fill the eight pages, then set
      the cursor by address to where the loop left it. */
  function ClearGramSpec(c: Conf, o: Oled, fill: nat): Out
  {
    var s := SetOffsetByAddrSpec(c, o, 0);
    if s.err != ALL_OK then s
    else
      var l := ClearPages(c, s.oled, fill, 0);
      if l.err != ALL_OK then l
      else SetOffsetByAddrSpec(c, l.oled, l.oled.offset)
  }

  /** With no failing call the pages from i on are filled and the cursor is
      left at column 0 of page 7. */
  lemma {:induction false} ClearPagesFaultless(c: Conf, o: Oled, fill: nat, i: nat)
    requires Faultless(c.rs) && i < LINE_COUNT
    ensures var l := ClearPages(c, o, fill, i);
            l.err == ALL_OK && l.oled.offset == (LINE_COUNT - 1) * LINE_WIDTH
            && l.oled.trace == o.trace + ClearTrace(c.hooks, fill, i)
    decreases LINE_COUNT - i
  {
    SetOffsetMovesOnlyOnSuccess(c, o, 0, i);
    var s := SetOffsetSpec(c, o, 0, i);
    var cf := CommandFrame(c.hooks, OffsetCommand(0, i));
    var pf := PageFill(c.hooks, fill);
    RunFaultless(c.rs, s.oled.trace, pf);
    var o2 := Oled(i * LINE_WIDTH, o.trace + cf + pf);
    assert ClearPages(c, o, fill, i) == ClearPages(c, o2, fill, i + 1);
    if i + 1 < LINE_COUNT {
      ClearPagesFaultless(c, o2, fill, i + 1);
      AppendAssoc3(o.trace, cf, pf, ClearTrace(c.hooks, fill, i + 1));
    } else {
      assert ClearTrace(c.hooks, fill, i) == cf + pf + [];
    }
  }

  /** The events of the outer loop from page i on, when nothing fails. */
  function ClearTrace(h: Hooks, fill: nat, i: nat): seq<Event>
    decreases LINE_COUNT - i
  {
    if i >= LINE_COUNT then []
    else CommandFrame(h, OffsetCommand(0, i)) + PageFill(h, fill) + ClearTrace(h, fill, i + 1)
  }

  /** With no failing call, clear_gram fills all 8 pages with 8 frames of 16
      fill bytes each and leaves the cursor at 896 (column 0 of page 7), not
      where it was before the clear. */
  lemma ClearGramFaultless(c: Conf, o: Oled, fill: nat)
    requires Faultless(c.rs)
    ensures var r := ClearGramSpec(c, o, fill);
            r.err == ALL_OK && r.oled.offset == 896
            && r.oled.trace == o.trace + CommandFrame(c.hooks, OffsetCommand(0, 0))
                               + ClearTrace(c.hooks, fill, 0) + CommandFrame(c.hooks, OffsetCommand(0, 7))
  {
    SetOffsetByAddrRoundTrip(c, o, 0);
    SetOffsetMovesOnlyOnSuccess(c, o, 0, 0);
    var s := SetOffsetByAddrSpec(c, o, 0);
    ClearPagesFaultless(c, s.oled, fill, 0);
    var l := ClearPages(c, s.oled, fill, 0);
    SetOffsetMovesOnlyOnSuccess(c, l.oled, 0, 7);
  }

  /** Every page gets 8 frames of 16 bytes: the whole 1024-byte GRAM. */
  lemma {:induction false} PageFillCoversLine(h: Hooks, fill: nat, k: nat)
    ensures |Copies(DataFrame(h, FillBytes(fill)), k)| == k * |DataFrame(h, FillBytes(fill))|
    ensures k * |FillBytes(fill)| == 16 * k
  {
    if k > 0 {
      PageFillCoversLine(h, fill, k - 1);
    }
  }

  // ------------------------------------------------------------- the device

  /** The driver's device record: the hooks, the bus, and the cursor. */
  class Device {
    const hooks: Hooks
    const port: Port
    var writeOffset: nat

    function Config(): Conf
    {
      Conf(hooks, port.replies)
    }

    function State(): Oled
      reads this, port
    {
      Oled(writeOffset, port.trace)
    }

    ghost predicate Valid()
      reads this
    {
      writeOffset < UINT32
    }

    /** The record as init leaves it: zeroed, hooks copied in (the controller
        set-up that follows is not modelled). */
    constructor (hooks: Hooks, port: Port)
      ensures this.hooks == hooks && this.port == port && writeOffset == 0 && Valid()
    {
      this.hooks := hooks;
      this.port := port;
      writeOffset := 0;
    }

    method WriteCommandSequence(cmds: seq<int>) returns (err: int)
      modifies port
      ensures Issued(port.trace, err) == Run(port.replies, old(port.trace), CommandFrame(hooks, cmds))
    {
      err := port.Issue(CommandFrame(hooks, cmds));
    }

    method WriteData(data: seq<int>) returns (err: int)
      modifies port
      ensures Issued(port.trace, err) == Run(port.replies, old(port.trace), DataFrame(hooks, data))
    {
      err := port.Issue(DataFrame(hooks, data));
    }

    method SetOffset(col: nat, row: nat) returns (err: int)
      requires Valid()
      modifies this, port
      ensures Valid()
      ensures Out(State(), err) == SetOffsetSpec(Config(), old(State()), col, row)
    {
      if col >= LINE_WIDTH || row >= LINE_COUNT {
        return E_MEMORY_OUT_OF_BOUND;
      }
      err := WriteCommandSequence(OffsetCommand(col, row));
      if err != ALL_OK {
        return;
      }
      writeOffset := col + row * LINE_WIDTH;
    }

    method SetOffsetByAddr(off: nat) returns (err: int)
      requires Valid()
      modifies this, port
      ensures Valid()
      ensures Out(State(), err) == SetOffsetByAddrSpec(Config(), old(State()), off)
    {
      if off >= GRAM_SIZE {
        return E_MEMORY_OUT_OF_BOUND;
      }
      err := SetOffset(off % LINE_WIDTH, off / LINE_WIDTH);
    }

    method AppendGram(data: seq<int>) returns (err: int)
      requires Valid() && |data| < UINT32
      modifies this, port
      ensures Valid()
      ensures Out(State(), err) == AppendSpec(Config(), old(State()), data)
    {
      var cur := writeOffset;
      if Uint32(cur + |data|) > GRAM_SIZE {
        return E_MEMORY_OUT_OF_BOUND;
      }
      err := WriteLines(data, cur / LINE_WIDTH, LINE_WIDTH - cur % LINE_WIDTH);
      if err != ALL_OK {
        return;
      }
      writeOffset := Uint32(writeOffset + |data|);
    }

    /** The do-while loop of append_gram. */
    method WriteLines(data: seq<int>, row0: nat, colLeft: nat) returns (err: int)
      requires Valid() && colLeft > 0
      modifies this, port
      ensures Valid()
      ensures Out(State(), err) == AppendLoop(Config(), old(State()), data, row0, colLeft)
    {
      ghost var target := AppendLoop(Config(), State(), data, row0, colLeft);
      var row := row0;
      var pos := 0;
      var more := true;
      while more
        invariant 0 <= pos <= |data| && Valid()
        invariant more ==> target == AppendLoop(Config(), State(), data[pos..], row, colLeft)
        invariant !more ==> target == Out(State(), ALL_OK)
        decreases |data| - pos, more
      {
        var w := Min(|data| - pos, colLeft);
        assert data[pos..][..w] == data[pos..pos + w];
        err := WriteData(data[pos..pos + w]);
        if err != ALL_OK {
          return;
        }
        pos := pos + w;
        if pos < |data| {
          assert data[pos - w..][w..] == data[pos..];
          row := row + 1;
          err := SetOffset(0, row);
          if err != ALL_OK {
            return;
          }
        } else {
          more := false;
        }
      }
      err := ALL_OK;
    }

    method WriteGram(memOff: nat, data: seq<int>) returns (err: int)
      requires Valid() && |data| < UINT32
      modifies this, port
      ensures Valid()
      ensures Out(State(), err) == WriteGramSpec(Config(), old(State()), memOff, data)
    {
      if memOff >= GRAM_SIZE {
        return E_MEMORY_OUT_OF_BOUND;
      }
      err := SetOffset(memOff % LINE_WIDTH, memOff / LINE_WIDTH);
      if err != ALL_OK {
        return;
      }
      err := AppendGram(data);
    }

    method ClearGram(fill: nat) returns (err: int)
      requires Valid() && fill < 256
      modifies this, port
      ensures Valid()
      ensures Out(State(), err) == ClearGramSpec(Config(), old(State()), fill)
    {
      err := SetOffsetByAddr(0);
      if err != ALL_OK {
        return;
      }
      ghost var pages := ClearPages(Config(), State(), fill, 0);
      var dummy := FillBytes(fill);
      var i := 0;
      while i < LINE_COUNT
        invariant 0 <= i <= LINE_COUNT && Valid()
        invariant pages == ClearPages(Config(), State(), fill, i)
      {
        err := SetOffset(0, i);
        if err != ALL_OK {
          return;
        }
        ghost var t0 := port.trace;
        ghost var off0 := writeOffset;
        var j := 0;
        while j < LINE_WIDTH / 16
          invariant 0 <= j <= LINE_WIDTH / 16 && writeOffset == off0
          invariant Run(port.replies, t0, PageFill(hooks, fill))
                    == Run(port.replies, port.trace, Copies(DataFrame(hooks, dummy), LINE_WIDTH / 16 - j))
        {
          CopiesCons(DataFrame(hooks, dummy), LINE_WIDTH / 16 - j - 1);
          RunAppend(port.replies, port.trace, DataFrame(hooks, dummy), Copies(DataFrame(hooks, dummy), LINE_WIDTH / 16 - j - 1));
          err := WriteData(dummy);
          if err != ALL_OK {
            return;
          }
          j := j + 1;
        }
        i := i + 1;
      }
      err := SetOffsetByAddr(writeOffset);
    }
  }
}
