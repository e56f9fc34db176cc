/** The SSD1315 OLED driver: the same 1024-byte GRAM as the SSD1306, but the
    cursor is kept as a column and a page (two uint8 fields), commands go out
    one byte per chip-select pulse, and data transfers take no bus lock of
    their own. `set_offset` moves the cursor before it sends the command, and
    `append` ignores the result of the set_offset it issues between pieces. */
module Ssd1315 {
  import opened Errors
  import opened Bus
  import opened Gram
  import opened Common

  /** The driver's view of the device: the cursor (column and page, uint8
      each) and the bus trace. */
  datatype Oled = Oled(col: nat, row: nat, trace: seq<Event>)

  datatype Out = Out(oled: Oled, err: int)

  /** Which bytes a list of events puts on the wire, and as what. */
  datatype Channel = Commands | Data

  // ------------------------------------------------------------- bus frames

  /** One chip-select pulse per command byte. */
  function ByteFrames(cmds: seq<int>): seq<Event>
    decreases |cmds|
  {
    if cmds == [] then [] else [Cs(0), Cmd([cmds[0]]), Cs(1)] + ByteFrames(cmds[1..])
  }

  /** SSD1315_write_command_sequence: acquire (if set), CS high, D/C low,
      the bytes one pulse each, CS high, D/C high, release (if set). */
  function CommandSequence(h: Hooks, cmds: seq<int>): seq<Event>
  {
    AcquireStep(h) + [Cs(1), Dc(0)] + ByteFrames(cmds) + [Cs(1), Dc(1)] + ReleaseStep(h)
  }

  /** SSD1315_write_data_to_bus: CS low, the write, CS high, D/C high; no
      bus lock. */
  function DataToBus(data: seq<int>): seq<Event>
  {
    [Cs(0), Write(data), Cs(1), Dc(1)]
  }

  /** The bytes an event carries on a channel. */
  function Carried(e: Event, ch: Channel): seq<int>
  {
    match e
    case Cmd(b) => if ch == Commands then b else []
    case Write(b) => if ch == Data then b else []
    case _ => []
  }

  /** The size of a data transfer, as a one-element list; nothing for any
      other event. */
  function WriteSize(e: Event): seq<nat>
  {
    if e.Write? then [|e.bytes|] else []
  }

  /** What `f` picks out of each event, in order. */
  function Gather<T>(evs: seq<Event>, f: Event -> seq<T>): seq<T>
    decreases |evs|
  {
    if evs == [] then [] else f(evs[0]) + Gather(evs[1..], f)
  }

  /** Everything a list of events sends on a channel, in order. */
  function Sent(evs: seq<Event>, ch: Channel): seq<int>
  {
    Gather(evs, e => Carried(e, ch))
  }

  /** The sizes of the data transfers in a list of events. */
  function WriteSizes(evs: seq<Event>): seq<nat>
  {
    Gather(evs, WriteSize)
  }

  lemma {:induction false} GatherAppend<T>(a: seq<Event>, b: seq<Event>, f: Event -> seq<T>)
    ensures Gather(a + b, f) == Gather(a, f) + Gather(b, f)
    decreases |a|
  {
    if a != [] {
      assert (a + b)[0] == a[0];
      assert (a + b)[1..] == a[1..] + b;
      GatherAppend(a[1..], b, f);
      calc {
        Gather(a + b, f);
        f(a[0]) + Gather(a[1..] + b, f);
        f(a[0]) + (Gather(a[1..], f) + Gather(b, f));
      }
    } else {
      assert a + b == b;
    }
  }

  lemma GatherCons<T>(e: Event, evs: seq<Event>, f: Event -> seq<T>)
    ensures Gather([e] + evs, f) == f(e) + Gather(evs, f)
  {
    assert ([e] + evs)[1..] == evs;
  }

  lemma GatherOne<T>(e: Event, f: Event -> seq<T>)
    ensures Gather([e], f) == f(e)
  {
    assert [e][1..] == [];
  }

  /** What `f` picks out of the frame of one command byte. */
  lemma GatherByte<T>(b: int, f: Event -> seq<T>)
    ensures Gather([Cs(0), Cmd([b]), Cs(1)], f) == f(Cs(0)) + f(Cmd([b])) + f(Cs(1))
  {
    GatherOne(Cs(1), f);
    GatherCons(Cmd([b]), [Cs(1)], f);
    GatherCons(Cs(0), [Cmd([b]), Cs(1)], f);
  }

  /** What `f` picks out of a data transfer. */
  lemma GatherData<T>(data: seq<int>, f: Event -> seq<T>)
    ensures Gather(DataToBus(data), f) == f(Cs(0)) + f(Write(data)) + f(Cs(1)) + f(Dc(1))
  {
    GatherOne(Dc(1), f);
    GatherCons(Cs(1), [Dc(1)], f);
    GatherCons(Write(data), [Cs(1), Dc(1)], f);
    GatherCons(Cs(0), [Write(data), Cs(1), Dc(1)], f);
  }

  /** What `f` picks out of the fixed parts of a command sequence. */
  lemma GatherFixed<T>(h: Hooks, f: Event -> seq<T>)
    ensures Gather([Cs(1), Dc(0)], f) == f(Cs(1)) + f(Dc(0))
    ensures Gather([Cs(1), Dc(1)], f) == f(Cs(1)) + f(Dc(1))
    ensures Gather(AcquireStep(h), f) == (if h.hasAcquire then f(Acquire) else [])
    ensures Gather(ReleaseStep(h), f) == (if h.hasRelease then f(Release) else [])
  {
    GatherOne(Dc(0), f);
    GatherOne(Dc(1), f);
    GatherOne(Acquire, f);
    GatherOne(Release, f);
    GatherCons(Cs(1), [Dc(0)], f);
    GatherCons(Cs(1), [Dc(1)], f);
  }

  /** The byte pulses send exactly the command bytes, in order, and no data. */
  lemma {:induction false} ByteFramesSend(cmds: seq<int>, ch: Channel)
    ensures Sent(ByteFrames(cmds), ch) == (if ch == Commands then cmds else [])
    decreases |cmds|
  {
    if cmds != [] {
      var f := [Cs(0), Cmd([cmds[0]]), Cs(1)];
      ByteFramesSend(cmds[1..], ch);
      GatherAppend(f, ByteFrames(cmds[1..]), e => Carried(e, ch));
      GatherByte(cmds[0], e => Carried(e, ch));
      assert [cmds[0]] + cmds[1..] == cmds;
    }
  }

  /** The byte pulses hold no data transfer. */
  lemma {:induction false} ByteFramesNoWrite(cmds: seq<int>)
    ensures WriteSizes(ByteFrames(cmds)) == [] && |ByteFrames(cmds)| == 3 * |cmds|
    decreases |cmds|
  {
    if cmds != [] {
      var f := [Cs(0), Cmd([cmds[0]]), Cs(1)];
      ByteFramesNoWrite(cmds[1..]);
      GatherAppend(f, ByteFrames(cmds[1..]), WriteSize);
      GatherByte(cmds[0], WriteSize);
    }
  }

  /** A command sequence sends exactly its bytes as commands, no data and no
      data transfer, in 4 + 3 * n calls plus the hooks that are set. */
  lemma CommandSequenceCarries(h: Hooks, cmds: seq<int>)
    ensures Sent(CommandSequence(h, cmds), Commands) == cmds
    ensures Sent(CommandSequence(h, cmds), Data) == []
    ensures WriteSizes(CommandSequence(h, cmds)) == []
    ensures |CommandSequence(h, cmds)|
            == 4 + 3 * |cmds| + (if h.hasAcquire then 1 else 0) + (if h.hasRelease then 1 else 0)
  {
    CommandSequenceGathers(h, cmds, Commands);
    CommandSequenceGathers(h, cmds, Data);
    CommandSequenceNoWrite(h, cmds);
  }

  lemma CommandSequenceNoWrite(h: Hooks, cmds: seq<int>)
    ensures WriteSizes(CommandSequence(h, cmds)) == []
    ensures |CommandSequence(h, cmds)|
            == 4 + 3 * |cmds| + (if h.hasAcquire then 1 else 0) + (if h.hasRelease then 1 else 0)
  {
    ByteFramesNoWrite(cmds);
    var a, b, d, r := AcquireStep(h), [Cs(1), Dc(0)], [Cs(1), Dc(1)], ReleaseStep(h);
    PartsCarry(a, b, ByteFrames(cmds), d, r, WriteSize);
    GatherFixed(h, WriteSize);
  }

  lemma CommandSequenceGathers(h: Hooks, cmds: seq<int>, ch: Channel)
    ensures Sent(CommandSequence(h, cmds), ch) == (if ch == Commands then cmds else [])
  {
    ByteFramesSend(cmds, ch);
    var a, b, d, r := AcquireStep(h), [Cs(1), Dc(0)], [Cs(1), Dc(1)], ReleaseStep(h);
    PartsCarry(a, b, ByteFrames(cmds), d, r, e => Carried(e, ch));
    GatherFixed(h, e => Carried(e, ch));
  }

  lemma PartsCarry<T>(a: seq<Event>, b: seq<Event>, f: seq<Event>, d: seq<Event>, r: seq<Event>, g: Event -> seq<T>)
    ensures Gather(a + b + f + d + r, g) == Gather(a, g) + Gather(b, g) + Gather(f, g) + Gather(d, g) + Gather(r, g)
  {
    GatherAppend(a + b + f + d, r, g);
    GatherAppend(a + b + f, d, g);
    GatherAppend(a + b, f, g);
    GatherAppend(a, b, g);
  }

  /** A data transfer sends its bytes as data and no command, in one
      transfer of their size. */
  lemma DataToBusCarries(data: seq<int>)
    ensures Sent(DataToBus(data), Data) == data && Sent(DataToBus(data), Commands) == []
    ensures WriteSizes(DataToBus(data)) == [|data|]
  {
    DataToBusSends(data, Commands);
    DataToBusSends(data, Data);
    DataToBusSize(data);
  }

  lemma DataToBusSends(data: seq<int>, ch: Channel)
    ensures Sent(DataToBus(data), ch) == (if ch == Data then data else [])
  {
    GatherData(data, e => Carried(e, ch));
  }

  lemma DataToBusSize(data: seq<int>)
    ensures WriteSizes(DataToBus(data)) == [|data|]
  {
    GatherData(data, WriteSize);
  }

  // ------------------------------------------------------------- set_offset

  /** SSD1315_set_offset: reject a column past 127 or a page past 7 with
      E_MEMORY_OUT_OF_BOUND before any bus call; otherwise store the cursor,
      then send the three-byte command and return its result. */
  function SetOffsetSpec(c: Conf, o: Oled, col: nat, row: nat): Out
  {
    if col >= LINE_WIDTH || row >= LINE_COUNT then Out(o, E_MEMORY_OUT_OF_BOUND)
    else
      var r := Run(c.rs, o.trace, CommandSequence(c.hooks, OffsetCommand(col, row)));
      Out(Oled(col, row, r.trace), r.err)
  }

  /** The cursor moves to any position on the GRAM even when the command
      that should move the controller's cursor fails; a rejected position
      leaves everything as it was; with no failing call every position on the
      GRAM is accepted and its command sent whole. */
  lemma SetOffsetMovesFirst(c: Conf, o: Oled, col: nat, row: nat)
    ensures var r := SetOffsetSpec(c, o, col, row);
            ((col >= LINE_WIDTH || row >= LINE_COUNT) ==> r == Out(o, E_MEMORY_OUT_OF_BOUND))
            && ((col < LINE_WIDTH && row < LINE_COUNT) ==>
                  (r.oled.col == col && r.oled.row == row && o.trace < r.oled.trace
                   && (r.err == ALL_OK ==> r.oled.trace == o.trace + CommandSequence(c.hooks, OffsetCommand(col, row)))))
            && (Faultless(c.rs) ==> (r.err == ALL_OK <==> col < LINE_WIDTH && row < LINE_COUNT))
  {
    if col < LINE_WIDTH && row < LINE_COUNT {
      var cs := CommandSequence(c.hooks, OffsetCommand(col, row));
      RunShape(c.rs, o.trace, cs);
      if Faultless(c.rs) {
        RunFaultless(c.rs, o.trace, cs);
      }
    }
  }

  /** The command sequence set_offset sends for page `row` at column 0: none
      when the page is past the GRAM. */
  function Reposition(h: Hooks, row: nat): seq<Event>
  {
    if row < LINE_COUNT then CommandSequence(h, OffsetCommand(0, row)) else []
  }

  /** With no failing call, set_offset to column 0 of a page moves the cursor
      there and sends Reposition, or is refused untouched past the GRAM. */
  lemma SetOffsetFaultless(c: Conf, o: Oled, row: nat)
    requires Faultless(c.rs)
    ensures var r := SetOffsetSpec(c, o, 0, row);
            r.oled.trace == o.trace + Reposition(c.hooks, row)
            && (row < LINE_COUNT ==> r == Out(Oled(0, row, o.trace + Reposition(c.hooks, row)), ALL_OK))
            && (row >= LINE_COUNT ==> r == Out(o, E_MEMORY_OUT_OF_BOUND))
  {
    if row < LINE_COUNT {
      RunFaultless(c.rs, o.trace, Reposition(c.hooks, row));
    }
  }

  /** SSD1315_set_mem_offset: reject an address past the GRAM, otherwise
      set_offset(off % 128, off / 128). */
  function SetMemOffsetSpec(c: Conf, o: Oled, off: nat): Out
  {
    if off >= GRAM_SIZE then Out(o, E_MEMORY_OUT_OF_BOUND)
    else SetOffsetSpec(c, o, off % LINE_WIDTH, off / LINE_WIDTH)
  }

  /** Setting the cursor by address lands it on that address, whatever the
      command's result. */
  lemma SetMemOffsetRoundTrip(c: Conf, o: Oled, off: nat)
    ensures var r := SetMemOffsetSpec(c, o, off);
            (off >= GRAM_SIZE ==> r == Out(o, E_MEMORY_OUT_OF_BOUND))
            && (off < GRAM_SIZE ==> r.oled.col < LINE_WIDTH && r.oled.col + r.oled.row * LINE_WIDTH == off)
            && (Faultless(c.rs) ==> (r.err == ALL_OK <==> off < GRAM_SIZE))
  {
    if off < GRAM_SIZE {
      SetOffsetMovesFirst(c, o, off % LINE_WIDTH, off / LINE_WIDTH);
    }
  }

  // ------------------------------------------------------------ append_gram

  /** Assignment to a uint8 field keeps the low 8 bits. */
  function Uint8(x: nat): (r: nat)
    ensures r < 256
  {
    x % 256
  }

  /** The linear address of the cursor. */
  function Address(o: Oled): nat
  {
    o.col + o.row * LINE_WIDTH
  }

  /** The cursor for address e: column e % 128, page e / 128. */
  function CursorAt(e: nat, t: seq<Event>): (o: Oled)
    ensures Address(o) == e && o.col < LINE_WIDTH && o.trace == t
  {
    Oled(e % LINE_WIDTH, e / LINE_WIDTH, t)
  }

  /** The room left on the line of address cur. */
  function LineSpace(cur: nat): (n: nat)
    ensures 0 < n <= LINE_WIDTH && (cur + n) % LINE_WIDTH == 0
  {
    LINE_WIDTH - cur % LINE_WIDTH
  }

  /** The while loop of append_gram from `data` on: write min(left, space)
      bytes (space is the room on the starting line, computed from the
      unchanged starting address on every pass); add the size to the column
      (uint8); while data is left, go to column 0 of the next page (uint8)
      and call set_offset there, ignoring its result. */
  function AppendLoop(c: Conf, o: Oled, data: seq<int>, space: nat): Out
    requires space > 0
    decreases |data|
  {
    if data == [] then Out(o, ALL_OK)
    else
      var w := Min(|data|, space);
      var r := Run(c.rs, o.trace, DataToBus(data[..w]));
      if r.err != ALL_OK then Out(Oled(o.col, o.row, r.trace), r.err)
      else if w == |data| then Out(Oled(Uint8(o.col + w), o.row, r.trace), ALL_OK)
      else
        var row := Uint8(o.row + 1);
        var s := SetOffsetSpec(c, Oled(0, row, r.trace), 0, row);
        AppendLoop(c, s.oled, data[w..], space)
  }

  /** SSD1315_append_gram: refuse with E_MEMORY_NOT_ENOUTH a write that runs
      past the GRAM (the sum is a uint32) before any bus call; acquire, CS
      high, D/C high; the loop; release; then put the cursor just past the
      data. */
  function AppendSpec(c: Conf, o: Oled, data: seq<int>): Out
    requires o.col < 256 && o.row < 256 && |data| < UINT32
  {
    var cur := Address(o);
    if Uint32(cur + |data|) > GRAM_SIZE then Out(o, E_MEMORY_NOT_ENOUGH)
    else AppendBus(c, o, data, LineSpace(cur), Uint32(cur + |data|))
  }

  /** The bus part of append_gram, past the size check: acquire, CS high,
      D/C high, the loop with the given room on the first line, release;
      then the cursor to address `end`. */
  function AppendBus(c: Conf, o: Oled, data: seq<int>, space: nat, end: nat): Out
    requires space > 0
  {
    var a := Run(c.rs, o.trace, AcquireStep(c.hooks) + [Cs(1), Dc(1)]);
    if a.err != ALL_OK then Out(Oled(o.col, o.row, a.trace), a.err)
    else
      var l := AppendLoop(c, Oled(o.col, o.row, a.trace), data, space);
      if l.err != ALL_OK then l
      else
        var r := Run(c.rs, l.oled.trace, ReleaseStep(c.hooks));
        if r.err != ALL_OK then Out(Oled(l.oled.col, l.oled.row, r.trace), r.err)
        else Out(CursorAt(end, r.trace), ALL_OK)
  }

  /** A write that does not fit between the cursor and the end of the GRAM is
      refused before any bus call, and only such a write. */
  lemma AppendRejectsBeforeBus(c: Conf, o: Oled, data: seq<int>)
    requires o.col < 256 && o.row < 256 && |data| < UINT32
    requires Address(o) + |data| < UINT32
    ensures Address(o) + |data| > GRAM_SIZE <==> AppendSpec(c, o, data) == Out(o, E_MEMORY_NOT_ENOUGH)
  {
    if Address(o) + |data| <= GRAM_SIZE {
      AppendBusExtends(c, o, data, LineSpace(Address(o)), Address(o) + |data|);
    }
  }

  /** Past the size check, append always makes at least one bus call. */
  lemma AppendBusExtends(c: Conf, o: Oled, data: seq<int>, space: nat, end: nat)
    requires space > 0
    ensures o.trace < AppendBus(c, o, data, space, end).oled.trace
  {
    var a := AcquireStep(c.hooks) + [Cs(1), Dc(1)];
    RunShape(c.rs, o.trace, a);
    var r := Run(c.rs, o.trace, a);
    if r.err == ALL_OK {
      var l := AppendLoop(c, Oled(o.col, o.row, r.trace), data, space);
      AppendLoopExtends(c, Oled(o.col, o.row, r.trace), data, space);
      if l.err == ALL_OK {
        RunShape(c.rs, l.oled.trace, ReleaseStep(c.hooks));
      }
    }
  }

  /** The loop only adds to the trace. */
  lemma {:induction false} AppendLoopExtends(c: Conf, o: Oled, data: seq<int>, space: nat)
    requires space > 0
    ensures o.trace <= AppendLoop(c, o, data, space).oled.trace
    decreases |data|
  {
    if data != [] {
      var w := Min(|data|, space);
      RunShape(c.rs, o.trace, DataToBus(data[..w]));
      var r := Run(c.rs, o.trace, DataToBus(data[..w]));
      if r.err == ALL_OK && w < |data| {
        var row := Uint8(o.row + 1);
        var s := SetOffsetSpec(c, Oled(0, row, r.trace), 0, row);
        SetOffsetMovesFirst(c, Oled(0, row, r.trace), 0, row);
        AppendLoopExtends(c, s.oled, data[w..], space);
      }
    }
  }

  /** Whenever append succeeds, the cursor is just past the data: a column
      on the GRAM and the address start + size (uint32), so the page is 8
      exactly when the write ends at the end of the GRAM. */
  lemma AppendLeavesCursorAtEnd(c: Conf, o: Oled, data: seq<int>)
    requires o.col < 256 && o.row < 256 && |data| < UINT32
    ensures var r := AppendSpec(c, o, data);
            r.err == ALL_OK ==>
              r.oled.col < LINE_WIDTH && r.oled.row <= LINE_COUNT
              && Address(r.oled) == Uint32(Address(o) + |data|)
              && (Address(o) + |data| < UINT32 ==> Address(r.oled) == IntendedCursor(Address(o), |data|))
  {
  }

  /** The events of a loop in which no call fails: each piece as a data
      transfer and, between two pieces, the set_offset command for column 0
      of the next page (uint8), which sends nothing when that page is past
      the GRAM. */
  function LoopTrace(h: Hooks, data: seq<int>, space: nat, row: nat): seq<Event>
    requires space > 0
    decreases |data|
  {
    if data == [] then []
    else
      var w := Min(|data|, space);
      if w == |data| then DataToBus(data)
      else
        var next := Uint8(row + 1);
        DataToBus(data[..w]) + Reposition(h, next) + LoopTrace(h, data[w..], space, next)
  }

  /** One pass of the loop, given the outcome r of its data transfer. */
  lemma AppendLoopPass(c: Conf, o: Oled, data: seq<int>, space: nat, r: Issued)
    requires space > 0 && data != []
    requires r == Run(c.rs, o.trace, DataToBus(data[..Min(|data|, space)]))
    ensures var w := Min(|data|, space);
            var l := AppendLoop(c, o, data, space);
            (r.err != ALL_OK ==> l == Out(Oled(o.col, o.row, r.trace), r.err))
            && (r.err == ALL_OK && w == |data| ==> l == Out(Oled(Uint8(o.col + w), o.row, r.trace), ALL_OK))
            && (r.err == ALL_OK && w < |data| ==>
                  l == AppendLoop(c, SetOffsetSpec(c, Oled(0, Uint8(o.row + 1), r.trace), 0, Uint8(o.row + 1)).oled,
                                  data[w..], space))
  {
  }

  /** A loop that needs another page: the first piece, the set_offset to the
      next page, then the loop on the rest. */
  lemma LoopTraceStep(h: Hooks, data: seq<int>, space: nat, row: nat)
    requires 0 < space < |data|
    ensures LoopTrace(h, data, space, row)
            == DataToBus(data[..space]) + Reposition(h, Uint8(row + 1))
               + LoopTrace(h, data[space..], space, Uint8(row + 1))
  {
  }

  /** The last piece of a loop is one data transfer. */
  lemma LoopTraceLast(h: Hooks, data: seq<int>, space: nat, row: nat)
    requires 0 < |data| <= space
    ensures LoopTrace(h, data, space, row) == DataToBus(data)
  {
  }

  /** With no failing call the loop succeeds, whatever the number of pages it
      needs, and issues LoopTrace. */
  lemma {:induction false} AppendLoopFaultless(c: Conf, o: Oled, data: seq<int>, space: nat)
    requires Faultless(c.rs) && space > 0
    ensures var l := AppendLoop(c, o, data, space);
            l.err == ALL_OK && l.oled.trace == o.trace + LoopTrace(c.hooks, data, space, o.row)
    decreases |data|
  {
    if data != [] {
      var w := Min(|data|, space);
      var df := DataToBus(data[..w]);
      RunFaultless(c.rs, o.trace, df);
      if w < |data| {
        var next := Uint8(o.row + 1);
        var cf := Reposition(c.hooks, next);
        SetOffsetFaultless(c, Oled(0, next, o.trace + df), next);
        var s := SetOffsetSpec(c, Oled(0, next, o.trace + df), 0, next);
        assert s.oled == Oled(0, next, o.trace + df + cf);
        assert AppendLoop(c, o, data, space) == AppendLoop(c, s.oled, data[w..], space);
        AppendLoopFaultless(c, s.oled, data[w..], space);
        var rest := LoopTrace(c.hooks, data[w..], space, next);
        LoopTraceStep(c.hooks, data, space, o.row);
        AppendAssoc3(o.trace, df, cf, rest);
      } else {
        assert data[..w] == data;
        assert AppendLoop(c, o, data, space) == Out(Oled(Uint8(o.col + w), o.row, o.trace + df), ALL_OK);
        LoopTraceLast(c.hooks, data, space, o.row);
      }
    }
  }

  /** The loop sends the data, in order, once, as data. */
  lemma {:induction false} LoopTraceSendsData(h: Hooks, data: seq<int>, space: nat, row: nat)
    requires space > 0
    ensures Sent(LoopTrace(h, data, space, row), Data) == data
    decreases |data|
  {
    if data != [] {
      var w := Min(|data|, space);
      if w < |data| {
        var next := Uint8(row + 1);
        var df, cf := DataToBus(data[..w]), Reposition(h, next);
        DataToBusSends(data[..w], Data);
        var rest := LoopTrace(h, data[w..], space, next);
        RepositionSendsNoData(h, next);
        LoopTraceSendsData(h, data[w..], space, next);
        SentJoin(df, cf, rest, data[..w], data[w..], Data);
        SplitAt(data, w);
      } else {
        DataToBusSends(data, Data);
      }
    }
  }

  lemma RepositionSendsNoData(h: Hooks, row: nat)
    ensures Sent(Reposition(h, row), Data) == []
  {
    if row < LINE_COUNT {
      CommandSequenceGathers(h, OffsetCommand(0, row), Data);
    }
  }

  lemma RepositionNoWrite(h: Hooks, row: nat)
    ensures WriteSizes(Reposition(h, row)) == []
  {
    if row < LINE_COUNT {
      CommandSequenceNoWrite(h, OffsetCommand(0, row));
    }
  }

  /** What a data piece, a command sequence and the rest send. */
  lemma SentJoin(df: seq<Event>, cf: seq<Event>, rest: seq<Event>, x: seq<int>, y: seq<int>, ch: Channel)
    requires Sent(df, ch) == x && Sent(cf, ch) == [] && Sent(rest, ch) == y
    ensures Sent(df + cf + rest, ch) == x + y
  {
    PiecesGather(df, cf, rest, e => Carried(e, ch));
  }

  /** The transfers of a data piece, a command sequence and the rest. */
  lemma SizesJoin(df: seq<Event>, cf: seq<Event>, rest: seq<Event>, x: seq<nat>, y: seq<nat>)
    requires WriteSizes(df) == x && WriteSizes(cf) == [] && WriteSizes(rest) == y
    ensures WriteSizes(df + cf + rest) == x + y
  {
    PiecesGather(df, cf, rest, WriteSize);
  }

  lemma SplitAt<T>(s: seq<T>, w: nat)
    requires w <= |s|
    ensures s[..w] + s[w..] == s
  {
  }

  lemma PiecesGather<T>(df: seq<Event>, cf: seq<Event>, rest: seq<Event>, g: Event -> seq<T>)
    ensures Gather(df + cf + rest, g) == Gather(df, g) + Gather(cf, g) + Gather(rest, g)
  {
    GatherAppend(df + cf, rest, g);
    GatherAppend(df, cf, g);
  }

  /** The loop writes a non-empty write in the pieces of ChunkSizes: the
      space on the starting line, again and again, then the rest. */
  lemma {:induction false} LoopTracePieces(h: Hooks, data: seq<int>, space: nat, row: nat)
    requires space > 0 && data != []
    ensures WriteSizes(LoopTrace(h, data, space, row)) == ChunkSizes(|data|, space)
    decreases |data|
  {
    var w := Min(|data|, space);
    if w < |data| {
      var next := Uint8(row + 1);
      var df, cf := DataToBus(data[..w]), Reposition(h, next);
      DataToBusSize(data[..w]);
      var rest := LoopTrace(h, data[w..], space, next);
      RepositionNoWrite(h, next);
      LoopTracePieces(h, data[w..], space, next);
      SizesJoin(df, cf, rest, [w], ChunkSizes(|data| - w, space));
    } else {
      DataToBusSize(data);
    }
  }

  /** With no failing call, a write that fits the GRAM succeeds: the bus
      sees acquire, CS and D/C high, the loop, release, and the cursor ends
      just past the data (CursorAt: the address start + size). */
  lemma AppendFaultless(c: Conf, o: Oled, data: seq<int>)
    requires Faultless(c.rs) && o.col < 256 && o.row < 256
    requires Address(o) + |data| <= GRAM_SIZE
    ensures AppendSpec(c, o, data)
            == Out(CursorAt(Address(o) + |data|,
                            o.trace + AcquireStep(c.hooks) + [Cs(1), Dc(1)]
                            + LoopTrace(c.hooks, data, LineSpace(Address(o)), o.row) + ReleaseStep(c.hooks)),
                   ALL_OK)
  {
    AppendSpecFits(c, o, data);
    AppendBusFaultless(c, o, data, LineSpace(Address(o)), Address(o) + |data|);
  }

  /** A write that fits the GRAM goes to the bus part with its end address. */
  lemma AppendSpecFits(c: Conf, o: Oled, data: seq<int>)
    requires o.col < 256 && o.row < 256 && Address(o) + |data| <= GRAM_SIZE
    ensures AppendSpec(c, o, data) == AppendBus(c, o, data, LineSpace(Address(o)), Address(o) + |data|)
  {
    var end := Uint32(Address(o) + |data|);
    assert end == Address(o) + |data| <= GRAM_SIZE;
  }

  /** With no failing call the bus part succeeds and issues acquire, CS and
      D/C high, LoopTrace and release. */
  lemma AppendBusFaultless(c: Conf, o: Oled, data: seq<int>, space: nat, end: nat)
    requires Faultless(c.rs) && space > 0
    ensures AppendBus(c, o, data, space, end)
            == Out(CursorAt(end, o.trace + AcquireStep(c.hooks) + [Cs(1), Dc(1)]
                                 + LoopTrace(c.hooks, data, space, o.row) + ReleaseStep(c.hooks)), ALL_OK)
  {
    var a := AcquireStep(c.hooks) + [Cs(1), Dc(1)];
    RunFaultless(c.rs, o.trace, a);
    var o1 := Oled(o.col, o.row, o.trace + a);
    AppendLoopFaultless(c, o1, data, space);
    var l := AppendLoop(c, o1, data, space);
    RunFaultless(c.rs, l.oled.trace, ReleaseStep(c.hooks));
    assert o.trace + a == o.trace + AcquireStep(c.hooks) + [Cs(1), Dc(1)];
    var t := l.oled.trace + ReleaseStep(c.hooks);
    assert AppendBus(c, o, data, space, end) == Out(CursorAt(end, t), ALL_OK);
  }

  /** As written, a write of 300 bytes from column 10 of page 0 succeeds
      when no call fails and goes out in pieces of 118, 118 and 64 bytes,
      which leave a gap on page 1; a write of 1014 bytes from there, which
      fits the GRAM, needs nine pages and still reports success. */
  lemma AppendPastLastPage(c: Conf, o: Oled, data: seq<int>)
    requires Faultless(c.rs) && o.col == 10 && o.row == 0
    requires |data| == 300 || |data| == 1014
    ensures var r := AppendSpec(c, o, data);
            var pieces := WriteSizes(LoopTrace(c.hooks, data, 118, 0));
            r.err == ALL_OK
            && pieces == PiecesAsWritten(10, |data|)
            && (|data| == 300 ==> pieces == [118, 118, 64] && !Contiguous(10, pieces))
            && (|data| == 1014 ==> |pieces| == 9 > LINE_COUNT)
  {
    AppendFaultless(c, o, data);
    LoopTracePieces(c.hooks, data, 118, 0);
    PiecesFromColumnTen();
  }

  // ------------------------------------------------------------- write_gram

  /** SSD1315_write_gram: refuse with E_MEMORY_NOT_ENOUTH a write that runs
      past the GRAM (uint32 sum) before any bus call, place the cursor with
      set_offset(mem_off % 128, mem_off / 128), then append; the first
      failure is returned. */
  function WriteGramSpec(c: Conf, o: Oled, memOff: nat, data: seq<int>): Out
    requires o.col < 256 && o.row < 256 && memOff < UINT32 && |data| < UINT32
  {
    if Uint32(memOff + |data|) > GRAM_SIZE then Out(o, E_MEMORY_NOT_ENOUGH)
    else
      var s := SetOffsetSpec(c, o, memOff % LINE_WIDTH, memOff / LINE_WIDTH);
      if s.err != ALL_OK then s
      else AppendSpec(c, s.oled, data)
  }

  /** write_gram writes at the address it is given: a write past the GRAM is
      refused untouched, and with no failing call a write that fits starts
      with the set_offset for its address and leaves the cursor just past the
      data. The one address that passes the size check but is not on the
      GRAM, 1024 with no data, is refused by set_offset. */
  lemma WriteGramAtAddress(c: Conf, o: Oled, memOff: nat, data: seq<int>)
    requires o.col < 256 && o.row < 256 && memOff < UINT32 && |data| < UINT32
    requires memOff + |data| < UINT32
    ensures var r := WriteGramSpec(c, o, memOff, data);
            (memOff + |data| > GRAM_SIZE ==> r == Out(o, E_MEMORY_NOT_ENOUGH))
            && (memOff == GRAM_SIZE && data == [] ==> r == Out(o, E_MEMORY_OUT_OF_BOUND))
            && (Faultless(c.rs) && memOff < GRAM_SIZE && memOff + |data| <= GRAM_SIZE ==>
                  r.err == ALL_OK && Address(r.oled) == memOff + |data|
                  && o.trace + CommandSequence(c.hooks, OffsetCommand(memOff % LINE_WIDTH, memOff / LINE_WIDTH)) <= r.oled.trace)
  {
    if memOff < GRAM_SIZE && memOff + |data| <= GRAM_SIZE {
      SetOffsetMovesFirst(c, o, memOff % LINE_WIDTH, memOff / LINE_WIDTH);
      var s := SetOffsetSpec(c, o, memOff % LINE_WIDTH, memOff / LINE_WIDTH);
      if Faultless(c.rs) {
        AppendFaultless(c, s.oled, data);
      }
    }
  }

  // ------------------------------------------------------------- clear_gram

  /** The 16 zero bytes of `zeros[4]`. */
  function Zeros(): seq<int>
  {
    seq(16, _ => 0)
  }

  /** The inner loop: 128 / 16 = 8 transfers of the 16-byte buffer `z`
      (the zeros). */
  function PageWrites(z: seq<int>): seq<Event>
  {
    Copies(DataToBus(z), LINE_WIDTH / 16)
  }

  /** One pass of the outer loop: set_offset(0, i), then the page's
      transfers; the first failure is returned. */
  function ClearPage(c: Conf, o: Oled, i: nat, z: seq<int>): Out
  {
    var s := SetOffsetSpec(c, o, 0, i);
    if s.err != ALL_OK then s
    else
      var w := Run(c.rs, s.oled.trace, PageWrites(z));
      Out(Oled(s.oled.col, s.oled.row, w.trace), w.err)
  }

  /** The outer loop from page i on. */
  function ClearPages(c: Conf, o: Oled, i: nat, z: seq<int>): Out
    decreases LINE_COUNT - i
  {
    if i >= LINE_COUNT then Out(o, ALL_OK)
    else
      var p := ClearPage(c, o, i, z);
      if p.err != ALL_OK then p
      else ClearPages(c, p.oled, i + 1, z)
  }

  /** A pass that succeeds leaves the cursor at column 0 of its page, and
      with no failing call every pass succeeds: the command for the page,
      then its zeros. */
  lemma ClearPageMoves(c: Conf, o: Oled, i: nat, z: seq<int>)
    requires i < LINE_COUNT
    ensures var p := ClearPage(c, o, i, z);
            (p.err == ALL_OK ==> p.oled.col == 0 && p.oled.row == i)
            && (Faultless(c.rs) ==> p == Out(Oled(0, i, o.trace + Reposition(c.hooks, i) + PageWrites(z)), ALL_OK))
  {
    SetOffsetMovesFirst(c, o, 0, i);
    if Faultless(c.rs) {
      SetOffsetFaultless(c, o, i);
      RunFaultless(c.rs, o.trace + Reposition(c.hooks, i), PageWrites(z));
    }
  }

  /** SSD1315_clear_gram. */
  function ClearGramSpec(c: Conf, o: Oled): Out
  {
    ClearPages(c, o, 0, Zeros())
  }

  /** The events of the outer loop from page i on, when nothing fails. */
  function ClearTrace(h: Hooks, i: nat, z: seq<int>): seq<Event>
    decreases LINE_COUNT - i
  {
    if i >= LINE_COUNT then []
    else Reposition(h, i) + PageWrites(z) + ClearTrace(h, i + 1, z)
  }

  /** Whenever the clear succeeds, the cursor is left at column 0 of page 7,
      not at address 0. */
  lemma {:induction false} ClearPagesEnd(c: Conf, o: Oled, i: nat, z: seq<int>)
    requires i < LINE_COUNT
    ensures var l := ClearPages(c, o, i, z);
            l.err == ALL_OK ==> l.oled.col == 0 && l.oled.row == LINE_COUNT - 1
    decreases LINE_COUNT - i
  {
    ClearPageMoves(c, o, i, z);
    var p := ClearPage(c, o, i, z);
    if p.err == ALL_OK && i + 1 < LINE_COUNT {
      ClearPagesEnd(c, p.oled, i + 1, z);
    }
  }

  /** With no failing call the clear succeeds and zeroes each page after
      placing the cursor on it. */
  lemma {:induction false} ClearPagesFaultless(c: Conf, o: Oled, i: nat, z: seq<int>)
    requires Faultless(c.rs) && i < LINE_COUNT
    ensures var l := ClearPages(c, o, i, z);
            l.err == ALL_OK && l.oled.trace == o.trace + ClearTrace(c.hooks, i, z)
    decreases LINE_COUNT - i
  {
    ClearPageMoves(c, o, i, z);
    var cf := Reposition(c.hooks, i);
    var pz := PageWrites(z);
    var o2 := Oled(0, i, o.trace + cf + pz);
    assert ClearPages(c, o, i, z) == ClearPages(c, o2, i + 1, z);
    if i + 1 < LINE_COUNT {
      ClearPagesFaultless(c, o2, i + 1, z);
      AppendAssoc3(o.trace, cf, pz, ClearTrace(c.hooks, i + 1, z));
    } else {
      assert ClearTrace(c.hooks, i, z) == cf + pz + [];
    }
  }

  /** Every page gets 8 transfers of 16 zero bytes: 128 zeros a page, the
      whole 1024-byte GRAM over the 8 pages. */
  lemma {:induction false} PageZerosCoverLine(k: nat)
    ensures Sent(Copies(DataToBus(Zeros()), k), Data) == seq(16 * k, _ => 0)
  {
    if k > 0 {
      PageZerosCoverLine(k - 1);
      GatherAppend(Copies(DataToBus(Zeros()), k - 1), DataToBus(Zeros()), e => Carried(e, Data));
      DataToBusCarries(Zeros());
    }
  }

  // ------------------------------------------------------------- the device

  /** The driver's device record: the hooks, the bus, and the cursor. */
  class Device {
    const hooks: Hooks
    const port: Port
    var colOffset: nat
    var rowOffset: nat

    function Config(): Conf
    {
      Conf(hooks, port.replies)
    }

    function State(): Oled
      reads this, port
    {
      Oled(colOffset, rowOffset, port.trace)
    }

    /** The cursor fields are uint8. */
    ghost predicate Valid()
      reads this
    {
      colOffset < 256 && rowOffset < 256
    }

    /** The record as init leaves it: zeroed, hooks copied in (the reset pin
        and the controller set-up that follow are not modelled). */
    constructor (hooks: Hooks, port: Port)
      ensures this.hooks == hooks && this.port == port && Valid()
      ensures colOffset == 0 && rowOffset == 0
    {
      this.hooks := hooks;
      this.port := port;
      colOffset := 0;
      rowOffset := 0;
    }

    method WriteCommandSequence(cmds: seq<int>) returns (err: int)
      modifies port
      ensures Issued(port.trace, err) == Run(port.replies, old(port.trace), CommandSequence(hooks, cmds))
    {
      var head := AcquireStep(hooks) + [Cs(1), Dc(0)];
      var tail := [Cs(1), Dc(1)] + ReleaseStep(hooks);
      ghost var t0 := port.trace;
      assert CommandSequence(hooks, cmds) == head + (ByteFrames(cmds) + tail);
      RunAppend(port.replies, port.trace, head, ByteFrames(cmds) + tail);
      err := port.Issue(head);
      if err != ALL_OK {
        return;
      }
      assert cmds[0..] == cmds;
      var i := 0;
      while i < |cmds|
        invariant 0 <= i <= |cmds|
        invariant Run(port.replies, t0, CommandSequence(hooks, cmds))
                  == Run(port.replies, port.trace, ByteFrames(cmds[i..]) + tail)
      {
        var f := [Cs(0), Cmd([cmds[i]]), Cs(1)];
        assert ByteFrames(cmds[i..]) == f + ByteFrames(cmds[i + 1..]);
        assert ByteFrames(cmds[i..]) + tail == f + (ByteFrames(cmds[i + 1..]) + tail);
        RunAppend(port.replies, port.trace, f, ByteFrames(cmds[i + 1..]) + tail);
        err := port.Issue(f);
        if err != ALL_OK {
          return;
        }
        i := i + 1;
      }
      assert cmds[i..] == [] && ByteFrames([]) + tail == tail;
      err := port.Issue(tail);
    }

    method WriteDataToBus(data: seq<int>) returns (err: int)
      modifies port
      ensures Issued(port.trace, err) == Run(port.replies, old(port.trace), DataToBus(data))
    {
      err := port.Issue(DataToBus(data));
    }

    method SetOffset(col: nat, row: nat) returns (err: int)
      requires Valid()
      modifies this, port
      ensures Valid()
      ensures Out(State(), err) == SetOffsetSpec(Config(), old(State()), col, row)
    {
      if col >= LINE_WIDTH || row >= LINE_COUNT {
        return E_MEMORY_OUT_OF_BOUND;
      }
      colOffset := col;
      rowOffset := row;
      err := WriteCommandSequence(OffsetCommand(col, row));
    }

    method SetMemOffset(off: nat) returns (err: int)
      requires Valid()
      modifies this, port
      ensures Valid()
      ensures Out(State(), err) == SetMemOffsetSpec(Config(), old(State()), off)
    {
      if off >= GRAM_SIZE {
        return E_MEMORY_OUT_OF_BOUND;
      }
      err := SetOffset(off % LINE_WIDTH, off / LINE_WIDTH);
    }

    method AppendGram(data: seq<int>) returns (err: int)
      requires Valid() && |data| < UINT32
      modifies this, port
      ensures Valid()
      ensures Out(State(), err) == AppendSpec(Config(), old(State()), data)
    {
      var cur := colOffset + rowOffset * LINE_WIDTH;
      if Uint32(cur + |data|) > GRAM_SIZE {
        return E_MEMORY_NOT_ENOUGH;
      }
      err := port.Issue(AcquireStep(hooks) + [Cs(1), Dc(1)]);
      if err != ALL_OK {
        return;
      }
      err := WriteLines(data, LineSpace(cur));
      if err != ALL_OK {
        return;
      }
      err := port.Issue(ReleaseStep(hooks));
      if err != ALL_OK {
        return;
      }
      var e := CursorAt(Uint32(cur + |data|), port.trace);
      colOffset := e.col;
      rowOffset := e.row;
    }

    /** The while loop of append_gram. */
    method WriteLines(data: seq<int>, space: nat) returns (err: int)
      requires Valid() && space > 0
      modifies this, port
      ensures Valid()
      ensures Out(State(), err) == AppendLoop(Config(), old(State()), data, space)
    {
      ghost var target := AppendLoop(Config(), State(), data, space);
      var pos := 0;
      while pos < |data|
        invariant 0 <= pos <= |data| && Valid()
        invariant pos < |data| ==> target == AppendLoop(Config(), State(), data[pos..], space)
        invariant pos == |data| ==> target == Out(State(), ALL_OK)
      {
        var w;
        err, w := LinePass(data[pos..], space);
        if err != ALL_OK {
          return;
        }
        assert data[pos..][w..] == data[pos + w..];
        pos := pos + w;
      }
      err := ALL_OK;
    }

    /** One pass of that loop: write the piece for this line and, when data
        is left, move to column 0 of the next page. */
    method LinePass(data: seq<int>, space: nat) returns (err: int, w: nat)
      requires Valid() && space > 0 && data != []
      modifies this, port
      ensures Valid() && w == Min(|data|, space)
      ensures var l := AppendLoop(Config(), old(State()), data, space);
              if err != ALL_OK || w == |data| then l == Out(State(), err)
              else l == AppendLoop(Config(), State(), data[w..], space)
    {
      w := Min(|data|, space);
      ghost var before := State();
      err := WriteDataToBus(data[..w]);
      AppendLoopPass(Config(), before, data, space, Issued(port.trace, err));
      if err != ALL_OK {
        return;
      }
      colOffset := Uint8(colOffset + w);
      if w < |data| {
        colOffset := 0;
        rowOffset := Uint8(rowOffset + 1);
        var ignored := SetOffset(colOffset, rowOffset);
      }
    }

    method WriteGram(memOff: nat, data: seq<int>) returns (err: int)
      requires Valid() && memOff < UINT32 && |data| < UINT32
      modifies this, port
      ensures Valid()
      ensures Out(State(), err) == WriteGramSpec(Config(), old(State()), memOff, data)
    {
      if Uint32(memOff + |data|) > GRAM_SIZE {
        return E_MEMORY_NOT_ENOUGH;
      }
      err := SetOffset(memOff % LINE_WIDTH, memOff / LINE_WIDTH);
      if err != ALL_OK {
        return;
      }
      err := AppendGram(data);
    }

    method ClearGram() returns (err: int)
      requires Valid()
      modifies this, port
      ensures Valid()
      ensures Out(State(), err) == ClearGramSpec(Config(), old(State()))
    {
      var zeros := Zeros();
      var i := 0;
      while i < LINE_COUNT
        invariant 0 <= i <= LINE_COUNT && Valid()
        invariant ClearGramSpec(Config(), old(State())) == ClearPages(Config(), State(), i, zeros)
      {
        err := ClearPass(i, zeros);
        if err != ALL_OK {
          return;
        }
        i := i + 1;
      }
      err := ALL_OK;
    }

    /** One pass of the outer loop of clear_gram: set_offset(0, i), then the
        page of zeros. */
    method ClearPass(i: nat, z: seq<int>) returns (err: int)
      requires Valid()
      modifies this, port
      ensures Valid()
      ensures Out(State(), err) == ClearPage(Config(), old(State()), i, z)
    {
      err := SetOffset(0, i);
      if err != ALL_OK {
        return;
      }
      err := WritePage(z);
    }

    /** The inner loop of clear_gram: 8 transfers of the buffer. */
    method WritePage(z: seq<int>) returns (err: int)
      modifies port
      ensures Issued(port.trace, err) == Run(port.replies, old(port.trace), PageWrites(z))
    {
      var j := 0;
      err := ALL_OK;
      while j < LINE_WIDTH / 16
        invariant 0 <= j <= LINE_WIDTH / 16 && err == ALL_OK
        invariant Run(port.replies, old(port.trace), PageWrites(z))
                  == Run(port.replies, port.trace, Copies(DataToBus(z), LINE_WIDTH / 16 - j))
      {
        CopiesCons(DataToBus(z), LINE_WIDTH / 16 - j - 1);
        RunAppend(port.replies, port.trace, DataToBus(z), Copies(DataToBus(z), LINE_WIDTH / 16 - j - 1));
        err := WriteDataToBus(z);
        if err != ALL_OK {
          return;
        }
        j := j + 1;
      }
    }
  }
}
