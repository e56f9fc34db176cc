/** The asynchronous GRAM streaming engine of the ST7789 and ST7735 LCD drivers,
    as pure functions of the device record and the bus trace. The two drivers
    carry the same engine; they differ only in the panel geometry (`Chip`).
    Every function returns the new record and the error code the C function
    returns; the methods of `LcdDevice.Lcd` are proved to compute exactly these. */
module LcdSpec {
  import opened Errors
  import opened Bus
  import opened DevOp
  import opened Common

  type u16 = x: int | 0 <= x < 0x1_0000
  type i32 = x: int | -0x8000_0000 <= x < 0x8000_0000

  // Controller commands used by the engine.
  const CASET: int := 0x2A
  const RASET: int := 0x2B
  const RAMWR: int := 0x2C

  /** Lines of pixels the asynchronous clear stages at a time. */
  const CACHE_LINE_COUNT: int := 5

  datatype Rect = Rect(top: i32, bottom: i32, left: i32, right: i32)

  /** The panel: ST7789 by its resolution, ST7735 by its display area. */
  datatype Chip = St7789(resX: u16, resY: u16) | St7735(area: Rect)

  /** Bus mode: the two-bit field can also hold the unnamed value 3. */
  datatype BusMode = ModeUnknown | ModeSpi | Mode8080 | ModeReserved

  /** The device operations that shape the traffic. */
  datatype Ops = Ops(mode: BusMode, bigEndian: bool, hasAcquire: bool, hasRelease: bool)

  datatype AsyncState = Idle | BufferLoaded | BufferReloaded | Transferring

  /** The completion handler: none (a null pointer), or the clear-screen handler. */
  datatype Handler = NoHandler | ClearHandler

  /** The heap block the asynchronous clear hands to its handler: the fill
      buffer's address and the pixels written into it, its size in pixels
      (uint16) and whether it is still allocated. */
  datatype ClearArgs = ClearArgs(buf: nat, pixels: seq<int>, bufSize: u16, live: bool)

  /** Everything the engine reads and writes: the device record, the driver's
      module-level clear configuration, the clear block and its release count,
      and the bus trace. */
  datatype Dev = Dev(
    state: AsyncState,
    txSize: nat,
    txBuf: nat,
    handler: Handler,
    params: nat,
    linesLeft: u16,
    clearColor: int,
    args: ClearArgs,
    frees: nat,
    trace: seq<Event>)

  /** What stays fixed: the panel, the operations and the bus's reply script. */
  datatype Conf = Conf(chip: Chip, ops: Ops, rs: seq<int>)

  datatype Out = Out(dev: Dev, err: int)

  // ------------------------------------------------------------- geometry

  /** Window the clear covers: the whole resolution, or the display area. */
  function ClearWindow(chip: Chip): Rect
  {
    match chip
    case St7789(x, y) => Rect(0, y, 0, x)
    case St7735(a) => a
  }

  /** Pixels per line as `clear_gram_set_buf` computes it (uint32). */
  function ClearWidth(chip: Chip): nat
  {
    match chip
    case St7789(x, _) => x
    case St7735(a) => (a.right - a.left) % 0x1_0000_0000
  }

  /** Lines to clear, as stored in the uint16 `lines_left`. */
  function ClearHeight(chip: Chip): u16
  {
    match chip
    case St7789(_, y) => y
    case St7735(a) => (a.bottom - a.top) % 0x1_0000
  }

  /** Size of the clear buffer, as stored in the uint16 `buf_size`. */
  function ClearBufSize(chip: Chip): u16
  {
    match chip
    case St7789(x, _) => (CACHE_LINE_COUNT * x) % 0x1_0000
    case St7735(a) => (CACHE_LINE_COUNT * (a.right - a.left)) % 0x1_0000
  }

  /** Pixels the clear's fill loop writes: `cache_buffer_size`, five lines of
      the panel width as a C int, so a negative ST7735 width writes none. */
  function FillCount(chip: Chip): nat
  {
    match chip
    case St7789(x, _) => CACHE_LINE_COUNT * x
    case St7735(a) => if a.right - a.left > 0 then CACHE_LINE_COUNT * (a.right - a.left) else 0
  }

  /** The clear buffer after its fill loop: every pixel U16ECV(color). */
  function ClearFill(chip: Chip, color: u16): seq<int>
  {
    Filled(U16ecv(color), FillCount(chip))
  }

  /** n copies of v, written one after the other. */
  function Filled(v: int, n: nat): (r: seq<int>)
    ensures |r| == n
  {
    if n == 0 then [] else Filled(v, n - 1) + [v]
  }

  /** Coordinates `display_set_window` accepts: rows and columns up to 320 and
      240 on the ST7789, every coordinate up to 162 on the ST7735. */
  predicate WindowInRange(chip: Chip, r: Rect)
  {
    var (maxRow, maxCol) := if chip.St7789? then (320, 240) else (162, 162);
    0 <= r.top <= maxRow && 0 <= r.bottom <= maxRow && 0 <= r.left <= maxCol && 0 <= r.right <= maxCol
  }

  // ---------------------------------------------------------- bus framing

  /** The two bytes of a uint16 as they lie in host memory. */
  function HostBytes16(v: u16, bigEndian: bool): (b: seq<int>)
    ensures |b| == 2 && 0 <= b[0] < 256 && 0 <= b[1] < 256
  {
    if bigEndian then [v / 0x100, v % 0x100] else [v % 0x100, v / 0x100]
  }

  /** The bytes a command goes out as: one byte over SPI; over 8080 the 16-bit
      word, byte-swapped first on a little-endian host. */
  function CommandBytes(ops: Ops, cmd: int): seq<int>
    requires 0 <= cmd < 0x100
  {
    if ops.mode.ModeSpi? then [cmd]
    else HostBytes16(if ops.bigEndian then cmd else U16ecv(cmd), ops.bigEndian)
  }

  /** The argument block of CASET/RASET: two uint16 fields, each passed through
      U16ECV, as they lie in host memory. */
  function WindowArgs(first: int, last: int, bigEndian: bool): seq<int>
  {
    HostBytes16(U16ecv(first), bigEndian) + HostBytes16(U16ecv(last), bigEndian)
  }

  /** One 2-byte write per pixel, each byte-swapped with U16ECV. */
  function PixelWrites(pixels: seq<u16>, bigEndian: bool): (evs: seq<Event>)
    ensures |evs| == |pixels|
  {
    seq(|pixels|, i requires 0 <= i < |pixels| => Write(HostBytes16(U16ecv(pixels[i]), bigEndian)))
  }

  /** The pixel buffer as it lies in host memory. */
  function HostPixels(pixels: seq<u16>, bigEndian: bool): (b: seq<int>)
    ensures |b| == 2 * |pixels|
  {
    if pixels == [] then [] else HostPixels(pixels[..|pixels| - 1], bigEndian) + HostBytes16(pixels[|pixels| - 1], bigEndian)
  }

  /** A call through an optional function pointer: nothing when it is null. */
  function CallOpt(rs: seq<int>, t: seq<Event>, present: bool, e: Event): Issued
  {
    if present then Run(rs, t, [e]) else Issued(t, ALL_OK)
  }

  /** The `exit:` tail of the bus helpers: release the bus (if the hook is set),
      return its failure if it fails, otherwise the pending result. */
  function ReleaseThen(c: Conf, t: seq<Event>, err: int): Issued
  {
    var r := CallOpt(c.rs, t, c.ops.hasRelease, Release);
    if r.err != ALL_OK then r else Issued(r.trace, err)
  }

  /** The calls write_command makes between acquire and release: over SPI
      D/C low, CS low, the command byte, then either D/C high, the arguments
      and CS high, or (no arguments) CS high and D/C high; over 8080 the
      command word and the arguments. */
  function CommandFrame(ops: Ops, cmd: int, args: seq<int>): seq<Event>
    requires 0 <= cmd < 0x100
  {
    match ops.mode
    case ModeSpi => [Dc(0), Cs(0), Cmd([cmd])] + (if |args| != 0 then [Dc(1), Write(args), Cs(1)] else [Cs(1), Dc(1)])
    case Mode8080 => [Cmd(CommandBytes(ops, cmd)), Write(args)]
    case _ => []
  }

  /** write_command: acquire; the command and its arguments framed for the bus
      mode (any other mode fails); release, on success and on failure alike. */
  function WriteCommandSpec(c: Conf, t: seq<Event>, cmd: int, args: seq<int>): Issued
    requires 0 <= cmd < 0x100
  {
    var a := CallOpt(c.rs, t, c.ops.hasAcquire, Acquire);
    if a.err != ALL_OK then a
    else
      var body :=
        if c.ops.mode.ModeSpi? || c.ops.mode.Mode8080? then Run(c.rs, a.trace, CommandFrame(c.ops, cmd, args))
        else Issued(a.trace, E_INVALID_ARGUMENT);
      ReleaseThen(c, body.trace, body.err)
  }

  /** write_pixel_data: acquire; over SPI every pixel swapped and written on its
      own inside one D/C-high, CS-low frame; over 8080 the whole buffer first when
      the host is big-endian (there is no `else`), then every swapped pixel;
      release. An unknown bus mode returns without releasing the bus. */
  function WritePixelDataSpec(c: Conf, t: seq<Event>, pixels: seq<u16>): Issued
  {
    var a := CallOpt(c.rs, t, c.ops.hasAcquire, Acquire);
    if a.err != ALL_OK then a
    else
      match c.ops.mode
      case ModeSpi =>
        var body := Run(c.rs, a.trace, [Dc(1), Cs(0)] + PixelWrites(pixels, c.ops.bigEndian) + [Dc(1), Cs(1)]);
        ReleaseThen(c, body.trace, body.err)
      case Mode8080 =>
        var whole := if c.ops.bigEndian then [Write(HostPixels(pixels, true))] else [];
        var body := Run(c.rs, a.trace, whole + PixelWrites(pixels, c.ops.bigEndian));
        ReleaseThen(c, body.trace, body.err)
      case _ => Issued(a.trace, E_INVALID_ARGUMENT)
  }

  /** display_set_window: range checks before any traffic; then CASET with the
      columns and RASET with the rows, the end of each made inclusive. */
  function SetWindowSpec(c: Conf, t: seq<Event>, r: Rect): Issued
  {
    if !WindowInRange(c.chip, r) then Issued(t, E_INVALID_ARGUMENT)
    else
      var w := WriteCommandSpec(c, t, CASET, WindowArgs(r.left, r.right - 1, c.ops.bigEndian));
      if w.err != ALL_OK then w
      else WriteCommandSpec(c, w.trace, RASET, WindowArgs(r.top, r.bottom - 1, c.ops.bigEndian))
  }

  /** append_gram: RAMWR, then the pixels. */
  function AppendGramSpec(c: Conf, t: seq<Event>, pixels: seq<u16>): Issued
  {
    var w := WriteCommandSpec(c, t, RAMWR, []);
    if w.err != ALL_OK then w else WritePixelDataSpec(c, w.trace, pixels)
  }

  // ---------------------------------------------------------- init preamble

  datatype ChipKind = KindSt7789 | KindSt7735

  /** Which of the init structure's function pointers are set. */
  datatype Hooks = Hooks(spiWrite: bool, spiCs: bool, spiDc: bool,
                         busCommandWrite: bool, busDataWrite: bool, delay: bool)

  /** The argument checks `init` makes before it touches the device. */
  function InitPreamble(kind: ChipKind, mode: BusMode, h: Hooks): (err: int)
    ensures err == ALL_OK || err == E_INVALID_ARGUMENT
    ensures err == E_INVALID_ARGUMENT <==>
              mode.ModeUnknown?
              || (mode.ModeSpi? && !(h.spiWrite && h.spiCs && h.spiDc))
              || (mode.Mode8080? && !(h.busCommandWrite && h.busDataWrite))
              || (kind == KindSt7735 && !h.delay)
  {
    if mode.ModeUnknown? then E_INVALID_ARGUMENT
    else if mode.ModeSpi? && (!h.spiWrite || !h.spiCs || !h.spiDc) then E_INVALID_ARGUMENT
    else if mode.Mode8080? && (!h.busCommandWrite || !h.busDataWrite) then E_INVALID_ARGUMENT
    else if kind == KindSt7735 && !h.delay then E_INVALID_ARGUMENT
    else ALL_OK
  }

  // -------------------------------------------------------------- engine

  /** update_gram_set_buff: stage a buffer. A NULL buffer is refused. */
  function SetBuffSpec(d: Dev, size: nat, buf: nat): (o: Out)
    ensures buf == 0 ==> o == Out(d, E_INVALID_ARGUMENT)
    ensures buf != 0 ==> o.err == ALL_OK && o.dev == d.(state := o.dev.state, txSize := size, txBuf := buf)
    ensures buf != 0 && (d.state == Idle || d.state == BufferLoaded) ==> o.dev.state == BufferLoaded
    ensures buf != 0 && (d.state == BufferReloaded || d.state == Transferring) ==> o.dev.state == BufferReloaded
  {
    if buf == 0 then Out(d, E_INVALID_ARGUMENT)
    else
      var s := match d.state
               case Idle => BufferLoaded
               case BufferLoaded => BufferLoaded
               case BufferReloaded => BufferReloaded
               case Transferring => BufferReloaded;
      Out(d.(state := s, txSize := size, txBuf := buf), ALL_OK)
  }

  /** `error_exit:` of stream_start and notify: back to IDLE, release the bus,
      return the release failure or the pending one. */
  function ErrorExitSpec(c: Conf, d: Dev, err: int): Out
  {
    var r := ReleaseThen(c, d.trace, err);
    Out(d.(state := Idle, trace := r.trace), r.err)
  }

  /** update_gram_stream_start. */
  function StreamStartSpec(c: Conf, d: Dev, h: Handler, p: nat): Out
  {
    if d.state == Transferring then Out(d, E_INVALID_OPERATION)
    else if d.state != BufferLoaded && d.state != BufferReloaded then Out(d, E_INVALID_OPERATION)
    else
      var d1 := d.(handler := h, params := p);
      var a := CallOpt(c.rs, d1.trace, c.ops.hasAcquire, Acquire);
      if a.err != ALL_OK then Out(d1.(trace := a.trace), a.err)
      else
        var d2 := d1.(trace := a.trace);
        var pre := StreamPrelude(c, d2);
        var d3 := d2.(trace := pre.trace);
        if pre.err != ALL_OK then ErrorExitSpec(c, d3, pre.err)
        else
          var d4 := d3.(state := Transferring);
          var s :=
            if c.ops.mode.ModeSpi? || c.ops.mode.Mode8080? then Run(c.rs, d4.trace, [AsyncStart(d4.txSize, d4.txBuf)])
            else Issued(d4.trace, E_INVALID_ARGUMENT);
          var d5 := d4.(trace := s.trace);
          if s.err != ALL_OK then ErrorExitSpec(c, d5, s.err) else Out(d5, ALL_OK)
  }

  /** The part of stream_start between acquire and the asynchronous write: on
      a first transfer RAMWR and, over SPI, the D/C-high, CS-low frame; nothing
      on a reload; an unknown bus mode fails. */
  function StreamPrelude(c: Conf, d: Dev): Issued
  {
    if d.state == BufferReloaded then Issued(d.trace, ALL_OK)
    else
      var w := WriteCommandSpec(c, d.trace, RAMWR, []);
      if w.err != ALL_OK then w
      else if c.ops.mode.ModeSpi? then Run(c.rs, w.trace, [Dc(1), Cs(0)])
      else if c.ops.mode.Mode8080? then w
      else Issued(w.trace, E_INVALID_ARGUMENT)
  }

  /** clear_gram_set_buf: stage as many whole lines as the buffer holds, at most
      the lines left, and count them off. */
  function ClearSetBufSpec(c: Conf, d: Dev): (o: Out)
    requires ClearWidth(c.chip) > 0
    ensures d.args.buf == 0 ==> o == Out(d, E_INVALID_ARGUMENT)
    ensures d.args.buf != 0 ==>
              o.err == ALL_OK && o.dev.linesLeft <= d.linesLeft
              && d.linesLeft - o.dev.linesLeft == Min(d.linesLeft, d.args.bufSize / ClearWidth(c.chip))
              && o.dev.txSize == ClearWidth(c.chip) * (d.linesLeft - o.dev.linesLeft)
              && o.dev.txSize <= d.args.bufSize
              && o.dev.txBuf == d.args.buf && o.dev.trace == d.trace
    ensures d.args.buf != 0 ==>
              o.dev == d.(state := if d.state == Idle || d.state == BufferLoaded then BufferLoaded else BufferReloaded,
                          txSize := o.dev.txSize, txBuf := d.args.buf, linesLeft := o.dev.linesLeft)
  {
    var width := ClearWidth(c.chip);
    var k := Min(d.linesLeft, d.args.bufSize / width);
    WholeLinesFit(width, k, d.args.bufSize);
    var o := SetBuffSpec(d, width * k, d.args.buf);
    if o.err != ALL_OK then o
    else
      var left: u16 := d.linesLeft - k;
      var st := if d.state == Idle || d.state == BufferLoaded then BufferLoaded else BufferReloaded;
      assert o.dev == d.(state := st, txSize := width * k, txBuf := d.args.buf);
      var staged := o.dev.(linesLeft := left);
      assert d.linesLeft - left == k;
      Out(staged, ALL_OK)
  }

  /** k whole lines of `width` pixels fit a buffer that holds at least k lines. */
  lemma WholeLinesFit(width: nat, k: nat, size: nat)
    requires width > 0 && k <= size / width
    ensures width * k <= size
  {
    assert width * k <= width * (size / width);
  }

  /** clear_gram_cplt_handler: while lines are left, stage the next band and
      start its transfer with itself as the handler; otherwise free the block. */
  function ClearHandlerSpec(c: Conf, d: Dev, p: nat): Out
    requires ClearWidth(c.chip) > 0
  {
    if d.linesLeft > 0 then
      var o := ClearSetBufSpec(c, d);
      if o.err != ALL_OK then o else StreamStartSpec(c, o.dev, ClearHandler, p)
    else
      Out(d.(args := d.args.(live := false), frees := d.frees + 1), ALL_OK)
  }

  /** The call through the handler pointer (skipped when it is null). */
  function HandlerSpec(c: Conf, d: Dev, h: Handler, p: nat): Out
    requires h.ClearHandler? ==> ClearWidth(c.chip) > 0
  {
    match h
    case NoHandler => Out(d, ALL_OK)
    case ClearHandler => ClearHandlerSpec(c, d, p)
  }

  /** async_completed_notify. */
  function NotifySpec(c: Conf, d: Dev): Out
    requires d.handler.ClearHandler? ==> ClearWidth(c.chip) > 0
  {
    if d.state != Transferring then Out(d, E_INVALID_OPERATION)
    else
      var d1 := d.(txSize := 0);
      var hr := HandlerSpec(c, d1, d1.handler, d1.params);
      if hr.err != ALL_OK then ErrorExitSpec(c, hr.dev, hr.err)
      else if hr.dev.txSize != 0 then hr
      else
        var d2 := hr.dev;
        var e :=
          if c.ops.mode.ModeSpi? then Run(c.rs, d2.trace, [Dc(1), Cs(1)])
          else if c.ops.mode.Mode8080? then Issued(d2.trace, ALL_OK)
          else Issued(d2.trace, E_INVALID_ARGUMENT);
        var d3 := d2.(trace := e.trace);
        if e.err != ALL_OK then ErrorExitSpec(c, d3, e.err) else Out(d3.(state := Idle), ALL_OK)
  }

  /** display_clear_gram_async: `pbuf` and `pargs` are what the two allocations
      return (0 for NULL); the buffer is filled with the byte-swapped colour,
      and the handler's result is ignored. */
  function ClearAsyncSpec(c: Conf, d: Dev, color: u16, pbuf: nat, pargs: nat): Out
    requires ClearWidth(c.chip) > 0
  {
    if pbuf == 0 || pargs == 0 then Out(d, E_MEMORY_ALLOC_FAILED)
    else
      var d1 := d.(args := ClearArgs(pbuf, ClearFill(c.chip, color), ClearBufSize(c.chip), true));
      var w := SetWindowSpec(c, d1.trace, ClearWindow(c.chip));
      var d2 := d1.(trace := w.trace);
      if w.err != ALL_OK then Out(d2, w.err)
      else
        var d3 := d2.(clearColor := color, linesLeft := ClearHeight(c.chip));
        var h := ClearHandlerSpec(c, d3, pargs);
        Out(h.dev, ALL_OK)
  }
}
