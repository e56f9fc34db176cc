/** Properties of the ST7789/ST7735 streaming engine: the bus framing of the
    helpers, the state machine of stream_start and notify, their failure exits,
    and the complete asynchronous clear driven by its completion handler. */
module LcdProps {
  import opened Errors
  import opened Bus
  import opened DevOp
  import opened LcdSpec
  import opened Common

  // ------------------------------------------------------------ framing

  function Acq(ops: Ops): seq<Event> { if ops.hasAcquire then [Acquire] else [] }
  function Rel(ops: Ops): seq<Event> { if ops.hasRelease then [Release] else [] }

  /** A mode the helpers can drive (SPI or 8080). */
  predicate Drivable(m: BusMode) { m.ModeSpi? || m.Mode8080? }

  /** Everything write_command issues when no call fails. */
  function CommandEvents(ops: Ops, cmd: int, args: seq<int>): seq<Event>
    requires 0 <= cmd < 0x100
  {
    Acq(ops) + CommandFrame(ops, cmd, args) + Rel(ops)
  }

  /** Over 8080 a command goes out as the 16-bit word [0x00, cmd] on either
      host: the byte swap on a little-endian host is exactly what makes the
      high byte come first. */
  lemma CommandWord8080(ops: Ops, cmd: int)
    requires ops.mode.Mode8080? && 0 <= cmd < 0x100
    ensures CommandBytes(ops, cmd) == [0, cmd]
  {
    if !ops.bigEndian {
      assert U16ecv(cmd) == cmd * 0x100;
    }
  }

  /** The CASET/RASET argument block: on a little-endian host both fields go
      out high byte first; on a big-endian host the unconditional U16ECV puts
      the low byte first. */
  lemma WindowArgsByteOrder(first: int, last: int, bigEndian: bool)
    ensures var f := first % 0x1_0000; var l := last % 0x1_0000;
            WindowArgs(first, last, bigEndian) ==
              if bigEndian then [f % 0x100, f / 0x100, l % 0x100, l / 0x100]
              else [f / 0x100, f % 0x100, l / 0x100, l % 0x100]
  {
    U16ecvBytes(first);
    U16ecvBytes(last);
  }

  /** The same for pixels: each pixel is swapped whatever the host order. */
  lemma PixelByteOrder(pixels: seq<u16>, bigEndian: bool, i: nat)
    requires i < |pixels|
    ensures PixelWrites(pixels, bigEndian)[i] ==
              Write(if bigEndian then [pixels[i] % 0x100, pixels[i] / 0x100]
                    else [pixels[i] / 0x100, pixels[i] % 0x100])
  {
    U16ecvBytes(pixels[i]);
  }

  /** An optional call with no failure in the script. */
  lemma CallOptFaultless(rs: seq<int>, t: seq<Event>, present: bool, e: Event)
    requires Faultless(rs)
    ensures CallOpt(rs, t, present, e) == Issued(t + (if present then [e] else []), ALL_OK)
  {
    if present {
      RunFaultless(rs, t, [e]);
    }
  }

  lemma ReleaseThenFaultless(c: Conf, t: seq<Event>, err: int)
    requires Faultless(c.rs)
    ensures ReleaseThen(c, t, err) == Issued(t + Rel(c.ops), err)
  {
    CallOptFaultless(c.rs, t, c.ops.hasRelease, Release);
  }

  /** write_command with no failing call: acquire, the frame, release; an
      unknown or reserved mode still acquires and releases, and fails. */
  lemma WriteCommandFaultless(c: Conf, t: seq<Event>, cmd: int, args: seq<int>)
    requires Faultless(c.rs) && 0 <= cmd < 0x100
    ensures WriteCommandSpec(c, t, cmd, args) ==
            Issued(t + CommandEvents(c.ops, cmd, args), if Drivable(c.ops.mode) then ALL_OK else E_INVALID_ARGUMENT)
  {
    RunFaultless(c.rs, t, Acq(c.ops));
    var a := t + Acq(c.ops);
    RunFaultless(c.rs, a, CommandFrame(c.ops, cmd, args));
    var b := a + CommandFrame(c.ops, cmd, args);
    RunFaultless(c.rs, b, Rel(c.ops));
    assert b + Rel(c.ops) == t + CommandEvents(c.ops, cmd, args);
  }

  /** write_command releases the bus on every path once it has it: whatever
      fails after the acquire, the last call is the release. */
  lemma {:induction false} WriteCommandAlwaysReleases(c: Conf, t: seq<Event>, cmd: int, args: seq<int>)
    requires 0 <= cmd < 0x100 && c.ops.hasRelease
    requires c.ops.hasAcquire ==> Reply(c.rs, |t|) == ALL_OK
    ensures var r := WriteCommandSpec(c, t, cmd, args);
            |r.trace| > |t| && r.trace[|r.trace| - 1] == Release
  {
    if c.ops.hasAcquire {
      RunOne(c.rs, t, Acquire);
    }
    var a := CallOpt(c.rs, t, c.ops.hasAcquire, Acquire);
    RunShape(c.rs, a.trace, CommandFrame(c.ops, cmd, args));
    var body := if Drivable(c.ops.mode) then Run(c.rs, a.trace, CommandFrame(c.ops, cmd, args))
                else Issued(a.trace, E_INVALID_ARGUMENT);
    RunOne(c.rs, body.trace, Release);
  }

  /** write_pixel_data over SPI with no failing call: one D/C-high, CS-low
      frame around the swapped pixels, inside acquire and release. */
  lemma WritePixelDataSpiFaultless(c: Conf, t: seq<Event>, pixels: seq<u16>)
    requires Faultless(c.rs) && c.ops.mode.ModeSpi?
    ensures WritePixelDataSpec(c, t, pixels) ==
            Issued(t + Acq(c.ops) + ([Dc(1), Cs(0)] + PixelWrites(pixels, c.ops.bigEndian) + [Dc(1), Cs(1)]) + Rel(c.ops), ALL_OK)
  {
    CallOptFaultless(c.rs, t, c.ops.hasAcquire, Acquire);
    var a := t + Acq(c.ops);
    var body := [Dc(1), Cs(0)] + PixelWrites(pixels, c.ops.bigEndian) + [Dc(1), Cs(1)];
    RunFaultless(c.rs, a, body);
    ReleaseThenFaultless(c, a + body, ALL_OK);
  }

  /** write_pixel_data over 8080 with no failing call: on a big-endian host the
      whole buffer goes out first, then every swapped pixel on either host. */
  lemma WritePixelData8080Faultless(c: Conf, t: seq<Event>, pixels: seq<u16>)
    requires Faultless(c.rs) && c.ops.mode.Mode8080?
    ensures WritePixelDataSpec(c, t, pixels) ==
            Issued(t + Acq(c.ops) + ((if c.ops.bigEndian then [Write(HostPixels(pixels, true))] else [])
                                     + PixelWrites(pixels, c.ops.bigEndian)) + Rel(c.ops), ALL_OK)
  {
    CallOptFaultless(c.rs, t, c.ops.hasAcquire, Acquire);
    var a := t + Acq(c.ops);
    var body := (if c.ops.bigEndian then [Write(HostPixels(pixels, true))] else []) + PixelWrites(pixels, c.ops.bigEndian);
    RunFaultless(c.rs, a, body);
    ReleaseThenFaultless(c, a + body, ALL_OK);
  }

  /** write_pixel_data in an unknown or reserved mode: it fails after the
      acquire and returns without releasing the bus. */
  lemma WritePixelDataKeepsBusOnBadMode(c: Conf, t: seq<Event>, pixels: seq<u16>)
    requires Faultless(c.rs) && !Drivable(c.ops.mode)
    ensures WritePixelDataSpec(c, t, pixels) == Issued(t + Acq(c.ops), E_INVALID_ARGUMENT)
    ensures Release !in WritePixelDataSpec(c, t, pixels).trace[|t|..]
  {
    CallOptFaultless(c.rs, t, c.ops.hasAcquire, Acquire);
    assert (t + Acq(c.ops))[|t|..] == Acq(c.ops);
  }

  /** On a big-endian 8080 host every pixel reaches the bus twice: the data
      writes carry 4 bytes per pixel instead of 2. */
  lemma BigEndian8080SendsPixelsTwice(c: Conf, t: seq<Event>, pixels: seq<u16>)
    requires Faultless(c.rs) && c.ops.mode.Mode8080? && c.ops.bigEndian
    ensures var r := WritePixelDataSpec(c, t, pixels);
            t <= r.trace && DataBytes(r.trace[|t|..]) == 4 * |pixels|
  {
    WritePixelData8080Faultless(c, t, pixels);
    var sent := Acq(c.ops) + ([Write(HostPixels(pixels, true))] + PixelWrites(pixels, true)) + Rel(c.ops);
    assert WritePixelDataSpec(c, t, pixels).trace == t + sent;
    assert (t + sent)[|t|..] == sent;
    BigEndian8080Bytes(c.ops, pixels);
  }

  lemma BigEndian8080Bytes(ops: Ops, pixels: seq<u16>)
    ensures DataBytes(Acq(ops) + ([Write(HostPixels(pixels, true))] + PixelWrites(pixels, true)) + Rel(ops)) == 4 * |pixels|
  {
    var whole := [Write(HostPixels(pixels, true))];
    var each := PixelWrites(pixels, true);
    BusCallsCarryNoData(ops);
    DataBytesAround(Acq(ops), whole + each, Rel(ops));
    DataBytesAppend(whole, each);
    DataBytesOfPixelWrites(pixels, true);
    DataBytesOfWrite(HostPixels(pixels, true));
  }

  /** Acquire and release carry no data. */
  lemma BusCallsCarryNoData(ops: Ops)
    ensures DataBytes(Acq(ops)) == 0 && DataBytes(Rel(ops)) == 0
  {
    if ops.hasAcquire { assert Acq(ops)[..0] == []; }
    if ops.hasRelease { assert Rel(ops)[..0] == []; }
  }

  lemma DataBytesOfWrite(b: seq<int>)
    ensures DataBytes([Write(b)]) == |b|
  {
    assert [Write(b)][..0] == [];
  }

  lemma DataBytesAround(pre: seq<Event>, mid: seq<Event>, post: seq<Event>)
    requires DataBytes(pre) == 0 && DataBytes(post) == 0
    ensures DataBytes(pre + mid + post) == DataBytes(mid)
  {
    DataBytesAppend(pre + mid, post);
    DataBytesAppend(pre, mid);
  }

  /** Bytes carried by the data writes of a trace. */
  function DataBytes(t: seq<Event>): nat
  {
    if t == [] then 0
    else DataBytes(t[..|t| - 1]) + (if t[|t| - 1].Write? then |t[|t| - 1].bytes| else 0)
  }

  lemma {:induction false} DataBytesAppend(a: seq<Event>, b: seq<Event>)
    ensures DataBytes(a + b) == DataBytes(a) + DataBytes(b)
    decreases |b|
  {
    if b == [] {
      assert a + b == a;
    } else {
      assert (a + b)[..|a + b| - 1] == a + b[..|b| - 1];
      DataBytesAppend(a, b[..|b| - 1]);
    }
  }

  lemma {:induction false} DataBytesOfPixelWrites(pixels: seq<u16>, bigEndian: bool)
    ensures DataBytes(PixelWrites(pixels, bigEndian)) == 2 * |pixels|
    decreases |pixels|
  {
    if pixels != [] {
      var init := pixels[..|pixels| - 1];
      assert PixelWrites(pixels, bigEndian)[..|pixels| - 1] == PixelWrites(init, bigEndian);
      DataBytesOfPixelWrites(init, bigEndian);
    }
  }

  /** display_set_window: a coordinate out of range is refused before any
      traffic; otherwise (no call failing) CASET with the columns and RASET
      with the rows, the right and bottom edges made inclusive. */
  lemma SetWindowFaultless(c: Conf, t: seq<Event>, r: Rect)
    requires Faultless(c.rs) && Drivable(c.ops.mode)
    ensures SetWindowSpec(c, t, r) ==
            if !WindowInRange(c.chip, r) then Issued(t, E_INVALID_ARGUMENT)
            else Issued(t + WindowEvents(c.ops, r), ALL_OK)
  {
    if WindowInRange(c.chip, r) {
      var cols := WindowArgs(r.left, r.right - 1, c.ops.bigEndian);
      var rows := WindowArgs(r.top, r.bottom - 1, c.ops.bigEndian);
      WriteCommandFaultless(c, t, CASET, cols);
      WriteCommandFaultless(c, t + CommandEvents(c.ops, CASET, cols), RASET, rows);
      AppendAssoc(t, CommandEvents(c.ops, CASET, cols), CommandEvents(c.ops, RASET, rows));
    }
  }

  /** The window commands of the clear; they start no asynchronous write. */
  function WindowEvents(ops: Ops, r: Rect): (w: seq<Event>)
    ensures CountAsyncStarts(w) == 0
  {
    CommandPair(ops, CASET, RASET, WindowArgs(r.left, r.right - 1, ops.bigEndian),
                WindowArgs(r.top, r.bottom - 1, ops.bigEndian))
  }

  /** Two commands, one after the other: neither starts an asynchronous write. */
  function CommandPair(ops: Ops, a: int, b: int, argsA: seq<int>, argsB: seq<int>): (p: seq<Event>)
    requires 0 <= a < 0x100 && 0 <= b < 0x100
    ensures CountAsyncStarts(p) == 0
  {
    CommandEventsStartNothing(ops, a, argsA);
    CommandEventsStartNothing(ops, b, argsB);
    CountAppend(CommandEvents(ops, a, argsA), CommandEvents(ops, b, argsB), Cmd([]));
    CommandEvents(ops, a, argsA) + CommandEvents(ops, b, argsB)
  }

  // --------------------------------------------------------- append_gram

  /** What write_pixel_data issues between acquire and release when no
      call fails. */
  function PixelBody(ops: Ops, pixels: seq<u16>): seq<Event>
  {
    if ops.mode.ModeSpi? then [Dc(1), Cs(0)] + PixelWrites(pixels, ops.bigEndian) + [Dc(1), Cs(1)]
    else (if ops.bigEndian then [Write(HostPixels(pixels, true))] else []) + PixelWrites(pixels, ops.bigEndian)
  }

  /** Everything write_pixel_data issues when no call fails. */
  function PixelEvents(ops: Ops, pixels: seq<u16>): seq<Event>
  {
    Acq(ops) + PixelBody(ops, pixels) + Rel(ops)
  }

  /** write_pixel_data with no failing call, on either bus. */
  lemma PixelDataFaultless(c: Conf, t: seq<Event>, pixels: seq<u16>)
    requires Faultless(c.rs) && Drivable(c.ops.mode)
    ensures WritePixelDataSpec(c, t, pixels) == Issued(t + PixelEvents(c.ops, pixels), ALL_OK)
  {
    var body := PixelBody(c.ops, pixels);
    assert WritePixelDataSpec(c, t, pixels) == Issued(t + Acq(c.ops) + body + Rel(c.ops), ALL_OK) by {
      if c.ops.mode.ModeSpi? {
        WritePixelDataSpiFaultless(c, t, pixels);
      } else {
        WritePixelData8080Faultless(c, t, pixels);
      }
    }
    AppendAssoc3(t, Acq(c.ops), body, Rel(c.ops));
  }

  lemma AppendAssoc3(t: seq<Event>, a: seq<Event>, b: seq<Event>, f: seq<Event>)
    ensures t + a + b + f == t + (a + b + f)
  {
  }

  /** append_gram with no failing call: the RAMWR command with the bus taken
      and given back, then the pixels, again between acquire and release. */
  lemma AppendGramFaultless(c: Conf, t: seq<Event>, pixels: seq<u16>)
    requires Faultless(c.rs) && Drivable(c.ops.mode)
    ensures AppendGramSpec(c, t, pixels)
            == Issued(t + CommandEvents(c.ops, RAMWR, []) + PixelEvents(c.ops, pixels), ALL_OK)
  {
    var w := t + CommandEvents(c.ops, RAMWR, []);
    assert WriteCommandSpec(c, t, RAMWR, []) == Issued(w, ALL_OK) by {
      WriteCommandFaultless(c, t, RAMWR, []);
    }
    assert WritePixelDataSpec(c, w, pixels) == Issued(w + PixelEvents(c.ops, pixels), ALL_OK) by {
      PixelDataFaultless(c, w, pixels);
    }
  }

  /** The events of a run are drawn from the list it issues. */
  lemma RunWithin(rs: seq<int>, t: seq<Event>, evs: seq<Event>)
    ensures var r := Run(rs, t, evs);
            t <= r.trace && forall e | e in r.trace[|t|..] :: e in evs
  {
    RunShape(rs, t, evs);
    var r := Run(rs, t, evs);
    if r.err != ALL_OK {
      assert r.trace[|t|..] == evs[..|r.trace| - |t|];
    } else {
      assert r.trace[|t|..] == evs;
    }
  }

  /** Events added by two steps, each drawn from its own list. */
  lemma WithinJoin(t: seq<Event>, u: seq<Event>, v: seq<Event>, a: seq<Event>, b: seq<Event>)
    requires t <= u <= v
    requires forall e | e in u[|t|..] :: e in a
    requires forall e | e in v[|u|..] :: e in b
    ensures forall e | e in v[|t|..] :: e in a + b
  {
    assert v[|t|..] == u[|t|..] + v[|u|..];
  }

  /** write_command, whatever the calls return, issues only calls of its
      own: the acquire, its command frame and the release. */
  lemma WriteCommandWithin(c: Conf, t: seq<Event>, cmd: int, args: seq<int>)
    requires 0 <= cmd < 0x100
    ensures var w := WriteCommandSpec(c, t, cmd, args);
            t <= w.trace && forall e | e in w.trace[|t|..] :: e in CommandEvents(c.ops, cmd, args)
  {
    var frame := CommandFrame(c.ops, cmd, args);
    var a := CallOpt(c.rs, t, c.ops.hasAcquire, Acquire);
    RunWithin(c.rs, t, Acq(c.ops));
    if a.err == ALL_OK {
      var body :=
        if Drivable(c.ops.mode) then Run(c.rs, a.trace, frame)
        else Issued(a.trace, E_INVALID_ARGUMENT);
      RunWithin(c.rs, a.trace, frame);
      assert a.trace[|a.trace|..] == [];
      WithinJoin(t, a.trace, body.trace, Acq(c.ops), frame);
      RunWithin(c.rs, body.trace, Rel(c.ops));
      var r := CallOpt(c.rs, body.trace, c.ops.hasRelease, Release);
      assert body.trace[|body.trace|..] == [];
      WithinJoin(t, body.trace, r.trace, Acq(c.ops) + frame, Rel(c.ops));
    }
  }

  /** A failed RAMWR ends append_gram: the failure is returned and not one
      pixel reaches the bus, since every data write issued carries no bytes. */
  lemma AppendGramCommandFails(c: Conf, t: seq<Event>, pixels: seq<u16>)
    requires WriteCommandSpec(c, t, RAMWR, []).err != ALL_OK
    ensures var r := AppendGramSpec(c, t, pixels);
            r == WriteCommandSpec(c, t, RAMWR, []) && t <= r.trace
            && forall e | e in r.trace[|t|..] :: !e.AsyncStart? && (e.Write? ==> e.bytes == [])
  {
    WriteCommandWithin(c, t, RAMWR, []);
  }

  // ------------------------------------------------------- init preamble

  /** The two-bit bus mode 3 passes init's checks, and then every command
      fails with E_INVALID_ARGUMENT after the bus has been taken and given back. */
  lemma ReservedModeSlipsThroughInit(h: Hooks, c: Conf, t: seq<Event>, cmd: int)
    requires c.ops.mode.ModeReserved? && Faultless(c.rs) && 0 <= cmd < 0x100
    ensures InitPreamble(KindSt7789, ModeReserved, h) == ALL_OK
    ensures WriteCommandSpec(c, t, cmd, []) == Issued(t + Acq(c.ops) + Rel(c.ops), E_INVALID_ARGUMENT)
  {
    WriteCommandFaultless(c, t, cmd, []);
  }

  // -------------------------------------------------------- state machine

  /** stream_start refuses to start while a transfer runs or with nothing
      staged, and then changes nothing. */
  lemma StreamStartRefuses(c: Conf, d: Dev, h: Handler, p: nat)
    requires d.state == Transferring || d.state == Idle
    ensures StreamStartSpec(c, d, h, p) == Out(d, E_INVALID_OPERATION)
  {
  }

  /** A failing acquire returns at once: the handler is already stored, the
      state and everything else is as before. */
  lemma StreamStartAcquireFails(c: Conf, d: Dev, h: Handler, p: nat)
    requires d.state == BufferLoaded || d.state == BufferReloaded
    requires c.ops.hasAcquire && Reply(c.rs, |d.trace|) != ALL_OK
    ensures StreamStartSpec(c, d, h, p) ==
            Out(d.(handler := h, params := p, trace := d.trace + [Acquire]), Reply(c.rs, |d.trace|))
  {
  }

  /** First transfer (state BUFFER_LOADED), no call failing: the handler is
      stored, the bus is taken once and kept, RAMWR (taking and giving back the
      bus itself) and on SPI the D/C-high, CS-low frame, then exactly one
      asynchronous write of the staged buffer, in state TRANSFERING. */
  lemma StreamStartFirst(c: Conf, d: Dev, h: Handler, p: nat)
    requires Faultless(c.rs) && Drivable(c.ops.mode) && d.state == BufferLoaded
    ensures StreamStartSpec(c, d, h, p) ==
            Out(d.(state := Transferring, handler := h, params := p,
                   trace := d.trace + Acq(c.ops) + CommandEvents(c.ops, RAMWR, [])
                            + (if c.ops.mode.ModeSpi? then [Dc(1), Cs(0)] else [])
                            + [AsyncStart(d.txSize, d.txBuf)]), ALL_OK)
  {
    CallOptFaultless(c.rs, d.trace, c.ops.hasAcquire, Acquire);
    var a := d.trace + Acq(c.ops);
    var d2 := d.(handler := h, params := p, trace := a);
    WriteCommandFaultless(c, a, RAMWR, []);
    var w := a + CommandEvents(c.ops, RAMWR, []);
    RunFaultless(c.rs, w, [Dc(1), Cs(0)]);
    var f := w + (if c.ops.mode.ModeSpi? then [Dc(1), Cs(0)] else []);
    assert StreamPrelude(c, d2) == Issued(f, ALL_OK);
    RunOne(c.rs, f, AsyncStart(d.txSize, d.txBuf));
  }

  /** Reload (state BUFFER_RELOADED), no call failing: no command at all, only
      the acquire and the asynchronous write of the new buffer. */
  lemma StreamStartReload(c: Conf, d: Dev, h: Handler, p: nat)
    requires Faultless(c.rs) && Drivable(c.ops.mode) && d.state == BufferReloaded
    ensures StreamStartSpec(c, d, h, p) ==
            Out(d.(state := Transferring, handler := h, params := p,
                   trace := d.trace + Acq(c.ops) + [AsyncStart(d.txSize, d.txBuf)]), ALL_OK)
  {
    CallOptFaultless(c.rs, d.trace, c.ops.hasAcquire, Acquire);
    RunOne(c.rs, d.trace + Acq(c.ops), AsyncStart(d.txSize, d.txBuf));
  }

  /** Whatever fails in a reload, it issues no command. */
  lemma StreamStartReloadSendsNoCommand(c: Conf, d: Dev, h: Handler, p: nat)
    requires d.state == BufferReloaded
    ensures var o := StreamStartSpec(c, d, h, p);
            d.trace <= o.dev.trace && forall i | |d.trace| <= i < |o.dev.trace| :: !o.dev.trace[i].Cmd?
  {
    if c.ops.hasAcquire {
      RunOne(c.rs, d.trace, Acquire);
    }
    var a := CallOpt(c.rs, d.trace, c.ops.hasAcquire, Acquire);
    if a.err == ALL_OK {
      if Drivable(c.ops.mode) {
        RunOne(c.rs, a.trace, AsyncStart(d.txSize, d.txBuf));
      }
      var st := if Drivable(c.ops.mode) then Run(c.rs, a.trace, [AsyncStart(d.txSize, d.txBuf)])
                else Issued(a.trace, E_INVALID_ARGUMENT);
      if c.ops.hasRelease {
        RunOne(c.rs, st.trace, Release);
      }
    }
  }

  /** Any failure after a successful acquire leaves the device IDLE, and the
      last call is the release of the bus. */
  lemma StreamStartFailureReleases(c: Conf, d: Dev, h: Handler, p: nat)
    requires d.state == BufferLoaded || d.state == BufferReloaded
    requires c.ops.hasAcquire ==> Reply(c.rs, |d.trace|) == ALL_OK
    requires c.ops.hasRelease
    ensures var o := StreamStartSpec(c, d, h, p);
            o.err != ALL_OK ==> o.dev.state == Idle && |o.dev.trace| > 0 && o.dev.trace[|o.dev.trace| - 1] == Release
  {
    if c.ops.hasAcquire {
      RunOne(c.rs, d.trace, Acquire);
    }
    var a := CallOpt(c.rs, d.trace, c.ops.hasAcquire, Acquire);
    var d2 := d.(handler := h, params := p, trace := a.trace);
    var pre := StreamPrelude(c, d2);
    if pre.err != ALL_OK {
      ErrorExitReleases(c, d2.(trace := pre.trace), pre.err);
    } else {
      var d4 := d2.(trace := pre.trace, state := Transferring);
      var st :=
        if c.ops.mode.ModeSpi? || c.ops.mode.Mode8080? then Run(c.rs, d4.trace, [AsyncStart(d4.txSize, d4.txBuf)])
        else Issued(d4.trace, E_INVALID_ARGUMENT);
      ErrorExitReleases(c, d4.(trace := st.trace), st.err);
    }
  }

  /** The error exit always leaves the device IDLE with the release as the
      last call (the release failing or not). */
  lemma ErrorExitReleases(c: Conf, d: Dev, err: int)
    requires c.ops.hasRelease
    ensures var o := ErrorExitSpec(c, d, err);
            o.dev.state == Idle && |o.dev.trace| > 0 && o.dev.trace[|o.dev.trace| - 1] == Release
  {
    RunOne(c.rs, d.trace, Release);
  }

  /** notify outside TRANSFERING (including BUFFER_RELOADED, where a reload
      waits for the running transfer) is refused and changes nothing. */
  lemma NotifyRefuses(c: Conf, d: Dev)
    requires d.state != Transferring
    requires d.handler.ClearHandler? ==> ClearWidth(c.chip) > 0
    ensures NotifySpec(c, d) == Out(d, E_INVALID_OPERATION)
  {
  }

  /** With no handler and no call failing, notify ends the frame (on SPI
      D/C high then CS high) and returns to IDLE with the staged size zeroed;
      it does not release the bus. */
  lemma NotifyWithoutHandler(c: Conf, d: Dev)
    requires Faultless(c.rs) && Drivable(c.ops.mode)
    requires d.state == Transferring && d.handler == NoHandler
    ensures var o := NotifySpec(c, d);
            o == Out(d.(state := Idle, txSize := 0,
                        trace := d.trace + (if c.ops.mode.ModeSpi? then [Dc(1), Cs(1)] else [])), ALL_OK)
            && Count(o.dev.trace, Release) == Count(d.trace, Release)
  {
    RunFaultless(c.rs, d.trace, [Dc(1), Cs(1)]);
    CountAppend(d.trace, if c.ops.mode.ModeSpi? then [Dc(1), Cs(1)] else [], Release);
  }

  /** Any failure of notify (the handler's, or the ending sequence's) leaves
      the device IDLE, and the last call is the release of the bus. */
  lemma NotifyFailureReleases(c: Conf, d: Dev)
    requires d.state == Transferring && c.ops.hasRelease
    requires d.handler.ClearHandler? ==> ClearWidth(c.chip) > 0
    ensures var o := NotifySpec(c, d);
            o.err != ALL_OK ==> o.dev.state == Idle && |o.dev.trace| > 0 && o.dev.trace[|o.dev.trace| - 1] == Release
  {
    var d1 := d.(txSize := 0);
    var hr := HandlerSpec(c, d1, d1.handler, d1.params);
    if hr.err != ALL_OK {
      ErrorExitReleases(c, hr.dev, hr.err);
    } else if hr.dev.txSize == 0 {
      var e :=
        if c.ops.mode.ModeSpi? then Run(c.rs, hr.dev.trace, [Dc(1), Cs(1)])
        else if c.ops.mode.Mode8080? then Issued(hr.dev.trace, ALL_OK)
        else Issued(hr.dev.trace, E_INVALID_ARGUMENT);
      ErrorExitReleases(c, hr.dev.(trace := e.trace), e.err);
    }
  }

  // ---------------------------------------------------- asynchronous clear

  /** Lines one band of the clear covers. */
  function Band(c: Conf): nat
    requires ClearWidth(c.chip) > 0
  {
    Quotient(ClearBufSize(c.chip), ClearWidth(c.chip))
  }

  function Quotient(a: nat, b: nat): nat
    requires b > 0
  {
    a / b
  }

  /** Number of bands the handler stages for `lines` lines. */
  function Stages(lines: nat, band: nat): nat
    requires band > 0
    decreases lines
  {
    if lines == 0 then 0 else 1 + Stages(lines - Min(lines, band), band)
  }

  /** Stages is the ceiling of lines / band. */
  lemma {:induction false} StagesIsCeiling(lines: nat, band: nat)
    requires band > 0
    ensures Stages(lines, band) == (lines + band - 1) / band
    decreases lines
  {
    if lines > band {
      assert Stages(lines, band) == 1 + Stages(lines - band, band);
      StagesIsCeiling(lines - band, band);
      assert (lines - band) + band - 1 == lines - 1;
      DivShift(lines - 1, band);
    } else if lines > 0 {
      assert Stages(lines, band) == 1 + Stages(0, band);
      DivUnique(lines + band - 1, band, 1, lines - 1);
    } else {
      DivUnique(band - 1, band, 0, band - 1);
    }
  }

  lemma DivShift(a: nat, b: nat)
    requires b > 0
    ensures (a + b) / b == a / b + 1
  {
    var q, r := a / b, a % b;
    assert a == q * b + r;
    assert a + b == (q + 1) * b + r;
    DivUnique(a + b, b, q + 1, r);
  }

  /** Division by a positive divisor has one quotient and remainder. */
  lemma DivUnique(x: int, b: int, q: int, r: int)
    requires b > 0 && 0 <= r < b && x == q * b + r
    ensures x / b == q
  {
    var q', r' := x / b, x % b;
    assert x == q' * b + r';
    if q' > q {
      MulGap(q', q, b);
    } else if q' < q {
      MulGap(q, q', b);
    }
  }

  /** A larger multiplier gives a product at least one divisor larger. */
  lemma MulGap(m: int, n: int, b: int)
    requires m > n && b > 0
    ensures m * b >= n * b + b
  {
    var k := m - n - 1;
    assert k * b >= 0;
    assert m * b == (k + n + 1) * b == k * b + n * b + b;
  }

  /** With an ST7789 of a sensible width the buffer holds five lines. */
  lemma St7789BandIsFive(x: u16, y: u16)
    requires 0 < x <= 240
    ensures var c := St7789(x, y); ClearWidth(c) == x && ClearBufSize(c) / ClearWidth(c) == CACHE_LINE_COUNT
  {
  }

  /** The preconditions of a clear that runs to its end: no call fails, the
      mode can be driven, and a band holds at least one line. */
  ghost predicate ClearSetup(c: Conf)
  {
    Faultless(c.rs) && Drivable(c.ops.mode) && ClearWidth(c.chip) > 0 && Band(c) >= 1
  }

  /** A clear in progress: transferring a band with the clear handler. */
  ghost predicate Clearing(c: Conf, d: Dev, p: nat)
    requires ClearWidth(c.chip) > 0
  {
    d.state == Transferring && d.handler == ClearHandler && d.params == p
    && d.args.buf != 0 && d.args.live && d.args.bufSize == ClearBufSize(c.chip)
  }

  /** The completion interrupt raised n times in a row (stopping at a failure). */
  function Notifies(c: Conf, d: Dev, n: nat): Out
    requires ClearWidth(c.chip) > 0
    decreases n
  {
    if n == 0 then Out(d, ALL_OK)
    else
      var o := NotifySpec(c, d);
      if o.err != ALL_OK then o else Notifies(c, o.dev, n - 1)
  }

  /** A completion while lines are left stages the next band (BUFFER_RELOADED,
      no command) and restarts the transfer from inside the handler; notify
      itself then issues nothing. */
  lemma NotifyStagesNextBand(c: Conf, d: Dev, p: nat)
    requires ClearSetup(c) && Clearing(c, d, p) && d.linesLeft > 0
    ensures var k := Min(d.linesLeft, Band(c));
            var w := ClearWidth(c.chip);
            NotifySpec(c, d) ==
            Out(d.(txSize := w * k, txBuf := d.args.buf, linesLeft := d.linesLeft - k,
                   trace := d.trace + Acq(c.ops) + [AsyncStart(w * k, d.args.buf)]), ALL_OK)
  {
    var k := Min(d.linesLeft, Band(c));
    var w := ClearWidth(c.chip);
    var d1 := d.(txSize := 0);
    var s := ClearSetBufSpec(c, d1);
    assert s.dev == d1.(state := BufferReloaded, txSize := w * k, txBuf := d.args.buf, linesLeft := d.linesLeft - k);
    StreamStartReload(c, s.dev, ClearHandler, p);
    assert w * k != 0;
  }

  /** The completion that finds no line left frees the clear block and ends
      the frame, returning to IDLE. */
  lemma NotifyFinishesClear(c: Conf, d: Dev, p: nat)
    requires ClearSetup(c) && Clearing(c, d, p) && d.linesLeft == 0
    ensures NotifySpec(c, d) ==
            Out(d.(state := Idle, txSize := 0, args := d.args.(live := false), frees := d.frees + 1,
                   trace := d.trace + (if c.ops.mode.ModeSpi? then [Dc(1), Cs(1)] else [])), ALL_OK)
  {
    RunFaultless(c.rs, d.trace, [Dc(1), Cs(1)]);
  }

  /** From a clear in progress, Stages(lines) + 1 completions finish it: one
      asynchronous write per remaining band, no command, one release of the
      clear block, and the device back in IDLE. */
  lemma {:induction false} NotifiesFinishClear(c: Conf, d: Dev, p: nat, e: Event)
    requires ClearSetup(c) && Clearing(c, d, p) && e.Cmd?
    ensures var o := Notifies(c, d, Stages(d.linesLeft, Band(c)) + 1);
            o.err == ALL_OK && o.dev.state == Idle && o.dev.linesLeft == 0
            && o.dev.frees == d.frees + 1 && !o.dev.args.live
            && CountAsyncStarts(o.dev.trace) == CountAsyncStarts(d.trace) + Stages(d.linesLeft, Band(c))
            && Count(o.dev.trace, e) == Count(d.trace, e)
    decreases d.linesLeft
  {
    var band := Band(c);
    var n := Stages(d.linesLeft, band);
    var o := Notifies(c, d, n + 1);
    if d.linesLeft == 0 {
      NotifyFinishesClear(c, d, p);
      assert o == NotifySpec(c, d);
      var tail := if c.ops.mode.ModeSpi? then [Dc(1), Cs(1)] else [];
      EndFrameCounts(tail, e);
    } else {
      NotifyStagesNextBand(c, d, p);
      var o1 := NotifySpec(c, d);
      assert Stages(d.linesLeft, band) == 1 + Stages(o1.dev.linesLeft, band);
      assert o == Notifies(c, o1.dev, n);
      NotifiesFinishClear(c, o1.dev, p, e);
      StageCounts(d.trace, Acq(c.ops), AsyncStart(o1.dev.txSize, d.args.buf), e);
    }
  }

  /** The end of the frame carries no command and no asynchronous start. */
  lemma EndFrameCounts(tail: seq<Event>, e: Event)
    requires e.Cmd? && (tail == [] || tail == [Dc(1), Cs(1)])
    ensures Count(tail, e) == 0 && CountAsyncStarts(tail) == 0
  {
    NoAsyncStarts(tail);
  }

  /** A staged band adds one asynchronous start and no command. */
  lemma StageCounts(t: seq<Event>, acq: seq<Event>, start: Event, e: Event)
    requires e.Cmd? && start.AsyncStart? && (acq == [] || acq == [Acquire])
    ensures Count(t + acq + [start], e) == Count(t, e)
    ensures CountAsyncStarts(t + acq + [start]) == CountAsyncStarts(t) + 1
  {
    CountAppend(t + acq, [start], e);
    CountAppend(t, acq, e);
    NoAsyncStarts(acq);
    assert [start][..0] == [];
  }

  /** Before its last completion the clear is still running and has freed nothing. */
  lemma {:induction false} NotifiesBeforeEnd(c: Conf, d: Dev, p: nat, n: nat)
    requires ClearSetup(c) && Clearing(c, d, p) && n <= Stages(d.linesLeft, Band(c))
    ensures var o := Notifies(c, d, n);
            o.err == ALL_OK && Clearing(c, o.dev, p) && o.dev.frees == d.frees
    decreases n
  {
    if n > 0 {
      assert d.linesLeft > 0;
      NotifyStagesNextBand(c, d, p);
      NotifiesBeforeEnd(c, NotifySpec(c, d).dev, p, n - 1);
    }
  }

  /** The events of the first band: RAMWR and the SPI frame inside the bus
      taken by stream_start, then the asynchronous write. */
  function FirstBandEvents(ops: Ops, size: nat, buf: nat): seq<Event>
  {
    Acq(ops) + CommandEvents(ops, RAMWR, []) + (if ops.mode.ModeSpi? then [Dc(1), Cs(0)] else [])
    + [AsyncStart(size, buf)]
  }

  /** The handler called by hand on an idle device with lines to clear stages
      the first band and starts it. */
  lemma FirstBand(c: Conf, d: Dev, p: nat)
    requires ClearSetup(c) && d.state == Idle && d.linesLeft > 0
    requires d.args.buf != 0 && d.args.live && d.args.bufSize == ClearBufSize(c.chip)
    ensures var k := Min(d.linesLeft, Band(c));
            var size := ClearWidth(c.chip) * k;
            ClearHandlerSpec(c, d, p) ==
            Out(d.(state := Transferring, handler := ClearHandler, params := p, txSize := size,
                   txBuf := d.args.buf, linesLeft := d.linesLeft - k,
                   trace := d.trace + FirstBandEvents(c.ops, size, d.args.buf)), ALL_OK)
  {
    var k := Min(d.linesLeft, Band(c));
    var size := ClearWidth(c.chip) * k;
    var loaded := d.(state := BufferLoaded, txSize := size, txBuf := d.args.buf, linesLeft := d.linesLeft - k);
    HandlerStagesBand(c, d, p);
    StreamStartFirst(c, loaded, ClearHandler, p);
    var ram := CommandEvents(c.ops, RAMWR, []);
    var frame := if c.ops.mode.ModeSpi? then [Dc(1), Cs(0)] else [];
    AppendAssoc4(d.trace, Acq(c.ops), ram, frame, [AsyncStart(size, d.args.buf)]);
  }

  lemma AppendAssoc4(t: seq<Event>, a: seq<Event>, b: seq<Event>, f: seq<Event>, s: seq<Event>)
    ensures t + a + b + f + s == t + (a + b + f + s)
  {
  }

  /** With lines left, the handler stages the next band and hands over to
      stream_start. */
  lemma HandlerStagesBand(c: Conf, d: Dev, p: nat)
    requires ClearWidth(c.chip) > 0 && d.linesLeft > 0 && d.args.buf != 0
    ensures var k := Min(d.linesLeft, d.args.bufSize / ClearWidth(c.chip));
            var staged := if d.state == Idle || d.state == BufferLoaded then BufferLoaded else BufferReloaded;
            ClearHandlerSpec(c, d, p) ==
            StreamStartSpec(c, d.(state := staged, txSize := ClearWidth(c.chip) * k, txBuf := d.args.buf,
                                  linesLeft := d.linesLeft - k), ClearHandler, p)
  {
  }

  /** display_clear_gram_async up to the handler: the window goes out, the
      clear configuration is set, and the handler runs on that record. */
  lemma ClearAsyncWindow(c: Conf, d: Dev, color: u16, pbuf: nat, pargs: nat)
    requires ClearSetup(c) && pbuf != 0 && pargs != 0
    requires WindowInRange(c.chip, ClearWindow(c.chip))
    ensures ClearAsyncSpec(c, d, color, pbuf, pargs) ==
            Out(ClearHandlerSpec(c, d.(args := ClearArgs(pbuf, ClearFill(c.chip, color), ClearBufSize(c.chip), true),
                                       trace := d.trace + WindowEvents(c.ops, ClearWindow(c.chip)),
                                       clearColor := color, linesLeft := ClearHeight(c.chip)), pargs).dev, ALL_OK)
  {
    SetWindowFaultless(c, d.trace, ClearWindow(c.chip));
  }

  lemma AppendAssoc(t: seq<Event>, a: seq<Event>, b: seq<Event>)
    ensures t + a + b == t + (a + b)
  {
  }

  /** display_clear_gram_async on an idle device, no call failing: the window,
      then the handler called once by hand stages the first band and starts it
      (the only RAMWR of the clear). */
  lemma ClearAsyncBootstrap(c: Conf, d: Dev, color: u16, pbuf: nat, pargs: nat)
    requires ClearSetup(c) && d.state == Idle && pbuf != 0 && pargs != 0
    requires WindowInRange(c.chip, ClearWindow(c.chip)) && ClearHeight(c.chip) > 0
    ensures var o := ClearAsyncSpec(c, d, color, pbuf, pargs);
            var k := Min(ClearHeight(c.chip), Band(c));
            o.err == ALL_OK && Clearing(c, o.dev, pargs)
            && o.dev.linesLeft == ClearHeight(c.chip) - k && o.dev.frees == d.frees
            && o.dev.args.buf == pbuf && o.dev.args.pixels == ClearFill(c.chip, color)
            && o.dev.trace == d.trace + WindowEvents(c.ops, ClearWindow(c.chip))
                              + FirstBandEvents(c.ops, ClearWidth(c.chip) * k, pbuf)
  {
    ClearAsyncWindow(c, d, color, pbuf, pargs);
    var d3 := d.(args := ClearArgs(pbuf, ClearFill(c.chip, color), ClearBufSize(c.chip), true),
                 trace := d.trace + WindowEvents(c.ops, ClearWindow(c.chip)),
                 clearColor := color, linesLeft := ClearHeight(c.chip));
    FirstBand(c, d3, pargs);
  }

  /** The commands of write_command(cmd) count one `Cmd` event: the command's own. */
  lemma CommandEventsCount(ops: Ops, cmd: int, args: seq<int>, x: int)
    requires Drivable(ops.mode) && 0 <= cmd < 0x100 && 0 <= x < 0x100
    ensures Count(CommandEvents(ops, cmd, args), Cmd(CommandBytes(ops, x))) == if cmd == x then 1 else 0
  {
    if ops.mode.Mode8080? {
      CommandCount8080(ops, cmd, args, x);
    } else {
      CommandCountSpi(ops, cmd, args, x);
    }
  }

  lemma CommandCount8080(ops: Ops, cmd: int, args: seq<int>, x: int)
    requires ops.mode.Mode8080? && 0 <= cmd < 0x100 && 0 <= x < 0x100
    ensures Count(CommandEvents(ops, cmd, args), Cmd(CommandBytes(ops, x))) == if cmd == x then 1 else 0
  {
    var e := Cmd(CommandBytes(ops, x));
    var y := Cmd(CommandBytes(ops, cmd));
    var post := [Write(args)] + Rel(ops);
    assert CommandEvents(ops, cmd, args) == Acq(ops) + [y] + post;
    assert y == e <==> cmd == x by {
      CommandWord8080(ops, cmd);
      CommandWord8080(ops, x);
    }
    CountOne(Acq(ops), y, post, e);
  }

  lemma CommandCountSpi(ops: Ops, cmd: int, args: seq<int>, x: int)
    requires ops.mode.ModeSpi? && 0 <= cmd < 0x100 && 0 <= x < 0x100
    ensures Count(CommandEvents(ops, cmd, args), Cmd(CommandBytes(ops, x))) == if cmd == x then 1 else 0
  {
    var e := Cmd(CommandBytes(ops, x));
    var y := Cmd(CommandBytes(ops, cmd));
    var pre := Acq(ops) + [Dc(0), Cs(0)];
    var post := (if |args| != 0 then [Dc(1), Write(args), Cs(1)] else [Cs(1), Dc(1)]) + Rel(ops);
    assert CommandEvents(ops, cmd, args) == pre + [y] + post;
    CountOne(pre, y, post, e);
  }

  /** write_command starts no asynchronous transfer. */
  lemma CommandEventsStartNothing(ops: Ops, cmd: int, args: seq<int>)
    requires 0 <= cmd < 0x100
    ensures CountAsyncStarts(CommandEvents(ops, cmd, args)) == 0
  {
    NoAsyncStarts(CommandEvents(ops, cmd, args));
  }

  /** An event that occurs once, between two stretches that lack it. */
  lemma CountOne(a: seq<Event>, y: Event, b: seq<Event>, e: Event)
    requires e !in a && e !in b
    ensures Count(a + [y] + b, e) == if y == e then 1 else 0
  {
    NotCounted(a, e);
    NotCounted(b, e);
    CountAppend(a + [y], b, e);
    CountAppend(a, [y], e);
    assert [y][..0] == [];
  }

  /** From the state the bootstrap leaves (a clear in progress whose trace
      holds one RAMWR and one asynchronous start more than `t`), the
      Stages(lines left) + 1 further completions finish the clear: none fails,
      the device is back in IDLE, no further RAMWR is sent, one asynchronous
      write per remaining band is started, and the clear block is freed
      exactly once, by the last completion (the one before leaves the clear
      running with nothing freed). With ClearAsyncBootstrap, BootstrapCounts
      and FirstStage this is the whole clear: ceil(H / band) bands, one RAMWR,
      one free. */
  lemma ClearRunsOut(c: Conf, d1: Dev, p: nat, t: seq<Event>)
    requires ClearSetup(c) && Clearing(c, d1, p)
    requires Count(d1.trace, Cmd(CommandBytes(c.ops, RAMWR))) == Count(t, Cmd(CommandBytes(c.ops, RAMWR))) + 1
    requires CountAsyncStarts(d1.trace) == CountAsyncStarts(t) + 1
    ensures var m := Stages(d1.linesLeft, Band(c));
            var o2 := Notifies(c, d1, m + 1);
            var ramwr := Cmd(CommandBytes(c.ops, RAMWR));
            o2.err == ALL_OK && o2.dev.state == Idle
            && CountAsyncStarts(o2.dev.trace) == CountAsyncStarts(t) + m + 1
            && Count(o2.dev.trace, ramwr) == Count(t, ramwr) + 1
            && o2.dev.frees == d1.frees + 1 && !o2.dev.args.live
            && Notifies(c, d1, m).dev.state == Transferring
            && Notifies(c, d1, m).dev.frees == d1.frees
  {
    var m := Stages(d1.linesLeft, Band(c));
    NotifiesFinishClear(c, d1, p, Cmd(CommandBytes(c.ops, RAMWR)));
    NotifiesBeforeEnd(c, d1, p, m);
  }

  /** The first band accounts for one stage of the ceiling. */
  lemma FirstStage(c: Conf, h: nat, left: nat)
    requires ClearWidth(c.chip) > 0 && Band(c) >= 1 && h > 0 && left == h - Min(h, Band(c))
    ensures (h + Band(c) - 1) / Band(c) == Stages(left, Band(c)) + 1
  {
    StagesIsCeiling(h, Band(c));
  }

  /** The bootstrap sends RAMWR once and starts one transfer, whatever the
      window arguments. */
  lemma BootstrapCounts(ops: Ops, cols: seq<int>, rows: seq<int>, size: nat, buf: nat, t: seq<Event>,
                         all: seq<Event>)
    requires Drivable(ops.mode)
    requires all == t + (CommandEvents(ops, CASET, cols) + CommandEvents(ops, RASET, rows))
                    + FirstBandEvents(ops, size, buf)
    ensures var ramwr := Cmd(CommandBytes(ops, RAMWR));
            Count(all, ramwr) == Count(t, ramwr) + 1
            && CountAsyncStarts(all) == CountAsyncStarts(t) + 1
  {
    var ramwr := Cmd(CommandBytes(ops, RAMWR));
    var cas := CommandEvents(ops, CASET, cols);
    var ras := CommandEvents(ops, RASET, rows);
    var ram := CommandEvents(ops, RAMWR, []);
    var frame := if ops.mode.ModeSpi? then [Dc(1), Cs(0)] else [];
    var start := [AsyncStart(size, buf)];
    CommandEventsCount(ops, CASET, cols, RAMWR);
    CommandEventsCount(ops, RASET, rows, RAMWR);
    CommandEventsCount(ops, RAMWR, [], RAMWR);
    CommandEventsStartNothing(ops, CASET, cols);
    CommandEventsStartNothing(ops, RASET, rows);
    CommandEventsStartNothing(ops, RAMWR, []);
    var pre := Acq(ops);
    FrameCounts(ops, size, buf, ramwr);
    CountSeven(t, cas, ras, pre, ram, frame, start, ramwr);
  }

  /** The acquire, the SPI frame and the asynchronous write of stream_start
      carry no command; only the last starts a transfer. */
  lemma FrameCounts(ops: Ops, size: nat, buf: nat, e: Event)
    requires e.Cmd?
    ensures Count(Acq(ops), e) == 0 && CountAsyncStarts(Acq(ops)) == 0
    ensures var frame := if ops.mode.ModeSpi? then [Dc(1), Cs(0)] else [];
            Count(frame, e) == 0 && CountAsyncStarts(frame) == 0
    ensures Count([AsyncStart(size, buf)], e) == 0 && CountAsyncStarts([AsyncStart(size, buf)]) == 1
  {
    var frame := if ops.mode.ModeSpi? then [Dc(1), Cs(0)] else [];
    NotCounted(Acq(ops), e);
    NoAsyncStarts(Acq(ops));
    NotCounted(frame, e);
    NoAsyncStarts(frame);
    assert [AsyncStart(size, buf)][..0] == [];
  }

  /** Counting over the stretches of a trace, grouped as the bootstrap groups them. */
  lemma CountSeven(t: seq<Event>, a: seq<Event>, b: seq<Event>, p: seq<Event>, q: seq<Event>,
                   f: seq<Event>, s: seq<Event>, e: Event)
    ensures Count(t + (a + b) + (p + q + f + s), e)
            == Count(t, e) + Count(a, e) + Count(b, e) + Count(p, e) + Count(q, e) + Count(f, e) + Count(s, e)
    ensures CountAsyncStarts(t + (a + b) + (p + q + f + s))
            == CountAsyncStarts(t) + CountAsyncStarts(a) + CountAsyncStarts(b) + CountAsyncStarts(p)
               + CountAsyncStarts(q) + CountAsyncStarts(f) + CountAsyncStarts(s)
  {
    CountAppend(t + (a + b), p + q + f + s, e);
    CountAppend(t, a + b, e);
    CountAppend(a, b, e);
    CountAppend(p + q + f, s, e);
    CountAppend(p + q, f, e);
    CountAppend(p, q, e);
  }


  // ------------------------------------------------- what the clear sends

  /** Every asynchronous write in t reads at most `size` pixels from `buf`. */
  predicate StartsWithin(t: seq<Event>, buf: nat, size: nat)
  {
    forall i | 0 <= i < |t| && t[i].AsyncStart? :: t[i].buf == buf && t[i].size <= size
  }

  lemma {:induction false} NoStartsWithin(t: seq<Event>, buf: nat, size: nat)
    requires CountAsyncStarts(t) == 0
    ensures StartsWithin(t, buf, size)
    decreases |t|
  {
    if t != [] {
      NoStartsWithin(t[..|t| - 1], buf, size);
      assert forall i | 0 <= i < |t| - 1 :: t[i] == t[..|t| - 1][i];
    }
  }

  lemma StartsWithinAppend(a: seq<Event>, b: seq<Event>, buf: nat, size: nat)
    requires StartsWithin(a, buf, size) && StartsWithin(b, buf, size)
    ensures StartsWithin(a + b, buf, size)
  {
    forall i | 0 <= i < |a + b| && (a + b)[i].AsyncStart?
      ensures (a + b)[i].buf == buf && (a + b)[i].size <= size
    {
      if i >= |a| {
        assert (a + b)[i] == b[i - |a|];
      }
    }
  }

  /** A stretch with no asynchronous write, then one of at most `size` pixels from `buf`. */
  lemma OneStartWithin(pre: seq<Event>, n: nat, buf: nat, size: nat)
    requires CountAsyncStarts(pre) == 0 && n <= size
    ensures StartsWithin(pre + [AsyncStart(n, buf)], buf, size)
  {
    NoStartsWithin(pre, buf, size);
    StartsWithinAppend(pre, [AsyncStart(n, buf)], buf, size);
  }

  /** A band the handler stages fits the clear buffer. */
  lemma BandFits(c: Conf, lines: nat)
    requires ClearWidth(c.chip) > 0
    ensures ClearWidth(c.chip) * Min(lines, Band(c)) <= ClearBufSize(c.chip)
  {
    WholeLinesFit(ClearWidth(c.chip), Min(lines, Band(c)), ClearBufSize(c.chip));
  }

  /** The fill loop writes at least as many pixels as `buf_size` records,
      unless an ST7735 display area is inverted. */
  lemma BufSizeWithinFill(chip: Chip)
    requires chip.St7789? || chip.area.left <= chip.area.right
    ensures ClearBufSize(chip) <= FillCount(chip)
  {
    var x := if chip.St7789? then chip.resX else chip.area.right - chip.area.left;
    assert (CACHE_LINE_COUNT * x) % 0x1_0000 <= CACHE_LINE_COUNT * x;
  }

  /** The fill loop leaves every pixel equal to the value it writes. */
  lemma {:induction false} FilledAll(v: int, n: nat)
    ensures forall i | 0 <= i < n :: Filled(v, n)[i] == v
    decreases n
  {
    if n > 0 {
      FilledAll(v, n - 1);
    }
  }

  /** From a clear in progress, the completions that finish it keep the
      buffer and send every band from it, each no larger than `buf_size`. */
  lemma {:induction false} NotifiesStayInBuffer(c: Conf, d: Dev, p: nat)
    requires ClearSetup(c) && Clearing(c, d, p)
    ensures var o := Notifies(c, d, Stages(d.linesLeft, Band(c)) + 1);
            o.dev.args.buf == d.args.buf && o.dev.args.pixels == d.args.pixels
            && d.trace <= o.dev.trace
            && StartsWithin(o.dev.trace[|d.trace|..], d.args.buf, d.args.bufSize)
    decreases d.linesLeft
  {
    var band := Band(c);
    var n := Stages(d.linesLeft, band);
    var o := Notifies(c, d, n + 1);
    if d.linesLeft == 0 {
      NotifyFinishesClear(c, d, p);
      assert o == NotifySpec(c, d);
      var tail := if c.ops.mode.ModeSpi? then [Dc(1), Cs(1)] else [];
      assert o.dev.trace[|d.trace|..] == tail;
      EndFrameCounts(tail, Cmd([]));
      NoStartsWithin(tail, d.args.buf, d.args.bufSize);
    } else {
      NotifyStagesNextBand(c, d, p);
      var o1 := NotifySpec(c, d);
      assert Stages(d.linesLeft, band) == 1 + Stages(o1.dev.linesLeft, band);
      assert o == Notifies(c, o1.dev, n);
      NotifiesStayInBuffer(c, o1.dev, p);
      var k := Min(d.linesLeft, band);
      var step := Acq(c.ops) + [AsyncStart(ClearWidth(c.chip) * k, d.args.buf)];
      BandFits(c, d.linesLeft);
      FrameCounts(c.ops, 0, 0, Cmd([]));
      OneStartWithin(Acq(c.ops), ClearWidth(c.chip) * k, d.args.buf, d.args.bufSize);
      AppendAssoc(d.trace, Acq(c.ops), [AsyncStart(ClearWidth(c.chip) * k, d.args.buf)]);
      WithinSplit(d.trace, step, o1.dev.trace, o.dev.trace, d.args.buf, d.args.bufSize);
    }
  }

  /** What stream_start sends before the asynchronous write of the first band. */
  function BandPrelude(ops: Ops): seq<Event>
  {
    Acq(ops) + CommandEvents(ops, RAMWR, []) + (if ops.mode.ModeSpi? then [Dc(1), Cs(0)] else [])
  }

  lemma BandPreludeStartsNothing(ops: Ops)
    ensures CountAsyncStarts(BandPrelude(ops)) == 0
    ensures forall n: nat, buf: nat :: FirstBandEvents(ops, n, buf) == BandPrelude(ops) + [AsyncStart(n, buf)]
  {
    var ram := CommandEvents(ops, RAMWR, []);
    var frame := if ops.mode.ModeSpi? then [Dc(1), Cs(0)] else [];
    FrameCounts(ops, 0, 0, Cmd([]));
    CommandEventsStartNothing(ops, RAMWR, []);
    CountAppend(Acq(ops), ram, Cmd([]));
    CountAppend(Acq(ops) + ram, frame, Cmd([]));
  }

  /** The bootstrap's traffic starts one asynchronous write: the first band. */
  lemma BootstrapWithin(ops: Ops, r: Rect, n: nat, buf: nat, size: nat)
    requires n <= size
    ensures StartsWithin(WindowEvents(ops, r) + FirstBandEvents(ops, n, buf), buf, size)
  {
    BandPreludeStartsNothing(ops);
    QuietThenStart(WindowEvents(ops, r), BandPrelude(ops), n, buf, size);
  }

  lemma QuietThenStart(win: seq<Event>, pre: seq<Event>, n: nat, buf: nat, size: nat)
    requires CountAsyncStarts(win) == 0 && CountAsyncStarts(pre) == 0 && n <= size
    ensures StartsWithin(win + (pre + [AsyncStart(n, buf)]), buf, size)
  {
    CountAppend(win, pre, Cmd([]));
    OneStartWithin(win + pre, n, buf, size);
    assert win + (pre + [AsyncStart(n, buf)]) == win + pre + [AsyncStart(n, buf)];
  }

  /** A trace that grows by `seg` and then by more keeps the bound when both parts do. */
  lemma WithinSplit(t0: seq<Event>, seg: seq<Event>, t1: seq<Event>, t2: seq<Event>, buf: nat, size: nat)
    requires t1 == t0 + seg && t1 <= t2
    requires StartsWithin(seg, buf, size) && StartsWithin(t2[|t1|..], buf, size)
    ensures t0 <= t2 && StartsWithin(t2[|t0|..], buf, size)
  {
    var rest := t2[|t1|..];
    assert t2 == t1 + rest;
    assert t2[|t0|..] == seg + rest;
    StartsWithinAppend(seg, rest, buf, size);
  }

  lemma StartsWithinWider(t: seq<Event>, buf: nat, size: nat, wider: nat)
    requires StartsWithin(t, buf, size) && size <= wider
    ensures StartsWithin(t, buf, wider)
  {
  }

  /** The whole asynchronous clear, no call failing: the buffer holds
      U16ECV(color) in every pixel, and every asynchronous write from the
      bootstrap to the last completion reads from that buffer and no further
      than its filled part, so every band sent is the byte-swapped colour. */
  lemma ClearSendsFill(c: Conf, d: Dev, color: u16, pbuf: nat, pargs: nat)
    requires ClearSetup(c) && d.state == Idle && pbuf != 0 && pargs != 0
    requires WindowInRange(c.chip, ClearWindow(c.chip)) && ClearHeight(c.chip) > 0
    requires c.chip.St7789? || c.chip.area.left <= c.chip.area.right
    ensures var o1 := ClearAsyncSpec(c, d, color, pbuf, pargs);
            var o2 := Notifies(c, o1.dev, Stages(o1.dev.linesLeft, Band(c)) + 1);
            var fill := o2.dev.args.pixels;
            d.trace <= o2.dev.trace && |fill| == FillCount(c.chip)
            && (forall i | 0 <= i < |fill| :: fill[i] == U16ecv(color))
            && StartsWithin(o2.dev.trace[|d.trace|..], pbuf, |fill|)
  {
    ClearAsyncBootstrap(c, d, color, pbuf, pargs);
    var o1 := ClearAsyncSpec(c, d, color, pbuf, pargs);
    var o2 := Notifies(c, o1.dev, Stages(o1.dev.linesLeft, Band(c)) + 1);
    NotifiesStayInBuffer(c, o1.dev, pargs);
    FilledAll(U16ecv(color), FillCount(c.chip));
    BufSizeWithinFill(c.chip);
    var size := FillCount(c.chip);
    var n := ClearWidth(c.chip) * Min(ClearHeight(c.chip), Band(c));
    BandFits(c, ClearHeight(c.chip));
    var boot := WindowEvents(c.ops, ClearWindow(c.chip)) + FirstBandEvents(c.ops, n, pbuf);
    BootstrapWithin(c.ops, ClearWindow(c.chip), n, pbuf, size);
    StartsWithinWider(o2.dev.trace[|o1.dev.trace|..], pbuf, ClearBufSize(c.chip), size);
    AppendAssoc(d.trace, WindowEvents(c.ops, ClearWindow(c.chip)), FirstBandEvents(c.ops, n, pbuf));
    WithinSplit(d.trace, boot, o1.dev.trace, o2.dev.trace, pbuf, size);
  }
}
