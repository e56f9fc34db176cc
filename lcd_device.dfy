/** The ST7789/ST7735 device as the drivers use it: a record whose fields the
    engine updates in place while it talks to the bus. Every method is proved
    to compute what the matching function of `LcdSpec` says. */
module LcdDevice {
  import opened Errors
  import opened Bus
  import opened DevOp
  import opened LcdSpec
  import opened Common

  class Lcd {
    const chip: Chip
    const ops: Ops
    const port: Port

    var state: AsyncState
    var txSize: nat
    var txBuf: nat
    var handler: Handler
    var params: nat
    // the driver's module-level clear configuration
    var linesLeft: u16
    var clearColor: int
    // the heap block of the asynchronous clear
    var args: ClearArgs
    var frees: nat

    function Config(): Conf
    {
      Conf(chip, ops, port.replies)
    }

    /** The record and the bus trace, as the functions of `LcdSpec` see them. */
    function Abs(): Dev
      reads this, port
    {
      Dev(state, txSize, txBuf, handler, params, linesLeft, clearColor, args, frees, port.trace)
    }

    /** The record as `init` leaves it once it has zeroed it and copied the
        operations and geometry in (the controller set-up that follows is not
        modelled). */
    constructor (chip: Chip, ops: Ops, port: Port)
      ensures this.chip == chip && this.ops == ops && this.port == port
      ensures Abs() == Dev(Idle, 0, 0, NoHandler, 0, 0, 0, ClearArgs(0, [], 0, false), 0, port.trace)
    {
      this.chip := chip;
      this.ops := ops;
      this.port := port;
      state := Idle;
      txSize := 0;
      txBuf := 0;
      handler := NoHandler;
      params := 0;
      linesLeft := 0;
      clearColor := 0;
      args := ClearArgs(0, [], 0, false);
      frees := 0;
    }

    /** The `exit:` tail of the bus helpers. */
    method ExitRelease(pending: int) returns (err: int)
      modifies port
      ensures Issued(port.trace, err) == ReleaseThen(Config(), old(port.trace), pending)
    {
      err := pending;
      if ops.hasRelease {
        var r := port.Call(Release);
        if r != ALL_OK {
          err := r;
        }
      }
    }

    method WriteCommand(cmd: int, cmdArgs: seq<int>) returns (err: int)
      requires 0 <= cmd < 0x100
      modifies port
      ensures Issued(port.trace, err) == WriteCommandSpec(Config(), old(port.trace), cmd, cmdArgs)
    {
      err := ALL_OK;
      if ops.hasAcquire {
        err := port.Call(Acquire);
        if err != ALL_OK {
          return;
        }
      }
      ghost var t0 := port.trace;
      match ops.mode {
        case ModeSpi =>
          var tail := if |cmdArgs| != 0 then [Dc(1), Write(cmdArgs), Cs(1)] else [Cs(1), Dc(1)];
          RunAppend(port.replies, t0, [Dc(0), Cs(0), Cmd([cmd])], tail);
          err := port.Issue([Dc(0), Cs(0), Cmd([cmd])]);
          if err == ALL_OK {
            if |cmdArgs| != 0 {
              err := port.Issue([Dc(1), Write(cmdArgs), Cs(1)]);
            } else {
              err := port.Issue([Cs(1), Dc(1)]);
            }
          }
        case Mode8080 =>
          var word := if ops.bigEndian then cmd else U16ecv(cmd);
          err := port.Issue([Cmd(HostBytes16(word, ops.bigEndian)), Write(cmdArgs)]);
        case _ =>
          err := E_INVALID_ARGUMENT;
      }
      err := ExitRelease(err);
    }

    /** The per-pixel loop: every pixel swapped and written on its own. */
    method WriteEachPixel(pixels: seq<u16>) returns (err: int)
      modifies port
      ensures Issued(port.trace, err) == Run(port.replies, old(port.trace), PixelWrites(pixels, ops.bigEndian))
    {
      ghost var evs := PixelWrites(pixels, ops.bigEndian);
      var i := 0;
      err := ALL_OK;
      while i < |pixels|
        invariant 0 <= i <= |pixels|
        invariant Run(port.replies, old(port.trace), evs) == Run(port.replies, port.trace, evs[i..])
      {
        assert evs[i..] == [evs[i]] + evs[i + 1..];
        RunAppend(port.replies, port.trace, [evs[i]], evs[i + 1..]);
        var data := U16ecv(pixels[i]);
        err := port.Call(Write(HostBytes16(data, ops.bigEndian)));
        if err != ALL_OK {
          return;
        }
        i := i + 1;
      }
      err := ALL_OK;
    }

    method WritePixelData(pixels: seq<u16>) returns (err: int)
      modifies port
      ensures Issued(port.trace, err) == WritePixelDataSpec(Config(), old(port.trace), pixels)
    {
      err := ALL_OK;
      if ops.hasAcquire {
        err := port.Call(Acquire);
        if err != ALL_OK {
          return;
        }
      }
      ghost var t0 := port.trace;
      ghost var each := PixelWrites(pixels, ops.bigEndian);
      if ops.mode.ModeSpi? {
        RunAppend(port.replies, t0, [Dc(1), Cs(0)], each + [Dc(1), Cs(1)]);
        assert [Dc(1), Cs(0)] + each + [Dc(1), Cs(1)] == [Dc(1), Cs(0)] + (each + [Dc(1), Cs(1)]);
        err := port.Issue([Dc(1), Cs(0)]);
        if err == ALL_OK {
          RunAppend(port.replies, port.trace, each, [Dc(1), Cs(1)]);
          err := WriteEachPixel(pixels);
          if err == ALL_OK {
            err := port.Issue([Dc(1), Cs(1)]);
          }
        }
        err := ExitRelease(err);
      } else if ops.mode.Mode8080? {
        var whole := if ops.bigEndian then [Write(HostPixels(pixels, true))] else [];
        RunAppend(port.replies, t0, whole, each);
        if ops.bigEndian {
          err := port.Issue(whole);
        }
        if err == ALL_OK {
          err := WriteEachPixel(pixels);
        }
        err := ExitRelease(err);
      } else {
        return E_INVALID_ARGUMENT;
      }
    }

    method SetWindow(r: Rect) returns (err: int)
      modifies port
      ensures Issued(port.trace, err) == SetWindowSpec(Config(), old(port.trace), r)
    {
      if !WindowInRange(chip, r) {
        return E_INVALID_ARGUMENT;
      }
      err := WriteCommand(CASET, WindowArgs(r.left, r.right - 1, ops.bigEndian));
      if err != ALL_OK {
        return;
      }
      err := WriteCommand(RASET, WindowArgs(r.top, r.bottom - 1, ops.bigEndian));
    }

    method AppendGram(pixels: seq<u16>) returns (err: int)
      modifies port
      ensures Issued(port.trace, err) == AppendGramSpec(Config(), old(port.trace), pixels)
    {
      err := WriteCommand(RAMWR, []);
      if err != ALL_OK {
        return;
      }
      err := WritePixelData(pixels);
    }

    method SetBuff(size: nat, buf: nat) returns (err: int)
      modifies this
      ensures Out(Abs(), err) == SetBuffSpec(old(Abs()), size, buf)
    {
      if buf == 0 {
        return E_INVALID_ARGUMENT;
      }
      match state {
        case Idle => state := BufferLoaded;
        case BufferLoaded => state := BufferLoaded;
        case BufferReloaded => state := BufferReloaded;
        case Transferring => state := BufferReloaded;
      }
      txSize := size;
      txBuf := buf;
      err := ALL_OK;
    }

    /** `error_exit:` of stream_start and notify. */
    method ErrorExit(pending: int) returns (err: int)
      modifies this, port
      ensures Out(Abs(), err) == ErrorExitSpec(Config(), old(Abs()), pending)
    {
      state := Idle;
      err := ExitRelease(pending);
    }

    /** RAMWR and the SPI frame of a first transfer; nothing on a reload. */
    method Prelude() returns (err: int)
      modifies port
      ensures Issued(port.trace, err) == StreamPrelude(Config(), old(Abs()))
    {
      if state == BufferReloaded {
        return ALL_OK;
      }
      err := WriteCommand(RAMWR, []);
      if err != ALL_OK {
        return;
      }
      if ops.mode.ModeSpi? {
        err := port.Issue([Dc(1), Cs(0)]);
      } else if ops.mode.Mode8080? {
        // nothing to frame on the 8080 bus
      } else {
        err := E_INVALID_ARGUMENT;
      }
    }

    method StreamStart(h: Handler, p: nat) returns (err: int)
      modifies this, port
      ensures Out(Abs(), err) == StreamStartSpec(Config(), old(Abs()), h, p)
    {
      if state == Transferring {
        return E_INVALID_OPERATION;
      }
      if state != BufferLoaded && state != BufferReloaded {
        return E_INVALID_OPERATION;
      }
      handler := h;
      params := p;
      err := ALL_OK;
      if ops.hasAcquire {
        err := port.Call(Acquire);
        if err != ALL_OK {
          return;
        }
      }
      err := Prelude();
      if err != ALL_OK {
        err := ErrorExit(err);
        return;
      }
      state := Transferring;
      if ops.mode.ModeSpi? || ops.mode.Mode8080? {
        err := port.Issue([AsyncStart(txSize, txBuf)]);
        if err != ALL_OK {
          err := ErrorExit(err);
          return;
        }
      } else {
        err := ErrorExit(E_INVALID_ARGUMENT);
        return;
      }
      err := ALL_OK;
    }

    method ClearSetBuf() returns (err: int)
      requires ClearWidth(chip) > 0
      modifies this
      ensures Out(Abs(), err) == ClearSetBufSpec(Config(), old(Abs()))
    {
      var width := ClearWidth(chip);
      var k := Min(linesLeft, args.bufSize / width);
      err := SetBuff(width * k, args.buf);
      if err != ALL_OK {
        return;
      }
      linesLeft := linesLeft - k;
    }

    method ClearGramHandler(p: nat) returns (err: int)
      requires ClearWidth(chip) > 0
      modifies this, port
      ensures Out(Abs(), err) == ClearHandlerSpec(Config(), old(Abs()), p)
    {
      if linesLeft > 0 {
        err := ClearSetBuf();
        if err != ALL_OK {
          return;
        }
        err := StreamStart(ClearHandler, p);
      } else {
        args := args.(live := false);
        frees := frees + 1;
        err := ALL_OK;
      }
    }

    method CallHandler(h: Handler, p: nat) returns (err: int)
      requires h.ClearHandler? ==> ClearWidth(chip) > 0
      modifies this, port
      ensures Out(Abs(), err) == HandlerSpec(Config(), old(Abs()), h, p)
    {
      match h {
        case NoHandler => err := ALL_OK;
        case ClearHandler => err := ClearGramHandler(p);
      }
    }

    method Notify() returns (err: int)
      requires handler.ClearHandler? ==> ClearWidth(chip) > 0
      modifies this, port
      ensures Out(Abs(), err) == NotifySpec(Config(), old(Abs()))
    {
      if state != Transferring {
        return E_INVALID_OPERATION;
      }
      txSize := 0;
      err := CallHandler(handler, params);
      if err != ALL_OK {
        err := ErrorExit(err);
        return;
      }
      if txSize != 0 {
        return ALL_OK;
      }
      if ops.mode.ModeSpi? {
        err := port.Issue([Dc(1), Cs(1)]);
        if err != ALL_OK {
          err := ErrorExit(err);
          return;
        }
      } else if ops.mode.Mode8080? {
        // the 8080 bus needs no ending sequence
      } else {
        err := ErrorExit(E_INVALID_ARGUMENT);
        return;
      }
      state := Idle;
      err := ALL_OK;
    }

    method ClearAsync(color: u16, pbuf: nat, pargs: nat) returns (err: int)
      requires ClearWidth(chip) > 0
      modifies this, port
      ensures Out(Abs(), err) == ClearAsyncSpec(Config(), old(Abs()), color, pbuf, pargs)
    {
      if pbuf == 0 || pargs == 0 {
        return E_MEMORY_ALLOC_FAILED;
      }
      // the fill loop over the newly allocated buffer
      var pixels: seq<int> := [];
      for i := 0 to FillCount(chip)
        invariant pixels == Filled(U16ecv(color), i)
      {
        pixels := pixels + [U16ecv(color)];
      }
      args := ClearArgs(pbuf, pixels, ClearBufSize(chip), true);
      err := SetWindow(ClearWindow(chip));
      if err != ALL_OK {
        return;
      }
      clearColor := color;
      linesLeft := ClearHeight(chip);
      var _ := ClearGramHandler(pargs);
      err := ALL_OK;
    }
  }
}
