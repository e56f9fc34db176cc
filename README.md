# libe15 driver core in Dafny

This project models the core of libe15, an embedded C library of display,
ADC and debug drivers, together with the Python font builder that ships with
it. It proves properties of the model.

- **ST7789 / ST7735 LCD drivers** (`lcd_spec.dfy`, `lcd_device.dfy`, `lcd_props.dfy`).
  - Command and pixel writes over SPI and the 8080 bus, with byte order and the bus acquire/release hooks.
  - The window command.
  - The asynchronous GRAM engine: its four states, `set_buff`, `stream_start`, `async_completed_notify`.
  - The staged asynchronous clear and its completion handler.
  - The two drivers carry the same engine; `Chip` holds the panel geometry in which they differ.
  - Rows below cite `st7789.c`. The ST7735 functions are the same code at:
    - 105-128 (init checks), 332-364 (set_window), 366-377 (append);
    - 425-443 (clear_set_buf), 445-492 (clear_async);
    - 494-521 (set_buff), 523-605 (stream_start), 607-660 (notify);
    - 731-776 (write_command), 778-821 (write_pixel_data), 829-851 (clear handler).
- **SSD1306 / SSD1315 OLED drivers** (`gram.dfy`, `ssd1306.dfy`, `ssd1315.dfy`).
  - The paged 1024-byte GRAM, cursor commands, and appends split into per-line pieces.
  - Positioned writes and clearing.
- **devop.h** (`devop.dfy`): the error-propagation macros, the byte-swap macros and `MEMCOPY_FUNCMAP`.
- **CS123x ADC** (`cs123x.dfy`, `cs123x_device.dfy`).
  - The bit-banged two-wire protocol: configuration byte, 24-bit sign-extended readings, power modes.
  - The wrap-around timeout test.
- **random.c** (`random.dfy`): the linear congruential generator.
- **print.c** (`print.dfy`): the debug console.
  - The level tag, the file basename and the function-name prefix.
  - Format-specifier scanning.
  - Inserting CR before LF, and the rendered message with each conversion replaced by its text.
- **fontbuild.py** (`fontbuild.dfy`, `glyph.dfy`).
  - Character extraction and normalisation, and code-point hex strings.
  - The LUT list text and the LUT bounds.
  - Identifier sanitising and the wrapped command line.
  - The SSD1306 glyph packer.

Bus traffic is a trace of `Bus.Event`s, recorded by `Bus.Port`. Each callback
gets its result from a script of replies (`ALL_OK` past the end), so an
arbitrary script models every pattern of hardware failure.

Every driver is split in two:
- a class whose methods change its fields and the port in place;
- pure specification functions.

Each method's `ensures` ties the new state and the returned error to the
specification function of the old state. The lemmas then state what the
source promises about those functions.

The asynchronous clear is proved as a chain:
- `LcdProps.ClearAsyncBootstrap`: the call stages the first band.
- `LcdProps.BootstrapCounts` and `LcdProps.FirstStage`: it issues one RAMWR and one transfer.
- `LcdProps.NotifiesFinishClear`: the `Stages` notifications that follow finish the clear.
- `LcdProps.ClearRunsOut`: together these give the expected number of transfers.
- `LcdProps.ClearSendsFill`: every transfer of the clear reads the colour-filled buffer, within its size.

## Model

| member | source | states |
|---|---|---|
| Bus.RunShape | src/hardware/devop.h:85-97 | a call sequence succeeds iff every reply is ALL_OK; otherwise it stops at the first failure and returns that reply; the trace only grows |
| Bus.RunAppend | src/hardware/devop.h:85-97 | running a+b is running a, then b only if a succeeded |
| Bus.RunFaultless | src/hardware/devop.h:85-97 | with no failing reply every event is issued and the result is ALL_OK |
| Bus.Port.Call | src/hardware/lcd/st7789.h:237-250 | one callback: the trace gains the event and the result is the scripted reply |
| Bus.Port.Sample | src/hardware/adc/chipsea/cs123x.c:398-414 | an SDIO read records the sample and returns the scripted result and level |
| Bus.Port.Issue | src/hardware/devop.h:85-97 | issuing a sequence in a loop equals `Run` |
| DevOp.U16ecv | src/hardware/devop.h:216-221 | the swapped value is a 16-bit value |
| DevOp.U16ecvBytes | src/hardware/devop.h:216-221 | the high and low bytes trade places |
| DevOp.U16ecvInvolution | src/hardware/devop.h:216-221 | swapping twice gives the value back modulo 2^16 |
| DevOp.U32ecvBytes | src/hardware/devop.h:229-236 | byte n of the result is byte 3-n of the input |
| DevOp.U32ecvInvolution | src/hardware/devop.h:229-236 | swapping twice gives the value back modulo 2^32 |
| DevOp.ParamCheck | src/hardware/devop.h:172-182 | returns E_INVALID_ARGUMENT exactly when the condition fails, otherwise continues |
| DevOp.ParamCheckCode | src/hardware/devop.h:185-195 | returns the given code exactly when the condition fails |
| DevOp.ParamNotNull | src/hardware/devop.h:198-208 | returns E_INVALID_ARGUMENT exactly for a null pointer |
| DevOp.CallWithErrorReturn | src/hardware/devop.h:85-97 | returns the callee's result exactly when it failed, and never jumps |
| DevOp.CallNullableWithError | src/hardware/devop.h:127-143 | a null callee is skipped; a called one returns its result iff it is not ALL_OK |
| DevOp.CallWithCodeGoto | src/hardware/devop.h:107-118 | stores the result and jumps to the label iff it failed |
| DevOp.CallNullableWithErrorExit | src/hardware/devop.h:152-168 | a null callee leaves the code alone; a called one stores its result and jumps iff the tested variable failed |
| DevOp.ExitMacroWithErrIsGoto | src/hardware/devop.h:152-168 | when the macro tests hr itself it behaves as CALL_WITH_CODE_GOTO |
| DevOp.ExitMacroWithOtherVariableMissesFailure | src/hardware/devop.h:152-168 | when it tests another variable that is ALL_OK, a failed call falls through |
| DevOp.FuncMapNextLeft | src/hardware/devop.h:248-290 | the uint32 counter stays a uint32 after `-= 8` |
| DevOp.FuncMapNeverStops | src/hardware/devop.h:248-290 | a count that is not a multiple of 8 never reaches 0: the residue mod 8 is kept and the loop runs on |
| DevOp.FuncMapStepKeepsResidue | src/hardware/devop.h:248-290 | one pass keeps the count's residue mod 8 |
| DevOp.FuncMapStopsOnMultiples | src/hardware/devop.h:248-290 | for a multiple of 8, k passes leave n-8k and have mapped 8k elements |
| DevOp.MemcopyFuncMap | src/hardware/devop.h:248-290 | for a multiple of 8, the first n elements of src become func of dst's and the rest of src is unchanged |
| DevOp.MapCopy | src/hardware/devop.h:248-290 | the intended map for any n: src[i] = func(dst[i]) for i < n, nothing else changes |
| LcdSpec.HostBytes16 | src/hardware/lcd/st7789.c:678-723 | a 16-bit value in host memory order is two bytes |
| LcdSpec.PixelWrites | src/hardware/lcd/st7789.c:725-768 | one bus write per pixel |
| LcdSpec.HostPixels | src/hardware/lcd/st7789.c:725-768 | the pixel buffer as bytes is twice as long as the pixel count |
| LcdSpec.InitPreamble | src/hardware/lcd/st7789.c:105-126 | E_INVALID_ARGUMENT exactly for an unknown bus mode or a missing SPI/8080 hook, otherwise ALL_OK |
| LcdSpec.SetBuffSpec | src/hardware/lcd/st7789.c:448-474 | null buffer: E_INVALID_ARGUMENT and no change; otherwise the buffer and size are stored and IDLE/LOADED go to LOADED, RELOADED/TRANSFERRING to RELOADED |
| LcdSpec.ClearSetBufSpec | src/hardware/lcd/st7789.c:379-396 | null buffer is refused; otherwise the next band of at most the buffer's whole lines is staged and the lines left shrink by it |
| LcdSpec.WholeLinesFit | src/hardware/lcd/st7789.c:379-396 | whole lines counted by size / width fit in the buffer |
| LcdDevice.Lcd.constructor | src/hardware/lcd/st7789.h:237-250 | a new device is IDLE with no buffer, no handler and the port's trace |
| LcdDevice.Lcd.ExitRelease | src/hardware/lcd/st7789.c:678-723 | the release path returns the pending error after calling the release hook |
| LcdDevice.Lcd.WriteCommand | src/hardware/lcd/st7789.c:678-723 | the issued traffic and result equal `WriteCommandSpec` |
| LcdDevice.Lcd.WriteEachPixel | src/hardware/lcd/st7789.c:725-768 | the per-pixel loop issues `PixelWrites` |
| LcdDevice.Lcd.WritePixelData | src/hardware/lcd/st7789.c:725-768 | traffic and result equal `WritePixelDataSpec` |
| LcdDevice.Lcd.SetWindow | src/hardware/lcd/st7789.c:283-315 | traffic and result equal `SetWindowSpec` |
| LcdProps.PixelDataFaultless | src/hardware/lcd/st7789.c:725-768 | with no failing call: acquire, the pixel frame of the bus mode, release |
| LcdProps.AppendGramFaultless | src/hardware/lcd/st7789.c:317-327 | with no failing call: the RAMWR command frame, then the pixel frame, each between acquire and release |
| LcdProps.RunWithin | src/hardware/devop.h:85-97 | a run issues only events of its list, after the old trace |
| LcdProps.WriteCommandWithin | src/hardware/lcd/st7789.c:678-723 | whatever the calls return, write_command issues only its acquire, its command frame and its release |
| LcdProps.AppendGramCommandFails | src/hardware/lcd/st7789.c:317-327 | a failed RAMWR is returned and no pixel byte and no transfer reaches the bus |
| LcdDevice.Lcd.AppendGram | src/hardware/lcd/st7789.c:317-327 | traffic and result equal `AppendGramSpec` |
| LcdDevice.Lcd.SetBuff | src/hardware/lcd/st7789.c:448-474 | new record and result equal `SetBuffSpec` |
| LcdDevice.Lcd.ErrorExit | src/hardware/lcd/st7789.c:476-555 | the error exit of stream_start: release, back to IDLE, return the error |
| LcdDevice.Lcd.Prelude | src/hardware/lcd/st7789.c:476-555 | acquire, then the RAMWR command unless the buffer was reloaded |
| LcdDevice.Lcd.StreamStart | src/hardware/lcd/st7789.c:476-555 | new record, traffic and result equal `StreamStartSpec` |
| LcdDevice.Lcd.ClearSetBuf | src/hardware/lcd/st7789.c:379-396 | equals `ClearSetBufSpec` |
| LcdDevice.Lcd.ClearGramHandler | src/hardware/lcd/st7789.c:776-798 | equals `ClearHandlerSpec` |
| LcdDevice.Lcd.CallHandler | src/hardware/lcd/st7789.c:557-610 | the registered handler is dispatched as `HandlerSpec` |
| LcdDevice.Lcd.Notify | src/hardware/lcd/st7789.c:557-610 | new record, traffic and result equal `NotifySpec` |
| LcdDevice.Lcd.ClearAsync | src/hardware/lcd/st7789.c:398-446 | new record, with the buffer filled by the loop, traffic and result equal `ClearAsyncSpec` |
| LcdProps.CommandWord8080 | src/hardware/lcd/st7789.c:678-723 | on the 8080 bus a command goes out as the 16-bit word [0, cmd] |
| LcdProps.WindowArgsByteOrder | src/hardware/lcd/st7789.c:283-315 | each bound is byte-swapped and stored in host order: high byte first on a little-endian host, low byte first on a big-endian one |
| LcdProps.PixelByteOrder | src/hardware/lcd/st7789.c:725-768 | pixel i goes out as one write of its two bytes in the order the host flag selects |
| LcdProps.CallOptFaultless | src/hardware/devop.h:127-143 | an optional hook emits its event only when present, and succeeds |
| LcdProps.ReleaseThenFaultless | src/hardware/lcd/st7789.c:678-723 | the release path issues the release hook and keeps the pending error |
| LcdProps.WriteCommandFaultless | src/hardware/lcd/st7789.c:678-723 | without failures the command frame is issued; an undrivable bus mode gives E_INVALID_ARGUMENT |
| LcdProps.WriteCommandAlwaysReleases | src/hardware/lcd/st7789.c:678-723 | once acquired, every outcome of write_command ends with the release hook |
| LcdProps.WritePixelDataSpiFaultless | src/hardware/lcd/st7789.c:725-768 | SPI: DC high, CS low, one write per pixel, then DC high, CS high, release |
| LcdProps.WritePixelData8080Faultless | src/hardware/lcd/st7789.c:725-768 | 8080: a big-endian host sends the whole buffer, and then the per-pixel writes as well |
| LcdProps.WritePixelDataKeepsBusOnBadMode | src/hardware/lcd/st7789.c:725-768 | an unknown bus mode returns E_INVALID_ARGUMENT after acquiring, with no release |
| LcdProps.BigEndian8080SendsPixelsTwice | src/hardware/lcd/st7789.c:751-758 | a big-endian 8080 host sends 4 bytes per pixel |
| LcdProps.BigEndian8080Bytes | src/hardware/lcd/st7789.c:751-758 | byte count of that traffic: 4 per pixel |
| LcdProps.DataBytesOfPixelWrites | src/hardware/lcd/st7789.c:725-768 | the per-pixel writes carry 2 bytes per pixel |
| LcdProps.SetWindowFaultless | src/hardware/lcd/st7789.c:283-315 | a window outside the panel is refused with no traffic; otherwise CASET and RASET are issued |
| LcdProps.ReservedModeSlipsThroughInit | src/hardware/lcd/st7789.c:105-126 | the unnamed bus mode 3 passes init, and later commands send nothing and fail |
| LcdProps.StreamStartRefuses | src/hardware/lcd/st7789.c:476-555 | IDLE or TRANSFERRING: E_INVALID_OPERATION, nothing changes |
| LcdProps.StreamStartAcquireFails | src/hardware/lcd/st7789.c:476-555 | a failed acquire returns its error with the handler stored and only the acquire in the trace |
| LcdProps.StreamStartFirst | src/hardware/lcd/st7789.c:476-555 | from LOADED: acquire, RAMWR, frame, async start, state TRANSFERRING |
| LcdProps.StreamStartReload | src/hardware/lcd/st7789.c:476-555 | from RELOADED: acquire and async start only, state TRANSFERRING |
| LcdProps.StreamStartReloadSendsNoCommand | src/hardware/lcd/st7789.c:476-555 | a reloaded stream issues no command byte |
| LcdProps.StreamStartFailureReleases | src/hardware/lcd/st7789.c:476-555 | any failure after acquiring ends IDLE with the release hook last |
| LcdProps.ErrorExitReleases | src/hardware/lcd/st7789.c:476-555 | the error exit always ends IDLE with the release hook last |
| LcdProps.NotifyRefuses | src/hardware/lcd/st7789.c:557-610 | outside TRANSFERRING, notify is E_INVALID_OPERATION and changes nothing |
| LcdProps.NotifyWithoutHandler | src/hardware/lcd/st7789.c:557-610 | with no handler the SPI frame is closed and the device is IDLE, with no release hook called |
| LcdProps.NotifyFailureReleases | src/hardware/lcd/st7789.c:557-610 | a failing notify ends IDLE with the release hook last |
| LcdProps.StagesIsCeiling | src/hardware/lcd/st7789.c:776-798 | the number of bands is ceil(lines / band) |
| LcdProps.St7789BandIsFive | src/hardware/lcd/st7789.c:398-446 | the clear buffer holds exactly CACHE_LINE_COUNT = 5 lines |
| LcdProps.NotifyStagesNextBand | src/hardware/lcd/st7789.c:776-798 | while lines are left, notify restages the next band and starts its transfer |
| LcdProps.NotifyFinishesClear | src/hardware/lcd/st7789.c:776-798 | with no lines left, notify closes the frame, frees the buffer and goes IDLE |
| LcdProps.NotifiesFinishClear | src/hardware/lcd/st7789.c:776-798 | Stages+1 notifications finish the clear: IDLE, no lines left, freed once |
| LcdProps.NotifiesBeforeEnd | src/hardware/lcd/st7789.c:776-798 | up to Stages notifications keep the clear going with nothing freed |
| LcdProps.FirstBand | src/hardware/lcd/st7789.c:776-798 | the first handler call stages min(lines, band) lines and starts RAMWR |
| LcdProps.HandlerStagesBand | src/hardware/lcd/st7789.c:379-396 | staging moves LOADED/IDLE to LOADED and others to RELOADED with the band's size |
| LcdProps.ClearAsyncWindow | src/hardware/lcd/st7789.c:398-446 | the async clear sets the full window and then runs the handler |
| LcdProps.ClearAsyncBootstrap | src/hardware/lcd/st7789.c:398-446 | the call fills the buffer with the byte-swapped colour, sets the window, stages the first band and starts its transfer |
| LcdProps.CommandEventsCount | src/hardware/lcd/st7789.c:678-723 | a command frame contains its command byte once and no other |
| LcdProps.CommandEventsStartNothing | src/hardware/lcd/st7789.c:678-723 | a command frame starts no transfer |
| LcdProps.ClearRunsOut | src/hardware/lcd/st7789.c:398-446 | after the bootstrap, Stages+1 notifications end IDLE with no further RAMWR and one transfer per band, and the block is freed once, by the last |
| LcdProps.ClearSendsFill | src/hardware/lcd/st7789.c:408-446 | the buffer holds `5 * width` pixels, each the byte-swapped colour, and every transfer the clear starts, from the call to the last notification, reads from that buffer and no more than its pixels |
| LcdProps.NotifiesStayInBuffer | src/hardware/lcd/st7789.c:776-798 | the notifications that finish a clear keep its buffer and contents and start transfers only from that buffer, each within `buf_size` |
| LcdProps.BandFits | src/hardware/lcd/st7789.c:379-396 | a band of at most the buffer's whole lines fits in `buf_size` |
| LcdProps.BufSizeWithinFill | src/hardware/lcd/st7789.c:408-426 | the recorded `buf_size` is no more than the pixels the fill loop writes |
| LcdProps.FilledAll | src/hardware/lcd/st7789.c:425-426 | every pixel the fill loop writes equals the byte-swapped colour |
| LcdProps.WindowEvents | src/hardware/lcd/st7789.c:283-315 | the window commands start no asynchronous write |
| LcdProps.FirstStage | src/hardware/lcd/st7789.c:398-446 | the first band plus the rest is ceil(height / band) bands |
| LcdProps.BootstrapCounts | src/hardware/lcd/st7789.c:398-446 | the bootstrap issues exactly one RAMWR and one transfer |
| Gram.Uint32 | src/hardware/oled/ssd1306.c:227-280 | a uint32 sum wraps, and keeps its value below 2^32 |
| Gram.OffsetCommandRoundTrip | src/hardware/oled/ssd1306.c:195-225 | the page/column command decodes to exactly its column and page, and only it does |
| Gram.ChunkSizes | src/hardware/oled/ssd1306.c:242-277 | the pieces add up to the write |
| Gram.ChunkSizesCover | src/hardware/oled/ssd1306.c:242-277 | every piece but the last fills the space; the last is no larger and is non-empty for a non-empty write |
| Gram.AppendPayloadFlattens | src/hardware/oled/ssd1306.c:242-277 | the pieces put back together are the data |
| Gram.PiecesFromColumnTen | src/hardware/oled/ssd1306.c:242-277 | from column 10, 300 bytes leave a gap, and 1014 bytes, which fit the GRAM, are planned as nine pieces, one more than there are pages |
| Gram.PiecesFit | src/hardware/oled/ssd1306.c:242-277 | the intended pieces cover the write, are contiguous and fit the pages |
| Gram.CursorAfterPieces | src/hardware/oled/ssd1306.c:273-277 | with the intended pieces the write ends exactly at start + n |
| Gram.LastPieceEnd | src/hardware/oled/ssd1306.c:242-277 | whole lines then the rest end at n |
| Gram.WholeLinesFromColumnZero | src/hardware/oled/ssd1306.c:242-277 | from column 0 every piece but the last is a whole line |
| Gram.ChunkCount | src/hardware/oled/ssd1306.c:242-277 | a write from column 0 takes ceil(n / 128) lines |
| Ssd1306.SetOffsetMovesOnlyOnSuccess | src/hardware/oled/ssd1306.c:195-225 | out of range: E_MEMORY_OUT_OF_BOUND and no move; on success the cursor is (col, row) and the command was sent |
| Ssd1306.SetOffsetByAddrRoundTrip | src/hardware/oled/ssd1306.c:184-193 | a linear address below 1024 becomes exactly that cursor; beyond it is refused |
| Ssd1306.AppendRejectsOverflow | src/hardware/oled/ssd1306.c:233-240 | refused with E_MEMORY_OUT_OF_BOUND and no traffic iff it runs past the GRAM |
| Ssd1306.AppendLoopKeepsError | src/hardware/oled/ssd1306.c:242-277 | the loop always adds traffic and only appends to the trace |
| Ssd1306.AppendLoopFaultless | src/hardware/oled/ssd1306.c:242-277 | without failures the loop sends every piece followed by a reposition, and ends on the last row |
| Ssd1306.AppendWithinLine | src/hardware/oled/ssd1306.c:227-280 | a write that fits the line is one data frame and the cursor moves by its length |
| Ssd1306.AppendAcrossLines | src/hardware/oled/ssd1306.c:227-280 | a longer write sends the as-written pieces with repositions, and the cursor ends at the last row plus the length |
| Ssd1306.AppendLoopRunsOutOfPages | src/hardware/oled/ssd1306.c:242-277 | needing a page past the last makes the reposition fail with E_MEMORY_OUT_OF_BOUND |
| Ssd1306.PiecesAsWrittenMisplace | src/hardware/oled/ssd1306.c:242-277 | from column 10 a 1014-byte write that fits the GRAM fails with E_MEMORY_OUT_OF_BOUND when no call fails: eight 118-byte pieces are sent, then the reposition to page 8 is refused |
| Ssd1306.CursorAsWrittenOvershoots | src/hardware/oled/ssd1306.c:273-277 | 129 bytes from 0 leave the cursor at 257, not 129 |
| Ssd1306.WriteGramAppendsAt | src/hardware/oled/ssd1306.c:282-303 | beyond the GRAM: refused; otherwise it moves the cursor to the address and appends |
| Ssd1306.ClearPagesFaultless | src/hardware/oled/ssd1306.c:305-329 | each page gets its command and 128 fill bytes, ending on the last page |
| Ssd1306.ClearGramFaultless | src/hardware/oled/ssd1306.c:305-329 | the clear fills all eight pages, then returns the cursor to (0, 7) at offset 896 |
| Ssd1306.PageFillCoversLine | src/hardware/oled/ssd1306.c:305-329 | eight 16-byte fills cover a 128-byte line |
| Ssd1306.Device.constructor | src/hardware/oled/ssd1306.c:80-156 | a new device has its cursor at 0 |
| Ssd1306.Device.WriteCommandSequence | src/hardware/oled/ssd1306.c:335-361 | issues the command frame |
| Ssd1306.Device.WriteData | src/hardware/oled/ssd1306.c:363-388 | issues the data frame |
| Ssd1306.Device.SetOffset | src/hardware/oled/ssd1306.c:195-225 | new cursor, traffic and result equal `SetOffsetSpec` |
| Ssd1306.Device.SetOffsetByAddr | src/hardware/oled/ssd1306.c:184-193 | equals `SetOffsetByAddrSpec` |
| Ssd1306.Device.AppendGram | src/hardware/oled/ssd1306.c:227-280 | equals `AppendSpec` |
| Ssd1306.Device.WriteLines | src/hardware/oled/ssd1306.c:242-277 | the do-while loop equals `AppendLoop` |
| Ssd1306.Device.WriteGram | src/hardware/oled/ssd1306.c:282-303 | equals `WriteGramSpec` |
| Ssd1306.Device.ClearGram | src/hardware/oled/ssd1306.c:305-329 | equals `ClearGramSpec` |
| Ssd1315.ByteFramesSend | src/hardware/oled/ssd1315.c:16-42 | the per-byte frames carry exactly the command bytes |
| Ssd1315.CommandSequenceCarries | src/hardware/oled/ssd1315.c:16-42 | a command sequence carries its bytes on the command channel and no data |
| Ssd1315.CommandSequenceNoWrite | src/hardware/oled/ssd1315.c:16-42 | a command sequence makes no data write and has 3 events per byte plus framing |
| Ssd1315.DataToBusCarries | src/hardware/oled/ssd1315.c:199-212 | a data write carries exactly the data as one write |
| Ssd1315.SetOffsetMovesFirst | src/hardware/oled/ssd1315.c:153-180 | out of range is refused before any traffic; otherwise the cursor moves before the command is sent |
| Ssd1315.SetOffsetFaultless | src/hardware/oled/ssd1315.c:153-180 | without failures the reposition is issued and the cursor is (0, row) |
| Ssd1315.SetMemOffsetRoundTrip | src/hardware/oled/ssd1315.c:182-197 | a linear offset below 1024 becomes a cursor with that address |
| Ssd1315.Uint8 | src/hardware/oled/ssd1315.h:157-160 | a uint8 counter stays below 256 |
| Ssd1315.CursorAt | src/hardware/oled/ssd1315.c:270-276 | the cursor for a linear address has that address |
| Ssd1315.LineSpace | src/hardware/oled/ssd1315.c:239-244 | the space left on a line is positive and reaches the line end |
| Ssd1315.AppendRejectsBeforeBus | src/hardware/oled/ssd1315.c:224-229 | refused with E_MEMORY_NOT_ENOUTH and no traffic iff it runs past the GRAM |
| Ssd1315.AppendBusExtends | src/hardware/oled/ssd1315.c:214-277 | an append past the check always adds traffic |
| Ssd1315.AppendLoopExtends | src/hardware/oled/ssd1315.c:237-262 | the loop only appends to the trace |
| Ssd1315.AppendLeavesCursorAtEnd | src/hardware/oled/ssd1315.c:270-276 | a successful append leaves the cursor just past the data |
| Ssd1315.AppendLoopFaultless | src/hardware/oled/ssd1315.c:237-262 | without failures the loop sends the pieces with a reposition between them |
| Ssd1315.LoopTraceSendsData | src/hardware/oled/ssd1315.c:237-262 | the loop's traffic carries exactly the data |
| Ssd1315.LoopTracePieces | src/hardware/oled/ssd1315.c:237-262 | the loop's writes have the as-written piece sizes |
| Ssd1315.AppendFaultless | src/hardware/oled/ssd1315.c:214-277 | a write that fits: acquire, frame, the pieces, release, cursor past the data |
| Ssd1315.AppendPastLastPage | src/hardware/oled/ssd1315.c:237-262 | from column 10, 300 bytes land with a gap and 1014 bytes are sent as nine pieces |
| Ssd1315.WriteGramAtAddress | src/hardware/oled/ssd1315.c:279-300 | beyond the GRAM: refused; otherwise moves to the address and appends |
| Ssd1315.ClearPageMoves | src/hardware/oled/ssd1315.c:302-314 | clearing page i leaves the cursor at (0, i) |
| Ssd1315.ClearPagesEnd | src/hardware/oled/ssd1315.c:302-314 | a successful clear ends at (0, 7) |
| Ssd1315.ClearPagesFaultless | src/hardware/oled/ssd1315.c:302-314 | without failures each page is repositioned and zeroed |
| Ssd1315.PageZerosCoverLine | src/hardware/oled/ssd1315.c:302-314 | the zero writes cover a line with zeros |
| Ssd1315.Device.constructor | src/hardware/oled/ssd1315.c:44-125 | a new device has its cursor at (0, 0) |
| Ssd1315.Device.WriteCommandSequence | src/hardware/oled/ssd1315.c:16-42 | issues `CommandSequence` |
| Ssd1315.Device.WriteDataToBus | src/hardware/oled/ssd1315.c:199-212 | issues `DataToBus` |
| Ssd1315.Device.SetOffset | src/hardware/oled/ssd1315.c:153-180 | equals `SetOffsetSpec` |
| Ssd1315.Device.SetMemOffset | src/hardware/oled/ssd1315.c:182-197 | equals `SetMemOffsetSpec` |
| Ssd1315.Device.AppendGram | src/hardware/oled/ssd1315.c:214-277 | equals `AppendSpec` |
| Ssd1315.Device.WriteLines | src/hardware/oled/ssd1315.c:237-262 | the while loop equals `AppendLoop` |
| Ssd1315.Device.LinePass | src/hardware/oled/ssd1315.c:237-262 | one loop pass advances `AppendLoop` by one piece |
| Ssd1315.Device.WriteGram | src/hardware/oled/ssd1315.c:279-300 | equals `WriteGramSpec` |
| Ssd1315.Device.ClearGram | src/hardware/oled/ssd1315.c:302-314 | equals `ClearGramSpec` |
| Ssd1315.Device.ClearPass | src/hardware/oled/ssd1315.c:302-314 | one page of the clear equals `ClearPage` |
| Ssd1315.Device.WritePage | src/hardware/oled/ssd1315.c:302-314 | issues one page of zero writes |
| Cs123x.CfgByte | src/hardware/adc/chipsea/cs123x.c:350-364 | bit 7 is clear and the byte decodes back to the configuration |
| Cs123x.CfgByteValue | src/hardware/adc/chipsea/cs123x.c:350-364 | the byte is refOut·64 + speed·16 + gain·4 + channel |
| Cs123x.MsbFirst | src/hardware/adc/chipsea/cs123x.c:366-386 | n bits are sent |
| Cs123x.Weigh | src/hardware/adc/chipsea/cs123x.c:431-448 | bits weighed MSB first give a value below 2^w |
| Cs123x.MsbFirstRoundTrip | src/hardware/adc/chipsea/cs123x.c:366-386 | weighing the n sent bits gives the value mod 2^n |
| Cs123x.WireRoundTrip | src/hardware/adc/chipsea/cs123x.c:366-386 | bytes go out as 8 bits and commands as 7, and read back |
| Cs123x.SignExtendReading | src/hardware/adc/chipsea/cs123x.c:431-448 | the 24-bit reading is two's-complement sign-extended |
| Cs123x.Elapsed | src/hardware/adc/chipsea/cs123x.c:450-461 | elapsed time is a uint32 |
| Cs123x.IsTimeoutAsWritten | src/hardware/adc/chipsea/cs123x.c:450-461 | the code compares elapsed time one tick short after a wrap |
| Cs123x.IsTimeoutLateAtWrap | src/hardware/adc/chipsea/cs123x.c:450-461 | start 0xFFFFFFFF, now 0, timeout 1: one tick elapsed, not reported |
| Cs123x.TimedOutMeansElapsed | src/hardware/adc/chipsea/cs123x.c:450-461 | the corrected test holds iff the wrapped elapsed time reaches the timeout |
| Cs123x.SetModeSpec | src/hardware/adc/chipsea/cs123x.c:269-278 | switching SDIO mode keeps the configuration |
| Cs123x.BitWriteSpec | src/hardware/adc/chipsea/cs123x.c:416-429 | a bit write keeps the configuration |
| Cs123x.BitReadSpec | src/hardware/adc/chipsea/cs123x.c:398-414 | a bit read keeps the configuration and yields 0 or 1 |
| Cs123x.WriteBitsSpec | src/hardware/adc/chipsea/cs123x.c:366-386 | writing bits keeps the configuration |
| Cs123x.SkipBitsSpec | src/hardware/adc/chipsea/cs123x.c:388-396 | skipping keeps the configuration |
| Cs123x.ReadBitsSpec | src/hardware/adc/chipsea/cs123x.c:431-448 | reads at most n bits, exactly n on success |
| Cs123x.IsDataReadySpec | src/hardware/adc/chipsea/cs123x.c:178-195 | the readiness test keeps the configuration |
| Cs123x.PushConfigSpec | src/hardware/adc/chipsea/cs123x.c:287-348 | pushing the configuration sets `pushed` exactly on success |
| Cs123x.SetModeRecordsOnSuccess | src/hardware/adc/chipsea/cs123x.c:269-278 | the same mode is a no-op; a change reconfigures the pin and records the mode only on success |
| Cs123x.WriteFramesClocks | src/hardware/adc/chipsea/cs123x.c:416-429 | one clock per written bit |
| Cs123x.PulsesClocks | src/hardware/adc/chipsea/cs123x.c:388-396 | one clock per skipped bit |
| Cs123x.SampleFramesClocks | src/hardware/adc/chipsea/cs123x.c:398-414 | one clock per read bit |
| Cs123x.SetModeFaultless | src/hardware/adc/chipsea/cs123x.c:269-278 | without failures the mode changes and no clock is issued |
| Cs123x.BitWriteFaultless | src/hardware/adc/chipsea/cs123x.c:416-429 | output mode, SCLK high, data, SCLK low |
| Cs123x.BitReadFaultless | src/hardware/adc/chipsea/cs123x.c:398-414 | input mode, SCLK high, SCLK low, then sample the level |
| Cs123x.WriteBitsFaultless | src/hardware/adc/chipsea/cs123x.c:366-386 | one mode switch and one clock per bit |
| Cs123x.SkipBitsFaultless | src/hardware/adc/chipsea/cs123x.c:388-396 | n clock pulses in input mode |
| Cs123x.Reading | src/hardware/adc/chipsea/cs123x.c:431-448 | a reading lies in [-2^23, 2^23) |
| Cs123x.ReadBitsFaultless | src/hardware/adc/chipsea/cs123x.c:431-448 | n sampled bits and n clocks |
| Cs123x.ReadDataFaultless | src/hardware/adc/chipsea/cs123x.c:431-448 | 24 samples become the stored reading |
| Cs123x.ReadDataRange | src/hardware/adc/chipsea/cs123x.c:431-448 | a successful read stores a 24-bit signed value and keeps the configuration |
| Cs123x.ReadyWhenLow | src/hardware/adc/chipsea/cs123x.c:178-195 | data is ready iff the read succeeded and SDIO is low |
| Cs123x.PushConfigFaultless | src/hardware/adc/chipsea/cs123x.c:287-348 | in input mode with no failure the configuration is pushed and 19 clocks are issued |
| Cs123x.TransferRefuses | src/hardware/adc/chipsea/cs123x.c:287-348 | not in input mode: E_INVALID_OPERATION and no traffic; SDIO high: E_INVALID_OPERATION after one sample |
| Cs123x.TransferFaultless | src/hardware/adc/chipsea/cs123x.c:287-348 | the 24-bit reading is stored, and `changed` clears only when the update level pushed the configuration |
| Cs123x.FinishFaultless | src/hardware/adc/chipsea/cs123x.c:287-348 | the update pulses finish in input mode: 21 clocks when the configuration is still to be written, else 2 |
| Cs123x.TransferFlags | src/hardware/adc/chipsea/cs123x.c:287-348 | pushed implies changed is kept, and on success both are equal |
| Cs123x.FinishFlags | src/hardware/adc/chipsea/cs123x.c:287-348 | the same for the finishing step |
| Cs123x.SetConfigThenPush | src/hardware/adc/chipsea/cs123x.c:150-159 | after set_config a successful transfer has pushed that configuration |
| Cs123x.InitFlags | src/hardware/adc/chipsea/cs123x.c:103-131 | a missing HAL hook is E_INVALID_ARGUMENT with no change; otherwise the configuration is stored and marked changed |
| Cs123xDevice.Device.constructor | src/hardware/adc/chipsea/cs123x.c:103-131 | a new device has the default configuration and an unknown mode |
| Cs123xDevice.Device.SetSdioMode | src/hardware/adc/chipsea/cs123x.c:269-278 | equals `SetModeSpec` |
| Cs123xDevice.Device.ResetBus | src/hardware/adc/chipsea/cs123x.c:280-285 | equals `ResetBusSpec` |
| Cs123xDevice.Device.BitWrite | src/hardware/adc/chipsea/cs123x.c:416-429 | equals `BitWriteSpec` |
| Cs123xDevice.Device.BitRead | src/hardware/adc/chipsea/cs123x.c:398-414 | equals `BitReadSpec` |
| Cs123xDevice.Device.WriteMsbFirst | src/hardware/adc/chipsea/cs123x.c:366-386 | the bit loop equals writing `MsbFirst(x, n)` |
| Cs123xDevice.Device.WriteByte | src/hardware/adc/chipsea/cs123x.c:366-375 | writes the byte's 8 bits MSB first |
| Cs123xDevice.Device.WriteCommand | src/hardware/adc/chipsea/cs123x.c:377-386 | writes the command's 7 bits MSB first |
| Cs123xDevice.Device.SkipBits | src/hardware/adc/chipsea/cs123x.c:388-396 | equals `SkipBitsSpec` |
| Cs123xDevice.Device.ReadData | src/hardware/adc/chipsea/cs123x.c:431-448 | the 24-bit read loop equals `ReadDataSpec` |
| Cs123xDevice.Device.ReadBits | src/hardware/adc/chipsea/cs123x.c:433-440 | the read loop yields the bits and outcome of `ReadBitsSpec`, and on success the reading assembled MSB first is their weight |
| Cs123xDevice.Device.ReadPass | src/hardware/adc/chipsea/cs123x.c:436-439 | one pass of the read loop adds one bit to the reading |
| Cs123xDevice.Device.IsDataReady | src/hardware/adc/chipsea/cs123x.c:178-195 | equals `IsDataReadySpec` |
| Cs123xDevice.Device.Transfer | src/hardware/adc/chipsea/cs123x.c:287-348 | equals `TransferSpec` |
| Cs123xDevice.Device.Finish | src/hardware/adc/chipsea/cs123x.c:287-348 | equals `FinishSpec` |
| Cs123xDevice.Device.PushConfig | src/hardware/adc/chipsea/cs123x.c:287-348 | equals `PushConfigSpec` |
| Cs123xDevice.Device.SetConfig | src/hardware/adc/chipsea/cs123x.c:150-159 | equals `SetConfigSpec` |
| Cs123xDevice.Device.Init | src/hardware/adc/chipsea/cs123x.c:103-131 | equals `InitSpec` |
| Cs123x.PowerFaultless | src/hardware/adc/chipsea/cs123x.c:133-148 | exit (and, at 161-176, enter) power-down keep the configuration and the reading; with no failing call: reset, SDIO to input, SCLK at the requested level |
| Cs123xDevice.Device.ExitPowerDown | src/hardware/adc/chipsea/cs123x.c:133-148 | equals `PowerSpec` with SCLK low |
| Cs123xDevice.Device.EnterPowerDown | src/hardware/adc/chipsea/cs123x.c:161-176 | equals `PowerSpec` with SCLK high |
| Cs123xDevice.Device.GetLastData | src/hardware/adc/chipsea/cs123x.c:237-245 | returns the stored reading |
| Random.NextSeed | src/math/random.c:67-73 | the next seed is below the modulus |
| Random.NoOverflow | src/math/random.c:67-73 | the 64-bit product cannot overflow, so the step is exactly (a·seed + c) mod m |
| Random.Seeds | src/math/random.c:67-73 | the sequence starts at the seed and each term is the step of the previous one |
| Random.MinstdZeroFixed | src/math/random.h:43-49 | with the default constants, seed 0 stays 0 forever |
| Random.MinstdBelowModulus | src/math/random.h:43-49 | with the default constants, every generated value is below 2^31-1 |
| Random.Lcg.Default | src/math/random.h:43-49 | the default generator uses multiplier 48271, increment 0 and modulus 2^31-1 |
| Random.Lcg.Next | src/math/random.c:67-73 | stores and returns `NextSeed` of the old seed, keeping the constants |
| DebugPrint.TranslateLevel | src/debug/print.c:111-128 | five-character tags, "UNKNO" exactly for levels outside DEBUG..FATAL |
| DebugPrint.LevelTagsDistinct | src/debug/print.h:65-69 | distinct levels get distinct tags |
| DebugPrint.TokenClasses | src/debug/print.c:130-179 | the specifier and attribute character sets, which are disjoint |
| DebugPrint.FmtEnd | src/debug/print.c:181-196 | a found end lies past the start |
| DebugPrint.FmtEndMeans | src/debug/print.c:181-196 | found at e iff s[e-1] is a specifier and everything before it is an attribute |
| DebugPrint.ConversionLetter | src/debug/print.c:181-196 | a found conversion ends in a letter of the specifier set, never '%' |
| DebugPrint.GetFmtString | src/debug/print.c:181-196 | the scanning loop returns exactly `FmtEnd` |
| DebugPrint.FmtBuffer | src/debug/print.c:279-283 | the fmt buffer is 32 characters |
| DebugPrint.FmtBufferAsWrittenUnterminated | src/debug/print.c:279-283 | a 32-character specifier passes the check and fills the buffer with no NUL |
| DebugPrint.FmtBufferTerminated | src/debug/print.c:279-283 | with the corrected length limit the buffer holds the specifier and is terminated |
| DebugPrint.Conversion | src/debug/print.c:284-339 | non-string output is at most 31 characters and is a prefix of the full text |
| DebugPrint.InitSpec | src/debug/print.c:52-67 | the putc and puts hooks are installed exactly when given |
| DebugPrint.PutcSpec | src/debug/print.c:79-83 | the character is recorded; the result is EOF iff there is no hook or the call fails |
| DebugPrint.DevPutsSpec | src/debug/print.c:85-98 | returns EOF or the string length, and keeps the hooks |
| DebugPrint.DevPutsStopsAtFailure | src/debug/print.c:85-98 | when the application putc first fails on character j, returns EOF and the output stops at that character |
| DebugPrint.DevPutsWorking | src/debug/print.c:85-98 | with a working hook the whole string is output |
| DebugPrint.DevPutsDefault | src/debug/print.c:69-72 | without a hook the first character fails and output stops |
| DebugPrint.StrRChr | src/debug/print.c:244-245 | the last occurrence, or None when absent |
| DebugPrint.Basename | src/debug/print.c:243-256 | a suffix of the location with no '/' or '\\', starting right after the last separator when there is one |
| DebugPrint.PutsAllWorking | src/debug/print.c:208-266 | with a working hook the prefix pieces are output in order |
| DebugPrint.CharStep | src/debug/print.c:353-366 | one character step outputs its CRLF chunk |
| DebugPrint.EmitPlain | src/debug/print.c:269-367 | a message with no '%' is output with CRLF line ends |
| DebugPrint.CrlfNewlines | src/debug/print.c:353-362 | after the conversion every LF is preceded by CR |
| DebugPrint.CrlfIdempotent | src/debug/print.c:353-362 | converting twice is converting once |
| DebugPrint.PercentPercent | src/debug/print.c:328-333 | "100%%" is output as "100%%": '%' is not a specifier |
| DebugPrint.EmitEndsLine | src/debug/print.c:269-367 | a message ending in LF leaves the last character at LF |
| DebugPrint.PrintContinuesLine | src/debug/print.c:208 | mid-line, only the message is output, with CRLF line ends |
| DebugPrint.PrintStartsLine | src/debug/print.c:208-266 | at a line start the level, basename and function prefix comes before the message |
| DebugPrint.RenderPlain | src/debug/print.c:269-367 | without '%' the rendered message is its CR LF rewriting |
| DebugPrint.RenderExamples | src/debug/print.c:269-367 | "x=%d\\n" with "5" renders "x=5\\r\\n"; arguments are taken in order; a %s behind 30 flags still prints its argument |
| DebugPrint.EmitRenders | src/debug/print.c:269-367 | with a working putc the loop sends exactly the rendered message: each conversion's text in full, '%' kept when no conversion follows, CR before bare LF |
| DebugPrint.PrintRenders | src/debug/print.c:199-370 | with a working putc: the prefix exactly at a line start, then the rendered message |
| DebugPrint.PrintEndsLine | src/debug/print.c:199-370 | a message ending in LF leaves the console at a line start |
| DebugPrint.Console.constructor | src/debug/print.c:52-67 | a new console has no hooks and last character NUL |
| DebugPrint.Console.Init | src/debug/print.c:52-67 | equals `InitSpec` |
| DebugPrint.Console.Putc | src/debug/print.c:79-83 | equals `PutcSpec` |
| DebugPrint.Console.DevPuts | src/debug/print.c:85-98 | the loop equals `DevPutsSpec` |
| DebugPrint.Console.Print | src/debug/print.c:199-370 | equals `PrintSpec`, with the source's `fmt_len > 32` check |
| DebugPrint.Console.EmitPass | src/debug/print.c:270-367 | one pass of the message loop advances `EmitFrom`, with the source's `fmt_len > 32` check |
| DebugPrint.Console.PutsPrefix | src/debug/print.c:208-266 | outputs the prefix pieces in order |
| FontBuild.InsertMeaning | tools/fontbuild/fontbuild.py:144-163 | inserting into an increasing list keeps it increasing and adds exactly the character |
| FontBuild.InsertAllMeaning | tools/fontbuild/fontbuild.py:144-163 | inserting many keeps the list increasing with the union of the elements |
| FontBuild.IncreasingUnique | tools/fontbuild/fontbuild.py:144-163 | the sorted list of a set is unique |
| FontBuild.RemoveFirst | tools/fontbuild/fontbuild.py:573-574 | removing from an increasing list keeps it increasing and removes exactly that character |
| FontBuild.RemoveAbsent | tools/fontbuild/fontbuild.py:573-574 | removing an absent character changes nothing |
| FontBuild.ExtractCharacters | tools/fontbuild/fontbuild.py:144-163 | the result is strictly increasing and holds exactly the characters of the literals |
| FontBuild.QuoteIncluded | tools/fontbuild/fontbuild.py:133 | literals found with their quotes put '"' into the set |
| FontBuild.LowAscii | tools/fontbuild/fontbuild.py:567-571 | the 95 characters 32..126 |
| FontBuild.MainChars | tools/fontbuild/fontbuild.py:567-574 | increasing, without space; with --generate-all it also holds 32..126 |
| FontBuild.NormaliseChars | tools/fontbuild/fontbuild.py:567-574 | equals `MainChars`, increasing and without space |
| FontBuild.GenerateAllPrintable | tools/fontbuild/fontbuild.py:567-574 | every printable 33..126 is present with --generate-all |
| FontBuild.CanLutSkipLowAscii | tools/fontbuild/fontbuild.py:187-191 | true iff every character 32..126 is present |
| FontBuild.MainCharsNeverSkip | tools/fontbuild/fontbuild.py:187-191 | after removing the space the check is always false |
| FontBuild.HasNonAscii | tools/fontbuild/fontbuild.py:194-198 | true iff some character is above 127 |
| FontBuild.Hex | tools/fontbuild/fontbuild.py:210-219 | non-empty upper-case hex digits |
| FontBuild.ZeroPad | tools/fontbuild/fontbuild.py:210-219 | padded to at least the width |
| FontBuild.HexRoundTrip | tools/fontbuild/fontbuild.py:210-219 | parsing the hex text gives the number back |
| FontBuild.HexLength | tools/fontbuild/fontbuild.py:210-219 | below 16^k the hex has at most k digits |
| FontBuild.HexLengthAtLeast | tools/fontbuild/fontbuild.py:210-219 | from 16^k it has more than k digits |
| FontBuild.LeadingZeros | tools/fontbuild/fontbuild.py:210-219 | zero padding keeps the value |
| FontBuild.CodePointHexRoundTrip | tools/fontbuild/fontbuild.py:210-219 | "0x" then hex digits whose value is the code point |
| FontBuild.CodePointHexLength | tools/fontbuild/fontbuild.py:210-219 | 10, 6 or 4 characters by the three ranges |
| FontBuild.CodePointHexBoundaries | tools/fontbuild/fontbuild.py:212-217 | 0x10000 and 0x100 fall to the narrower formats because the tests are strict |
| FontBuild.LeftJustify | tools/fontbuild/fontbuild.py:320-321 | padded to at least the width |
| FontBuild.LutLineLayout | tools/fontbuild/fontbuild.py:312-330 | each line is 42 characters: hex at 4, comma, the character at 33, LF at 41 |
| FontBuild.Lines | tools/fontbuild/fontbuild.py:312-330 | one line per character |
| FontBuild.GenerateLutList | tools/fontbuild/fontbuild.py:312-330 | the loop's text is the concatenation of the lines |
| FontBuild.LutListLayout | tools/fontbuild/fontbuild.py:312-330 | line k of the list sits at 42k and is the line of character k |
| FontBuild.LutBounds | tools/fontbuild/fontbuild.py:443-448 | defined iff there is a character; the size is the count |
| FontBuild.LutBoundsCover | tools/fontbuild/fontbuild.py:443-448 | start and end are hex code points that bracket every character |
| FontBuild.VarName | tools/fontbuild/fontbuild.py:222-229 | same length as the name |
| FontBuild.ReplaceNameToVar | tools/fontbuild/fontbuild.py:222-229 | each character is kept or becomes '_' |
| FontBuild.VarNameIdempotent | tools/fontbuild/fontbuild.py:222-229 | sanitising twice is sanitising once |
| FontBuild.VarNameAscii | tools/fontbuild/fontbuild.py:222-229 | on ASCII the result is a C identifier body: letters, digits and '_' |
| FontBuild.ChunksConcat | tools/fontbuild/fontbuild.py:201-207 | 77-character chunks, the last possibly shorter, that join back to the text |
| FontBuild.ChunksCount | tools/fontbuild/fontbuild.py:201-207 | ceil(length / 77) chunks |
| FontBuild.ChunkSlice | tools/fontbuild/fontbuild.py:201-207 | chunk k is text[77k : 77k+77] |
| FontBuild.CommandlineWrap | tools/fontbuild/fontbuild.py:201-207 | "python " + argv joined, cut in 77-character chunks and joined with "\n * " |
| Glyph.Column | tools/fontbuild/shape_providers/ssd1306.py:46 | column c of the image, top to bottom |
| Glyph.Packed | tools/fontbuild/shape_providers/ssd1306.py:55-56 | two bytes per word |
| Glyph.ConvertGlyph | tools/fontbuild/shape_providers/ssd1306.py:34-58 | ValueError iff the image is not 16 rows high; otherwise two bytes per column |
| Glyph.WeighBound | tools/fontbuild/shape_providers/ssd1306.py:31 | a column of n pixels weighs less than 2^n |
| Glyph.WeighBit | tools/fontbuild/shape_providers/ssd1306.py:31 | bit r of the weight is pixel r |
| Glyph.WeighSplit | tools/fontbuild/shape_providers/ssd1306.py:31 | the weight of a split column is the lower part plus 2^len times the upper part |
| Glyph.WordBytes | tools/fontbuild/shape_providers/ssd1306.py:49-53 | a 16-row column fits uint16: the low byte is rows 0-7, the high byte rows 8-15 |
| Glyph.PackedAt | tools/fontbuild/shape_providers/ssd1306.py:55-56 | word k becomes bytes 2k (low) and 2k+1 (high) |
| Glyph.ConvertLayout | tools/fontbuild/shape_providers/ssd1306.py:34-58 | byte 2c holds rows 0-7 of column c and byte 2c+1 rows 8-15 |
| Glyph.Unpack | tools/fontbuild/shape_providers/ssd1306.py:34-58 | the unpacked image is 16 rows of the given width |
| Glyph.RoundTrip | tools/fontbuild/shape_providers/ssd1306.py:34-58 | unpacking the packed glyph gives the image back |
| Glyph.PixelBack | tools/fontbuild/shape_providers/ssd1306.py:34-58 | each pixel is recovered from its column's two bytes |

## Left out

- Synchronous clear (`display_clear_gram`), `read_gram`, `wait_async_complete`, display on/off and brightness: they are not part of the asynchronous engine and depend on timers or PWM hooks.
- The init command tables and delays of every driver: only the argument checks of init are modelled.
- Null device and data pointers: Dafny references are never null, so the `PARAM_NOT_NULL` paths on them are modelled only in `DevOp.ParamNotNull`.
- Floating point and `snprintf` formatting in print.c: each conversion's text is given as a parameter; a missing argument reads as the empty string.
- print.c colour output and the OMIT/FULLNAME options: they are fixed at their defaults.
- `dbg_puts_warper` and the external puts hook are not modelled; `dev_puts` is modelled through putc.
- The int32 output count of print.c and NUL characters inside strings.
- CS123x delay hooks: they produce no bus events.
- CS123x `wait_data_ready`, `wait_and_read_data`, the data-ready callback and `exti_triggered`: they are loops over a clock and interrupt glue.
- CS123x `set_config` has no return statement in the source, so it is modelled as a method without a result.
- CS123x speed, gain and channel are the numbers 0..3 of their enums.
- CS123x: the SDIO level is a 0/1 value from a script.
- `raw |= bit << k` is modelled as `+`: the bits are 0/1 at distinct positions.
- The int32 conversion and arithmetic shift of the sign extension are modelled as two's complement.
- DevOp.MemcopyFuncMap: requires a count that is a multiple of 8, because for other counts the source loop never ends (see Findings); `DevOp.MapCopy` is the intended copy for any count.
- Random.NextSeed: requires a non-zero modulus, because the source divides by it.
- LcdSpec.ClearSetBufSpec: requires a non-zero panel width (for notify and the handler call, only when the clear handler is registered), because clear_gram_set_buf divides by `resolution.x` (st7789.c:382) and init never checks it.
- LcdSpec.ClearHandlerSpec: requires a non-zero panel width (for notify and the handler call, only when the clear handler is registered), because clear_gram_set_buf divides by `resolution.x` (st7789.c:382) and init never checks it.
- LcdSpec.HandlerSpec: requires a non-zero panel width (for notify and the handler call, only when the clear handler is registered), because clear_gram_set_buf divides by `resolution.x` (st7789.c:382) and init never checks it.
- LcdSpec.NotifySpec: requires a non-zero panel width (for notify and the handler call, only when the clear handler is registered), because clear_gram_set_buf divides by `resolution.x` (st7789.c:382) and init never checks it.
- LcdSpec.ClearAsyncSpec: requires a non-zero panel width (for notify and the handler call, only when the clear handler is registered), because clear_gram_set_buf divides by `resolution.x` (st7789.c:382) and init never checks it.
- LcdDevice.Lcd.ClearSetBuf: requires a non-zero panel width (for notify and the handler call, only when the clear handler is registered), because clear_gram_set_buf divides by `resolution.x` (st7789.c:382) and init never checks it.
- LcdDevice.Lcd.ClearGramHandler: requires a non-zero panel width (for notify and the handler call, only when the clear handler is registered), because clear_gram_set_buf divides by `resolution.x` (st7789.c:382) and init never checks it.
- LcdDevice.Lcd.CallHandler: requires a non-zero panel width (for notify and the handler call, only when the clear handler is registered), because clear_gram_set_buf divides by `resolution.x` (st7789.c:382) and init never checks it.
- LcdDevice.Lcd.Notify: requires a non-zero panel width (for notify and the handler call, only when the clear handler is registered), because clear_gram_set_buf divides by `resolution.x` (st7789.c:382) and init never checks it.
- LcdDevice.Lcd.ClearAsync: requires a non-zero panel width (for notify and the handler call, only when the clear handler is registered), because clear_gram_set_buf divides by `resolution.x` (st7789.c:382) and init never checks it.
- LcdSpec.ClearAsyncSpec: when the argument block cannot be allocated, the source stores `buf_size` and `buf` through the null pointer before its check (st7789.c:414-418, st7735.c:458-462), and on either failure it leaks whichever block it did allocate; C leaves the store undefined, and the model returns E_MEMORY_ALLOC_FAILED with nothing written and nothing freed.
- LcdDevice.Lcd.ClearAsync: the same failed allocation as `ClearAsyncSpec`: the null store and the leak are not modelled.
- LcdProps.ClearSendsFill: requires a non-inverted ST7735 display area, because for a negative width the fill loop writes nothing while `buf_size` wraps to a large 16-bit count.
- Shared clear state: `lines_left` and `clear_color` are one file-static struct per driver in the source (st7789.c:81-85, st7735.c:81-85), shared by every device of that driver; the model keeps them per device (`LcdSpec.Dev`), so it does not capture two panels of one driver clearing at once and overwriting each other's count.
- DebugPrint.EmitFrom: a conversion of exactly 32 characters whose letter is not 's' hands snprintf an unterminated format (see Findings), which C leaves undefined; the model sends the text given for that conversion, as for a shorter one.
- DebugPrint.Console.Print: the same 32-character case as `EmitFrom`.
- SSD1306: the branch for `col_left == 0` cannot be taken because the column is below 128, so the model has no such branch.
- SSD1315: the row past page 7 is refused by `set_offset`, whose error `append_gram` ignores; the model keeps the cursor as the code does.
- SSD1315: ssd1315.c uses `CALL_WITH_ERROR`, `ARGUMENT_CHECK` and `E_MEMORY_NOT_ENOUTH`, none of which devop.h or the error table defines; the model reads `CALL_WITH_ERROR` as "return the error of a failing call" and `E_MEMORY_NOT_ENOUTH` as a failing code of its own, -70101 (`Errors.E_MEMORY_NOT_ENOUGH`); `ARGUMENT_CHECK` only guards the null pointers of init, which the model does not have.
- fontbuild.py regex literal search, file I/O and argparse: the literals and `sys.argv` are parameters.
- fontbuild.py PIL rendering (`get_char_img_data`) and header and source template generation: they are template text filled from the functions modelled here.
- FontBuild.VarName: `str.isalnum` is a parameter, because it depends on the Unicode database; `VarNameAscii` fixes it on ASCII.
- FontBuild.ExtractCharacters: the Python set and sort are modelled as insertion into an increasing list, which gives the same list (`IncreasingUnique`).
- FontBuild.LutBounds: `lut_size` is kept as a number, not the string of it.
- Glyph.ConvertGlyph: pixels are booleans (mode "1" images); numpy dtypes are exact here because 16 rows cannot overflow uint16; `tobytes` is assumed little-endian.

## Findings

| source | as written | input that shows it | evidently intended | confidence | as-written member | corrected member |
|---|---|---|---|---|---|---|
| src/hardware/oled/ssd1306.c:248-277 | the space left on a line is computed once from the starting column and reused for every later line | cursor at column 10, 1014 bytes (fits the 1024-byte GRAM): eight pieces of 118 bytes are sent, then the reposition to page 8 fails with E_MEMORY_OUT_OF_BOUND (ssd1306.c:266-271), so the last 70 bytes, the ninth planned piece, are never sent; 300 bytes leave a 10-byte gap | fill the first line, then whole lines | high, not executed | Ssd1306.PiecesAsWrittenMisplace | Gram.PiecesFit |
| src/hardware/oled/ssd1306.c:273-277 | the cursor is advanced by the write size on top of the repositions made in the loop | cursor 0, 129 bytes: the cursor ends at 257 | the cursor just past the data, 129 | high, not executed | Ssd1306.CursorAsWrittenOvershoots | Gram.CursorAfterPieces |
| src/hardware/oled/ssd1315.c:237-262 | the space left on a line is computed from the starting address for every line | cursor at column 10, 300 bytes: pieces 118, 118, 64 leave a gap | fill the first line, then whole lines | high, not executed | Ssd1315.AppendPastLastPage | Gram.PiecesFit |
| src/hardware/devop.h:248-290 | the uint32 counter is decremented by 8 after every pass and tested for > 0 | 3 elements: 3, then 2^32-5, ... never reaches 0, so the copy runs past the buffers | copy exactly n elements | high, not executed | DevOp.FuncMapNeverStops | DevOp.MapCopy |
| src/hardware/adc/chipsea/cs123x.c:450-461 | after a wrap the elapsed time is computed as 0xFFFFFFFF - start + now, one tick short | start 0xFFFFFFFF, now 0, timeout 1 | elapsed = now - start mod 2^32 | high, not executed | Cs123x.IsTimeoutLateAtWrap | Cs123x.TimedOutMeansElapsed |
| src/debug/print.c:279-283 | the length check lets a 32-character specifier through into the 32-character buffer | "%" + 30 zeros + "d": the buffer has no terminating NUL when passed to snprintf | lengths up to 31 | high, not executed | DebugPrint.FmtBufferAsWrittenUnterminated | DebugPrint.FmtBufferTerminated |
