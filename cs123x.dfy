/** The Chipsea CS1237/CS1238 ADC driver (src/hardware/adc/chipsea/cs123x.c):
    a two-wire link bit-banged on a clock pin SCLK and a shared data pin SDIO.
    Every bit is one clock pulse; the host reads the 24-bit conversion result
    MSB first, then an update bit, and when its configuration changed it
    writes the command 0x65 and the configuration byte in the same frame. */
module Cs123x {
  import opened Errors
  import opened Bus
  import opened Common

  /** CS123X_WRITE, the command that precedes a configuration byte. */
  const CMD_WRITE: nat := 0x65
  /** Bits of a conversion result. */
  const DATA_BITS: nat := 24
  const UINT32: nat := 0x1_0000_0000

  // ------------------------------------------------------ configuration byte

  /** The speed, gain and channel enums all take the values 0..3. */
  type Field = x: nat | x < 4

  datatype Config = Config(refOut: bool, speed: Field, gain: Field, channel: Field)

  /** cs123x_generate_cfg_byte: bit 6 the reference output, bits 5-4 the
      speed, bits 3-2 the PGA gain, bits 1-0 the channel. Bit 7 stays clear
      and every field can be read back, so two different configurations never
      give the same byte. */
  function CfgByte(c: Config): (b: bv8)
    ensures b & 0x80 == 0 && DecodeCfg(b) == c
  {
    (if c.refOut then 0x40 else 0) | ((c.speed as bv8) << 4) | ((c.gain as bv8) << 2) | (c.channel as bv8)
  }

  /** Reads the fields back out of a configuration byte. */
  function DecodeCfg(b: bv8): Config
  {
    Config(b & 0x40 != 0, ((b >> 4) & 3) as nat, ((b >> 2) & 3) as nat, (b & 3) as nat)
  }

  /** The byte as a number: the fields are disjoint, so the ORs add up. */
  lemma CfgByteValue(c: Config)
    ensures CfgByte(c) as nat == (if c.refOut then 64 else 0) + 16 * c.speed + 4 * c.gain + c.channel
  {
  }

  // ---------------------------------------------------------- bit framing

  lemma {:induction false} Pow2Add(a: nat, b: nat)
    ensures Pow2(a + b) == Pow2(a) * Pow2(b)
    decreases a
  {
    if a > 0 {
      Pow2Add(a - 1, b);
      assert Pow2(a + b) == 2 * Pow2(a - 1 + b);
    }
  }

  /** The powers of two the driver's words use. */
  lemma Pow2Words()
    ensures Pow2(7) == 128 && Pow2(8) == 256 && Pow2(24) == 0x100_0000
  {
    assert Pow2(1) == 2 && Pow2(2) == 4 && Pow2(3) == 8 && Pow2(4) == 16;
    assert Pow2(5) == 32 && Pow2(6) == 64 && Pow2(7) == 128 && Pow2(8) == 256;
    Pow2Add(8, 8);
    Pow2Add(16, 8);
  }

  /** (x >> k) & 1 for a non-negative x. */
  function BitOf(x: nat, k: nat): (b: int)
    ensures b == 0 || b == 1
  {
    (x / Pow2(k)) % 2
  }

  /** The n low bits of x in the order they go on the wire: bit n-1 first. */
  function MsbFirst(x: nat, n: nat): (bits: seq<int>)
    ensures |bits| == n
  {
    seq(n, i requires 0 <= i < n => BitOf(x, n - 1 - i))
  }

  predicate IsBits(bits: seq<int>)
  {
    forall j | 0 <= j < |bits| :: bits[j] == 0 || bits[j] == 1
  }

  /** A bit sequence assembled MSB first into a word of w bits: the j-th bit
      weighs 2^(w-1-j), and a word made of bits lies in [0, 2^w). */
  function Weigh(bits: seq<int>, w: nat): (x: int)
    requires |bits| <= w
    ensures IsBits(bits) ==> 0 <= x < Pow2(w)
  {
    if bits == [] then 0
    else
      assert Pow2(w) == 2 * Pow2(w - 1);
      bits[0] * Pow2(w - 1) + Weigh(bits[1..], w - 1)
  }

  /** Assembling one more bit adds it at its weight. */
  lemma {:induction false} WeighSnoc(bits: seq<int>, x: int, w: nat)
    requires |bits| < w
    ensures Weigh(bits + [x], w) == Weigh(bits, w) + x * Pow2(w - 1 - |bits|)
    decreases |bits|
  {
    if bits == [] {
      assert [x][1..] == [];
    } else {
      assert (bits + [x])[1..] == bits[1..] + [x];
      WeighSnoc(bits[1..], x, w - 1);
    }
  }

  /** x % 2^(k+1) splits into bit k and x % 2^k. */
  lemma ModPow2Split(x: nat, k: nat)
    ensures x % Pow2(k + 1) == BitOf(x, k) * Pow2(k) + x % Pow2(k)
  {
    var p := Pow2(k);
    var q, r := x / p, x % p;
    assert x == q * p + r;
    assert q == 2 * (q / 2) + q % 2;
    assert q * p == (q / 2) * (2 * p) + (q % 2) * p;
    ModUnique(x, 2 * p, q / 2, (q % 2) * p + r);
  }

  lemma ModUnique(x: int, m: int, a: int, b: int)
    requires m > 0 && 0 <= b < m && x == a * m + b
    ensures x % m == b
  {
    var q, r := x / m, x % m;
    assert q * m + r == a * m + b;
    assert (q - a) * m == b - r;
    if q > a {
      MulAtLeast(q - a, m);
    } else if q < a {
      assert (a - q) * m == r - b;
      MulAtLeast(a - q, m);
    }
  }

  lemma MulAtLeast(k: int, m: int)
    requires k >= 1 && m > 0
    ensures k * m >= m
  {
    assert k * m == (k - 1) * m + m;
  }

  /** Bits sent MSB first and assembled back MSB first give the low n bits:
      a byte comes back whole, a command keeps its low 7 bits. */
  lemma {:induction false} MsbFirstRoundTrip(x: nat, n: nat)
    ensures Weigh(MsbFirst(x, n), n) == x % Pow2(n)
    decreases n
  {
    if n > 0 {
      var bits := MsbFirst(x, n);
      assert bits[1..] == MsbFirst(x, n - 1);
      MsbFirstRoundTrip(x, n - 1);
      ModPow2Split(x, n - 1);
    }
  }

  /** write_byte puts a whole byte on the wire; write_command the low 7 bits
      of its command, so 0x65 goes out whole. */
  lemma WireRoundTrip(x: nat)
    ensures x < 256 ==> Weigh(MsbFirst(x, 8), 8) == x
    ensures Weigh(MsbFirst(x, 7), 7) == x % 128
    ensures Weigh(MsbFirst(CMD_WRITE, 7), 7) == CMD_WRITE
  {
    assert Pow2(8) == 256 && Pow2(7) == 128 by {
      Pow2Words();
    }
    assert x < 256 ==> Weigh(MsbFirst(x, 8), 8) == x by {
      MsbFirstRoundTrip(x, 8);
    }
    MsbFirstRoundTrip(x, 7);
    MsbFirstRoundTrip(CMD_WRITE, 7);
  }

  // ------------------------------------------------------- sign extension

  /** cs123x_bitbang_read_data's conversion: the 24-bit raw value shifted
      left by 8 in a uint32, reinterpreted as an int32 (two's complement),
      then shifted right by 8 arithmetically (a floor division, which is
      Dafny's / for a positive divisor). */
  function SignExtend24(raw: nat): int
  {
    var u := (raw * 256) % UINT32;
    var s := if u >= 0x8000_0000 then u - UINT32 else u;
    s / 256
  }

  /** A 24-bit raw value becomes the signed reading it encodes: itself below
      2^23, raw - 2^24 from there, so always in [-2^23, 2^23). */
  lemma SignExtendReading(raw: nat)
    requires raw < 0x100_0000
    ensures var d := SignExtend24(raw);
            -0x80_0000 <= d < 0x80_0000
            && d == (if raw < 0x80_0000 then raw else raw - 0x100_0000)
  {
    assert (raw * 256) % UINT32 == raw * 256;
    if raw >= 0x80_0000 {
      assert raw * 256 - UINT32 == (raw - 0x100_0000) * 256;
    }
  }

  // ------------------------------------------------------------- timeouts

  /** is_timeout on three uint32 values: the plain difference when the clock
      did not wrap, (0xFFFFFFFF - start) + now when it did. */
  function IsTimeout(start: nat, now: nat, timeout: nat): bool
    requires start < UINT32 && now < UINT32 && timeout < UINT32
  {
    if start <= now then now - start >= timeout
    else (0xFFFF_FFFF - start) + now >= timeout
  }

  /** The milliseconds elapsed on a wrapping uint32 clock. */
  function Elapsed(start: nat, now: nat): (e: nat)
    requires start < UINT32 && now < UINT32
    ensures e < UINT32
  {
    (now - start) % UINT32
  }

  /** As written, is_timeout compares the elapsed time when the clock did not
      wrap, and one millisecond less than it when it did; its sum never
      overflows a uint32. */
  lemma IsTimeoutAsWritten(start: nat, now: nat, timeout: nat)
    requires start < UINT32 && now < UINT32 && timeout < UINT32
    ensures start > now ==> (0xFFFF_FFFF - start) + now < UINT32
    ensures IsTimeout(start, now, timeout)
            == (Elapsed(start, now) - (if start <= now then 0 else 1) >= timeout)
  {
    if start > now {
      ModUnique(now - start, UINT32, -1, now - start + UINT32);
    } else {
      ModUnique(now - start, UINT32, 0, now - start);
    }
  }

  /** Just after the clock wraps, a time-out of one millisecond has elapsed
      and is_timeout still says it has not. */
  lemma IsTimeoutLateAtWrap()
    ensures Elapsed(0xFFFF_FFFF, 0) == 1
    ensures !IsTimeout(0xFFFF_FFFF, 0, 1)
    ensures TimedOut(0xFFFF_FFFF, 0, 1)
  {
    ModUnique(-0xFFFF_FFFF, UINT32, -1, 1);
  }

  /** The evidently intended test: the uint32 difference now - start, which
      wraps by itself, against the time-out. */
  function TimedOut(start: nat, now: nat, timeout: nat): bool
    requires start < UINT32 && now < UINT32 && timeout < UINT32
  {
    Elapsed(start, now) >= timeout
  }

  /** The intended test agrees with is_timeout when the clock did not wrap,
      and fires exactly once the elapsed time reaches the time-out. */
  lemma TimedOutMeansElapsed(start: nat, now: nat, timeout: nat)
    requires start < UINT32 && now < UINT32 && timeout < UINT32
    ensures TimedOut(start, now, timeout) <==> Elapsed(start, now) >= timeout
    ensures start <= now ==> (TimedOut(start, now, timeout) <==> IsTimeout(start, now, timeout))
    ensures start <= now ==> Elapsed(start, now) == now - start
    ensures start > now ==> Elapsed(start, now) == UINT32 - start + now
  {
    if start > now {
      ModUnique(now - start, UINT32, -1, now - start + UINT32);
    } else {
      ModUnique(now - start, UINT32, 0, now - start);
    }
  }

  // -------------------------------------------------------------- the link

  /** cs123x_sdio_pin_mode_e. */
  datatype Mode = Unknown | OutputPushPull | InputHighZ | ExtiNegEdge

  function ModeCode(m: Mode): int
  {
    match m
    case Unknown => 0
    case OutputPushPull => 1
    case InputHighZ => 2
    case ExtiNegEdge => 3
  }

  /** The fields of cs123x_device_t the driver updates, with the HAL calls
      made so far. */
  datatype Adc = Adc(cfg: Config, mode: Mode, changed: bool, pushed: bool, lastData: int, trace: seq<Event>)

  datatype Out = Out(adc: Adc, err: int)
  /** An outcome with the level read on SDIO on the way. */
  datatype Sampled = Sampled(out: Out, level: int)
  /** An outcome with the bits read on the way. */
  datatype Word = Word(out: Out, bits: seq<int>)
  /** An outcome of cs123x_is_data_ready. */
  datatype Ready = Ready(out: Out, ready: bool)

  /** The HAL's answers: the result of the i-th call and, when that call reads
      SDIO, the level read. */
  datatype Link = Link(rs: seq<int>, levels: seq<bool>)

  /** A step of the link changes the pin mode and the trace, nothing else. */
  predicate Keeps(a: Adc, b: Adc)
  {
    b.cfg == a.cfg && b.changed == a.changed && b.pushed == a.pushed && b.lastData == a.lastData
  }

  /** HAL calls in a row, each returned at once when it fails. */
  function Calls(l: Link, a: Adc, evs: seq<Event>): Out
  {
    var r := Run(l.rs, a.trace, evs);
    Out(a.(trace := r.trace), r.err)
  }

  /** cs123x_set_sdio_mode: nothing when SDIO is already in that mode;
      otherwise reconfigure the pin and record the mode once that succeeded. */
  function SetModeSpec(l: Link, a: Adc, m: Mode): (r: Out)
    ensures Keeps(a, r.adc)
  {
    if a.mode == m then Out(a, ALL_OK)
    else
      var c := Calls(l, a, [Reconfig(ModeCode(m))]);
      if c.err != ALL_OK then c else Out(c.adc.(mode := m), ALL_OK)
  }

  /** cs123x_reset_bus: SCLK low, then SDIO low. */
  function ResetBusSpec(l: Link, a: Adc): Out
  {
    Calls(l, a, [Sclk(0), SdioOut(0)])
  }

  /** cs123x_bitbang_bit_write: SDIO to output, then a clock pulse with the
      bit driven while SCLK is high. */
  function BitWriteSpec(l: Link, a: Adc, bit: int): (r: Out)
    ensures Keeps(a, r.adc)
  {
    var m := SetModeSpec(l, a, OutputPushPull);
    if m.err != ALL_OK then m else Calls(l, m.adc, [Sclk(1), SdioOut(bit), Sclk(0)])
  }

  /** cs123x_bitbang_bit_read: SDIO to input, a clock pulse, then a read of
      SDIO when the caller wants the bit. */
  function BitReadSpec(l: Link, a: Adc, sample: bool): (r: Sampled)
    ensures Keeps(a, r.out.adc) && (r.level == 0 || r.level == 1)
  {
    var m := SetModeSpec(l, a, InputHighZ);
    if m.err != ALL_OK then Sampled(m, 0)
    else
      var p := Calls(l, m.adc, [Sclk(1), Sclk(0)]);
      if p.err != ALL_OK || !sample then Sampled(p, 0)
      else
        var i := |p.adc.trace|;
        Sampled(Out(p.adc.(trace := p.adc.trace + [SdioIn]), Reply(l.rs, i)), Level(l.levels, i))
  }

  /** The loops of cs123x_bigbang_write_byte and
      cs123x_bitbang_write_command: one bit write per bit, in order, stopping
      at the first failure. */
  function WriteBitsSpec(l: Link, a: Adc, bits: seq<int>): (r: Out)
    ensures Keeps(a, r.adc)
    decreases |bits|
  {
    if bits == [] then Out(a, ALL_OK)
    else
      var w := BitWriteSpec(l, a, bits[0]);
      if w.err != ALL_OK then w else WriteBitsSpec(l, w.adc, bits[1..])
  }

  /** cs123x_bitbang_skip_bits: n bit reads that do not read SDIO. */
  function SkipBitsSpec(l: Link, a: Adc, n: nat): (r: Out)
    ensures Keeps(a, r.adc)
    decreases n
  {
    if n == 0 then Out(a, ALL_OK)
    else
      var s := BitReadSpec(l, a, false);
      if s.out.err != ALL_OK then s.out else SkipBitsSpec(l, s.out.adc, n - 1)
  }

  /** The loop of cs123x_bitbang_read_data: n bit reads, with the bits read
      in order (all n of them when every call succeeded). */
  function ReadBitsSpec(l: Link, a: Adc, n: nat): (r: Word)
    ensures Keeps(a, r.out.adc) && IsBits(r.bits) && |r.bits| <= n
    ensures r.out.err == ALL_OK ==> |r.bits| == n
    decreases n
  {
    if n == 0 then Word(Out(a, ALL_OK), [])
    else
      var s := BitReadSpec(l, a, true);
      if s.out.err != ALL_OK then Word(s.out, [])
      else
        var w := ReadBitsSpec(l, s.out.adc, n - 1);
        Word(w.out, [s.level] + w.bits)
  }

  /** cs123x_bitbang_read_data: 24 bits MSB first, sign-extended into
      last_data once all were read. */
  function ReadDataSpec(l: Link, a: Adc): Out
  {
    var w := ReadBitsSpec(l, a, DATA_BITS);
    if w.out.err != ALL_OK then w.out
    else Out(w.out.adc.(lastData := SignExtend24(Weigh(w.bits, DATA_BITS))), ALL_OK)
  }

  /** cs123x_is_data_ready: SDIO to input, then read it; the chip is ready
      when it reads low (and not ready when the read fails). */
  function IsDataReadySpec(l: Link, a: Adc): (r: Ready)
    ensures Keeps(a, r.out.adc)
  {
    var m := SetModeSpec(l, a, InputHighZ);
    if m.err != ALL_OK then Ready(m, false)
    else
      var i := |m.adc.trace|;
      var o := Out(m.adc.(trace := m.adc.trace + [SdioIn]), Reply(l.rs, i));
      if o.err != ALL_OK then Ready(o, false) else Ready(o, Level(l.levels, i) == 0)
  }

  /** The update bit read after the data acknowledges a pushed configuration:
      both flags drop. */
  function Acknowledge(a: Adc, update: int): Adc
  {
    if update == 1 && a.pushed then a.(pushed := false, changed := false) else a
  }

  /** The configuration tail of a transfer: 2 more clocks, the command 0x65
      in 7 bits, 1 clock, the configuration byte, 1 clock; then the
      configuration counts as pushed. */
  function PushConfigSpec(l: Link, a: Adc): (r: Out)
    ensures r.adc.cfg == a.cfg && r.adc.changed == a.changed && r.adc.lastData == a.lastData
    ensures r.adc.pushed == (r.err == ALL_OK || a.pushed)
  {
    var byte := CfgByte(a.cfg) as nat;
    var s1 := SkipBitsSpec(l, a, 2);
    if s1.err != ALL_OK then s1
    else
      var c := WriteBitsSpec(l, s1.adc, MsbFirst(CMD_WRITE, 7));
      if c.err != ALL_OK then c
      else
        var s2 := SkipBitsSpec(l, c.adc, 1);
        if s2.err != ALL_OK then s2
        else
          var b := WriteBitsSpec(l, s2.adc, MsbFirst(byte, 8));
          if b.err != ALL_OK then b
          else
            var s3 := SkipBitsSpec(l, b.adc, 1);
            if s3.err != ALL_OK then s3 else Out(s3.adc.(pushed := true), ALL_OK)
  }

  /** cs123x_bitbang_transfer: refuse unless SDIO is an input and the chip
      is ready; read the data and the update bit; 2 clocks; then, when the
      configuration is still to be written, the configuration tail. */
  function TransferSpec(l: Link, a: Adc): Out
  {
    if a.mode != InputHighZ then Out(a, E_INVALID_OPERATION)
    else
      var rd := IsDataReadySpec(l, a);
      if rd.out.err != ALL_OK then rd.out
      else if !rd.ready then Out(rd.out.adc, E_INVALID_OPERATION)
      else
        var d := ReadDataSpec(l, rd.out.adc);
        if d.err != ALL_OK then d
        else
          var u := BitReadSpec(l, d.adc, true);
          if u.out.err != ALL_OK then u.out else FinishSpec(l, u.out.adc, u.level)
  }

  /** The rest of cs123x_bitbang_transfer once the update bit is read:
      acknowledge, 2 clocks, and the configuration tail when the
      configuration is still to be written. */
  function FinishSpec(l: Link, a: Adc, update: int): Out
  {
    var k := SkipBitsSpec(l, Acknowledge(a, update), 2);
    if k.err != ALL_OK || !k.adc.changed then k else PushConfigSpec(l, k.adc)
  }

  /** cs123x_set_config: the new configuration, to be written by the next
      transfer. */
  function SetConfigSpec(a: Adc, cfg: Config): Adc
  {
    a.(cfg := cfg, changed := true, pushed := false)
  }

  /** The HAL hooks init refuses to do without, present or null. */
  datatype Hal = Hal(sclkSet: bool, sdioSet: bool, sdioGet: bool, sdioReconfig: bool)

  /** cs123x_init: refuse a missing hook; take the configuration and mark it
      changed; reset the bus; leave power-down. */
  function InitSpec(l: Link, hal: Hal, cfg: Config, a: Adc): Out
  {
    if !(hal.sclkSet && hal.sdioSet && hal.sdioGet && hal.sdioReconfig) then Out(a, E_INVALID_ARGUMENT)
    else
      var r := ResetBusSpec(l, a.(cfg := cfg, changed := true));
      if r.err != ALL_OK then r else PowerSpec(l, r.adc, 0)
  }

  /** cs123x_exit_power_down (SCLK left low) and cs123x_enter_power_down
      (SCLK left high): reset the bus, SDIO to input, then SCLK. */
  function PowerSpec(l: Link, a: Adc, sclk: int): Out
  {
    var r := ResetBusSpec(l, a);
    if r.err != ALL_OK then r
    else
      var m := SetModeSpec(l, r.adc, InputHighZ);
      if m.err != ALL_OK then m else Calls(l, m.adc, [Sclk(sclk)])
  }

  // ------------------------------------------------- properties of the link

  /** set_sdio_mode does nothing when SDIO is already in the mode; otherwise
      it makes one reconfiguration call and records the mode exactly when that
      call succeeded. */
  lemma SetModeRecordsOnSuccess(l: Link, a: Adc, m: Mode)
    ensures var r := SetModeSpec(l, a, m);
            (a.mode == m ==> r == Out(a, ALL_OK))
            && (a.mode != m ==>
                  r.adc.trace == a.trace + [Reconfig(ModeCode(m))] && r.err == Reply(l.rs, |a.trace|)
                  && (r.adc.mode == m <==> r.err == ALL_OK))
  {
    RunOne(l.rs, a.trace, Reconfig(ModeCode(m)));
  }

  /** Clock pulses: every bit read or written raises SCLK once. */
  function Clocks(t: seq<Event>): nat
  {
    Count(t, Sclk(1))
  }

  /** The reconfiguration a step makes to bring SDIO from one mode to another. */
  function Switch(from: Mode, to: Mode): seq<Event>
  {
    if from == to then [] else [Reconfig(ModeCode(to))]
  }

  /** The clock pulses of bit writes, each with its bit on SDIO. */
  function WriteFrames(bits: seq<int>): seq<Event>
    decreases |bits|
  {
    if bits == [] then [] else [Sclk(1), SdioOut(bits[0]), Sclk(0)] + WriteFrames(bits[1..])
  }

  /** The clock pulses of n skipped bits. */
  function Pulses(n: nat): seq<Event>
  {
    if n == 0 then [] else [Sclk(1), Sclk(0)] + Pulses(n - 1)
  }

  /** The clock pulses of n bits read, each followed by a read of SDIO. */
  function SampleFrames(n: nat): seq<Event>
  {
    if n == 0 then [] else [Sclk(1), Sclk(0), SdioIn] + SampleFrames(n - 1)
  }

  lemma ClocksAppend(t: seq<Event>, u: seq<Event>)
    ensures Clocks(t + u) == Clocks(t) + Clocks(u)
  {
    CountAppend(t, u, Sclk(1));
  }

  lemma FrameClocks(b: int)
    ensures Clocks([Sclk(1), SdioOut(b), Sclk(0)]) == 1
    ensures Clocks([Sclk(1), Sclk(0), SdioIn]) == 1
  {
    var w, r := [Sclk(1), SdioOut(b), Sclk(0)], [Sclk(1), Sclk(0), SdioIn];
    assert [Sclk(1)][..0] == [];
    assert Count([Sclk(1)], Sclk(1)) == 1;
    assert w[..2] == [Sclk(1), SdioOut(b)] && w[..2][..1] == [Sclk(1)];
    assert Count(w[..2], Sclk(1)) == 1;
    assert r[..2] == [Sclk(1), Sclk(0)] && r[..2][..1] == [Sclk(1)];
    assert Count(r[..2], Sclk(1)) == 1;
  }

  lemma {:induction false} WriteFramesClocks(bits: seq<int>)
    ensures Clocks(WriteFrames(bits)) == |bits|
    decreases |bits|
  {
    if bits != [] {
      WriteFramesClocks(bits[1..]);
      FrameClocks(bits[0]);
      ClocksAppend([Sclk(1), SdioOut(bits[0]), Sclk(0)], WriteFrames(bits[1..]));
    }
  }

  lemma {:induction false} PulsesClocks(n: nat)
    ensures Clocks(Pulses(n)) == n
  {
    if n > 0 {
      PulsesClocks(n - 1);
      ClocksAppend([Sclk(1), Sclk(0)], Pulses(n - 1));
    }
  }

  lemma {:induction false} SampleFramesClocks(n: nat)
    ensures Clocks(SampleFrames(n)) == n
  {
    if n > 0 {
      SampleFramesClocks(n - 1);
      FrameClocks(0);
      ClocksAppend([Sclk(1), Sclk(0), SdioIn], SampleFrames(n - 1));
    }
  }

  lemma CallsFaultless(l: Link, a: Adc, evs: seq<Event>)
    requires Faultless(l.rs)
    ensures Calls(l, a, evs) == Out(a.(trace := a.trace + evs), ALL_OK)
  {
    RunFaultless(l.rs, a.trace, evs);
  }

  /** With no failing call, set_sdio_mode reaches the mode, with one
      reconfiguration or none, and raises no clock. */
  lemma SetModeFaultless(l: Link, a: Adc, m: Mode)
    requires Faultless(l.rs)
    ensures SetModeSpec(l, a, m) == Out(a.(mode := m, trace := a.trace + Switch(a.mode, m)), ALL_OK)
    ensures Clocks(a.trace + Switch(a.mode, m)) == Clocks(a.trace)
  {
    CallsFaultless(l, a, Switch(a.mode, m));
    ClocksAppend(a.trace, Switch(a.mode, m));
  }

  /** With no failing call, a bit write drives the bit during one clock pulse. */
  lemma BitWriteFaultless(l: Link, a: Adc, bit: int)
    requires Faultless(l.rs)
    ensures BitWriteSpec(l, a, bit)
            == Out(a.(mode := OutputPushPull,
                      trace := a.trace + Switch(a.mode, OutputPushPull) + [Sclk(1), SdioOut(bit), Sclk(0)]),
                   ALL_OK)
  {
    SetModeFaultless(l, a, OutputPushPull);
    CallsFaultless(l, a.(mode := OutputPushPull, trace := a.trace + Switch(a.mode, OutputPushPull)),
                   [Sclk(1), SdioOut(bit), Sclk(0)]);
  }

  /** With no failing call, a bit read is one clock pulse and, when wanted,
      a read of SDIO whose level it returns. */
  lemma BitReadFaultless(l: Link, a: Adc, sample: bool)
    requires Faultless(l.rs)
    ensures var t := a.trace + Switch(a.mode, InputHighZ) + [Sclk(1), Sclk(0)];
            BitReadSpec(l, a, sample)
            == Sampled(Out(a.(mode := InputHighZ, trace := t + (if sample then [SdioIn] else [])), ALL_OK),
                       if sample then Level(l.levels, |t|) else 0)
  {
    SetModeFaultless(l, a, InputHighZ);
    var m := a.(mode := InputHighZ, trace := a.trace + Switch(a.mode, InputHighZ));
    CallsFaultless(l, m, [Sclk(1), Sclk(0)]);
    var t := a.trace + Switch(a.mode, InputHighZ) + [Sclk(1), Sclk(0)];
    if sample {
      assert Reply(l.rs, |t|) == ALL_OK;
    } else {
      assert t + [] == t;
    }
  }

  /** With no failing call, writing bits drives each of them, in order,
      during a clock pulse of its own: one pulse per bit. */
  lemma WriteBitsFaultless(l: Link, a: Adc, bits: seq<int>)
    requires Faultless(l.rs) && bits != []
    ensures var t := a.trace + Switch(a.mode, OutputPushPull) + WriteFrames(bits);
            WriteBitsSpec(l, a, bits) == Out(a.(mode := OutputPushPull, trace := t), ALL_OK)
            && Clocks(t) == Clocks(a.trace) + |bits|
  {
    WriteBitsTrace(l, a, bits);
    SetModeFaultless(l, a, OutputPushPull);
    ClocksAppend(a.trace + Switch(a.mode, OutputPushPull), WriteFrames(bits));
    WriteFramesClocks(bits);
  }

  lemma {:induction false} WriteBitsTrace(l: Link, a: Adc, bits: seq<int>)
    requires Faultless(l.rs) && bits != []
    ensures WriteBitsSpec(l, a, bits)
            == Out(a.(mode := OutputPushPull,
                      trace := a.trace + Switch(a.mode, OutputPushPull) + WriteFrames(bits)), ALL_OK)
    decreases |bits|
  {
    var f := [Sclk(1), SdioOut(bits[0]), Sclk(0)];
    var sw := Switch(a.mode, OutputPushPull);
    var b := a.(mode := OutputPushPull, trace := a.trace + sw + f);
    assert WriteBitsSpec(l, a, bits) == WriteBitsSpec(l, b, bits[1..]) by {
      BitWriteFaultless(l, a, bits[0]);
    }
    assert WriteFrames(bits) == f + WriteFrames(bits[1..]);
    if |bits| == 1 {
      assert WriteFrames(bits[1..]) == [] by {
        assert bits[1..] == [];
      }
      assert f + [] == f;
    } else {
      WriteBitsTrace(l, b, bits[1..]);
      assert b.trace + Switch(b.mode, OutputPushPull) == b.trace;
      SnocAssoc(a.trace + sw, f, WriteFrames(bits[1..]));
    }
  }

  lemma SnocAssoc(t: seq<Event>, u: seq<Event>, v: seq<Event>)
    ensures t + u + v == t + (u + v)
  {
  }

  /** With no failing call, n skipped bits are n clock pulses. */
  lemma SkipBitsFaultless(l: Link, a: Adc, n: nat)
    requires Faultless(l.rs) && n > 0
    ensures var t := a.trace + Switch(a.mode, InputHighZ) + Pulses(n);
            SkipBitsSpec(l, a, n) == Out(a.(mode := InputHighZ, trace := t), ALL_OK)
            && Clocks(t) == Clocks(a.trace) + n
  {
    SkipBitsTrace(l, a, n);
    SetModeFaultless(l, a, InputHighZ);
    ClocksAppend(a.trace + Switch(a.mode, InputHighZ), Pulses(n));
    PulsesClocks(n);
  }

  lemma {:induction false} SkipBitsTrace(l: Link, a: Adc, n: nat)
    requires Faultless(l.rs) && n > 0
    ensures SkipBitsSpec(l, a, n)
            == Out(a.(mode := InputHighZ, trace := a.trace + Switch(a.mode, InputHighZ) + Pulses(n)), ALL_OK)
    decreases n
  {
    BitReadFaultless(l, a, false);
    var sw := Switch(a.mode, InputHighZ);
    var p := [Sclk(1), Sclk(0)];
    var b := a.(mode := InputHighZ, trace := a.trace + sw + p + []);
    assert a.trace + sw + p + [] == a.trace + sw + p;
    if n == 1 {
      assert Pulses(1) == p + Pulses(0);
      assert SkipBitsSpec(l, a, n) == SkipBitsSpec(l, b, 0);
    } else {
      SkipBitsTrace(l, b, n - 1);
      assert a.trace + sw + p + Pulses(n - 1) == a.trace + sw + Pulses(n);
    }
  }

  /** The levels read by n bit reads that start at call i with SDIO already
      an input: each read is the third call of its bit. */
  function Samples(l: Link, i: nat, n: nat): seq<int>
  {
    seq(n, j requires 0 <= j < n => Level(l.levels, i + 3 * j + 2))
  }

  lemma SamplesAreBits(l: Link, i: nat, n: nat)
    ensures IsBits(Samples(l, i, n))
  {
  }

  /** The reading read_data stores from the 24 levels read from call i on. */
  function Reading(l: Link, i: nat): (d: int)
    ensures -0x80_0000 <= d < 0x80_0000
  {
    var bits := Samples(l, i, DATA_BITS);
    SamplesAreBits(l, i, DATA_BITS);
    Pow2Words();
    SignExtendReading(Weigh(bits, DATA_BITS));
    SignExtend24(Weigh(bits, DATA_BITS))
  }

  lemma SamplesCons(l: Link, i: nat, n: nat)
    requires n > 0
    ensures [Level(l.levels, i + 2)] + Samples(l, i + 3, n - 1) == Samples(l, i, n)
  {
    var s, t := Samples(l, i, n), [Level(l.levels, i + 2)] + Samples(l, i + 3, n - 1);
    forall j | 0 <= j < n
      ensures t[j] == s[j]
    {
      if j > 0 {
        assert i + 3 + 3 * (j - 1) + 2 == i + 3 * j + 2;
      }
    }
  }

  /** With no failing call and SDIO an input, n bit reads are n clock pulses
      and return the n levels read, in order. */
  lemma ReadBitsFaultless(l: Link, a: Adc, n: nat)
    requires Faultless(l.rs) && a.mode == InputHighZ
    ensures var t := a.trace + SampleFrames(n);
            ReadBitsSpec(l, a, n) == Word(Out(a.(trace := t), ALL_OK), Samples(l, |a.trace|, n))
            && Clocks(t) == Clocks(a.trace) + n
  {
    ReadBitsTrace(l, a, n);
    ClocksAppend(a.trace, SampleFrames(n));
    SampleFramesClocks(n);
  }

  lemma {:induction false} ReadBitsTrace(l: Link, a: Adc, n: nat)
    requires Faultless(l.rs) && a.mode == InputHighZ
    ensures ReadBitsSpec(l, a, n)
            == Word(Out(a.(trace := a.trace + SampleFrames(n)), ALL_OK), Samples(l, |a.trace|, n))
    decreases n
  {
    if n == 0 {
      assert a.trace + SampleFrames(0) == a.trace;
      assert a.(trace := a.trace) == a;
    } else {
      var f := [Sclk(1), Sclk(0), SdioIn];
      var b := a.(trace := a.trace + f);
      assert BitReadSpec(l, a, true) == Sampled(Out(b, ALL_OK), Level(l.levels, |a.trace| + 2)) by {
        BitReadFaultless(l, a, true);
        assert a.trace + [] + [Sclk(1), Sclk(0)] + [SdioIn] == a.trace + f;
      }
      ReadBitsTrace(l, b, n - 1);
      SnocAssoc(a.trace, f, SampleFrames(n - 1));
      SamplesCons(l, |a.trace|, n);
    }
  }

  /** With no failing call and SDIO an input, read_data clocks 24 bits and
      stores the sign-extended value of the levels read. */
  lemma ReadDataFaultless(l: Link, a: Adc)
    requires Faultless(l.rs) && a.mode == InputHighZ
    ensures ReadDataSpec(l, a)
            == Out(a.(trace := a.trace + SampleFrames(DATA_BITS),
                      lastData := Reading(l, |a.trace|)), ALL_OK)
    ensures Clocks(a.trace + SampleFrames(DATA_BITS)) == Clocks(a.trace) + DATA_BITS
  {
    ReadBitsFaultless(l, a, DATA_BITS);
  }

  /** A successful read_data stores a reading in [-2^23, 2^23): the 24 bits
      read, as a two's complement number. */
  lemma ReadDataRange(l: Link, a: Adc)
    ensures var r := ReadDataSpec(l, a);
            r.adc.cfg == a.cfg && r.adc.changed == a.changed && r.adc.pushed == a.pushed
            && (r.err == ALL_OK ==> -0x80_0000 <= r.adc.lastData < 0x80_0000)
            && (r.err != ALL_OK ==> r.adc.lastData == a.lastData)
  {
    var w := ReadBitsSpec(l, a, DATA_BITS);
    if w.out.err == ALL_OK {
      Pow2Words();
      SignExtendReading(Weigh(w.bits, DATA_BITS));
    }
  }

  /** is_data_ready, with SDIO already an input, reads the pin once: the chip
      is ready exactly when the read succeeds and reads low. */
  lemma ReadyWhenLow(l: Link, a: Adc)
    requires a.mode == InputHighZ
    ensures var r := IsDataReadySpec(l, a);
            r.out == Out(a.(trace := a.trace + [SdioIn]), Reply(l.rs, |a.trace|))
            && (r.ready <==> Reply(l.rs, |a.trace|) == ALL_OK && Level(l.levels, |a.trace|) == 0)
  {
  }

  /** With no failing call, the configuration tail succeeds from SDIO as an
      input, leaves it an input, marks the configuration pushed and raises
      SCLK 19 times: 2 + 7 + 1 + 8 + 1. */
  lemma PushConfigFaultless(l: Link, a: Adc)
    requires Faultless(l.rs) && a.mode == InputHighZ
    ensures var r := PushConfigSpec(l, a);
            r.err == ALL_OK && r.adc.pushed && r.adc.mode == InputHighZ
            && Clocks(r.adc.trace) == Clocks(a.trace) + 19
  {
    var byte := CfgByte(a.cfg) as nat;
    var s1 := SkipBitsSpec(l, a, 2).adc;
    assert s1.mode == InputHighZ && Clocks(s1.trace) == Clocks(a.trace) + 2 by {
      SkipBitsFaultless(l, a, 2);
    }
    var c := WriteBitsSpec(l, s1, MsbFirst(CMD_WRITE, 7)).adc;
    assert c.mode == OutputPushPull && Clocks(c.trace) == Clocks(s1.trace) + 7 by {
      WriteBitsFaultless(l, s1, MsbFirst(CMD_WRITE, 7));
      SetModeFaultless(l, s1, OutputPushPull);
    }
    var s2 := SkipBitsSpec(l, c, 1).adc;
    assert s2.mode == InputHighZ && Clocks(s2.trace) == Clocks(c.trace) + 1 by {
      SkipBitsFaultless(l, c, 1);
      SetModeFaultless(l, c, InputHighZ);
    }
    var b := WriteBitsSpec(l, s2, MsbFirst(byte, 8)).adc;
    assert b.mode == OutputPushPull && Clocks(b.trace) == Clocks(s2.trace) + 8 by {
      WriteBitsFaultless(l, s2, MsbFirst(byte, 8));
      SetModeFaultless(l, s2, OutputPushPull);
    }
    assert SkipBitsSpec(l, b, 1).err == ALL_OK && SkipBitsSpec(l, b, 1).adc.mode == InputHighZ
           && Clocks(SkipBitsSpec(l, b, 1).adc.trace) == Clocks(b.trace) + 1 by {
      SkipBitsFaultless(l, b, 1);
      SetModeFaultless(l, b, InputHighZ);
    }
    SkipBitsFaultless(l, a, 2);
    WriteBitsFaultless(l, s1, MsbFirst(CMD_WRITE, 7));
    SkipBitsFaultless(l, c, 1);
    WriteBitsFaultless(l, s2, MsbFirst(byte, 8));
  }

  /** A transfer refuses, before any call, unless SDIO is an input; and,
      when the ready check reads SDIO high, refuses after that one read. */
  lemma TransferRefuses(l: Link, a: Adc)
    ensures a.mode != InputHighZ ==> TransferSpec(l, a) == Out(a, E_INVALID_OPERATION)
    ensures a.mode == InputHighZ && Reply(l.rs, |a.trace|) == ALL_OK && Level(l.levels, |a.trace|) != 0
            ==> TransferSpec(l, a) == Out(a.(trace := a.trace + [SdioIn]), E_INVALID_OPERATION)
  {
    if a.mode == InputHighZ {
      ReadyWhenLow(l, a);
    }
  }

  /** With no failing call and a ready chip, a transfer succeeds: it stores
      the 24 levels read after the ready check as a signed reading, drops the
      changed flag when the update bit acknowledges a pushed configuration,
      and raises SCLK 27 times, or 46 when it writes the configuration. */
  lemma TransferFaultless(l: Link, a: Adc)
    requires Faultless(l.rs) && a.mode == InputHighZ && Level(l.levels, |a.trace|) == 0
    ensures var r := TransferSpec(l, a);
            r.err == ALL_OK && r.adc.mode == InputHighZ
            && r.adc.lastData == Reading(l, |a.trace| + 1)
            && r.adc.changed == (a.changed && !(Level(l.levels, |a.trace| + 75) == 1 && a.pushed))
            && Clocks(r.adc.trace) == Clocks(a.trace) + (if r.adc.changed then 46 else 27)
  {
    ReadyWhenLow(l, a);
    var a1 := a.(trace := a.trace + [SdioIn]);
    ReadDataFaultless(l, a1);
    var d := ReadDataSpec(l, a1).adc;
    SampleFramesLength(DATA_BITS);
    UpdateBitFaultless(l, d);
    var u := BitReadSpec(l, d, true);
    FinishFaultless(l, u.out.adc, u.level);
    ClocksAppend(a.trace, [SdioIn]);
    assert Clocks([SdioIn]) == 0 by {
      assert [SdioIn][..0] == [];
    }
  }

  /** With no failing call and SDIO an input, the update bit of a transfer
      is one clock pulse and the read of SDIO that follows it. */
  lemma UpdateBitFaultless(l: Link, d: Adc)
    requires Faultless(l.rs) && d.mode == InputHighZ
    ensures var u := BitReadSpec(l, d, true);
            u.out == Out(d.(trace := d.trace + [Sclk(1), Sclk(0), SdioIn]), ALL_OK)
            && u.level == Level(l.levels, |d.trace| + 2)
            && Clocks(u.out.adc.trace) == Clocks(d.trace) + 1
  {
    BitReadFaultless(l, d, true);
    FrameClocks(0);
    assert d.trace + [] + [Sclk(1), Sclk(0)] + [SdioIn] == d.trace + [Sclk(1), Sclk(0), SdioIn];
    ClocksAppend(d.trace, [Sclk(1), Sclk(0), SdioIn]);
  }

  lemma {:induction false} SampleFramesLength(n: nat)
    ensures |SampleFrames(n)| == 3 * n
  {
    if n > 0 {
      SampleFramesLength(n - 1);
    }
  }

  /** The end of a transfer with no failing call from SDIO as an input: it
      succeeds, leaves SDIO an input, and raises SCLK 2 times, or 21 when the
      configuration is still to be written after the acknowledgement. */
  lemma FinishFaultless(l: Link, a: Adc, update: int)
    requires Faultless(l.rs) && a.mode == InputHighZ
    ensures var r := FinishSpec(l, a, update);
            r.err == ALL_OK && r.adc.mode == InputHighZ
            && r.adc.lastData == a.lastData
            && r.adc.changed == (a.changed && !(update == 1 && a.pushed))
            && Clocks(r.adc.trace) == Clocks(a.trace) + (if r.adc.changed then 21 else 2)
  {
    var k0 := Acknowledge(a, update);
    SkipBitsFaultless(l, k0, 2);
    var k := SkipBitsSpec(l, k0, 2);
    if k.adc.changed {
      PushConfigFaultless(l, k.adc);
    }
  }

  /** The handshake keeps "pushed implies changed" whatever the calls
      return, and a transfer that succeeds leaves the two flags equal: the
      configuration is either written and awaiting its acknowledgement, or
      settled. */
  lemma TransferFlags(l: Link, a: Adc)
    requires a.pushed ==> a.changed
    ensures var r := TransferSpec(l, a);
            r.adc.cfg == a.cfg
            && (r.adc.pushed ==> r.adc.changed)
            && (r.err == ALL_OK ==> r.adc.pushed == r.adc.changed)
  {
    if a.mode == InputHighZ {
      var rd := IsDataReadySpec(l, a);
      if rd.out.err == ALL_OK && rd.ready {
        var d := ReadDataSpec(l, rd.out.adc);
        ReadDataRange(l, rd.out.adc);
        if d.err == ALL_OK {
          var u := BitReadSpec(l, d.adc, true);
          if u.out.err == ALL_OK {
            FinishFlags(l, u.out.adc, u.level);
          }
        }
      }
    }
  }

  lemma FinishFlags(l: Link, a: Adc, update: int)
    requires a.pushed ==> a.changed
    ensures var r := FinishSpec(l, a, update);
            r.adc.cfg == a.cfg
            && (r.adc.pushed ==> r.adc.changed)
            && (r.err == ALL_OK ==> r.adc.pushed == r.adc.changed)
  {
  }

  /** After set_config, the next transfer that succeeds writes the new
      configuration: it leaves it pushed and still changed, awaiting the
      acknowledgement of a later update bit. */
  lemma SetConfigThenPush(l: Link, a: Adc, cfg: Config)
    ensures var r := TransferSpec(l, SetConfigSpec(a, cfg));
            r.err == ALL_OK ==> r.adc.cfg == cfg && r.adc.pushed && r.adc.changed
  {
    var b := SetConfigSpec(a, cfg);
    if b.mode == InputHighZ {
      var rd := IsDataReadySpec(l, b);
      if rd.out.err == ALL_OK && rd.ready {
        ReadDataRange(l, rd.out.adc);
      }
    }
  }

  /** init refuses a missing hook and changes nothing then; otherwise it
      takes the configuration and marks it changed whatever the calls return,
      leaves the pushed flag as it was, and with no failing call resets the
      bus twice and leaves SDIO an input and SCLK low. */
  lemma InitFlags(l: Link, hal: Hal, cfg: Config, a: Adc)
    ensures var r := InitSpec(l, hal, cfg, a);
            var complete := hal.sclkSet && hal.sdioSet && hal.sdioGet && hal.sdioReconfig;
            (!complete ==> r == Out(a, E_INVALID_ARGUMENT))
            && (complete ==> r.adc.cfg == cfg && r.adc.changed && r.adc.pushed == a.pushed)
            && (complete && Faultless(l.rs) ==>
                  r.err == ALL_OK && r.adc.mode == InputHighZ
                  && r.adc.trace == a.trace + [Sclk(0), SdioOut(0), Sclk(0), SdioOut(0)]
                                    + Switch(a.mode, InputHighZ) + [Sclk(0)])
  {
    if hal.sclkSet && hal.sdioSet && hal.sdioGet && hal.sdioReconfig && Faultless(l.rs) {
      var a0 := a.(cfg := cfg, changed := true);
      CallsFaultless(l, a0, [Sclk(0), SdioOut(0)]);
      var a1 := a0.(trace := a.trace + [Sclk(0), SdioOut(0)]);
      CallsFaultless(l, a1, [Sclk(0), SdioOut(0)]);
      var a2 := a1.(trace := a1.trace + [Sclk(0), SdioOut(0)]);
      SetModeFaultless(l, a2, InputHighZ);
      var a3 := a2.(mode := InputHighZ, trace := a2.trace + Switch(a.mode, InputHighZ));
      CallsFaultless(l, a3, [Sclk(0)]);
      assert a.trace + [Sclk(0), SdioOut(0)] + [Sclk(0), SdioOut(0)]
             == a.trace + [Sclk(0), SdioOut(0), Sclk(0), SdioOut(0)];
    }
  }

  /** exit_power_down (sclk 0) and enter_power_down (sclk 1) keep the
      configuration and the reading whatever the calls return; with no
      failing call they reset the bus, leave SDIO an input and end on SCLK
      at the requested level. */
  lemma PowerFaultless(l: Link, a: Adc, sclk: int)
    ensures Keeps(a, PowerSpec(l, a, sclk).adc)
    ensures Faultless(l.rs) ==>
              PowerSpec(l, a, sclk)
              == Out(a.(mode := InputHighZ,
                        trace := a.trace + [Sclk(0), SdioOut(0)] + Switch(a.mode, InputHighZ) + [Sclk(sclk)]),
                     ALL_OK)
  {
    RunShape(l.rs, a.trace, [Sclk(0), SdioOut(0)]);
    if Faultless(l.rs) {
      CallsFaultless(l, a, [Sclk(0), SdioOut(0)]);
      var a1 := a.(trace := a.trace + [Sclk(0), SdioOut(0)]);
      SetModeFaultless(l, a1, InputHighZ);
      var a2 := a1.(mode := InputHighZ, trace := a1.trace + Switch(a.mode, InputHighZ));
      CallsFaultless(l, a2, [Sclk(sclk)]);
    }
  }
}
