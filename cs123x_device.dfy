/** The CS1237/CS1238 device record of src/hardware/adc/chipsea/cs123x.c and
    the driver functions that update it, each proved to do what the matching
    specification function of Cs123x says. */
module Cs123xDevice {
  import opened Errors
  import opened Bus
  import opened Cs123x
  import opened Common

  /** cs123x_device_t: the fields the driver reads and writes, and the HAL
      behind it. */
  class Device {
    const port: Port
    var cfg: Config
    var mode: Mode
    var changed: bool
    var pushed: bool
    var lastData: int

    function Link(): Cs123x.Link
    {
      Cs123x.Link(port.replies, port.levels)
    }

    function State(): Adc
      reads this, port
    {
      Adc(cfg, mode, changed, pushed, lastData, port.trace)
    }

    /** A zero-filled record on a HAL: no configuration, SDIO mode unknown. */
    constructor (port: Port)
      ensures this.port == port
      ensures State() == Adc(Config(false, 0, 0, 0), Unknown, false, false, 0, port.trace)
    {
      this.port := port;
      cfg := Config(false, 0, 0, 0);
      mode := Unknown;
      changed := false;
      pushed := false;
      lastData := 0;
    }

    method SetSdioMode(m: Mode) returns (err: int)
      modifies this, port
      ensures Out(State(), err) == SetModeSpec(Link(), old(State()), m)
    {
      if mode == m {
        return ALL_OK;
      }
      err := port.Call(Reconfig(ModeCode(m)));
      if err != ALL_OK {
        return;
      }
      mode := m;
    }

    method ResetBus() returns (err: int)
      modifies port
      ensures Out(State(), err) == ResetBusSpec(Link(), old(State()))
    {
      err := port.Issue([Sclk(0), SdioOut(0)]);
    }

    method BitWrite(bit: int) returns (err: int)
      modifies this, port
      ensures Out(State(), err) == BitWriteSpec(Link(), old(State()), bit)
    {
      err := SetSdioMode(OutputPushPull);
      if err != ALL_OK {
        return;
      }
      err := port.Issue([Sclk(1), SdioOut(bit), Sclk(0)]);
    }

    method BitRead(sample: bool) returns (err: int, level: int)
      modifies this, port
      ensures Sampled(Out(State(), err), level) == BitReadSpec(Link(), old(State()), sample)
    {
      level := 0;
      err := SetSdioMode(InputHighZ);
      if err != ALL_OK {
        return;
      }
      err := port.Issue([Sclk(1), Sclk(0)]);
      if err != ALL_OK || !sample {
        return;
      }
      err, level := port.Sample();
    }

    /** The loop shared by cs123x_bigbang_write_byte (n = 8) and
        cs123x_bitbang_write_command (n = 7): bit n-1-i of x on the i-th
        pulse. */
    method WriteMsbFirst(x: nat, n: nat) returns (err: int)
      modifies this, port
      ensures Out(State(), err) == WriteBitsSpec(Link(), old(State()), MsbFirst(x, n))
    {
      ghost var bits := MsbFirst(x, n);
      var i := 0;
      while i < n
        invariant 0 <= i <= n
        invariant WriteBitsSpec(Link(), old(State()), bits) == WriteBitsSpec(Link(), State(), bits[i..])
      {
        assert bits[i..][1..] == bits[i + 1..];
        err := BitWrite(BitOf(x, n - 1 - i));
        if err != ALL_OK {
          return;
        }
        i := i + 1;
      }
      return ALL_OK;
    }

    method WriteByte(byte: nat) returns (err: int)
      requires byte < 256
      modifies this, port
      ensures Out(State(), err) == WriteBitsSpec(Link(), old(State()), MsbFirst(byte, 8))
    {
      err := WriteMsbFirst(byte, 8);
    }

    method WriteCommand(cmd: nat) returns (err: int)
      requires cmd < 256
      modifies this, port
      ensures Out(State(), err) == WriteBitsSpec(Link(), old(State()), MsbFirst(cmd, 7))
    {
      err := WriteMsbFirst(cmd, 7);
    }

    method SkipBits(n: nat) returns (err: int)
      modifies this, port
      ensures Out(State(), err) == SkipBitsSpec(Link(), old(State()), n)
    {
      var i := 0;
      while i < n
        invariant 0 <= i <= n
        invariant SkipBitsSpec(Link(), old(State()), n) == SkipBitsSpec(Link(), State(), n - i)
      {
        var level;
        err, level := BitRead(false);
        if err != ALL_OK {
          return;
        }
        i := i + 1;
      }
      return ALL_OK;
    }

    /** cs123x_bitbang_read_data: the 24 bit reads, then the sign extension
        of the assembled reading. */
    method ReadData() returns (err: int)
      modifies this, port
      ensures Out(State(), err) == ReadDataSpec(Link(), old(State()))
    {
      var raw;
      ghost var bits;
      err, bits, raw := ReadBits(DATA_BITS);
      if err != ALL_OK {
        ReadDataFails(Link(), old(State()), State(), err, bits);
        return;
      }
      ReadDataEnd(Link(), old(State()), State(), bits);
      lastData := SignExtend24(raw);
    }

    /** The loop of read_data for n bits: each level read is ORed into raw
        at its weight, MSB first, and the loop keeps raw equal to the weight
        of the bits read so far. */
    method ReadBits(n: nat) returns (err: int, ghost bits: seq<int>, raw: int)
      modifies this, port
      ensures Word(Out(State(), err), bits) == ReadBitsSpec(Link(), old(State()), n)
      ensures err == ALL_OK ==> |bits| == n && raw == Weigh(bits, n)
    {
      raw := 0;
      bits := [];
      ghost var whole := ReadBitsSpec(Link(), State(), n);
      var i := 0;
      while i < n
        invariant 0 <= i <= n && |bits| == i && IsBits(bits)
        invariant raw == Weigh(bits, n)
        invariant whole == Prefixed(bits, ReadBitsSpec(Link(), State(), n - i))
      {
        var level;
        err, level, raw := ReadPass(n, i, bits, raw);
        if err != ALL_OK {
          return;
        }
        bits := bits + [level];
        i := i + 1;
      }
      err := ALL_OK;
      assert bits + [] == bits;
    }

    /** One pass of read_data's loop: a bit read, and the level read ORed
        into raw at its weight. */
    method ReadPass(n: nat, i: nat, ghost bits: seq<int>, raw: int) returns (err: int, level: int, raw': int)
      requires i == |bits| < n && IsBits(bits) && raw == Weigh(bits, n)
      modifies this, port
      ensures err != ALL_OK
              ==> Prefixed(bits, ReadBitsSpec(Link(), old(State()), n - |bits|)) == Word(Out(State(), err), bits)
      ensures err == ALL_OK
              ==> Prefixed(bits, ReadBitsSpec(Link(), old(State()), n - |bits|))
                  == Prefixed(bits + [level], ReadBitsSpec(Link(), State(), n - |bits| - 1))
                  && IsBits(bits + [level]) && raw' == Weigh(bits + [level], n)
    {
      ghost var before := State();
      err, level := BitRead(true);
      ReadStep(Link(), before, n - |bits|, bits, Sampled(Out(State(), err), level));
      assert bits + [] == bits;
      WeighSnoc(bits, level, n);
      raw' := raw + level * Pow2(n - 1 - i);
    }

    method IsDataReady() returns (err: int, ready: bool)
      modifies this, port
      ensures Ready(Out(State(), err), ready) == IsDataReadySpec(Link(), old(State()))
    {
      ready := false;
      err := SetSdioMode(InputHighZ);
      if err != ALL_OK {
        return;
      }
      var level;
      err, level := port.Sample();
      if err != ALL_OK {
        return;
      }
      ready := level == 0;
    }

    method Transfer() returns (err: int)
      modifies this, port
      ensures Out(State(), err) == TransferSpec(Link(), old(State()))
    {
      if mode != InputHighZ {
        return E_INVALID_OPERATION;
      }
      var ready;
      err, ready := IsDataReady();
      if err != ALL_OK {
        return;
      }
      if !ready {
        return E_INVALID_OPERATION;
      }
      err := ReadData();
      if err != ALL_OK {
        return;
      }
      var update;
      err, update := BitRead(true);
      if err != ALL_OK {
        return;
      }
      err := Finish(update);
    }

    /** The part of cs123x_bitbang_transfer after the update bit. */
    method Finish(update: int) returns (err: int)
      modifies this, port
      ensures Out(State(), err) == FinishSpec(Link(), old(State()), update)
    {
      if update == 1 && pushed {
        pushed := false;
        changed := false;
      }
      err := SkipBits(2);
      if err != ALL_OK || !changed {
        return;
      }
      err := PushConfig();
    }

    /** The configuration tail of cs123x_bitbang_transfer. */
    method PushConfig() returns (err: int)
      modifies this, port
      ensures Out(State(), err) == PushConfigSpec(Link(), old(State()))
    {
      var byte := CfgByte(cfg) as nat;
      err := SkipBits(2);
      if err != ALL_OK {
        return;
      }
      err := WriteCommand(CMD_WRITE);
      if err != ALL_OK {
        return;
      }
      err := SkipBits(1);
      if err != ALL_OK {
        return;
      }
      err := WriteByte(byte);
      if err != ALL_OK {
        return;
      }
      err := SkipBits(1);
      if err != ALL_OK {
        return;
      }
      pushed := true;
    }

    method SetConfig(c: Config)
      modifies this
      ensures State() == SetConfigSpec(old(State()), c)
    {
      cfg := c;
      changed := true;
      pushed := false;
    }

    method Init(hal: Hal, c: Config) returns (err: int)
      modifies this, port
      ensures Out(State(), err) == InitSpec(Link(), hal, c, old(State()))
    {
      if !(hal.sclkSet && hal.sdioSet && hal.sdioGet && hal.sdioReconfig) {
        return E_INVALID_ARGUMENT;
      }
      cfg := c;
      changed := true;
      err := ResetBus();
      if err != ALL_OK {
        return;
      }
      err := ExitPowerDown();
    }

    method ExitPowerDown() returns (err: int)
      modifies this, port
      ensures Out(State(), err) == PowerSpec(Link(), old(State()), 0)
    {
      err := ResetBus();
      if err != ALL_OK {
        return;
      }
      err := SetSdioMode(InputHighZ);
      if err != ALL_OK {
        return;
      }
      err := port.Call(Sclk(0));
    }

    method EnterPowerDown() returns (err: int)
      modifies this, port
      ensures Out(State(), err) == PowerSpec(Link(), old(State()), 1)
    {
      err := ResetBus();
      if err != ALL_OK {
        return;
      }
      err := SetSdioMode(InputHighZ);
      if err != ALL_OK {
        return;
      }
      err := port.Call(Sclk(1));
    }

    /** cs123x_get_last_data: the reading the last transfer stored. */
    method GetLastData() returns (data: int)
      ensures data == State().lastData
    {
      data := lastData;
    }
  }

  /** read_data after all 24 bits were read: the reading is stored. */
  lemma ReadDataEnd(l: Cs123x.Link, a0: Adc, a: Adc, bits: seq<int>)
    requires |bits| == DATA_BITS && ReadBitsSpec(l, a0, DATA_BITS) == Word(Out(a, ALL_OK), bits)
    ensures ReadDataSpec(l, a0) == Out(a.(lastData := SignExtend24(Weigh(bits, DATA_BITS))), ALL_OK)
  {
  }

  /** read_data after a failed bit read: the failure is returned. */
  lemma ReadDataFails(l: Cs123x.Link, a0: Adc, a: Adc, err: int, bits: seq<int>)
    requires err != ALL_OK && ReadBitsSpec(l, a0, DATA_BITS) == Word(Out(a, err), bits)
    ensures ReadDataSpec(l, a0) == Out(a, err)
  {
  }

  /** The bits read so far in front of the outcome of the reads still to do. */
  function Prefixed(bits: seq<int>, w: Word): Word
  {
    Word(w.out, bits + w.bits)
  }

  /** One bit read of the read_data loop: a failure ends the reads with the
      bits so far, a success adds the level read behind them. */
  lemma ReadStep(l: Cs123x.Link, a: Adc, n: nat, bits: seq<int>, s: Sampled)
    requires n > 0 && s == BitReadSpec(l, a, true)
    ensures s.out.err != ALL_OK ==> Prefixed(bits, ReadBitsSpec(l, a, n)) == Word(s.out, bits + [])
    ensures s.out.err == ALL_OK
            ==> Prefixed(bits, ReadBitsSpec(l, a, n)) == Prefixed(bits + [s.level], ReadBitsSpec(l, s.out.adc, n - 1))
  {
    var w := ReadBitsSpec(l, s.out.adc, n - 1);
    assert bits + ([s.level] + w.bits) == bits + [s.level] + w.bits;
  }
}
