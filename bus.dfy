/** The hardware side of every driver: the function pointers a driver calls
    (bus lock, GPIO pins, SPI or 8080 transfers) as an ordered trace of events.
    Which call fails is not under the driver's control, so it is a parameter:
    the i-th call of a run gets `Reply(replies, i)`, and every call past the end
    of the script succeeds. */
module Bus {
  import opened Errors

  datatype Event =
    | Acquire                       // bus_aquire / spi_aquire
    | Release                       // bus_release / spi_release
    | Dc(level: int)                // data/command select pin
    | Cs(level: int)                // chip select pin
    | Cmd(bytes: seq<int>)          // bytes written as a command (D/C low, or the 8080 command strobe)
    | Write(bytes: seq<int>)        // bytes written as data
    | AsyncStart(size: nat, buf: nat) // start of an asynchronous transfer of `size` pixels from `buf`
    | Sclk(level: int)              // serial clock pin of a bit-banged link
    | SdioOut(level: int)           // bit-banged data pin driven by the host
    | SdioIn                        // bit-banged data pin sampled by the host
    | Reconfig(mode: int)           // data pin switched to another mode

  /** Result of the i-th call of a run. */
  function Reply(rs: seq<int>, i: nat): int
  {
    if i < |rs| then rs[i] else ALL_OK
  }

  /** Level read on the data pin by the i-th call of a run (a bit). */
  function Level(ls: seq<bool>, i: nat): int
  {
    if i < |ls| && ls[i] then 1 else 0
  }

  /** Calls i, i+1, ..., i+n-1 all succeed. */
  ghost predicate OkFrom(rs: seq<int>, i: nat, n: nat)
  {
    forall j | i <= j < i + n :: Reply(rs, j) == ALL_OK
  }

  /** A script in which no call fails. */
  ghost predicate Faultless(rs: seq<int>)
  {
    forall j | 0 <= j < |rs| :: rs[j] == ALL_OK
  }

  datatype Issued = Issued(trace: seq<Event>, err: int)

  /** Issue `evs` in order after `t`, each as a call whose failure is returned
      at once (a chain of CALL_WITH_ERROR_RETURN or CALL_WITH_CODE_GOTO steps). */
  function Run(rs: seq<int>, t: seq<Event>, evs: seq<Event>): (r: Issued)
    decreases |evs|
  {
    if evs == [] then Issued(t, ALL_OK)
    else if Reply(rs, |t|) != ALL_OK then Issued(t + [evs[0]], Reply(rs, |t|))
    else Run(rs, t + [evs[0]], evs[1..])
  }

  /** What a run leaves: success exactly when every call succeeds, and then
      everything issued; otherwise the calls up to and including the one that
      failed, whose result is returned. */
  lemma {:induction false} RunShape(rs: seq<int>, t: seq<Event>, evs: seq<Event>)
    ensures var r := Run(rs, t, evs);
            t <= r.trace
            && (r.err == ALL_OK <==> OkFrom(rs, |t|, |evs|))
            && (r.err == ALL_OK ==> r.trace == t + evs)
            && (r.err != ALL_OK ==>
                  |t| < |r.trace| <= |t| + |evs| && r.trace == t + evs[..|r.trace| - |t|]
                  && r.err == Reply(rs, |r.trace| - 1) && OkFrom(rs, |t|, |r.trace| - |t| - 1))
    decreases |evs|
  {
    if evs != [] && Reply(rs, |t|) == ALL_OK {
      RunShape(rs, t + [evs[0]], evs[1..]);
      var r := Run(rs, t + [evs[0]], evs[1..]);
      assert t + [evs[0]] + evs[1..] == t + evs;
      if r.err != ALL_OK {
        assert (t + [evs[0]]) + evs[1..][..|r.trace| - |t| - 1] == t + evs[..|r.trace| - |t|];
      }
    }
  }

  /** A run of one call records it and returns its result. */
  lemma RunOne(rs: seq<int>, t: seq<Event>, e: Event)
    ensures Run(rs, t, [e]) == Issued(t + [e], Reply(rs, |t|))
  {
    assert [e][1..] == [];
  }

  /** Issuing two lists one after the other is issuing their concatenation. */
  lemma {:induction false} RunAppend(rs: seq<int>, t: seq<Event>, a: seq<Event>, b: seq<Event>)
    ensures Run(rs, t, a + b) ==
            (var r := Run(rs, t, a); if r.err != ALL_OK then r else Run(rs, r.trace, b))
    decreases |a|
  {
    if a == [] {
      assert a + b == b;
    } else if Reply(rs, |t|) != ALL_OK {
      assert (a + b)[0] == a[0];
    } else {
      assert (a + b)[0] == a[0];
      assert (a + b)[1..] == a[1..] + b;
      RunAppend(rs, t + [a[0]], a[1..], b);
    }
  }

  /** With a script that never fails, every list is issued completely. */
  lemma RunFaultless(rs: seq<int>, t: seq<Event>, evs: seq<Event>)
    requires Faultless(rs)
    ensures Run(rs, t, evs) == Issued(t + evs, ALL_OK)
  {
    RunShape(rs, t, evs);
  }

  /** The bus shared by a driver and its device: the trace of calls made so far. */
  class Port {
    var trace: seq<Event>
    const replies: seq<int>
    const levels: seq<bool>

    constructor (replies: seq<int>, levels: seq<bool>)
      ensures trace == [] && this.replies == replies && this.levels == levels
    {
      trace := [];
      this.replies := replies;
      this.levels := levels;
    }

    /** One call: recorded, and answered by the script. */
    method Call(e: Event) returns (err: int)
      modifies this
      ensures trace == old(trace) + [e]
      ensures err == Reply(replies, |old(trace)|)
      ensures Issued(trace, err) == Run(replies, old(trace), [e])
    {
      RunOne(replies, trace, e);
      err := Reply(replies, |trace|);
      trace := trace + [e];
    }

    /** Sample the data pin: the call's result and the level read. */
    method Sample() returns (err: int, level: int)
      modifies this
      ensures trace == old(trace) + [SdioIn]
      ensures err == Reply(replies, |old(trace)|) && level == Level(levels, |old(trace)|)
    {
      err := Reply(replies, |trace|);
      level := Level(levels, |trace|);
      trace := trace + [SdioIn];
    }

    /** Issue a list of calls in order, stopping at the first failure. */
    method Issue(evs: seq<Event>) returns (err: int)
      modifies this
      ensures Issued(trace, err) == Run(replies, old(trace), evs)
    {
      var i := 0;
      err := ALL_OK;
      while i < |evs|
        invariant 0 <= i <= |evs|
        invariant Run(replies, old(trace), evs) == Run(replies, trace, evs[i..])
        invariant err == ALL_OK
      {
        assert evs[i..] == [evs[i]] + evs[i + 1..];
        RunAppend(replies, trace, [evs[i]], evs[i + 1..]);
        err := Call(evs[i]);
        if err != ALL_OK {
          return;
        }
        i := i + 1;
      }
    }
  }

  /** Number of occurrences of the event `e` in a trace. */
  function Count(t: seq<Event>, e: Event): (n: nat)
    ensures n <= |t|
  {
    if t == [] then 0 else (if t[|t| - 1] == e then 1 else 0) + Count(t[..|t| - 1], e)
  }

  /** Number of asynchronous transfers started in a trace. */
  function CountAsyncStarts(t: seq<Event>): (n: nat)
    ensures n <= |t|
  {
    if t == [] then 0 else (if t[|t| - 1].AsyncStart? then 1 else 0) + CountAsyncStarts(t[..|t| - 1])
  }

  /** A trace without `e` counts none of it. */
  lemma {:induction false} NotCounted(t: seq<Event>, e: Event)
    requires e !in t
    ensures Count(t, e) == 0
    decreases |t|
  {
    if t != [] {
      assert t[..|t| - 1] <= t;
      NotCounted(t[..|t| - 1], e);
    }
  }

  /** A trace with no asynchronous start counts none. */
  lemma {:induction false} NoAsyncStarts(t: seq<Event>)
    requires forall i | 0 <= i < |t| :: !t[i].AsyncStart?
    ensures CountAsyncStarts(t) == 0
    decreases |t|
  {
    if t != [] {
      NoAsyncStarts(t[..|t| - 1]);
    }
  }

  lemma {:induction false} CountAppend(a: seq<Event>, b: seq<Event>, e: Event)
    ensures Count(a + b, e) == Count(a, e) + Count(b, e)
    ensures CountAsyncStarts(a + b) == CountAsyncStarts(a) + CountAsyncStarts(b)
    decreases |b|
  {
    if b == [] {
      assert a + b == a;
    } else {
      assert (a + b)[..|a + b| - 1] == a + b[..|b| - 1];
      CountAppend(a, b[..|b| - 1], e);
    }
  }
}
