/** The debug console of src/debug/print.c: a line prefix with the level,
    the file and the function, then the message with each printf conversion
    sent as a string and every bare LF sent as CR LF, character by character
    through a putc hook that the application may replace.

    Strings are the characters before the C terminator. The build options
    are the defaults: no colour, the level, the file's base name and the
    function in the prefix. */
module DebugPrint {
  import opened Common

  const EOF: int := -1

  /** The debug levels of print.h. */
  const DEBUG: int := 0
  const INFO: int := 1
  const WARN: int := 2
  const ERROR: int := 3
  const FATAL: int := 4

  /** translate_level: a five-character tag per level, "UNKNO" for any
      other number. */
  function TranslateLevel(level: int): (s: string)
    ensures |s| == 5
    ensures s == "UNKNO" <==> !(DEBUG <= level <= FATAL)
  {
    if level == DEBUG then "DEBUG"
    else if level == INFO then "INFO "
    else if level == WARN then "WARN "
    else if level == ERROR then "ERROR"
    else if level == FATAL then "FATAL"
    else "UNKNO"
  }

  /** Different levels get different tags. */
  lemma LevelTagsDistinct(a: int, b: int)
    requires DEBUG <= a <= FATAL && DEBUG <= b <= FATAL && a != b
    ensures TranslateLevel(a) != TranslateLevel(b)
  {
    assert TranslateLevel(a)[0] != TranslateLevel(b)[0] || TranslateLevel(a)[1] != TranslateLevel(b)[1];
  }

  // ------------------------------------------------------- format tokens

  /** is_fmt_specifier. */
  predicate IsFmtSpecifier(c: char)
  {
    match c
    case 'd' | 'i' | 'c' | 'u' | 'o' | 'x' | 'X' | 'F' | 'f' | 'E' | 'e' | 'G' | 'g' | 'A' | 'a' | 's' => true
    case _ => false
  }

  /** is_specifier_attr: flags, width and precision characters. */
  predicate IsSpecifierAttr(c: char)
  {
    match c
    case '0' | '1' | '2' | '3' | '4' | '5' | '6' | '7' | '8' | '9' | '.' | '+' | '-' | '#' | '*' => true
    case _ => false
  }

  /** The conversions the console knows are exactly these sixteen letters,
      its attribute characters exactly these fifteen, and no character is
      both: a scan for a conversion can always tell where it stops. */
  lemma TokenClasses(c: char)
    ensures IsFmtSpecifier(c) <==> c in "diucoxXFfEeGgAas"
    ensures IsSpecifierAttr(c) <==> c in "0123456789.+-#*"
    ensures !(IsFmtSpecifier(c) && IsSpecifierAttr(c))
  {
  }

  /** get_fmt_string started at index i: attribute characters are skipped;
      the index just past the first conversion letter, or nothing when some
      other character or the end of the string comes first. */
  function FmtEnd(s: string, i: nat): (r: Option<nat>)
    requires i <= |s|
    ensures r.Some? ==> i < r.value <= |s|
    decreases |s| - i
  {
    if i == |s| then None
    else if IsSpecifierAttr(s[i]) then FmtEnd(s, i + 1)
    else if IsFmtSpecifier(s[i]) then Some(i + 1)
    else None
  }

  /** A conversion found from i ends at e exactly when s[i..e-1] are all
      attribute characters and s[e-1] is a conversion letter. */
  lemma {:induction false} FmtEndMeans(s: string, i: nat, e: nat)
    requires i <= |s|
    ensures FmtEnd(s, i) == Some(e)
            <==> (i < e <= |s| && IsFmtSpecifier(s[e - 1])
                  && forall k | i <= k < e - 1 :: IsSpecifierAttr(s[k]))
    decreases |s| - i
  {
    if i < |s| && IsSpecifierAttr(s[i]) {
      FmtEndMeans(s, i + 1, e);
      TokenClasses(s[i]);
      if i < e <= |s| && IsFmtSpecifier(s[e - 1]) && forall k | i <= k < e - 1 :: IsSpecifierAttr(s[k]) {
        assert e != i + 1;
      }
    }
  }

  /** The letter that ends a conversion is never '%': the '%' arm of
      dbg_print's switch, and its default arm, are never taken. */
  lemma ConversionLetter(s: string, i: nat, e: nat)
    requires i <= |s| && FmtEnd(s, i) == Some(e)
    ensures s[e - 1] != '%' && s[e - 1] in "diucoxXFfEeGgAas"
  {
    FmtEndMeans(s, i, e);
    TokenClasses(s[e - 1]);
  }

  /** get_fmt_string's loop. */
  method GetFmtString(s: string, start: nat) returns (found: bool, end: nat)
    requires start <= |s|
    ensures (if found then Some(end) else None) == FmtEnd(s, start)
  {
    var p := start;
    while p < |s|
      invariant start <= p <= |s|
      invariant FmtEnd(s, start) == FmtEnd(s, p)
    {
      if IsSpecifierAttr(s[p]) {
        p := p + 1;
      } else if IsFmtSpecifier(s[p]) {
        return true, p + 1;
      } else {
        return false, 0;
      }
    }
    return false, 0;
  }

  // ------------------------------------------------- the format buffer

  /** Size of dbg_print's fmt buffer. */
  const FMT_SIZE: nat := 32

  /** The length check dbg_print makes before copying a conversion into fmt:
      it refuses only lengths above 32. */
  predicate FitsAsWritten(len: int)
  {
    len <= FMT_SIZE
  }

  /** The check the buffer needs: room for the terminator too. */
  predicate Fits(len: int)
  {
    len < FMT_SIZE
  }

  /** fmt after `char fmt[32] = {'%', 0}` and the memcpy of the conversion
      s[i+1..e] behind the '%'. */
  function FmtBuffer(s: string, i: nat, e: nat): (buf: seq<char>)
    requires i < e <= |s| && e - i <= FMT_SIZE
    ensures |buf| == FMT_SIZE
  {
    seq(FMT_SIZE, j requires 0 <= j < FMT_SIZE => if j == 0 then '%' else if j < e - i then s[i + j] else '\0')
  }

  /** A C string: some cell holds the terminator. */
  predicate Terminated(buf: seq<char>)
  {
    exists j | 0 <= j < |buf| :: buf[j] == '\0'
  }

  /** As written, a conversion of 32 characters passes the check and fills
      all of fmt, leaving snprintf a format string with no terminator:
      '%', thirty '0' flags and 'd'. */
  lemma FmtBufferAsWrittenUnterminated()
    ensures var s := "%" + seq(30, _ => '0') + "d";
            FmtEnd(s, 1) == Some(32) && FitsAsWritten(32 - 0) && !Terminated(FmtBuffer(s, 0, 32))
  {
    var s := "%" + seq(30, _ => '0') + "d";
    FmtEndMeans(s, 1, 32);
    var buf := FmtBuffer(s, 0, 32);
    forall j | 0 <= j < |buf|
      ensures buf[j] != '\0'
    {
      if j > 0 {
        assert buf[j] == s[j];
      }
    }
  }

  /** With the check tightened to lengths below 32, every accepted
      conversion leaves in fmt the C string '%' followed by it. */
  lemma FmtBufferTerminated(s: string, i: nat, e: nat)
    requires i < |s| && s[i] == '%' && FmtEnd(s, i + 1) == Some(e) && Fits(e - i)
    ensures Terminated(FmtBuffer(s, i, e))
    ensures FmtBuffer(s, i, e)[..e - i] == s[i..e]
  {
    var buf := FmtBuffer(s, i, e);
    assert buf[e - i] == '\0';
  }

  /** The text a conversion sends: a string argument as it is, anything
      else as snprintf leaves it in a 32-byte buffer, at most 31 characters.
      `text` is what the C library's conversion of the argument produces. */
  function Conversion(letter: char, text: string): (out: string)
    ensures letter != 's' ==> |out| <= FMT_SIZE - 1
    ensures out <= text
  {
    if letter == 's' || |text| < FMT_SIZE then text else text[..FMT_SIZE - 1]
  }

  /** The argument of the k-th conversion; missing arguments read as empty. */
  function Arg(args: seq<string>, k: nat): string
  {
    if k < |args| then args[k] else ""
  }

  // ------------------------------------------------------- the console

  /** The installed hooks (true: the application's, false: the default that
      fails every call), last_char, and every character handed to putc. */
  datatype Con = Con(putc: bool, puts: bool, lastChar: char, calls: seq<char>)

  /** A console after a call, with the call's result. */
  datatype Put = Put(con: Con, r: int)

  /** The hooks dbg_print_init is given; false stands for a null pointer. */
  datatype Ops = Ops(putc: bool, puts: bool)

  /** dbg_print_init: both hooks back to the defaults, then each non-null
      one installed. */
  function InitSpec(c: Con, ops: Option<Ops>): (d: Con)
    ensures d.lastChar == c.lastChar && d.calls == c.calls
    ensures d.putc <==> ops.Some? && ops.value.putc
    ensures d.puts <==> ops.Some? && ops.value.puts
  {
    if ops.None? then c.(putc := false, puts := false)
    else c.(putc := ops.value.putc, puts := ops.value.puts)
  }

  /** dbg_putc_warper: record ch as the last character, then call putc. The
      application's putc fails on the calls numbered in `fails`; the default
      one fails always. */
  function PutcSpec(fails: set<nat>, c: Con, ch: char): (p: Put)
    ensures p.con.lastChar == ch && p.con.calls == c.calls + [ch]
    ensures p.r == EOF <==> !c.putc || |c.calls| in fails
  {
    Put(c.(lastChar := ch, calls := c.calls + [ch]), if c.putc && |c.calls| !in fails then ch as int else EOF)
  }

  /** dbg_dev_puts: the characters one by one through dbg_putc_warper,
      stopping at the first failure; the count, or EOF. */
  function DevPutsSpec(fails: set<nat>, c: Con, s: string): (p: Put)
    ensures p.r == EOF || p.r == |s|
    ensures p.con.putc == c.putc && p.con.puts == c.puts
    decreases |s|
  {
    if s == [] then Put(c, 0)
    else
      var p := PutcSpec(fails, c, s[0]);
      if p.r == EOF then p
      else
        var q := DevPutsSpec(fails, p.con, s[1..]);
        Put(q.con, if q.r == EOF then EOF else q.r + 1)
  }

  /** With an application putc that does not fail, dbg_dev_puts sends the
      whole string, counts it, and leaves its last character as last_char. */
  lemma {:induction false} DevPutsWorking(fails: set<nat>, c: Con, s: string)
    requires c.putc && forall i | |c.calls| <= i < |c.calls| + |s| :: i !in fails
    ensures DevPutsSpec(fails, c, s)
            == Put(c.(calls := c.calls + s, lastChar := if s == [] then c.lastChar else s[|s| - 1]), |s|)
    decreases |s|
  {
    if s == [] {
      assert c.calls + s == c.calls;
    } else {
      var p := PutcSpec(fails, c, s[0]);
      DevPutsWorking(fails, p.con, s[1..]);
      assert c.calls + [s[0]] + s[1..] == c.calls + s;
      if |s| > 1 {
        assert s[1..][|s[1..]| - 1] == s[|s| - 1];
      }
    }
  }

  /** When the application putc first fails on character j, dbg_dev_puts
      returns EOF and the output stops at that character. */
  lemma {:induction false} DevPutsStopsAtFailure(fails: set<nat>, c: Con, s: string, j: nat)
    requires c.putc && j < |s| && |c.calls| + j in fails
    requires forall i | |c.calls| <= i < |c.calls| + j :: i !in fails
    ensures DevPutsSpec(fails, c, s) == Put(c.(calls := c.calls + s[..j + 1], lastChar := s[j]), EOF)
    decreases j
  {
    if j > 0 {
      var p := PutcSpec(fails, c, s[0]);
      DevPutsStopsAtFailure(fails, p.con, s[1..], j - 1);
      assert c.calls + [s[0]] + s[1..][..j] == c.calls + s[..j + 1];
    }
  }

  /** With the default putc, dbg_dev_puts gives up after the first
      character. */
  lemma DevPutsDefault(fails: set<nat>, c: Con, s: string)
    requires !c.putc && s != []
    ensures DevPutsSpec(fails, c, s) == Put(c.(calls := c.calls + [s[0]], lastChar := s[0]), EOF)
  {
  }

  // ----------------------------------------------------------- the prefix

  /** The index strrchr finds: the last occurrence of ch. */
  function StrRChr(s: string, ch: char): (r: Option<nat>)
    ensures r.Some? ==> r.value < |s| && s[r.value] == ch && ch !in s[r.value + 1..]
    ensures r.None? ==> ch !in s
  {
    if s == [] then None
    else if s[|s| - 1] == ch then Some(|s| - 1)
    else
      var r := StrRChr(s[..|s| - 1], ch);
      assert s == s[..|s| - 1] + [s[|s| - 1]];
      if r.Some? then
        assert s[r.value + 1..] == s[..|s| - 1][r.value + 1..] + [s[|s| - 1]];
        r
      else r
  }

  /** The pointer comparison `nix > win` of dbg_print, a null pointer
      comparing below every other. */
  predicate Later(a: Option<nat>, b: Option<nat>)
  {
    a.Some? && (b.None? || a.value > b.value)
  }

  /** The file name dbg_print shows: what follows the last '/' or '\',
      or the whole location when it has neither. */
  function Basename(location: string): (b: string)
    ensures |b| <= |location| && b == location[|location| - |b|..]
    ensures '/' !in b && '\\' !in b
    ensures |b| < |location| ==> location[|location| - |b| - 1] in "/\\"
  {
    var nix := StrRChr(location, '/');
    var win := StrRChr(location, '\\');
    var last := if Later(nix, win) then nix else win;
    if last.None? then location else location[last.value + 1..]
  }

  /** The nine strings of the prefix, each sent with dbg_dev_puts. */
  function PrefixPieces(level: int, location: string, function_: string): seq<string>
  {
    ["[", TranslateLevel(level), "] ", "[", Basename(location), "] ", "[", function_, "] "]
  }

  /** dbg_dev_puts on each string in turn, whatever each returns. */
  function PutsAll(fails: set<nat>, c: Con, pieces: seq<string>): (d: Con)
    ensures d.putc == c.putc && d.puts == c.puts
    decreases |pieces|
  {
    if pieces == [] then c else PutsAll(fails, DevPutsSpec(fails, c, pieces[0]).con, pieces[1..])
  }

  /** With a putc that does not fail, the strings go out whole, one after
      the other. */
  lemma {:induction false} PutsAllWorking(c: Con, pieces: seq<string>)
    requires c.putc
    ensures PutsAll({}, c, pieces).calls == c.calls + Concat(pieces)
    decreases |pieces|
  {
    if pieces == [] {
      assert c.calls + [] == c.calls;
    } else {
      DevPutsWorking({}, c, pieces[0]);
      var d := DevPutsSpec({}, c, pieces[0]).con;
      PutsAllWorking(d, pieces[1..]);
      assert c.calls + pieces[0] + Concat(pieces[1..]) == c.calls + Concat(pieces);
    }
  }

  // ------------------------------------------------------- the message

  /** The emission loop of dbg_print from index i with k arguments used:
      a conversion goes out with dbg_dev_puts, a '%' that starts none (or
      one too long for fmt) goes out as itself, an LF not preceded by CR
      in the message gets a CR first, anything else goes out as itself. */
  function EmitFrom(fails: set<nat>, c: Con, msg: string, args: seq<string>, i: nat, k: nat): (d: Con)
    requires i <= |msg|
    ensures d.putc == c.putc && d.puts == c.puts
    decreases |msg| - i
  {
    if i == |msg| then c
    else if msg[i] == '%' then
      var e := FmtEnd(msg, i + 1);
      if e.Some? && FitsAsWritten(e.value - i) then
        var out := Conversion(msg[e.value - 1], Arg(args, k));
        EmitFrom(fails, DevPutsSpec(fails, c, out).con, msg, args, e.value, k + 1)
      else EmitFrom(fails, PutcSpec(fails, c, '%').con, msg, args, i + 1, k)
    else EmitFrom(fails, CharStep(fails, c, msg, i), msg, args, i + 1, k)
  }

  /** The emission of a character other than '%' is the character's step
      and then the rest. */
  lemma EmitChar(fails: set<nat>, c: Con, msg: string, args: seq<string>, i: nat, k: nat)
    requires i < |msg| && msg[i] != '%'
    ensures EmitFrom(fails, c, msg, args, i, k) == EmitFrom(fails, CharStep(fails, c, msg, i), msg, args, i + 1, k)
  {
  }

  /** A '%' that starts a conversion passing the length check: the
      conversion goes out and emission resumes after it. */
  lemma EmitConversion(fails: set<nat>, c: Con, msg: string, args: seq<string>, i: nat, k: nat, e: nat)
    requires i < |msg| && msg[i] == '%' && FmtEnd(msg, i + 1) == Some(e) && FitsAsWritten(e - i)
    ensures EmitFrom(fails, c, msg, args, i, k)
            == EmitFrom(fails, DevPutsSpec(fails, c, Conversion(msg[e - 1], Arg(args, k))).con, msg, args, e, k + 1)
  {
  }

  /** A '%' that starts no conversion (or one too long for fmt) goes out as
      itself. */
  lemma EmitLiteralPercent(fails: set<nat>, c: Con, msg: string, args: seq<string>, i: nat, k: nat)
    requires i < |msg| && msg[i] == '%'
    requires FmtEnd(msg, i + 1).None? || !FitsAsWritten(FmtEnd(msg, i + 1).value - i)
    ensures EmitFrom(fails, c, msg, args, i, k) == EmitFrom(fails, PutcSpec(fails, c, '%').con, msg, args, i + 1, k)
  {
  }

  /** One character of the message other than '%': a CR first for an LF
      that does not follow a CR in the message, then the character. What
      goes to putc is the rewriting's chunk for that character. */
  function CharStep(fails: set<nat>, c: Con, msg: string, i: nat): (d: Con)
    requires i < |msg| && msg[i] != '%'
    ensures d.calls == c.calls + CrlfChunk(msg, i) && d.lastChar == msg[i]
    ensures d.putc == c.putc && d.puts == c.puts
  {
    if msg[i] == '\n' then
      var c1 := if i == 0 || msg[i - 1] != '\r' then PutcSpec(fails, c, '\r').con else c;
      PutcSpec(fails, c1, '\n').con
    else PutcSpec(fails, c, msg[i]).con
  }

  /** The reference rewriting of line ends: each LF of the message that does
      not follow a CR becomes CR LF. */
  function CrlfFrom(msg: string, i: nat): string
    requires i <= |msg|
    decreases |msg| - i
  {
    if i == |msg| then [] else CrlfChunk(msg, i) + CrlfFrom(msg, i + 1)
  }

  function CrlfChunk(msg: string, i: nat): string
    requires i < |msg|
  {
    if msg[i] == '\n' && (i == 0 || msg[i - 1] != '\r') then "\r\n" else [msg[i]]
  }

  function Crlf(msg: string): string
  {
    CrlfFrom(msg, 0)
  }

  /** A message without '%' goes out as its CR LF rewriting, whether putc
      fails or not: dbg_print ignores putc's result. */
  lemma {:induction false} EmitPlain(fails: set<nat>, c: Con, msg: string, args: seq<string>, i: nat, k: nat)
    requires i <= |msg| && forall j | i <= j < |msg| :: msg[j] != '%'
    ensures EmitFrom(fails, c, msg, args, i, k).calls == c.calls + CrlfFrom(msg, i)
    decreases |msg| - i
  {
    if i == |msg| {
      assert c.calls + [] == c.calls;
    } else {
      var d := CharStep(fails, c, msg, i);
      var rest := EmitFrom(fails, d, msg, args, i + 1, k);
      assert EmitFrom(fails, c, msg, args, i, k) == rest by {
        EmitChar(fails, c, msg, args, i, k);
      }
      assert rest.calls == d.calls + CrlfFrom(msg, i + 1) by {
        EmitPlain(fails, d, msg, args, i + 1, k);
      }
      assert CrlfFrom(msg, i) == CrlfChunk(msg, i) + CrlfFrom(msg, i + 1);
      assert c.calls + CrlfChunk(msg, i) + CrlfFrom(msg, i + 1) == c.calls + CrlfFrom(msg, i);
    }
  }

  /** After the rewriting every LF has a CR right before it. */
  predicate LinesEndCrlf(s: string)
  {
    forall p | 0 <= p < |s| && s[p] == '\n' :: p > 0 && s[p - 1] == '\r'
  }

  /** Every LF of t follows a CR, or opens t when `lead` says a CR comes
      right before t. */
  predicate CrBefore(t: string, lead: bool)
  {
    forall p | 0 <= p < |t| && t[p] == '\n' :: (p > 0 && t[p - 1] == '\r') || (p == 0 && lead)
  }

  lemma {:induction false} CrlfFromNewlines(msg: string, i: nat)
    requires i <= |msg|
    ensures CrBefore(CrlfFrom(msg, i), i > 0 && msg[i - 1] == '\r')
    decreases |msg| - i
  {
    if i < |msg| {
      CrlfFromNewlines(msg, i + 1);
      var h := CrlfChunk(msg, i);
      var t := CrlfFrom(msg, i + 1);
      assert CrBefore(t, msg[i] == '\r');
      assert CrlfFrom(msg, i) == h + t;
      forall p | 0 <= p < |h + t| && (h + t)[p] == '\n'
        ensures (p > 0 && (h + t)[p - 1] == '\r') || (p == 0 && i > 0 && msg[i - 1] == '\r')
      {
        if p < |h| {
          assert (h + t)[p] == h[p];
          if msg[i] == '\n' && (i == 0 || msg[i - 1] != '\r') {
            assert h == "\r\n" && p == 1;
            assert (h + t)[0] == '\r';
          } else {
            assert h == [msg[i]] && p == 0;
          }
        } else {
          var q := p - |h|;
          assert t[q] == (h + t)[p] == '\n';
          if q > 0 {
            assert t[q - 1] == '\r';
            assert (h + t)[p - 1] == t[q - 1];
          } else {
            assert msg[i] == '\r';
            assert h == [msg[i]];
            assert (h + t)[p - 1] == h[0];
          }
        }
      }
    }
  }

  lemma CrlfNewlines(msg: string)
    ensures LinesEndCrlf(Crlf(msg))
  {
    CrlfFromNewlines(msg, 0);
    assert Crlf(msg) == CrlfFrom(msg, 0);
  }

  /** A text whose LFs all follow a CR is left as it is. */
  lemma {:induction false} CrlfFromKeeps(s: string, i: nat)
    requires i <= |s| && LinesEndCrlf(s)
    ensures CrlfFrom(s, i) == s[i..]
    decreases |s| - i
  {
    if i < |s| {
      CrlfFromKeeps(s, i + 1);
      assert s[i..] == [s[i]] + s[i + 1..];
    }
  }

  /** The rewriting is idempotent. */
  lemma CrlfIdempotent(msg: string)
    ensures Crlf(Crlf(msg)) == Crlf(msg)
  {
    CrlfNewlines(msg);
    CrlfFromKeeps(Crlf(msg), 0);
  }

  /** "100%%" goes out as "100%%": the second '%' starts no conversion, so
      each goes out as itself. */
  lemma PercentPercent(fails: set<nat>, c: Con, args: seq<string>)
    ensures EmitFrom(fails, c, "100%%", args, 0, 0).calls == c.calls + "100%%"
  {
    var m := "100%%";
    assert FmtEnd(m, 4) == None;
    assert FmtEnd(m, 5) == None;
    assert c.calls + ['1'] + ['0'] + ['0'] + ['%'] + ['%'] == c.calls + m;
  }

  /** A message ending in LF leaves LF as last_char, so the next message
      starts with the prefix. */
  lemma {:induction false} EmitEndsLine(fails: set<nat>, c: Con, msg: string, args: seq<string>, i: nat, k: nat)
    requires i < |msg| && msg[|msg| - 1] == '\n'
    ensures EmitFrom(fails, c, msg, args, i, k).lastChar == '\n'
    decreases |msg| - i
  {
    if msg[i] == '%' {
      var e := FmtEnd(msg, i + 1);
      if e.Some? && FitsAsWritten(e.value - i) {
        var d := DevPutsSpec(fails, c, Conversion(msg[e.value - 1], Arg(args, k))).con;
        assert EmitFrom(fails, c, msg, args, i, k) == EmitFrom(fails, d, msg, args, e.value, k + 1) by {
          EmitConversion(fails, c, msg, args, i, k, e.value);
        }
        assert e.value < |msg| by {
          ConversionLetter(msg, i + 1, e.value);
        }
        EmitEndsLine(fails, d, msg, args, e.value, k + 1);
      } else {
        var d := PutcSpec(fails, c, '%').con;
        assert EmitFrom(fails, c, msg, args, i, k) == EmitFrom(fails, d, msg, args, i + 1, k) by {
          EmitLiteralPercent(fails, c, msg, args, i, k);
        }
        EmitEndsLine(fails, d, msg, args, i + 1, k);
      }
    } else {
      var d := CharStep(fails, c, msg, i);
      assert EmitFrom(fails, c, msg, args, i, k) == EmitFrom(fails, d, msg, args, i + 1, k) by {
        EmitChar(fails, c, msg, args, i, k);
      }
      if i + 1 < |msg| {
        EmitEndsLine(fails, d, msg, args, i + 1, k);
      }
    }
  }

  /** dbg_print: the prefix when the last character sent ended a line (or
      nothing was sent yet), then the message. */
  function PrintSpec(fails: set<nat>, c: Con, level: int, location: string, function_: string,
                     msg: string, args: seq<string>): Con
  {
    var c1 := if c.lastChar == '\n' || c.lastChar == '\0'
              then PutsAll(fails, c, PrefixPieces(level, location, function_)) else c;
    EmitFrom(fails, c1, msg, args, 0, 0)
  }

  /** In the middle of a line a plain message goes out as its CR LF
      rewriting, with no prefix. */
  lemma PrintContinuesLine(fails: set<nat>, c: Con, level: int, location: string, function_: string,
                           msg: string, args: seq<string>)
    requires c.lastChar != '\n' && c.lastChar != '\0' && '%' !in msg
    ensures PrintSpec(fails, c, level, location, function_, msg, args).calls == c.calls + Crlf(msg)
  {
    EmitPlain(fails, c, msg, args, 0, 0);
  }

  /** At the start of a line, with an application putc that does not fail,
      a plain message goes out as "[LEVEL] [file] [function] " and its CR LF
      rewriting. */
  lemma PrintStartsLine(c: Con, level: int, location: string, function_: string, msg: string, args: seq<string>)
    requires c.putc && (c.lastChar == '\n' || c.lastChar == '\0') && '%' !in msg
    ensures PrintSpec({}, c, level, location, function_, msg, args).calls
            == c.calls + Concat(PrefixPieces(level, location, function_)) + Crlf(msg)
  {
    var pieces := PrefixPieces(level, location, function_);
    PutsAllWorking(c, pieces);
    EmitPlain({}, PutsAll({}, c, pieces), msg, args, 0, 0);
  }

  /** A message ending in LF is followed by a prefixed message. */
  lemma PrintEndsLine(fails: set<nat>, c: Con, level: int, location: string, function_: string,
                      msg: string, args: seq<string>)
    requires msg != [] && msg[|msg| - 1] == '\n'
    ensures PrintSpec(fails, c, level, location, function_, msg, args).lastChar == '\n'
  {
    var c1 := if c.lastChar == '\n' || c.lastChar == '\0'
              then PutsAll(fails, c, PrefixPieces(level, location, function_)) else c;
    EmitEndsLine(fails, c1, msg, args, 0, 0);
  }

  // -------------------------------------------------- the rendered text

  /** The text a message stands for, from index i with k arguments used:
      each conversion replaced by its text, a '%' that starts none (or one
      longer than 32 characters) kept, every bare LF written CR LF. */
  function Render(msg: string, args: seq<string>, i: nat, k: nat): string
    requires i <= |msg|
    decreases |msg| - i
  {
    if i == |msg| then []
    else if msg[i] == '%' then
      var e := FmtEnd(msg, i + 1);
      if e.Some? && FitsAsWritten(e.value - i)
      then Conversion(msg[e.value - 1], Arg(args, k)) + Render(msg, args, e.value, k + 1)
      else "%" + Render(msg, args, i + 1, k)
    else CrlfChunk(msg, i) + Render(msg, args, i + 1, k)
  }

  /** Without a '%' the rendered text is the CR LF rewriting. */
  lemma {:induction false} RenderPlain(msg: string, args: seq<string>, i: nat, k: nat)
    requires i <= |msg| && forall j | i <= j < |msg| :: msg[j] != '%'
    ensures Render(msg, args, i, k) == CrlfFrom(msg, i)
    decreases |msg| - i
  {
    if i < |msg| {
      RenderPlain(msg, args, i + 1, k);
    }
  }

  /** Conversions take the arguments in order and a string argument goes
      out whole, even behind a 30-character run of flags: "x=%d\n" with "5"
      is "x=5\r\n", "%s and %s" with "a" and "b" is "a and b", and "%"
      with thirty '0' flags and 's' is its argument. */
  lemma RenderExamples()
    ensures Render("x=%d\n", ["5"], 0, 0) == "x=5\r\n"
    ensures Render("%s and %s", ["a", "b"], 0, 0) == "a and b"
    ensures Render("%" + seq(30, _ => '0') + "s", ["ab"], 0, 0) == "ab"
  {
    RenderNewline();
    RenderTwoStrings();
    RenderLongConversion();
  }

  lemma RenderNewline()
    ensures Render("x=%d\n", ["5"], 0, 0) == "x=5\r\n"
  {
    assert FmtEnd("x=%d\n", 3) == Some(4);
  }

  lemma RenderTwoStrings()
    ensures Render("%s and %s", ["a", "b"], 0, 0) == "a and b"
  {
    var m := "%s and %s";
    assert FmtEnd(m, 1) == Some(2);
    assert FmtEnd(m, 8) == Some(9);
    assert Render(m, ["a", "b"], 7, 1) == "b";
    assert Render(m, ["a", "b"], 2, 1) == " and b";
  }

  lemma RenderLongConversion()
    ensures Render("%" + seq(30, _ => '0') + "s", ["ab"], 0, 0) == "ab"
  {
    FmtEndMeans("%" + seq(30, _ => '0') + "s", 1, 32);
  }

  /** With a putc that does not fail, the emission loop sends exactly the
      rendered text: every conversion's text in full, in message order. */
  lemma {:induction false} EmitRenders(c: Con, msg: string, args: seq<string>, i: nat, k: nat)
    requires c.putc && i <= |msg|
    ensures EmitFrom({}, c, msg, args, i, k).calls == c.calls + Render(msg, args, i, k)
    decreases |msg| - i
  {
    if i == |msg| {
      assert c.calls + [] == c.calls;
    } else {
      var d, j, k', piece := EmitStep(c, msg, args, i, k);
      EmitRenders(d, msg, args, j, k');
      Glue(EmitFrom({}, c, msg, args, i, k).calls, c.calls, d.calls, piece, Render(msg, args, j, k'),
           Render(msg, args, i, k));
    }
  }

  lemma Glue(calls: seq<char>, before: seq<char>, middle: seq<char>, piece: seq<char>, rest: seq<char>, whole: seq<char>)
    requires middle == before + piece && calls == middle + rest && whole == piece + rest
    ensures calls == before + whole
  {
  }

  /** One pass of the emission loop with a putc that does not fail sends the
      piece of text the rendering starts with. */
  lemma EmitStep(c: Con, msg: string, args: seq<string>, i: nat, k: nat)
    returns (d: Con, j: nat, k': nat, piece: string)
    requires c.putc && i < |msg|
    ensures i < j <= |msg| && d.putc && d.calls == c.calls + piece
    ensures EmitFrom({}, c, msg, args, i, k) == EmitFrom({}, d, msg, args, j, k')
    ensures Render(msg, args, i, k) == piece + Render(msg, args, j, k')
  {
    if msg[i] == '%' {
      var e := FmtEnd(msg, i + 1);
      if e.Some? && FitsAsWritten(e.value - i) {
        piece := Conversion(msg[e.value - 1], Arg(args, k));
        d, j, k' := DevPutsSpec({}, c, piece).con, e.value, k + 1;
        assert d.putc && d.calls == c.calls + piece by {
          DevPutsWorking({}, c, piece);
        }
        assert Render(msg, args, i, k) == piece + Render(msg, args, j, k') by {
          RenderConversion(msg, args, i, k, e.value);
        }
        assert EmitFrom({}, c, msg, args, i, k) == EmitFrom({}, d, msg, args, j, k') by {
          EmitConversion({}, c, msg, args, i, k, e.value);
        }
      } else {
        piece := "%";
        d, j, k' := PutcSpec({}, c, '%').con, i + 1, k;
        assert Render(msg, args, i, k) == piece + Render(msg, args, j, k') by {
          RenderLiteralPercent(msg, args, i, k);
        }
        assert EmitFrom({}, c, msg, args, i, k) == EmitFrom({}, d, msg, args, j, k') by {
          EmitLiteralPercent({}, c, msg, args, i, k);
        }
      }
    } else {
      piece := CrlfChunk(msg, i);
      d, j, k' := CharStep({}, c, msg, i), i + 1, k;
      assert Render(msg, args, i, k) == piece + Render(msg, args, j, k') by {
        RenderChar(msg, args, i, k);
      }
      assert EmitFrom({}, c, msg, args, i, k) == EmitFrom({}, d, msg, args, j, k') by {
        EmitChar({}, c, msg, args, i, k);
      }
    }
  }

  lemma RenderConversion(msg: string, args: seq<string>, i: nat, k: nat, e: nat)
    requires i < |msg| && msg[i] == '%' && FmtEnd(msg, i + 1) == Some(e) && FitsAsWritten(e - i)
    ensures Render(msg, args, i, k) == Conversion(msg[e - 1], Arg(args, k)) + Render(msg, args, e, k + 1)
  {
  }

  lemma RenderLiteralPercent(msg: string, args: seq<string>, i: nat, k: nat)
    requires i < |msg| && msg[i] == '%'
    requires FmtEnd(msg, i + 1).None? || !FitsAsWritten(FmtEnd(msg, i + 1).value - i)
    ensures Render(msg, args, i, k) == "%" + Render(msg, args, i + 1, k)
  {
    var e := FmtEnd(msg, i + 1);
    assert !(e.Some? && FitsAsWritten(e.value - i));
  }

  lemma RenderChar(msg: string, args: seq<string>, i: nat, k: nat)
    requires i < |msg| && msg[i] != '%'
    ensures Render(msg, args, i, k) == CrlfChunk(msg, i) + Render(msg, args, i + 1, k)
  {
  }

  /** dbg_print with a putc that does not fail: the prefix at the start of a
      line, then the rendered message. */
  lemma PrintRenders(c: Con, level: int, location: string, function_: string, msg: string, args: seq<string>)
    requires c.putc
    ensures PrintSpec({}, c, level, location, function_, msg, args).calls
            == c.calls + (if c.lastChar == '\n' || c.lastChar == '\0' then Concat(PrefixPieces(level, location, function_)) else [])
               + Render(msg, args, 0, 0)
  {
    var pieces := PrefixPieces(level, location, function_);
    if c.lastChar == '\n' || c.lastChar == '\0' {
      PutsAllWorking(c, pieces);
      EmitRenders(PutsAll({}, c, pieces), msg, args, 0, 0);
    } else {
      EmitRenders(c, msg, args, 0, 0);
      assert c.calls + [] == c.calls;
    }
  }

  // ------------------------------------------------------ the console state

  /** dbg_dev_ops and last_char, with the record of putc calls. */
  class Console {
    var putc: bool
    var puts: bool
    var lastChar: char
    var calls: seq<char>
    const fails: set<nat>

    function State(): Con
      reads this
    {
      Con(putc, puts, lastChar, calls)
    }

    /** The statics at start-up: default hooks, last_char 0. */
    constructor (fails: set<nat>)
      ensures this.fails == fails && State() == Con(false, false, '\0', [])
    {
      this.fails := fails;
      putc := false;
      puts := false;
      lastChar := '\0';
      calls := [];
    }

    method Init(ops: Option<Ops>)
      modifies this
      ensures State() == InitSpec(old(State()), ops)
    {
      putc := false;
      puts := false;
      if ops.None? {
        return;
      }
      if ops.value.putc {
        putc := true;
      }
      if ops.value.puts {
        puts := true;
      }
    }

    /** dbg_putc_warper. */
    method Putc(ch: char) returns (r: int)
      modifies this
      ensures Put(State(), r) == PutcSpec(fails, old(State()), ch)
    {
      r := if putc && |calls| !in fails then ch as int else EOF;
      lastChar := ch;
      calls := calls + [ch];
    }

    /** dbg_dev_puts. */
    method DevPuts(s: string) returns (r: int)
      modifies this
      ensures Put(State(), r) == DevPutsSpec(fails, old(State()), s)
    {
      var i := 0;
      while i < |s|
        invariant 0 <= i <= |s|
        invariant DevPutsSpec(fails, old(State()), s) == Plus(DevPutsSpec(fails, State(), s[i..]), i)
      {
        assert s[i..][1..] == s[i + 1..];
        r := Putc(s[i]);
        if r == EOF {
          return EOF;
        }
        i := i + 1;
      }
      return i;
    }

    /** dbg_print, with the texts of its conversions given. */
    method Print(level: int, location: string, function_: string, msg: string, args: seq<string>)
      modifies this
      ensures State() == PrintSpec(fails, old(State()), level, location, function_, msg, args)
    {
      if lastChar == '\n' || lastChar == '\0' {
        PutsPrefix(level, location, function_);
      }
      ghost var c1 := State();
      var i, k := 0, 0;
      while i < |msg|
        invariant 0 <= i <= |msg|
        invariant EmitFrom(fails, c1, msg, args, 0, 0) == EmitFrom(fails, State(), msg, args, i, k)
      {
        i, k := EmitPass(msg, args, i, k);
      }
    }

    /** One pass of dbg_print's emission loop: a conversion, a literal '%',
        or one character. */
    method EmitPass(msg: string, args: seq<string>, i: nat, k: nat) returns (i': nat, k': nat)
      requires i < |msg|
      modifies this
      ensures i < i' <= |msg|
      ensures EmitFrom(fails, old(State()), msg, args, i, k) == EmitFrom(fails, State(), msg, args, i', k')
    {
      var ignored;
      if msg[i] == '%' {
        var found, e := GetFmtString(msg, i + 1);
        if found && FitsAsWritten(e - i) {
          ignored := DevPuts(Conversion(msg[e - 1], Arg(args, k)));
          return e, k + 1;
        }
        ignored := Putc('%');
        return i + 1, k;
      }
      EmitChar(fails, State(), msg, args, i, k);
      if msg[i] == '\n' {
        if i == 0 || msg[i - 1] != '\r' {
          ignored := Putc('\r');
        }
        ignored := Putc('\n');
      } else {
        ignored := Putc(msg[i]);
      }
      return i + 1, k;
    }

    /** The nine dbg_dev_puts calls of the prefix, one piece at a time. */
    method PutsPrefix(level: int, location: string, function_: string)
      modifies this
      ensures State() == PutsAll(fails, old(State()), PrefixPieces(level, location, function_))
    {
      PutsEach(PrefixPieces(level, location, function_));
    }

    /** dbg_dev_puts on each string in turn, ignoring the results. */
    method PutsEach(ps: seq<string>)
      modifies this
      ensures State() == PutsAll(fails, old(State()), ps)
    {
      ghost var c0 := State();
      assert ps[..0] == [];
      for j := 0 to |ps|
        invariant State() == PutsAll(fails, c0, ps[..j])
      {
        ghost var before := State();
        var ignored := DevPuts(ps[j]);
        PrefixStep(fails, c0, ps, j, before, State());
      }
      assert ps[..|ps|] == ps;
    }
  }

  /** The outcome of the rest of a string, after n characters already
      counted. */
  function Plus(p: Put, n: nat): Put
  {
    Put(p.con, if p.r == EOF then EOF else p.r + n)
  }

  lemma {:induction false} PutsAllSnoc(fails: set<nat>, c: Con, ps: seq<string>, s: string)
    ensures PutsAll(fails, c, ps + [s]) == DevPutsSpec(fails, PutsAll(fails, c, ps), s).con
    decreases |ps|
  {
    if ps == [] {
      assert ([] + [s])[1..] == [];
    } else {
      assert (ps + [s])[1..] == ps[1..] + [s];
      PutsAllSnoc(fails, DevPutsSpec(fails, c, ps[0]).con, ps[1..], s);
    }
  }

  /** One more string of the prefix sent. */
  lemma PrefixStep(fails: set<nat>, c0: Con, ps: seq<string>, j: nat, before: Con, after: Con)
    requires j < |ps| && before == PutsAll(fails, c0, ps[..j]) && after == DevPutsSpec(fails, before, ps[j]).con
    ensures after == PutsAll(fails, c0, ps[..j + 1])
  {
    PutsAllSnoc(fails, c0, ps[..j], ps[j]);
    assert ps[..j + 1] == ps[..j] + [ps[j]];
  }
}
