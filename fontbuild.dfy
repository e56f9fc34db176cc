/** The text side of tools/fontbuild/fontbuild.py: which characters a font
    is built for, how a code point is written in the lookup table, how a
    file name becomes a C identifier, and how the command line is wrapped
    into the generated header. Characters are Unicode scalar values, as
    Python's str holds them; the ordering of chars is the ordering of
    their code points, as Python's str comparison is for single
    characters. */
module FontBuild {
  import opened Common

  // ----------------------------------------------------- character sets

  /** Strictly increasing: sorted and without duplicates. */
  predicate Increasing(s: seq<char>)
  {
    forall i, j | 0 <= i < j < |s| :: s[i] < s[j]
  }

  function Elements(s: seq<char>): set<char>
  {
    set c | c in s
  }

  /** Every character of every literal. */
  function CharsOf(literals: seq<string>): set<char>
  {
    set l, c | l in literals && c in l :: c
  }

  /** chr: the character with code point i. */
  function Chr(i: int): char
    requires 0 <= i < 0xD800
  {
    i as char
  }

  /** One character added to an increasing list, where it belongs. This and
      the fold below stand for Python's set() followed by list.sort(). */
  function Insert(s: seq<char>, c: char): seq<char>
  {
    if s == [] then [c]
    else if c == s[0] then s
    else if c < s[0] then [c] + s
    else [s[0]] + Insert(s[1..], c)
  }

  lemma {:induction false} InsertElements(s: seq<char>, c: char)
    ensures Elements(Insert(s, c)) == Elements(s) + {c}
  {
    if s == [] {
      assert Elements([c]) == {c};
    } else if c == s[0] {
      assert c in Elements(s);
    } else if c < s[0] {
      Cons(c, s);
    } else {
      InsertElements(s[1..], c);
      Cons(s[0], s[1..]);
      Cons(s[0], Insert(s[1..], c));
      assert s == [s[0]] + s[1..];
    }
  }

  lemma {:induction false} InsertMeaning(s: seq<char>, c: char)
    requires Increasing(s)
    ensures Increasing(Insert(s, c)) && Elements(Insert(s, c)) == Elements(s) + {c}
  {
    InsertElements(s, c);
    if s != [] && c < s[0] {
      assert forall x | x in Elements(s) :: c < x by {
        forall x | x in Elements(s)
          ensures c < x
        {
          var k :| 0 <= k < |s| && s[k] == x;
          assert s[0] <= s[k];
        }
      }
      Cons(c, s);
    } else if s != [] && s[0] < c {
      var rest := Insert(s[1..], c);
      assert Increasing(rest) by {
        assert Increasing(s[1..]);
        InsertMeaning(s[1..], c);
      }
      assert forall x | x in Elements(rest) :: s[0] < x by {
        InsertElements(s[1..], c);
        forall x | x in Elements(rest)
          ensures s[0] < x
        {
          if x != c {
            var k :| 0 <= k < |s| - 1 && s[1..][k] == x;
            assert s[0] < s[k + 1];
          }
        }
      }
      Cons(s[0], rest);
    }
  }

  /** A character put in front of a list: its elements, and when it is
      below all of them, the list stays increasing. */
  lemma Cons(x: char, t: seq<char>)
    ensures Elements([x] + t) == {x} + Elements(t)
    ensures Increasing(t) && (forall y | y in Elements(t) :: x < y) ==> Increasing([x] + t)
  {
    if Increasing(t) && (forall y | y in Elements(t) :: x < y) {
      forall i, j | 0 <= i < j < |t| + 1
        ensures ([x] + t)[i] < ([x] + t)[j]
      {
        assert t[j - 1] in Elements(t);
      }
    }
  }

  /** Every character of cs added to s. */
  function InsertAll(s: seq<char>, cs: seq<char>): seq<char>
    decreases |cs|
  {
    if cs == [] then s else InsertAll(Insert(s, cs[0]), cs[1..])
  }

  lemma {:induction false} InsertAllMeaning(s: seq<char>, cs: seq<char>)
    requires Increasing(s)
    ensures Increasing(InsertAll(s, cs)) && Elements(InsertAll(s, cs)) == Elements(s) + Elements(cs)
    decreases |cs|
  {
    if cs != [] {
      InsertMeaning(s, cs[0]);
      InsertAllMeaning(Insert(s, cs[0]), cs[1..]);
      assert Elements(cs) == {cs[0]} + Elements(cs[1..]);
    }
  }

  lemma ElementsEmpty(s: seq<char>)
    ensures Elements(s) == {} <==> s == []
  {
    assert s != [] ==> s[0] in Elements(s);
  }

  /** Two increasing lists with the same characters are the same list: the
      result of sorting a set is determined by the set. */
  lemma {:induction false} IncreasingUnique(a: seq<char>, b: seq<char>)
    requires Increasing(a) && Increasing(b) && Elements(a) == Elements(b)
    ensures a == b
    decreases |a|
  {
    if a != [] || b != [] {
      assert a != [] && b != [] by {
        ElementsEmpty(a);
        ElementsEmpty(b);
      }
      assert b[0] in Elements(a) && a[0] in Elements(b);
      var i :| 0 <= i < |a| && a[i] == b[0];
      var j :| 0 <= j < |b| && b[j] == a[0];
      assert a[0] <= a[i] && b[0] <= b[j];
      assert Elements(a[1..]) == Elements(b[1..]) by {
        assert Elements(a) == {a[0]} + Elements(a[1..]) && a[0] !in a[1..];
        assert Elements(b) == {b[0]} + Elements(b[1..]) && b[0] !in b[1..];
      }
      IncreasingUnique(a[1..], b[1..]);
      assert a == [a[0]] + a[1..] && b == [b[0]] + b[1..];
    }
  }

  /** list.remove(x) when x is present: the first occurrence goes. */
  function RemoveFirst(s: seq<char>, x: char): (r: seq<char>)
    ensures Increasing(s) ==> Increasing(r) && Elements(r) == Elements(s) - {x}
  {
    if s == [] then []
    else if s[0] == x then
      assert Elements(s) == {x} + Elements(s[1..]);
      assert Increasing(s) ==> x !in s[1..];
      s[1..]
    else
      var rest := RemoveFirst(s[1..], x);
      assert Elements(s) == {s[0]} + Elements(s[1..]);
      assert Increasing(s) ==> Increasing(s[1..]);
      assert Increasing(s) ==> Increasing([s[0]] + rest) by {
        if Increasing(s) {
          forall k | 0 <= k < |rest|
            ensures s[0] < rest[k]
          {
            assert rest[k] in Elements(rest);
            assert rest[k] in Elements(s[1..]);
            var m :| 0 <= m < |s| - 1 && s[1..][m] == rest[k];
            assert s[0] < s[m + 1];
          }
        }
      }
      assert Elements([s[0]] + rest) == {s[0]} + Elements(rest);
      [s[0]] + rest
  }

  /** extract_characters: every character of every literal, sorted, each
      once. The literals keep their enclosing quotes. */
  method ExtractCharacters(literals: seq<string>) returns (r: seq<char>)
    ensures Increasing(r) && Elements(r) == CharsOf(literals)
  {
    r := [];
    for i := 0 to |literals|
      invariant Increasing(r) && Elements(r) == CharsOf(literals[..i])
    {
      var literal := literals[i];
      for j := 0 to |literal|
        invariant Increasing(r) && Elements(r) == CharsOf(literals[..i]) + Elements(literal[..j])
      {
        InsertMeaning(r, literal[j]);
        r := Insert(r, literal[j]);
        assert literal[..j + 1] == literal[..j] + [literal[j]];
      }
      assert literal[..|literal|] == literal;
      assert literals[..i + 1] == literals[..i] + [literal];
    }
    assert literals[..|literals|] == literals;
  }

  /** The quote that opens every literal is one of the characters. */
  lemma QuoteIncluded(literals: seq<string>, k: nat, r: seq<char>)
    requires k < |literals| && |literals[k]| > 0 && literals[k][0] == '"'
    requires Elements(r) == CharsOf(literals)
    ensures '"' in r
  {
    assert '"' in literals[k];
    assert '"' in CharsOf(literals);
  }

  /** [chr(i) for i in range(32, 127)] */
  function LowAscii(): (r: seq<char>)
    ensures |r| == 95 && forall k | 0 <= k < 95 :: r[k] == Chr(32 + k)
  {
    seq(95, k requires 0 <= k < 95 => Chr(32 + k))
  }

  /** The character list of main, from extract_characters' result: with -A
      every printable ASCII character is added (joined, made distinct,
      sorted); then the space is taken out. */
  function MainChars(chars: seq<char>, generateAll: bool): (r: seq<char>)
    ensures generateAll ==> Increasing(r) && Elements(r) == Elements(chars) + Elements(LowAscii()) - {' '}
    ensures !generateAll && Increasing(chars) ==> Increasing(r) && Elements(r) == Elements(chars) - {' '}
  {
    var all := if generateAll then InsertAll([], chars + LowAscii()) else chars;
    InsertAllMeaning([], chars + LowAscii());
    assert Elements(chars + LowAscii()) == Elements(chars) + Elements(LowAscii());
    RemoveFirst(all, ' ')
  }

  /** The normalisation in main, step by step: with -A the printable
      characters joined in and the list sorted again, then the space
      removed when present. */
  method NormaliseChars(chars: seq<char>, generateAll: bool) returns (r: seq<char>)
    ensures r == MainChars(chars, generateAll)
    ensures generateAll || Increasing(chars) ==> Increasing(r) && ' ' !in r
  {
    r := chars;
    if generateAll {
      r := InsertAll([], r + LowAscii());
    }
    if ' ' in r {
      r := RemoveFirst(r, ' ');
    } else {
      assert RemoveFirst(r, ' ') == r by {
        RemoveAbsent(r, ' ');
      }
    }
  }

  lemma {:induction false} RemoveAbsent(s: seq<char>, x: char)
    requires x !in s
    ensures RemoveFirst(s, x) == s
  {
    if s != [] {
      RemoveAbsent(s[1..], x);
    }
  }

  /** With -A every printable character but the space is in the list. */
  lemma GenerateAllPrintable(chars: seq<char>, i: int)
    requires 33 <= i < 127
    ensures Chr(i) in MainChars(chars, true)
  {
    assert LowAscii()[i - 32] == Chr(i);
    assert Chr(i) in Elements(LowAscii()) && Chr(i) != ' ';
    assert Chr(i) in Elements(MainChars(chars, true));
  }

  /** The test of can_lut_skip_low_ascii. */
  predicate HasLowAscii(chars: seq<char>)
  {
    forall i | 32 <= i < 127 :: Chr(i) in chars
  }

  /** can_lut_skip_low_ascii: true exactly when chr(32) .. chr(126) are all
      present, false at the first one missing. */
  method CanLutSkipLowAscii(chars: seq<char>) returns (r: bool)
    ensures r <==> HasLowAscii(chars)
  {
    for i := 32 to 127
      invariant forall k | 32 <= k < i :: Chr(k) in chars
    {
      if Chr(i) !in chars {
        return false;
      }
    }
    return true;
  }

  /** The list main hands on never allows the skip: the space is gone. */
  lemma MainCharsNeverSkip(chars: seq<char>, generateAll: bool)
    requires Increasing(chars)
    ensures !HasLowAscii(MainChars(chars, generateAll))
  {
    assert Chr(32) == ' ';
    assert ' ' !in Elements(MainChars(chars, generateAll));
  }

  /** has_non_ascii: true exactly when some code point is above 127. */
  method HasNonAscii(chars: seq<char>) returns (r: bool)
    ensures r <==> exists c | c in chars :: c as int > 127
  {
    for i := 0 to |chars|
      invariant forall k | 0 <= k < i :: chars[k] as int <= 127
    {
      if chars[i] as int > 127 {
        assert chars[i] in chars;
        return true;
      }
    }
    return false;
  }

  // ------------------------------------------------------ hexadecimal

  function HexDigit(d: nat): char
    requires d < 16
  {
    "0123456789ABCDEF"[d]
  }

  predicate IsHexDigit(c: char)
  {
    '0' <= c <= '9' || 'A' <= c <= 'F'
  }

  function DigitValue(c: char): nat
    requires IsHexDigit(c)
  {
    if c <= '9' then c as int - '0' as int else c as int - 'A' as int + 10
  }

  /** Python's format code X: upper-case hexadecimal without leading
      zeros ("0" for zero). */
  function Hex(n: nat): (r: string)
    ensures |r| >= 1 && forall k | 0 <= k < |r| :: IsHexDigit(r[k])
  {
    if n < 16 then [HexDigit(n)] else Hex(n / 16) + [HexDigit(n % 16)]
  }

  /** The value of a string of hexadecimal digits. */
  function ParseHex(s: string): nat
    requires forall k | 0 <= k < |s| :: IsHexDigit(s[k])
  {
    if s == [] then 0 else 16 * ParseHex(s[..|s| - 1]) + DigitValue(s[|s| - 1])
  }

  function Pow16(k: nat): nat
  {
    if k == 0 then 1 else 16 * Pow16(k - 1)
  }

  /** Leading zeros up to the width of a format code such as 08X. */
  function ZeroPad(s: string, width: nat): (r: string)
    ensures |r| == if |s| >= width then |s| else width
  {
    if |s| >= width then s else seq(width - |s|, _ => '0') + s
  }

  lemma {:induction false} HexRoundTrip(n: nat)
    ensures ParseHex(Hex(n)) == n
  {
    var h := Hex(n);
    DigitRoundTrip(n % 16);
    if n >= 16 {
      assert h[..|h| - 1] == Hex(n / 16) && h[|h| - 1] == HexDigit(n % 16);
      HexRoundTrip(n / 16);
    } else {
      assert h[..0] == [];
    }
  }

  lemma DigitRoundTrip(d: nat)
    requires d < 16
    ensures IsHexDigit(HexDigit(d)) && DigitValue(HexDigit(d)) == d
  {
  }

  /** Below 16^k, at most k digits. */
  lemma {:induction false} HexLength(n: nat, k: nat)
    requires k > 0 && n < Pow16(k)
    ensures |Hex(n)| <= k
  {
    if n >= 16 {
      assert k > 1 && Pow16(k) == 16 * Pow16(k - 1);
      HexLength(n / 16, k - 1);
    }
  }

  /** At least 16^k, more than k digits. */
  lemma {:induction false} HexLengthAtLeast(n: nat, k: nat)
    requires n >= Pow16(k)
    ensures |Hex(n)| > k
  {
    if k > 0 {
      HexLengthAtLeast(n / 16, k - 1);
    }
  }

  lemma {:induction false} LeadingZeros(z: nat, s: string)
    requires forall k | 0 <= k < |s| :: IsHexDigit(s[k])
    ensures var t := seq(z, _ => '0') + s;
            (forall k | 0 <= k < |t| :: IsHexDigit(t[k])) && ParseHex(t) == ParseHex(s)
  {
    var t := seq(z, _ => '0') + s;
    if s == [] {
      assert t == seq(z, _ => '0');
      ZerosValue(z);
    } else {
      assert t[..|t| - 1] == seq(z, _ => '0') + s[..|s| - 1];
      LeadingZeros(z, s[..|s| - 1]);
    }
  }

  lemma {:induction false} ZerosValue(z: nat)
    ensures ParseHex(seq(z, _ => '0')) == 0
  {
    if z > 0 {
      assert seq(z, _ => '0')[..z - 1] == seq(z - 1, _ => '0');
      ZerosValue(z - 1);
    }
  }

  /** The padding width get_code_point_hex_string chooses: 8 above 0x10000,
      4 above 0x100, 2 otherwise (both bounds strict). */
  function HexWidth(cp: int): nat
  {
    if cp > 0x10000 then 8 else if cp > 0x100 then 4 else 2
  }

  /** get_code_point_hex_string. */
  function CodePointHex(c: char): string
  {
    "0x" + ZeroPad(Hex(c as int), HexWidth(c as int))
  }

  /** The digits after "0x" are upper-case hexadecimal and read back as the
      code point. */
  lemma CodePointHexRoundTrip(c: char)
    ensures var r := CodePointHex(c);
            |r| > 2 && r[..2] == "0x" && (forall k | 2 <= k < |r| :: IsHexDigit(r[k]))
            && ParseHex(r[2..]) == c as int
  {
    var h := Hex(c as int);
    var r := CodePointHex(c);
    HexRoundTrip(c as int);
    if |h| < HexWidth(c as int) {
      LeadingZeros(HexWidth(c as int) - |h|, h);
    }
    assert r[2..] == ZeroPad(h, HexWidth(c as int));
  }

  /** The padding width is a minimum: the value is 10 characters long above
      0x10000, 6 above 0x100 up to 0xFFFF and 4 below 0x100. */
  lemma CodePointHexLength(c: char)
    ensures var cp := c as int;
            var n := |CodePointHex(c)|;
            (cp > 0x10000 ==> n == 10)
            && (0x100 < cp < 0x10000 ==> n == 6)
            && (cp < 0x100 ==> n == 4)
  {
    var cp := c as int;
    if cp > 0x10000 {
      assert Pow16(8) == 0x1_0000_0000;
      HexLength(cp, 8);
    } else if 0x100 < cp < 0x10000 {
      assert Pow16(4) == 0x10000;
      HexLength(cp, 4);
    } else if cp < 0x100 {
      assert Pow16(2) == 0x100;
      HexLength(cp, 2);
    }
  }

  /** With strict bounds, 0x10000 itself (padded to 4) and 0x100 itself
      (padded to 2) come out one digit wider than their width. */
  lemma CodePointHexBoundaries()
    ensures CodePointHex(0x10000 as char) == "0x10000"
    ensures CodePointHex(0x100 as char) == "0x100"
  {
    assert Hex(0x10) == "10";
    assert Hex(0x100) == "100";
    assert Hex(0x1000) == "1000";
    assert Hex(0x10000) == "10000";
  }

  // ------------------------------------------------------ the LUT text

  /** str.ljust: spaces on the right up to the width. */
  function LeftJustify(s: string, width: nat): (r: string)
    ensures |r| == if |s| >= width then |s| else width
  {
    if |s| >= width then s else s + seq(width - |s|, _ => ' ')
  }

  /** One entry of generate_lut_list: four spaces, the code point and a
      comma padded to 20 columns, and a comment showing the character. */
  function LutLine(c: char): string
  {
    "    " + LeftJustify(CodePointHex(c) + ",", 20) + LutComment(c)
  }

  /** The comment that closes a LUT entry, showing the character. */
  function LutComment(c: char): (r: string)
    ensures |r| == 18 && r[9] == c && r[17] == '\n'
  {
    " /** --> " + [c] + " <-- */\n"
  }

  /** A code point never needs more than eight digits. */
  lemma CodePointHexShort(c: char)
    ensures |CodePointHex(c)| <= 10
  {
    assert Pow16(8) == 0x1_0000_0000;
    HexLength(c as int, 8);
  }

  /** Every entry is 42 characters: the code point at column 4, its comma
      right after, the character itself at column 33, the line feed last. */
  lemma LutLineLayout(c: char)
    ensures var line := LutLine(c);
            var h := CodePointHex(c);
            |line| == 42 && |h| <= 10 && line[4..4 + |h|] == h && line[4 + |h|] == ','
            && line[33] == c && line[41] == '\n'
  {
    var h := CodePointHex(c);
    CodePointHexShort(c);
    var field := h + ",";
    var padded := LeftJustify(field, 20);
    LeftJustifyKeeps(field, 20);
    SliceMiddle("    ", padded, LutComment(c), |field|);
    assert field[..|h|] == h;
  }

  /** Padding on the right keeps the text it pads in front. */
  lemma LeftJustifyKeeps(s: string, width: nat)
    ensures LeftJustify(s, width)[..|s|] == s
  {
  }

  /** The part of a concatenation that starts right after its first piece. */
  lemma SliceMiddle<T>(a: seq<T>, b: seq<T>, c: seq<T>, n: nat)
    requires n <= |b|
    ensures (a + b + c)[|a|..|a| + n] == b[..n]
  {
    assert forall k | 0 <= k < n :: (a + b + c)[|a| + k] == b[k];
  }

  /** The entries of the characters, in input order. */
  function Lines(chars: seq<char>): (r: seq<string>)
    ensures |r| == |chars| && forall k | 0 <= k < |chars| :: r[k] == LutLine(chars[k])
  {
    seq(|chars|, k requires 0 <= k < |chars| => LutLine(chars[k]))
  }

  lemma {:induction false} ConcatSnoc(parts: seq<string>, s: string)
    ensures Concat(parts + [s]) == Concat(parts) + s
  {
    if parts == [] {
      assert [] + [s] == [s];
    } else {
      assert (parts + [s])[1..] == parts[1..] + [s];
      ConcatSnoc(parts[1..], s);
    }
  }

  /** The body of generate_lut_list's loop for one character. */
  method LutEntry(c: char) returns (line: string)
    ensures line == LutLine(c)
  {
    line := CodePointHex(c);
    line := line + ",";
    line := LeftJustify(line, 20);
    line := "    " + line + " /** --> " + [c] + " <-- */\n";
  }

  lemma TakeSnoc<T>(s: seq<T>, i: nat)
    requires i < |s|
    ensures s[..i + 1] == s[..i] + [s[i]]
  {
  }

  /** generate_lut_list: the entries one after the other. */
  method GenerateLutList(chars: seq<char>) returns (r: string)
    ensures r == Concat(Lines(chars))
  {
    ghost var all := Lines(chars);
    var lines: seq<string> := [];
    for i := 0 to |chars|
      invariant lines == all[..i]
    {
      var line := LutEntry(chars[i]);
      TakeSnoc(all, i);
      lines := lines + [line];
    }
    assert all[..|chars|] == all;
    r := Concat(lines);
  }

  /** The length of every LUT entry. */
  const LINE: nat := 42

  /** Entries of LINE characters concatenate to a text whose k-th slice
      of LINE characters is the k-th entry. */
  lemma {:induction false} ConcatUniform(parts: seq<string>)
    requires forall k | 0 <= k < |parts| :: |parts[k]| == LINE
    ensures |Concat(parts)| == LINE * |parts|
    ensures forall k | 0 <= k < |parts| :: Concat(parts)[LINE * k .. LINE * k + LINE] == parts[k]
  {
    if parts != [] {
      ConcatUniform(parts[1..]);
      var t := Concat(parts[1..]);
      assert Concat(parts) == parts[0] + t;
      forall k | 0 <= k < |parts|
        ensures Concat(parts)[LINE * k .. LINE * k + LINE] == parts[k]
      {
        if k > 0 {
          assert parts[1..][k - 1] == parts[k];
          assert Concat(parts)[LINE * k .. LINE * k + LINE] == t[LINE * (k - 1) .. LINE * (k - 1) + LINE];
        }
      }
    }
  }

  /** The LUT text has one entry of LINE characters per character, in
      input order, each naming its character's code point. */
  lemma LutListLayout(chars: seq<char>)
    ensures |Concat(Lines(chars))| == LINE * |chars|
    ensures forall k | 0 <= k < |chars| :: Concat(Lines(chars))[LINE * k .. LINE * k + LINE] == LutLine(chars[k])
  {
    forall k | 0 <= k < |chars|
      ensures |Lines(chars)[k]| == LINE
    {
      LutLineLayout(chars[k]);
    }
    ConcatUniform(Lines(chars));
  }

  /** The numbers generate_lut_source takes from the list: its size and the
      code points of its first and last characters. */
  datatype LutRange = LutRange(size: nat, start: string, end: string)

  /** None stands for the IndexError chars[0] raises on an empty list. */
  function LutBounds(chars: seq<char>): (r: Option<LutRange>)
    ensures r.Some? <==> |chars| > 0
    ensures r.Some? ==> r.value.size == |chars|
  {
    if |chars| == 0 then None
    else Some(LutRange(|chars|, CodePointHex(chars[0]), CodePointHex(chars[|chars| - 1])))
  }

  /** For a sorted list every character lies between the start and the end
      of the table, as their hexadecimal values read back. */
  lemma LutBoundsCover(chars: seq<char>)
    requires Increasing(chars) && |chars| > 0
    ensures var b := LutBounds(chars).value;
            |b.start| > 2 && |b.end| > 2
            && (forall k | 2 <= k < |b.start| :: IsHexDigit(b.start[k]))
            && (forall k | 2 <= k < |b.end| :: IsHexDigit(b.end[k]))
            && forall c | c in chars :: ParseHex(b.start[2..]) <= c as int <= ParseHex(b.end[2..])
  {
    CodePointHexRoundTrip(chars[0]);
    CodePointHexRoundTrip(chars[|chars| - 1]);
    forall c | c in chars
      ensures chars[0] as int <= c as int <= chars[|chars| - 1] as int
    {
      var j :| 0 <= j < |chars| && chars[j] == c;
      assert chars[0] <= chars[j] <= chars[|chars| - 1];
    }
  }

  // ------------------------------------------------------ identifiers

  /** replace_name_to_var's result: an alphanumeric character stays, any
      other becomes '_'. `alnum` is Python's str.isalnum, whose verdict on
      non-ASCII characters comes from the Unicode database. */
  function VarName(alnum: char -> bool, name: string): (r: string)
    ensures |r| == |name|
  {
    seq(|name|, i requires 0 <= i < |name| => if alnum(name[i]) then name[i] else '_')
  }

  /** replace_name_to_var */
  method ReplaceNameToVar(alnum: char -> bool, name: string) returns (r: string)
    ensures r == VarName(alnum, name)
    ensures |r| == |name| && forall i | 0 <= i < |r| :: r[i] == name[i] || r[i] == '_'
  {
    var out: seq<char> := [];
    for i := 0 to |name|
      invariant out == VarName(alnum, name[..i])
    {
      if alnum(name[i]) {
        out := out + [name[i]];
      } else {
        out := out + ['_'];
      }
    }
    assert name[..|name|] == name;
    r := out;
  }

  /** '_' is not alphanumeric, so a second pass changes nothing. */
  lemma VarNameIdempotent(alnum: char -> bool, name: string)
    requires !alnum('_')
    ensures VarName(alnum, VarName(alnum, name)) == VarName(alnum, name)
  {
  }

  predicate AsciiAlnum(c: char)
  {
    '0' <= c <= '9' || 'A' <= c <= 'Z' || 'a' <= c <= 'z'
  }

  /** On an ASCII name the result holds only letters, digits and '_', the
      characters of a C identifier. */
  lemma VarNameAscii(alnum: char -> bool, name: string)
    requires forall c: char | c as int < 128 :: alnum(c) == AsciiAlnum(c)
    requires forall i | 0 <= i < |name| :: name[i] as int < 128
    ensures forall i | 0 <= i < |name| :: AsciiAlnum(VarName(alnum, name)[i]) || VarName(alnum, name)[i] == '_'
  {
  }

  // ------------------------------------------------------ the command line

  /** The width lut_get_commandline cuts the command line to. */
  const WRAP: nat := 77

  /** The comprehension of lut_get_commandline: slices of WRAP characters
      from the start, the last one shorter when the length is not a
      multiple. */
  function Chunks(s: string): seq<string>
    decreases |s|
  {
    if |s| == 0 then []
    else if |s| <= WRAP then [s]
    else [s[..WRAP]] + Chunks(s[WRAP..])
  }

  /** str.join */
  function Join(sep: string, parts: seq<string>): string
  {
    if |parts| == 0 then []
    else if |parts| == 1 then parts[0]
    else parts[0] + sep + Join(sep, parts[1..])
  }

  /** lut_get_commandline, with sys.argv as a parameter. */
  function Commandline(argv: seq<string>): string
  {
    Join("\n * ", Chunks("python " + Join(" ", argv)))
  }

  /** The chunks give the command line back, none is empty, and every one
      but the last is WRAP long. */
  lemma {:induction false} ChunksConcat(s: string)
    ensures var cs := Chunks(s);
            Concat(cs) == s
            && (forall k | 0 <= k < |cs| :: 0 < |cs[k]| <= WRAP)
            && (forall k | 0 <= k < |cs| - 1 :: |cs[k]| == WRAP)
    decreases |s|
  {
    var cs := Chunks(s);
    if |s| > WRAP {
      ChunksConcat(s[WRAP..]);
      assert cs == [s[..WRAP]] + Chunks(s[WRAP..]);
      assert s == s[..WRAP] + s[WRAP..];
    } else if |s| > 0 {
      assert Concat(cs) == s + Concat([]);
    }
  }

  /** There are ceil(|s| / WRAP) chunks. */
  lemma {:induction false} ChunksCount(s: string)
    ensures |Chunks(s)| == (|s| + WRAP - 1) / WRAP
    decreases |s|
  {
    if |s| > WRAP {
      ChunksCount(s[WRAP..]);
    }
  }

  /** Chunk k is the slice s[WRAP*k : WRAP*k + WRAP] of the comprehension,
      cut short at the end of s. */
  lemma {:induction false} ChunkSlice(s: string, k: nat)
    requires k < |Chunks(s)|
    ensures WRAP * k < |s|
    ensures Chunks(s)[k] == s[WRAP * k .. if WRAP * k + WRAP <= |s| then WRAP * k + WRAP else |s|]
    decreases |s|
  {
    if k > 0 {
      assert |s| > WRAP;
      var rest := s[WRAP..];
      assert Chunks(s)[k] == Chunks(rest)[k - 1];
      ChunkSlice(rest, k - 1);
      var lo := WRAP * (k - 1);
      var hi := if lo + WRAP <= |rest| then lo + WRAP else |rest|;
      assert WRAP * k == lo + WRAP;
      assert rest[lo..hi] == s[lo + WRAP..hi + WRAP];
    }
  }

  /** The wrapped command line: "python " and the arguments cut into lines
      of WRAP characters, joined by a line feed and the " * " that
      continues the C comment. */
  lemma CommandlineWrap(argv: seq<string>)
    ensures var cmd := "python " + Join(" ", argv);
            var cs := Chunks(cmd);
            Commandline(argv) == Join("\n * ", cs) && Concat(cs) == cmd
            && |cs| == (|cmd| + WRAP - 1) / WRAP
            && (forall k | 0 <= k < |cs| - 1 :: |cs[k]| == WRAP)
            && |cs| > 0 && 0 < |cs[|cs| - 1]| <= WRAP
  {
    ChunksConcat("python " + Join(" ", argv));
    ChunksCount("python " + Join(" ", argv));
  }
}
