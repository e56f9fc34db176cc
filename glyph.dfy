/** The glyph packer of tools/fontbuild/shape_providers/ssd1306.py: a glyph
    bitmap exactly 16 pixels high becomes one 16-bit word per column, row r
    weighing 2^r (the page layout of the SSD1306, two pages per glyph),
    and the words are written as two bytes each, low byte first. */
module Glyph {
  import opened Common

  const HEIGHT: nat := 16

  type Byte = x: nat | x < 256

  datatype Result<T> = Ok(value: T) | ValueError

  /** The glyph as the numpy array of a mode "1" image: rows of booleans,
      all of one width. */
  function Width(img: seq<seq<bool>>): nat
  {
    if |img| == 0 then 0 else |img[0]|
  }

  predicate Rectangular(img: seq<seq<bool>>)
  {
    forall r | 0 <= r < |img| :: |img[r]| == Width(img)
  }

  /** Column c of the image, top to bottom: a row of img.T. */
  function Column(img: seq<seq<bool>>, c: nat): (col: seq<bool>)
    requires Rectangular(img) && c < Width(img)
    ensures |col| == |img| && forall r | 0 <= r < |img| :: col[r] == img[r][c]
  {
    seq(|img|, r requires 0 <= r < |img| => img[r][c])
  }

  /** np.dot with the radix 2 ** np.arange(16), on pixels as 0 and 1: the
      sum of 2^r over the lit rows r. */
  function Weigh(col: seq<bool>): nat
  {
    if col == [] then 0 else (if col[0] then 1 else 0) + 2 * Weigh(col[1..])
  }

  /** astype(np.uint16) of the sum. */
  function Word(col: seq<bool>): nat
  {
    Weigh(col) % 0x10000
  }

  /** tobytes on a little-endian host: each word as its low byte and then
      its high byte. */
  function Packed(words: seq<nat>): (r: seq<Byte>)
    requires forall k | 0 <= k < |words| :: words[k] < 0x10000
    ensures |r| == 2 * |words|
  {
    if words == [] then [] else [words[0] % 256, words[0] / 256] + Packed(words[1..])
  }

  /** convert_font_glyph_to_binary: ValueError unless the image is 16 rows
      high; otherwise the bytes of the column words, left to right. */
  function ConvertGlyph(img: seq<seq<bool>>): (r: Result<seq<Byte>>)
    requires Rectangular(img)
    ensures r.Ok? <==> |img| == HEIGHT
    ensures r.Ok? ==> |r.value| == 2 * Width(img)
  {
    if |img| != HEIGHT then ValueError
    else
      var words := seq(Width(img), c requires 0 <= c < Width(img) => Word(Column(img, c)));
      Ok(Packed(words))
  }

  // ------------------------------------------------------------ proofs

  lemma {:induction false} WeighBound(col: seq<bool>)
    ensures Weigh(col) < Pow2(|col|)
  {
    if col != [] {
      WeighBound(col[1..]);
    }
  }

  /** The bits of the sum are the pixels: bit r is row r. */
  lemma {:induction false} WeighBit(col: seq<bool>, r: nat)
    requires r < |col|
    ensures (Weigh(col) / Pow2(r)) % 2 == if col[r] then 1 else 0
  {
    var b := if col[0] then 1 else 0;
    if r > 0 {
      var w := Weigh(col[1..]);
      var p := Pow2(r - 1);
      assert Weigh(col) / Pow2(r) == w / p by {
        assert Weigh(col) == b + 2 * w && Pow2(r) == 2 * p;
        HalfShift(w, b, p);
      }
      assert (w / p) % 2 == if col[r] then 1 else 0 by {
        assert col[1..][r - 1] == col[r];
        WeighBit(col[1..], r - 1);
      }
    } else {
      assert Weigh(col) == b + 2 * Weigh(col[1..]);
    }
  }

  /** (b + 2w) / 2^(k+1) == w / 2^k for a bit b. */
  lemma HalfShift(w: nat, b: nat, p: nat)
    requires b < 2 && p > 0
    ensures (b + 2 * w) / (2 * p) == w / p
  {
    var q := w / p;
    var m := w % p;
    assert w == p * q + m;
    assert b + 2 * w == (2 * p) * q + (2 * m + b);
    assert 0 <= 2 * m + b < 2 * p;
    DivUnique(b + 2 * w, 2 * p, q, 2 * m + b);
  }

  lemma DivUnique(a: nat, d: nat, q: nat, m: nat)
    requires d > 0 && a == d * q + m && m < d
    ensures a / d == q
  {
    var q' := a / d;
    var m' := a % d;
    assert d * q' + m' == d * q + m;
    if q' < q {
      MulMono(d, q' + 1, q);
    } else if q' > q {
      MulMono(d, q + 1, q');
    }
  }

  lemma MulMono(d: nat, x: nat, y: nat)
    requires x <= y
    ensures d * x <= d * y
  {
  }

  /** The sum over a column cut in two: the lower rows, and the upper rows
      weighing 2^(length of the lower part) more. */
  lemma {:induction false} WeighSplit(a: seq<bool>, b: seq<bool>)
    ensures Weigh(a + b) == Weigh(a) + Pow2(|a|) * Weigh(b)
  {
    if a != [] {
      assert (a + b)[0] == a[0] && (a + b)[1..] == a[1..] + b;
      WeighSplit(a[1..], b);
      var x := if a[0] then 1 else 0;
      assert Weigh(a + b) == x + 2 * Weigh(a[1..] + b);
      assert Weigh(a) == x + 2 * Weigh(a[1..]);
      assert Pow2(|a|) == 2 * Pow2(|a| - 1);
      Distribute(x, Weigh(a[1..]), Pow2(|a| - 1), Weigh(b));
    } else {
      assert a + b == b;
    }
  }

  lemma Distribute(x: int, w: int, p: int, v: int)
    ensures x + 2 * (w + p * v) == (x + 2 * w) + (2 * p) * v
  {
  }

  /** For a 16-row column the uint16 conversion loses nothing, the low byte
      is the sum over rows 0-7 and the high byte the sum over rows 8-15. */
  lemma WordBytes(col: seq<bool>)
    requires |col| == HEIGHT
    ensures Word(col) == Weigh(col) < 0x10000
    ensures Word(col) % 256 == Weigh(col[..8]) && Word(col) / 256 == Weigh(col[8..])
  {
    var lo, hi := Weigh(col[..8]), Weigh(col[8..]);
    assert Weigh(col) == lo + 256 * hi by {
      assert col == col[..8] + col[8..];
      WeighSplit(col[..8], col[8..]);
      assert Pow2(8) == 256;
    }
    assert lo < 256 && hi < 256 by {
      WeighBound(col[..8]);
      WeighBound(col[8..]);
      assert Pow2(8) == 256;
    }
    Bytes(lo, hi);
  }

  /** A low and a high byte make a word that splits back into them. */
  lemma Bytes(lo: nat, hi: nat)
    requires lo < 256 && hi < 256
    ensures lo + 256 * hi < 0x10000 && (lo + 256 * hi) % 0x10000 == lo + 256 * hi
    ensures (lo + 256 * hi) % 256 == lo && (lo + 256 * hi) / 256 == hi
  {
  }

  lemma {:induction false} PackedAt(words: seq<nat>, k: nat)
    requires forall j | 0 <= j < |words| :: words[j] < 0x10000
    requires k < |words|
    ensures Packed(words)[2 * k] == words[k] % 256 && Packed(words)[2 * k + 1] == words[k] / 256
  {
    if k > 0 {
      PackedAt(words[1..], k - 1);
    }
  }

  /** Two bytes per column, left to right: bytes 2c and 2c+1 hold column c,
      rows 0-7 in the first and rows 8-15 in the second. */
  lemma ConvertLayout(img: seq<seq<bool>>, c: nat)
    requires Rectangular(img) && |img| == HEIGHT && c < Width(img)
    ensures var bytes := ConvertGlyph(img).value;
            bytes[2 * c] == Weigh(Column(img, c)[..8]) && bytes[2 * c + 1] == Weigh(Column(img, c)[8..])
  {
    var words := seq(Width(img), j requires 0 <= j < Width(img) => Word(Column(img, j)));
    forall j | 0 <= j < Width(img)
      ensures words[j] < 0x10000
    {
      WordBytes(Column(img, j));
    }
    PackedAt(words, c);
    WordBytes(Column(img, c));
  }

  /** Reading a packed glyph back: pixel (r, c) is bit r of the word the
      two bytes of column c make. */
  function Unpack(bytes: seq<Byte>, width: nat): (img: seq<seq<bool>>)
    requires |bytes| == 2 * width
    ensures |img| == HEIGHT && forall r | 0 <= r < HEIGHT :: |img[r]| == width
  {
    seq(HEIGHT, r requires 0 <= r < HEIGHT =>
      seq(width, c requires 0 <= c < width => ((bytes[2 * c] as int + 256 * (bytes[2 * c + 1] as int)) / Pow2(r)) % 2 == 1))
  }

  /** The packing loses nothing: unpacking gives the glyph back. */
  lemma RoundTrip(img: seq<seq<bool>>)
    requires Rectangular(img) && |img| == HEIGHT
    ensures Unpack(ConvertGlyph(img).value, Width(img)) == img
  {
    var back := Unpack(ConvertGlyph(img).value, Width(img));
    forall r | 0 <= r < HEIGHT
      ensures back[r] == img[r]
    {
      forall c | 0 <= c < Width(img)
        ensures back[r][c] == img[r][c]
      {
        PixelBack(img, r, c);
      }
    }
  }

  lemma PixelBack(img: seq<seq<bool>>, r: nat, c: nat)
    requires Rectangular(img) && |img| == HEIGHT && r < HEIGHT && c < Width(img)
    ensures Unpack(ConvertGlyph(img).value, Width(img))[r][c] == img[r][c]
  {
    var bytes := ConvertGlyph(img).value;
    var col := Column(img, c);
    var lo, hi := bytes[2 * c] as int, bytes[2 * c + 1] as int;
    assert lo + 256 * hi == Weigh(col) by {
      ConvertLayout(img, c);
      WordBytes(col);
      WeighSplit(col[..8], col[8..]);
      assert col == col[..8] + col[8..];
      assert Pow2(8) == 256;
    }
    assert Unpack(bytes, Width(img))[r][c] == (((lo + 256 * hi) / Pow2(r)) % 2 == 1);
    WeighBit(col, r);
  }
}
