/** Packing three colour planes into B, G, R, A pixels with a row pitch. */
module PackBgr {
  import opened Arith

  newtype byte = b: int | 0 <= b < 256

  // ---------- elements in memory ----------

  /** An unsigned element of `w` bytes, least significant byte first. */
  function Bytes(v: nat, w: nat): (bs: seq<byte>)
    ensures |bs| == w
  {
    if w == 0 then [] else [(v % 256) as byte] + Bytes(v / 256, w - 1)
  }

  function Value(bs: seq<byte>): nat {
    if bs == [] then 0 else bs[0] as nat + 256 * Value(bs[1..])
  }

  function Limit(w: nat): nat { if w == 0 then 1 else 256 * Limit(w - 1) }

  /** Reading an element back gives its value. */
  lemma {:induction false} ValueOfBytes(v: nat, w: nat)
    requires v < Limit(w)
    ensures Value(Bytes(v, w)) == v
  {
    if w > 0 {
      ValueOfBytes(v / 256, w - 1);
      assert Bytes(v, w)[1..] == Bytes(v / 256, w - 1);
    }
  }

  lemma {:induction false} LimitIsPositive(w: nat)
    ensures Limit(w) > 0
  {
    if w > 0 {
      LimitIsPositive(w - 1);
    }
  }

  /** `~TElement()`: all bits one. */
  function AllOnes(w: nat): nat {
    LimitIsPositive(w);
    Limit(w) - 1
  }

  predicate Opaque(bs: seq<byte>) { forall i :: 0 <= i < |bs| ==> bs[i] == 255 }

  /** Each of its bytes is 255. */
  lemma {:induction false} AllOnesBytes(w: nat)
    ensures Opaque(Bytes(AllOnes(w), w))
  {
    LimitIsPositive(w);
    if w > 0 {
      LimitIsPositive(w - 1);
      AllOnesBytes(w - 1);
      var all := AllOnes(w);
      assert all == 256 * AllOnes(w - 1) + 255;
      assert all % 256 == 255 && all / 256 == AllOnes(w - 1);
      assert Bytes(all, w) == [255] + Bytes(AllOnes(w - 1), w - 1);
    }
  }

  function PixelBytes(b: nat, g: nat, r: nat, w: nat): (bs: seq<byte>)
    ensures |bs| == 4 * w
  {
    Bytes(b, w) + Bytes(g, w) + Bytes(r, w) + Bytes(AllOnes(w), w)
  }

  /** The four parts of a pixel read back as blue, green, red and all ones. */
  lemma PixelParts(b: nat, g: nat, r: nat, w: nat)
    requires b < Limit(w) && g < Limit(w) && r < Limit(w)
    ensures
      var p := PixelBytes(b, g, r, w);
      && Value(p[..w]) == b && Value(p[w..2 * w]) == g && Value(p[2 * w..3 * w]) == r
      && Value(p[3 * w..]) == AllOnes(w)
  {
    hide Bytes, Value, Limit;
    var p := PixelBytes(b, g, r, w);
    assert p[..w] == Bytes(b, w) && p[w..2 * w] == Bytes(g, w);
    assert p[2 * w..3 * w] == Bytes(r, w) && p[3 * w..] == Bytes(AllOnes(w), w);
    ValueOfBytes(b, w);
    ValueOfBytes(g, w);
    ValueOfBytes(r, w);
    ValueOfBytes(AllOnes(w), w);
  }

  // ---------- geometry ----------

  /** Where the destination keeps its pixels: row `y` starts at `start + y * pitch`, and
      elements have `w` bytes. A negative pitch stores the rows bottom up. */
  datatype Layout = Layout(width: nat, height: nat, start: int, pitch: int, w: nat)
  {
    function Offset(y: nat, x: nat): int { start + y * pitch + x * (4 * w) }

    predicate Has(y: int, x: int) { 0 <= y < height && 0 <= x < width }

    /** Rows do not overlap and all pixels lie in a buffer of `size` bytes. */
    ghost predicate Fits(size: nat) {
      && (pitch >= width * (4 * w) || -pitch >= width * (4 * w))
      && forall y, x :: Has(y, x) ==> 0 <= Offset(y, x) <= size - 4 * w
    }

    predicate Covers(y: nat, x: nat, i: int) { Offset(y, x) <= i < Offset(y, x) + 4 * w }

    /** No pixel contains byte `i`. */
    ghost predicate Padding(i: int) {
      forall y, x :: Has(y, x) ==> !Covers(y, x, i)
    }
  }

  /** Pixels of a row follow each other, rows are a pitch apart. */
  lemma PixelsInOrder(l: Layout, y: nat, x: nat)
    ensures l.Offset(0, 0) == l.start
    ensures l.Offset(y, x + 1) == l.Offset(y, x) + 4 * l.w
    ensures l.Offset(y + 1, x) == l.Offset(y, x) + l.pitch
  {
  }

  lemma ProductGap(a: nat, b: nat, k: int)
    requires a < b
    ensures k >= 0 ==> b * k - a * k >= k
    ensures k <= 0 ==> b * k - a * k <= k
  {
    assert b * k - a * k == (b - a) * k;
    assert (b - a - 1) * k == (b - a) * k - k;
    assert k >= 0 ==> (b - a - 1) * k >= 0;
    assert k <= 0 ==> (b - a - 1) * k <= 0;
  }

  /** Different pixels share no byte. */
  lemma PixelsApart(l: Layout, size: nat, y: nat, x: nat, y': nat, x': nat)
    requires l.Fits(size) && l.Has(y, x) && l.Has(y', x') && (y != y' || x != x')
    ensures l.Offset(y', x') + 4 * l.w <= l.Offset(y, x) || l.Offset(y, x) + 4 * l.w <= l.Offset(y', x')
  {
    var p := 4 * l.w;
    InRow(p, x, l.width);
    InRow(p, x', l.width);
    if y == y' {
      if x < x' { ProductGap(x, x', p); } else { ProductGap(x', x, p); }
    } else if y < y' {
      ProductGap(y, y', l.pitch);
    } else {
      ProductGap(y', y, l.pitch);
    }
  }

  lemma InRow(p: nat, x: nat, width: nat)
    requires x < width
    ensures 0 <= x * p && x * p + p <= width * p
  {
    ProductOrder(x + 1, width, p);
    ProductStep(x, p);
  }

  // ---------- packing ----------

  /** Start of a plane's row: an `unsigned int` product. */
  function RowStart(y: nat, width: nat): nat { (y * width) % 0x1_0000_0000 }

  lemma RowStartInPlane(y: nat, x: nat, width: nat, height: nat)
    requires y < height && x < width
    ensures RowStart(y, width) + x < width * height
  {
    WrapIsLess(y * width);
    ProductOrder(y + 1, height, width);
    ProductStep(y, width);
  }

  lemma WrapIsLess(m: nat)
    ensures m % 0x1_0000_0000 <= m
  {
  }

  lemma WrapsFrom(m: nat)
    ensures m % 0x1_0000_0000 == m <==> m < 0x1_0000_0000
  {
  }

  /** The products do not wrap exactly when the last row starts below 2^32. */
  lemma RowStartIsExact(width: nat, height: nat)
    ensures (forall y: nat :: y < height ==> RowStart(y, width) == y * width)
            <==> height == 0 || (height - 1) * width < 0x1_0000_0000
  {
    if height > 0 {
      var last := height - 1;
      WrapsFrom(last * width);
      if last * width < 0x1_0000_0000 {
        forall y: nat | y < height
          ensures RowStart(y, width) == y * width
        {
          ProductOrder(y, last, width);
          WrapsFrom(y * width);
        }
      } else {
        assert RowStart(last, width) != last * width;
      }
    }
  }

  /** The three planes, row by row. */
  datatype Planes = Planes(red: seq<nat>, green: seq<nat>, blue: seq<nat>)
  {
    predicate Valid(l: Layout) {
      |red| == |green| == |blue| == l.width * l.height
    }

    function PixelAt(l: Layout, y: nat, x: nat): (bs: seq<byte>)
      requires Valid(l) && l.Has(y, x)
      ensures |bs| == 4 * l.w
    {
      RowStartInPlane(y, x, l.width, l.height);
      var k := RowStart(y, l.width) + x;
      PixelBytes(blue[k], green[k], red[k], l.w)
    }
  }

  /** Pixel (y, x) of the buffer holds its planes' values. */
  ghost predicate Holds(buf: seq<byte>, l: Layout, p: Planes, y: nat, x: nat)
    requires p.Valid(l) && l.Has(y, x) && l.Fits(|buf|)
  {
    buf[l.Offset(y, x)..l.Offset(y, x) + 4 * l.w] == p.PixelAt(l, y, x)
  }

  /** `s` with the bytes from `at` on replaced by `x`. */
  function Splice(s: seq<byte>, at: nat, x: seq<byte>): (r: seq<byte>)
    requires at + |x| <= |s|
    ensures |r| == |s|
  {
    s[..at] + x + s[at + |x|..]
  }

  /** Two adjacent writes are one. */
  lemma SpliceTwice(s: seq<byte>, at: nat, x: seq<byte>, y: seq<byte>)
    requires at + |x| + |y| <= |s|
    ensures Splice(Splice(s, at, x), at + |x|, y) == Splice(s, at, x + y)
  {
  }

  /** Writing the byte that follows the bytes written so far. */
  lemma SpliceByte(s: seq<byte>, at: nat, done: seq<byte>, x: byte)
    requires at + |done| < |s|
    ensures Splice(s, at, done)[at + |done| := x] == Splice(s, at, done + [x])
  {
  }

  lemma SpliceNothing(s: seq<byte>, at: nat)
    requires at <= |s|
    ensures Splice(s, at, []) == s
  {
  }

  /** Writing one element. */
  method StoreElement(dest: array<byte>, at: nat, v: nat, w: nat)
    requires at + w <= dest.Length
    modifies dest
    ensures dest[..] == Splice(old(dest[..]), at, Bytes(v, w))
  {
    hide Splice;
    var rest := v;
    ghost var before := dest[..];
    ghost var done: seq<byte> := [];
    SpliceNothing(before, at);
    for k := 0 to w
      invariant |done| == k && done + Bytes(rest, w - k) == Bytes(v, w)
      invariant dest[..] == Splice(before, at, done)
    {
      var x := (rest % 256) as byte;
      ghost var now := dest[..];
      SpliceByte(before, at, done, x);
      dest[at + k] := x;
      assert dest[..] == now[at + k := x];
      done := done + [x];
      rest := rest / 256;
    }
    assert done + [] == done;
  }

  /** Writing one pixel, field by field. */
  method StorePixel(dest: array<byte>, at: nat, b: nat, g: nat, r: nat, w: nat)
    requires at + 4 * w <= dest.Length
    modifies dest
    ensures dest[..] == Splice(old(dest[..]), at, PixelBytes(b, g, r, w))
  {
    hide Bytes, AllOnes, Splice;
    ghost var before := dest[..];
    ghost var bs, gs, rs, ones := Bytes(b, w), Bytes(g, w), Bytes(r, w), Bytes(AllOnes(w), w);
    StoreElement(dest, at, b, w);
    StoreElement(dest, at + w, g, w);
    SpliceTwice(before, at, bs, gs);
    StoreElement(dest, at + 2 * w, r, w);
    SpliceTwice(before, at, bs + gs, rs);
    StoreElement(dest, at + 3 * w, AllOnes(w), w);
    SpliceTwice(before, at, bs + gs + rs, ones);
  }

  lemma OffsetInside(l: Layout, size: nat, y: nat, x: nat)
    requires l.Fits(size) && l.Has(y, x)
    ensures 0 <= l.Offset(y, x) <= size - 4 * l.w
  {
  }

  lemma SpliceInside(s: seq<byte>, at: nat, x: seq<byte>)
    requires at + |x| <= |s|
    ensures Splice(s, at, x)[at..at + |x|] == x
  {
  }

  lemma SpliceOutside(s: seq<byte>, at: nat, x: seq<byte>, i: nat, n: nat)
    requires at + |x| <= |s| && i + n <= |s| && (i + n <= at || at + |x| <= i)
    ensures Splice(s, at, x)[i..i + n] == s[i..i + n]
  {
  }

  /** Writing a pixel leaves every other pixel alone. */
  lemma PixelKept(before: seq<byte>, l: Layout, p: Planes, y: nat, x: nat, y': nat, x': nat)
    requires p.Valid(l) && l.Has(y, x) && l.Has(y', x') && (y' != y || x' != x) && l.Fits(|before|)
    requires Holds(before, l, p, y', x')
    ensures 0 <= l.Offset(y, x) <= |before| - 4 * l.w
    ensures Holds(Splice(before, l.Offset(y, x), p.PixelAt(l, y, x)), l, p, y', x')
  {
    hide PixelBytes, RowStart, Layout.Offset, Splice, Planes.PixelAt;
    PixelsApart(l, |before|, y, x, y', x');
    OffsetInside(l, |before|, y, x);
    OffsetInside(l, |before|, y', x');
    SpliceOutside(before, l.Offset(y, x), p.PixelAt(l, y, x), l.Offset(y', x'), 4 * l.w);
  }

  /** Writing a pixel leaves the padding alone. */
  lemma PaddingKept(before: seq<byte>, l: Layout, pixel: seq<byte>, y: nat, x: nat, i: nat)
    requires l.Has(y, x) && l.Fits(|before|) && |pixel| == 4 * l.w && i < |before| && l.Padding(i)
    ensures 0 <= l.Offset(y, x) <= |before| - 4 * l.w
    ensures Splice(before, l.Offset(y, x), pixel)[i] == before[i]
  {
  }

  /** Pixels are written row by row, left to right. */
  predicate Reached(y: int, x: int, row: int, column: int) { y < row || (y == row && x < column) }

  /** All pixels up to (row, column) hold their values and the padding is as before. */
  ghost predicate PackedUpTo(was: seq<byte>, buf: seq<byte>, l: Layout, p: Planes, row: nat, column: nat)
    requires p.Valid(l) && l.Fits(|was|)
  {
    && |buf| == |was|
    && (forall y, x :: l.Has(y, x) && Reached(y, x, row, column) ==> Holds(buf, l, p, y, x))
    && forall i :: 0 <= i < |was| && l.Padding(i) ==> buf[i] == was[i]
  }

  lemma PackedStep(was: seq<byte>, before: seq<byte>, after: seq<byte>, l: Layout, p: Planes, y: nat, x: nat)
    requires p.Valid(l) && l.Fits(|was|) && l.Has(y, x) && PackedUpTo(was, before, l, p, y, x)
    requires 0 <= l.Offset(y, x) <= |before| - 4 * l.w && after == Splice(before, l.Offset(y, x), p.PixelAt(l, y, x))
    ensures PackedUpTo(was, after, l, p, y, x + 1)
  {
    hide PixelBytes, RowStart, Layout.Offset, Splice, Planes.PixelAt;
    forall y', x' | l.Has(y', x') && Reached(y', x', y, x + 1)
      ensures Holds(after, l, p, y', x')
    {
      if y' == y && x' == x {
        SpliceInside(before, l.Offset(y, x), p.PixelAt(l, y, x));
      } else {
        PixelKept(before, l, p, y, x, y', x');
      }
    }
    forall i | 0 <= i < |was| && l.Padding(i)
      ensures after[i] == was[i]
    {
      PaddingKept(before, l, p.PixelAt(l, y, x), y, x, i);
    }
  }

  lemma RowDone(was: seq<byte>, buf: seq<byte>, l: Layout, p: Planes, y: nat)
    requires p.Valid(l) && l.Fits(|was|) && PackedUpTo(was, buf, l, p, y, l.width)
    ensures PackedUpTo(was, buf, l, p, y + 1, 0)
  {
  }

  /** The nested loops of the packer. Afterwards every pixel holds its planes' values and
      every padding byte its old value. */
  method PackBGRx(red: array<nat>, green: array<nat>, blue: array<nat>, dest: array<byte>, l: Layout)
    requires Planes(red[..], green[..], blue[..]).Valid(l) && l.Fits(dest.Length)
    requires dest as object != red && dest as object != green && dest as object != blue
    modifies dest
    ensures PackedUpTo(old(dest[..]), dest[..], l, Planes(red[..], green[..], blue[..]), l.height, 0)
  {
    ghost var p := Planes(red[..], green[..], blue[..]);
    ghost var was := dest[..];
    for y := 0 to l.height
      invariant PackedUpTo(was, dest[..], l, p, y, 0)
    {
      var row := RowStart(y, l.width);
      for x := 0 to l.width
        invariant PackedUpTo(was, dest[..], l, p, y, x)
      {
        hide PackedUpTo, RowStart, PixelBytes;
        RowStartInPlane(y, x, l.width, l.height);
        assert l.Has(y, x);
        ghost var before := dest[..];
        StorePixel(dest, l.Offset(y, x), blue[row + x], green[row + x], red[row + x], l.w);
        PackedStep(was, before, dest[..], l, p, y, x);
      }
      RowDone(was, dest[..], l, p, y);
    }
  }

  // ---------- recovery ----------

  predicate InRange(s: seq<nat>, limit: nat) { forall k :: 0 <= k < |s| ==> s[k] < limit }

  /** Planes of the image's size with elements of `w` bytes. */
  predicate Image(p: Planes, l: Layout) {
    p.Valid(l) && InRange(p.red, Limit(l.w)) && InRange(p.green, Limit(l.w)) && InRange(p.blue, Limit(l.w))
  }

  /** The element values at a pixel of a packed buffer are those that the row product, with
      its wrap-around, selects in the planes. */
  lemma PixelRecovered(was: seq<byte>, buf: seq<byte>, l: Layout, p: Planes, y: nat, x: nat)
    requires Image(p, l) && l.Fits(|was|) && l.Has(y, x) && PackedUpTo(was, buf, l, p, l.height, 0)
    ensures RowStart(y, l.width) + x < l.width * l.height
    ensures
      var at := l.Offset(y, x);
      var k := RowStart(y, l.width) + x;
      && Value(buf[at..at + l.w]) == p.blue[k]
      && Value(buf[at + l.w..at + 2 * l.w]) == p.green[k]
      && Value(buf[at + 2 * l.w..at + 3 * l.w]) == p.red[k]
      && Value(buf[at + 3 * l.w..at + 4 * l.w]) == AllOnes(l.w)
  {
    hide PixelBytes, Value, Limit, AllOnes, RowStart;
    RowStartInPlane(y, x, l.width, l.height);
    var k := RowStart(y, l.width) + x;
    assert Reached(y, x, l.height, 0) && Holds(buf, l, p, y, x);
    ImageAt(p, l, k);
    hide InRange;
    PixelParts(p.blue[k], p.green[k], p.red[k], l.w);
    SlicesOf(buf, l.Offset(y, x), l.w);
  }

  lemma AlphaPart(b: nat, g: nat, r: nat, w: nat)
    ensures PixelBytes(b, g, r, w)[3 * w..] == Bytes(AllOnes(w), w)
  {
    hide Bytes, AllOnes;
  }

  /** Every byte of a packed pixel's alpha is 255. */
  lemma AlphaIsOpaque(was: seq<byte>, buf: seq<byte>, l: Layout, p: Planes, y: nat, x: nat)
    requires p.Valid(l) && l.Fits(|was|) && l.Has(y, x) && PackedUpTo(was, buf, l, p, l.height, 0)
    ensures 0 <= l.Offset(y, x) <= |buf| - 4 * l.w
    ensures Opaque(buf[l.Offset(y, x) + 3 * l.w..l.Offset(y, x) + 4 * l.w])
  {
    hide Bytes, AllOnes, RowStart, PixelBytes, Opaque;
    RowStartInPlane(y, x, l.width, l.height);
    var k := RowStart(y, l.width) + x;
    assert Reached(y, x, l.height, 0) && Holds(buf, l, p, y, x);
    OffsetInside(l, |buf|, y, x);
    hide Layout.Offset;
    SlicesOf(buf, l.Offset(y, x), l.w);
    AllOnesBytes(l.w);
    AlphaPart(p.blue[k], p.green[k], p.red[k], l.w);
  }

  lemma ImageAt(p: Planes, l: Layout, k: nat)
    requires Image(p, l) && k < l.width * l.height
    ensures p.blue[k] < Limit(l.w) && p.green[k] < Limit(l.w) && p.red[k] < Limit(l.w)
  {
  }

  lemma SliceOfSlice(buf: seq<byte>, a: nat, b: nat, i: nat, j: nat)
    requires a + j <= b <= |buf| && i <= j
    ensures buf[a..b][i..j] == buf[a + i..a + j]
  {
    var s, t := buf[a..b][i..j], buf[a + i..a + j];
    forall k | 0 <= k < j - i
      ensures s[k] == t[k]
    {
      assert s[k] == buf[a..b][i + k] == buf[a + (i + k)];
      assert t[k] == buf[(a + i) + k];
    }
    assert |s| == |t|;
  }

  lemma SlicesOf(buf: seq<byte>, at: nat, w: nat)
    requires at + 4 * w <= |buf|
    ensures
      var pixel := buf[at..at + 4 * w];
      && pixel[..w] == buf[at..at + w] && pixel[w..2 * w] == buf[at + w..at + 2 * w]
      && pixel[2 * w..3 * w] == buf[at + 2 * w..at + 3 * w] && pixel[3 * w..] == buf[at + 3 * w..at + 4 * w]
  {
    SliceOfSlice(buf, at, at + 4 * w, 0, w);
    SliceOfSlice(buf, at, at + 4 * w, w, 2 * w);
    SliceOfSlice(buf, at, at + 4 * w, 2 * w, 3 * w);
    SliceOfSlice(buf, at, at + 4 * w, 3 * w, 4 * w);
    var pixel := buf[at..at + 4 * w];
    assert pixel[3 * w..] == pixel[3 * w..4 * w];
  }

  lemma IndexIsPixel(k: nat, width: nat, height: nat)
    requires k < width * height
    ensures width > 0 && k / width < height && k % width < width && k == (k / width) * width + k % width
  {
  }

  ghost predicate SamePixels(l: Layout, p: Planes, q: Planes) {
    && p.Valid(l) && q.Valid(l)
    && forall y, x :: l.Has(y, x) ==> p.PixelAt(l, y, x) == q.PixelAt(l, y, x)
  }

  /** Two images fill a buffer alike exactly when all their pixels are the same. */
  lemma SameBufferIsSamePixels(was: seq<byte>, buf: seq<byte>, l: Layout, p: Planes, q: Planes)
    requires p.Valid(l) && q.Valid(l) && l.Fits(|was|) && PackedUpTo(was, buf, l, p, l.height, 0)
    ensures PackedUpTo(was, buf, l, q, l.height, 0) <==> SamePixels(l, p, q)
  {
    hide Planes.PixelAt, Layout.Offset;
    if PackedUpTo(was, buf, l, q, l.height, 0) {
      forall y, x | l.Has(y, x)
        ensures p.PixelAt(l, y, x) == q.PixelAt(l, y, x)
      {
        assert Reached(y, x, l.height, 0) && Holds(buf, l, p, y, x) && Holds(buf, l, q, y, x);
      }
    }
    if SamePixels(l, p, q) {
      forall y, x | l.Has(y, x)
        ensures Holds(buf, l, q, y, x)
      {
        assert Reached(y, x, l.height, 0) && Holds(buf, l, p, y, x);
      }
    }
  }

  /** The pixels give back the plane elements they are made of. */
  lemma PixelGivesElements(l: Layout, p: Planes, q: Planes, y: nat, x: nat)
    requires Image(p, l) && Image(q, l) && SamePixels(l, p, q) && l.Has(y, x)
    ensures
      var k := RowStart(y, l.width) + x;
      k < l.width * l.height && p.red[k] == q.red[k] && p.green[k] == q.green[k] && p.blue[k] == q.blue[k]
  {
    hide PixelBytes, Value, Limit, AllOnes, RowStart;
    RowStartInPlane(y, x, l.width, l.height);
    var k := RowStart(y, l.width) + x;
    ImageAt(p, l, k);
    ImageAt(q, l, k);
    hide Image;
    assert p.PixelAt(l, y, x) == q.PixelAt(l, y, x);
    PixelParts(p.blue[k], p.green[k], p.red[k], l.w);
    PixelParts(q.blue[k], q.green[k], q.red[k], l.w);
  }

  lemma SmallImagesDiffer(l: Layout, p: Planes, q: Planes)
    requires (l.height - 1) * l.width < 0x1_0000_0000
    requires Image(p, l) && Image(q, l) && SamePixels(l, p, q)
    ensures p == q
  {
    RowStartIsExact(l.width, l.height);
    hide SamePixels, InRange, RowStart;
    forall k | 0 <= k < l.width * l.height
      ensures p.red[k] == q.red[k] && p.green[k] == q.green[k] && p.blue[k] == q.blue[k]
    {
      IndexIsPixel(k, l.width, l.height);
      var y, x := k / l.width, k % l.width;
      PixelGivesElements(l, p, q, y, x);
      assert RowStart(y, l.width) == y * l.width;
    }
  }

  /** Once a row product wraps, the last element of a plane is never read. */
  lemma LastIsNeverRead(l: Layout, y: nat, x: nat)
    requires (l.height - 1) * l.width >= 0x1_0000_0000 && l.Has(y, x)
    ensures RowStart(y, l.width) + x < l.width * l.height - 1
  {
    ProductStep(l.height - 1, l.width);
  }

  lemma LargeImagesCollide(l: Layout) returns (p: Planes, q: Planes)
    requires (l.height - 1) * l.width >= 0x1_0000_0000 && l.w > 0
    ensures Image(p, l) && Image(q, l) && SamePixels(l, p, q) && p != q
  {
    hide PixelBytes, RowStart;
    var n := l.width * l.height;
    assert n > 0 by {
      ProductStep(l.height - 1, l.width);
    }
    var zeros: seq<nat> := seq(n, _ => 0);
    p := Planes(zeros, zeros, zeros);
    q := p.(red := zeros[n - 1 := 1]);
    LimitIsPositive(l.w - 1);
    assert p.red[n - 1] != q.red[n - 1];
    forall y, x | l.Has(y, x)
      ensures p.PixelAt(l, y, x) == q.PixelAt(l, y, x)
    {
      LastIsNeverRead(l, y, x);
    }
  }

  /** The pixels of a packed image determine its planes exactly when no row product wraps. */
  lemma PackingIsInjective(l: Layout)
    requires l.w > 0
    ensures (forall p: Planes, q: Planes :: Image(p, l) && Image(q, l) && SamePixels(l, p, q) ==> p == q)
            <==> (l.height - 1) * l.width < 0x1_0000_0000
  {
    hide Image, SamePixels;
    if (l.height - 1) * l.width < 0x1_0000_0000 {
      forall p: Planes, q: Planes | Image(p, l) && Image(q, l) && SamePixels(l, p, q)
        ensures p == q
      {
        SmallImagesDiffer(l, p, q);
      }
    } else {
      var p, q := LargeImagesCollide(l);
    }
  }
}
