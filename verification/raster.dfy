/**
 The raster encoder: label images to the byte stream for one job. Rows are mirrored left
 to right and packed eight dots to a byte, the leftmost dot of the head in the high bit.
 */
module Raster {
  import opened Bytes
  import opened CommandStream

  const HEAD_DOTS := 720
  const ROW_BYTES := 90
  const MIN_ROWS := 150
  const MAX_ROWS := 11811

  // ----- Images -----

  /** A pixel: a gray level, or a colour after conversion to non-premultiplied red, green, blue. */
  datatype Color = Gray(y: byte) | Rgb(r: byte, g: byte, b: byte)

  /** Red, green and blue weighted for luma, in 1/65536. */
  function Weighted(r: byte, g: byte, b: byte): nat {
    var r', g', b': nat := r, g, b;
    19595 * r' + 38470 * g' + 7471 * b'
  }

  function Luma(c: Color): (l: nat)
    ensures l <= 255
  {
    match c
    case Gray(y) => y
    case Rgb(r, g, b) => (Weighted(r, g, b) + 0x8000) / 0x1_0000
  }

  /** `255-l >= 127`, on 32-bit unsigned numbers. */
  predicate IsInk(c: Color) {
    (255 - Luma(c)) % 0x1_0000_0000 >= 127
  }

  /** Pixels whose luma, rounded to the nearest level, is at most 128 become dots. */
  lemma {:induction false} InkIff(c: Color)
    ensures IsInk(c) <==>
      match c
      case Gray(y) => y <= 128
      case Rgb(r, g, b) => 2 * (19595 * r as int + 38470 * g as int + 7471 * b as int) < 257 * 65536
  {
  }

  /** An image's bounds may start anywhere; its rows are equally wide. */
  datatype RawImage = Image(minX: int, minY: int, width: nat, rows: seq<seq<Color>>) {
    predicate Valid() {
      forall y | 0 <= y < |rows| :: |rows[y]| == width
    }

    function At(x: int, y: int): Color
      requires Valid() && minX <= x < minX + width && minY <= y < minY + |rows|
    {
      rows[y - minY][x - minX]
    }
  }

  type Image = i: RawImage | i.Valid() witness Image(0, 0, 0, [])

  // ----- Rolls -----

  datatype RawRoll = Roll(widthMM: byte, dotsTotal: nat, dotsPrintable: nat, offsetRight: nat, feedMargin: nat) {
    /** The printable dots lie on the tape and under the head. */
    predicate Valid() {
      dotsPrintable <= dotsTotal && dotsPrintable + offsetRight <= HEAD_DOTS && feedMargin < 0x1_0000
    }

    /** How many dots of the head lie beyond the printable area on its left, as the label is seen. */
    function Pad(): nat
      requires Valid()
    {
      HEAD_DOTS - dotsPrintable - offsetRight
    }
  }

  /** DK-22205, the roll that every station runs. */
  const CONTINUOUS_62: RawRoll := Roll(62, 732, 696, 12, 35)

  type Roll = r: RawRoll | r.Valid() witness CONTINUOUS_62

  datatype Options = Options(cut: bool, noMediaCheck: bool)

  // ----- One row -----

  /** The first column used: the tape's centre, or all of an image as wide as the printable area. */
  function Left(img: Image, roll: Roll): nat {
    if img.width == roll.dotsTotal then (roll.dotsTotal - roll.dotsPrintable) / 2 else 0
  }

  predicate Fits(img: Image, roll: Roll) {
    img.width == roll.dotsTotal || img.width == roll.dotsPrintable
  }

  /** Pixel x of the printable area in row y becomes a dot. */
  predicate Inked(img: Image, roll: Roll, y: nat, x: nat)
    requires Fits(img, roll) && y < |img.rows| && x < roll.dotsPrintable
  {
    IsInk(img.At(img.minX + Left(img, roll) + x, img.minY + y))
  }

  /** The dot of the head that pixel x of the printable area is printed by. */
  function HeadDot(roll: Roll, x: nat): (d: nat)
    requires x < roll.dotsPrintable
    ensures d < HEAD_DOTS
  {
    HEAD_DOTS - 1 - (roll.Pad() + x)
  }

  /** Dot d of the head prints in row y: some inked pixel among the first `width` falls on it. */
  predicate PrintsDot(img: Image, roll: Roll, y: nat, width: nat, d: nat)
    requires Fits(img, roll) && y < |img.rows| && width <= roll.dotsPrintable
  {
    var x := HEAD_DOTS - 1 - roll.Pad() - d;
    0 <= x < width && Inked(img, roll, y, x)
  }

  /** Dot d of a packed row. */
  predicate Dot(row: seq<byte>, d: nat)
    requires d < 8 * |row|
  {
    HasBit(row[d / 8], 7 - d % 8)
  }

  /** The first n dots from dot 8 * k on, packed from the high bit down. */
  function PackedByte(img: Image, roll: Roll, y: nat, k: nat, n: nat): byte
    requires Fits(img, roll) && y < |img.rows| && n <= 8
  {
    if n == 0 then 0
    else
      var b := PackedByte(img, roll, y, k, n - 1);
      if PrintsDot(img, roll, y, roll.dotsPrintable, 8 * k + n - 1) then ByteWithBit(b, 8 - n) else b
  }

  function PackedRow(img: Image, roll: Roll, y: nat): (row: seq<byte>)
    requires Fits(img, roll) && y < |img.rows|
    ensures |row| == ROW_BYTES
  {
    seq(ROW_BYTES, k requires 0 <= k => PackedByte(img, roll, y, k, 8))
  }

  lemma {:induction false} PackedByteBits(img: Image, roll: Roll, y: nat, k: nat, n: nat, j: nat)
    requires Fits(img, roll) && y < |img.rows| && n <= 8 && j < 8
    ensures HasBit(PackedByte(img, roll, y, k, n), 7 - j) <==>
      j < n && PrintsDot(img, roll, y, roll.dotsPrintable, 8 * k + j)
  {
    if n == 0 {
      ZeroBits(7 - j);
    } else {
      PackedByteBits(img, roll, y, k, n - 1, j);
      BitAfterSet(PackedByte(img, roll, y, k, n - 1), 8 - n, 7 - j);
    }
  }

  /** A packed row holds exactly the inked pixels of the image's row, mirrored. */
  lemma {:induction false} PackedRowDots(img: Image, roll: Roll, y: nat)
    requires Fits(img, roll) && y < |img.rows|
    ensures forall d: nat | d < HEAD_DOTS ::
      Dot(PackedRow(img, roll, y), d) <==> PrintsDot(img, roll, y, roll.dotsPrintable, d)
  {
    forall d: nat | d < HEAD_DOTS
      ensures Dot(PackedRow(img, roll, y), d) <==> PrintsDot(img, roll, y, roll.dotsPrintable, d)
    {
      PackedByteBits(img, roll, y, d / 8, 8, d % 8);
    }
  }

  /** Rows with the same dots are the same rows. */
  lemma {:induction false} SameRow(a: seq<byte>, b: seq<byte>)
    requires |a| == |b| && forall d: nat | d < 8 * |a| :: Dot(a, d) <==> Dot(b, d)
    ensures a == b
  {
    forall k | 0 <= k < |a|
      ensures a[k] == b[k]
    {
      forall j: nat | j < 8
        ensures HasBit(a[k], j) <==> HasBit(b[k], j)
      {
        var d := 8 * k + 7 - j;
        assert Dot(a, d) <==> Dot(b, d);
      }
      SameByte(a[k], b[k]);
    }
  }

  /** Draws row y of the image into the row buffer. */
  method PackRow(row: array<byte>, img: Image, roll: Roll, y: nat)
    requires row.Length == ROW_BYTES
    requires Fits(img, roll) && y < |img.rows|
    modifies row
    ensures row[..] == PackedRow(img, roll, y)
  {
    for k := 0 to ROW_BYTES
      invariant forall j | 0 <= j < k :: row[j] == 0
    {
      row[k] := 0;
    }
    var left, pad := Left(img, roll), roll.Pad();
    forall d: nat | d < HEAD_DOTS
      ensures !Dot(row[..], d)
    {
      ZeroBits(7 - d % 8);
    }
    for x := 0 to roll.dotsPrintable
      invariant forall d: nat | d < HEAD_DOTS :: Dot(row[..], d) <==> PrintsDot(img, roll, y, x, d)
    {
      if IsInk(img.At(img.minX + left + x, img.minY + y)) {
        var hx := HEAD_DOTS - 1 - (pad + x);
        ghost var was := row[..];
        row[hx / 8] := ByteWithBit(row[hx / 8], 7 - hx % 8);
        DotAfterSet(was, row[..], hx);
      }
    }
    PackedRowDots(img, roll, y);
    SameRow(row[..], PackedRow(img, roll, y));
  }

  lemma DotAfterSet(was: seq<byte>, now: seq<byte>, hx: nat)
    requires hx < 8 * |was| && now == was[hx / 8 := ByteWithBit(was[hx / 8], 7 - hx % 8)]
    ensures forall d: nat | d < 8 * |was| :: Dot(now, d) <==> d == hx || Dot(was, d)
  {
    forall d: nat | d < 8 * |was|
      ensures Dot(now, d) <==> d == hx || Dot(was, d)
    {
      if d / 8 == hx / 8 {
        BitAfterSet(was[hx / 8], 7 - hx % 8, 7 - d % 8);
      }
    }
  }

  // ----- Pages -----

  function LittleEndian16(n: nat): (s: seq<byte>)
    ensures |s| == 2
  {
    [n % 256, n / 256 % 256]
  }

  function LittleEndian32(n: nat): (s: seq<byte>)
    ensures |s| == 4
  {
    [n % 256, n / 256 % 256, n / 0x1_0000 % 256, n / 0x100_0000 % 256]
  }

  /** The fields of ESC i z marked valid: recover and quality, and the roll unless it is not to be checked. */
  function ValidFlags(opts: Options): byte {
    if opts.noMediaCheck then 0xC0 else 0xCE
  }

  function PageInfo(rows: nat, roll: Roll, opts: Options, first: bool): Command {
    Setting(0x7A, [ValidFlags(opts), 0x0A, roll.widthMM, 0] + LittleEndian32(rows) + [if first then 0 else 1, 0])
  }

  function CutSettings(opts: Options): seq<Command> {
    if opts.cut then [Setting(0x4D, [0x40]), Setting(0x41, [0x01])] else []
  }

  function PageSettings(rows: nat, roll: Roll, opts: Options, first: bool): seq<Command> {
    [PageInfo(rows, roll, opts, first)] + CutSettings(opts) +
    [Setting(0x4B, [if opts.cut then 8 else 0]), Setting(0x64, LittleEndian16(roll.feedMargin))]
  }

  function RowCommands(img: Image, roll: Roll, n: nat): (cmds: seq<Command>)
    requires Fits(img, roll) && n <= |img.rows|
    ensures |cmds| == n
  {
    seq(n, y requires 0 <= y < n => RasterLine(0, PackedRow(img, roll, y)))
  }

  predicate PageOk(img: Image, roll: Roll) {
    Fits(img, roll) && MIN_ROWS <= |img.rows| <= MAX_ROWS
  }

  function PageCommands(img: Image, roll: Roll, opts: Options, first: bool, last: bool): seq<Command>
    requires PageOk(img, roll)
  {
    PageSettings(|img.rows|, roll, opts, first) + RowCommands(img, roll, |img.rows|) + [Print(last)]
  }

  datatype PageError = WrongWidth(got: nat) | WrongLength(rows: nat)

  function PageFault(img: Image, roll: Roll): PageError
    requires !PageOk(img, roll)
  {
    if !Fits(img, roll) then WrongWidth(img.width) else WrongLength(|img.rows|)
  }

  datatype Written = Bytes(data: seq<byte>) | PageFailed(error: PageError)

  /** The page's settings as writePage puts them into the buffer. */
  method WriteSettings(h: nat, roll: Roll, opts: Options, first: bool) returns (out: seq<byte>)
    requires h <= MAX_ROWS
    ensures out == RenderAll(PageSettings(h, roll, opts, first))
  {
    hide Render, RenderAll, LittleEndian32, LittleEndian16;
    var valid: byte := 0x80 + 0x40 + 0x08 + 0x04 + 0x02;
    if opts.noMediaCheck {
      valid := 0x80 + 0x40;
    }
    var page: byte := 0;
    if !first {
      page := 1;
    }
    var rows := LittleEndian32(h);
    var info := [0x1B, 0x69, 0x7A, valid, 0x0A, roll.widthMM, 0x00] + rows + [page, 0x00];
    RenderInfo(valid, roll.widthMM, rows, page);
    var cut := [];
    var expanded: byte := 0;
    if opts.cut {
      cut := [0x1B, 0x69, 0x4D, 0x40] + [0x1B, 0x69, 0x41, 0x01];
      expanded := 8;
    }
    RenderCut(opts);
    var margin := LittleEndian16(roll.feedMargin);
    RenderTail(expanded, margin);
    out := info + cut + [0x1B, 0x69, 0x4B, expanded] + ([0x1B, 0x69, 0x64] + margin);
    RenderParts(PageInfo(h, roll, opts, first), CutSettings(opts), Setting(0x4B, [expanded]), Setting(0x64, margin));
  }

  lemma RenderInfo(valid: byte, width: byte, rows: seq<byte>, page: byte)
    requires |rows| == 4
    ensures Render(Setting(0x7A, [valid, 0x0A, width, 0] + rows + [page, 0])) ==
      [0x1B, 0x69, 0x7A, valid, 0x0A, width, 0x00] + rows + [page, 0x00]
  {
  }

  lemma RenderTail(expanded: byte, margin: seq<byte>)
    requires |margin| == 2
    ensures Render(Setting(0x4B, [expanded])) == [0x1B, 0x69, 0x4B, expanded]
    ensures Render(Setting(0x64, margin)) == [0x1B, 0x69, 0x64] + margin
  {
  }

  lemma RenderCut(opts: Options)
    ensures RenderAll(CutSettings(opts)) ==
      if opts.cut then [0x1B, 0x69, 0x4D, 0x40] + [0x1B, 0x69, 0x41, 0x01] else []
  {
    if opts.cut {
      RenderPair([], Setting(0x4D, [0x40]), Setting(0x41, [0x01]));
      assert [] + CutSettings(opts) == CutSettings(opts);
    }
  }

  lemma RenderParts(a: Command, mid: seq<Command>, c: Command, d: Command)
    ensures RenderAll([a] + mid + [c, d]) == Render(a) + RenderAll(mid) + Render(c) + Render(d)
  {
    RenderSingle(a);
    RenderAppend([a], mid);
    RenderPair([a] + mid, c, d);
  }

  lemma RenderPair(done: seq<Command>, c: Command, d: Command)
    ensures RenderAll(done + [c, d]) == RenderAll(done) + Render(c) + Render(d)
  {
    assert [c, d] == [c] + [d];
    RenderAppend([c], [d]);
    RenderAppend(done, [c, d]);
    RenderSingle(c);
    RenderSingle(d);
  }

  method WriteRows(img: Image, roll: Roll) returns (out: seq<byte>)
    requires Fits(img, roll)
    ensures out == RenderAll(RowCommands(img, roll, |img.rows|))
  {
    out := [];
    var row := new byte[ROW_BYTES];
    for y := 0 to |img.rows|
      invariant out == RenderAll(RowCommands(img, roll, y))
    {
      PackRow(row, img, roll, y);
      out := out + [0x67, 0x00, ROW_BYTES];
      out := out + row[..];
      RenderRow(img, roll, y);
    }
  }

  lemma RenderRow(img: Image, roll: Roll, y: nat)
    requires Fits(img, roll) && y < |img.rows|
    ensures RenderAll(RowCommands(img, roll, y + 1)) ==
      RenderAll(RowCommands(img, roll, y)) + [0x67, 0x00, ROW_BYTES] + PackedRow(img, roll, y)
  {
    var line: Command := RasterLine(0, PackedRow(img, roll, y));
    assert RowCommands(img, roll, y + 1) == RowCommands(img, roll, y) + [line];
    RenderAppend(RowCommands(img, roll, y), [line]);
    RenderSingle(line);
  }

  method WritePage(img: Image, roll: Roll, opts: Options, first: bool, last: bool) returns (r: Written)
    ensures r == if PageOk(img, roll) then Bytes(RenderAll(PageCommands(img, roll, opts, first, last)))
                 else PageFailed(PageFault(img, roll))
  {
    var w, h := img.width, |img.rows|;
    if w != roll.dotsTotal && w != roll.dotsPrintable {
      return PageFailed(WrongWidth(w));
    }
    if h < MIN_ROWS || h > MAX_ROWS {
      return PageFailed(WrongLength(h));
    }
    var settings := WriteSettings(h, roll, opts, first);
    var rows := WriteRows(img, roll);
    var ending := if last then [0x1A] else [0x0C];
    ghost var front, lines := PageSettings(h, roll, opts, first), RowCommands(img, roll, h);
    RenderAppend(front, lines);
    RenderAppend(front + lines, [Print(last)]);
    RenderSingle(Print(last));
    return Bytes(settings + rows + ending);
  }

  // ----- Jobs -----

  /** The first n pages can be encoded. */
  predicate PagesOk(imgs: seq<Image>, roll: Roll, n: nat)
    requires n <= |imgs|
  {
    forall i | 0 <= i < n :: PageOk(imgs[i], roll)
  }

  /** The commands of the first n pages of a job. */
  function PagesUpTo(imgs: seq<Image>, roll: Roll, opts: Options, n: nat): seq<Command>
    requires n <= |imgs| && PagesOk(imgs, roll, n)
  {
    if n == 0 then []
    else PagesUpTo(imgs, roll, opts, n - 1) + PageCommands(imgs[n - 1], roll, opts, n == 1, n == |imgs|)
  }

  /** Invalidate, initialise, raster mode: once, before the first page. */
  function Preamble(): seq<Command> {
    seq(400, _ => Invalidate) + [Initialize, Setting(0x61, [0x01])]
  }

  function JobCommands(imgs: seq<Image>, roll: Roll, opts: Options): seq<Command>
    requires PagesOk(imgs, roll, |imgs|)
  {
    Preamble() + PagesUpTo(imgs, roll, opts, |imgs|)
  }

  datatype Encoding = Encoded(data: seq<byte>) | NoPages | BadPage(page: nat, error: PageError)

  /** Page k is the first one that cannot be encoded. */
  predicate FirstBadPage(imgs: seq<Image>, roll: Roll, k: nat) {
    k < |imgs| && PagesOk(imgs, roll, k) && !PageOk(imgs[k], roll)
  }

  /** Pages are numbered from 1 in the error. */
  method EncodePages(imgs: seq<Image>, roll: Roll, opts: Options) returns (r: Encoding)
    ensures r.NoPages? <==> imgs == []
    ensures r.Encoded? <==> imgs != [] && PagesOk(imgs, roll, |imgs|)
    ensures r.Encoded? ==> r.data == RenderAll(JobCommands(imgs, roll, opts))
    ensures r.BadPage? ==> r.page >= 1 && FirstBadPage(imgs, roll, r.page - 1)
    ensures r.BadPage? ==> r.error == PageFault(imgs[r.page - 1], roll)
  {
    if |imgs| == 0 {
      return NoPages;
    }
    var out := Zeros(400) + [0x1B, 0x40] + [0x1B, 0x69, 0x61, 0x01];
    RenderPreamble();
    r := WritePages(out, imgs, roll, opts, Preamble());
  }

  /** The page loop, appending to a buffer that holds the commands `pre`. */
  method WritePages(buffer: seq<byte>, imgs: seq<Image>, roll: Roll, opts: Options, ghost pre: seq<Command>)
    returns (r: Encoding)
    requires buffer == RenderAll(pre)
    ensures !r.NoPages? && (r.Encoded? <==> PagesOk(imgs, roll, |imgs|))
    ensures r.Encoded? ==> r.data == RenderAll(pre + PagesUpTo(imgs, roll, opts, |imgs|))
    ensures r.BadPage? ==> r.page >= 1 && FirstBadPage(imgs, roll, r.page - 1)
    ensures r.BadPage? ==> r.error == PageFault(imgs[r.page - 1], roll)
  {
    hide PageOk, PageFault, PageCommands, RenderAll;
    var out := buffer;
    assert pre + [] == pre;
    for i := 0 to |imgs|
      invariant PagesOk(imgs, roll, i)
      invariant out == RenderAll(pre + PagesUpTo(imgs, roll, opts, i))
    {
      var page := WritePage(imgs[i], roll, opts, i == 0, i == |imgs| - 1);
      if page.PageFailed? {
        return BadPage(i + 1, page.error);
      }
      out := out + page.data;
      RenderPage(pre, imgs, roll, opts, i);
    }
    return Encoded(out);
  }

  lemma RenderPage(pre: seq<Command>, imgs: seq<Image>, roll: Roll, opts: Options, i: nat)
    requires i < |imgs| && PagesOk(imgs, roll, i) && PagesOk(imgs, roll, i + 1) && PageOk(imgs[i], roll)
    ensures RenderAll(pre + PagesUpTo(imgs, roll, opts, i + 1)) ==
      RenderAll(pre + PagesUpTo(imgs, roll, opts, i)) +
      RenderAll(PageCommands(imgs[i], roll, opts, i == 0, i == |imgs| - 1))
  {
    var before, here := PagesUpTo(imgs, roll, opts, i), PageCommands(imgs[i], roll, opts, i == 0, i == |imgs| - 1);
    assert pre + (before + here) == (pre + before) + here;
    RenderAppend(pre + before, here);
  }

  lemma {:induction false} RenderInvalidates(n: nat)
    ensures RenderAll(seq(n, _ => Invalidate)) == Zeros(n)
  {
    if n > 0 {
      var idle: seq<Command> := seq(n, _ => Invalidate);
      assert idle[1..] == seq(n - 1, _ => Invalidate);
      RenderInvalidates(n - 1);
      assert Zeros(n) == [0] + Zeros(n - 1);
    }
  }

  lemma RenderPreamble()
    ensures RenderAll(Preamble()) == Zeros(400) + [0x1B, 0x40] + [0x1B, 0x69, 0x61, 0x01]
    ensures Preamble() + [] == Preamble()
  {
    RenderInvalidates(400);
    RenderPair(seq(400, _ => Invalidate), Initialize, Setting(0x61, [0x01]));
  }
}
