/**
 An encoded job in the printer's own terms: every command of the stream, and the dot of every
 pixel, with the numbers written out.
 */
module PageLaws {
  import opened Bytes
  import opened CommandStream
  import opened JobParser
  import opened TwoColor
  import opened Raster
  import opened RasterLaws

  // ----- Every command of an encoded job -----

  /** Where the commands of page k begin: after the opening and the pages before. */
  function PageAt(imgs: seq<Image>, opts: Options, k: nat): (at: nat)
    requires k <= |imgs|
    ensures at >= 402
  {
    if k == 0 then 402
    else PageAt(imgs, opts, k - 1) + (if opts.cut then 5 else 3) + |imgs[k - 1].rows| + 1
  }

  /** Two bytes, and four, the low one first. */
  function Of2(s: seq<byte>): int
    requires |s| == 2
  {
    s[0] as int + 0x100 * s[1] as int
  }

  function Of4(s: seq<byte>): int
    requires |s| == 4
  {
    s[0] as int + 0x100 * s[1] as int + 0x1_0000 * s[2] as int + 0x100_0000 * s[3] as int
  }

  /** The ESC i z of a page: what is declared valid, the roll's width, the rows, and 1 on all but the first page. */
  predicate Informs(c: Command, rows: nat, roll: Roll, opts: Options, first: bool) {
    && c.Setting? && c.op == 0x7A
    && c.args[0] == (if opts.noMediaCheck then 0xC0 else 0xCE)
    && c.args[1] == 0x0A && c.args[2] == roll.widthMM && c.args[3] == 0x00
    && Of4(c.args[4..8]) == rows
    && c.args[8] == (if first then 0 else 1) && c.args[9] == 0x00
  }

  /** Auto cut at every label and at the end, or none of it; and the feed margin. */
  predicate Sets(cmds: seq<Command>, roll: Roll, opts: Options) {
    && |cmds| == (if opts.cut then 4 else 2)
    && (opts.cut ==> cmds[0] == Setting(0x4D, [0x40]) && cmds[1] == Setting(0x41, [0x01]))
    && cmds[|cmds| - 2] == Setting(0x4B, [if opts.cut then 0x08 else 0x00])
    && cmds[|cmds| - 1].Setting? && cmds[|cmds| - 1].op == 0x64
    && Of2(cmds[|cmds| - 1].args) == roll.feedMargin
  }

  /** Nothing but that, 90 bytes for every row, and the print command, with feed after the last page only. */
  predicate IsPage(cmds: seq<Command>, rows: nat, roll: Roll, opts: Options, first: bool, last: bool) {
    var n := if opts.cut then 5 else 3;
    && |cmds| == n + rows + 1
    && Informs(cmds[0], rows, roll, opts, first)
    && Sets(cmds[1..n], roll, opts)
    && (forall i | n <= i < n + rows :: cmds[i].RasterLine? && cmds[i].flag == 0 && |cmds[i].row| == 90)
    && cmds[n + rows] == Print(last)
  }

  lemma InfoIs(rows: nat, roll: Roll, opts: Options, first: bool)
    requires rows < 0x1_0000_0000
    ensures Informs(PageInfo(rows, roll, opts, first), rows, roll, opts, first)
  {
    LittleEndianBack(rows);
    var info: Command := PageInfo(rows, roll, opts, first);
    assert info.args[4..8] == LittleEndian32(rows);
  }

  lemma SetsAre(roll: Roll, opts: Options)
    ensures Sets(CutSettings(opts) + [Setting(0x4B, [if opts.cut then 8 else 0]),
                                      Setting(0x64, LittleEndian16(roll.feedMargin))], roll, opts)
  {
    MarginIs(roll);
    hide LittleEndian16;
  }

  lemma MarginIs(roll: Roll)
    ensures Of2(LittleEndian16(roll.feedMargin)) == roll.feedMargin
  {
    var q := roll.feedMargin / 256;
    assert q % 256 == q;
  }

  lemma SettingsAre(rows: nat, roll: Roll, opts: Options, first: bool)
    requires rows < 0x1_0000_0000
    ensures var s := PageSettings(rows, roll, opts, first);
      && |s| == (if opts.cut then 5 else 3)
      && Informs(s[0], rows, roll, opts, first) && Sets(s[1..], roll, opts)
  {
    InfoIs(rows, roll, opts, first);
    SetsAre(roll, opts);
    hide LittleEndian16, PageInfo, Informs, Sets;
    assert PageSettings(rows, roll, opts, first)[1..] == CutSettings(opts) +
      [Setting(0x4B, [if opts.cut then 8 else 0]), Setting(0x64, LittleEndian16(roll.feedMargin))];
  }

  lemma RowsAre(img: Image, roll: Roll)
    requires Fits(img, roll)
    ensures forall c | c in RowCommands(img, roll, |img.rows|) :: c.RasterLine? && c.flag == 0 && |c.row| == 90
  {
    hide PackedByte;
  }

  lemma PageIs(img: Image, roll: Roll, opts: Options, first: bool, last: bool)
    requires PageOk(img, roll)
    ensures IsPage(PageCommands(img, roll, opts, first, last), |img.rows|, roll, opts, first, last)
  {
    var rows := |img.rows|;
    var page, s, lines := PageCommands(img, roll, opts, first, last), PageSettings(rows, roll, opts, first),
      RowCommands(img, roll, rows);
    SettingsAre(rows, roll, opts, first);
    RowsAre(img, roll);
    assert page == s + lines + [Print(last)];
    hide PageCommands, PageSettings, RowCommands, Informs, Sets;
    assert page[1..|s|] == s[1..] && page[0] == s[0];
    assert forall i | |s| <= i < |s| + rows :: page[i] == lines[i - |s|];
  }

  lemma {:induction false} PagesAt(imgs: seq<Image>, roll: Roll, opts: Options, n: nat)
    requires n <= |imgs| && PagesOk(imgs, roll, n)
    ensures 402 + |PagesUpTo(imgs, roll, opts, n)| == PageAt(imgs, opts, n)
  {
    hide PageCommands;
    if n > 0 {
      PagesAt(imgs, roll, opts, n - 1);
      PageIs(imgs[n - 1], roll, opts, n == 1, n == |imgs|);
    }
  }

  lemma {:induction false} PagesBegin(imgs: seq<Image>, roll: Roll, opts: Options, k: nat, n: nat)
    requires k <= n <= |imgs| && PagesOk(imgs, roll, n)
    ensures PagesUpTo(imgs, roll, opts, k) <= PagesUpTo(imgs, roll, opts, n)
    decreases n
  {
    hide PageCommands, PageOk;
    if k < n {
      PagesBegin(imgs, roll, opts, k, n - 1);
    }
  }

  lemma PreambleLength()
    ensures |Preamble()| == 402
  {
  }

  lemma NextPage(imgs: seq<Image>, roll: Roll, opts: Options, k: nat)
    requires k < |imgs| && PagesOk(imgs, roll, k + 1)
    ensures PageOk(imgs[k], roll) && PagesOk(imgs, roll, k)
    ensures PagesUpTo(imgs, roll, opts, k + 1) ==
      PagesUpTo(imgs, roll, opts, k) + PageCommands(imgs[k], roll, opts, k == 0, k == |imgs| - 1)
  {
    hide PageCommands;
  }

  lemma OkInFront(imgs: seq<Image>, roll: Roll, k: nat)
    requires k <= |imgs| && PagesOk(imgs, roll, |imgs|)
    ensures PagesOk(imgs, roll, k)
  {
  }

  lemma PageInJob(imgs: seq<Image>, roll: Roll, opts: Options, k: nat)
    requires PagesOk(imgs, roll, |imgs|) && k < |imgs| && PageOk(imgs[k], roll)
    ensures var cmds := JobCommands(imgs, roll, opts);
      PageAt(imgs, opts, k) <= PageAt(imgs, opts, k + 1) <= |cmds| == PageAt(imgs, opts, |imgs|) &&
      cmds[PageAt(imgs, opts, k)..PageAt(imgs, opts, k + 1)] ==
      PageCommands(imgs[k], roll, opts, k == 0, k == |imgs| - 1)
  {
    hide PageCommands, PagesUpTo, PageOk, PagesOk, PageAt, Preamble;
    OkInFront(imgs, roll, k + 1);
    OkInFront(imgs, roll, k);
    var pages, front := PagesUpTo(imgs, roll, opts, |imgs|), PagesUpTo(imgs, roll, opts, k);
    var here := PageCommands(imgs[k], roll, opts, k == 0, k == |imgs| - 1);
    PagesAt(imgs, roll, opts, |imgs|);
    PagesAt(imgs, roll, opts, k);
    PagesAt(imgs, roll, opts, k + 1);
    PagesBegin(imgs, roll, opts, k + 1, |imgs|);
    NextPage(imgs, roll, opts, k);
    PreambleLength();
    Located(Preamble(), front, here, pages);
  }

  lemma Located<T>(pre: seq<T>, front: seq<T>, here: seq<T>, all: seq<T>)
    requires front + here <= all
    ensures (pre + all)[|pre| + |front|..|pre| + |front + here|] == here
  {
    assert all == front + here + all[|front + here|..];
  }

  /** The opening of a job, once: 400 times 00, ESC @, and raster mode. */
  lemma {:induction false} JobOpens(imgs: seq<Image>, roll: Roll, opts: Options)
    requires imgs != [] && PagesOk(imgs, roll, |imgs|)
    ensures var cmds := Lex(EncodedJob(imgs, roll, opts)).cmds;
      && |cmds| == PageAt(imgs, opts, |imgs|)
      && (forall i | 0 <= i < 400 :: cmds[i] == Invalidate)
      && cmds[400] == Initialize && cmds[401] == Setting(0x61, [0x01])
  {
    EncodedParses(imgs, roll, opts);
    PagesAt(imgs, roll, opts, |imgs|);
  }

  /**
   Page k of an encoded job, read back: its only settings are ESC i z, with what is declared
   valid, the roll's width, the rows that follow and whether it is the first page; auto cut at
   every label and at the end, if cutting is asked for; and ESC i d with the roll's feed margin,
   the low byte first. Then come as many lines of 90 bytes as it has rows, and the print
   command, with feed after the last page only.
   */
  lemma {:induction false} PageDeclares(imgs: seq<Image>, roll: Roll, opts: Options, k: nat)
    requires PagesOk(imgs, roll, |imgs|) && k < |imgs|
    ensures var cmds, a, b := Lex(EncodedJob(imgs, roll, opts)).cmds, PageAt(imgs, opts, k), PageAt(imgs, opts, k + 1);
      a <= b <= |cmds| && IsPage(cmds[a..b], |imgs[k].rows|, roll, opts, k == 0, k == |imgs| - 1)
  {
    assert PageOk(imgs[k], roll);
    EncodedParses(imgs, roll, opts);
    PageIs(imgs[k], roll, opts, k == 0, k == |imgs| - 1);
    hide PageCommands, JobCommands, EncodedJob, Lex, Parse, DeclaredMedia, PageOk, PagesOk, IsPage, PageAt;
    PageInJob(imgs, roll, opts, k);
  }

  /** On the roll that every station runs: 62 mm declared, and a margin of 35 dots, sent as 23 00. */
  lemma {:induction false} PageOn62(cmds: seq<Command>, rows: nat, opts: Options, first: bool, last: bool)
    requires IsPage(cmds, rows, CONTINUOUS_62, opts, first, last)
    ensures cmds[0].args[2] == 62
    ensures cmds[if opts.cut then 4 else 2] == Setting(0x64, [0x23, 0x00])
  {
    var d := cmds[if opts.cut then 4 else 2];
    assert cmds[1..if opts.cut then 5 else 3][if opts.cut then 3 else 1] == d;
    assert d.args == [0x23, 0x00];
  }

  // ----- Every dot of every pixel -----

  /** The pixel is dark enough to print: gray up to 128, or luma that rounds to that. */
  predicate Dark(c: Color) {
    match c
    case Gray(y) => y <= 128
    case Rgb(r, g, b) => 2 * (19595 * r + 38470 * g + 7471 * b) < 257 * 65536
  }

  /** Which images can be encoded: as wide as the tape or as its printable part, and 150 to 11811 rows long. */
  lemma {:induction false} PageOkIff(img: Image, roll: Roll)
    ensures PageOk(img, roll) <==>
      (img.width == roll.dotsTotal || img.width == roll.dotsPrintable) && 150 <= |img.rows| <= 11811
  {
  }

  lemma InkIsDark(c: Color)
    ensures IsInk(c) <==> Dark(c)
  {
    InkIff(c);
  }

  lemma InkedIsDark(img: Image, roll: Roll, y: nat, x: nat)
    requires Fits(img, roll) && y < |img.rows| && x < roll.dotsPrintable
    ensures var col := x + if img.width == roll.dotsTotal then (roll.dotsTotal - roll.dotsPrintable) / 2 else 0;
      0 <= col < |img.rows[y]| && (Inked(img, roll, y, x) <==> Dark(img.rows[y][col]))
  {
    hide IsInk, Dark;
    var col := x + if img.width == roll.dotsTotal then (roll.dotsTotal - roll.dotsPrintable) / 2 else 0;
    assert img.Valid();
    InkIsDark(img.rows[y][col]);
  }

  lemma HeadDotIs(roll: Roll, x: nat)
    requires x < roll.dotsPrintable
    ensures HeadDot(roll, x) == roll.offsetRight + roll.dotsPrintable - 1 - x
  {
  }

  /** The byte of a row that holds dot d, and the bit of it, the leftmost dot in the high bit. */
  lemma DotIs(row: seq<byte>, d: nat)
    requires d < 8 * |row|
    ensures var b := row[d / 8];
      Dot(row, d) <==>
        (match d % 8
         case 0 => b / 128
         case 1 => b / 64
         case 2 => b / 32
         case 3 => b / 16
         case 4 => b / 8
         case 5 => b / 4
         case 6 => b / 2
         case _ => b) % 2 == 1
  {
    hide HasBit;
    ByteBits(row[d / 8]);
  }

  lemma PixelDot(imgs: seq<Image>, roll: Roll, opts: Options, k: nat, y: nat, x: nat)
    requires PagesOk(imgs, roll, |imgs|) && k < |imgs| && y < |imgs[k].rows| && x < roll.dotsPrintable
    ensures Fits(imgs[k], roll)
    ensures var cv := Draw(Lex(EncodedJob(imgs, roll, opts)).cmds);
      && |cv.pages| == |imgs| && |cv.pages[k].black| == |imgs[k].rows|
      && (LabelDot(cv.pages[k], y, HeadDot(roll, x)) <==> Inked(imgs[k], roll, y, x))
  {
    assert PageOk(imgs[k], roll);
    hide Draw, Lex, EncodedJob, LabelDot, Inked, HeadDot, PagesOk, Fits;
    RoundTrip(imgs, roll, opts, k, y);
  }

  /** Reading the job back, row y of label k has a dot at d exactly if column col of that row of the image is dark. */
  ghost predicate PrintsAt(imgs: seq<Image>, roll: Roll, opts: Options, k: nat, y: nat, col: nat, d: nat)
    requires PagesOk(imgs, roll, |imgs|) && k < |imgs| && y < |imgs[k].rows|
  {
    var cv := Draw(Lex(EncodedJob(imgs, roll, opts)).cmds);
    && |cv.pages| == |imgs| && |cv.pages[k].black| == |imgs[k].rows| && col < |imgs[k].rows[y]|
    && (LabelDot(cv.pages[k], y, d) <==> Dark(imgs[k].rows[y][col]))
  }

  /**
   What an encoded job prints, pixel by pixel: row y of label k has a dot for a dark pixel of
   the tape's centre, column x of it counted from the left of the label falling on dot
   offsetRight + dotsPrintable - 1 - x of the head.
   */
  lemma {:induction false} PixelsArePrinted(imgs: seq<Image>, roll: Roll, opts: Options, k: nat, y: nat, x: nat)
    requires PagesOk(imgs, roll, |imgs|) && k < |imgs| && y < |imgs[k].rows| && x < roll.dotsPrintable
    ensures var left := if imgs[k].width == roll.dotsTotal then (roll.dotsTotal - roll.dotsPrintable) / 2 else 0;
      PrintsAt(imgs, roll, opts, k, y, left + x, roll.offsetRight + roll.dotsPrintable - 1 - x)
  {
    hide Draw, Lex, EncodedJob, LabelDot, Dark, Inked, HeadDot, PagesOk, Fits;
    PixelDot(imgs, roll, opts, k, y, x);
    HeadDotIs(roll, x);
    InkedIsDark(imgs[k], roll, y, x);
  }

  /** On the 62 mm roll: 696 columns print, those from the 19th on of an image of 732, and column x on dot 707 - x. */
  lemma {:induction false} PixelOn62(imgs: seq<Image>, roll: Roll, opts: Options, k: nat, y: nat, x: nat)
    requires roll == CONTINUOUS_62 && x < 696
    requires PagesOk(imgs, roll, |imgs|) && k < |imgs| && y < |imgs[k].rows|
    ensures imgs[k].width == 732 || imgs[k].width == 696
    ensures PrintsAt(imgs, roll, opts, k, y, if imgs[k].width == 732 then 18 + x else x, 707 - x)
  {
    OnePageOk(imgs, roll, k);
    Numbers62(roll);
    hide PrintsAt, PagesOk;
    PixelsArePrinted(imgs, roll, opts, k, y, x);
  }

  lemma Numbers62(roll: Roll)
    requires roll == CONTINUOUS_62
    ensures roll.dotsTotal == 732 && roll.dotsPrintable == 696 && roll.offsetRight == 12
  {
  }

  lemma OnePageOk(imgs: seq<Image>, roll: Roll, k: nat)
    requires PagesOk(imgs, roll, |imgs|) && k < |imgs|
    ensures imgs[k].width == roll.dotsTotal || imgs[k].width == roll.dotsPrintable
  {
    assert PageOk(imgs[k], roll);
  }
}
