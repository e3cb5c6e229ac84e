/** What the encoder's stream says: it parses as the job it is, and prints the images it was made from. */
module RasterLaws {
  import opened Bytes
  import opened Sequences
  import opened CommandStream
  import opened JobParser
  import opened JobLaws
  import opened TwoColor
  import opened TwoColorLaws
  import opened Raster

  function EncodedJob(imgs: seq<Image>, roll: Roll, opts: Options): (data: seq<byte>)
    requires PagesOk(imgs, roll, |imgs|)
  {
    RenderAll(JobCommands(imgs, roll, opts))
  }

  // ----- The encoder and the parser agree -----

  function DeclaredMedia(roll: Roll, opts: Options): JobParser.Media {
    if opts.noMediaCheck then UNKNOWN_MEDIA else Media(true, 0x0A, roll.widthMM)
  }

  lemma FlagBits(opts: Options)
    ensures TrustsMedia(ValidFlags(opts)) <==> !opts.noMediaCheck
    ensures !HasBit(0, 0) && !HasBit(8, 0)
  {
    assert HasBit(0xC0, 1) == HasBit(0x60, 0) && HasBit(0xCE, 1) == HasBit(0x67, 0);
    assert HasBit(0xCE, 2) == HasBit(0x67, 1) == HasBit(0x33, 0);
  }

  lemma SummarizeSingle(c: Command)
    ensures Summarize([c]) == Observe(NO_JOB, c)
  {
    assert [c][..0] == [];
  }

  lemma SummarizeParts(a: seq<Command>, b: seq<Command>, c: Command, d: Command)
    ensures Summarize(a + b + [c, d]) ==
      Merge(Merge(Summarize(a), Summarize(b)), Merge(Observe(NO_JOB, c), Observe(NO_JOB, d)))
  {
    hide Observe;
    SummarizeSingle(c);
    SummarizeSingle(d);
    assert [c, d] == [c] + [d];
    SummarizeAppend([c], [d]);
    SummarizeAppend(a, b);
    SummarizeAppend(a + b, [c, d]);
  }

  lemma SummarizeCut(opts: Options)
    ensures Summarize(CutSettings(opts)) == NO_JOB
  {
    if opts.cut {
      SummarizeParts([], [], Setting(0x4D, [0x40]), Setting(0x41, [0x01]));
      assert [] + [] + CutSettings(opts) == CutSettings(opts);
    }
  }

  lemma ObserveSettings(rows: nat, roll: Roll, opts: Options, first: bool)
    ensures Observe(NO_JOB, PageInfo(rows, roll, opts, first)) == Job(0, DeclaredMedia(roll, opts), false)
    ensures Observe(NO_JOB, Setting(0x4B, [if opts.cut then 8 else 0])) == NO_JOB
    ensures Observe(NO_JOB, Setting(0x64, LittleEndian16(roll.feedMargin))) == NO_JOB
  {
    hide LittleEndian32, LittleEndian16, ValidFlags, TrustsMedia, HasBit;
    FlagBits(opts);
  }

  lemma SummarizeSettings(rows: nat, roll: Roll, opts: Options, first: bool)
    ensures Summarize(PageSettings(rows, roll, opts, first)) == Job(0, DeclaredMedia(roll, opts), false)
  {
    ObserveSettings(rows, roll, opts, first);
    SummarizeCut(opts);
    var info, cut, mode, margin := PageInfo(rows, roll, opts, first), CutSettings(opts),
      Setting(0x4B, [if opts.cut then 8 else 0]), Setting(0x64, LittleEndian16(roll.feedMargin));
    assert PageSettings(rows, roll, opts, first) == [info] + cut + [mode, margin];
    SummarizeQuiet(info, cut, mode, margin);
  }

  lemma SummarizeQuiet(a: Command, b: seq<Command>, c: Command, d: Command)
    requires Summarize(b) == NO_JOB && Observe(NO_JOB, c) == NO_JOB && Observe(NO_JOB, d) == NO_JOB
    requires Observe(NO_JOB, a).media.known || Observe(NO_JOB, a).media == UNKNOWN_MEDIA
    ensures Summarize([a] + b + [c, d]) == Observe(NO_JOB, a)
  {
    hide Summarize, Observe;
    SummarizeSingle(a);
    SummarizeParts([a], b, c, d);
  }

  lemma {:induction false} SummarizeRows(img: Image, roll: Roll, n: nat)
    requires Fits(img, roll) && n <= |img.rows|
    ensures Summarize(RowCommands(img, roll, n)) == NO_JOB
  {
    if n > 0 {
      assert RowCommands(img, roll, n)[..n - 1] == RowCommands(img, roll, n - 1);
      SummarizeRows(img, roll, n - 1);
    }
  }

  lemma DeclaredOrUnknown(roll: Roll, opts: Options)
    ensures DeclaredMedia(roll, opts).known || DeclaredMedia(roll, opts) == UNKNOWN_MEDIA
  {
  }

  lemma PrintAlone(last: bool)
    ensures Summarize([Print(last)]) == Job(1, UNKNOWN_MEDIA, false)
  {
    SummarizeSingle(Print(last));
  }

  lemma SummarizePage(img: Image, roll: Roll, opts: Options, first: bool, last: bool)
    requires PageOk(img, roll)
    ensures Summarize(PageCommands(img, roll, opts, first, last)) == Job(1, DeclaredMedia(roll, opts), false)
  {
    hide Summarize, PageSettings, RowCommands, DeclaredMedia, Merge;
    var front, lines := PageSettings(|img.rows|, roll, opts, first), RowCommands(img, roll, |img.rows|);
    assert PageCommands(img, roll, opts, first, last) == front + lines + [Print(last)];
    hide PageCommands;
    SummarizeSettings(|img.rows|, roll, opts, first);
    SummarizeRows(img, roll, |img.rows|);
    PrintAlone(last);
    SummarizeAppend(front, lines);
    SummarizeAppend(front + lines, [Print(last)]);
    DeclaredOrUnknown(roll, opts);
    MergeWithPage(Summarize(front), Summarize(lines), Summarize([Print(last)]));
  }

  lemma SummarizeNone()
    ensures Summarize([]) == NO_JOB
  {
  }

  lemma {:induction false} SummarizePages(imgs: seq<Image>, roll: Roll, opts: Options, n: nat)
    requires n <= |imgs| && PagesOk(imgs, roll, n)
    ensures Summarize(PagesUpTo(imgs, roll, opts, n)) ==
      if n == 0 then NO_JOB else Job(n, DeclaredMedia(roll, opts), false)
  {
    hide PageCommands, PageOk, DeclaredMedia, Summarize;
    SummarizeNone();
    if n > 0 {
      SummarizePages(imgs, roll, opts, n - 1);
      SummarizePage(imgs[n - 1], roll, opts, n == 1, n == |imgs|);
      SummarizeAppend(PagesUpTo(imgs, roll, opts, n - 1), PageCommands(imgs[n - 1], roll, opts, n == 1, n == |imgs|));
    }
  }

  lemma {:induction false} SummarizeIdle(n: nat)
    ensures Summarize(seq(n, _ => Invalidate)) == NO_JOB
  {
    if n > 0 {
      var idle: seq<Command> := seq(n, _ => Invalidate);
      assert idle[..n - 1] == seq(n - 1, _ => Invalidate);
      SummarizeIdle(n - 1);
    }
  }

  lemma SummarizeQuietEnd(b: seq<Command>, c: Command, d: Command)
    requires Summarize(b) == NO_JOB && Observe(NO_JOB, c) == NO_JOB && Observe(NO_JOB, d) == NO_JOB
    ensures Summarize(b + [c, d]) == NO_JOB
  {
    hide Summarize, Observe;
    SummarizeNone();
    SummarizeParts([], b, c, d);
    EmptyEnds(b);
  }

  lemma SummarizePreamble()
    ensures Summarize(Preamble()) == NO_JOB
  {
    var idle: seq<Command> := seq(400, _ => Invalidate);
    assert Preamble() == idle + [Initialize, Setting(0x61, [0x01])];
    hide Summarize, Preamble;
    SummarizeIdle(400);
    SummarizeQuietEnd(idle, Initialize, Setting(0x61, [0x01]));
  }

  /** Every command of an encoded job is one the parser knows and the rewrite converts. */
  predicate Plain(c: Command) {
    Known(c) && Convertible(c)
  }

  lemma {:induction false} PagesPlain(imgs: seq<Image>, roll: Roll, opts: Options, n: nat)
    requires n <= |imgs| && PagesOk(imgs, roll, n)
    ensures All(PagesUpTo(imgs, roll, opts, n), Plain)
  {
    if n > 0 {
      PagesPlain(imgs, roll, opts, n - 1);
      var here := PageCommands(imgs[n - 1], roll, opts, n == 1, n == |imgs|);
      assert All(here, Plain) by {
        assert All(PageSettings(|imgs[n - 1].rows|, roll, opts, n == 1), Plain);
        assert All(RowCommands(imgs[n - 1], roll, |imgs[n - 1].rows|), Plain);
      }
    }
  }

  lemma JobPlain(imgs: seq<Image>, roll: Roll, opts: Options)
    requires PagesOk(imgs, roll, |imgs|)
    ensures All(JobCommands(imgs, roll, opts), Known) && All(JobCommands(imgs, roll, opts), Convertible)
  {
    PagesPlain(imgs, roll, opts, |imgs|);
    var cmds := JobCommands(imgs, roll, opts);
    forall i | 0 <= i < |cmds|
      ensures Plain(cmds[i])
    {
      if i >= |Preamble()| {
        assert cmds[i] == PagesUpTo(imgs, roll, opts, |imgs|)[i - |Preamble()|];
      }
    }
  }

  /** What the encoder writes the parser accepts: one label per image, the roll if it is to be checked. */
  lemma {:induction false} EncodedParses(imgs: seq<Image>, roll: Roll, opts: Options)
    requires imgs != [] && PagesOk(imgs, roll, |imgs|)
    ensures Parse(EncodedJob(imgs, roll, opts)) == Accepted(Job(|imgs|, DeclaredMedia(roll, opts), false))
    ensures Lex(EncodedJob(imgs, roll, opts)) == Lexed(JobCommands(imgs, roll, opts), [])
  {
    hide Summarize, PagesUpTo, RenderAll, Preamble, PageOk, DeclaredMedia;
    JobPlain(imgs, roll, opts);
    SummarizePreamble();
    SummarizePages(imgs, roll, opts, |imgs|);
    SummarizeAppend(Preamble(), PagesUpTo(imgs, roll, opts, |imgs|));
    ParseRendered(JobCommands(imgs, roll, opts));
  }

  /** No proper prefix of an encoded job passes for the whole job. */
  lemma {:induction false} EncodedPrefixFallsShort(imgs: seq<Image>, roll: Roll, opts: Options, p: seq<byte>)
    requires imgs != [] && PagesOk(imgs, roll, |imgs|)
    requires p < EncodedJob(imgs, roll, opts)
    ensures Parse(p).Rejected? || Parse(p).job.pages < |imgs|
  {
    hide Lex, RenderAll, JobCommands, DeclaredMedia, PageOk, Parse;
    var cmds := JobCommands(imgs, roll, opts);
    EncodedParses(imgs, roll, opts);
    JobPlain(imgs, roll, opts);
    ParseRendered(cmds);
    SummaryCounts(cmds);
    EndsWithPrint(imgs, roll, opts);
    ProperPrefixFallsShort(cmds, p);
  }

  lemma EndsWithPrint(imgs: seq<Image>, roll: Roll, opts: Options)
    requires imgs != [] && PagesOk(imgs, roll, |imgs|)
    ensures var cmds := JobCommands(imgs, roll, opts);
      cmds != [] && cmds[|cmds| - 1] == Print(true)
  {
    hide Preamble;
    var n := |imgs|;
    var here := PageCommands(imgs[n - 1], roll, opts, n == 1, true);
    assert PagesUpTo(imgs, roll, opts, n)[|PagesUpTo(imgs, roll, opts, n)| - 1] == here[|here| - 1];
  }

  // ----- The stream prints the images -----

  function PaintAll(cv: Canvas, cmds: seq<Command>): Canvas {
    if cmds == [] then cv else Paint(PaintAll(cv, cmds[..|cmds| - 1]), cmds[|cmds| - 1])
  }

  lemma {:induction false} DrawAppend(xs: seq<Command>, ys: seq<Command>)
    ensures Draw(xs + ys) == PaintAll(Draw(xs), ys)
    decreases |ys|
  {
    if ys == [] {
      assert xs + ys == xs;
    } else {
      var n := |ys| - 1;
      assert (xs + ys)[..|xs + ys| - 1] == xs + ys[..n];
      DrawAppend(xs, ys[..n]);
    }
  }

  lemma {:induction false} PaintAppend(cv: Canvas, xs: seq<Command>, ys: seq<Command>)
    ensures PaintAll(cv, xs + ys) == PaintAll(PaintAll(cv, xs), ys)
    decreases |ys|
  {
    if ys == [] {
      assert xs + ys == xs;
    } else {
      var n := |ys| - 1;
      assert (xs + ys)[..|xs + ys| - 1] == xs + ys[..n];
      PaintAppend(cv, xs, ys[..n]);
    }
  }

  /** Commands that draw nothing. */
  predicate Silent(c: Command) {
    c.Setting? || c.Invalidate?
  }

  lemma {:induction false} PaintSilent(cv: Canvas, cmds: seq<Command>)
    requires All(cmds, Silent)
    ensures PaintAll(cv, cmds) == cv
    decreases |cmds|
  {
    if cmds != [] {
      PaintSilent(cv, cmds[..|cmds| - 1]);
      assert Silent(cmds[|cmds| - 1]);
    }
  }

  function RowLines(img: Image, roll: Roll, n: nat): (lines: seq<Line>)
    requires Fits(img, roll) && n <= |img.rows|
    ensures |lines| == n
  {
    seq(n, y requires 0 <= y < n => Dots(PackedRow(img, roll, y)))
  }

  lemma {:induction false} PaintRows(cv: Canvas, img: Image, roll: Roll, n: nat)
    requires Fits(img, roll) && n <= |img.rows|
    ensures PaintAll(cv, RowCommands(img, roll, n)) ==
      cv.(open := cv.open.(black := cv.open.black + RowLines(img, roll, n)))
  {
    if n == 0 {
      assert cv.open.black + RowLines(img, roll, 0) == cv.open.black;
    } else {
      assert RowCommands(img, roll, n)[..n - 1] == RowCommands(img, roll, n - 1);
      PaintRows(cv, img, roll, n - 1);
      assert RowLines(img, roll, n) == RowLines(img, roll, n - 1) + [Dots(PackedRow(img, roll, n - 1))];
    }
  }

  /** The label an image is printed as: its rows in black, nothing in red. */
  function Label(img: Image, roll: Roll): Page
    requires Fits(img, roll)
  {
    Page(RowLines(img, roll, |img.rows|), [])
  }

  lemma PaintPage(cv: Canvas, img: Image, roll: Roll, opts: Options, first: bool, last: bool)
    requires PageOk(img, roll) && cv.open == EMPTY_PAGE
    ensures PaintAll(cv, PageCommands(img, roll, opts, first, last)) ==
            Canvas(cv.pages + [Label(img, roll)], EMPTY_PAGE)
  {
    var front, lines := PageSettings(|img.rows|, roll, opts, first), RowCommands(img, roll, |img.rows|);
    PaintSilent(cv, front);
    PaintRows(cv, img, roll, |img.rows|);
    PaintAppend(cv, front, lines);
    assert [] + RowLines(img, roll, |img.rows|) == RowLines(img, roll, |img.rows|);
    assert (front + lines + [Print(last)])[..|front + lines|] == front + lines;
  }

  lemma {:induction false} PaintPages(cv: Canvas, imgs: seq<Image>, roll: Roll, opts: Options, n: nat)
    requires n <= |imgs| && PagesOk(imgs, roll, n) && cv == Canvas([], EMPTY_PAGE)
    ensures var now := PaintAll(cv, PagesUpTo(imgs, roll, opts, n));
      |now.pages| == n && now.open == EMPTY_PAGE && forall k | 0 <= k < n :: now.pages[k] == Label(imgs[k], roll)
  {
    hide PageCommands, PageOk, Label;
    if n > 0 {
      PaintPages(cv, imgs, roll, opts, n - 1);
      var front, here := PagesUpTo(imgs, roll, opts, n - 1), PageCommands(imgs[n - 1], roll, opts, n == 1, n == |imgs|);
      PaintAppend(cv, front, here);
      PaintPage(PaintAll(cv, front), imgs[n - 1], roll, opts, n == 1, n == |imgs|);
    }
  }

  /** The labels printed are the images, one each, in order, and none is left half drawn. */
  lemma {:induction false} EncodedDraws(imgs: seq<Image>, roll: Roll, opts: Options)
    requires PagesOk(imgs, roll, |imgs|)
    ensures var cv := Draw(JobCommands(imgs, roll, opts));
      |cv.pages| == |imgs| && cv.open == EMPTY_PAGE && forall k | 0 <= k < |imgs| :: cv.pages[k] == Label(imgs[k], roll)
  {
    var idle: seq<Command> := seq(400, _ => Invalidate);
    DrawAppend([], idle);
    assert [] + idle == idle;
    PaintSilent(Draw([]), idle);
    DrawTwo(idle, Initialize, Setting(0x61, [0x01]));
    DrawAppend(Preamble(), PagesUpTo(imgs, roll, opts, |imgs|));
    PaintPages(Draw(Preamble()), imgs, roll, opts, |imgs|);
  }

  /** The dot at d in row y of a label; lines other than plain rows have none. */
  predicate LabelDot(page: Page, y: nat, d: nat)
    requires y < |page.black|
  {
    page.black[y].Dots? && d < 8 * |page.black[y].row| && Dot(page.black[y].row, d)
  }

  /**
   Bit-exact round trip: reading an encoded stream back gives, for every image, as many
   rows as it has, in which pixel x of the printable area is a dot at its mirrored place
   on the head if and only if it is inked, and no other dot of the head prints.
   */
  lemma {:induction false} RoundTrip(imgs: seq<Image>, roll: Roll, opts: Options, k: nat, y: nat)
    requires PagesOk(imgs, roll, |imgs|) && k < |imgs| && y < |imgs[k].rows|
    ensures var cv := Draw(Lex(EncodedJob(imgs, roll, opts)).cmds);
      && |cv.pages| == |imgs| && |cv.pages[k].black| == |imgs[k].rows| && cv.pages[k].red == []
      && (forall x: nat | x < roll.dotsPrintable ::
          LabelDot(cv.pages[k], y, HeadDot(roll, x)) <==> Inked(imgs[k], roll, y, x))
      && (forall d: nat | LabelDot(cv.pages[k], y, d) ::
          exists x: nat :: x < roll.dotsPrintable && HeadDot(roll, x) == d)
  {
    hide Draw, JobCommands, RenderAll, Lex;
    LexRendered(JobCommands(imgs, roll, opts));
    EncodedDraws(imgs, roll, opts);
    LabelDots(imgs[k], roll, y);
  }

  lemma LabelDots(img: Image, roll: Roll, y: nat)
    requires Fits(img, roll) && y < |img.rows|
    ensures forall x: nat | x < roll.dotsPrintable ::
      LabelDot(Label(img, roll), y, HeadDot(roll, x)) <==> Inked(img, roll, y, x)
    ensures forall d: nat | LabelDot(Label(img, roll), y, d) ::
      exists x: nat :: x < roll.dotsPrintable && HeadDot(roll, x) == d
  {
    hide Inked, PackedRow;
    PackedRowDots(img, roll, y);
    var page := Label(img, roll);
    assert page.black[y] == Dots(PackedRow(img, roll, y));
    forall d: nat | LabelDot(page, y, d)
      ensures exists x: nat :: x < roll.dotsPrintable && HeadDot(roll, x) == d
    {
      assert PrintsDot(img, roll, y, roll.dotsPrintable, d);
      var x: nat := HEAD_DOTS - 1 - roll.Pad() - d;
      assert HeadDot(roll, x) == d;
    }
    forall x: nat | x < roll.dotsPrintable
      ensures LabelDot(page, y, HeadDot(roll, x)) <==> Inked(img, roll, y, x)
    {
      assert LabelDot(page, y, HeadDot(roll, x)) <==> PrintsDot(img, roll, y, roll.dotsPrintable, HeadDot(roll, x));
    }
  }

  // ----- Page framing and length -----

  function FromLittleEndian(s: seq<byte>): nat
    requires |s| == 4
  {
    var a, b, c, d: nat := s[0], s[1], s[2], s[3];
    a + 256 * b + 0x1_0000 * c + 0x100_0000 * d
  }

  function LineCount(cmds: seq<Command>): nat {
    if cmds == [] then 0 else LineCount(cmds[..|cmds| - 1]) + if IsLine(cmds[|cmds| - 1]) then 1 else 0
  }

  lemma {:induction false} LineCountAppend(xs: seq<Command>, ys: seq<Command>)
    ensures LineCount(xs + ys) == LineCount(xs) + LineCount(ys)
    decreases |ys|
  {
    if ys == [] {
      assert xs + ys == xs;
    } else {
      assert (xs + ys)[..|xs + ys| - 1] == xs + ys[..|ys| - 1];
      LineCountAppend(xs, ys[..|ys| - 1]);
    }
  }

  lemma {:induction false} LineCountNone(cmds: seq<Command>)
    requires forall i | 0 <= i < |cmds| :: !IsLine(cmds[i])
    ensures LineCount(cmds) == 0
  {
    if cmds != [] {
      LineCountNone(cmds[..|cmds| - 1]);
    }
  }

  lemma {:induction false} LineCountRows(img: Image, roll: Roll, n: nat)
    requires Fits(img, roll) && n <= |img.rows|
    ensures LineCount(RowCommands(img, roll, n)) == n
  {
    if n > 0 {
      assert RowCommands(img, roll, n)[..n - 1] == RowCommands(img, roll, n - 1);
      LineCountRows(img, roll, n - 1);
    }
  }

  /** A page opens with ESC i z, whose declared row count is the number of rows it sends. */
  lemma {:induction false} DeclaredRowsAreSent(img: Image, roll: Roll, opts: Options, first: bool, last: bool)
    requires PageOk(img, roll)
    ensures var cmds := PageCommands(img, roll, opts, first, last);
      && cmds[0].Setting? && cmds[0].op == 0x7A
      && FromLittleEndian(cmds[0].args[4..8]) == LineCount(cmds) == |img.rows|
      && (cmds[0].args[8] == 0 <==> first)
      && cmds[|cmds| - 1] == Print(last)
  {
    hide LineCount, LittleEndian32, RowCommands;
    var front, lines := PageSettings(|img.rows|, roll, opts, first), RowCommands(img, roll, |img.rows|);
    LineCountNone(front);
    LineCountRows(img, roll, |img.rows|);
    LineCountAppend(front, lines);
    LineCountNone([Print(last)]);
    LineCountAppend(front + lines, [Print(last)]);
    LittleEndianBack(|img.rows|);
    assert front[0].args[4..8] == LittleEndian32(|img.rows|);
  }

  lemma LittleEndianBack(n: nat)
    requires n < 0x1_0000_0000
    ensures FromLittleEndian(LittleEndian32(n)) == n
  {
    var q1, q2, q3 := n / 256, n / 0x1_0000, n / 0x100_0000;
    assert q2 == q1 / 256 && q3 == q2 / 256;
    assert n == n % 256 + 256 * q1 && q1 == q1 % 256 + 256 * q2 && q2 == q2 % 256 + 256 * q3;
    assert q3 % 256 == q3;
  }

  function PageBytes(img: Image, opts: Options): nat {
    23 + (if opts.cut then 8 else 0) + 93 * |img.rows|
  }

  function PagesBytes(imgs: seq<Image>, opts: Options, n: nat): nat
    requires n <= |imgs|
  {
    if n == 0 then 0 else PagesBytes(imgs, opts, n - 1) + PageBytes(imgs[n - 1], opts)
  }

  lemma {:induction false} RowsLength(img: Image, roll: Roll, n: nat)
    requires Fits(img, roll) && n <= |img.rows|
    ensures |RenderAll(RowCommands(img, roll, n))| == 93 * n
  {
    if n > 0 {
      RowsLength(img, roll, n - 1);
      RenderRow(img, roll, n - 1);
    }
  }

  lemma PageLength(img: Image, roll: Roll, opts: Options, first: bool, last: bool)
    requires PageOk(img, roll)
    ensures |RenderAll(PageCommands(img, roll, opts, first, last))| == PageBytes(img, opts)
  {
    var front, lines := PageSettings(|img.rows|, roll, opts, first), RowCommands(img, roll, |img.rows|);
    RenderParts(PageInfo(|img.rows|, roll, opts, first), CutSettings(opts),
      Setting(0x4B, [if opts.cut then 8 else 0]), Setting(0x64, LittleEndian16(roll.feedMargin)));
    RenderCut(opts);
    RowsLength(img, roll, |img.rows|);
    RenderAppend(front, lines);
    RenderSingle(Print(last));
    RenderAppend(front + lines, [Print(last)]);
  }

  lemma RenderNone()
    ensures RenderAll([]) == []
  {
  }

  lemma PageBytesBound(img: Image, roll: Roll, opts: Options)
    requires PageOk(img, roll)
    ensures PageBytes(img, opts) <= 31 + 93 * MAX_ROWS
  {
  }

  lemma {:induction false} PagesLength(imgs: seq<Image>, roll: Roll, opts: Options, n: nat)
    requires n <= |imgs| && PagesOk(imgs, roll, n)
    ensures |RenderAll(PagesUpTo(imgs, roll, opts, n))| == PagesBytes(imgs, opts, n) <= n * (31 + 93 * MAX_ROWS)
  {
    hide PageCommands, PageOk, RenderAll, PageBytes;
    RenderNone();
    if n > 0 {
      PageBytesBound(imgs[n - 1], roll, opts);
      PagesLength(imgs, roll, opts, n - 1);
      PageLength(imgs[n - 1], roll, opts, n == 1, n == |imgs|);
      RenderAppend(PagesUpTo(imgs, roll, opts, n - 1), PageCommands(imgs[n - 1], roll, opts, n == 1, n == |imgs|));
    }
  }

  /** The length of an encoded job, and that as many copies as may be asked for never reach the backend's limit. */
  lemma {:induction false} EncodedLength(imgs: seq<Image>, roll: Roll, opts: Options)
    requires PagesOk(imgs, roll, |imgs|)
    ensures |EncodedJob(imgs, roll, opts)| == 406 + PagesBytes(imgs, opts, |imgs|)
    ensures |imgs| <= 30 ==> |EncodedJob(imgs, roll, opts)| <= MAX_JOB_BYTES
  {
    hide Preamble, PagesUpTo, RenderAll, PageOk, PagesBytes;
    RenderPreamble();
    PagesLength(imgs, roll, opts, |imgs|);
    RenderAppend(Preamble(), PagesUpTo(imgs, roll, opts, |imgs|));
  }

  lemma {:induction false} LabelsAlike(imgs: seq<Image>, opts: Options, n: nat, rows: nat)
    requires n <= |imgs| && forall i | 0 <= i < |imgs| :: |imgs[i].rows| == rows
    ensures PagesBytes(imgs, opts, n) == n * (23 + (if opts.cut then 8 else 0) + 93 * rows)
  {
    if n > 0 {
      LabelsAlike(imgs, opts, n - 1, rows);
    }
  }

  /** Thirty labels of 100 mm, 1181 rows at 300 dpi: documented as under 1.5 MB, they are more than 3 MB. */
  lemma {:induction false} ThirtyLabels(imgs: seq<Image>, roll: Roll, opts: Options)
    requires |imgs| == 30 && PagesOk(imgs, roll, 30) && forall i | 0 <= i < 30 :: |imgs[i].rows| == 1181
    ensures |EncodedJob(imgs, roll, opts)| == if opts.cut then 3_296_326 else 3_296_086
  {
    EncodedLength(imgs, roll, opts);
    LabelsAlike(imgs, opts, 30, 1181);
  }

  // ----- On a red/black roll -----

  /** An encoded job can always be rewritten, is then a two-colour job, and prints the same labels in black. */
  lemma {:induction false} EncodedRewrites(imgs: seq<Image>, roll: Roll, opts: Options)
    requires imgs != [] && PagesOk(imgs, roll, |imgs|)
    ensures var data := EncodedJob(imgs, roll, opts);
      && Convert(data).Rewritten?
      && Parse(Convert(data).data) == Accepted(Job(|imgs|, DeclaredMedia(roll, opts), true))
      && SamePrints(Draw(JobCommands(imgs, roll, opts)), Draw(Lex(Convert(data).data).cmds))
  {
    hide Lex, Parse, Convert, RenderAll, Draw, JobCommands, PageOk, SamePrints, DeclaredMedia;
    var data := EncodedJob(imgs, roll, opts);
    JobPlain(imgs, roll, opts);
    EncodedParses(imgs, roll, opts);
    RewrittenIff(data);
    RewriteKeepsMeaning(data);
    JobIsColored(imgs, roll, opts);
  }

  lemma JobIsColored(imgs: seq<Image>, roll: Roll, opts: Options)
    requires imgs != [] && PagesOk(imgs, roll, |imgs|)
    ensures AnyColored(JobCommands(imgs, roll, opts))
  {
    PagesUpToStartsWithInfo(imgs, roll, opts, |imgs|);
    hide PagesUpTo, Preamble;
    var cmds, pages := JobCommands(imgs, roll, opts), PagesUpTo(imgs, roll, opts, |imgs|);
    var i :| 0 <= i < |pages| && IsExpandedMode(pages[i]);
    assert cmds[|Preamble()| + i] == pages[i];
    assert Colored(cmds[|Preamble()| + i]);
  }

  lemma PagesUpToStartsWithInfo(imgs: seq<Image>, roll: Roll, opts: Options, n: nat)
    requires 1 <= n <= |imgs| && PagesOk(imgs, roll, n)
    ensures exists i :: 0 <= i < |PagesUpTo(imgs, roll, opts, n)| && IsExpandedMode(PagesUpTo(imgs, roll, opts, n)[i])
  {
    var front := PagesUpTo(imgs, roll, opts, n - 1);
    var i := |front| + 1 + |CutSettings(opts)|;
    assert IsExpandedMode(PagesUpTo(imgs, roll, opts, n)[i]);
  }
}
