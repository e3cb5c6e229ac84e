/** The two-colour rewrite keeps what is printed. */
module TwoColorLaws {
  import opened Bytes
  import opened CommandStream
  import opened JobParser
  import opened JobLaws
  import opened TwoColor

  /** A job is rewritten exactly when it holds nothing but uncompressed black lines and settings. */
  lemma {:induction false} RewrittenIff(data: seq<byte>)
    requires Parse(data).Accepted?
    ensures Convert(data).Rewritten? <==> All(Lex(data).cmds, Convertible)
    ensures Convert(data).Rewritten? ==> Lex(Convert(data).data) == Lexed(RecolorAll(Lex(data).cmds), [])
  {
    AcceptedMeans(data);
    WalksAllIff(data, Convertible);
    LexRendered(RecolorAll(Lex(data).cmds));
  }

  /** An empty red line under every black one. */
  function EmptyRed(black: seq<Line>): (red: seq<Line>)
    ensures |red| == |black|
  {
    seq(|black|, i requires 0 <= i < |black| =>
      match black[i]
      case Dots(row) => Dots(Zeros(|row|))
      case line => line)
  }

  /** A page of uncompressed black lines only, as convertible commands draw it. */
  predicate BlackOnly(page: Page) {
    page.red == [] && forall i | 0 <= i < |page.black| :: page.black[i].Dots?
  }

  /** The same black lines, and as many red lines, all of them empty. */
  predicate SamePrint(was: Page, now: Page) {
    now.black == was.black && now.red == EmptyRed(was.black)
  }

  predicate SamePrints(was: Canvas, now: Canvas) {
    && |now.pages| == |was.pages|
    && (forall i | 0 <= i < |was.pages| :: SamePrint(was.pages[i], now.pages[i]) && BlackOnly(was.pages[i]))
    && SamePrint(was.open, now.open) && BlackOnly(was.open)
  }

  lemma DrawOne(cmds: seq<Command>, c: Command)
    ensures Draw(cmds + [c]) == Paint(Draw(cmds), c)
  {
    hide Paint;
    assert (cmds + [c])[..|cmds|] == cmds;
  }

  lemma DrawTwo(cmds: seq<Command>, c: Command, d: Command)
    ensures Draw(cmds + [c, d]) == Paint(Paint(Draw(cmds), c), d)
  {
    hide Draw, Paint;
    DrawOne(cmds, c);
    DrawOne(cmds + [c], d);
    assert cmds + [c, d] == cmds + [c] + [d];
  }

  lemma {:induction false} DrawRecolored(cmds: seq<Command>)
    requires All(cmds, Convertible)
    ensures SamePrints(Draw(cmds), Draw(RecolorAll(cmds)))
    decreases |cmds|
  {
    if cmds != [] {
      var n := |cmds| - 1;
      var front, c := cmds[..n], cmds[n];
      DrawRecolored(front);
      assert Convertible(c);
      var done := RecolorAll(front);
      if c.RasterLine? {
        DrawTwo(done, ColorLine(1, c.row), ColorLine(2, Zeros(|c.row|)));
        hide SamePrints, Paint, Convertible;
        PaintLine(Draw(front), Draw(done), c);
      } else {
        DrawOne(done, Recolor(c)[0]);
        hide SamePrints, Paint, Convertible;
        PaintOther(Draw(front), Draw(done), c);
      }
    }
  }

  lemma PaintLine(was: Canvas, now: Canvas, c: Command)
    requires SamePrints(was, now) && c.RasterLine?
    ensures SamePrints(Paint(was, c), Paint(Paint(now, ColorLine(1, c.row)), ColorLine(2, Zeros(|c.row|))))
  {
    var black := was.open.black;
    assert EmptyRed(black + [Dots(c.row)]) == EmptyRed(black) + [Dots(Zeros(|c.row|))];
  }

  lemma PaintOther(was: Canvas, now: Canvas, c: Command)
    requires SamePrints(was, now) && Convertible(c) && !c.RasterLine?
    ensures SamePrints(Paint(was, c), Paint(now, Recolor(c)[0]))
  {
  }

  /** The command makes the rewritten job a two-colour one. */
  predicate Colored(c: Command) {
    c.RasterLine? || IsExpandedMode(c)
  }

  predicate AnyColored(cmds: seq<Command>) {
    exists i :: 0 <= i < |cmds| && Colored(cmds[i])
  }

  lemma AnyColoredLast(front: seq<Command>, c: Command)
    ensures AnyColored(front + [c]) <==> AnyColored(front) || Colored(c)
  {
    var cmds := front + [c];
    assert cmds[|front|] == c;
    assert forall i | 0 <= i < |front| :: cmds[i] == front[i];
  }

  lemma {:induction false} SummarizeRecolored(cmds: seq<Command>)
    requires All(cmds, Convertible)
    ensures var was, now := Summarize(cmds), Summarize(RecolorAll(cmds));
      && now.pages == was.pages && now.media == was.media
      && (now.twoColor <==> AnyColored(cmds))
    decreases |cmds|
  {
    if cmds != [] {
      var n := |cmds| - 1;
      var front, c := cmds[..n], cmds[n];
      SummarizeRecolored(front);
      assert cmds == front + [c];
      AnyColoredLast(front, c);
      SummarizeAppend(front, [c]);
      SummarizeAppend(RecolorAll(front), Recolor(c));
      assert Convertible(c);
      SummarizeOne(c);
    }
  }

  lemma SummarizeOne(c: Command)
    requires Convertible(c)
    ensures var was, now := Summarize([c]), Summarize(Recolor(c));
      now.pages == was.pages && now.media == was.media && (now.twoColor <==> Colored(c))
  {
    assert [c][..0] == [];
    var now := Recolor(c);
    if c.RasterLine? {
      assert now[..1] == [now[0]] && now[..1][..0] == [];
    } else {
      assert now[..0] == [];
    }
  }

  predicate IsExpandedMode(c: Command) {
    c.Setting? && c.op == 0x4B
  }

  predicate IsLine(c: Command) {
    c.RasterLine? || c.ColorLine?
  }

  /** Everything that is not a raster line, in order. */
  function Frame(cmds: seq<Command>): seq<Command> {
    if cmds == [] then []
    else Frame(cmds[..|cmds| - 1]) + if IsLine(cmds[|cmds| - 1]) then [] else [cmds[|cmds| - 1]]
  }

  /** The same command, but for the two-colour bit of ESC i K, which is set. */
  predicate SameButTwoColor(was: Command, now: Command) {
    if IsExpandedMode(was) then
      IsExpandedMode(now) && forall k: nat | k < 8 :: HasBit(now.args[0], k) <==> k == 0 || HasBit(was.args[0], k)
    else now == was
  }

  lemma RecolorFrame(c: Command)
    requires Convertible(c)
    ensures var was, now := Frame([c]), Frame(Recolor(c));
      |now| == |was| && forall i | 0 <= i < |was| :: SameButTwoColor(was[i], now[i])
    ensures !c.RasterLine? ==> |Recolor(c)| == 1 && !Recolor(c)[0].RasterLine?
  {
    assert [c][..0] == [];
    var now := Recolor(c);
    if c.RasterLine? {
      assert now[..1] == [now[0]] && now[..1][..0] == [];
    } else {
      assert now[..0] == [];
      if IsExpandedMode(c) {
        forall k: nat | k < 8
          ensures HasBit(now[0].args[0], k) <==> k == 0 || HasBit(c.args[0], k)
        {
          BitAfterSet(c.args[0], 0, k);
        }
      }
    }
  }

  lemma {:induction false} FrameAppend(xs: seq<Command>, ys: seq<Command>)
    ensures Frame(xs + ys) == Frame(xs) + Frame(ys)
    decreases |ys|
  {
    if ys == [] {
      assert xs + ys == xs;
    } else {
      var n := |ys| - 1;
      assert (xs + ys)[..|xs + ys| - 1] == xs + ys[..n];
      FrameAppend(xs, ys[..n]);
    }
  }

  /** Nothing else changes: the commands around the lines stay, in order, two colours switched on. */
  lemma {:induction false} FrameRecolored(cmds: seq<Command>)
    requires All(cmds, Convertible)
    ensures var was, now := Frame(cmds), Frame(RecolorAll(cmds));
      |now| == |was| && forall i | 0 <= i < |was| :: SameButTwoColor(was[i], now[i])
    decreases |cmds|
  {
    if cmds != [] {
      var n := |cmds| - 1;
      var front, c := cmds[..n], cmds[n];
      FrameRecolored(front);
      assert cmds == front + [c];
      FrameAppend(front, [c]);
      FrameAppend(RecolorAll(front), Recolor(c));
      assert Convertible(c);
      RecolorFrame(c);
    }
  }

  /** No black-only line is left: a two-colour printer is sent two-colour lines throughout. */
  lemma {:induction false} NoBlackOnlyLine(cmds: seq<Command>)
    ensures forall i | 0 <= i < |RecolorAll(cmds)| :: !RecolorAll(cmds)[i].RasterLine?
    decreases |cmds|
  {
    if cmds != [] {
      NoBlackOnlyLine(cmds[..|cmds| - 1]);
    }
  }

  /** What the red lines add: for every black line a header and as many bytes again. */
  function RedBytes(cmds: seq<Command>): nat {
    if cmds == [] then 0
    else RedBytes(cmds[..|cmds| - 1]) + match cmds[|cmds| - 1] case RasterLine(_, row) => 3 + |row| case _ => 0
  }

  lemma {:induction false} LengthRecolored(cmds: seq<Command>)
    ensures |RenderAll(RecolorAll(cmds))| == |RenderAll(cmds)| + RedBytes(cmds)
    decreases |cmds|
  {
    if cmds != [] {
      var n := |cmds| - 1;
      var front, c := cmds[..n], cmds[n];
      LengthRecolored(front);
      assert cmds == front + [c];
      RenderAppend(front, [c]);
      RenderSingle(c);
      RenderAppend(RecolorAll(front), Recolor(c));
      RenderedLength(c);
    }
  }

  lemma RenderedLength(c: Command)
    ensures |RenderAll(Recolor(c))| == |Render(c)| + match c case RasterLine(_, row) => 3 + |row| case _ => 0
  {
    if c.RasterLine? {
      var d, e: Command := ColorLine(1, c.row), ColorLine(2, Zeros(|c.row|));
      assert [d, e] == [d] + [e];
      RenderAppend([d], [e]);
      RenderSingle(d);
      RenderSingle(e);
    } else {
      RenderSingle(Recolor(c)[0]);
    }
  }

  /**
   The rewrite of an accepted job is an accepted job: as many labels, the same roll, the
   same black dots on every label with nothing in red, and two-colour if there is any line.
   */
  lemma {:induction false} RewriteKeepsMeaning(data: seq<byte>)
    requires Parse(data).Accepted? && Convert(data).Rewritten?
    ensures var out := Convert(data).data;
      && Parse(out).Accepted?
      && Parse(out).job.pages == Parse(data).job.pages
      && Parse(out).job.media == Parse(data).job.media
      && (Parse(out).job.twoColor <==> AnyColored(Lex(data).cmds))
      && SamePrints(Draw(Lex(data).cmds), Draw(Lex(out).cmds))
      && |out| == |data| + RedBytes(Lex(data).cmds)
  {
    var cmds := Lex(data).cmds;
    AcceptedMeans(data);
    RewrittenIff(data);
    SummarizeRecolored(cmds);
    DrawRecolored(cmds);
    LengthRecolored(cmds);
    assert All(RecolorAll(cmds), Known) by { RecolorKnown(cmds); }
    ParseRendered(RecolorAll(cmds));
  }

  lemma {:induction false} RecolorKnown(cmds: seq<Command>)
    requires All(cmds, Known)
    ensures All(RecolorAll(cmds), Known)
    decreases |cmds|
  {
    if cmds != [] {
      RecolorKnown(cmds[..|cmds| - 1]);
      assert Known(cmds[|cmds| - 1]);
    }
  }
}
