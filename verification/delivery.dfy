/** What runs of Send mean for the labels: the job sent is the job asked for, and what is left of a job that stops. */
module Delivery {
  import opened Bytes
  import opened Sequences
  import opened CommandStream
  import opened JobParser
  import opened JobLaws
  import opened TwoColor
  import opened TwoColorLaws
  import opened Raster
  import opened RasterLaws
  import opened Reset
  import opened SendProtocol
  import opened SendLaws
  import opened SendRecords
  import SendAnswers

  /** As many labels, with the same black lines. */
  predicate SameBlack(a: Canvas, b: Canvas) {
    |a.pages| == |b.pages| && forall i | 0 <= i < |a.pages| :: a.pages[i].black == b.pages[i].black
  }

  /** Any stream that may be sent for an accepted job prints the same labels as its data. */
  lemma {:induction false} PermittedPrintsTheJob(t: Task, load: seq<byte>)
    requires Parse(t.data) == Accepted(t.job) && Permitted(t, load)
    ensures Parse(load).Accepted? && Parse(load).job.pages == t.job.pages && Parse(load).job.media == t.job.media
    ensures SameBlack(Draw(Lex(t.data).cmds), Draw(Lex(load).cmds))
  {
    hide Parse, Draw, Lex, Convert;
    if load != t.data {
      RewriteKeepsMeaning(t.data);
    }
  }

  /**
   When a run ends with every label reported, or without a word, every write was taken: the
   printer has received the opening, the requests, the whole of a stream with the job's
   labels, and an inquiry at most. All of that is read, and prints the job's labels.
   */
  lemma {:induction false} SentJobIsTheJob(t: Task, log: seq<Entry>)
    requires Parse(t.data) == Accepted(t.job) && Replay(t, log).phase == Finished
    requires Replay(t, log).res.outcome in {Printed, Unconfirmed}
    ensures var m := Replay(t, log);
      && AllTaken(log)
      && (forall w | OnWire(log, w) :: w == OnTheWire(m.asks, m.load) + Joined(AfterWrites(m.after)))
      && (forall w | OnWire(log, w) :: Lex(w).rest == [] && SameBlack(Draw(Lex(t.data).cmds), Draw(Lex(w).cmds)))
      && m.after in {[], [Asked]}
      && Parse(m.load).Accepted? && Parse(m.load).job.pages == m.res.pages == t.job.pages
      && SameBlack(Draw(Lex(t.data).cmds), Draw(Lex(m.load).cmds))
  {
    hide Replay, Parse, Draw, Lex, Permitted, SameBlack, AllTaken, TakenButLast, OnWire, OnTheWire, Joined,
      AfterWrites, OpeningBytes, Pieces, StatusRequests, Writes, RenderAll;
    var m := Replay(t, log);
    WriteGrammar(t, log);
    PermittedPrintsTheJob(t, m.load);
    PagesStay(t, log);
    TakenOfRun(t, log);
    JoinedWrites(m.asks, m.load, m.chunks, m.after);
    AcceptedMeans(m.load);
    WireIsRead(m.asks, m.load, m.after);
    forall w | OnWire(log, w) ensures w == OnTheWire(m.asks, m.load) + Joined(AfterWrites(m.after)) {
      WireIsWrites(log, w);
    }
  }

  lemma {:induction false} JoinedAppend(a: seq<seq<byte>>, b: seq<seq<byte>>)
    ensures Joined(a + b) == Joined(a) + Joined(b)
    decreases |b|
  {
    if b == [] {
      assert a + b == a;
    } else {
      var n := |b| - 1;
      assert (a + b)[..|a + b| - 1] == a + b[..n];
      JoinedAppend(a, b[..n]);
      Regroup(Joined(a), Joined(b[..n]), b[n]);
    }
  }

  lemma JoinedWrites(asks: nat, load: seq<byte>, chunks: nat, after: seq<After>)
    ensures Joined([OpeningBytes()] + StatusRequests(asks) + Pieces(load, chunks) + AfterWrites(after)) ==
            OnTheWire(asks, Joined(Pieces(load, chunks))) + Joined(AfterWrites(after))
  {
    hide Joined, OpeningBytes, Chunk;
    var front := [OpeningBytes()] + StatusRequests(asks);
    JoinedAppend(front, Pieces(load, chunks));
    JoinedAppend(front + Pieces(load, chunks), AfterWrites(after));
  }

  lemma PagesStay(t: Task, log: seq<Entry>)
    requires Replay(t, log).phase == Finished
    ensures Replay(t, log).res.pages == t.job.pages
  {
    hide Replay;
    SendVerdicts.VerdictIsSound(t, log);
  }

  /** The bytes on the wire when a run has written its opening, n more requests and the front q of the job. */
  function OnTheWire(n: nat, q: seq<byte>): seq<byte> {
    Joined([OpeningBytes()] + StatusRequests(n)) + q
  }

  predicate Uncompressed(cmds: seq<Command>) {
    forall i | 0 <= i < |cmds| :: !cmds[i].CompressedLine?
  }

  lemma {:induction false} OpeningIsRead(n: nat)
    ensures var s := Joined([OpeningBytes()] + StatusRequests(n));
      Lex(s).rest == [] && Uncompressed(Lex(s).cmds) && Draw(Lex(s).cmds) == Canvas([], EMPTY_PAGE)
  {
    var ask: Command := Setting(0x53, []);
    hide OpeningBytes, Draw, Lex, Joined, Uncompressed;
    if n == 0 {
      assert [OpeningBytes()] + StatusRequests(0) == [OpeningBytes()];
      JoinedOne(OpeningBytes());
      FirstIsRead(ask);
    } else {
      var front := [OpeningBytes()] + StatusRequests(n - 1);
      assert [OpeningBytes()] + StatusRequests(n) == front + [STATUS_REQUEST];
      JoinedMore(front, STATUS_REQUEST);
      OpeningIsRead(n - 1);
      OneRequest(Joined(front), ask);
      OneMoreUncompressed(Lex(Joined(front)).cmds, ask);
    }
  }

  lemma JoinedOne(b: seq<byte>)
    ensures Joined([b]) == b
  {
    assert [b][..0] == [];
    EmptyEnds(b);
  }

  lemma OneMoreUncompressed(cmds: seq<Command>, c: Command)
    requires Uncompressed(cmds) && !c.CompressedLine?
    ensures Uncompressed(cmds + [c])
  {
  }

  lemma FirstIsRead(ask: Command)
    requires ask == Setting(0x53, [])
    ensures Lex(OpeningBytes()).rest == [] && Uncompressed(Lex(OpeningBytes()).cmds)
    ensures Draw(Lex(OpeningBytes()).cmds) == Canvas([], EMPTY_PAGE)
  {
    LexResetTail(0);
    assert Uncompressed(ResetCommands(0));
    assert CmdReset()[0..] == CmdReset();
    DrawReset([], 0);
    hide CmdReset, ResetCommands;
    EmptyEnds(ResetCommands(0));
    OneRequest(CmdReset(), ask);
  }

  lemma OneRequest(s: seq<byte>, ask: Command)
    requires ask == Setting(0x53, []) && Lex(s).rest == []
    ensures Lex(s + STATUS_REQUEST) == Lexed(Lex(s).cmds + [ask], [])
    ensures Draw(Lex(s).cmds + [ask]) == Draw(Lex(s).cmds)
  {
    assert STATUS_REQUEST == Render(ask);
    RenderSingle(ask);
    LexRendered([ask]);
    LexAppend(s, STATUS_REQUEST);
    SplitBack(Lex(s).cmds, [ask]);
  }

  /** Row y of the label has all the dots of the image in black, and no others. */
  ghost predicate Shows(page: Page, img: Image, roll: Roll, y: nat)
    requires Fits(img, roll) && y < |img.rows|
  {
    && |page.black| == |img.rows|
    && (forall x: nat | x < roll.dotsPrintable :: LabelDot(page, y, HeadDot(roll, x)) <==> Inked(img, roll, y, x))
    && (forall d: nat | LabelDot(page, y, d) :: exists x: nat :: x < roll.dotsPrintable && HeadDot(roll, x) == d)
  }

  lemma ShownAlike(a: Page, b: Page, img: Image, roll: Roll, y: nat)
    requires Fits(img, roll) && y < |img.rows| && a.black == b.black && Shows(a, img, roll, y)
    ensures Shows(b, img, roll, y)
  {
    hide Inked, Dot;
    assert forall d: nat :: LabelDot(a, y, d) == LabelDot(b, y, d);
  }

  lemma EncodedShows(imgs: seq<Image>, roll: Roll, opts: Options, k: nat, y: nat)
    requires PagesOk(imgs, roll, |imgs|) && k < |imgs| && y < |imgs[k].rows|
    ensures Fits(imgs[k], roll)
    ensures var cv := Draw(Lex(EncodedJob(imgs, roll, opts)).cmds);
      |cv.pages| == |imgs| && Shows(cv.pages[k], imgs[k], roll, y)
  {
    hide Draw, Lex, Inked, LabelDot, EncodedJob;
    RoundTrip(imgs, roll, opts, k, y);
  }

  /** The run that an encoded job is given. */
  function EncodedTask(cfg: Config, imgs: seq<Image>, roll: Roll, opts: Options): Task
    requires PagesOk(imgs, roll, |imgs|)
  {
    Task(cfg, Job(|imgs|, DeclaredMedia(roll, opts), false), EncodedJob(imgs, roll, opts))
  }

  /**
   From the images to the printer: when the run of an encoded job ends as printed, or
   without a word, what reached the printer prints a label for every image, with all its
   rows, in which pixel x of the printable area is a black dot at its mirrored place if and
   only if it is inked, and no other dot is black.
   */
  lemma {:induction false} ImagesReachThePrinter(cfg: Config, imgs: seq<Image>, roll: Roll, opts: Options,
      log: seq<Entry>, w: seq<byte>, k: nat, y: nat)
    requires PagesOk(imgs, roll, |imgs|) && k < |imgs| && y < |imgs[k].rows|
    requires var m := Replay(EncodedTask(cfg, imgs, roll, opts), log);
      m.phase == Finished && m.res.outcome in {Printed, Unconfirmed}
    requires OnWire(log, w)
    ensures Fits(imgs[k], roll)
    ensures var cv := Draw(Lex(w).cmds); |cv.pages| == |imgs| && Shows(cv.pages[k], imgs[k], roll, y)
  {
    hide Replay, Parse, Lex, Draw, EncodedJob, OnWire, DeclaredMedia, Shows, AllTaken;
    var t := EncodedTask(cfg, imgs, roll, opts);
    EncodedParses(imgs, roll, opts);
    SentJobIsTheJob(t, log);
    EncodedShows(imgs, roll, opts, k, y);
    ShownAlike(Draw(Lex(t.data).cmds).pages[k], Draw(Lex(w).cmds).pages[k], imgs[k], roll, y);
  }

  // ----- A job that stops -----

  lemma {:induction false} RecolorUncompressed(cmds: seq<Command>)
    requires Uncompressed(cmds)
    ensures Uncompressed(RecolorAll(cmds))
    decreases |cmds|
  {
    if cmds != [] {
      RecolorUncompressed(cmds[..|cmds| - 1]);
    }
  }

  /** What may be sent for a job without compressed lines has none. */
  lemma PermittedUncompressed(t: Task, load: seq<byte>)
    requires Parse(t.data) == Accepted(t.job) && Permitted(t, load) && Uncompressed(Lex(t.data).cmds)
    ensures Uncompressed(Lex(load).cmds)
  {
    hide Draw, Lex, Uncompressed;
    if load != t.data {
      var cmds := Lex(t.data).cmds;
      AcceptedMeans(t.data);
      RecolorKnown(cmds);
      ParseRendered(RecolorAll(cmds));
      RecolorUncompressed(cmds);
    }
  }

  lemma {:induction false} DrawGrows(cs: seq<Command>, ds: seq<Command>)
    requires cs <= ds
    ensures Draw(cs).pages <= Draw(ds).pages
    decreases |ds|
  {
    if |cs| < |ds| {
      DrawGrows(cs, ds[..|ds| - 1]);
    } else {
      assert cs == ds;
    }
  }

  lemma {:induction false} DrawAfterIdle(idle: seq<Command>, cs: seq<Command>)
    requires Draw(idle) == Canvas([], EMPTY_PAGE)
    ensures Draw(idle + cs) == Draw(cs)
    decreases |cs|
  {
    if cs == [] {
      assert idle + cs == idle;
    } else {
      var n := |cs| - 1;
      assert (idle + cs)[..|idle + cs| - 1] == idle + cs[..n];
      DrawAfterIdle(idle, cs[..n]);
    }
  }

  /** All the commands there can be on the wire when a job stops: the opening, the job, and an inquiry. */
  function WireCommands(asks: nat, load: seq<byte>): seq<Command> {
    Lex(Joined([OpeningBytes()] + StatusRequests(asks))).cmds + Lex(load).cmds + [Setting(0x53, [])]
  }

  lemma WireCommandsAre(asks: nat, load: seq<byte>)
    requires Lex(load).rest == []
    ensures RenderAll(WireCommands(asks, load)) == OnTheWire(asks, load) + STATUS_REQUEST
    ensures Draw(WireCommands(asks, load)) == Draw(Lex(load).cmds)
    ensures Uncompressed(Lex(load).cmds) ==> Uncompressed(WireCommands(asks, load))
  {
    var s := Joined([OpeningBytes()] + StatusRequests(asks));
    var ask: Command := Setting(0x53, []);
    hide Lex, Draw, Joined, OpeningBytes, RenderAll;
    OpeningIsRead(asks);
    LexAppend(s, load);
    OneRequest(s + load, ask);
    DrawAfterIdle(Lex(s).cmds, Lex(load).cmds);
    RenderedBack(s);
    RenderedBack(load);
    RenderAppend(Lex(s).cmds, Lex(load).cmds);
    RenderAppend(Lex(s).cmds + Lex(load).cmds, [ask]);
    RequestRendered(ask);
  }

  /** A whole job on the wire is read to the end, and draws what it draws by itself. */
  lemma WireIsRead(asks: nat, load: seq<byte>, after: seq<After>)
    requires Lex(load).rest == [] && after in {[], [Asked]}
    ensures var l := Lex(OnTheWire(asks, load) + Joined(AfterWrites(after)));
      l.rest == [] && Draw(l.cmds) == Draw(Lex(load).cmds)
  {
    var s := Joined([OpeningBytes()] + StatusRequests(asks));
    var ask: Command := Setting(0x53, []);
    JoinedAfter();
    hide Lex, Draw, Joined, OpeningBytes, AfterWrites;
    OpeningIsRead(asks);
    LexAppend(s, load);
    DrawAfterIdle(Lex(s).cmds, Lex(load).cmds);
    EmptyEnds(s + load);
    OneRequest(s + load, ask);
  }

  lemma RenderedBack(s: seq<byte>)
    requires Lex(s).rest == []
    ensures RenderAll(Lex(s).cmds) == s
  {
    LexSound(s);
    EmptyEnds(RenderAll(Lex(s).cmds));
  }

  lemma RequestRendered(ask: Command)
    requires ask == Setting(0x53, [])
    ensures RenderAll([ask]) == STATUS_REQUEST
  {
    RenderSingle(ask);
  }

  /**
   v has reached the printer, then z of the reset, and then u of an inquiry. No other label is
   out than the first of these. All of the reset brings the printer back to reading commands,
   with no part of a label held, exactly if it stood where that is recoverable; and a label
   that was held is dropped in this case only.
   */
  ghost predicate Cleared(v: seq<byte>, z: seq<byte>, u: seq<byte>, labels: seq<Page>) {
    var before, after := Lex(v), Lex(v + z + u);
    && Draw(after.cmds).pages == Draw(before.cmds).pages <= labels
    && (z == CmdReset() ==> (Resyncs(v) <==> Recoverable(before.rest)))
    && (z == CmdReset() && Recoverable(before.rest) ==> Draw(after.cmds).open == EMPTY_PAGE)
    && (Draw(before.cmds).open != EMPTY_PAGE ==>
          (Draw(after.cmds).open == EMPTY_PAGE <==> z == CmdReset() && Recoverable(before.rest)))
  }

  lemma WireIsCleared(asks: nat, load: seq<byte>, v: seq<byte>, z: seq<byte>, u: seq<byte>)
    requires Lex(load).rest == []
    requires v <= OnTheWire(asks, load) + STATUS_REQUEST && z <= CmdReset() && OnlyAsks(u)
    ensures Cleared(v, z, u, Draw(Lex(load).cmds).pages)
  {
    var cmds := WireCommands(asks, load);
    WireCommandsAre(asks, load);
    hide Draw, OpeningBytes, Joined, Lex, WireCommands, CmdReset, OnTheWire, Recoverable, InsideOpcode, OnlyAsks,
      RenderAll, Resyncs;
    ResyncsIff(v);
    LexPrefix(cmds, v);
    DrawGrows(Lex(v).cmds, cmds);
    PartOfReset(v, z);
    AsksChangeNothing(v + z, u);
  }

  /** In a job without compressed lines the reset is lost inside an opcode only. */
  lemma WireIsRecoverable(asks: nat, load: seq<byte>, v: seq<byte>)
    requires Lex(load).rest == [] && Uncompressed(Lex(load).cmds)
    requires v <= OnTheWire(asks, load) + STATUS_REQUEST
    ensures Recoverable(Lex(v).rest) <==> !InsideOpcode(Lex(v).rest)
  {
    WireCommandsAre(asks, load);
    hide Draw, OpeningBytes, Joined, Lex, WireCommands, CmdReset, OnTheWire, Recoverable, InsideOpcode, RenderAll;
    UncompressedResyncs(WireCommands(asks, load), v);
    ResyncsIff(v);
  }

  /** What a run may have put on the wire when it comes to the reset. */
  lemma WireAtReset(t: Task, log: seq<Entry>, w: seq<byte>)
    requires Replay(t, log).phase.Resetting? || Replay(t, log).phase.Canceling?
    requires OnWire(log, w)
    ensures var m := Replay(t, log);
      Permitted(t, m.load) && w <= OnTheWire(m.asks, m.load) + STATUS_REQUEST
  {
    hide Replay, Permitted, OnWire, TakenButLast, OpeningBytes, Pieces, StatusRequests, AfterWrites, Joined, OnTheWire;
    var m := Replay(t, log);
    WritesAtReset(t, log);
    TakenOfRun(t, log);
    WireIsWrites(log, w);
    var q := Joined(Pieces(m.load, m.chunks));
    JoinedWrites(m.asks, m.load, m.chunks, m.after);
    JoinedAfter();
    if m.after == [] {
      EmptyEnds(OnTheWire(m.asks, q));
      FrontOfWire(m.asks, m.load, q);
    }
  }

  lemma WritesAtReset(t: Task, log: seq<Entry>)
    requires Replay(t, log).phase.Resetting? || Replay(t, log).phase.Canceling?
    ensures var m := Replay(t, log); var q := Joined(Pieces(m.load, m.chunks));
      && Writes(log) == [OpeningBytes()] + StatusRequests(m.asks) + Pieces(m.load, m.chunks) + AfterWrites(m.after)
      && Permitted(t, m.load) && q <= m.load
      && m.after in {[], [Asked]} && (m.after == [Asked] ==> q == m.load)
  {
    hide Replay, Permitted, OpeningBytes, StatusRequests, Pieces, AfterWrites, Joined;
    var m := Replay(t, log);
    TraceOfRun(t, log);
    LoadOfRun(t, log);
    PiecesArePrefix(m.load, m.chunks);
    TakeDrop(m.load, |m.load|);
  }

  lemma JoinedAfter()
    ensures Joined(AfterWrites([])) == [] && Joined(AfterWrites([Asked])) == STATUS_REQUEST
  {
    assert AfterWrites([]) == [] && AfterWrites([Asked]) == [STATUS_REQUEST];
    JoinedOne(STATUS_REQUEST);
  }

  lemma FrontOfWire(asks: nat, load: seq<byte>, q: seq<byte>)
    requires q <= load
    ensures OnTheWire(asks, q) <= OnTheWire(asks, load) + STATUS_REQUEST
  {
    hide Joined;
    TakeDrop(load, |q|);
  }

  /** w has reached the printer: some v before the reset, z of it, all if it was taken, and u of an inquiry. */
  ghost predicate ResetOnWire(front: seq<Entry>, reset: Act, w: seq<byte>, labels: seq<Page>) {
    exists v, z, u ::
      && Cleared(v, z, u, labels)
      && w == v + z + u && OnWire(front, v) && OnlyAsks(u)
      && z <= CmdReset() && (reset == Wrote(CmdReset(), true) ==> z == CmdReset())
  }

  /**
   A job that stops on the way, at a chunk boundary, inside a write that was refused, or at
   an inquiry that was: the run that ends as canceled, or as failed after anything of the
   job was attempted, comes to a reset, after which nothing but an inquiry is written. From
   there to the end of the run no label comes out but the first ones of the stream sent. If
   all of the reset arrives, it brings the printer back to reading commands, holding no part
   of a label, if and only if that stood where at most 400 zeros complete a command, outside
   an ESC or ESC i opcode; in any other case a label that is held stays held. Without
   compressed lines it stands there unless it stands in an opcode.
   */
  lemma {:induction false} StoppedJobIsCleared(t: Task, log: seq<Entry>) returns (k: nat)
    requires Parse(t.data) == Accepted(t.job)
    requires Replay(t, log).phase == Finished && Replay(t, log).res.outcome in {Failed, Canceled}
    requires |Writes(log)| > 1 + Replay(t, log).asks
    ensures k < |log| && log[k].act.Wrote? && log[k].act.bytes == CmdReset()
    ensures forall i | k < i < |log| && log[i].act.Wrote? :: log[i].act.bytes == STATUS_REQUEST
    ensures var load := Replay(t, log[..k]).load;
      && Permitted(t, load)
      && forall j, w | k < j <= |log| && OnWire(log[..j], w) ::
           ResetOnWire(log[..k], log[k].act, w, Draw(Lex(load).cmds).pages)
    ensures Uncompressed(Lex(t.data).cmds) ==>
      forall v | OnWire(log[..k], v) :: Recoverable(Lex(v).rest) <==> !InsideOpcode(Lex(v).rest)
  {
    hide Replay, Permitted, Cleared, OnWire, Parse, Lex, Draw, Uncompressed, CmdReset, OpeningBytes, Chunk,
      Recoverable, InsideOpcode;
    var m := Replay(t, log);
    WriteGrammar(t, log);
    k := ResetOfRun(t, log);
    var load := Replay(t, log[..k]).load;
    ResetIsOfJob(t, log[..k]);
    PermittedPrintsTheJob(t, load);
    AcceptedMeans(load);
    hide Writes, Joined, ResetOnWire;
    forall j, w | k < j <= |log| && OnWire(log[..j], w)
      ensures ResetOnWire(log[..k], log[k].act, w, Draw(Lex(load).cmds).pages)
    {
      ResetArrives(t, log, k, j, w);
    }
    if Uncompressed(Lex(t.data).cmds) {
      PermittedUncompressed(t, load);
      forall v | OnWire(log[..k], v) ensures Recoverable(Lex(v).rest) <==> !InsideOpcode(Lex(v).rest) {
        WireAtReset(t, log[..k], v);
        WireIsRecoverable(Replay(t, log[..k]).asks, load, v);
      }
    }
  }

  lemma ResetArrives(t: Task, log: seq<Entry>, k: nat, j: nat, w: seq<byte>)
    requires k < j <= |log| && log[k].act.Wrote? && log[k].act.bytes == CmdReset() && OnWire(log[..j], w)
    requires forall i | k < i < |log| && log[i].act.Wrote? :: log[i].act.bytes == STATUS_REQUEST
    requires Replay(t, log[..k]).phase.Resetting? || Replay(t, log[..k]).phase.Canceling?
    requires Lex(Replay(t, log[..k]).load).rest == []
    ensures ResetOnWire(log[..k], log[k].act, w, Draw(Lex(Replay(t, log[..k]).load).cmds).pages)
  {
    hide Replay, Permitted, Cleared, OnWire, Lex, Draw, CmdReset, OnTheWire, OnlyAsks;
    var front, m := log[..k], Replay(t, log[..k]);
    var i := AskedSince(log, k, j, w);
    assert log[..k + 1][..k] == front;
    var n := LastPart(log[..k + 1], w[..i]);
    var v, z, u := w[..i][..i - n], CmdReset()[..n], w[i..];
    TakeDrop(w[..i], i - n);
    TakeDrop(w, i);
    TakeDrop(CmdReset(), n);
    WireAtReset(t, front, v);
    WireIsCleared(m.asks, m.load, v, z, u);
    assert n == |CmdReset()| ==> z == CmdReset();
  }

  /** The part of the wire that was there after entry k; what came since is of inquiries. */
  lemma {:induction false} AskedSince(log: seq<Entry>, k: nat, j: nat, w: seq<byte>) returns (i: nat)
    requires k < j <= |log| && OnWire(log[..j], w)
    requires forall i | k < i < |log| && log[i].act.Wrote? :: log[i].act.bytes == STATUS_REQUEST
    ensures i <= |w| && OnWire(log[..k + 1], w[..i]) && OnlyAsks(w[i..])
    decreases j
  {
    var now := log[..j];
    assert now[..j - 1] == log[..j - 1];
    if j == k + 1 {
      i := |w|;
      assert w[..i] == w;
    } else if now[j - 1].act.Wrote? {
      var n := LastPart(now, w);
      hide OnWire;
      i := AskedSince(log, k, j - 1, w[..|w| - n]);
      assert w[..|w| - n][..i] == w[..i];
      assert w[i..] == w[..|w| - n][i..] + STATUS_REQUEST[..n];
    } else {
      i := AskedSince(log, k, j - 1, w);
    }
  }

  lemma ResetIsOfJob(t: Task, log: seq<Entry>)
    requires Replay(t, log).phase.Resetting? || Replay(t, log).phase.Canceling?
    ensures Permitted(t, Replay(t, log).load)
  {
    hide Replay, Permitted;
    LoadOfRun(t, log);
  }

  // ----- A reset that is refused -----

  /** Every run about to reset after a cancel may end so with the reset refused. */
  lemma {:induction false} ResetMayBeRefused(t: Task, log: seq<Entry>)
    requires Replay(t, log).phase == Canceling
    ensures var m := Replay(t, log + [Entry(Replay(t, log).now, Wrote(CmdReset(), false))]);
      m.phase == Finished && m.res.outcome == Canceled
  {
    hide Replay;
    ReplayMore(t, log, Entry(Replay(t, log).now, Wrote(CmdReset(), false)));
  }

  /** All that was written is on the wire, if all was taken. */
  lemma {:induction false} WritesOnWire(log: seq<Entry>)
    requires AllTaken(log)
    ensures OnWire(log, Joined(Writes(log)))
    decreases |log|
  {
    if log != [] {
      var front, a := log[..|log| - 1], log[|log| - 1].act;
      FrontTaken(log);
      WritesMore(log);
      WritesOnWire(front);
      if a.Wrote? {
        JoinedMore(Writes(front), a.bytes);
        hide Joined, Writes, AllTaken;
        WireGrows(front, log[|log| - 1], Joined(Writes(front)), |a.bytes|);
        assert a.bytes[..|a.bytes|] == a.bytes;
        assert front + [log[|log| - 1]] == log;
      }
    }
  }

  lemma WireGrows(front: seq<Entry>, e: Entry, wire: seq<byte>, n: nat)
    requires OnWire(front, wire) && e.act.Wrote? && n <= |e.act.bytes| && (e.act.ok ==> n == |e.act.bytes|)
    ensures OnWire(front + [e], wire + e.act.bytes[..n])
  {
    var log, w := front + [e], wire + e.act.bytes[..n];
    assert log[..|log| - 1] == front && w[..|w| - n] == wire && w[|w| - n..] == e.act.bytes[..n];
  }

  lemma WireStays(front: seq<Entry>, e: Entry, wire: seq<byte>)
    requires OnWire(front, wire) && !e.act.Wrote?
    ensures OnWire(front + [e], wire)
  {
    assert (front + [e])[..|front|] == front;
  }

  /** One label of one line. */
  function OneLine(): Task {
    Task(PRODUCTION, Job(1, UNKNOWN_MEDIA, false), [0x5A, 0x1A])
  }

  /** The write is refused after its first byte, the job is canceled, and so is the reset refused. */
  lemma CanceledSteps(t: Task, m: Machine)
    requires t == OneLine() && m.phase == Phase.Sending && m.load == t.data && m.chunks == 0
    ensures Chunk(t.data, 0) == t.data
    ensures var a := Step(t, m, Entry(m.now, Looked(false)));
      var b := Step(t, a, Entry(m.now, Wrote(t.data, false)));
      var c := Step(t, b, Entry(m.now, Looked(true)));
      a.phase == Chunking && b.phase == SendBroken && c.phase == Canceling && c.now == m.now
  {
    hide CmdReset, Convert;
  }

  lemma OneLineIsRead(asks: nat)
    ensures var w := OnTheWire(asks, [0x5A]); Draw(Lex(w).cmds).open == Page([Blank], [])
    ensures Parse(OneLine().data) == Accepted(OneLine().job)
  {
    var s := Joined([OpeningBytes()] + StatusRequests(asks));
    OpeningIsRead(asks);
    hide Joined, OpeningBytes;
    RenderSingle(ZeroLine);
    LexRendered([ZeroLine]);
    LexAppend(s, [0x5A]);
    DrawAfterIdle(Lex(s).cmds, [ZeroLine]);
    assert [ZeroLine][..0] == [];
    OneLineParses();
  }

  /** The command adds a line to the label, and nothing to what the parser looks for. */
  predicate IsLine(c: Command) {
    c.ZeroLine? || c.CompressedLine?
  }

  lemma {:induction false} LinesSummarize(cmds: seq<Command>)
    requires All(cmds, IsLine)
    ensures Summarize(cmds) == NO_JOB && All(cmds, Known)
    decreases |cmds|
  {
    if cmds != [] {
      LinesSummarize(cmds[..|cmds| - 1]);
    }
  }

  /** Any such lines, printed, are a job of one label. */
  lemma LinesParse(cmds: seq<Command>)
    requires All(cmds, IsLine)
    ensures Parse(RenderAll(cmds) + [0x1A]) == Accepted(Job(1, UNKNOWN_MEDIA, false))
  {
    var job := cmds + [Print(true)];
    LinesSummarize(cmds);
    SplitBack(cmds, [Print(true)]);
    assert Summarize(job) == Job(1, UNKNOWN_MEDIA, false);
    RenderSingle(Print(true));
    hide RenderAll, Parse, Summarize;
    RenderAppend(cmds, [Print(true)]);
    ParseRendered(job);
  }

  lemma OneLineParses()
    ensures Parse(OneLine().data) == Accepted(OneLine().job)
  {
    RenderSingle(ZeroLine);
    assert RenderAll([ZeroLine]) + [0x1A] == OneLine().data;
    hide RenderAll, Parse;
    LinesParse([ZeroLine]);
  }

  lemma WireOfSending(t: Task, log: seq<Entry>)
    requires Replay(t, log).phase == Phase.Sending && Replay(t, log).chunks == 0
    ensures AllTaken(log) && OnWire(log, OnTheWire(Replay(t, log).asks, []))
  {
    hide Replay, OnWire, AllTaken, OpeningBytes, Chunk, Joined;
    var m := Replay(t, log);
    TraceOfRun(t, log);
    TakenOfRun(t, log);
    WritesOnWire(log);
    JoinedWrites(m.asks, m.load, 0, []);
    assert Joined(Pieces(m.load, 0)) == Joined(AfterWrites([])) == [] by {
      assert Pieces(m.load, 0) == [] && AfterWrites([]) == [];
      JoinedNone();
    }
    EmptyEnds(OnTheWire(m.asks, []));
  }

  lemma JoinedNone()
    ensures Joined([]) == []
  {
  }

  /** Of a write of the job the first byte arrives; of the reset none does. */
  lemma RefusedTwice(t: Task, front: seq<Entry>, wire: seq<byte>) returns (log: seq<Entry>)
    requires t == OneLine() && OnWire(front, wire)
    requires var m := Replay(t, front); m.phase == Phase.Sending && m.load == t.data && m.chunks == 0
    ensures Replay(t, log).phase == Finished && Replay(t, log).res.outcome == Canceled
    ensures OnWire(log, wire + [0x5A])
  {
    var m := Replay(t, front);
    var look, job := Entry(m.now, Looked(false)), Entry(m.now, Wrote(t.data, false));
    var seen, reset := Entry(m.now, Looked(true)), Entry(m.now, Wrote(CmdReset(), false));
    CanceledSteps(t, m);
    assert t.data[..1] == [0x5A];
    hide Step, Replay, CmdReset, OnWire, OneLine;
    var now;
    log, now := SendVerdicts.Next(t, front, look);
    WireStays(front, look, wire);
    WireGrows(log, job, wire, 1);
    log, now := SendVerdicts.Next(t, log, job);
    WireStays(log, seen, wire + [0x5A]);
    log, now := SendVerdicts.Next(t, log, seen);
    WireGrows(log, reset, wire + [0x5A], 0);
    assert CmdReset()[..0] == [];
    EmptyEnds(wire + [0x5A]);
    ResetMayBeRefused(t, log);
    log := log + [reset];
  }

  /** So a job that stops can leave a part of a label behind: this run ends with the printer holding a line. */
  lemma {:induction false} LeftBehind() returns (t: Task, log: seq<Entry>, w: seq<byte>)
    ensures Parse(t.data) == Accepted(t.job) && Replay(t, log).phase == Finished
    ensures Replay(t, log).res.outcome == Canceled
    ensures OnWire(log, w) && Draw(Lex(w).cmds).open != EMPTY_PAGE
  {
    t := OneLine();
    var m;
    hide Replay, OnWire, Parse, Draw, Lex, OnTheWire;
    log := SendAnswers.BusyAnswer(t);
    log, m := SendAnswers.ThenSilence(t, log);
    WireOfSending(t, log);
    log := RefusedTwice(t, log, OnTheWire(m.asks, []));
    w := OnTheWire(m.asks, [0x5A]);
    MoreOnTheWire(m.asks, [0x5A]);
    OneLineIsRead(m.asks);
  }

  /** A line of the label, and a compressed line of 65535 bytes. */
  function LongLine(): Task {
    Task(PRODUCTION, Job(1, UNKNOWN_MEDIA, false), [0x5A] + Render(CompressedLine(Zeros(65535))) + [0x1A])
  }

  /** The first chunk of it, up to somewhere in the compressed line. */
  function LongFront(): seq<byte> {
    LongLine().data[..CHUNK]
  }

  lemma LongLineParses()
    ensures Parse(LongLine().data) == Accepted(LongLine().job)
  {
    var long: Command := CompressedLine(Zeros(65535));
    RenderSingle(ZeroLine);
    RenderSingle(long);
    hide RenderAll, Parse, Zeros;
    RenderAppend([ZeroLine], [long]);
    assert [ZeroLine] + [long] == [ZeroLine, long];
    LinesParse([ZeroLine, long]);
  }

  /** A line in front of a compressed line that is cut is held. */
  lemma LineThenCut(s: seq<byte>, q: seq<byte>)
    requires Lex(s).rest == [] && Draw(Lex(s).cmds) == Canvas([], EMPTY_PAGE)
    requires 3 <= |q| < 65538 && q[0] == 0x47 && q[1] == q[2] == 0xFF
    ensures var l := Lex(s + ([0x5A] + q)); l.rest == q && Draw(l.cmds).open == Page([Blank], [])
  {
    PackedFirst(q, 65538);
    assert Lex(q) == Lexed([], q);
    assert Render(ZeroLine) == [0x5A];
    hide Lex, First, Render;
    LexStep(ZeroLine, q);
    LexAppend(s, [0x5A] + q);
    DrawAfterIdle(Lex(s).cmds, [ZeroLine]);
    assert [ZeroLine][..0] == [];
  }

  lemma LongFrontIs()
    ensures var p := LongFront()[1..];
      |p| == 16383 && p[0] == 0x47 && p[1] == p[2] == 0xFF && LongFront() == [0x5A] + p && !InsideOpcode(p)
  {
  }

  lemma LongFrontIsHeld(asks: nat)
    ensures Lex(OnTheWire(asks, LongFront())).rest == LongFront()[1..] && !InsideOpcode(LongFront()[1..])
    ensures Draw(Lex(OnTheWire(asks, LongFront()) + CmdReset()).cmds).open == Page([Blank], [])
  {
    var s := Joined([OpeningBytes()] + StatusRequests(asks));
    var p := LongFront()[1..];
    LongFrontIs();
    ResetEnds();
    OpeningIsRead(asks);
    hide Joined, OpeningBytes, LongFront, CmdReset, Lex, Draw, InsideOpcode;
    LineThenCut(s, p);
    LineThenCut(s, p + CmdReset());
    Regroup([0x5A], p, CmdReset());
    Regroup(s, LongFront(), CmdReset());
  }

  /** The first chunk is taken, the job is canceled, and the reset is taken. */
  lemma SwallowedSteps(t: Task, m: Machine)
    requires t == LongLine() && m.phase == Phase.Sending && m.load == t.data && m.chunks == 0
    ensures Chunk(t.data, 0) == LongFront()
    ensures var a := Step(t, m, Entry(m.now, Looked(false)));
      var b := Step(t, a, Entry(m.now, Wrote(LongFront(), true)));
      var c := Step(t, b, Entry(m.now, Looked(true)));
      var d := Step(t, c, Entry(m.now, Looked(true)));
      && a.phase == Chunking && b.phase == Phase.Sending && c.phase == SendBroken && d.phase == Canceling
      && Step(t, d, Entry(m.now, Wrote(CmdReset(), true))).phase == Finished
      && Step(t, d, Entry(m.now, Wrote(CmdReset(), true))).res.outcome == Canceled
  {
    hide CmdReset, Convert, Render;
    assert |t.data| == 65540 by { LongIs(); }
  }

  lemma LongIs()
    ensures |LongLine().data| == 65540
  {
  }

  lemma AllTakenMore(log: seq<Entry>, e: Entry)
    requires AllTaken(log) && (e.act.Wrote? ==> e.act.ok)
    ensures AllTaken(log + [e])
  {
  }

  /** The steps of SwallowedSteps, and what is on the wire after them. */
  lemma ResetSwallowed(t: Task, front: seq<Entry>, wire: seq<byte>) returns (log: seq<Entry>)
    requires t == LongLine() && OnWire(front, wire) && AllTaken(front)
    requires var m := Replay(t, front); m.phase == Phase.Sending && m.load == t.data && m.chunks == 0
    ensures Replay(t, log).phase == Finished && Replay(t, log).res.outcome == Canceled
    ensures OnWire(log, wire + LongFront() + CmdReset()) && AllTaken(log)
  {
    var m := Replay(t, front);
    var look, job := Entry(m.now, Looked(false)), Entry(m.now, Wrote(LongFront(), true));
    var seen, reset := Entry(m.now, Looked(true)), Entry(m.now, Wrote(CmdReset(), true));
    SwallowedSteps(t, m);
    hide Step, Replay, CmdReset, OnWire, LongLine, LongFront, AllTaken;
    var now;
    AllTakenMore(front, look);
    WireStays(front, look, wire);
    log, now := SendVerdicts.Next(t, front, look);
    AllTakenMore(log, job);
    WireTakes(log, job, wire);
    log, now := SendVerdicts.Next(t, log, job);
    AllTakenMore(log, seen);
    WireStays(log, seen, wire + LongFront());
    log, now := SendVerdicts.Next(t, log, seen);
    AllTakenMore(log, seen);
    WireStays(log, seen, wire + LongFront());
    log, now := SendVerdicts.Next(t, log, seen);
    AllTakenMore(log, reset);
    WireTakes(log, reset, wire + LongFront());
    log, now := SendVerdicts.Next(t, log, reset);
  }

  lemma WireTakes(front: seq<Entry>, e: Entry, wire: seq<byte>)
    requires OnWire(front, wire) && e.act.Wrote?
    ensures OnWire(front + [e], wire + e.act.bytes)
  {
    WireGrows(front, e, wire, |e.act.bytes|);
    assert e.act.bytes[..|e.act.bytes|] == e.act.bytes;
  }

  /**
   Nor does it help that everything is taken: this run of a job with a compressed line ends as
   canceled with v and all of the reset on the wire, v stops outside an opcode, and the printer
   still holds a line.
   */
  lemma {:induction false} HeldThroughReset() returns (t: Task, log: seq<Entry>, v: seq<byte>)
    ensures Parse(t.data) == Accepted(t.job) && Replay(t, log).phase == Finished
    ensures Replay(t, log).res.outcome == Canceled && AllTaken(log) && OnWire(log, v + CmdReset())
    ensures !InsideOpcode(Lex(v).rest) && Draw(Lex(v + CmdReset()).cmds).open != EMPTY_PAGE
  {
    t := LongLine();
    var m;
    LongLineParses();
    LongIs();
    assert t.cfg.busyRetries > 0;
    hide Replay, OnWire, Parse, Draw, Lex, OnTheWire, LongLine, LongFront, AllTaken, InsideOpcode, CmdReset;
    log := SendAnswers.BusyAnswer(t);
    log, m := SendAnswers.ThenSilence(t, log);
    WireOfSending(t, log);
    log := ResetSwallowed(t, log, OnTheWire(m.asks, []));
    v := OnTheWire(m.asks, LongFront());
    MoreOnTheWire(m.asks, LongFront());
    LongFrontIsHeld(m.asks);
  }

  lemma MoreOnTheWire(asks: nat, q: seq<byte>)
    ensures OnTheWire(asks, []) + q == OnTheWire(asks, q)
  {
    hide Joined;
  }
}
