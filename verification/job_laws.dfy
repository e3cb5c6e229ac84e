/** What ParseJob's verdict means, and how it behaves when streams are put together. */
module JobLaws {
  import opened Bytes
  import opened Sequences
  import opened CommandStream
  import opened JobParser

  /** A stream the backend can follow to the end: known commands, at least one of them a print. */
  ghost predicate IsJob(cmds: seq<Command>) {
    All(cmds, Known) && exists i :: 0 <= i < |cmds| && cmds[i].Print?
  }

  lemma {:induction false} ParseRendered(cmds: seq<Command>)
    requires All(cmds, Known)
    ensures Lex(RenderAll(cmds)) == Lexed(cmds, [])
    ensures Parse(RenderAll(cmds)) ==
      if Summarize(cmds).pages == 0 then Rejected(NoPrint) else Accepted(Summarize(cmds))
  {
    LexRendered(cmds);
    WalksAllIff(RenderAll(cmds), Known);
  }

  /** Accepted streams are exactly the renderings of command sequences that print something. */
  lemma {:induction false} AcceptedIffJob(data: seq<byte>)
    ensures Parse(data).Accepted? <==> exists cmds :: RenderAll(cmds) == data && IsJob(cmds)
  {
    if Parse(data).Accepted? {
      AcceptedMeans(data);
      SummaryCounts(Lex(data).cmds);
      assert IsJob(Lex(data).cmds);
    }
    forall cmds | RenderAll(cmds) == data && IsJob(cmds)
      ensures Parse(data).Accepted?
    {
      ParseRendered(cmds);
      SummaryCounts(cmds);
    }
  }

  /** The stream is refused as ending inside a command at `at` exactly when it does. */
  lemma {:induction false} EndsInsideIff(data: seq<byte>, at: nat)
    ensures Parse(data) == Rejected(EndsInside(at)) <==>
      at < |data| && Lex(data[..at]).rest == [] && All(Lex(data[..at]).cmds, Known) &&
      exists c: Command :: data[at..] < Render(c)
  {
    if Parse(data) == Rejected(EndsInside(at)) {
      CutAfterKnown(data, at);
    }
    if at < |data| && Lex(data[..at]).rest == [] && All(Lex(data[..at]).cmds, Known) &&
       exists c: Command :: data[at..] < Render(c) {
      KnownBeforeCut(data, at);
    }
  }

  lemma KnownBeforeCut(data: seq<byte>, at: nat)
    requires at < |data| && Lex(data[..at]).rest == [] && All(Lex(data[..at]).cmds, Known)
    requires exists c: Command :: data[at..] < Render(c)
    ensures Parse(data) == Rejected(EndsInside(at))
  {
    hide Lex, Render, RenderAll;
    CutMeansInsideCommand(data[at..]);
    TakeDrop(data, at);
    LexAppend(data[..at], data[at..]);
    LexSound(data[..at]);
    var done := Lex(data[..at]).cmds;
    EmptyEnds(RenderAll(done));
    WalkStops(data, at, done, Known);
  }

  lemma CutAfterKnown(data: seq<byte>, at: nat)
    requires Parse(data) == Rejected(EndsInside(at))
    ensures at < |data| && Lex(data[..at]).rest == [] && All(Lex(data[..at]).cmds, Known)
    ensures exists c: Command :: data[at..] < Render(c)
  {
    var k := CountWhile(Lex(data).cmds, Known);
    StopHere(data, k);
    LexRendered(Lex(data).cmds[..k]);
    CutMeansInsideCommand(data[at..]);
  }

  predicate IsPrint(c: Command) {
    c.Print?
  }

  function PrintCount(cmds: seq<Command>): nat {
    if cmds == [] then 0 else PrintCount(cmds[..|cmds| - 1]) + if IsPrint(cmds[|cmds| - 1]) then 1 else 0
  }

  /** The command switches the printer to two colours, by bit 0 of ESC i K, or is a line of a two-colour job. */
  predicate IsTwoColor(c: Command) {
    c.ColorLine? || (c.Setting? && c.op == 0x4B && c.args[0] % 2 == 1)
  }

  /** The command names a roll, with the kind and the width marked valid by bits 1 and 2 of its flags. */
  predicate NamesRoll(c: Command) {
    c.Setting? && c.op == 0x7A && c.args[0] / 2 % 2 == 1 && c.args[0] / 4 % 2 == 1
  }

  lemma MarksAreBits(c: Command)
    requires c.Setting? && c.args != []
    ensures HasBit(c.args[0], 0) <==> c.args[0] % 2 == 1
    ensures TrustsMedia(c.args[0]) <==> c.args[0] / 2 % 2 == 1 && c.args[0] / 4 % 2 == 1
  {
    ByteBits(c.args[0]);
  }

  /** The job holds the number of print commands, the roll first named, and whether two colours occur. */
  lemma {:induction false} SummaryCounts(cmds: seq<Command>)
    ensures Summarize(cmds).pages == PrintCount(cmds)
    ensures PrintCount(cmds) > 0 <==> exists i :: 0 <= i < |cmds| && cmds[i].Print?
    ensures Summarize(cmds).twoColor <==> exists i :: 0 <= i < |cmds| && IsTwoColor(cmds[i])
    ensures Summarize(cmds).media.known <==> exists i :: 0 <= i < |cmds| && NamesRoll(cmds[i])
    ensures !Summarize(cmds).media.known ==> Summarize(cmds).media == Media(false, 0, 0)
    ensures forall i | 0 <= i < |cmds| && NamesRoll(cmds[i]) && (forall j | 0 <= j < i :: !NamesRoll(cmds[j])) ::
      Summarize(cmds).media == Media(true, cmds[i].args[1], cmds[i].args[2])
    decreases |cmds|
  {
    if cmds != [] {
      var n := |cmds| - 1;
      var front := cmds[..n];
      SummaryCounts(front);
      assert forall i | 0 <= i < n :: cmds[i] == front[i];
      if cmds[n].Setting? && cmds[n].args != [] {
        MarksAreBits(cmds[n]);
      }
      hide HasBit, TrustsMedia;
    }
  }

  function Merge(a: Job, b: Job): Job {
    Job(a.pages + b.pages, if a.media.known then a.media else b.media, a.twoColor || b.twoColor)
  }

  lemma MergeWithPage(front: Job, lines: Job, page: Job)
    requires lines == NO_JOB && page == Job(1, UNKNOWN_MEDIA, false)
    requires front.pages == 0 && !front.twoColor && (front.media.known || front.media == UNKNOWN_MEDIA)
    ensures Merge(Merge(front, lines), page) == Job(1, front.media, false)
  {
  }

  lemma {:induction false} SummarizeAppend(xs: seq<Command>, ys: seq<Command>)
    ensures Summarize(xs + ys) == Merge(Summarize(xs), Summarize(ys))
    decreases |ys|
  {
    if ys == [] {
      assert xs + ys == xs;
      SummaryCounts(xs);
    } else {
      var n := |ys| - 1;
      assert (xs + ys)[..|xs + ys| - 1] == xs + ys[..n];
      SummarizeAppend(xs, ys[..n]);
    }
  }

  lemma {:induction false} AcceptedMeans(data: seq<byte>)
    requires Parse(data).Accepted?
    ensures Lex(data).rest == [] && All(Lex(data).cmds, Known)
    ensures RenderAll(Lex(data).cmds) == data
    ensures Parse(data).job == Summarize(Lex(data).cmds) && Parse(data).job.pages > 0
  {
    WalksAllIff(data, Known);
  }

  /** ParseJob is a homomorphism: accepted streams end to end are one accepted job. */
  lemma {:induction false} ParseAppend(a: seq<byte>, b: seq<byte>)
    requires Parse(a).Accepted? && Parse(b).Accepted?
    ensures Parse(a + b) == Accepted(Merge(Parse(a).job, Parse(b).job))
  {
    AcceptedMeans(a);
    AcceptedMeans(b);
    var x, y := Lex(a).cmds, Lex(b).cmds;
    RenderAppend(x, y);
    ParseRendered(x + y);
    SummarizeAppend(x, y);
  }

  const MAX_JOB_BYTES := 64 * 1024 * 1024

  datatype Prepared = Ready(job: Job, data: seq<byte>) | TooLong | NotRaster(error: ParseError)

  /**
   The part of the backend's run that turns the bytes CUPS hands over into a job. With a
   file argument the copies are left to the backend, which sends the stream that often.
   */
  method PrepareJob(data: seq<byte>, fileGiven: bool, copies: int) returns (r: Prepared)
    ensures r.TooLong? <==> |data| > 67_108_864
    ensures r.NotRaster? <==> |data| <= 67_108_864 && Parse(data).Rejected?
    ensures r.NotRaster? ==> Parse(data) == Rejected(r.error)
    ensures r.Ready? ==> Parse(r.data) == Accepted(r.job)
    ensures r.Ready? ==> r.data == Repeat(data, if fileGiven && copies > 1 then copies else 1)
    ensures r.Ready? ==> r.job.pages == Parse(data).job.pages * if fileGiven && copies > 1 then copies else 1
  {
    hide Parse, Repeat;
    if |data| > MAX_JOB_BYTES {
      return TooLong;
    }
    var parsed := ParseJob(data);
    if parsed.Rejected? {
      return NotRaster(parsed.error);
    }
    var job, all := parsed.job, data;
    RepeatOnce(data);
    if fileGiven && copies > 1 {
      ghost var merged := job;
      for i := 1 to copies
        invariant all == Repeat(data, i)
        invariant Parse(all) == Accepted(merged) && merged == job.(pages := job.pages * i)
      {
        ParseAppend(all, data);
        RepeatMore(data, i);
        merged := Merge(merged, job);
        assert job.pages * i + job.pages == job.pages * (i + 1);
        all := all + data;
      }
      job := job.(pages := job.pages * copies);
    }
    return Ready(job, all);
  }

  /** The stream n times over. */
  function Repeat(data: seq<byte>, n: nat): seq<byte> {
    if n == 0 then [] else Repeat(data, n - 1) + data
  }

  lemma RepeatOnce(data: seq<byte>)
    ensures Repeat(data, 1) == data
  {
    assert Repeat(data, 0) == [];
  }

  lemma RepeatMore(data: seq<byte>, n: nat)
    ensures Repeat(data, n + 1) == Repeat(data, n) + data
  {
  }

  /** The same command, up to what is drawn by a raster line. */
  predicate SameShape(c: Command, d: Command) {
    || c == d
    || (c.RasterLine? && d.RasterLine? && |c.row| == |d.row|)
    || (c.ColorLine? && d.ColorLine? && |c.row| == |d.row|)
    || (c.CompressedLine? && d.CompressedLine? && |c.packed| == |d.packed|)
  }

  lemma {:induction false} SummarizeSameShape(cs: seq<Command>, ds: seq<Command>)
    requires |cs| == |ds| && forall i | 0 <= i < |cs| :: SameShape(cs[i], ds[i])
    ensures Summarize(cs) == Summarize(ds)
    decreases |cs|
  {
    if cs != [] {
      var n := |cs| - 1;
      assert SameShape(cs[n], ds[n]);
      assert forall i | 0 <= i < n :: SameShape(cs[..n][i], ds[..n][i]);
      SummarizeSameShape(cs[..n], ds[..n]);
    }
  }

  /** Whatever bytes the raster lines hold, commands among them included, the verdict is the same. */
  lemma {:induction false} PayloadIsIgnored(cs: seq<Command>, ds: seq<Command>)
    requires All(cs, Known)
    requires |cs| == |ds| && forall i | 0 <= i < |cs| :: SameShape(cs[i], ds[i])
    ensures Parse(RenderAll(cs)) == Parse(RenderAll(ds))
  {
    assert All(ds, Known) by {
      forall i | 0 <= i < |ds| ensures Known(ds[i]) {
        assert SameShape(cs[i], ds[i]);
      }
    }
    SummarizeSameShape(cs, ds);
    ParseRendered(cs);
    ParseRendered(ds);
  }

  lemma {:induction false} PrintCountAppend(xs: seq<Command>, ys: seq<Command>)
    ensures PrintCount(xs + ys) == PrintCount(xs) + PrintCount(ys)
  {
    SummarizeAppend(xs, ys);
    SummaryCounts(xs);
    SummaryCounts(ys);
    SummaryCounts(xs + ys);
  }

  /** No proper prefix of a stream that ends with its print command passes for the whole job. */
  lemma {:induction false} ProperPrefixFallsShort(cmds: seq<Command>, p: seq<byte>)
    requires IsJob(cmds) && cmds[|cmds| - 1].Print? && p < RenderAll(cmds)
    ensures Parse(p).Rejected? || Parse(p).job.pages < Summarize(cmds).pages
  {
    if Parse(p).Accepted? {
      var front := AcceptedPrefix(cmds, p);
      FewerPrints(front, cmds);
      SummaryCounts(cmds);
      SummaryCounts(front);
    }
  }

  lemma AcceptedPrefix(cmds: seq<Command>, p: seq<byte>) returns (front: seq<Command>)
    requires p < RenderAll(cmds) && Parse(p).Accepted?
    ensures front < cmds && Parse(p).job == Summarize(front)
  {
    front := Lex(p).cmds;
    AcceptedMeans(p);
    LexPrefix(cmds, p);
    assert front != cmds;
  }

  lemma FewerPrints(front: seq<Command>, cmds: seq<Command>)
    requires front < cmds && cmds[|cmds| - 1].Print?
    ensures PrintCount(front) < PrintCount(cmds)
  {
    var n := |cmds| - 1;
    var between := cmds[|front|..n];
    assert cmds[..n] == front + between;
    PrintCountAppend(front, between);
  }
}
