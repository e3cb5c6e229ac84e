/**
 ParseJob: what the backend learns from a raster stream before sending it, namely how
 many labels to expect, which roll the job needs and whether it is already two-colour.
 */
module JobParser {
  import opened Bytes
  import opened CommandStream

  /** Kind and width of a roll, as an ESC i z names them; nothing is known of it otherwise. */
  datatype Media = Media(known: bool, kind: byte, widthMM: byte)

  const UNKNOWN_MEDIA := Media(false, 0, 0)

  datatype Job = Job(pages: nat, media: Media, twoColor: bool)

  const NO_JOB := Job(0, UNKNOWN_MEDIA, false)

  datatype ParseError =
    | EndsInside(at: nat)
    | BadEscape(at: nat, b: byte)
    | BadSetting(at: nat, b: byte)
    | BadByte(at: nat, b: byte)
    | NoPrint

  datatype Parsed = Accepted(job: Job) | Rejected(error: ParseError)

  /** The valid-field bits of ESC i z: the roll's kind and width must both be marked valid. */
  predicate TrustsMedia(flags: byte) {
    HasBit(flags, 1) && HasBit(flags, 2)
  }

  /** What one command adds to the job. */
  function Observe(job: Job, c: Command): Job {
    match c
    case Print(_) => job.(pages := job.pages + 1)
    case ColorLine(_, _) => job.(twoColor := true)
    case Setting(op, args) =>
      if op == 0x4B && HasBit(args[0], 0) then job.(twoColor := true)
      else if op == 0x7A && !job.media.known && TrustsMedia(args[0]) then
        job.(media := Media(true, args[1], args[2]))
      else job
    case _ => job
  }

  function Summarize(cmds: seq<Command>): (job: Job) {
    if cmds == [] then NO_JOB
    else Observe(Summarize(cmds[..|cmds| - 1]), cmds[|cmds| - 1])
  }

  predicate Known(c: Command) {
    !c.Other?
  }

  /** Why the walk cannot go on at offset `at`, where `rest` is what is left. */
  function Obstacle(rest: seq<byte>, at: nat): ParseError
    requires rest != [] && (First(rest).Found? ==> !Known(First(rest).c))
  {
    match First(rest)
    case Cut => EndsInside(at)
    case UnknownEscape => BadEscape(at, rest[1])
    case UnknownSetting => BadSetting(at, rest[2])
    case Found(c) => BadByte(at, c.b)
  }

  /** The meaning of ParseJob in terms of the commands of the stream. */
  function Parse(data: seq<byte>): (p: Parsed) {
    var at := StopAt(data, Known);
    if at < |data| then Rejected(Obstacle(data[at..], at))
    else
      var job := Summarize(Lex(data).cmds);
      if job.pages == 0 then Rejected(NoPrint) else Accepted(job)
  }

  /** What the walk does at offset i: the job it goes on with and the size, or why it stops. */
  datatype Stride = Stride(job: Job, size: nat) | Stop(error: ParseError)

  function StrideAt(job: Job, rest: seq<byte>, at: nat): Stride
    requires rest != []
  {
    if First(rest).Found? && Known(First(rest).c) then
      Stride(Observe(job, First(rest).c), |Render(First(rest).c)|)
    else Stop(Obstacle(rest, at))
  }

  /** The 0x1B case of the walk. */
  method WalkEscape(data: seq<byte>, i: nat, job: Job) returns (r: Stride)
    requires i < |data| && data[i] == 0x1B
    ensures r == StrideAt(job, data[i..], i)
  {
    if i + 2 > |data| {
      return Stop(EndsInside(i));
    }
    if data[i + 1] == 0x40 {
      return Stride(job, 2);
    }
    if data[i + 1] != 0x69 {
      return Stop(BadEscape(i, data[i + 1]));
    }
    if i + 3 > |data| {
      return Stop(EndsInside(i));
    }
    var op := data[i + 2];
    var size: nat;
    if op == 0x53 {
      size := 3;
    } else if op == 0x61 || op == 0x4D || op == 0x41 || op == 0x4B {
      size := 4;
    } else if op == 0x64 {
      size := 5;
    } else if op == 0x7A {
      size := 13;
    } else {
      return Stop(BadSetting(i, op));
    }
    if i + size > |data| {
      return Stop(EndsInside(i));
    }
    var seen := job;
    if op == 0x4B && HasBit(data[i + 3], 0) {
      seen := seen.(twoColor := true);
    }
    if op == 0x7A && !seen.media.known {
      var flags := data[i + 3];
      if TrustsMedia(flags) {
        seen := seen.(media := Media(true, data[i + 4], data[i + 5]));
      }
    }
    return Stride(seen, size);
  }

  /** The line cases of the walk: 'g', 'w' and 'G'. */
  method WalkLine(data: seq<byte>, i: nat, job: Job) returns (r: Stride)
    requires i < |data| && data[i] in {0x67, 0x77, 0x47}
    ensures r == StrideAt(job, data[i..], i)
  {
    if i + 3 > |data| {
      return Stop(EndsInside(i));
    }
    var n1: int, n2: int := data[i + 1], data[i + 2];
    var n := if data[i] == 0x47 then n1 + 256 * n2 else n2;
    if i + 3 + n > |data| {
      return Stop(EndsInside(i));
    }
    var seen := job;
    if data[i] == 0x77 {
      seen := seen.(twoColor := true);
    }
    return Stride(seen, 3 + n);
  }

  /** One turn of the walk: the switch on the byte at offset i. */
  method Walk(data: seq<byte>, i: nat, job: Job) returns (r: Stride)
    requires i < |data|
    ensures r == StrideAt(job, data[i..], i)
  {
    var c := data[i];
    if c == 0x00 || c == 0x5A {
      return Stride(job, 1);
    } else if c == 0x0C || c == 0x1A {
      return Stride(job.(pages := job.pages + 1), 1);
    } else if c == 0x4D {
      return if i + 2 > |data| then Stop(EndsInside(i)) else Stride(job, 2);
    } else if c == 0x67 || c == 0x77 || c == 0x47 {
      r := WalkLine(data, i, job);
    } else if c == 0x1B {
      r := WalkEscape(data, i, job);
    } else {
      return Stop(BadByte(i, c));
    }
  }

  /** Walks the stream command by command, so that raster data is never taken for commands. */
  method ParseJob(data: seq<byte>) returns (r: Parsed)
    ensures r == Parse(data)
  {
    hide First, Lex, Render, RenderAll;
    var job := NO_JOB;
    var i := 0;
    ghost var done: seq<Command> := [];
    WalkStarts(data);
    while i < |data|
      invariant Walked(data, i, done) && All(done, Known)
      invariant job == Summarize(done)
    {
      var stride := Walk(data, i, job);
      if stride.Stop? {
        WalkStops(data, i, done, Known);
        return Rejected(stride.error);
      }
      WalkOne(data, i, done);
      done := done + [First(data[i..]).c];
      job, i := stride.job, i + stride.size;
    }
    WalkEnds(data, done, Known);
    if job.pages == 0 {
      return Rejected(NoPrint);
    }
    return Accepted(job);
  }
}
