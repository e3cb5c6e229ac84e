/** readFrames: finding status frames in whatever pieces the printer's bytes arrive. */
module Frames {
  import opened Bytes
  import opened Sequences
  import opened PrinterStatus

  /** 0x80 0x20 stands at i. */
  predicate MarkAt(s: seq<byte>, i: nat) {
    i + 1 < |s| && s[i] == 0x80 && s[i + 1] == 0x20
  }

  /** The first place where 0x80 0x20 stands, or -1. */
  function FindMark(s: seq<byte>): (i: int)
    ensures -1 <= i && (i >= 0 ==> MarkAt(s, i))
    ensures forall j: nat | MarkAt(s, j) :: 0 <= i <= j
  {
    if |s| < 2 then -1
    else if MarkAt(s, 0) then 0
    else
      var i := FindMark(s[1..]);
      assert forall j: nat | MarkAt(s, j) :: j >= 1 && MarkAt(s[1..], j - 1);
      if i < 0 then -1 else i + 1
  }

  datatype Scanned = Scanned(frames: seq<Status>, left: seq<byte>)

  /** A one-shot scan of a whole stream from the left, and what of it is worth keeping. */
  function Scan(s: seq<byte>): (r: Scanned)
    ensures |r.left| < STATUS_SIZE
    decreases |s|
  {
    var i := FindMark(s);
    if i < 0 then Scanned([], if s != [] && s[|s| - 1] == 0x80 then [0x80] else [])
    else if |s| - i < STATUS_SIZE then Scanned([], s[i..])
    else
      var rest := Scan(s[i + STATUS_SIZE..]);
      Scanned([ParseStatus(s[i..i + STATUS_SIZE])] + rest.frames, rest.left)
  }

  lemma ScanFound(s: seq<byte>, i: nat)
    requires FindMark(s) == i && i + STATUS_SIZE <= |s|
    ensures var rest := Scan(s[i + STATUS_SIZE..]);
      Scan(s) == Scanned([ParseStatus(s[i..i + STATUS_SIZE])] + rest.frames, rest.left)
  {
  }

  /** A mark found in the front of a stream is found at the same place in the whole. */
  lemma FindMarkInFront(a: seq<byte>, b: seq<byte>)
    requires FindMark(a) >= 0
    ensures FindMark(a + b) == FindMark(a)
  {
    var i := FindMark(a);
    assert MarkAt(a + b, i);
    forall j: nat | MarkAt(a + b, j)
      ensures i <= j
    {
      if j < i {
        assert MarkAt(a, j);
      }
    }
  }

  lemma FindMarkAfterDrop(s: seq<byte>, k: nat)
    requires k <= |s| && forall j: nat | j < k :: !MarkAt(s, j)
    ensures FindMark(s[k..]) == if FindMark(s) < 0 then -1 else FindMark(s) - k
  {
    var i, i' := FindMark(s), FindMark(s[k..]);
    if i >= 0 {
      assert MarkAt(s[k..], i - k);
    }
    if i' >= 0 {
      assert MarkAt(s, i' + k);
    }
  }

  /** Bytes before which no frame starts can be dropped, unless the last of all is a 0x80. */
  lemma ScanAfterDrop(s: seq<byte>, k: nat)
    requires k <= |s| && forall j: nat | j < k :: !MarkAt(s, j)
    requires k == |s| > 0 ==> s[|s| - 1] != 0x80
    ensures Scan(s[k..]) == Scan(s)
  {
    hide FindMark, ParseStatus;
    FindMarkAfterDrop(s, k);
    var i := FindMark(s);
    if i >= 0 && |s| - i >= STATUS_SIZE {
      ScanFrameAfterDrop(s, k, i);
    } else if i >= 0 {
      DropTwice(s, k, i);
    } else if k < |s| {
      assert s[k..][|s[k..]| - 1] == s[|s| - 1];
    }
  }

  lemma ScanFrameAfterDrop(s: seq<byte>, k: nat, i: nat)
    requires k <= i && i + STATUS_SIZE <= |s| && FindMark(s) == i && FindMark(s[k..]) == i - k
    ensures Scan(s[k..]) == Scan(s)
  {
    hide Scan, FindMark, ParseStatus;
    ScanFound(s, i);
    ScanFound(s[k..], i - k);
    SliceAfterDrop(s, k, i, i + STATUS_SIZE);
    DropTwice(s, k, i + STATUS_SIZE);
  }

  /** Scanning what was kept together with what comes next finds what one scan of all finds. */
  lemma {:induction false} ScanAppend(a: seq<byte>, b: seq<byte>)
    ensures var first := Scan(a); var next := Scan(first.left + b);
      Scan(a + b) == Scanned(first.frames + next.frames, next.left)
    decreases |a|
  {
    hide ParseStatus, FindMark;
    var i := FindMark(a);
    if i < 0 {
      ScanJunk(a, b);
    } else {
      FindMarkInFront(a, b);
      if |a| - i < STATUS_SIZE {
        assert (a + b)[i..] == a[i..] + b;
        ScanAfterDrop(a + b, i);
      } else {
        hide Scan;
        ScanFrame(a, b, i);
        ScanFound(a, i);
        var tail := a[i + STATUS_SIZE..];
        ScanAppend(tail, b);
        Regroup([ParseStatus(a[i..i + STATUS_SIZE])], Scan(tail).frames, Scan(Scan(tail).left + b).frames);
      }
    }
  }

  lemma ScanFrame(a: seq<byte>, b: seq<byte>, i: nat)
    requires i == FindMark(a) == FindMark(a + b) && i + STATUS_SIZE <= |a|
    ensures var rest := Scan(a[i + STATUS_SIZE..] + b);
      Scan(a + b) == Scanned([ParseStatus(a[i..i + STATUS_SIZE])] + rest.frames, rest.left)
  {
    hide FindMark;
    assert (a + b)[i..i + STATUS_SIZE] == a[i..i + STATUS_SIZE];
    assert (a + b)[i + STATUS_SIZE..] == a[i + STATUS_SIZE..] + b;
    ScanFound(a + b, i);
  }

  lemma ScanJunk(a: seq<byte>, b: seq<byte>)
    requires FindMark(a) < 0
    ensures Scan(a + b) == Scan(Scan(a).left + b)
  {
    var k := |a| - |Scan(a).left|;
    assert (a + b)[k..] == Scan(a).left + b;
    forall j: nat | j < k
      ensures !MarkAt(a + b, j)
    {
      assert !MarkAt(a, j);
    }
    if k < |a + b| || a == [] || a[|a| - 1] != 0x80 {
      ScanAfterDrop(a + b, k);
    }
  }

  // ----- The reader -----

  datatype ReadError = NoError | NothingYet | Failed

  /** One read: the bytes it brought and the error it came with; NothingYet is io.EOF or EAGAIN. */
  datatype Read = Read(bytes: seq<byte>, err: ReadError)

  /** The read ends the loop. */
  predicate Ends(r: Read) {
    r.err == Failed || (r.err == NothingYet && r.bytes != [])
  }

  /** What arrives, up to the read that ends the loop. */
  function Received(arrivals: seq<Read>): seq<byte> {
    if arrivals == [] then []
    else
      var front, last := arrivals[..|arrivals| - 1], arrivals[|arrivals| - 1];
      if Closed(front) then Received(front) else Received(front) + last.bytes
  }

  predicate Closed(arrivals: seq<Read>) {
    exists i :: 0 <= i < |arrivals| && Ends(arrivals[i])
  }

  /** The inner loop: take every whole frame out of the buffer and keep the start of the next. */
  method TakeFrames(buffer: seq<byte>) returns (out: seq<Status>, buf: seq<byte>)
    ensures Scanned(out, buf) == Scan(buffer)
  {
    out, buf := [], buffer;
    while true
      invariant Scan(buffer) == Scanned(out + Scan(buf).frames, Scan(buf).left)
      decreases |buf|
    {
      var start := FindMark(buf);
      if start < 0 {
        if |buf| > 0 && buf[|buf| - 1] == 0x80 {
          buf := [0x80];
        } else {
          buf := [];
        }
        return;
      }
      if |buf| - start < STATUS_SIZE {
        buf := buf[start..];
        return;
      }
      out := out + [ParseStatus(buf[start..start + STATUS_SIZE])];
      buf := buf[start + STATUS_SIZE..];
    }
  }

  /** One more read: nothing before it has ended the loop. */
  lemma ReceivedMore(arrivals: seq<Read>, k: nat)
    requires k < |arrivals| && !Closed(arrivals[..k])
    ensures Received(arrivals[..k + 1]) == Received(arrivals[..k]) + arrivals[k].bytes
    ensures Closed(arrivals[..k + 1]) <==> Ends(arrivals[k])
  {
    hide Ends;
    var now := arrivals[..k + 1];
    assert now[..k] == arrivals[..k] && now[k] == arrivals[k];
    assert forall i | 0 <= i < k :: now[i] == arrivals[..k][i];
  }

  lemma NothingReceived()
    ensures Received([]) == [] && !Closed([]) && Scan([]) == Scanned([], [])
  {
  }

  /**
   Whatever the printer sends, however it is cut into reads and however many of them bring
   nothing, the frames passed on are those a single scan of all the bytes finds.
   */
  method ReadFrames(arrivals: seq<Read>) returns (out: seq<Status>, buf: seq<byte>, closed: bool)
    ensures out == Scan(Received(arrivals)).frames
    ensures buf == Scan(Received(arrivals)).left && |buf| < STATUS_SIZE
    ensures closed <==> Closed(arrivals)
  {
    hide Received, Closed, Scan;
    out, buf, closed := [], [], false;
    NothingReceived();
    for k := 0 to |arrivals|
      invariant out == Scan(Received(arrivals[..k])).frames && buf == Scan(Received(arrivals[..k])).left
      invariant !closed && !Closed(arrivals[..k])
    {
      var read := arrivals[k];
      ReceivedMore(arrivals, k);
      EmptyEnds(Received(arrivals[..k]));
      if |read.bytes| == 0 && read.err == NothingYet {
        continue;
      }
      if |read.bytes| > 0 {
        ScanAppend(Received(arrivals[..k]), read.bytes);
        var found;
        found, buf := TakeFrames(buf + read.bytes);
        out := out + found;
      }
      if read.err != NoError {
        closed := true;
        ReceivedAfterEnd(arrivals, k + 1);
        return;
      }
    }
    assert arrivals[..|arrivals|] == arrivals;
  }

  lemma {:induction false} ReceivedAfterEnd(arrivals: seq<Read>, k: nat)
    requires k <= |arrivals| && Closed(arrivals[..k])
    ensures Received(arrivals) == Received(arrivals[..k]) && Closed(arrivals)
    decreases |arrivals|
  {
    var i :| 0 <= i < k && Ends(arrivals[..k][i]);
    assert Ends(arrivals[i]);
    if k < |arrivals| {
      var front := arrivals[..|arrivals| - 1];
      assert front[..k] == arrivals[..k];
      ReceivedAfterEnd(front, k);
    } else {
      assert arrivals[..k] == arrivals;
    }
  }

  // ----- Noise -----

  /** junk[0] frame[0] junk[1] frame[1] ... junk[n]. */
  function Weave(junk: seq<seq<byte>>, frames: seq<seq<byte>>): seq<byte>
    requires |junk| == |frames| + 1
  {
    if frames == [] then junk[0] else junk[0] + frames[0] + Weave(junk[1..], frames[1..])
  }

  predicate IsWholeFrame(f: seq<byte>) {
    IsFrame(f) && |f| == STATUS_SIZE
  }

  /** The frames, decoded. */
  function Decoded(frames: seq<seq<byte>>): seq<Status>
    requires forall i | 0 <= i < |frames| :: IsWholeFrame(frames[i])
  {
    seq(|frames|, i requires 0 <= i < |frames| && IsWholeFrame(frames[i]) => ParseStatus(frames[i]))
  }

  /** Frames between junk that holds no adjacent 0x80 0x20 are all recovered, in order. */
  lemma {:induction false} RecoversFromNoise(junk: seq<seq<byte>>, frames: seq<seq<byte>>)
    requires |junk| == |frames| + 1
    requires forall i | 0 <= i < |junk| :: FindMark(junk[i]) < 0
    requires forall i | 0 <= i < |frames| :: IsWholeFrame(frames[i])
    ensures Scan(Weave(junk, frames)).frames == Decoded(frames)
    decreases |frames|
  {
    if frames != [] {
      var rest := Weave(junk[1..], frames[1..]);
      ScanNoisyFrame(junk[0], frames[0], rest);
      RecoversFromNoise(junk[1..], frames[1..]);
      WeaveFront(junk[0], frames[0], junk[1..], frames[1..]);
      assert [frames[0]] + frames[1..] == frames;
    }
  }

  /**
   What is delivered of frames of 32 bytes that start with 0x80 0x20, between junk in which
   these two never stand side by side: as many statuses, each with its fields from bytes 8 to
   11, 17 to 19, 22 and 25 of its frame.
   */
  lemma {:induction false} DeliveredFields(junk: seq<seq<byte>>, frames: seq<seq<byte>>, i: nat)
    requires |junk| == |frames| + 1 && i < |frames|
    requires forall k, j | 0 <= k < |junk| && 0 <= j < |junk[k]| - 1 :: !(junk[k][j] == 0x80 && junk[k][j + 1] == 0x20)
    requires forall k | 0 <= k < |frames| :: |frames[k]| == 32 && frames[k][0] == 0x80 && frames[k][1] == 0x20
    ensures |Scan(Weave(junk, frames)).frames| == |frames|
    ensures var st, f := Scan(Weave(junk, frames)).frames[i], frames[i];
      && st.err1 == f[8] && st.err2 == f[9]
      && st.mediaWidth == f[10] && st.mediaType == f[11] && st.mediaLength == f[17]
      && st.kind == f[18] && st.phase == f[19] && st.notification == f[22] && st.textColor == f[25]
  {
    forall k | 0 <= k < |junk| ensures FindMark(junk[k]) < 0 {
      NoMark(junk[k]);
    }
    hide Scan, Weave, FindMark, MarkAt;
    RecoversFromNoise(junk, frames);
  }

  lemma NoMark(s: seq<byte>)
    requires forall j | 0 <= j < |s| - 1 :: !(s[j] == 0x80 && s[j + 1] == 0x20)
    ensures FindMark(s) < 0
  {
    assert forall j: nat :: !MarkAt(s, j);
  }

  lemma ScanNoisyFrame(junk: seq<byte>, frame: seq<byte>, rest: seq<byte>)
    requires FindMark(junk) < 0 && IsWholeFrame(frame)
    ensures Scan(junk + frame + rest) == Scanned([ParseStatus(frame)] + Scan(rest).frames, Scan(rest).left)
  {
    var s, k := junk + frame + rest, |junk|;
    assert MarkAt(s, k);
    forall j: nat | j < k
      ensures !MarkAt(s, j)
    {
      assert !MarkAt(junk, j);
    }
    assert FindMark(s) == k;
    hide FindMark;
    ScanFound(s, k);
    assert s[k..k + STATUS_SIZE] == frame;
    assert s[k + STATUS_SIZE..] == rest;
  }

  /** Every stream is frames between junk; those are the frames found, and none is found in the last junk. */
  lemma {:induction false} EveryStreamIsWoven(s: seq<byte>) returns (junk: seq<seq<byte>>, frames: seq<seq<byte>>)
    ensures |junk| == |frames| + 1 && s == Weave(junk, frames)
    ensures forall i | 0 <= i < |frames| :: FindMark(junk[i]) < 0
    ensures forall i | 0 <= i < |frames| :: IsWholeFrame(frames[i])
    ensures Scan(junk[|frames|]).frames == []
    ensures Scan(s).frames == Decoded(frames)
    decreases |s|
  {
    hide FindMark, ParseStatus;
    var i := FindMark(s);
    if i < 0 || |s| - i < STATUS_SIZE {
      junk, frames := [s], [];
    } else {
      hide Scan, Weave, Decoded;
      var frame, rest := s[i..i + STATUS_SIZE], s[i + STATUS_SIZE..];
      var junk', frames' := EveryStreamIsWoven(rest);
      ScanFound(s, i);
      NoMarkBefore(s, i);
      WeaveFront(s[..i], frame, junk', frames');
      AllFront(s[..i], junk', frame, frames');
      junk, frames := [s[..i]] + junk', [frame] + frames';
      assert s == s[..i] + frame + rest;
    }
  }

  lemma AllFront(j: seq<byte>, junk: seq<seq<byte>>, f: seq<byte>, frames: seq<seq<byte>>)
    requires |junk| == |frames| + 1
    requires FindMark(j) < 0 && forall i | 0 <= i < |frames| :: FindMark(junk[i]) < 0
    requires IsWholeFrame(f) && forall i | 0 <= i < |frames| :: IsWholeFrame(frames[i])
    ensures forall i | 0 <= i < |[f] + frames| :: FindMark(([j] + junk)[i]) < 0
    ensures forall i | 0 <= i < |[f] + frames| :: IsWholeFrame(([f] + frames)[i])
    ensures ([j] + junk)[|[f] + frames|] == junk[|frames|]
  {
  }

  lemma NoMarkBefore(s: seq<byte>, i: nat)
    requires FindMark(s) == i
    ensures FindMark(s[..i]) < 0
  {
    assert forall j: nat | MarkAt(s[..i], j) :: MarkAt(s, j);
  }

  lemma WeaveFront(j: seq<byte>, f: seq<byte>, junk: seq<seq<byte>>, frames: seq<seq<byte>>)
    requires |junk| == |frames| + 1 && IsWholeFrame(f)
    requires forall i | 0 <= i < |frames| :: IsWholeFrame(frames[i])
    ensures Weave([j] + junk, [f] + frames) == j + f + Weave(junk, frames)
    ensures Decoded([f] + frames) == [ParseStatus(f)] + Decoded(frames)
  {
    assert ([j] + junk)[1..] == junk && ([f] + frames)[1..] == frames;
  }
}
