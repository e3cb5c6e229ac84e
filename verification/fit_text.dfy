/**
 Shrinking text until it fits, without ever cutting it. Sizes are in quarter points, so
 that the half- and quarter-point steps are exact; frames are in dots at 300 dpi.
 */
module FitText {
  import opened Sequences
  import opened LineBreaking
  import opened WrapLaws

  // ----- Shrink to fit in a frame -----

  /** The smallest size the search goes on from: 4 pt. */
  const PROC_FONT_FLOOR := 16

  /** The height of a line at 1.1 times the size. */
  function LineHeight(size: int): int {
    if size <= 0 then 0 else 55 * size / 48
  }

  /** 1.1 times the size, a size being a quarter of a 72nd of an inch and a dot a 300th, in whole dots. */
  lemma {:induction false} LineHeightIs(size: int)
    ensures size <= 0 ==> LineHeight(size) == 0
    ensures size > 0 ==> 4 * 72 * 10 * LineHeight(size) <= 300 * 11 * size < 4 * 72 * 10 * (LineHeight(size) + 1)
  {
    if size > 0 {
      var n := LineHeight(size);
      assert 48 * n <= 55 * size < 48 * (n + 1);
    }
  }

  function WrapAll(face: Face, paragraphs: seq<string>, width: int): seq<string> {
    if paragraphs == [] then []
    else WrapAll(face, paragraphs[..|paragraphs| - 1], width) + Wrapped(face, paragraphs[|paragraphs| - 1], width)
  }

  /** The paragraphs, wrapped at this size, are no higher than the frame. */
  predicate FitsFrame(faces: int -> Face, paragraphs: seq<string>, w: int, h: int, size: int) {
    LineHeight(size) * |WrapAll(faces(size), paragraphs, w)| <= h
  }

  lemma FitsFrameIs(faces: int -> Face, paragraphs: seq<string>, w: int, h: int, size: int)
    ensures FitsFrame(faces, paragraphs, w, h, size) <==> LineHeight(size) * |WrapAll(faces(size), paragraphs, w)| <= h
  {
  }

  /** All sizes above `size`, up to `max`, are legible, and at none of them does the text fit. */
  ghost predicate NoneFits(faces: int -> Face, paragraphs: seq<string>, w: int, h: int, size: int, max: int) {
    forall s | size < s <= max :: s > 16 && !FitsFrame(faces, paragraphs, w, h, s)
  }

  lemma NoneFitsYet(faces: int -> Face, paragraphs: seq<string>, w: int, h: int, max: int)
    ensures NoneFits(faces, paragraphs, w, h, max, max)
  {
  }

  lemma NoneFitsMore(faces: int -> Face, paragraphs: seq<string>, w: int, h: int, size: int, max: int)
    requires NoneFits(faces, paragraphs, w, h, size, max)
    requires size > PROC_FONT_FLOOR && !FitsFrame(faces, paragraphs, w, h, size)
    ensures NoneFits(faces, paragraphs, w, h, size - 1, max)
  {
    hide FitsFrame;
  }

  method WrapParagraphs(face: Face, paragraphs: seq<string>, w: int) returns (lines: seq<string>)
    ensures lines == WrapAll(face, paragraphs, w)
  {
    hide Wrapped;
    lines := [];
    for i := 0 to |paragraphs|
      invariant lines == WrapAll(face, paragraphs[..i], w)
    {
      assert paragraphs[..i + 1][..i] == paragraphs[..i];
      var more := WrapJapanese(face, paragraphs[i], w);
      lines := lines + more;
    }
    assert paragraphs[..|paragraphs|] == paragraphs;
  }

  /**
   The largest size from `max` down, in quarter points, at which the text fits; below 4 pt it
   is taken as it comes.
   */
  method FitWrapped(faces: int -> Face, paragraphs: seq<string>, w: int, h: int, max: int)
    returns (size: int, lines: seq<string>)
    ensures lines == WrapAll(faces(size), paragraphs, w)
    ensures size <= max && (FitsFrame(faces, paragraphs, w, h, size) || size <= 16)
    ensures size == max || size >= 16
    ensures NoneFits(faces, paragraphs, w, h, size, max)
  {
    hide WrapAll, LineHeight, FitsFrame, NoneFits;
    size := max;
    NoneFitsYet(faces, paragraphs, w, h, max);
    while true
      invariant size <= max && (size == max || size >= PROC_FONT_FLOOR)
      invariant NoneFits(faces, paragraphs, w, h, size, max)
      decreases size - PROC_FONT_FLOOR
    {
      lines := WrapParagraphs(faces(size), paragraphs, w);
      FitsFrameIs(faces, paragraphs, w, h, size);
      if LineHeight(size) * |lines| <= h || size <= PROC_FONT_FLOOR {
        return;
      }
      NoneFitsMore(faces, paragraphs, w, h, size, max);
      size := size - 1;
    }
  }

  /** At whatever size, all of the text is there. */
  lemma {:induction false} WrapAllIsFaithful(face: Face, paragraphs: seq<string>, width: int)
    ensures NoSpaces(Flat(WrapAll(face, paragraphs, width))) == NoSpaces(Flat(paragraphs))
    decreases |paragraphs|
  {
    hide NoSpaces, Wrapped;
    if paragraphs != [] {
      var n := |paragraphs| - 1;
      var front, last := paragraphs[..n], paragraphs[n];
      WrapAllIsFaithful(face, front, width);
      WrappedIsFaithful(face, last, width);
      FlatAppend(WrapAll(face, front, width), Wrapped(face, last, width));
      NoSpacesAppend(Flat(WrapAll(face, front, width)), Flat(Wrapped(face, last, width)));
      NoSpacesAppend(Flat(front), last);
    }
  }

  // ----- One line a paragraph, or wrapped -----

  /** The smallest size at which text is kept unwrapped: 6.5 pt. */
  const PROC_NO_WRAP_MIN := 26

  /** The size taken where none is given: 8 pt. */
  const PROC_FONT_SIZE := 32

  /** At this size every paragraph fits on a line, and the lines are no higher than the frame. */
  predicate FitsUnwrapped(faces: int -> Face, paragraphs: seq<string>, w: int, h: int, size: int) {
    LineHeight(size) * |paragraphs| <= h && forall i | 0 <= i < |paragraphs| :: !Over(faces(size), paragraphs[i], w)
  }

  method FitUnwrapped(faces: int -> Face, paragraphs: seq<string>, w: int, h: int, max: int)
    returns (size: int, lines: seq<string>)
    ensures size > 0 ==>
      26 <= size <= max && FitsUnwrapped(faces, paragraphs, w, h, size) && lines == paragraphs
    ensures size <= 0 ==> size == 0 && lines == []
    ensures forall s | 26 <= s <= max && s > size :: !FitsUnwrapped(faces, paragraphs, w, h, s)
  {
    hide LineHeight, Over;
    size := max;
    while size >= PROC_NO_WRAP_MIN
      invariant size <= max
      invariant forall s | PROC_NO_WRAP_MIN <= s <= max && s > size :: !FitsUnwrapped(faces, paragraphs, w, h, s)
    {
      var fits := LineHeight(size) * |paragraphs| <= h;
      for i := 0 to |paragraphs|
        invariant fits <==> LineHeight(size) * |paragraphs| <= h
                            && forall j | 0 <= j < i :: !Over(faces(size), paragraphs[j], w)
      {
        if fits && Over(faces(size), paragraphs[i], w) {
          fits := false;
        }
      }
      if fits {
        return size, paragraphs;
      }
      size := size - 1;
    }
    return 0, [];
  }

  /** Text that fits stays on one line. */
  lemma {:induction false} FillsOneLine(face: Face, ts: seq<string>, width: int)
    requires !Over(face, Flat(ts), width)
    ensures FillAll(face, ts, width) == Fill([], Flat(ts))
    decreases |ts|
  {
    hide Over, Chop;
    if ts != [] {
      var n := |ts| - 1;
      var front := Flat(ts[..n]);
      assert Flat(ts) == front + ts[n];
      PartFits(face, Flat(ts), 0, |front|, width);
      assert Flat(ts)[0..|front|] == front;
      FillsOneLine(face, ts[..n], width);
    }
  }

  lemma {:induction false} FittingIsOneLine(face: Face, text: string, width: int)
    requires !Over(face, text, width)
    ensures |Wrapped(face, text, width)| == 1
  {
    hide Over, Tokens, TrimRight, FillAll;
    TokensJoin(text);
    FillsOneLine(face, Tokens(text), width);
  }

  lemma {:induction false} FittingStays(face: Face, paragraphs: seq<string>, w: int)
    requires forall i | 0 <= i < |paragraphs| :: !Over(face, paragraphs[i], w)
    ensures |WrapAll(face, paragraphs, w)| == |paragraphs|
    decreases |paragraphs|
  {
    hide Over, Wrapped;
    if paragraphs != [] {
      FittingStays(face, paragraphs[..|paragraphs| - 1], w);
      FittingIsOneLine(face, paragraphs[|paragraphs| - 1], w);
    }
  }

  /** What fits unwrapped at a size is not wrapped at a smaller one. */
  lemma {:induction false} WrappedIsNoSmaller(faces: int -> Face, paragraphs: seq<string>, w: int, h: int,
      unwrapped: int, size: int, max: int)
    requires FitsUnwrapped(faces, paragraphs, w, h, unwrapped) && unwrapped <= max
    requires NoneFits(faces, paragraphs, w, h, size, max)
    ensures unwrapped <= size
  {
    hide LineHeight, Over, WrapAll;
    FittingStays(faces(unwrapped), paragraphs, w);
    assert FitsFrame(faces, paragraphs, w, h, unwrapped);
  }

  function TrimLineEnd(s: string): string {
    if s != [] && s[|s| - 1] in " \t\r" then TrimLineEnd(s[..|s| - 1]) else s
  }

  function Paragraphs(text: string): seq<string> {
    var parts := Split(TrimSpace(text));
    seq(|parts|, i requires 0 <= i < |parts| => TrimLineEnd(parts[i]))
  }

  function Largest(maxPt: int): int {
    if maxPt <= 0 then PROC_FONT_SIZE else maxPt
  }

  /**
   The size and the lines of a text in its frame, if it is drawn. A caption stays unwrapped
   if it can; other text is wrapped, unless the frame is at most two lines high and wrapping
   gains less than 15 percent.
   */
  method FitInFrame(faces: int -> Face, text: string, w: int, h: int, caption: bool, maxPt: int)
    returns (drawn: bool, size: int, lines: seq<string>)
    ensures drawn <==> TrimSpace(text) != [] && w > 0 && h > 0
    ensures drawn ==> lines == Paragraphs(text) || lines == WrapAll(faces(size), Paragraphs(text), w)
    ensures drawn ==> LineHeight(size) * |lines| <= h || size <= 16
    ensures var max, ps := if maxPt <= 0 then 32 else maxPt, Paragraphs(text);
      drawn && caption ==>
        forall s | 26 <= s <= max && FitsUnwrapped(faces, ps, w, h, s) ::
          s <= size <= max && FitsUnwrapped(faces, ps, w, h, size) && lines == ps
    ensures var max, ps := if maxPt <= 0 then 32 else maxPt, Paragraphs(text);
      drawn && caption && (forall s | 26 <= s <= max :: !FitsUnwrapped(faces, ps, w, h, s)) ==>
        NoneFits(faces, ps, w, h, size, max) && lines == WrapAll(faces(size), ps, w)
    ensures drawn && !caption ==>
      var max, ps := if maxPt <= 0 then 32 else maxPt, Paragraphs(text);
      || NoneFits(faces, ps, w, h, size, max)
      || (&& h < 3 * LineHeight(max) && FitsUnwrapped(faces, ps, w, h, size) && lines == ps
          && forall s | 20 * size < 17 * s && s <= max :: s > 16 && !FitsFrame(faces, ps, w, h, s))
  {
    hide TrimSpace, LineHeight, FitsFrame, WrapAll, FitsUnwrapped, Paragraphs;
    if TrimSpace(text) == "" || w <= 0 || h <= 0 {
      return false, 0, [];
    }
    var max := Largest(maxPt);
    var paragraphs := Paragraphs(text);
    size, lines := FitUnwrapped(faces, paragraphs, w, h, max);
    if size > 0 {
      FitsUnwrappedIs(faces, paragraphs, w, h, size);
    }
    if !caption || size == 0 {
      var ws, wl := FitWrapped(faces, paragraphs, w, h, max);
      FitsFrameIs(faces, paragraphs, w, h, ws);
      if size > 0 {
        WrappedIsNoSmaller(faces, paragraphs, w, h, size, ws, max);
      }
      var short := h < 3 * LineHeight(max);
      var keep := size > 0 && short && 20 * size >= 17 * ws;
      if ws > size && !keep {
        size, lines := ws, wl;
      }
    }
    drawn := true;
  }

  lemma FitsUnwrappedIs(faces: int -> Face, paragraphs: seq<string>, w: int, h: int, size: int)
    requires FitsUnwrapped(faces, paragraphs, w, h, size)
    ensures LineHeight(size) * |paragraphs| <= h
  {
  }

  // ----- Tables: as many characters a line as are estimated to fit -----

  /** Unicode white space, as strings.TrimSpace takes it. */
  predicate IsSpace(c: char) {
    || c in "\t\n\r \U{b}\U{c}\U{85}\U{a0}\U{1680}\U{2028}\U{2029}\U{202f}\U{205f}\U{3000}"
    || '\U{2000}' <= c <= '\U{200a}'
  }

  function TrimSpaceRight(s: string): string {
    if s != [] && IsSpace(s[|s| - 1]) then TrimSpaceRight(s[..|s| - 1]) else s
  }

  function TrimSpace(s: string): string {
    if s != [] && IsSpace(s[0]) then TrimSpace(s[1..]) else TrimSpaceRight(s)
  }

  /** How many characters of 0.55 em fit the width; one at the least. */
  function MaxChars(size: int, width: int): (n: nat)
    requires width > 0
    ensures n >= 1
  {
    if size <= 0 then width else if 96 * width / (55 * size) < 1 then 1 else 96 * width / (55 * size)
  }

  /** As many as fit, where n characters of 0.55 em at 300 dpi take 55 * size * n / 96 dots; one at the least. */
  lemma {:induction false} MaxCharsIs(size: int, width: int)
    requires width > 0
    ensures size <= 0 ==> MaxChars(size, width) == width
    ensures var n := MaxChars(size, width);
      size > 0 ==> (n == 1 || 55 * size * n <= 96 * width) && 55 * size * (n + 1) > 96 * width
  {
    if size > 0 {
      var per := 55 * size;
      Quotient(96 * width, per);
      if 96 * width / per < 1 {
        assert per * (1 + 1) >= per;
      }
    }
  }

  lemma Quotient(a: int, b: int)
    requires b > 0
    ensures b * (a / b) <= a < b * (a / b + 1)
  {
  }

  lemma TimesMore(per: int, a: int, b: int)
    requires per > 0 && a <= b
    ensures per * a <= per * b
  {
  }

  function Split(s: string): (parts: seq<string>)
    ensures |parts| >= 1
  {
    if s == [] then [[]]
    else
      var front, c := Split(s[..|s| - 1]), s[|s| - 1];
      if c == '\n' then front + [[]] else front[..|front| - 1] + [front[|front| - 1] + [c]]
  }

  /** A part in pieces of k characters, the last one shorter; an empty part is an empty line. */
  function Pieces(s: string, k: nat): (lines: seq<string>)
    requires k >= 1
    ensures |lines| >= 1
    decreases |s|
  {
    if |s| <= k then [s] else [s[..k]] + Pieces(s[k..], k)
  }

  function PiecesOfAll(parts: seq<string>, k: nat): seq<string>
    requires k >= 1
  {
    if parts == [] then [] else PiecesOfAll(parts[..|parts| - 1], k) + Pieces(parts[|parts| - 1], k)
  }

  function TextLines(text: string, size: int, width: int): seq<string> {
    var trimmed := TrimSpace(text);
    if trimmed == [] then [[]]
    else if width <= 0 then [trimmed]
    else PiecesOfAll(Split(trimmed), MaxChars(size, width))
  }

  method WrapText(text: string, size: int, width: int) returns (lines: seq<string>)
    ensures lines == TextLines(text, size, width)
  {
    var trimmed := TrimSpace(text);
    if trimmed == "" {
      return [""];
    }
    if width <= 0 {
      return [trimmed];
    }
    hide Pieces, MaxChars;
    var k := MaxChars(size, width);
    var parts := Split(trimmed);
    lines := [];
    for i := 0 to |parts|
      invariant lines == PiecesOfAll(parts[..i], k)
    {
      assert parts[..i + 1][..i] == parts[..i];
      var more := WrapPart(parts[i], k);
      lines := lines + more;
    }
    assert parts[..|parts|] == parts;
  }

  method WrapPart(part: string, k: nat) returns (lines: seq<string>)
    requires k >= 1
    ensures lines == Pieces(part, k)
  {
    if |part| == 0 {
      return [""];
    }
    hide Pieces;
    lines := [];
    var runes := part;
    EmptyEnds(Pieces(part, k));
    while |runes| > 0
      invariant runes != [] ==> lines + Pieces(runes, k) == Pieces(part, k)
      invariant runes == [] ==> lines == Pieces(part, k)
      decreases |runes|
    {
      var end := if k > |runes| then |runes| else k;
      PiecesStep(lines, runes, k);
      lines := lines + [runes[..end]];
      runes := runes[end..];
    }
  }

  lemma PiecesStep(lines: seq<string>, s: string, k: nat)
    requires k >= 1 && s != []
    ensures |s| <= k ==> Pieces(s, k) == [s[..|s|]]
    ensures |s| > k ==> lines + Pieces(s, k) == (lines + [s[..k]]) + Pieces(s[k..], k)
  {
    if |s| > k {
      Regroup(lines, [s[..k]], Pieces(s[k..], k));
    } else {
      assert s[..|s|] == s;
    }
  }

  /** A line marked with "...", and with as many of its characters as leave room for the mark among k. */
  predicate Marked(line: string, marked: string, k: nat) {
    exists n: nat | n <= |line| ::
      marked == TrimRight(line[..n]) + "..." && n <= k - 3 && (n == |line| || n == k - 3)
  }

  /** How many characters a line that is cut may have. */
  function MaxCharsCut(size: int, width: int): nat {
    if width <= 0 || size <= 0 then 1 else MaxChars(size, width)
  }

  /** Without a width or a size there is room for one character, else for as many as fit. */
  lemma {:induction false} MaxCharsCutIs(size: int, width: int)
    ensures var n := MaxCharsCut(size, width);
      if width <= 0 || size <= 0 then n == 1
      else (n == 1 || 55 * size * n <= 96 * width) && 55 * size * (n + 1) > 96 * width
  {
    if width > 0 {
      MaxCharsIs(size, width);
    }
  }

  /** The first maxLines lines, the last of them cut and marked if there is room for the mark. */
  function Clamped(lines: seq<string>, maxLines: int, size: int, width: int): seq<string> {
    if maxLines <= 0 || |lines| <= maxLines then lines
    else
      var k, last := MaxCharsCut(size, width), lines[maxLines - 1];
      lines[..maxLines - 1] +
      [if k <= 3 then last else TrimRight(if |last| > k - 3 then last[..k - 3] else last) + "..."]
  }

  /** Too many lines are cut to maxLines, and the last is marked if there is room for the mark. */
  method ClampLines(lines: seq<string>, maxLines: int, size: int, width: int) returns (r: seq<string>)
    ensures maxLines <= 0 || |lines| <= maxLines ==> r == lines
    ensures 0 < maxLines < |lines| ==> |r| == maxLines && r[..maxLines - 1] == lines[..maxLines - 1]
    ensures r == Clamped(lines, maxLines, size, width)
    ensures 0 < maxLines < |lines| ==>
      var k := MaxCharsCut(size, width);
      var m := maxLines - 1;
      if k > 3 then Marked(lines[m], r[m], k) else r[m] == lines[m]
  {
    if maxLines <= 0 || |lines| <= maxLines {
      return lines;
    }
    hide MaxCharsCut, TrimRight;
    r := lines[..maxLines];
    var k := MaxCharsCut(size, width);
    var last := r[maxLines - 1];
    if k > 3 {
      if |last| > k - 3 {
        last := last[..k - 3];
      }
      assert last == lines[maxLines - 1][..|last|];
      last := TrimRight(last) + "...";
    }
    r := r[..maxLines - 1] + [last];
  }

  predicate FitsLines(text: string, maxLines: int, width: int, size: int) {
    maxLines <= 0 || |TextLines(text, size, width)| <= maxLines
  }

  /** s is among the sizes tried: base and every half point below it, down to min. */
  predicate OnGrid(base: int, min: int, s: int) {
    s <= base && (s == min || (s > min && (base - s) % 2 == 0))
  }

  /** The size is the largest one tried at which the text needs no more than maxLines, else min. */
  ghost predicate BestSize(text: string, base: int, min: int, maxLines: int, width: int, size: int) {
    if TrimSpace(text) == [] then size == base
    else
      && (size == min || (OnGrid(base, min, size) && FitsLines(text, maxLines, width, size)))
      && forall s | OnGrid(base, min, s) && s > size :: !FitsLines(text, maxLines, width, s)
  }

  lemma FitsLinesIs(text: string, maxLines: int, width: int, size: int)
    ensures FitsLines(text, maxLines, width, size) <==> (maxLines <= 0 || |TextLines(text, size, width)| <= maxLines)
  {
  }

  /** Half a point down, or to min, is the next size on the grid. */
  lemma NextOnGrid(base: int, min: int, size: int)
    requires OnGrid(base, min, size) && size > min
    ensures var next := if size - 2 < min then min else size - 2;
      OnGrid(base, min, next) && forall s | OnGrid(base, min, s) && s > next :: s >= size
  {
  }

  lemma BlankLines(text: string, size: int, width: int)
    requires TrimSpace(text) == []
    ensures TextLines(text, size, width) == [[]]
  {
  }

  method FitLines(text: string, base: int, min: int, maxLines: int, width: int) returns (lines: seq<string>, size: int)
    ensures BestSize(text, base, min, maxLines, width, size)
    ensures var all := TextLines(text, size, width);
      && (lines == all <==> maxLines <= 0 || |all| <= maxLines)
      && (lines == all || (lines == Clamped(all, maxLines, min, width) && size == min))
  {
    hide TrimSpace;
    if TrimSpace(text) == "" {
      BlankLines(text, base, width);
      return [""], base;
    }
    hide TextLines, FitsLines;
    size := base;
    while size >= min
      invariant size <= base && (base >= min ==> OnGrid(base, min, size))
      invariant forall s | OnGrid(base, min, s) && s > size :: !FitsLines(text, maxLines, width, s)
      decreases size - min
    {
      lines := WrapText(text, size, width);
      FitsLinesIs(text, maxLines, width, size);
      if maxLines <= 0 || |lines| <= maxLines {
        return;
      }
      if size == min {
        lines := ClampLines(lines, maxLines, min, width);
        return lines, min;
      }
      NextOnGrid(base, min, size);
      size := size - 2;
      if size < min {
        size := min;
      }
    }
    lines := WrapText(text, min, width);
    lines := ClampLines(lines, maxLines, min, width);
    size := min;
  }

  /** FitLines without the cut: text that needs more lines takes them. */
  method FitAllLines(text: string, base: int, min: int, maxLines: int, width: int)
    returns (lines: seq<string>, size: int)
    ensures BestSize(text, base, min, maxLines, width, size)
    ensures lines == TextLines(text, size, width)
  {
    hide TextLines, BestSize;
    lines, size := FitLines(text, base, min, maxLines, width);
    var all := WrapText(text, size, width);
    if |all| > |lines| {
      lines := all;
    }
  }

  // ----- The parts of a text -----

  /** The parts with a line break between each and the next. */
  function JoinLines(parts: seq<string>): string
    requires parts != []
  {
    if |parts| == 1 then parts[0] else JoinLines(parts[..|parts| - 1]) + ['\n'] + parts[|parts| - 1]
  }

  lemma JoinMore(front: seq<string>, last: string, c: char)
    ensures JoinLines(front + [last + [c]]) == JoinLines(front + [last]) + [c]
    ensures front != [] ==> JoinLines(front + [last]) == JoinLines(front) + ['\n'] + last
  {
    assert (front + [last])[..|front|] == front && (front + [last + [c]])[..|front|] == front;
    if front != [] {
      Regroup(JoinLines(front) + ['\n'], last, [c]);
    }
  }

  /** Split cuts a text at its line breaks and nowhere else. */
  lemma {:induction false} SplitJoins(s: string)
    ensures JoinLines(Split(s)) == s && forall i | 0 <= i < |Split(s)| :: '\n' !in Split(s)[i]
    decreases |s|
  {
    if s != [] {
      var n := |s| - 1;
      var front, c := Split(s[..n]), s[n];
      SplitJoins(s[..n]);
      SplitNext(s);
      assert s == s[..n] + [c];
      hide Split, JoinLines;
      SplitBack(front[..|front| - 1], [front[|front| - 1]]);
      JoinNext(front, c);
    }
  }

  lemma SplitNext(s: string)
    requires s != []
    ensures var front, c := Split(s[..|s| - 1]), s[|s| - 1];
      Split(s) == if c == '\n' then front + [[]] else front[..|front| - 1] + [front[|front| - 1] + [c]]
  {
  }

  lemma JoinNext(front: seq<string>, c: char)
    requires front != []
    ensures JoinLines(if c == '\n' then front + [[]] else front[..|front| - 1] + [front[|front| - 1] + [c]]) ==
      JoinLines(front) + [c]
  {
    var k := |front| - 1;
    assert front == front[..k] + [front[k]];
    JoinMore(front, [], 'x');
    JoinMore(front[..k], front[k], c);
    EmptyEnds(JoinLines(front) + ['\n']);
  }

  /** And that determines the parts. */
  lemma {:induction false} SplitIff(s: string, parts: seq<string>)
    ensures parts == Split(s) <==>
      parts != [] && JoinLines(parts) == s && forall i | 0 <= i < |parts| :: '\n' !in parts[i]
  {
    SplitJoins(s);
    if parts != [] && JoinLines(parts) == s && forall i | 0 <= i < |parts| :: '\n' !in parts[i] {
      SplitOfJoin(parts);
    }
  }

  lemma {:induction false} SplitOfJoin(parts: seq<string>)
    requires parts != [] && forall i | 0 <= i < |parts| :: '\n' !in parts[i]
    ensures Split(JoinLines(parts)) == parts
    decreases |parts|, |parts[|parts| - 1]|
  {
    var n := |parts| - 1;
    var front, last := parts[..n], parts[n];
    assert parts == front + [last];
    var s := JoinLines(parts);
    if last != [] {
      var m := |last| - 1;
      var less := front + [last[..m]];
      assert last == last[..m] + [last[m]];
      JoinMore(front, last[..m], last[m]);
      assert forall i | 0 <= i < |less| :: '\n' !in less[i] by {
        assert forall i | 0 <= i < n :: less[i] == parts[i];
      }
      SplitOfJoin(less);
      assert s[..|s| - 1] == JoinLines(less) && s[|s| - 1] == last[m];
      assert less[..n] == front;
    } else if n > 0 {
      JoinMore(front, [], 'x');
      EmptyEnds(JoinLines(front) + ['\n']);
      assert forall i | 0 <= i < |front| :: front[i] == parts[i];
      SplitOfJoin(front);
      assert s[..|s| - 1] == JoinLines(front) && s[|s| - 1] == '\n';
    } else {
      assert s == [];
    }
  }

  /** A text without line breaks that has no more characters than fit is one line. */
  lemma {:induction false} ShortTextIsOneLine(text: string, size: int, width: int)
    requires '\n' !in TrimSpace(text) && TrimSpace(text) != [] && width > 0
    requires size > 0 ==> |TrimSpace(text)| == 1 || 55 * size * |TrimSpace(text)| <= 96 * width
    requires size <= 0 ==> |TrimSpace(text)| <= width
    ensures TextLines(text, size, width) == [TrimSpace(text)]
  {
    var t := TrimSpace(text);
    var k := MaxChars(size, width);
    hide TrimSpace, Split, JoinLines, MaxChars;
    OnePart(t);
    MaxCharsIs(size, width);
    if size > 0 && |t| > k {
      TimesMore(55 * size, k + 1, |t|);
    }
    OnePiece(t, k);
  }

  lemma OnePiece(t: string, k: nat)
    requires |t| <= k && k >= 1
    ensures PiecesOfAll([t], k) == [t]
  {
    assert [t][..0] == [];
    assert PiecesOfAll([], k) == [] && Pieces(t, k) == [t];
  }

  lemma OnePart(t: string)
    requires '\n' !in t
    ensures Split(t) == [t]
  {
    SplitIff(t, [t]);
  }

  // ----- White space -----

  /** A character that Unicode calls white space. */
  predicate IsWhite(c: char) {
    var n := c as int;
    9 <= n <= 13 || 0x2000 <= n <= 0x200A ||
    n in {0x20, 0x85, 0xA0, 0x1680, 0x2028, 0x2029, 0x202F, 0x205F, 0x3000}
  }

  lemma {:induction false} SpaceIsWhite(c: char)
    ensures IsSpace(c) <==> IsWhite(c)
  {
  }

  lemma {:induction false} TrimSpaceRightIs(s: string) returns (tail: string)
    ensures s == TrimSpaceRight(s) + tail && forall c | c in tail :: IsSpace(c)
    ensures var r := TrimSpaceRight(s); r != [] ==> !IsSpace(r[|r| - 1])
    decreases |s|
  {
    hide IsSpace;
    tail := [];
    if s != [] && IsSpace(s[|s| - 1]) {
      var n := |s| - 1;
      var less := TrimSpaceRightIs(s[..n]);
      tail := less + [s[n]];
      Regroup(TrimSpaceRight(s), less, [s[n]]);
    }
  }

  /** What is trimmed off a text is the white space at its two ends. */
  lemma {:induction false} TrimSpaceIs(s: string) returns (head: string, tail: string)
    ensures s == head + TrimSpace(s) + tail && forall c | c in head + tail :: IsWhite(c)
    ensures var r := TrimSpace(s); r != [] ==> !IsWhite(r[0]) && !IsWhite(r[|r| - 1])
    decreases |s|
  {
    hide IsSpace, IsWhite;
    if s != [] {
      SpaceIsWhite(s[0]);
    }
    if s != [] && IsSpace(s[0]) {
      head, tail := TrimSpaceIs(s[1..]);
      head := [s[0]] + head;
    } else {
      head := [];
      tail := TrimSpaceRightIs(s);
      var r := TrimSpaceRight(s);
      assert r != [] ==> r[0] == s[0];
      forall c | c in tail ensures IsWhite(c) {
        SpaceIsWhite(c);
      }
      if r != [] {
        SpaceIsWhite(r[|r| - 1]);
      }
    }
  }

  lemma {:induction false} TrimLineEndIs(s: string) returns (tail: string)
    ensures s == TrimLineEnd(s) + tail && forall c | c in tail :: c as int in {0x20, 0x09, 0x0D}
    ensures var r := TrimLineEnd(s); r != [] ==> r[|r| - 1] as int !in {0x20, 0x09, 0x0D}
    decreases |s|
  {
    tail := [];
    if s != [] && s[|s| - 1] in " \t\r" {
      var n := |s| - 1;
      var less := TrimLineEndIs(s[..n]);
      tail := less + [s[n]];
      Regroup(TrimLineEnd(s), less, [s[n]]);
    }
  }

  /** The paragraphs of a text: its parts between line breaks, each without the spaces, tabs and returns at its end. */
  lemma {:induction false} ParagraphsAre(text: string, i: nat) returns (tail: string)
    requires i < |Split(TrimSpace(text))|
    ensures |Paragraphs(text)| == |Split(TrimSpace(text))|
    ensures Split(TrimSpace(text))[i] == Paragraphs(text)[i] + tail
    ensures forall c | c in tail :: c as int in {0x20, 0x09, 0x0D}
    ensures var p := Paragraphs(text)[i]; p != [] ==> p[|p| - 1] as int !in {0x20, 0x09, 0x0D}
  {
    hide TrimSpace, Split, TrimLineEnd;
    tail := TrimLineEndIs(Split(TrimSpace(text))[i]);
  }

  // ----- Nothing is dropped -----

  function NoBreaks(s: string): string {
    if s == [] then [] else NoBreaks(s[..|s| - 1]) + if s[|s| - 1] == '\n' then [] else [s[|s| - 1]]
  }

  lemma {:induction false} SplitKeeps(s: string)
    ensures Flat(Split(s)) == NoBreaks(s)
    decreases |s|
  {
    if s == [] {
      FlatOne([]);
    } else {
      var front, c := Split(s[..|s| - 1]), s[|s| - 1];
      SplitKeeps(s[..|s| - 1]);
      var k := |front| - 1;
      if c == '\n' {
        assert (front + [[]])[..|front|] == front;
      } else {
        var now := front[..k] + [front[k] + [c]];
        assert now[..k] == front[..k];
        Regroup(Flat(front[..k]), front[k], [c]);
      }
    }
  }

  lemma {:induction false} PiecesKeep(s: string, k: nat)
    requires k >= 1
    ensures Flat(Pieces(s, k)) == s && forall i | 0 <= i < |Pieces(s, k)| :: |Pieces(s, k)[i]| <= k
    ensures forall i | 0 <= i < |Pieces(s, k)| - 1 :: |Pieces(s, k)[i]| == k
    decreases |s|
  {
    if |s| <= k {
      FlatOne(s);
    } else {
      PiecesKeep(s[k..], k);
      FlatAppend([s[..k]], Pieces(s[k..], k));
      FlatOne(s[..k]);
      TakeDrop(s, k);
    }
  }

  lemma {:induction false} AllPiecesKeep(parts: seq<string>, k: nat)
    requires k >= 1
    ensures Flat(PiecesOfAll(parts, k)) == Flat(parts)
    ensures forall i | 0 <= i < |PiecesOfAll(parts, k)| :: |PiecesOfAll(parts, k)[i]| <= k
    decreases |parts|
  {
    if parts != [] {
      var n := |parts| - 1;
      AllPiecesKeep(parts[..n], k);
      PiecesKeep(parts[n], k);
      FlatAppend(PiecesOfAll(parts[..n], k), Pieces(parts[n], k));
    }
  }

  /** The lines are the trimmed text without its line breaks, and none has more characters than are allowed. */
  lemma {:induction false} TextLinesKeepAll(text: string, size: int, width: int)
    requires width > 0
    ensures Flat(TextLines(text, size, width)) == NoBreaks(TrimSpace(text))
    ensures forall i | 0 <= i < |TextLines(text, size, width)| ::
      |TextLines(text, size, width)[i]| <= MaxChars(size, width)
  {
    var trimmed := TrimSpace(text);
    if trimmed == [] {
      FlatOne([]);
    } else {
      SplitKeeps(trimmed);
      AllPiecesKeep(Split(trimmed), MaxChars(size, width));
    }
  }
}
