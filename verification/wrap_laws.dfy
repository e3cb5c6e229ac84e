/** What Japanese wrapping keeps, and that it wastes no line. */
module WrapLaws {
  import opened Sequences
  import opened LineBreaking

  // ----- Nothing but spaces is dropped, and every line fits -----

  function NoSpaces(s: string): string {
    if s == [] then [] else NoSpaces(s[..|s| - 1]) + if s[|s| - 1] == ' ' then [] else [s[|s| - 1]]
  }

  lemma {:induction false} NoSpacesAppend(a: string, b: string)
    ensures NoSpaces(a + b) == NoSpaces(a) + NoSpaces(b)
    decreases |b|
  {
    if b == [] {
      assert a + b == a;
    } else {
      assert (a + b)[..|a + b| - 1] == a + b[..|b| - 1];
      NoSpacesAppend(a, b[..|b| - 1]);
    }
  }

  lemma {:induction false} TrimRightKeeps(s: string)
    ensures NoSpaces(TrimRight(s)) == NoSpaces(s) && TrimRight(s) <= s
    decreases |s|
  {
    if s != [] && s[|s| - 1] == ' ' {
      TrimRightKeeps(s[..|s| - 1]);
    }
  }

  lemma {:induction false} TrimLeftKeeps(s: string)
    ensures NoSpaces(TrimLeft(s)) == NoSpaces(s)
    decreases |s|
  {
    if s != [] && s[0] == ' ' {
      TrimLeftKeeps(s[1..]);
      assert s == [' '] + s[1..];
      NoSpacesAppend([' '], s[1..]);
      assert NoSpaces([' ']) == [] by {
        assert [' '][..0] == [];
      }
    }
  }

  /** All the text a filling holds. */
  function Content(f: Fill): string {
    Flat(f.lines) + f.line
  }

  lemma FoldKeeps(face: Face, f: Fill, width: int)
    ensures Content(Fold(face, f, width)) == Content(f)
    ensures LinesOk(face, f.lines, width) ==>
      LinesOk(face, Fold(face, f, width).lines, width) && LineOk(face, Fold(face, f, width).line, width)
  {
    hide Chop, Over;
    ChopIsFaithful(face, f.line, width);
    var parts := Chop(face, f.line, width);
    var n := |parts| - 1;
    FlatAppend(f.lines, parts[..n]);
    Regroup(Flat(f.lines), Flat(parts[..n]), parts[n]);
  }

  lemma PlaceKeeps(face: Face, f: Fill, tok: string, width: int)
    requires LinesOk(face, f.lines, width) && LineOk(face, f.line, width)
    ensures var g := Place(face, f, tok, width);
      NoSpaces(Content(g)) == NoSpaces(Content(f) + tok) && LinesOk(face, g.lines, width)
  {
    hide Over, NoSpaces, TrimRight, TrimLeft;
    TrimRightKeeps(f.line);
    TrimLeftKeeps(tok);
    FlatAppend(f.lines, [TrimRight(f.line)]);
    FlatOne(TrimRight(f.line));
    NoSpacesAppend(Flat(f.lines), f.line);
    NoSpacesAppend(Flat(f.lines), TrimRight(f.line));
    NoSpacesAppend(Flat(f.lines) + TrimRight(f.line), TrimLeft(tok));
    NoSpacesAppend(Flat(f.lines) + f.line, tok);
    Regroup(Flat(f.lines), f.line, tok);
    TrimmedIsOk(face, f.line, width);
  }

  lemma TrimmedIsOk(face: Face, line: string, width: int)
    requires LineOk(face, line, width)
    ensures LineOk(face, TrimRight(line), width)
  {
    TrimRightKeeps(line);
    if !Over(face, line, width) {
      PartFits(face, line, 0, |TrimRight(line)|, width);
      assert TrimRight(line) == line[0..|TrimRight(line)|];
    }
  }

  lemma {:induction false} FillKeeps(face: Face, ts: seq<string>, width: int)
    ensures var f := FillAll(face, ts, width);
      NoSpaces(Content(f)) == NoSpaces(Flat(ts)) && LinesOk(face, f.lines, width) && LineOk(face, f.line, width)
    decreases |ts|
  {
    if ts != [] {
      hide Fold, Place, NoSpaces, LineOk;
      var front, tok := ts[..|ts| - 1], ts[|ts| - 1];
      FillKeeps(face, front, width);
      var f := FillAll(face, front, width);
      PlaceKeeps(face, f, tok, width);
      FoldKeeps(face, Place(face, f, tok, width), width);
      NoSpacesAppend(Content(f), tok);
      NoSpacesAppend(Flat(front), tok);
    } else {
      assert Content(Fill([], [])) == [];
    }
  }

  /** Whatever the text and the frame, only spaces are dropped, and every line fits or is one character. */
  lemma {:induction false} WrappedIsFaithful(face: Face, text: string, width: int)
    ensures NoSpaces(Flat(Wrapped(face, text, width))) == NoSpaces(text)
    ensures LinesOk(face, Wrapped(face, text, width), width)
  {
    hide NoSpaces, TrimRight, FillAll, Over, Segmented, LineOk;
    if text == [] {
      FlatOne([]);
      assert LineOk(face, [], width) by { OneIsOk(face, [], width); }
    } else {
      TokensSegment(text);
      TokensJoin(text);
      FillKeeps(face, Tokens(text), width);
      var f := FillAll(face, Tokens(text), width);
      EndKeeps(face, f, width);
    }
  }

  lemma TokensJoin(text: string)
    ensures Flat(Tokens(text)) == text
  {
    hide MayBreak, Tokens;
    TokensSegment(text);
  }

  lemma EndKeeps(face: Face, f: Fill, width: int)
    requires LinesOk(face, f.lines, width) && LineOk(face, f.line, width)
    ensures NoSpaces(Flat(f.lines + [TrimRight(f.line)])) == NoSpaces(Content(f))
    ensures LinesOk(face, f.lines + [TrimRight(f.line)], width)
  {
    hide NoSpaces, TrimRight, Over;
    TrimRightKeeps(f.line);
    TrimmedIsOk(face, f.line, width);
    FlatAppend(f.lines, [TrimRight(f.line)]);
    FlatOne(TrimRight(f.line));
    NoSpacesAppend(Flat(f.lines), f.line);
    NoSpacesAppend(Flat(f.lines), TrimRight(f.line));
  }

  // ----- Space-free text whose tokens fit -----

  predicate SpaceFree(s: string) {
    ' ' !in s
  }

  /** Every token fits the frame by itself. */
  predicate AllFit(face: Face, lines: seq<string>, width: int) {
    forall i | 0 <= i < |lines| :: !Over(face, lines[i], width)
  }

  /** Each line ends, and the next begins, where a line may be broken. */
  predicate WellBroken(lines: seq<string>) {
    && NoneEmpty(lines)
    && forall i | 0 <= i < |lines| - 1 :: MayBreak(LastRune(lines[i]), lines[i + 1][0])
  }

  /** A way of laying out the text: its characters in order, broken only where they may be, each line fitting. */
  predicate Layout(face: Face, text: string, width: int, lines: seq<string>) {
    Flat(lines) == text && WellBroken(lines) && AllFit(face, lines, width)
  }

  lemma NoTrim(s: string)
    requires SpaceFree(s)
    ensures TrimRight(s) == s && TrimLeft(s) == s
  {
    if s != [] {
      assert s[0] in s && s[|s| - 1] in s;
    }
  }

  /** A filling of space-free tokens that fit: the tokens in order, broken between tokens. */
  predicate Tidy(face: Face, f: Fill, ts: seq<string>, width: int) {
    && Content(f) == Flat(ts)
    && Layout(face, Content(f), width, f.lines + [f.line])
    && ts != [] && ts[|ts| - 1] != [] && LastRune(f.line) == LastRune(ts[|ts| - 1])
  }

  lemma FlatLast(ts: seq<string>)
    requires ts != []
    ensures Flat(ts) == Flat(ts[..|ts| - 1]) + ts[|ts| - 1]
  {
  }

  lemma LayoutExtended(face: Face, lines: seq<string>, line: string, tok: string, width: int)
    requires WellBroken(lines + [line]) && AllFit(face, lines + [line], width)
    requires tok != [] && !Over(face, line + tok, width)
    ensures WellBroken(lines + [line + tok]) && AllFit(face, lines + [line + tok], width)
  {
    hide Over, MayBreak;
    var was, now := lines + [line], lines + [line + tok];
    assert was[|lines|] == line && now[|lines|] == line + tok;
    assert forall i | 0 <= i < |lines| :: was[i] == now[i];
    assert (line + tok)[0] == line[0];
  }

  lemma LayoutBroken(face: Face, lines: seq<string>, line: string, tok: string, width: int)
    requires WellBroken(lines + [line]) && AllFit(face, lines + [line], width)
    requires tok != [] && !Over(face, tok, width) && line != [] && MayBreak(LastRune(line), tok[0])
    ensures WellBroken(lines + [line] + [tok]) && AllFit(face, lines + [line] + [tok], width)
  {
    hide Over, MayBreak;
    var was, now := lines + [line], lines + [line] + [tok];
    assert now[|lines|] == line && now[|lines| + 1] == tok;
    assert forall i | 0 <= i < |was| :: was[i] == now[i];
  }

  /** What one more token does to a tidy filling. */
  lemma PlaceTidy(face: Face, f: Fill, ts: seq<string>, tok: string, width: int)
    requires Tidy(face, f, ts, width) && SpaceFree(f.line) && SpaceFree(tok) && tok != [] && !Over(face, tok, width)
    requires MayBreak(LastRune(ts[|ts| - 1]), tok[0])
    ensures var g := Fold(face, Place(face, f, tok, width), width);
      && Tidy(face, g, ts + [tok], width)
      && g == if Over(face, f.line + tok, width) then Fill(f.lines + [f.line], tok) else Fill(f.lines, f.line + tok)
  {
    hide MayBreak, Over, TrimRight, TrimLeft;
    NoTrim(f.line);
    NoTrim(tok);
    var all := f.lines + [f.line];
    assert all[|f.lines|] == f.line;
    FlatLast(ts + [tok]);
    assert (ts + [tok])[..|ts|] == ts;
    FlatAppend(f.lines, [f.line]);
    FlatOne(f.line);
    if Over(face, f.line + tok, width) {
      LayoutBroken(face, f.lines, f.line, tok, width);
      FlatAppend(all, [tok]);
      FlatOne(tok);
    } else {
      LayoutExtended(face, f.lines, f.line, tok, width);
      FlatAppend(f.lines, [f.line + tok]);
      FlatOne(f.line + tok);
      Regroup(Flat(f.lines), f.line, tok);
    }
  }

  lemma FirstToken(face: Face, tok: string, width: int)
    requires tok != [] && !Over(face, tok, width)
    ensures FillAll(face, [tok], width) == Fill([], tok) && Tidy(face, Fill([], tok), [tok], width)
  {
    hide Over;
    assert [tok][..0] == [];
    assert [] + tok == tok;
    FlatOne(tok);
    assert [] + [tok] == [tok];
  }

  predicate AllSpaceFree(ts: seq<string>) {
    forall i | 0 <= i < |ts| :: SpaceFree(ts[i])
  }

  lemma {:induction false} FillIsTidy(face: Face, ts: seq<string>, width: int)
    requires ts != [] && WellBroken(ts) && AllFit(face, ts, width) && AllSpaceFree(ts)
    ensures var f := FillAll(face, ts, width);
      Tidy(face, f, ts, width) && SpaceFree(f.line)
    decreases |ts|
  {
    hide MayBreak, Over, Fold, Place, Tidy;
    var n := |ts| - 1;
    var front, tok := ts[..n], ts[n];
    assert ts == front + [tok];
    if n == 0 {
      FirstToken(face, tok, width);
    } else {
      assert LastRune(front[n - 1]) == LastRune(ts[n - 1]);
      FillIsTidy(face, front, width);
      PlaceTidy(face, FillAll(face, front, width), front, tok, width);
    }
  }

  lemma {:induction false} PiecesSpaceFree(ts: seq<string>)
    requires SpaceFree(Flat(ts))
    ensures AllSpaceFree(ts)
    decreases |ts|
  {
    if ts != [] {
      var n := |ts| - 1;
      FlatLast(ts);
      assert forall c | c in Flat(ts[..n]) :: c in Flat(ts);
      assert forall c | c in ts[n] :: c in Flat(ts);
      PiecesSpaceFree(ts[..n]);
      assert forall i | 0 <= i < n :: ts[i] == ts[..n][i];
    }
  }

  lemma TokensAreWellBroken(text: string)
    ensures WellBroken(Tokens(text))
  {
    hide Tokens, MayBreak;
    TokensSegment(text);
  }

  /**
   Space-free text whose tokens each fit is laid out whole: no line after the first starts
   with a character that must not start one, no line before the last ends with one that
   must not end one, no run of letters or digits is cut, and every line fits.
   */
  lemma {:induction false} WrappedIsLayout(face: Face, text: string, width: int)
    requires text != [] && SpaceFree(text) && AllFit(face, Tokens(text), width)
    ensures Layout(face, text, width, Wrapped(face, text, width))
  {
    hide FillAll, Layout, Tokens;
    var ts := Tokens(text);
    TokensJoin(text);
    TokensAreWellBroken(text);
    PiecesSpaceFree(ts);
    FillIsTidy(face, ts, width);
    NoTrim(FillAll(face, ts, width).line);
  }

  /** In the characters themselves: what no line but the first starts with, and what no line but the last ends with. */
  lemma {:induction false} LinesAreBrokenRight(face: Face, text: string, width: int, i: nat)
    requires text != [] && SpaceFree(text) && AllFit(face, Tokens(text), width)
    requires i + 1 < |Wrapped(face, text, width)|
    ensures var a, b := Wrapped(face, text, width)[i], Wrapped(face, text, width)[i + 1];
      && a != [] && b != [] && a[|a| - 1] !in ENDS_NO_LINE
      && b[0] !in PAUSES + CLOSERS + MARKS + SMALL_HIRAGANA + SMALL_KATAKANA
      && !(a[|a| - 1] < '\U{80}' && b[0] < '\U{80}')
  {
    hide Wrapped, Tokens, MayBreak, Over;
    WrappedIsLayout(face, text, width);
    var a, b := Wrapped(face, text, width)[i], Wrapped(face, text, width)[i + 1];
    MayBreakIff(a[|a| - 1], b[0]);
    LineIsSpaceFree(Wrapped(face, text, width), i);
    LineIsSpaceFree(Wrapped(face, text, width), i + 1);
    assert a[|a| - 1] in a && b[0] in b;
  }

  lemma LineIsSpaceFree(lines: seq<string>, i: nat)
    requires i < |lines| && SpaceFree(Flat(lines))
    ensures SpaceFree(lines[i])
  {
    PiecesSpaceFree(lines);
  }

  /** And every line, of any text, is one character or has advances of no more than 64 for every dot of the width. */
  lemma {:induction false} LinesAdvance(face: Face, text: string, width: int)
    ensures forall line | line in Wrapped(face, text, width) :: |line| <= 1 || Advances(face, line) <= 64 * width
  {
    hide Wrapped, Over;
    WrappedIsFaithful(face, text, width);
    forall line | line in Wrapped(face, text, width) ensures |line| <= 1 || Advances(face, line) <= 64 * width {
      var i :| 0 <= i < |Wrapped(face, text, width)| && Wrapped(face, text, width)[i] == line;
      assert LineOk(face, Wrapped(face, text, width)[i], width);
      FitsIff(face, line, width);
    }
  }

  // ----- No layout needs fewer lines -----

  /** Where line i begins in the text. */
  function Pos(lines: seq<string>, i: nat): nat
    requires i <= |lines|
  {
    |Flat(lines[..i])|
  }

  lemma {:induction false} LineInText(lines: seq<string>, i: nat)
    requires i < |lines|
    ensures Pos(lines, i + 1) == Pos(lines, i) + |lines[i]| <= |Flat(lines)|
    ensures Flat(lines)[Pos(lines, i)..Pos(lines, i + 1)] == lines[i]
  {
    var a, b := lines[..i], lines[i + 1..];
    assert lines == a + [lines[i]] + b;
    FlatAppend(a + [lines[i]], b);
    FlatAppend(a, [lines[i]]);
    FlatOne(lines[i]);
    assert lines[..i + 1] == a + [lines[i]];
    assert Flat(lines) == Flat(a) + lines[i] + Flat(b);
  }

  /** Line i of the layout holds the q-th character. */
  predicate Holds(lines: seq<string>, i: nat, q: nat) {
    i < |lines| && Pos(lines, i) < q <= Pos(lines, i + 1)
  }

  /**
   The greedy filling is never behind: where it stands at the q-th character, any other
   layout has done at least as many lines, and if as many, its line began no later.
   */
  ghost predicate Ahead(f: Fill, alt: seq<string>, q: nat) {
    forall i | Holds(alt, i, q) :: |f.lines| <= i && (|f.lines| == i ==> Pos(alt, i) <= |Flat(f.lines)|)
  }

  /** A layout does not begin a line inside a token. */
  lemma NoCutInToken(face: Face, text: string, width: int, alt: seq<string>, i: nat, from: nat, tok: string)
    requires Layout(face, text, width, alt) && i < |alt|
    requires from + |tok| <= |text| && text[from..from + |tok|] == tok
    requires forall j | 0 < j < |tok| :: !MayBreak(tok[j - 1], tok[j])
    ensures Pos(alt, i) <= from || Pos(alt, i) >= from + |tok|
  {
    hide MayBreak, AllFit, WellBroken, Flat;
    var p := Pos(alt, i);
    assert from < p < from + |tok| ==> tok[p - from - 1] == text[p - 1] && tok[p - from] == text[p];
    if i > 0 {
      CutMayBreak(face, text, width, alt, i);
    } else {
      assert p == 0 by { assert alt[..0] == []; FlatNone(); }
    }
  }

  lemma FlatNone()
    ensures Flat([]) == []
  {
  }

  /** Where a line of a layout begins, the text may be broken. */
  lemma CutMayBreak(face: Face, text: string, width: int, alt: seq<string>, i: nat)
    requires Layout(face, text, width, alt) && 0 < i < |alt|
    ensures 0 < Pos(alt, i) < |text| && MayBreak(text[Pos(alt, i) - 1], text[Pos(alt, i)])
  {
    hide MayBreak, AllFit;
    LineInText(alt, i - 1);
    LineInText(alt, i);
    var p := Pos(alt, i);
    assert text[p - 1] == LastRune(alt[i - 1]) && text[p] == alt[i][0];
  }

  lemma StaysAhead(face: Face, text: string, width: int, alt: seq<string>, f: Fill, tok: string)
    requires Layout(face, text, width, alt) && tok != []
    requires Content(f) + tok <= text && f.line != []
    requires forall j | 0 < j < |tok| :: !MayBreak(tok[j - 1], tok[j])
    requires Ahead(f, alt, |Content(f)|)
    ensures Ahead(if Over(face, f.line + tok, width) then Fill(f.lines + [f.line], tok)
                  else Fill(f.lines, f.line + tok),
      alt, |Content(f)| + |tok|)
  {
    var g := if Over(face, f.line + tok, width) then Fill(f.lines + [f.line], tok) else Fill(f.lines, f.line + tok);
    var q := |Content(f)|;
    assert text[q..q + |tok|] == tok;
    forall i | Holds(alt, i, q + |tok|)
      ensures |g.lines| <= i && (|g.lines| == i ==> Pos(alt, i) <= |Flat(g.lines)|)
    {
      NoCutInToken(face, text, width, alt, i, q, tok);
      StaysAheadAt(face, text, width, alt, f, tok, i);
    }
  }

  lemma StaysAheadAt(face: Face, text: string, width: int, alt: seq<string>, f: Fill, tok: string, i: nat)
    requires Layout(face, text, width, alt) && tok != [] && f.line != []
    requires Content(f) + tok <= text
    requires Ahead(f, alt, |Content(f)|) && Holds(alt, i, |Content(f)| + |tok|) && Pos(alt, i) <= |Content(f)|
    ensures var g := if Over(face, f.line + tok, width) then Fill(f.lines + [f.line], tok)
                     else Fill(f.lines, f.line + tok);
      |g.lines| <= i && (|g.lines| == i ==> Pos(alt, i) <= |Flat(g.lines)|)
  {
    hide Over, WellBroken, Flat, Layout, Pos;
    var q, n := |Content(f)|, |f.lines|;
    FlatAppend(f.lines, [f.line]);
    FlatOne(f.line);
    if Pos(alt, i) == q {
      HeldBefore(face, text, width, alt, i, q);
    } else {
      assert Holds(alt, i, q);
      if n == i {
        InOneLine(face, text, width, alt, i, |Flat(f.lines)|, q + |tok|);
        LineInFront(text, f, tok);
      }
    }
  }

  /** Where a line begins, the character before is in the line before. */
  lemma HeldBefore(face: Face, text: string, width: int, alt: seq<string>, i: nat, q: nat)
    requires Layout(face, text, width, alt) && i < |alt| && Pos(alt, i) == q > 0
    ensures i > 0 && Holds(alt, i - 1, q)
  {
    hide Over;
    assert Pos(alt, 0) == 0 by { assert alt[..0] == []; }
    NoneEmptyAt(face, text, width, alt, i - 1);
    LineInText(alt, i - 1);
  }

  lemma LineInFront(text: string, f: Fill, tok: string)
    requires Content(f) + tok <= text
    ensures f.line + tok == text[|Flat(f.lines)|..|Content(f)| + |tok|]
  {
    var whole := Content(f) + tok;
    Regroup(Flat(f.lines), f.line, tok);
    SplitBack(Flat(f.lines), f.line + tok);
    assert text[..|whole|] == whole;
    assert text[|Flat(f.lines)|..|whole|] == text[..|whole|][|Flat(f.lines)|..];
  }

  lemma NoneEmptyAt(face: Face, text: string, width: int, alt: seq<string>, i: nat)
    requires Layout(face, text, width, alt) && i < |alt|
    ensures alt[i] != []
  {
  }

  /** What lies within one line of a layout fits. */
  lemma InOneLine(face: Face, text: string, width: int, alt: seq<string>, i: nat, from: nat, to: nat)
    requires Layout(face, text, width, alt) && i < |alt|
    requires Pos(alt, i) <= from <= to <= Pos(alt, i + 1)
    ensures to <= |text| && !Over(face, text[from..to], width)
  {
    hide Over, Flat, Pos;
    LineInText(alt, i);
    var p := Pos(alt, i);
    SliceOfSlice(Flat(alt), p, Pos(alt, i + 1), from, to);
    PartFits(face, alt[i], from - p, to - p, width);
  }

  lemma {:induction false} FillIsAhead(face: Face, text: string, width: int, alt: seq<string>, ts: seq<string>)
    requires Layout(face, text, width, alt) && ts != [] && Flat(ts) <= text
    requires WellBroken(ts) && AllFit(face, ts, width) && AllSpaceFree(ts) && Unbroken(ts)
    ensures Ahead(FillAll(face, ts, width), alt, |Flat(ts)|)
    decreases |ts|
  {
    hide MayBreak, Over, Fold, Place, Layout, Ahead;
    var n := |ts| - 1;
    var front, tok := ts[..n], ts[n];
    assert ts == front + [tok];
    FlatLast(ts);
    if n == 0 {
      FirstToken(face, tok, width);
      AheadAtFirst(alt, tok);
      FlatOne(tok);
    } else {
      assert LastRune(front[n - 1]) == LastRune(ts[n - 1]);
      assert forall i | 0 <= i < n :: front[i] == ts[i];
      FillIsAhead(face, text, width, alt, front);
      FillIsTidy(face, front, width);
      var f := FillAll(face, front, width);
      TidyLine(face, f, front, width);
      PlaceTidy(face, f, front, tok, width);
      StaysAhead(face, text, width, alt, f, tok);
    }
  }

  /** No token could be broken further. */
  predicate Unbroken(ts: seq<string>) {
    forall i, j | 0 <= i < |ts| && 0 < j < |ts[i]| :: !MayBreak(ts[i][j - 1], ts[i][j])
  }

  lemma TidyLine(face: Face, f: Fill, ts: seq<string>, width: int)
    requires Tidy(face, f, ts, width)
    ensures f.line != [] && Content(f) == Flat(ts)
  {
    assert (f.lines + [f.line])[|f.lines|] == f.line;
  }

  lemma AheadAtFirst(alt: seq<string>, tok: string)
    ensures Ahead(Fill([], tok), alt, |tok|)
  {
    forall i | Holds(alt, i, |tok|)
      ensures 0 <= i && (0 == i ==> Pos(alt, i) <= 0)
    {
      assert alt[..0] == [];
    }
  }

  /**
   Greedy filling is optimal: space-free text whose tokens each fit is not laid out in
   fewer lines by any way of breaking it where it may be broken.
   */
  lemma {:induction false} WrappedIsShortest(face: Face, text: string, width: int, alt: seq<string>)
    requires text != [] && SpaceFree(text) && AllFit(face, Tokens(text), width)
    requires Layout(face, text, width, alt)
    ensures |Wrapped(face, text, width)| <= |alt|
  {
    hide Tokens, MayBreak, FillAll, Over;
    var ts := Tokens(text);
    TokensSegment(text);
    TokensAreWellBroken(text);
    PiecesSpaceFree(ts);
    FillIsAhead(face, text, width, alt, ts);
    FlatNone();
    if alt != [] {
      var last := |alt| - 1;
      LineInText(alt, last);
      assert alt[..|alt|] == alt;
      assert Holds(alt, last, |text|);
    }
  }
}
