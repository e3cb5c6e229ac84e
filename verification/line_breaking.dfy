/**
 Wrapping label text to a frame: Japanese line breaking that keeps words and punctuation
 together, and the character-by-character split of what is too wide for a line by itself.
 Widths are sums of glyph advances in 1/64 dot; frames are measured in dots.
 */
module LineBreaking {
  import opened Sequences

  /** How far each character advances, in 1/64 dot. */
  type Face = char -> nat

  function Width(face: Face, s: string): nat {
    if s == [] then 0 else Width(face, s[..|s| - 1]) + face(s[|s| - 1])
  }

  /** The text, rounded up to whole dots, is wider than the frame. */
  predicate Over(face: Face, s: string, width: int) {
    (Width(face, s) + 63) / 64 > width
  }

  lemma {:induction false} WidthAppend(face: Face, a: string, b: string)
    ensures Width(face, a + b) == Width(face, a) + Width(face, b)
    decreases |b|
  {
    if b == [] {
      assert a + b == a;
    } else {
      assert (a + b)[..|a + b| - 1] == a + b[..|b| - 1];
      WidthAppend(face, a, b[..|b| - 1]);
    }
  }

  /** The advances of a text, added up from its first character on. */
  function Advances(face: Face, s: string): nat {
    if s == [] then 0 else face(s[0]) + Advances(face, s[1..])
  }

  lemma {:induction false} WidthIsAdvances(face: Face, s: string)
    ensures Width(face, s) == Advances(face, s)
    decreases |s|
  {
    if s != [] {
      WidthIsAdvances(face, s[1..]);
      WidthAppend(face, [s[0]], s[1..]);
      assert [s[0]] + s[1..] == s && [s[0]][..0] == [];
    }
  }

  /** A text fits if its advances are no more than 64 for every dot of the width. */
  lemma {:induction false} FitsIff(face: Face, s: string, width: int)
    ensures !Over(face, s, width) <==> Advances(face, s) <= 64 * width
  {
    WidthIsAdvances(face, s);
  }

  /** A part of what fits, fits. */
  lemma PartFits(face: Face, s: string, i: nat, j: nat, width: int)
    requires i <= j <= |s| && !Over(face, s, width)
    ensures !Over(face, s[i..j], width)
  {
    assert s == s[..i] + s[i..j] + s[j..];
    WidthAppend(face, s[..i] + s[i..j], s[j..]);
    WidthAppend(face, s[..i], s[i..j]);
  }

  function Flat(ss: seq<string>): string {
    if ss == [] then [] else Flat(ss[..|ss| - 1]) + ss[|ss| - 1]
  }

  lemma {:induction false} FlatAppend(a: seq<string>, b: seq<string>)
    ensures Flat(a + b) == Flat(a) + Flat(b)
    decreases |b|
  {
    if b == [] {
      assert a + b == a;
    } else {
      assert (a + b)[..|a + b| - 1] == a + b[..|b| - 1];
      FlatAppend(a, b[..|b| - 1]);
    }
  }

  lemma FlatOne(s: string)
    ensures Flat([s]) == s
  {
    assert [s][..0] == [];
    assert Flat([]) + s == s;
  }

  // ----- Splitting what is too wide -----

  /** How many characters stand on a line that starts s: as many as fit, one at the least; n are known to. */
  function FitCount(face: Face, s: string, width: int, n: nat): (k: nat)
    requires 1 <= n <= |s|
    ensures n <= k <= |s|
    decreases |s| - n
  {
    if n == |s| || Over(face, s[..n + 1], width) then n else FitCount(face, s, width, n + 1)
  }

  /** The text cut into lines, each as long as fits. */
  function Chop(face: Face, s: string, width: int): (lines: seq<string>)
    ensures |lines| >= 1
    decreases |s|
  {
    if s == [] then [[]]
    else
      var k := FitCount(face, s, width, 1);
      if k == |s| then [s] else [s[..k]] + Chop(face, s[k..], width)
  }

  lemma FitStep(face: Face, s: string, width: int, m: nat)
    requires 1 <= m < |s|
    ensures FitCount(face, s, width, m) == if Over(face, s[..m + 1], width) then m else FitCount(face, s, width, m + 1)
  {
  }

  lemma ChopStep(face: Face, lines: seq<string>, s: string, width: int, m: nat)
    requires 1 <= m < |s| && FitCount(face, s, width, 1) == m
    ensures lines + Chop(face, s, width) == (lines + [s[..m]]) + Chop(face, s[m..], width)
  {
    Regroup(lines, [s[..m]], Chop(face, s[m..], width));
  }

  lemma ChopWhole(face: Face, s: string, width: int)
    requires s != [] && FitCount(face, s, width, 1) == |s|
    ensures Chop(face, s, width) == [s]
  {
  }

  /** The text before `start` is cut into lines, and what follows fits up to i - 1, where the scan stands. */
  ghost predicate Scanned(face: Face, text: string, width: int, lines: seq<string>, start: nat, i: nat) {
    && start < |text| && start < i <= |text| + 1
    && lines + Chop(face, text[start..], width) == Chop(face, text, width)
    && (i - 1 > start ==>
        FitCount(face, text[start..], width, 1) == FitCount(face, text[start..], width, i - 1 - start))
  }

  lemma ScanOn(face: Face, text: string, width: int, lines: seq<string>, start: nat, i: nat)
    requires Scanned(face, text, width, lines, start, i) && i <= |text|
    requires !(Over(face, text[start..i], width) && i - 1 > start)
    ensures Scanned(face, text, width, lines, start, i + 1)
  {
    hide Chop, Over, FitCount;
    SameParts(text, start, i);
    if i - 1 > start {
      FitStep(face, text[start..], width, i - 1 - start);
    }
  }

  lemma ScanCut(face: Face, text: string, width: int, lines: seq<string>, start: nat, i: nat)
    requires Scanned(face, text, width, lines, start, i) && i <= |text|
    requires Over(face, text[start..i], width) && i - 1 > start
    ensures Scanned(face, text, width, lines + [text[start..i - 1]], i - 1, i + 1)
  {
    hide Chop, Over, FitCount;
    SameParts(text, start, i);
    FitStep(face, text[start..], width, i - 1 - start);
    ChopStep(face, lines, text[start..], width, i - 1 - start);
  }

  lemma ScanEnd(face: Face, text: string, width: int, lines: seq<string>, start: nat)
    requires Scanned(face, text, width, lines, start, |text| + 1)
    ensures lines + [text[start..]] == Chop(face, text, width)
  {
    hide Over, FitCount;
    FitAll(face, text[start..], width);
    ChopWhole(face, text[start..], width);
  }

  method WrapTextWithFace(face: Face, text: string, width: int) returns (lines: seq<string>)
    ensures lines == Chop(face, text, width)
  {
    if text == "" {
      return [""];
    }
    hide Chop, Over, Scanned;
    lines := [];
    var start := 0;
    var i := 1;
    ScanStart(face, text, width);
    while i <= |text|
      invariant 1 <= i <= |text| + 1 && start < i && start < |text|
      invariant Scanned(face, text, width, lines, start, i)
    {
      if Over(face, text[start..i], width) && i - 1 > start {
        ScanCut(face, text, width, lines, start, i);
        lines := lines + [text[start..i - 1]];
        start := i - 1;
      } else {
        ScanOn(face, text, width, lines, start, i);
      }
      i := i + 1;
    }
    if start < |text| {
      ScanEnd(face, text, width, lines, start);
      lines := lines + [text[start..]];
    }
  }

  lemma ScanStart(face: Face, text: string, width: int)
    requires text != []
    ensures Scanned(face, text, width, [], 0, 1)
  {
    assert text[0..] == text;
    EmptyEnds(Chop(face, text, width));
  }

  lemma SameParts(text: string, start: nat, i: nat)
    requires start < i <= |text|
    ensures var s, m := text[start..], i - 1 - start;
      text[start..i] == s[..m + 1] && text[start..i - 1] == s[..m] && text[i - 1..] == s[m..]
  {
  }

  lemma FitAll(face: Face, s: string, width: int)
    requires s != []
    ensures FitCount(face, s, width, |s|) == |s|
  {
  }

  /** A line fits, or is one character. */
  predicate LineOk(face: Face, line: string, width: int) {
    |line| <= 1 || !Over(face, line, width)
  }

  lemma {:induction false} FitCountFits(face: Face, s: string, width: int, n: nat)
    requires 1 <= n <= |s| && LineOk(face, s[..n], width)
    ensures LineOk(face, s[..FitCount(face, s, width, n)], width)
    decreases |s| - n
  {
    if n < |s| && !Over(face, s[..n + 1], width) {
      FitCountFits(face, s, width, n + 1);
    }
  }

  predicate LinesOk(face: Face, lines: seq<string>, width: int) {
    forall i | 0 <= i < |lines| :: LineOk(face, lines[i], width)
  }

  predicate NoneEmpty(lines: seq<string>) {
    forall i | 0 <= i < |lines| :: lines[i] != []
  }

  /** Nothing is lost, no line is empty, and every line fits or is one character. */
  lemma {:induction false} ChopIsFaithful(face: Face, s: string, width: int)
    ensures Flat(Chop(face, s, width)) == s
    ensures LinesOk(face, Chop(face, s, width), width)
    ensures s != [] ==> NoneEmpty(Chop(face, s, width))
    decreases |s|
  {
    hide LineOk, FitCount, Flat;
    if s == [] {
      FlatOne([]);
      OneIsOk(face, [], width);
    } else {
      var k := FitCount(face, s, width, 1);
      OneIsOk(face, s[..1], width);
      FitCountFits(face, s, width, 1);
      if k == |s| {
        assert s[..k] == s;
        FlatOne(s);
      } else {
        ChopIsFaithful(face, s[k..], width);
        FlatAppend([s[..k]], Chop(face, s[k..], width));
        FlatOne(s[..k]);
        TakeDrop(s, k);
      }
    }
  }

  lemma OneIsOk(face: Face, s: string, width: int)
    requires |s| <= 1
    ensures LineOk(face, s, width)
  {
  }

  /** One character, or a line that fits, is not cut further. */
  lemma ChopStops(face: Face, s: string, width: int)
    requires LineOk(face, s, width)
    ensures Chop(face, s, width) == [s]
  {
    if |s| > 1 {
      FitsWhole(face, s, width, 1);
    }
  }

  lemma {:induction false} FitsWhole(face: Face, s: string, width: int, n: nat)
    requires 1 <= n <= |s| && !Over(face, s, width)
    ensures FitCount(face, s, width, n) == |s|
    decreases |s| - n
  {
    if n < |s| {
      PartFits(face, s, 0, n + 1, width);
      assert s[0..n + 1] == s[..n + 1];
      FitsWhole(face, s, width, n + 1);
    }
  }

  // ----- Tokens -----

  /** No line is broken before one of these. */
  const NO_LINE_START: string :=
    "、。，．,.)）" + "」』】〕〉》・：；:;" + "！？!?ー～" + "ぁぃぅぇぉっゃゅょ" + "ァィゥェォッャュョ％%"

  /** Nor after one of these. */
  const NO_LINE_END: string := "(（「『【〔〈《"

  predicate NeverStarts(c: char) {
    c in NO_LINE_START
  }

  predicate NeverEnds(c: char) {
    c in NO_LINE_END
  }

  predicate IsWord(c: char) {
    c < '\U{80}' && c != ' '
  }

  /** A line may be broken between a and b: neither is misplaced by it, and no run of letters or digits is cut. */
  predicate MayBreak(a: char, b: char) {
    !NeverEnds(a) && !NeverStarts(b) && !(IsWord(a) && IsWord(b))
  }

  /** What no line starts with: pauses, closers, marks, and small kana; and the brackets that none ends with. */
  const PAUSES: set<char> := {
    '\U{3001}', '\U{3002}', '\U{ff0c}', '\U{ff0e}', '\U{2c}', '\U{2e}', '\U{29}', '\U{ff09}'}
  const CLOSERS: set<char> := {
    '\U{300d}', '\U{300f}', '\U{3011}', '\U{3015}', '\U{3009}', '\U{300b}', '\U{30fb}', '\U{ff1a}',
    '\U{ff1b}', '\U{3a}', '\U{3b}'}
  const MARKS: set<char> := {
    '\U{ff01}', '\U{ff1f}', '\U{21}', '\U{3f}', '\U{30fc}', '\U{ff5e}'}
  const SMALL_HIRAGANA: set<char> := {
    '\U{3041}', '\U{3043}', '\U{3045}', '\U{3047}', '\U{3049}', '\U{3063}', '\U{3083}', '\U{3085}',
    '\U{3087}'}
  const SMALL_KATAKANA: set<char> := {
    '\U{30a1}', '\U{30a3}', '\U{30a5}', '\U{30a7}', '\U{30a9}', '\U{30c3}', '\U{30e3}', '\U{30e5}',
    '\U{30e7}', '\U{ff05}', '\U{25}'}
  const ENDS_NO_LINE: set<char> := {
    '\U{28}', '\U{ff08}', '\U{300c}', '\U{300e}', '\U{3010}', '\U{3014}', '\U{3008}', '\U{300a}'}

  lemma NeverStartsIff(c: char)
    ensures NeverStarts(c) <==> c in PAUSES + CLOSERS + MARKS + SMALL_HIRAGANA + SMALL_KATAKANA
  {
    if c in PAUSES + CLOSERS + MARKS + SMALL_HIRAGANA + SMALL_KATAKANA {
      MisplacedAtStart(c);
    }
  }

  lemma MisplacedAtStart(c: char)
    requires c in PAUSES + CLOSERS + MARKS + SMALL_HIRAGANA + SMALL_KATAKANA
    ensures NeverStarts(c)
  {
    if c in PAUSES {
    } else if c in CLOSERS {
    } else if c in MARKS {
    } else if c in SMALL_HIRAGANA {
    }
  }

  /** Where a line may be broken: not after an opening bracket, not before these, and not within a run of ASCII. */
  lemma {:induction false} MayBreakIff(a: char, b: char)
    ensures MayBreak(a, b) <==>
      && a !in ENDS_NO_LINE && b !in PAUSES + CLOSERS + MARKS + SMALL_HIRAGANA + SMALL_KATAKANA
      && !(a < '\U{80}' && a != '\U{20}' && b < '\U{80}' && b != '\U{20}')
  {
    hide NeverStarts;
    NeverStartsIff(b);
  }

  /** The text cut wherever a line may be broken. */
  function Tokens(text: string): (ts: seq<string>)
    ensures text != [] ==> ts != []
  {
    if text == [] then []
    else
      var n := |text| - 1;
      var front := Tokens(text[..n]);
      if n > 0 && !MayBreak(text[n - 1], text[n]) then
        front[..|front| - 1] + [front[|front| - 1] + [text[n]]]
      else front + [[text[n]]]
  }

  /**
   The tokens join to the text, are not empty, are cut from each other where a line may be
   broken, and nowhere else.
   */
  predicate Segmented(text: string, ts: seq<string>) {
    && Flat(ts) == text
    && (forall i | 0 <= i < |ts| :: ts[i] != [])
    && (forall i | 0 <= i < |ts| - 1 :: MayBreak(ts[i][|ts[i]| - 1], ts[i + 1][0]))
    && (forall i, j | 0 <= i < |ts| && 0 < j < |ts[i]| :: !MayBreak(ts[i][j - 1], ts[i][j]))
  }

  function LastRune(s: string): char
    requires s != []
  {
    s[|s| - 1]
  }

  lemma TokensStep(text: string)
    requires text != []
    ensures var n := |text| - 1; var front := Tokens(text[..n]);
      && (n > 0 <==> front != [])
      && Tokens(text) ==
        if n > 0 && !MayBreak(text[n - 1], text[n]) then front[..|front| - 1] + [front[|front| - 1] + [text[n]]]
        else front + [[text[n]]]
  {
    hide MayBreak;
  }

  /** The last token ends as the text does. */
  lemma TokensLast(text: string)
    requires text != []
    ensures var ts := Tokens(text); ts[|ts| - 1] != [] && LastRune(ts[|ts| - 1]) == LastRune(text)
  {
    hide Tokens;
    TokensStep(text);
  }

  lemma {:induction false} TokensSegment(text: string)
    ensures Segmented(text, Tokens(text))
    decreases |text|
  {
    SegmentedNone();
    hide Segmented, MayBreak, Tokens;
    if text != [] {
      var n := |text| - 1;
      TokensSegment(text[..n]);
      TokensStep(text);
      if n > 0 {
        TokensLast(text[..n]);
      }
      assert text == text[..n] + [text[n]];
      if n > 0 && !MayBreak(text[n - 1], text[n]) {
        ExtendLast(text[..n], Tokens(text[..n]), text[n]);
      } else {
        NewToken(text[..n], Tokens(text[..n]), text[n]);
      }
    }
  }

  lemma SegmentedNone()
    ensures Tokens([]) == [] && Segmented([], [])
  {
  }

  lemma ExtendLast(text: string, front: seq<string>, c: char)
    requires Segmented(text, front) && front != [] && !MayBreak(LastRune(front[|front| - 1]), c)
    ensures Segmented(text + [c], front[..|front| - 1] + [front[|front| - 1] + [c]])
  {
    hide MayBreak;
    var k := |front| - 1;
    var last, ts := front[k], front[..k] + [front[k] + [c]];
    assert ts[..k] == front[..k];
    Regroup(Flat(front[..k]), last, [c]);
    assert forall i | 0 <= i < k :: ts[i] == front[i];
    assert ts[k][0] == last[0] && forall j | 0 <= j < |last| :: ts[k][j] == last[j];
  }

  lemma NewToken(text: string, front: seq<string>, c: char)
    requires Segmented(text, front) && (front != [] ==> MayBreak(LastRune(front[|front| - 1]), c))
    ensures Segmented(text + [c], front + [[c]])
  {
    hide MayBreak;
    var ts := front + [[c]];
    assert ts[..|front|] == front;
  }

  lemma TokensNext(text: string, k: nat)
    requires k < |text|
    ensures var front := Tokens(text[..k]);
      && (k > 0 <==> front != [])
      && Tokens(text[..k + 1]) ==
        if k > 0 && !MayBreak(text[k - 1], text[k]) then front[..|front| - 1] + [front[|front| - 1] + [text[k]]]
        else front + [[text[k]]]
  {
    hide MayBreak;
    assert text[..k + 1][..k] == text[..k];
  }

  method Tokenize(text: string) returns (tokens: seq<string>)
    ensures tokens == Tokens(text)
  {
    hide NeverStarts, NeverEnds, IsWord;
    tokens := [];
    for k := 0 to |text|
      invariant tokens == Tokens(text[..k])
    {
      TokensNext(text, k);
      if k > 0 {
        TokensLast(text[..k]);
      }
      hide Tokens;
      var r, n := text[k], |tokens|;
      if n > 0 && IsWord(r) && IsWord(LastRune(tokens[n - 1])) && !NeverEnds(LastRune(tokens[n - 1])) {
        tokens := tokens[..n - 1] + [tokens[n - 1] + [r]];
      } else if n > 0 && NeverStarts(r) {
        tokens := tokens[..n - 1] + [tokens[n - 1] + [r]];
      } else if n > 0 && NeverEnds(LastRune(tokens[n - 1])) {
        tokens := tokens[..n - 1] + [tokens[n - 1] + [r]];
      } else {
        tokens := tokens + [[r]];
      }
    }
    assert text[..|text|] == text;
  }

  // ----- Filling the lines -----

  function TrimRight(s: string): string {
    if s != [] && s[|s| - 1] == ' ' then TrimRight(s[..|s| - 1]) else s
  }

  function TrimLeft(s: string): string {
    if s != [] && s[0] == ' ' then TrimLeft(s[1..]) else s
  }

  /** Only spaces go, and none is left at that end. */
  lemma {:induction false} TrimRightIs(s: string) returns (tail: string)
    ensures s == TrimRight(s) + tail && forall c | c in tail :: c == '\U{20}'
    ensures var r := TrimRight(s); r != [] ==> r[|r| - 1] != '\U{20}'
    decreases |s|
  {
    tail := [];
    if s != [] && s[|s| - 1] == ' ' {
      var n := |s| - 1;
      var less := TrimRightIs(s[..n]);
      tail := less + [s[n]];
      Regroup(TrimRight(s), less, [s[n]]);
    }
  }

  lemma {:induction false} TrimLeftIs(s: string) returns (head: string)
    ensures s == head + TrimLeft(s) && forall c | c in head :: c == '\U{20}'
    ensures var r := TrimLeft(s); r != [] ==> r[0] != '\U{20}'
    decreases |s|
  {
    head := [];
    if s != [] && s[0] == ' ' {
      var more := TrimLeftIs(s[1..]);
      head := [s[0]] + more;
      Regroup([s[0]], more, TrimLeft(s));
    }
  }

  /** Lines that are done, and the one being filled. */
  datatype Fill = Fill(lines: seq<string>, line: string)

  /** The line being filled is cut if it is too wide. */
  function Fold(face: Face, f: Fill, width: int): Fill {
    if Over(face, f.line, width) then
      var parts := Chop(face, f.line, width);
      Fill(f.lines + parts[..|parts| - 1], parts[|parts| - 1])
    else f
  }

  function Place(face: Face, f: Fill, tok: string, width: int): Fill {
    if f.line != [] && Over(face, f.line + tok, width) then Fill(f.lines + [TrimRight(f.line)], TrimLeft(tok))
    else Fill(f.lines, f.line + tok)
  }

  function FillAll(face: Face, ts: seq<string>, width: int): Fill {
    if ts == [] then Fill([], [])
    else Fold(face, Place(face, FillAll(face, ts[..|ts| - 1], width), ts[|ts| - 1], width), width)
  }

  function Wrapped(face: Face, text: string, width: int): seq<string> {
    if text == [] then [[]]
    else
      var f := FillAll(face, Tokens(text), width);
      f.lines + [TrimRight(f.line)]
  }

  /** What is left of a line that was cut needs no further cut that changes it. */
  lemma FoldOnce(face: Face, line: string, width: int)
    ensures var parts := Chop(face, line, width); LineOk(face, parts[|parts| - 1], width)
    ensures |Chop(face, line, width)| > 1 ==>
      |Chop(face, line, width)[|Chop(face, line, width)| - 1]| < |line|
  {
    ChopIsFaithful(face, line, width);
    var parts := Chop(face, line, width);
    var n := |parts| - 1;
    assert Flat(parts) == Flat(parts[..n]) + parts[n];
    if n > 0 {
      assert Flat(parts[..n]) == Flat(parts[..n][..n - 1]) + parts[n - 1];
    }
  }

  /** The loop that cuts a line too wide for the frame. */
  method FoldLine(face: Face, lines: seq<string>, line: string, width: int) returns (lines': seq<string>, line': string)
    ensures Fill(lines', line') == Fold(face, Fill(lines, line), width)
  {
    hide Over, Chop;
    lines', line' := lines, line;
    ghost var cut := false;
    while Over(face, line', width)
      invariant !cut ==> lines' == lines && line' == line
      invariant cut ==> Fill(lines', line') == Fold(face, Fill(lines, line), width) && LineOk(face, line', width)
      decreases |line'|
    {
      var parts := WrapTextWithFace(face, line', width);
      FoldOnce(face, line', width);
      if cut {
        ChopStops(face, line', width);
        assert lines' + [] == lines';
      }
      if |parts| == 1 {
        ChopSingle(face, line', width);
      }
      lines' := lines' + parts[..|parts| - 1];
      line' := parts[|parts| - 1];
      if |parts| == 1 {
        break;
      }
      cut := true;
    }
  }

  lemma ChopSingle(face: Face, s: string, width: int)
    requires |Chop(face, s, width)| == 1
    ensures Chop(face, s, width) == [s]
  {
    ChopIsFaithful(face, s, width);
    FlatOne(Chop(face, s, width)[0]);
    assert Chop(face, s, width) == [Chop(face, s, width)[0]];
  }

  method WrapJapanese(face: Face, text: string, width: int) returns (lines: seq<string>)
    ensures lines == Wrapped(face, text, width)
  {
    if text == "" {
      return [""];
    }
    var tokens := Tokenize(text);
    lines := [];
    var line := "";
    for k := 0 to |tokens|
      invariant Fill(lines, line) == FillAll(face, tokens[..k], width)
    {
      assert tokens[..k + 1][..k] == tokens[..k];
      var tok := tokens[k];
      if line != "" && Over(face, line + tok, width) {
        lines := lines + [TrimRight(line)];
        line := TrimLeft(tok);
      } else {
        line := line + tok;
      }
      lines, line := FoldLine(face, lines, line, width);
    }
    assert tokens[..|tokens|] == tokens;
    lines := lines + [TrimRight(line)];
  }
}
