/**
 What bilingual lines keep: all of the text, whole tokens, the frame, the slash off the
 start; and they are the fewest.
 */
module BilingualLaws {
  import opened Sequences
  import opened LineBreaking
  import opened WrapLaws
  import opened FitText
  import opened Bilingual

  ghost predicate AllBits(ts: seq<string>) {
    forall i | 0 <= i < |ts| :: IsBit(ts[i])
  }

  // ----- Nothing is lost, and no token is divided -----

  lemma FlatSplit(ts: seq<string>, n: nat)
    requires n <= |ts|
    ensures Flat(ts) == Flat(ts[..n]) + Flat(ts[n..])
  {
    TakeDrop(ts, n);
    FlatAppend(ts[..n], ts[n..]);
  }

  lemma FlatHead(ts: seq<string>)
    requires ts != []
    ensures Flat(ts) == ts[0] + Flat(ts[1..])
  {
    FlatSplit(ts, 1);
    assert ts[..1] == [ts[0]];
    FlatOne(ts[0]);
  }

  lemma NoSpacesInSpace()
    ensures NoSpaces(" ") == []
  {
    assert " "[..0] == [];
    assert NoSpaces([]) == [];
  }

  lemma {:induction false} RowsKeep(face: Face, ts: seq<string>, max: int)
    ensures NoSpaces(Flat(Rows(face, ts, max))) == NoSpaces(Flat(ts))
    decreases |ts|
  {
    hide NoSpaces, TrimRight, Taken, Flat;
    if ts == [] {
    } else if ts[0] == " " {
      FlatHead(ts);
      NoSpacesAppend(" ", Flat(ts[1..]));
      NoSpacesInSpace();
      RowsKeep(face, ts[1..], max);
    } else {
      var n := Taken(face, ts, max, 1);
      var row, more := Row(ts, n), Rows(face, ts[n..], max);
      RowsKeep(face, ts[n..], max);
      FlatAppend([row], more);
      FlatOne(row);
      FlatSplit(ts, n);
      TrimRightKeeps(Flat(ts[..n]));
      NoSpacesAppend(row, Flat(more));
      NoSpacesAppend(Flat(ts[..n]), Flat(ts[n..]));
    }
  }

  /** A line fits, or is one token. */
  ghost predicate RowOk(face: Face, ts: seq<string>, max: int, row: string) {
    Width(face, row) <= max || row in ts
  }

  lemma {:induction false} TakenFits(face: Face, ts: seq<string>, max: int, n: nat)
    requires 1 <= n <= |ts| && (n == 1 || Width(face, Flat(ts[..n])) <= max)
    ensures var k := Taken(face, ts, max, n); k == 1 || Width(face, Flat(ts[..k])) <= max
    decreases |ts| - n
  {
    hide Width, Flat;
    if n < |ts| && Width(face, Flat(ts[..n + 1])) <= max {
      TakenFits(face, ts, max, n + 1);
    }
  }

  lemma BitNoTrim(t: string)
    requires IsBit(t) && t != " "
    ensures TrimRight(t) == t && t[|t| - 1] != ' '
  {
    assert |t| == 1 ==> t == [t[0]];
  }

  lemma WidthTrimmed(face: Face, s: string)
    ensures Width(face, TrimRight(s)) <= Width(face, s)
  {
    hide TrimRight;
    TrimRightKeeps(s);
    var k := |TrimRight(s)|;
    assert s[..k] == TrimRight(s);
    TakeDrop(s, k);
    WidthAppend(face, s[..k], s[k..]);
  }

  lemma {:induction false} RowFits(face: Face, ts: seq<string>, max: int)
    requires AllBits(ts) && ts != [] && ts[0] != " "
    ensures RowOk(face, ts, max, Row(ts, Taken(face, ts, max, 1)))
  {
    hide Width, Flat, Taken, IsBit, TrimRight;
    var n := Taken(face, ts, max, 1);
    TakenFits(face, ts, max, 1);
    WidthTrimmed(face, Flat(ts[..n]));
    if n == 1 {
      assert IsBit(ts[0]);
      assert ts[..1] == [ts[0]];
      FlatOne(ts[0]);
      BitNoTrim(ts[0]);
      assert Row(ts, n) == ts[0];
    }
  }

  lemma {:induction false} RowsFit(face: Face, ts: seq<string>, max: int)
    requires AllBits(ts)
    ensures forall row | row in Rows(face, ts, max) :: RowOk(face, ts, max, row)
    decreases |ts|
  {
    hide Width, Taken, IsBit, Row;
    if ts == [] {
    } else if ts[0] == " " {
      RowsFit(face, ts[1..], max);
    } else {
      var n := Taken(face, ts, max, 1);
      RowFits(face, ts, max);
      RowsFit(face, ts[n..], max);
      forall row | row in Rows(face, ts, max) ensures RowOk(face, ts, max, row) {
        if row in Rows(face, ts[n..], max) {
          assert RowOk(face, ts[n..], max, row);
        }
      }
    }
  }

  // ----- A slash does not start a line -----

  /** A line starts as one of the tokens does, and not with a space. */
  ghost predicate StartsAsToken(ts: seq<string>, row: string) {
    row != [] && row[0] != ' ' && exists k | 0 <= k < |ts| :: ts[k] != [] && ts[k][0] == row[0]
  }

  lemma {:induction false} TrimKeepsHead(s: string)
    requires s != [] && s[0] != ' '
    ensures TrimRight(s) != [] && TrimRight(s)[0] == s[0]
    decreases |s|
  {
    if s[|s| - 1] == ' ' {
      TrimKeepsHead(s[..|s| - 1]);
    }
  }

  lemma RowHead(ts: seq<string>, n: nat)
    requires AllBits(ts) && 1 <= n <= |ts| && ts[0] != " "
    ensures StartsAsToken(ts, Row(ts, n))
  {
    hide TrimRight, Flat;
    assert IsBit(ts[0]);
    assert |ts[0]| == 1 ==> ts[0] == [ts[0][0]];
    var first := ts[..n];
    FlatHead(first);
    TrimKeepsHead(Flat(first));
  }

  lemma {:induction false} RowHeads(face: Face, ts: seq<string>, max: int)
    requires AllBits(ts)
    ensures forall row | row in Rows(face, ts, max) :: StartsAsToken(ts, row)
    decreases |ts|
  {
    hide Width, Taken, IsBit, Row;
    if ts == [] {
    } else if ts[0] == " " {
      RowHeads(face, ts[1..], max);
      forall row | row in Rows(face, ts, max) ensures StartsAsToken(ts, row) {
        StartsFurther(ts, 1, row);
      }
    } else {
      var n := Taken(face, ts, max, 1);
      RowHead(ts, n);
      RowHeads(face, ts[n..], max);
      forall row | row in Rows(face, ts, max) ensures StartsAsToken(ts, row) {
        if row in Rows(face, ts[n..], max) {
          StartsFurther(ts, n, row);
        }
      }
    }
  }

  lemma StartsFurther(ts: seq<string>, n: nat, row: string)
    requires n <= |ts| && StartsAsToken(ts[n..], row)
    ensures StartsAsToken(ts, row)
  {
    var k :| 0 <= k < |ts[n..]| && ts[n..][k] != [] && ts[n..][k][0] == row[0];
    assert ts[n + k] == ts[n..][k];
  }

  /** A slash at the start, or after a space. */
  predicate LooseSlash(text: string) {
    exists i | 0 <= i < |text| :: text[i] == '/' && (i == 0 || text[i - 1] == ' ')
  }

  lemma TokenSlash(ts: seq<string>, k: nat)
    requires Parted(ts) && k < |ts| && ts[k] != [] && ts[k][0] == '/'
    ensures LooseSlash(Flat(ts))
  {
    hide Flat;
    FlatSplit(ts, k);
    FlatHead(ts[k..]);
    var before := Flat(ts[..k]);
    var text := Flat(ts);
    assert text[|before|] == '/';
    if k > 0 {
      assert !Sticks(ts[k - 1], ts[k][0]) && IsBit(ts[k - 1]);
      assert ts[k - 1][0] == ' ';
      assert ts[..k][..k - 1] == ts[..k - 1];
      FlatLast(ts[..k]);
      assert text[|before| - 1] == ' ';
    } else {
      assert ts[..0] == [];
      FlatNone();
    }
  }

  /** No line of a paragraph starts with a slash, unless the paragraph does or has a space before one. */
  lemma {:induction false} SlashNeverLeads(face: Face, paragraph: string, max: int)
    requires !LooseSlash(paragraph)
    ensures forall row | row in Rows(face, Bits(paragraph), max) :: row != [] && row[0] != '/'
  {
    hide Rows, Bits, LooseSlash, IsBit;
    var ts := Bits(paragraph);
    BitsParted(paragraph);
    RowHeads(face, ts, max);
    forall row | row in Rows(face, ts, max) ensures row != [] && row[0] != '/' {
      assert StartsAsToken(ts, row);
      var k :| 0 <= k < |ts| && ts[k] != [] && ts[k][0] == row[0];
      if row[0] == '/' {
        TokenSlash(ts, k);
      }
    }
  }

  // ----- The whole text -----

  /** A line fits the frame, or is a token of one of the paragraphs. */
  ghost predicate LineFits(face: Face, paragraphs: seq<string>, max: int, line: string) {
    Width(face, line) <= max || exists p | 0 <= p < |paragraphs| :: line in Bits(paragraphs[p])
  }

  lemma FitsFurther(face: Face, paragraphs: seq<string>, last: string, max: int, line: string)
    requires LineFits(face, paragraphs, max, line) || RowOk(face, Bits(last), max, line)
    ensures LineFits(face, paragraphs + [last], max, line)
  {
    hide Width, Bits;
    var all := paragraphs + [last];
    assert all[|paragraphs|] == last;
    if exists p | 0 <= p < |paragraphs| :: line in Bits(paragraphs[p]) {
      var p :| 0 <= p < |paragraphs| && line in Bits(paragraphs[p]);
      assert line in Bits(all[p]);
    }
  }

  lemma {:induction false} AllRows(face: Face, paragraphs: seq<string>, max: int)
    ensures NoSpaces(Flat(RowsOfAll(face, paragraphs, max))) == NoSpaces(Flat(paragraphs))
    ensures forall line | line in RowsOfAll(face, paragraphs, max) :: LineFits(face, paragraphs, max, line)
    decreases |paragraphs|
  {
    hide Width, Bits, NoSpaces, Rows, RowOk, LineFits;
    if paragraphs != [] {
      var n := |paragraphs| - 1;
      var front, last := paragraphs[..n], paragraphs[n];
      assert paragraphs == front + [last];
      AllRows(face, front, max);
      BitsParted(last);
      RowsKeep(face, Bits(last), max);
      RowsFit(face, Bits(last), max);
      FlatAppend(RowsOfAll(face, front, max), Rows(face, Bits(last), max));
      NoSpacesAppend(Flat(RowsOfAll(face, front, max)), Flat(Rows(face, Bits(last), max)));
      NoSpacesAppend(Flat(front), last);
      forall line | line in RowsOfAll(face, paragraphs, max) ensures LineFits(face, paragraphs, max, line) {
        FitsFurther(face, front, last, max, line);
      }
    }
  }

  /** But for spaces and line breaks, the lines are the text; each fits the frame or is one token. */
  lemma {:induction false} LaidIsFaithful(size: nat, text: string, width: int)
    ensures width > 0 ==> NoSpaces(Flat(Laid(size, text, width))) == NoSpaces(NoBreaks(text))
    ensures width > 0 ==> forall line | line in Laid(size, text, width) ::
                            LineFits(Estimate(size), Split(text), 96 * width, line)
    ensures width <= 0 ==> Laid(size, text, width) == [text]
  {
    hide Width, Bits, NoSpaces, Rows, NoBreaks;
    if width > 0 {
      AllRows(Estimate(size), Split(text), 96 * width);
      SplitKeeps(text);
      EmptyLine(Estimate(size));
    }
  }

  /** The line is one of the tokens. */
  ghost predicate IsToken(paragraphs: seq<string>, line: string) {
    exists p | 0 <= p < |paragraphs| :: line in Bits(paragraphs[p])
  }

  lemma FitsInNumbers(size: nat, paragraphs: seq<string>, max: int, line: string)
    requires LineFits(Estimate(size), paragraphs, max, line)
    ensures size * (55 * |line| + 40 * WideCount(line)) <= max || IsToken(paragraphs, line)
  {
    hide Width, Bits, WideCount;
    EstimateIs(size, line);
  }

  /** In numbers: a line is a token, or its characters are estimated to fit, in 96ths of a dot. */
  lemma {:induction false} LaidLinesFit(size: nat, text: string, width: int)
    requires width > 0
    ensures forall line | line in Laid(size, text, width) ::
      size * (55 * |line| + 40 * WideCount(line)) <= 96 * width || IsToken(Split(text), line)
  {
    hide Laid, Width, Bits, Split, WideCount, NoSpaces, NoBreaks, LineFits, IsToken;
    LaidIsFaithful(size, text, width);
    forall line | line in Laid(size, text, width)
      ensures size * (55 * |line| + 40 * WideCount(line)) <= 96 * width || IsToken(Split(text), line)
    {
      FitsInNumbers(size, Split(text), 96 * width, line);
    }
  }

  lemma EmptyLine(face: Face)
    ensures Width(face, []) == 0 && Flat([[]]) == Flat([])
  {
    FlatOne([]);
  }

  // ----- As few lines as there can be -----

  /** The tokens can be set on m lines, each fitting; spaces before a line are left out. */
  ghost predicate Settable(face: Face, ts: seq<string>, max: int, m: nat)
    decreases |ts|, m
  {
    || ts == []
    || (ts[0] == " " && Settable(face, ts[1..], max, m))
    || (m > 0 && exists k | 0 < k <= |ts| :: Width(face, Flat(ts[..k])) <= max && Settable(face, ts[k..], max, m - 1))
  }

  lemma {:induction false} OneLineMore(face: Face, ts: seq<string>, max: int, m: nat)
    requires Settable(face, ts, max, m)
    ensures Settable(face, ts, max, m + 1)
    decreases |ts|, m
  {
    hide Width, Flat;
    if ts == [] {
    } else if ts[0] == " " && Settable(face, ts[1..], max, m) {
      OneLineMore(face, ts[1..], max, m);
    } else {
      var k :| 0 < k <= |ts| && Width(face, Flat(ts[..k])) <= max && Settable(face, ts[k..], max, m - 1);
      OneLineMore(face, ts[k..], max, m - 1);
    }
  }

  lemma WithoutFirst(face: Face, ts: seq<string>, k: nat, max: int)
    requires 0 < k <= |ts| && Width(face, Flat(ts[..k])) <= max
    ensures Width(face, Flat(ts[1..][..k - 1])) <= max
  {
    FlatHead(ts[..k]);
    assert ts[..k][1..] == ts[1..][..k - 1];
    WidthAppend(face, ts[0], Flat(ts[1..][..k - 1]));
  }

  /** Leaving the first token out needs no more lines. */
  lemma FirstLeftOut(face: Face, ts: seq<string>, max: int, m: nat)
    requires ts != [] && Settable(face, ts, max, m)
    ensures Settable(face, ts[1..], max, m)
  {
    hide Width, Flat;
    if ts[0] == " " && Settable(face, ts[1..], max, m) {
    } else {
      var k :| 0 < k <= |ts| && Width(face, Flat(ts[..k])) <= max && Settable(face, ts[k..], max, m - 1);
      if k == 1 {
        OneLineMore(face, ts[1..], max, m - 1);
      } else {
        WithoutFirst(face, ts, k, max);
        assert ts[1..][k - 1..] == ts[k..];
      }
    }
  }

  lemma {:induction false} SomeLeftOut(face: Face, ts: seq<string>, max: int, m: nat, n: nat)
    requires n <= |ts| && Settable(face, ts, max, m)
    ensures Settable(face, ts[n..], max, m)
    decreases n
  {
    hide Settable;
    if n == 0 {
      assert ts[0..] == ts;
    } else {
      FirstLeftOut(face, ts, max, m);
      SomeLeftOut(face, ts[1..], max, m, n - 1);
      assert ts[1..][n - 1..] == ts[n..];
    }
  }

  lemma PrefixFits(face: Face, ts: seq<string>, k: nat, n: nat, max: int)
    requires n <= k <= |ts| && Width(face, Flat(ts[..k])) <= max
    ensures Width(face, Flat(ts[..n])) <= max
  {
    FlatSplit(ts[..k], n);
    assert ts[..k][..n] == ts[..n];
    WidthAppend(face, Flat(ts[..n]), Flat(ts[..k][n..]));
  }

  /** A line of k tokens that fits is no longer than the line that is set. */
  lemma {:induction false} TakenIsMost(face: Face, ts: seq<string>, max: int, n: nat, k: nat)
    requires 1 <= n <= |ts| && k <= |ts| && Width(face, Flat(ts[..k])) <= max
    ensures Taken(face, ts, max, n) >= k
    decreases |ts| - n
  {
    hide Width, Flat;
    if n < k {
      PrefixFits(face, ts, k, n + 1, max);
      TakenIsMost(face, ts, max, n + 1, k);
    }
  }

  /** However the paragraph can be set on lines that fit, it takes at least as many as it is given. */
  lemma {:induction false} RowsAreFewest(face: Face, ts: seq<string>, max: int, m: nat)
    requires Settable(face, ts, max, m)
    ensures |Rows(face, ts, max)| <= m
    decreases |ts|
  {
    hide Width, Flat, Row;
    if ts == [] {
    } else if ts[0] == " " {
      FirstLeftOut(face, ts, max, m);
      RowsAreFewest(face, ts[1..], max, m);
    } else {
      var k :| 0 < k <= |ts| && Width(face, Flat(ts[..k])) <= max && Settable(face, ts[k..], max, m - 1);
      var n := Taken(face, ts, max, 1);
      TakenIsMost(face, ts, max, 1, k);
      SomeLeftOut(face, ts[k..], max, m - 1, n - k);
      assert ts[k..][n - k..] == ts[n..];
      RowsAreFewest(face, ts[n..], max, m - 1);
    }
  }

  /** If every token fits, the lines given are such a setting. */
  lemma {:induction false} RowsAreASetting(face: Face, ts: seq<string>, max: int)
    requires forall i | 0 <= i < |ts| :: Width(face, ts[i]) <= max
    ensures Settable(face, ts, max, |Rows(face, ts, max)|)
    decreases |ts|
  {
    hide Width, Flat, Row;
    if ts == [] {
    } else if ts[0] == " " {
      RowsAreASetting(face, ts[1..], max);
    } else {
      var n := Taken(face, ts, max, 1);
      TakenFits(face, ts, max, 1);
      assert ts[..1] == [ts[0]];
      FlatOne(ts[0]);
      RowsAreASetting(face, ts[n..], max);
      assert Width(face, Flat(ts[..n])) <= max;
    }
  }
}
