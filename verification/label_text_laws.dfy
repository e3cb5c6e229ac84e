/**
 However a label's text is wrapped, every character of it that leaves ink is in the lines,
 in its order. Food-label text is printed as it is wrapped; a caller that allows only so
 many lines may cut what is wrapped, and for bilingual cells it is told here when.
 */
module LabelTextLaws {
  import opened LineBreaking
  import opened WrapLaws
  import opened FitText
  import opened Bilingual
  import opened BilingualLaws

  /** The text without white space. */
  function Ink(s: string): string {
    if s == [] then [] else Ink(s[..|s| - 1]) + if IsSpace(s[|s| - 1]) then [] else [s[|s| - 1]]
  }

  lemma {:induction false} InkAppend(a: string, b: string)
    ensures Ink(a + b) == Ink(a) + Ink(b)
    decreases |b|
  {
    hide IsSpace;
    if b == [] {
      assert a + b == a;
    } else {
      assert (a + b)[..|a + b| - 1] == a + b[..|b| - 1];
      InkAppend(a, b[..|b| - 1]);
    }
  }

  lemma OneInk(c: char)
    ensures Ink([c]) == if IsSpace(c) then [] else [c]
  {
    hide IsSpace;
    assert [c][..0] == [];
  }

  lemma Spaces()
    ensures IsSpace(' ') && IsSpace('\n') && IsSpace('\t') && IsSpace('\r')
  {
  }

  lemma {:induction false} InkNoSpaces(s: string)
    ensures Ink(NoSpaces(s)) == Ink(s)
    decreases |s|
  {
    hide IsSpace, Ink;
    Spaces();
    if s != [] {
      var n := |s| - 1;
      var front := s[..n];
      InkNoSpaces(front);
      InkAppend(front, [s[n]]);
      assert s == front + [s[n]];
      OneInk(s[n]);
      if s[n] == ' ' {
        assert NoSpaces(s) == NoSpaces(front);
      } else {
        assert NoSpaces(s) == NoSpaces(front) + [s[n]];
        InkAppend(NoSpaces(front), [s[n]]);
      }
    }
  }

  lemma {:induction false} InkNoBreaks(s: string)
    ensures Ink(NoBreaks(s)) == Ink(s)
    decreases |s|
  {
    hide IsSpace, Ink;
    Spaces();
    if s != [] {
      var n := |s| - 1;
      var front := s[..n];
      InkNoBreaks(front);
      InkAppend(front, [s[n]]);
      assert s == front + [s[n]];
      OneInk(s[n]);
      if s[n] == '\n' {
        assert NoBreaks(s) == NoBreaks(front);
      } else {
        assert NoBreaks(s) == NoBreaks(front) + [s[n]];
        InkAppend(NoBreaks(front), [s[n]]);
      }
    }
  }

  lemma {:induction false} InkTrimmedRight(s: string)
    ensures Ink(TrimSpaceRight(s)) == Ink(s)
    decreases |s|
  {
    hide IsSpace;
    if s != [] {
      InkTrimmedRight(s[..|s| - 1]);
    }
  }

  lemma {:induction false} InkTrimmed(s: string)
    ensures Ink(TrimSpace(s)) == Ink(s)
    decreases |s|
  {
    hide IsSpace;
    if s != [] && IsSpace(s[0]) {
      InkTrimmed(s[1..]);
      assert s == [s[0]] + s[1..];
      InkAppend([s[0]], s[1..]);
      OneInk(s[0]);
    } else {
      InkTrimmedRight(s);
    }
  }

  lemma {:induction false} InkLineEnd(s: string)
    ensures Ink(TrimLineEnd(s)) == Ink(s)
    decreases |s|
  {
    hide IsSpace;
    Spaces();
    if s != [] {
      InkLineEnd(s[..|s| - 1]);
    }
  }

  /** Lines that have the same ink pairwise have the same ink together. */
  lemma {:induction false} InkOfLines(a: seq<string>, b: seq<string>)
    requires |a| == |b| && forall i | 0 <= i < |a| :: Ink(a[i]) == Ink(b[i])
    ensures Ink(Flat(a)) == Ink(Flat(b))
    decreases |a|
  {
    hide Ink;
    if a != [] {
      var n := |a| - 1;
      InkOfLines(a[..n], b[..n]);
      InkAppend(Flat(a[..n]), a[n]);
      InkAppend(Flat(b[..n]), b[n]);
    }
  }

  lemma InkOfSplit(s: string)
    ensures Ink(Flat(Split(s))) == Ink(s)
  {
    hide Ink;
    SplitKeeps(s);
    InkNoBreaks(s);
  }

  /** Processed-food text in a frame, unwrapped or wrapped at any size. */
  lemma {:induction false} FrameTextIsWhole(text: string, face: Face, w: int)
    ensures Ink(Flat(Paragraphs(text))) == Ink(text)
    ensures Ink(Flat(WrapAll(face, Paragraphs(text), w))) == Ink(text)
  {
    hide Ink, TrimSpace, WrapAll, TrimLineEnd;
    var parts, ps := Split(TrimSpace(text)), Paragraphs(text);
    forall i | 0 <= i < |ps| ensures Ink(ps[i]) == Ink(parts[i]) {
      InkLineEnd(parts[i]);
    }
    InkOfLines(ps, parts);
    InkOfSplit(TrimSpace(text));
    InkTrimmed(text);
    WrapAllIsFaithful(face, ps, w);
    InkNoSpaces(Flat(ps));
    InkNoSpaces(Flat(WrapAll(face, ps, w)));
  }

  /** Text in a table, at any size and width. */
  lemma {:induction false} TableTextIsWhole(text: string, size: int, width: int)
    ensures Ink(Flat(TextLines(text, size, width))) == Ink(text)
  {
    hide Ink, TrimSpace, MaxChars, PiecesOfAll;
    var trimmed := TrimSpace(text);
    InkTrimmed(text);
    if trimmed == [] || width <= 0 {
      FlatOne(trimmed);
    } else {
      AllPiecesKeep(Split(trimmed), MaxChars(size, width));
      InkOfSplit(trimmed);
    }
  }

  /** Bilingual text, at any size and width. */
  lemma {:induction false} BilingualTextIsWhole(text: string, size: nat, width: int)
    ensures Ink(Flat(Laid(size, text, width))) == Ink(text)
  {
    hide Ink, Laid;
    LaidIsFaithful(size, text, width);
    if width > 0 {
      InkNoSpaces(Flat(Laid(size, text, width)));
      InkNoSpaces(NoBreaks(text));
      InkNoBreaks(text);
    } else {
      FlatOne(text);
    }
  }

  // ----- Bilingual cells of so many lines -----

  /** All of the ink of the text is in its cell if its lines are no more than are allowed. */
  lemma {:induction false} BilingualCellIsWhole(text: string, size: nat, maxLines: int, width: int)
    requires maxLines <= 0 || |Laid(size, TrimSpace(text), width)| <= maxLines
    ensures Ink(Flat(Clamped(Laid(size, TrimSpace(text), width), maxLines, size, width))) == Ink(text)
  {
    hide Ink, Laid, TrimSpace;
    BilingualTextIsWhole(TrimSpace(text), size, width);
    InkTrimmed(text);
  }

  /** A paragraph of one character is one line. */
  lemma RowsOfOne(face: Face, c: char, max: int)
    requires c !in " /"
    ensures Rows(face, Bits([c]), max) == [[c]]
  {
    assert Bits([c]) == [[c]] by {
      BitsMore([], c);
    }
    FlatOne([c]);
    assert [[c]][..1] == [[c]] && [[c]][1..] == [];
    assert Row([[c]], 1) == TrimRight([c]) == [c];
  }

  lemma RowsOfThree(face: Face, max: int)
    ensures RowsOfAll(face, [['a'], ['b'], ['c']], max) == ["a", "b", "c"]
  {
    RowsOfOne(face, 'a', max);
    RowsOfOne(face, 'b', max);
    RowsOfOne(face, 'c', max);
    hide Rows, Bits;
    var a: seq<string>, b: seq<string>, c: seq<string> := ["a"], ["a", "b"], ["a", "b", "c"];
    assert c[..2] == b && b[..1] == a && a[..0] == [];
    assert RowsOfAll(face, a, max) == ["a"];
    assert RowsOfAll(face, b, max) == ["a"] + ["b"];
  }

  lemma SplitBreak(s: string)
    ensures Split(s + ['\n']) == Split(s) + [[]]
  {
    assert (s + ['\n'])[..|s|] == s;
  }

  lemma SplitLetter(s: string, front: seq<string>, c: char)
    requires Split(s) == front + [[]] && c != '\n'
    ensures Split(s + [c]) == front + [[c]]
  {
    assert (s + [c])[..|s|] == s && [] + [c] == [c];
    assert (front + [[]])[..|front|] == front;
  }

  lemma LetterIsNoSpace(c: char)
    requires 'a' <= c <= 'z'
    ensures !IsSpace(c)
  {
  }

  lemma NoSpaceAtEnds(s: string)
    requires s != [] && !IsSpace(s[0]) && !IsSpace(s[|s| - 1])
    ensures TrimSpace(s) == s
  {
  }

  /** Three letters, each on its line. */
  function ThreeLetters(): string {
    ['a'] + ['\n'] + ['b'] + ['\n'] + ['c']
  }

  lemma ThreeTrimmed()
    ensures TrimSpace(ThreeLetters()) == ThreeLetters()
  {
    LetterIsNoSpace('a');
    LetterIsNoSpace('c');
    hide TrimSpace, IsSpace;
    NoSpaceAtEnds(ThreeLetters());
  }

  lemma OneLetter()
    ensures Split(['a']) == [['a']]
  {
    assert Split([]) == [] + [[]];
    SplitLetter([], [], 'a');
    assert [] + ['a'] == ['a'];
  }

  lemma ThreeLines()
    ensures Split(ThreeLetters()) == [['a'], ['b'], ['c']]
  {
    OneLetter();
    hide Split;
    var a, b := ['a'], ['a'] + ['\n'];
    SplitBreak(a);
    SplitLetter(b, [['a']], 'b');
    SplitBreak(b + ['b']);
    SplitLetter(b + ['b'] + ['\n'], [['a']] + [['b']], 'c');
  }

  lemma InkOfThree()
    ensures 'c' in Ink(ThreeLetters())
  {
    LetterIsNoSpace('c');
    hide Ink, IsSpace;
    InkAppend(['a'] + ['\n'] + ['b'] + ['\n'], ['c']);
    OneInk('c');
    assert Ink(['c'])[0] == 'c';
  }

  lemma {:induction false} InkIsInText(s: string, c: char)
    ensures c in Ink(s) ==> c in s
    decreases |s|
  {
    hide IsSpace;
    if s != [] {
      InkIsInText(s[..|s| - 1], c);
    }
  }

  /**
   Three short lines in a cell of two, which the warnings have: at whatever size and width the
   third is not printed.
   */
  lemma {:induction false} ThirdLineIsCut(size: nat, width: int)
    requires width > 0
    ensures var text := ThreeLetters(); var all := Laid(size, TrimSpace(text), width);
      && all == ["a", "b", "c"]
      && (Clamped(all, 2, size, width) == ["a", "b"] || Clamped(all, 2, size, width) == ["a", "b..."])
      && Ink(Flat(Clamped(all, 2, size, width))) != Ink(text)
  {
    ThreeTrimmed();
    ThreeLines();
    InkOfThree();
    RowsOfThree(Estimate(size), 96 * width);
    hide Split, TrimSpace, Bits, Rows, MaxCharsCut, Ink, ThreeLetters, RowsOfAll;
    ClampedToTwo(size, width);
    var all := Laid(size, TrimSpace(ThreeLetters()), width);
    assert all == ["a", "b", "c"];
    var r := Clamped(all, 2, size, width);
    hide Laid, Clamped;
    assert r[..1] == ["a"];
    FlatOne("a");
    assert Flat(r) == "a" + r[1];
    InkIsInText(Flat(r), 'c');
  }

  lemma ClampedToTwo(size: nat, width: int)
    ensures var r := Clamped(["a", "b", "c"], 2, size, width); r == ["a", "b"] || r == ["a", "b..."]
  {
    hide MaxCharsCut;
    var k := MaxCharsCut(size, width);
    assert ["a", "b", "c"][..1] == ["a"];
    assert TrimRight(['b']) == ['b'];
    assert ['b'] + "..." == "b...";
    var r := Clamped(["a", "b", "c"], 2, size, width);
    assert r == ["a"] + [if k <= 3 then "b" else ['b'] + "..."];
    if k <= 3 {
      assert r == ["a", "b"];
    } else {
      assert r == ["a", "b..."];
    }
  }
}
