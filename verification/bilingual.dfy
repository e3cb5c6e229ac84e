/**
 Laying out "English/Japanese" text: tokens that are never divided, packed into lines by
 an estimate of their width. Sizes are in quarter points, so the estimates of 0.55 and
 0.95 em at 300 dpi are 55/96 and 95/96 dot; widths here are in 1/96 dot.
 */
module Bilingual {
  import opened Sequences
  import opened LineBreaking
  import opened FitText

  function Estimate(size: nat): Face {
    c => if c > '\U{7f}' then 95 * size else 55 * size
  }

  // ----- Tokens -----

  datatype Kind = Blank | Slash | Word | Wide

  function KindOf(c: char): Kind {
    if c == ' ' then Blank else if c == '/' then Slash else if c > '\U{7f}' then Wide else Word
  }

  /** What counts as a word: all of ASCII but the space and the slash; what does not is wide. */
  lemma {:induction false} KindIff(c: char)
    ensures KindOf(c) == Blank <==> c == '\U{20}'
    ensures KindOf(c) == Slash <==> c == '\U{2f}'
    ensures KindOf(c) == Wide <==> c >= '\U{80}'
    ensures KindOf(c) == Word <==> c < '\U{80}' && c != '\U{20}' && c != '\U{2f}'
  {
  }

  /** How many characters of a text are outside ASCII. */
  function WideCount(s: string): nat {
    if s == [] then 0 else (if s[0] >= '\U{80}' then 1 else 0) + WideCount(s[1..])
  }

  /** The estimate of a text: 55 parts of the size for every character, and 40 more for each outside ASCII. */
  lemma {:induction false} EstimateIs(size: nat, s: string)
    ensures Width(Estimate(size), s) == size * (55 * |s| + 40 * WideCount(s))
  {
    WidthIsAdvances(Estimate(size), s);
    AdvancesAre(size, s);
  }

  lemma {:induction false} AdvancesAre(size: nat, s: string)
    ensures Advances(Estimate(size), s) == size * (55 * |s| + 40 * WideCount(s))
  {
    if s != [] {
      AdvancesAre(size, s[1..]);
      var rest := 55 * |s[1..]| + 40 * WideCount(s[1..]);
      var one := if s[0] >= '\U{80}' then 95 else 55;
      assert Estimate(size)(s[0]) == size * one;
      assert size * (one + rest) == size * one + size * rest;
    }
  }

  /** c goes on with the token t: a slash with whatever is not a space, the rest with its own kind. */
  predicate Sticks(t: string, c: char) {
    t != [] && c != ' ' && t[0] != ' ' && (c == '/' || KindOf(c) == KindOf(t[0]))
  }

  function Extend(ts: seq<string>, c: char): seq<string> {
    if ts != [] && Sticks(ts[|ts| - 1], c) then ts[..|ts| - 1] + [ts[|ts| - 1] + [c]] else ts + [[c]]
  }

  function Bits(text: string): seq<string> {
    if text == [] then [] else Extend(Bits(text[..|text| - 1]), text[|text| - 1])
  }

  /** A space by itself, or characters of one kind among which slashes may stand. */
  predicate IsBit(t: string) {
    && t != []
    && (t[0] == ' ' ==> |t| == 1)
    && forall j | 0 < j < |t| :: t[j] != ' ' && (t[j] == '/' || KindOf(t[j]) == KindOf(t[0]))
  }

  /** Cut into such tokens, and nowhere else than between kinds: a slash leads only at the start or after a space. */
  predicate Parted(ts: seq<string>) {
    && (forall i | 0 <= i < |ts| :: IsBit(ts[i]))
    && (forall i | 0 < i < |ts| :: !Sticks(ts[i - 1], ts[i][0]))
  }

  /** Parted, for a token list that grows at its end. */
  lemma PartedMore(ts: seq<string>, t: string)
    requires IsBit(t)
    ensures Parted(ts + [t]) <==> Parted(ts) && (ts != [] ==> !Sticks(ts[|ts| - 1], t[0]))
  {
    hide Sticks;
    var us := ts + [t];
    assert forall i | 0 <= i < |ts| :: us[i] == ts[i];
    if Parted(us) {
      assert forall i | 0 <= i < |ts| :: IsBit(us[i]);
      forall i | 0 < i < |ts| ensures !Sticks(ts[i - 1], ts[i][0]) {
        assert !Sticks(us[i - 1], us[i][0]);
      }
      if ts != [] {
        assert !Sticks(us[|ts| - 1], us[|ts|][0]);
      }
    }
  }

  lemma GrownBit(t: string, c: char)
    requires IsBit(t) && Sticks(t, c)
    ensures IsBit(t + [c])
  {
  }

  lemma ShrunkBit(t: string)
    requires IsBit(t) && |t| > 1
    ensures IsBit(t[..|t| - 1]) && Sticks(t[..|t| - 1], t[|t| - 1])
  {
  }

  lemma ExtendKeeps(ts: seq<string>, c: char)
    requires Parted(ts)
    ensures Parted(Extend(ts, c)) && Flat(Extend(ts, c)) == Flat(ts) + [c]
  {
    var n := |ts| - 1;
    if ts != [] && Sticks(ts[n], c) {
      GrownBit(ts[n], c);
      assert ts == ts[..n] + [ts[n]];
      hide IsBit, Sticks;
      PartedMore(ts[..n], ts[n]);
      PartedMore(ts[..n], ts[n] + [c]);
      assert (ts[..n] + [ts[n] + [c]])[..n] == ts[..n];
      Regroup(Flat(ts[..n]), ts[n], [c]);
    } else {
      assert IsBit([c]);
      hide IsBit, Sticks;
      PartedMore(ts, [c]);
      assert (ts + [[c]])[..|ts|] == ts;
    }
  }

  lemma {:induction false} BitsParted(text: string)
    ensures Parted(Bits(text)) && Flat(Bits(text)) == text
    decreases |text|
  {
    if text != [] {
      var n := |text| - 1;
      BitsParted(text[..n]);
      hide Parted, Extend;
      ExtendKeeps(Bits(text[..n]), text[n]);
    }
  }

  /** The cut the last token of a list was extended by. */
  lemma LastGrew(ts: seq<string>)
    requires ts != [] && Parted(ts)
    ensures var n := |ts| - 1; var t := ts[n];
      var less := if |t| == 1 then ts[..n] else ts[..n] + [t[..|t| - 1]];
      Parted(less) && Extend(less, t[|t| - 1]) == ts && Flat(less) + [t[|t| - 1]] == Flat(ts)
  {
    var n := |ts| - 1;
    var t := ts[n];
    var m := |t| - 1;
    assert ts == ts[..n] + [t];
    PartedMore(ts[..n], t);
    if m == 0 {
      assert t == [t[0]];
    } else {
      ShrunkBit(t);
      assert t == t[..m] + [t[m]];
      hide IsBit, Sticks, KindOf;
      PartedMore(ts[..n], t[..m]);
      assert (ts[..n] + [t[..m]])[..n] == ts[..n];
      Regroup(Flat(ts[..n]), t[..m], [t[m]]);
    }
  }

  /** There is one such cutting of a text, and it is the one made. */
  lemma {:induction false} BitsIff(text: string, ts: seq<string>)
    ensures ts == Bits(text) <==> Parted(ts) && Flat(ts) == text
    decreases |text|
  {
    BitsParted(text);
    if Parted(ts) && Flat(ts) == text {
      if ts != [] {
        var n := |ts| - 1;
        var t := ts[n];
        var less := if |t| == 1 then ts[..n] else ts[..n] + [t[..|t| - 1]];
        LastGrew(ts);
        assert text[..|text| - 1] == Flat(less) && text[|text| - 1] == t[|t| - 1];
        BitsIff(text[..|text| - 1], less);
      }
    }
  }

  lemma BitsMore(text: string, c: char)
    ensures Bits(text + [c]) == Extend(Bits(text), c)
  {
    assert (text + [c])[..|text|] == text;
  }

  // ----- Where a line may be broken after a slash -----

  /** A token ends, or begins, at offset p of what the tokens join to. */
  ghost predicate CutAt(ts: seq<string>, p: nat) {
    exists n: nat | n <= |ts| :: |Flat(ts[..n])| == p
  }

  lemma {:induction false} FlatFront(ts: seq<string>, n: nat)
    requires n <= |ts| && forall i | 0 <= i < |ts| :: ts[i] != []
    ensures n < |ts| ==> |Flat(ts[..n])| < |Flat(ts)|
    decreases |ts|
  {
    if n < |ts| {
      var m := |ts| - 1;
      if n < m {
        FlatFront(ts[..m], n);
        assert ts[..m][..n] == ts[..n];
      }
    }
  }

  /** The last token has grown by a character: no cut is in front of that, and none is lost. */
  lemma CutGrown(ts: seq<string>, us: seq<string>, m: nat, p: nat)
    requires m + 1 == |ts| == |us| && ts[..m] == us[..m] && (forall i | 0 <= i < |ts| :: ts[i] != [])
    requires p <= |Flat(ts)| < |Flat(us)|
    ensures CutAt(us, p) <==> p < |Flat(ts)| && CutAt(ts, p)
  {
    hide Flat;
    assert ts[..m + 1] == ts && us[..m + 1] == us;
    if CutAt(us, p) {
      var n: nat :| n <= |us| && |Flat(us[..n])| == p;
      assert us[..m][..n] == us[..n] && ts[..m][..n] == ts[..n];
      FlatFront(ts, n);
    }
    if p < |Flat(ts)| && CutAt(ts, p) {
      var n: nat :| n <= |ts| && |Flat(ts[..n])| == p;
      assert us[..m][..n] == us[..n] && ts[..m][..n] == ts[..n];
    }
  }

  /** A token was added: there is a cut in front of it. */
  lemma CutAdded(ts: seq<string>, us: seq<string>, p: nat)
    requires |us| == |ts| + 1 && us[..|ts|] == ts && p <= |Flat(ts)| < |Flat(us)|
    ensures CutAt(us, p) <==> p == |Flat(ts)| || CutAt(ts, p)
  {
    hide Flat;
    var m := |ts|;
    assert us[..m + 1] == us && ts[..m] == ts;
    if CutAt(us, p) {
      var n: nat :| n <= |us| && |Flat(us[..n])| == p;
      assert us[..m][..n] == us[..n];
    }
    if CutAt(ts, p) {
      var n: nat :| n <= |ts| && |Flat(ts[..n])| == p;
      assert us[..m][..n] == us[..n];
    }
  }

  lemma ExtendIs(ts: seq<string>, c: char)
    requires Parted(ts)
    ensures forall i | 0 <= i < |ts| :: ts[i] != []
    ensures var us := Extend(ts, c);
      && |Flat(us)| == |Flat(ts)| + 1
      && if ts != [] && Sticks(ts[|ts| - 1], c) then |us| == |ts| && us[..|ts| - 1] == ts[..|ts| - 1]
         else |us| == |ts| + 1 && us[..|ts|] == ts
  {
    ExtendKeeps(ts, c);
    hide Sticks, Flat;
  }

  /** One more character leaves the cuts before it where they are, and cuts in front of itself unless it sticks. */
  lemma CutExtended(ts: seq<string>, c: char, p: nat)
    requires Parted(ts) && p <= |Flat(ts)|
    ensures CutAt(Extend(ts, c), p) <==>
      if p < |Flat(ts)| then CutAt(ts, p) else ts == [] || !Sticks(ts[|ts| - 1], c)
  {
    ExtendIs(ts, c);
    hide Parted, Extend, Sticks, CutAt, Flat;
    if ts != [] && Sticks(ts[|ts| - 1], c) {
      CutGrown(ts, Extend(ts, c), |ts| - 1, p);
    } else {
      CutAdded(ts, Extend(ts, c), p);
    }
  }

  /** The token that a text ends with. */
  function LastToken(text: string): (t: string)
    ensures text != [] ==> t != []
  {
    var ts := Bits(text);
    BitsParted(text);
    if ts == [] then [] else ts[|ts| - 1]
  }

  /** The cuts of a text are where the next character does not stick to the token so far. */
  lemma {:induction false} CutsOfBits(text: string, p: nat)
    requires 0 < p < |text|
    ensures CutAt(Bits(text), p) <==> !Sticks(LastToken(text[..p]), text[p])
    decreases |text|
  {
    var n := |text| - 1;
    CutsOfFront(text, p);
    hide Sticks, CutAt, Bits, LastToken;
    if p < n {
      CutsOfBits(text[..n], p);
      assert text[..n][..p] == text[..p];
    }
  }

  lemma CutsOfFront(text: string, p: nat)
    requires 0 < p < |text|
    ensures var n := |text| - 1;
      CutAt(Bits(text), p) <==> if p < n then CutAt(Bits(text[..n]), p) else !Sticks(LastToken(text[..n]), text[n])
  {
    hide Sticks, Parted, CutAt, Extend, Bits, Flat, LastToken;
    var n := |text| - 1;
    var ts := Bits(text[..n]);
    LastCharacter(text);
    LastTokenIs(text[..n]);
    NothingSticks(text[n]);
    BitsParted(text[..n]);
    CutExtended(ts, text[n], p);
  }

  lemma LastCharacter(text: string)
    requires text != []
    ensures Bits(text) == Extend(Bits(text[..|text| - 1]), text[|text| - 1])
  {
    hide Extend;
  }

  lemma LastTokenIs(text: string)
    ensures var ts := Bits(text); LastToken(text) == if ts == [] then [] else ts[|ts| - 1]
  {
    hide Bits;
  }

  lemma NothingSticks(c: char)
    ensures !Sticks([], c)
  {
  }

  lemma SomeBits(text: string)
    ensures text != [] ==> Bits(text) != []
  {
    BitsParted(text);
  }

  /** The kind of the last character before i that is no slash; none, if there is only slashes. */
  function KindBefore(text: string, i: nat): Kind
    requires i <= |text|
  {
    if i == 0 then Slash else if text[i - 1] != '/' then KindOf(text[i - 1]) else KindBefore(text, i - 1)
  }

  /** What the slashes at the end of a text are attached to. */
  lemma {:induction false} LastBit(text: string)
    requires text != [] && text[|text| - 1] == '/'
    ensures Bits(text) != []
    ensures var t, kind := Bits(text)[|Bits(text)| - 1], KindBefore(text, |text|);
      t != [] && KindOf(t[0]) == if kind == Blank then Slash else kind
    decreases |text|
  {
    var n := |text| - 1;
    var front := text[..n];
    assert Bits(text) == Extend(Bits(front), '/') && (n == 0 ==> Bits(front) == []);
    assert KindBefore(text, n + 1) == KindBefore(text, n);
    hide Bits, Extend, Parted;
    SameKindBefore(front, text, n);
    BitsParted(front);
    SomeBits(front);
    SlashAttached(Bits(front));
    if n > 0 {
      if front[n - 1] == '/' {
        LastBit(front);
      } else {
        LastOfBit(front);
      }
    }
  }

  lemma SlashAttached(ts: seq<string>)
    requires Parted(ts)
    ensures Extend(ts, '/') != []
    ensures var t := Extend(ts, '/')[|Extend(ts, '/')| - 1];
      t != [] && KindOf(t[0]) == if ts == [] || ts[|ts| - 1][0] == ' ' then Slash else KindOf(ts[|ts| - 1][0])
  {
  }

  lemma {:induction false} SameKindBefore(a: string, b: string, i: nat)
    requires i <= |a| && a <= b
    ensures KindBefore(a, i) == KindBefore(b, i)
  {
    if i > 0 {
      SameKindBefore(a, b, i - 1);
    }
  }

  /** A token that does not end with a slash is of the kind it ends with. */
  lemma LastOfBit(text: string)
    requires text != [] && text[|text| - 1] != '/'
    ensures Bits(text) != []
    ensures var t := Bits(text)[|Bits(text)| - 1]; t != [] && KindOf(t[0]) == KindOf(text[|text| - 1])
  {
    BitsParted(text[..|text| - 1]);
  }

  /** The kind of the last token, by the last character that is no slash. */
  lemma LastTokenKind(text: string, p: nat)
    requires 0 < p <= |text|
    ensures LastToken(text[..p]) != []
    ensures KindOf(LastToken(text[..p])[0]) ==
      if text[p - 1] == '/' && KindBefore(text, p) == Blank then Slash else KindBefore(text, p)
  {
    var front := text[..p];
    assert front[p - 1] == text[p - 1];
    SameKindBefore(front, text, p);
    assert text[p - 1] != '/' ==> KindBefore(text, p) == KindOf(text[p - 1]);
    hide Bits, KindBefore, KindOf, LastToken;
    LastTokenIs(front);
    if text[p - 1] == '/' {
      LastBit(front);
    } else {
      LastOfBit(front);
    }
  }

  /**
   Where a text can be broken at all, that is, where its tokens end: at a space, before and
   after; else in front of a character other than a slash that is of another kind than the
   last before the slashes. The documentation lists spaces, slashes and single wide
   characters, and the middle of a word as a last resort.
   */
  lemma {:induction false} CutsIff(text: string, p: nat)
    requires 0 < p < |text|
    ensures CutAt(Bits(text), p) <==>
      text[p] == ' ' || text[p - 1] == ' ' || (text[p] != '/' && KindOf(text[p]) != KindBefore(text, p))
  {
    assert text[p - 1] != '/' ==> KindBefore(text, p) == KindOf(text[p - 1]);
    hide Bits, CutAt, KindBefore, LastToken, Sticks;
    CutsOfBits(text, p);
    LastTokenKind(text, p);
    SticksByKind(LastToken(text[..p]), text[p]);
  }

  lemma SticksByKind(t: string, c: char)
    requires t != []
    ensures Sticks(t, c) <==> c != ' ' && KindOf(t[0]) != Blank && (c == '/' || KindOf(c) == KindOf(t[0]))
  {
  }

  /**
   Of any slash: a line may be broken after it if a space follows, or another kind than the
   last before the slashes.
   */
  lemma {:induction false} SlashBreaksIff(text: string, i: nat)
    requires i + 1 < |text| && text[i] == '/'
    ensures CutAt(Bits(text), i + 1) <==>
      text[i + 1] == ' ' || (text[i + 1] != '/' && KindOf(text[i + 1]) != KindBefore(text, i))
  {
    hide CutAt, Bits;
    CutsIff(text, i + 1);
  }

  /** Between two wide characters there is no break, nor between two of a word: "日本" and "ab" are tokens. */
  lemma {:induction false} NoCutWithin(text: string, p: nat)
    requires 0 < p < |text| && KindOf(text[p]) == KindOf(text[p - 1]) && KindOf(text[p]) in {Wide, Word}
    ensures !CutAt(Bits(text), p)
    ensures |text| == 2 ==> Bits(text) == [text]
  {
    hide CutAt, Bits;
    CutsIff(text, p);
    if |text| == 2 {
      OneBit(text);
    }
  }

  lemma OneBit(text: string)
    requires |text| == 2 && KindOf(text[0]) == KindOf(text[1]) && KindOf(text[0]) in {Wide, Word}
    ensures Bits(text) == [text]
  {
    hide Bits;
    FlatOne(text);
    BitsIff(text, [text]);
  }

  /** So "a/b" cannot be broken, and "a/日" can. */
  lemma {:induction false} SlashInThree(x: char, y: char)
    requires x !in " /" && y !in " /"
    ensures Bits([x, '/', y]) == if KindOf(x) == KindOf(y) then [[x, '/', y]] else [[x, '/'], [y]]
  {
    BitsMore([], x);
    BitsMore([x], '/');
    BitsMore([x, '/'], y);
    assert Bits([x]) == [[x]];
    assert [x, '/'] == [x] + ['/'] && [x, '/', y] == [x, '/'] + [y];
    assert Bits([x, '/']) == [[x, '/']];
  }

  /** The token that is still open: a word, or wide characters, never both. */
  function Open(ascii: string, cjk: string): seq<string> {
    if ascii != [] then [ascii] else if cjk != [] then [cjk] else []
  }

  /** `tokens` and the open token are the tokens of the text; if none is open, the last takes nothing but slashes. */
  predicate Building(text: string, tokens: seq<string>, ascii: string, cjk: string) {
    && tokens + Open(ascii, cjk) == Bits(text)
    && (ascii == [] || cjk == [])
    && (ascii != [] ==> KindOf(ascii[0]) == Word)
    && (cjk != [] ==> KindOf(cjk[0]) == Wide)
    && (ascii == [] && cjk == [] && tokens != [] ==>
        tokens[|tokens| - 1] == " " || (tokens[|tokens| - 1] != [] && tokens[|tokens| - 1][0] == '/'))
  }

  lemma BuildStart()
    ensures Building([], [], [], [])
  {
    assert Bits([]) == [];
  }

  /** The open token is closed, and c is a token by itself, or opens one. */
  lemma BuildNext(text: string, tokens: seq<string>, ascii: string, cjk: string, c: char)
    requires Building(text, tokens, ascii, cjk)
    requires Open(ascii, cjk) != [] ==> !Sticks(Open(ascii, cjk)[0], c)
    requires Open(ascii, cjk) == [] ==> c != '/' || tokens == [] || tokens[|tokens| - 1] == " "
    ensures c in " /" ==> Building(text + [c], tokens + Open(ascii, cjk) + [[c]], [], [])
    ensures KindOf(c) == Word ==> Building(text + [c], tokens + Open(ascii, cjk), [c], [])
    ensures KindOf(c) == Wide ==> Building(text + [c], tokens + Open(ascii, cjk), [], [c])
  {
    hide Bits;
    BitsMore(text, c);
    var ts := tokens + Open(ascii, cjk);
    assert Bits(text + [c]) == ts + [[c]];
    EmptyEnds(ts + [[c]]);
  }

  /** c goes on with the token that is open. */
  lemma BuildOn(text: string, tokens: seq<string>, ascii: string, cjk: string, c: char)
    requires Building(text, tokens, ascii, cjk)
    ensures ascii != [] && Sticks(ascii, c) ==> Building(text + [c], tokens, ascii + [c], [])
    ensures cjk != [] && Sticks(cjk, c) ==> Building(text + [c], tokens, [], cjk + [c])
  {
    hide Bits;
    BitsMore(text, c);
    var ts := tokens + Open(ascii, cjk);
    if Open(ascii, cjk) != [] {
      assert ts[..|ts| - 1] == tokens;
    }
  }

  /** A slash goes on with the slash that is the last token. */
  lemma BuildSlashes(text: string, tokens: seq<string>)
    requires Building(text, tokens, [], []) && tokens != [] && tokens[|tokens| - 1] != " "
    ensures var n := |tokens| - 1;
      Building(text + ['/'], tokens[..n] + [tokens[n] + ['/']], [], [])
  {
    hide Bits;
    BitsMore(text, '/');
    EmptyEnds(tokens);
    var n := |tokens| - 1;
    EmptyEnds(tokens[..n] + [tokens[n] + ['/']]);
  }

  lemma BuildEnd(text: string, tokens: seq<string>, ascii: string, cjk: string)
    requires Building(text, tokens, ascii, cjk)
    ensures tokens + Open(ascii, cjk) == Bits(text) && (ascii == [] || cjk == [])
    ensures ascii != [] ==> KindOf(ascii[0]) == Word
    ensures cjk != [] ==> KindOf(cjk[0]) == Wide
  {
  }

  method TokenizeBilingual(text: string) returns (tokens: seq<string>)
    ensures tokens == Bits(text)
  {
    hide Bits, Building;
    tokens := [];
    var ascii, cjk := "", "";
    BuildStart();
    for i := 0 to |text|
      invariant Building(text[..i], tokens, ascii, cjk)
    {
      var r := text[i];
      assert text[..i + 1] == text[..i] + [r];
      BuildEnd(text[..i], tokens, ascii, cjk);
      if r == ' ' {
        BuildNext(text[..i], tokens, ascii, cjk, r);
        tokens := tokens + Open(ascii, cjk) + [" "];
        ascii, cjk := "", "";
      } else if r == '/' {
        if |ascii| > 0 {
          BuildOn(text[..i], tokens, ascii, cjk, r);
          ascii := ascii + [r];
        } else if |cjk| > 0 {
          BuildOn(text[..i], tokens, ascii, cjk, r);
          cjk := cjk + [r];
        } else if |tokens| > 0 && tokens[|tokens| - 1] != " " {
          BuildSlashes(text[..i], tokens);
          var n := |tokens| - 1;
          tokens := tokens[..n] + [tokens[n] + "/"];
        } else {
          BuildNext(text[..i], tokens, ascii, cjk, r);
          assert tokens + Open(ascii, cjk) == tokens;
          tokens := tokens + ["/"];
        }
      } else if r > '\U{7f}' {
        if |cjk| > 0 {
          BuildOn(text[..i], tokens, ascii, cjk, r);
          cjk := cjk + [r];
        } else {
          BuildNext(text[..i], tokens, ascii, cjk, r);
          tokens := tokens + Open(ascii, cjk);
          ascii, cjk := "", [r];
        }
      } else {
        if |ascii| > 0 {
          BuildOn(text[..i], tokens, ascii, cjk, r);
          ascii := ascii + [r];
        } else {
          BuildNext(text[..i], tokens, ascii, cjk, r);
          tokens := tokens + Open(ascii, cjk);
          ascii, cjk := [r], "";
        }
      }
    }
    assert text[..|text|] == text;
    BuildEnd(text, tokens, ascii, cjk);
    tokens := tokens + Open(ascii, cjk);
  }

  // ----- Lines -----

  /** How many tokens stand on a line that starts ts: as many as fit, one at the least; n are known to. */
  function Taken(face: Face, ts: seq<string>, max: int, n: nat): (k: nat)
    requires 1 <= n <= |ts|
    ensures n <= k <= |ts|
    decreases |ts| - n
  {
    if n == |ts| || Width(face, Flat(ts[..n + 1])) > max then n else Taken(face, ts, max, n + 1)
  }

  /** The first n tokens as a line; spaces at its end go, unless the break is at a further space. */
  function Row(ts: seq<string>, n: nat): string
    requires n <= |ts|
  {
    if n < |ts| && ts[n] == " " then Flat(ts[..n]) else TrimRight(Flat(ts[..n]))
  }

  /** The lines of a paragraph: spaces before a line are dropped, and each line takes all the tokens it can. */
  function Rows(face: Face, ts: seq<string>, max: int): seq<string> {
    if ts == [] then []
    else if ts[0] == " " then Rows(face, ts[1..], max)
    else
      var n := Taken(face, ts, max, 1);
      [Row(ts, n)] + Rows(face, ts[n..], max)
  }

  /** `lines` are set, and the line being filled holds the tokens from start up to i. */
  ghost predicate Filling(face: Face, ts: seq<string>, max: int, lines: seq<string>, start: nat, i: nat) {
    && start <= i <= |ts|
    && lines + Rows(face, ts[start..], max) == Rows(face, ts, max)
    && (start < i ==>
        ts[start] != " " && Taken(face, ts[start..], max, 1) == Taken(face, ts[start..], max, i - start))
  }

  lemma FillStart(face: Face, ts: seq<string>, max: int)
    ensures Filling(face, ts, max, [], 0, 0)
  {
    assert ts[0..] == ts;
    EmptyEnds(Rows(face, ts, max));
  }

  lemma FillSkip(face: Face, ts: seq<string>, max: int, lines: seq<string>, i: nat)
    requires Filling(face, ts, max, lines, i, i) && i < |ts| && ts[i] == " "
    ensures Filling(face, ts, max, lines, i + 1, i + 1)
  {
    DropTwice(ts, i, i + 1);
  }

  lemma FillOn(face: Face, ts: seq<string>, max: int, lines: seq<string>, start: nat, i: nat)
    requires Filling(face, ts, max, lines, start, i) && i < |ts|
    requires start == i ==> ts[i] != " "
    requires start < i ==> Width(face, Flat(ts[start..i + 1])) <= max
    ensures Filling(face, ts, max, lines, start, i + 1)
  {
    hide Rows;
    if start < i {
      SliceAfterDrop(ts, start, start, i + 1);
      assert ts[start..][..i - start + 1] == ts[start..i + 1];
    }
  }

  lemma FillBreak(face: Face, ts: seq<string>, max: int, lines: seq<string>, start: nat, i: nat)
    requires Filling(face, ts, max, lines, start, i) && start < i
    requires i < |ts| ==> Width(face, Flat(ts[start..i + 1])) > max
    ensures Filling(face, ts, max, lines + [Row(ts[start..], i - start)], i, i)
    ensures Row(ts[start..], i - start) ==
            if i < |ts| && ts[i] == " " then Flat(ts[start..i]) else TrimRight(Flat(ts[start..i]))
  {
    hide Width, Flat, TrimRight;
    var rest := ts[start..];
    var n := i - start;
    if i < |ts| {
      assert rest[..n + 1] == ts[start..i + 1];
    }
    assert rest[..n] == ts[start..i];
    assert Taken(face, rest, max, 1) == n;
    DropTwice(ts, start, i);
    assert Rows(face, rest, max) == [Row(rest, n)] + Rows(face, ts[i..], max);
    Regroup(lines, [Row(rest, n)], Rows(face, ts[i..], max));
  }

  lemma FillDone(face: Face, ts: seq<string>, max: int, lines: seq<string>, i: nat)
    requires Filling(face, ts, max, lines, i, i) && i == |ts|
    ensures lines == Rows(face, ts, max)
  {
    assert ts[i..] == [];
  }

  method WrapParagraph(face: Face, paragraph: string, max: int) returns (lines: seq<string>)
    ensures lines == Rows(face, Bits(paragraph), max)
  {
    hide Rows, Filling, Bits, TrimRight, Width, Flat;
    var tokens := TokenizeBilingual(paragraph);
    lines := [];
    var current: seq<string> := [];
    var currentW := 0;
    ghost var start := 0;
    FillStart(face, tokens, max);
    WidthOfNone(face);
    for i := 0 to |tokens|
      invariant Filling(face, tokens, max, lines, start, i)
      invariant start <= i && current == tokens[start..i]
      invariant currentW == Width(face, Flat(current))
    {
      var tok := tokens[i];
      var tokW := Width(face, tok);
      WidthWith(face, tokens, start, i);
      if tok == " " && |current| == 0 {
        FillSkip(face, tokens, max, lines, i);
        start := i + 1;
      } else if currentW + tokW > max && |current| > 0 {
        FillBreak(face, tokens, max, lines, start, i);
        start := i;
        if tok == " " {
          lines := lines + [Flat(current)];
          FillSkip(face, tokens, max, lines, i);
          start := i + 1;
          current, currentW := [], 0;
        } else {
          lines := lines + [TrimRight(Flat(current))];
          FillOn(face, tokens, max, lines, start, i);
          WidthWith(face, tokens, i, i);
          current, currentW := [tok], tokW;
        }
      } else {
        FillOn(face, tokens, max, lines, start, i);
        current := current + [tok];
        currentW := currentW + tokW;
      }
    }
    if |current| > 0 {
      FillBreak(face, tokens, max, lines, start, |tokens|);
      lines := lines + [TrimRight(Flat(current))];
      start := |tokens|;
    }
    FillDone(face, tokens, max, lines, |tokens|);
  }

  lemma WidthOfNone(face: Face)
    ensures Width(face, Flat([])) == 0
  {
  }

  lemma WidthWith(face: Face, ts: seq<string>, start: nat, i: nat)
    requires start <= i < |ts|
    ensures ts[start..i + 1] == ts[start..i] + [ts[i]]
    ensures Width(face, Flat(ts[start..i + 1])) == Width(face, Flat(ts[start..i])) + Width(face, ts[i])
  {
    var front := ts[start..i];
    assert ts[start..i + 1] == front + [ts[i]];
    assert (front + [ts[i]])[..|front|] == front;
    WidthAppend(face, Flat(front), ts[i]);
  }

  function RowsOfAll(face: Face, paragraphs: seq<string>, max: int): seq<string> {
    if paragraphs == [] then []
    else
      var n := |paragraphs| - 1;
      RowsOfAll(face, paragraphs[..n], max) + Rows(face, Bits(paragraphs[n]), max)
  }

  /** Lines of the text in a frame of `width` dots; there is at least one. */
  function Laid(size: nat, text: string, width: int): (lines: seq<string>)
    ensures |lines| >= 1
  {
    if width <= 0 then [text]
    else
      var rows := RowsOfAll(Estimate(size), Split(text), 96 * width);
      if rows == [] then [[]] else rows
  }

  method WrapBilingual(text: string, size: nat, width: int) returns (lines: seq<string>)
    ensures lines == Laid(size, text, width)
  {
    var maxPx := 96 * width;
    if maxPx <= 0 {
      return [text];
    }
    hide Rows, Bits;
    var face := Estimate(size);
    var paragraphs := Split(text);
    lines := [];
    for i := 0 to |paragraphs|
      invariant lines == RowsOfAll(face, paragraphs[..i], maxPx)
    {
      assert paragraphs[..i + 1][..i] == paragraphs[..i];
      var more := WrapParagraph(face, paragraphs[i], maxPx);
      lines := lines + more;
    }
    assert paragraphs[..|paragraphs|] == paragraphs;
    if |lines| == 0 {
      lines := [""];
    }
  }

  /** The text in a cell of maxLines lines: at the size given, whatever does not fit is cut. */
  method FitLinesBilingual(text: string, size: nat, maxLines: int, width: int) returns (lines: seq<string>)
    ensures var all := Laid(size, TrimSpace(text), width);
      lines == Clamped(all, maxLines, size, width) && (lines == all <==> maxLines <= 0 || |all| <= maxLines)
  {
    hide TrimSpace, Rows, Bits, MaxCharsCut, TrimRight;
    var trimmed := TrimSpace(text);
    if trimmed == "" {
      LaidBlank(size, width);
      return [""];
    }
    lines := WrapBilingual(trimmed, size, width);
    if maxLines <= 0 || |lines| <= maxLines {
      return;
    }
    lines := ClampLines(lines, maxLines, size, width);
  }

  lemma LaidBlank(size: nat, width: int)
    ensures Laid(size, [], width) == [[]]
  {
    var face, max := Estimate(size), 96 * width;
    assert Rows(face, Bits([]), max) == [];
    assert Split([]) == [[]] && Split([])[..0] == [];
    assert RowsOfAll(face, Split([]), max) == [];
  }
}
