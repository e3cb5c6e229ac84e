/**
 ToTwoColor: how a job in black is made one that a red/black roll accepts. What must come
 out the same is said by Draw, the labels that a command stream prints.
 */
module TwoColor {
  import opened Bytes
  import opened CommandStream

  // ----- What a command stream prints -----

  datatype Line = Dots(row: seq<byte>) | Blank | Packed(data: seq<byte>)

  /** A label: its lines of black and its lines of red, top to bottom. */
  datatype Page = Page(black: seq<Line>, red: seq<Line>)

  const EMPTY_PAGE := Page([], [])

  /** The labels printed so far, and the one whose lines are still coming in. */
  datatype Canvas = Canvas(pages: seq<Page>, open: Page)

  function Paint(cv: Canvas, c: Command): Canvas {
    match c
    case RasterLine(_, row) => cv.(open := cv.open.(black := cv.open.black + [Dots(row)]))
    case ZeroLine => cv.(open := cv.open.(black := cv.open.black + [Blank]))
    case CompressedLine(data) => cv.(open := cv.open.(black := cv.open.black + [Packed(data)]))
    case ColorLine(color, row) =>
      if color == 1 then cv.(open := cv.open.(black := cv.open.black + [Dots(row)]))
      else if color == 2 then cv.(open := cv.open.(red := cv.open.red + [Dots(row)]))
      else cv
    case Print(_) => Canvas(cv.pages + [cv.open], EMPTY_PAGE)
    case Initialize => cv.(open := EMPTY_PAGE)
    case _ => cv
  }

  function Draw(cmds: seq<Command>): Canvas {
    if cmds == [] then Canvas([], EMPTY_PAGE)
    else Paint(Draw(cmds[..|cmds| - 1]), cmds[|cmds| - 1])
  }

  // ----- The rewrite -----

  /** The commands the rewrite can convert or pass on. An unknown byte is passed on too. */
  predicate Convertible(c: Command) {
    match c
    case RasterLine(flag, _) => flag == 0
    case ColorLine(_, _) => false
    case CompressedLine(_) => false
    case ZeroLine => false
    case CompressionMode(_) => false
    case _ => true
  }

  /** One black line becomes a black and an empty red one; ESC i K is switched to two colours. */
  function Recolor(c: Command): seq<Command> {
    match c
    case RasterLine(_, row) => [ColorLine(1, row), ColorLine(2, Zeros(|row|))]
    case Setting(op, args) =>
      if op == 0x4B then [Setting(op, [ByteWithBit(args[0], 0)])] else [c]
    case _ => [c]
  }

  function RecolorAll(cmds: seq<Command>): seq<Command> {
    if cmds == [] then [] else RecolorAll(cmds[..|cmds| - 1]) + Recolor(cmds[|cmds| - 1])
  }

  /** The rewritten stream, or the offset of the command that cannot be converted. */
  datatype Conversion = Rewritten(data: seq<byte>) | Refused(at: nat)

  function Convert(data: seq<byte>): Conversion {
    var at := StopAt(data, Convertible);
    if at < |data| then Refused(at) else Rewritten(RenderAll(RecolorAll(Lex(data).cmds)))
  }

  /** The size and replacement of the command at the front of rest, if it is convertible. */
  datatype Piece = Piece(size: nat, bytes: seq<byte>) | NoPiece

  function PieceOf(rest: seq<byte>): Piece
    requires rest != []
  {
    if First(rest).Found? && Convertible(First(rest).c) then
      Piece(|Render(First(rest).c)|, RenderAll(Recolor(First(rest).c)))
    else NoPiece
  }

  /** The 'g' case: one line in, two out, the second of zeros. */
  method ConvertLine(data: seq<byte>, i: nat) returns (r: Piece)
    requires i < |data| && data[i] == 0x67
    ensures r == PieceOf(data[i..])
  {
    if i + 3 > |data| || data[i + 1] != 0x00 {
      return NoPiece;
    }
    var n: int := data[i + 2];
    if i + 3 + n > |data| {
      return NoPiece;
    }
    var row := data[i + 3..i + 3 + n];
    r := Piece(3 + n, [0x77, 0x01, n] + row + ([0x77, 0x02, n] + Zeros(n)));
    ghost var black, red: Command := ColorLine(1, row), ColorLine(2, Zeros(n));
    assert First(data[i..]) == Found(RasterLine(0, row)) by {
      assert data[i..][3..LineSize(n)] == row;
    }
    assert [black, red] == [black] + [red];
    RenderAppend([black], [red]);
    RenderSingle(black);
    RenderSingle(red);
  }

  /** The 0x1B case: copied, with the two-colour bit set in ESC i K. */
  method ConvertEscape(data: seq<byte>, i: nat) returns (r: Piece)
    requires i < |data| && data[i] == 0x1B
    ensures r == PieceOf(data[i..])
  {
    ghost var rest := data[i..];
    if i + 2 > |data| {
      return NoPiece;
    }
    if data[i + 1] == 0x40 {
      RenderSingle(Initialize);
      return Piece(2, data[i..i + 2]);
    }
    if i + 3 > |data| || data[i + 1] != 0x69 {
      return NoPiece;
    }
    var op := data[i + 2];
    var size: nat;
    if op == 0x53 {
      size := 3;
    } else if op == 0x61 || op == 0x4D || op == 0x41 || op == 0x4B {
      size := 4;
    } else if op == 0x64 {
      size := 5;
    } else if op == 0x7A {
      size := 13;
    } else {
      return NoPiece;
    }
    if i + size > |data| {
      return NoPiece;
    }
    var out := data[i..i + size];
    assert First(rest) == Found(Setting(op, rest[3..size]));
    FirstIsPrefix(rest);
    assert out == Render(First(rest).c);
    if op == 0x4B {
      out := out[3 := ByteWithBit(out[3], 0)];
      assert out == Render(Setting(op, [ByteWithBit(rest[3], 0)]));
    }
    RenderSingle(Recolor(First(rest).c)[0]);
    return Piece(size, out);
  }

  /** One turn of the rewrite: the switch on the byte at offset i. */
  method ConvertOne(data: seq<byte>, i: nat) returns (r: Piece)
    requires i < |data|
    ensures r == PieceOf(data[i..])
  {
    var c := data[i];
    if c == 0x67 {
      r := ConvertLine(data, i);
    } else if c == 0x47 || c == 0x5A || c == 0x4D || c == 0x77 {
      return NoPiece;
    } else if c == 0x1B {
      r := ConvertEscape(data, i);
    } else {
      RenderSingle(First(data[i..]).c);
      return Piece(1, [c]);
    }
  }

  lemma RecolorOne(done: seq<Command>, c: Command)
    ensures RenderAll(RecolorAll(done + [c])) == RenderAll(RecolorAll(done)) + RenderAll(Recolor(c))
  {
    assert (done + [c])[..|done|] == done;
    RenderAppend(RecolorAll(done), Recolor(c));
  }

  method ToTwoColor(data: seq<byte>) returns (r: Conversion)
    ensures r == Convert(data)
  {
    var out := [];
    var i := 0;
    ghost var done: seq<Command> := [];
    WalkStarts(data);
    while i < |data|
      invariant Walked(data, i, done) && All(done, Convertible)
      invariant out == RenderAll(RecolorAll(done))
    {
      var piece := ConvertOne(data, i);
      if piece.NoPiece? {
        WalkStops(data, i, done, Convertible);
        return Refused(i);
      }
      WalkOne(data, i, done);
      RecolorOne(done, First(data[i..]).c);
      done := done + [First(data[i..]).c];
      out, i := out + piece.bytes, i + piece.size;
    }
    WalkEnds(data, done, Convertible);
    return Rewritten(out);
  }
}
