/** Writing blocks as lines, and reading them back. */
module MarkdownRendering {
  import opened Common
  import opened Strings
  import opened Inline
  import opened InlinePatterns
  import opened InlineRendering
  import opened LinePatterns
  import opened Markdown

  type Tokens = seq<Token>

  /** Tokens that can stand behind a mark and a space. */
  ghost predicate OnOneLine(ts: Tokens) {
    Separate(ts) && Rest(RenderAll(ts))
  }

  predicate OpensFence(line: string) {
    |line| >= 3 && line[0] == '`' && line[1] == '`' && line[2] == '`'
  }

  /** A line of text that no pattern fits. */
  ghost predicate IsPlainLine(line: string) {
    && !OpensFence(line) && !AllSpace(line)
    && (forall k, t :: !IsHeading(line, k, t)) && (forall t :: !IsQuote(line, t))
    && (forall ordered, t :: !IsItemOf(line, ordered, t))
  }

  ghost predicate WritesItem(line: string, ordered: bool, item: Tokens) {
    OnOneLine(item) && exists mark :: IsMark(mark, ordered) && line == mark + " " + RenderAll(item)
  }

  /** The lines are a way to write the block. */
  ghost predicate Writes(lines: seq<string>, b: Block) {
    NoBreaks(lines) &&
    match b
    case Heading(k, ts) => 1 <= k <= 6 && OnOneLine(ts) && lines == [Hashes(k) + " " + RenderAll(ts)]
    case Quote(ts) => Separate(ts) && Dots(RenderAll(ts)) && lines == ["> " + RenderAll(ts)]
    case List(ordered, items) =>
      lines != [] && |lines| == |items| && forall i :: 0 <= i < |lines| ==> WritesItem(lines[i], ordered, items[i])
    case Code(content) =>
      var body := SplitLines(content);
      (forall l :: l in body ==> !OpensFence(l))
      && exists open, close :: OpensFence(open) && OpensFence(close) && lines == [open] + body + [close]
    case Paragraph(ts) =>
      lines != [] && (forall l :: l in lines ==> IsPlainLine(l)) && Separate(ts) && Join(lines, " ") == RenderAll(ts)
  }

  // ---------------------------------------------------------------- one block

  function PieceOf(lines: seq<string>, b: Block): Piece
    requires lines != []
  {
    match b
    case Heading(_, _) => HeadingPiece(lines[0])
    case Quote(_) => QuotePiece(lines[0])
    case List(ordered, _) => ListPiece(ordered, lines)
    case Code(_) =>
      if |lines| >= 2 then FencePiece(lines[0], lines[1..|lines| - 1], Some(lines[|lines| - 1]))
      else FencePiece(lines[0], [], None)
    case Paragraph(_) => ParagraphPiece(lines)
  }

  /** The lines are those of one piece, which becomes that block. */
  ghost predicate IsPieceOf(p: Piece, lines: seq<string>, b: Block) {
    WellFormed(p) && LinesOf(p) == lines && BlocksOf(p) == [b] && !p.BlankPiece? && (p.FencePiece? ==> p.close.Some?)
  }

  lemma WrittenHeading(lines: seq<string>, k: nat, ts: Tokens)
    requires Writes(lines, Heading(k, ts))
    ensures IsPieceOf(HeadingPiece(lines[0]), lines, Heading(k, ts))
  {
    hide KindOf, Separate, RenderAll, Inline.Tokens, Dots;
    assert Gap(" ");
    assert IsHeading(lines[0], k, RenderAll(ts));
    KindIff(lines[0]);
    RenderedParsesBack(ts);
  }

  lemma WrittenQuote(lines: seq<string>, ts: Tokens)
    requires Writes(lines, Quote(ts))
    ensures IsPieceOf(QuotePiece(lines[0]), lines, Quote(ts))
  {
    hide KindOf, Separate, RenderAll, Inline.Tokens, Dots;
    assert "> " == ['>', ' '] && IsSpace(' ');
    assert IsQuote(lines[0], RenderAll(ts));
    KindIff(lines[0]);
    RenderedParsesBack(ts);
  }

  lemma WrittenItem(line: string, ordered: bool, item: Tokens)
    requires WritesItem(line, ordered, item)
    ensures KindOf(line) == Item(ordered, RenderAll(item)) && Inline.Tokens(RenderAll(item)) == item
  {
    hide KindOf, Separate, RenderAll, Inline.Tokens, IsMark;
    assert Gap(" ");
    var mark :| IsMark(mark, ordered) && line == mark + " " + RenderAll(item);
    assert IsItemOf(line, ordered, RenderAll(item));
    KindIff(line);
    RenderedParsesBack(item);
  }

  lemma WrittenList(lines: seq<string>, ordered: bool, items: seq<Tokens>)
    requires Writes(lines, List(ordered, items))
    ensures IsPieceOf(ListPiece(ordered, lines), lines, List(ordered, items))
  {
    hide KindOf, RenderAll, Inline.Tokens, WritesItem;
    forall i | 0 <= i < |lines|
      ensures KindOf(lines[i]) == Item(ordered, RenderAll(items[i])) && Inline.Tokens(RenderAll(items[i])) == items[i]
    {
      WrittenItem(lines[i], ordered, items[i]);
    }
    assert ItemTokens(lines) == items;
  }

  lemma WrittenCode(lines: seq<string>, content: string)
    requires Writes(lines, Block.Code(content))
    ensures lines != [] && IsPieceOf(PieceOf(lines, Block.Code(content)), lines, Block.Code(content))
  {
    hide KindOf, SplitLines, Join;
    var body := SplitLines(content);
    var open, close :| OpensFence(open) && OpensFence(close) && lines == [open] + body + [close];
    assert lines[1..|lines| - 1] == body;
    KindIff(open);
    KindIff(close);
    forall l | l in body
      ensures KindOf(l) != Fence
    {
      KindIff(l);
    }
    LinesMakeSource(content);
  }

  lemma WrittenParagraph(lines: seq<string>, ts: Tokens)
    requires Writes(lines, Paragraph(ts))
    ensures IsPieceOf(ParagraphPiece(lines), lines, Paragraph(ts))
  {
    hide KindOf, Separate, RenderAll, Inline.Tokens, Join, IsHeading, IsQuote, IsItemOf, AllSpace;
    forall l | l in lines
      ensures KindOf(l) == Prose
    {
      KindIff(l);
      PlainIsProse(l);
    }
    RenderedParsesBack(ts);
  }

  lemma PlainIsProse(line: string)
    requires IsPlainLine(line)
    ensures KindOf(line) == Prose
  {
    hide KindOf, IsHeading, IsQuote, IsItemOf, AllSpace;
    KindIff(line);
    KindFits(line);
  }

  lemma KindFits(line: string)
    ensures KindOf(line).HeadingLine? ==> exists k, t :: IsHeading(line, k, t)
    ensures KindOf(line).QuoteLine? ==> exists t :: IsQuote(line, t)
    ensures KindOf(line).Item? ==> exists ordered, t :: IsItemOf(line, ordered, t)
  {
    hide KindOf, IsHeading, IsQuote, IsItemOf, AllSpace;
    KindIff(line);
    match KindOf(line) {
      case HeadingLine(k, t) => assert IsHeading(line, k, t);
      case QuoteLine(t) => assert IsQuote(line, t);
      case Item(ordered, t) => assert IsItemOf(line, ordered, t);
      case _ =>
    }
  }

  lemma WrittenPiece(lines: seq<string>, b: Block)
    requires Writes(lines, b)
    ensures lines != [] && IsPieceOf(PieceOf(lines, b), lines, b)
  {
    hide IsPieceOf;
    match b {
      case Heading(k, ts) => WrittenHeading(lines, k, ts);
      case Quote(ts) => WrittenQuote(lines, ts);
      case List(ordered, items) => WrittenList(lines, ordered, items);
      case Code(content) => WrittenCode(lines, content);
      case Paragraph(ts) => WrittenParagraph(lines, ts);
    }
    hide Writes;
  }

  // ---------------------------------------------------------------- a document

  /** The blocks' lines, with an empty line between two blocks. */
  function Separated(texts: seq<seq<string>>): seq<string> {
    if texts == [] then []
    else if |texts| == 1 then texts[0]
    else texts[0] + [""] + Separated(texts[1..])
  }

  function PiecesOf(texts: seq<seq<string>>, blocks: seq<Block>): seq<Piece>
    requires |texts| == |blocks| && forall i :: 0 <= i < |texts| ==> texts[i] != []
  {
    if texts == [] then []
    else if |texts| == 1 then [PieceOf(texts[0], blocks[0])]
    else [PieceOf(texts[0], blocks[0])] + ([BlankPiece("")] + PiecesOf(texts[1..], blocks[1..]))
  }

  ghost predicate AllWritten(texts: seq<seq<string>>, blocks: seq<Block>) {
    |texts| == |blocks| && forall i :: 0 <= i < |texts| ==> texts[i] != [] && Writes(texts[i], blocks[i])
  }

  lemma FlattenOne(p: Piece, ps: seq<Piece>)
    ensures Flatten([p] + ps) == LinesOf(p) + Flatten(ps)
    ensures Blocks([p] + ps) == BlocksOf(p) + Blocks(ps)
  {
    assert ([p] + ps)[1..] == ps;
  }

  lemma EmptyLineIsBlank()
    ensures WellFormed(BlankPiece("")) && LinesOf(BlankPiece("")) == [""] && BlocksOf(BlankPiece("")) == []
  {
    hide KindOf;
    KindIff("");
  }

  /** The pieces are canonical, and have those lines and those blocks. */
  lemma {:induction false} PiecesFit(texts: seq<seq<string>>, blocks: seq<Block>)
    requires AllWritten(texts, blocks)
    ensures var ps := PiecesOf(texts, blocks);
            Canonical(ps) && Flatten(ps) == Separated(texts) && Blocks(ps) == blocks
            && (ps != [] <==> texts != [])
  {
    hide Writes, KindOf, WellFormed, LinesOf, BlocksOf, PieceOf, Canonical;
    if texts == [] {
      NoPieces();
    } else {
      var p := PieceOf(texts[0], blocks[0]);
      WrittenPiece(texts[0], blocks[0]);
      NoPieces();
      if |texts| == 1 {
        FlattenOne(p, []);
        assert [p] + [] == [p] && blocks == [blocks[0]];
        CanonicalFrom(p, []);
      } else {
        var qs := PiecesOf(texts[1..], blocks[1..]);
        PiecesFit(texts[1..], blocks[1..]);
        EmptyLineIsBlank();
        CanonicalFrom(BlankPiece(""), qs);
        CanonicalFrom(p, [BlankPiece("")] + qs);
        FlattenOne(BlankPiece(""), qs);
        FlattenOne(p, [BlankPiece("")] + qs);
        assert blocks == [blocks[0]] + blocks[1..];
        assert texts[0] + ([""] + Separated(texts[1..])) == texts[0] + [""] + Separated(texts[1..]);
      }
    }
  }

  lemma NoPieces()
    ensures Canonical([]) && Flatten([]) == [] && Blocks([]) == []
  {
  }

  lemma {:induction false} SeparatedHasNoBreaks(texts: seq<seq<string>>, blocks: seq<Block>)
    requires AllWritten(texts, blocks)
    ensures NoBreaks(Separated(texts)) && (texts != [] ==> Separated(texts) != [])
  {
    if |texts| > 1 {
      assert Writes(texts[0], blocks[0]);
      SeparatedHasNoBreaks(texts[1..], blocks[1..]);
    } else if |texts| == 1 {
      assert Writes(texts[0], blocks[0]);
    }
  }

  lemma EmptySourceHasNoBlocks()
    ensures Blocks(Parse(SplitLines(""))) == []
  {
    hide KindOf;
    KindIff("");
    assert [""][1..] == [];
    assert Parse([""]) == [BlankPiece("")] + Parse([]);
  }

  /** Blocks that are written as lines, one after the other with an empty line between two, are read back
      unchanged: none is split, merged or taken for another sort, and every heading keeps its level,
      every list its sort and its items. */
  lemma RenderedBlocksParseBack(texts: seq<seq<string>>, blocks: seq<Block>)
    requires AllWritten(texts, blocks)
    ensures Blocks(Parse(SplitLines(Join(Separated(texts), "\n")))) == blocks
  {
    hide Writes, KindOf, SplitLines, Parse, Blocks, Flatten, Canonical, Join;
    if texts == [] {
      EmptyBlocks(texts, blocks);
      EmptySourceHasNoBlocks();
    } else {
      PiecesFit(texts, blocks);
      SeparatedHasNoBreaks(texts, blocks);
      LinesAreUnique(Separated(texts));
      OnlyOneCanonicalCut(PiecesOf(texts, blocks));
    }
  }

  lemma EmptyBlocks(texts: seq<seq<string>>, blocks: seq<Block>)
    requires AllWritten(texts, blocks) && texts == []
    ensures blocks == [] && Join(Separated(texts), "\n") == ""
  {
  }

  lemma PlainRenders(text: string)
    ensures RenderAll([PlainText(text)]) == text
  {
    assert [PlainText(text)][1..] == [];
    assert text + "" == text;
  }

  lemma PlainOnOneLine(text: string)
    requires Simple(PlainText(text)) && Rest(text)
    ensures OnOneLine([PlainText(text)])
  {
    PlainRenders(text);
  }

  lemma TitleIsWritten()
    ensures Writes(["# Title"], Heading(1, [PlainText("Title")]))
  {
    PlainRenders("Title");
    PlainOnOneLine("Title");
    hide OnOneLine, Dots, RenderAll;
    assert Hashes(1) == "#" && "#" + " " + "Title" == "# Title";
  }

  lemma PlainItem(mark: string, text: string)
    requires IsMark(mark, true) && Simple(PlainText(text)) && Rest(text)
    ensures WritesItem(mark + " " + text, true, [PlainText(text)])
  {
    PlainRenders(text);
    PlainOnOneLine(text);
    hide OnOneLine, IsMark, RenderAll;
  }

  lemma ListIsWritten()
    ensures Writes(["1. a", "2. b"], List(true, [[PlainText("a")], [PlainText("b")]]))
  {
    PlainItem("1.", "a");
    PlainItem("2.", "b");
    hide WritesItem;
    assert "1." + " " + "a" == "1. a" && "2." + " " + "b" == "2. b";
  }

  /** A title and a list of two items. */
  lemma TitleAndList()
    ensures Blocks(Parse(SplitLines("# Title\n\n1. a\n2. b")))
      == [Heading(1, [PlainText("Title")]), List(true, [[PlainText("a")], [PlainText("b")]])]
  {
    hide Writes, Blocks, Parse, SplitLines, Join, Separated;
    var blocks := [Heading(1, [PlainText("Title")]), List(true, [[PlainText("a")], [PlainText("b")]])];
    TitleIsWritten();
    ListIsWritten();
    TitleAndListLines();
    RenderedBlocksParseBack([["# Title"], ["1. a", "2. b"]], blocks);
  }

  lemma TitleAndListLines()
    ensures Join(Separated([["# Title"], ["1. a", "2. b"]]), "\n") == "# Title\n\n1. a\n2. b"
  {
    var lines := ["# Title", "", "1. a", "2. b"];
    assert [["# Title"], ["1. a", "2. b"]][1..] == [["1. a", "2. b"]];
    assert Separated([["# Title"], ["1. a", "2. b"]]) == lines;
    assert lines[..3] == ["# Title", "", "1. a"] && lines[..3][..2] == ["# Title", ""]
      && lines[..3][..2][..1] == ["# Title"];
    assert Join(lines[..3][..2], "\n") == "# Title\n";
    assert Join(lines[..3], "\n") == "# Title\n\n1. a";
  }
}
