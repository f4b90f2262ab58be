/** Block markdown: an index-driven pass over the lines with a pending paragraph, against a
    recursive grammar of pieces that covers every line. */
module Markdown {
  import opened Common
  import opened Strings
  import opened Types
  import Inline

  datatype Block =
    | Heading(level: nat, inline: seq<Inline.Token>)
    | Paragraph(inline: seq<Inline.Token>)
    | List(ordered: bool, items: seq<seq<Inline.Token>>)
    | Code(content: string)
    | Quote(inline: seq<Inline.Token>)

  // ---------------------------------------------------------------- lines

  /** The source cut at its line breaks; an empty source is one empty line. */
  function SplitLines(source: string): (lines: seq<string>)
    ensures lines != []
  {
    if source == "" then [""]
    else
      var lines := SplitLines(source[..|source| - 1]);
      var c := source[|source| - 1];
      if c == '\n' then lines + [""] else lines[..|lines| - 1] + [lines[|lines| - 1] + [c]]
  }

  lemma JoinMore(lines: seq<string>, last: string, c: char)
    ensures lines != [] ==> Join(lines + [""], "\n") == Join(lines, "\n") + "\n"
    ensures Join(lines + [last + [c]], "\n") == Join(lines + [last], "\n") + [c]
  {
  }

  lemma {:induction false} LinesMakeSource(source: string)
    ensures Join(SplitLines(source), "\n") == source
  {
    if source != "" {
      var front := source[..|source| - 1];
      var c := source[|source| - 1];
      var lines := SplitLines(front);
      LinesMakeSource(front);
      JoinMore(lines, "", c);
      JoinMore(lines[..|lines| - 1], lines[|lines| - 1], c);
      assert lines == lines[..|lines| - 1] + [lines[|lines| - 1]];
      assert source == front + [c] && "\n" == ['\n'];
      hide Join;
    }
  }

  predicate NoBreaks(lines: seq<string>) {
    forall l :: l in lines ==> '\n' !in l
  }

  lemma {:induction false} NoBreaksInLines(source: string)
    ensures NoBreaks(SplitLines(source))
  {
    if source != "" {
      var lines := SplitLines(source[..|source| - 1]);
      NoBreaksInLines(source[..|source| - 1]);
      assert lines[|lines| - 1] in lines;
    }
  }

  /** Cutting joined lines gives the lines back. */
  lemma {:induction false} LinesAreUnique(lines: seq<string>)
    requires lines != [] && NoBreaks(lines)
    ensures SplitLines(Join(lines, "\n")) == lines
    decreases |lines|, |lines[|lines| - 1]|
  {
    var front, last := lines[..|lines| - 1], lines[|lines| - 1];
    assert lines == front + [last] && last in lines;
    if last != "" {
      var c := last[|last| - 1];
      var shorter := last[..|last| - 1];
      assert last == shorter + [c] && c in last;
      LinesAreUnique(front + [shorter]);
      JoinMore(front, shorter, c);
      assert Join(lines, "\n")[..|Join(lines, "\n")| - 1] == Join(front + [shorter], "\n");
    } else if front != [] {
      LinesAreUnique(front);
      JoinMore(front, "", '\n');
      assert Join(lines, "\n")[..|Join(lines, "\n")| - 1] == Join(front, "\n");
    }
  }

  // ---------------------------------------------------------------- kinds of line

  /** What a line is, in the order in which the parser asks. */
  datatype Kind = Fence | HeadingLine(level: nat, text: string) | QuoteLine(text: string)
    | Item(ordered: bool, text: string) | Blank | Prose

  function Leading(s: string, p: char -> bool): (n: nat)
    ensures n <= |s| && (forall i :: 0 <= i < n ==> p(s[i])) && (n < |s| ==> !p(s[n]))
  {
    if s == "" || !p(s[0]) then 0 else 1 + Leading(s[1..], p)
  }

  /** At least one white space and then text without a line terminator. */
  function AfterSpace(s: string): Option<string> {
    var n := Leading(s, c => Inline.IsSpace(c));
    if n > 0 && Inline.Dots(s[n..]) then Some(s[n..]) else None
  }

  function HeadingOf(line: string): Option<(nat, string)> {
    var level := Leading(line, c => c == '#');
    var text := AfterSpace(line[level..]);
    if 1 <= level <= 6 && text.Some? then Some((level, text.value)) else None
  }

  function QuoteOf(line: string): Option<string> {
    if line == "" || line[0] != '>' then None
    else
      var rest := line[1..];
      if rest != "" && Inline.IsSpace(rest[0]) then (if Inline.Dots(rest[1..]) then Some(rest[1..]) else None)
      else if Inline.Dots(rest) then Some(rest) else None
  }

  function UnorderedOf(line: string): Option<string> {
    if line != "" && (line[0] == '-' || line[0] == '*') then AfterSpace(line[1..]) else None
  }

  function OrderedOf(line: string): Option<string> {
    var n := Leading(line, c => '0' <= c <= '9');
    if n > 0 && n < |line| && line[n] == '.' then AfterSpace(line[n + 1..]) else None
  }

  predicate IsFence(line: string) {
    Inline.HasAt(line, 0, "```")
  }

  function KindOf(line: string): Kind {
    if IsFence(line) then Fence
    else if HeadingOf(line).Some? then HeadingLine(HeadingOf(line).value.0, HeadingOf(line).value.1)
    else if QuoteOf(line).Some? then QuoteLine(QuoteOf(line).value)
    else if OrderedOf(line).Some? then Item(true, OrderedOf(line).value)
    else if UnorderedOf(line).Some? then Item(false, UnorderedOf(line).value)
    else if Inline.Trim(line) == "" then Blank
    else Prose
  }

  lemma FenceComesFirst(line: string)
    ensures KindOf(line) == Fence <==> IsFence(line)
  {
  }

  // ---------------------------------------------------------------- the grammar

  /** A run of lines that belong together. A fence that is never closed has no closing line. */
  datatype Piece =
    | FencePiece(open: string, body: seq<string>, close: Option<string>)
    | HeadingPiece(line: string)
    | QuotePiece(line: string)
    | ListPiece(ordered: bool, lines: seq<string>)
    | BlankPiece(line: string)
    | ParagraphPiece(lines: seq<string>)

  function LinesOf(p: Piece): seq<string> {
    match p
    case FencePiece(open, body, close) => [open] + body + if close.Some? then [close.value] else []
    case HeadingPiece(line) => [line]
    case QuotePiece(line) => [line]
    case ListPiece(_, lines) => lines
    case BlankPiece(line) => [line]
    case ParagraphPiece(lines) => lines
  }

  predicate IsItem(line: string, ordered: bool) {
    KindOf(line).Item? && KindOf(line).ordered == ordered
  }

  ghost predicate WellFormed(p: Piece) {
    match p
    case FencePiece(open, body, close) =>
      KindOf(open) == Fence && (forall l :: l in body ==> KindOf(l) != Fence)
        && (close.Some? ==> KindOf(close.value) == Fence)
    case HeadingPiece(line) => KindOf(line).HeadingLine?
    case QuotePiece(line) => KindOf(line).QuoteLine?
    case ListPiece(ordered, lines) => lines != [] && forall l :: l in lines ==> IsItem(l, ordered)
    case BlankPiece(line) => KindOf(line) == Blank
    case ParagraphPiece(lines) => lines != [] && forall l :: l in lines ==> KindOf(l) == Prose
  }

  /** Two neighbours that could not be one piece. */
  predicate Apart(p: Piece, q: Piece) {
    && (p.FencePiece? ==> p.close.Some?)
    && !(p.ParagraphPiece? && q.ParagraphPiece?)
    && !(p.ListPiece? && q.ListPiece? && p.ordered == q.ordered)
  }

  ghost predicate Canonical(ps: seq<Piece>) {
    && (forall i :: 0 <= i < |ps| ==> WellFormed(ps[i]))
    && (forall i, j :: 0 <= i && j == i + 1 && j < |ps| ==> Apart(ps[i], ps[j]))
  }

  function Flatten(ps: seq<Piece>): seq<string> {
    if ps == [] then [] else LinesOf(ps[0]) + Flatten(ps[1..])
  }

  /** How many lines at the front are text, items of one list, or not a fence. */
  function TextRun(lines: seq<string>): (n: nat)
    ensures n <= |lines| && (forall i :: 0 <= i < n ==> KindOf(lines[i]) == Prose)
      && (n < |lines| ==> KindOf(lines[n]) != Prose)
  {
    if lines == [] || KindOf(lines[0]) != Prose then 0 else 1 + TextRun(lines[1..])
  }

  function ItemRun(lines: seq<string>, ordered: bool): (n: nat)
    ensures n <= |lines| && (forall i :: 0 <= i < n ==> IsItem(lines[i], ordered))
      && (n < |lines| ==> !IsItem(lines[n], ordered))
  {
    if lines == [] || !IsItem(lines[0], ordered) then 0 else 1 + ItemRun(lines[1..], ordered)
  }

  function BodyRun(lines: seq<string>): (n: nat)
    ensures n <= |lines| && (forall i :: 0 <= i < n ==> KindOf(lines[i]) != Fence)
      && (n < |lines| ==> KindOf(lines[n]) == Fence)
  {
    if lines == [] || KindOf(lines[0]) == Fence then 0 else 1 + BodyRun(lines[1..])
  }

  /** A fence with everything up to its closing line, or up to the end. */
  function FenceAt(lines: seq<string>): (p: Piece)
    requires lines != []
    ensures 0 < |LinesOf(p)| <= |lines| && LinesOf(p) == lines[..|LinesOf(p)|]
  {
    hide KindOf;
    var n := BodyRun(lines[1..]);
    var p := FencePiece(lines[0], lines[1..n + 1], if n + 1 < |lines| then Some(lines[n + 1]) else None);
    assert LinesOf(p) == lines[..if n + 1 < |lines| then n + 2 else n + 1];
    p
  }

  /** The piece that starts with the first line. */
  function FirstPiece(lines: seq<string>): (p: Piece)
    requires lines != []
    ensures 0 < |LinesOf(p)| <= |lines| && LinesOf(p) == lines[..|LinesOf(p)|]
  {
    hide KindOf;
    match KindOf(lines[0])
    case Fence => FenceAt(lines)
    case HeadingLine(_, _) => HeadingPiece(lines[0])
    case QuoteLine(_) => QuotePiece(lines[0])
    case Item(ordered, _) => ListPiece(ordered, lines[..ItemRun(lines, ordered)])
    case Blank => BlankPiece(lines[0])
    case Prose => ParagraphPiece(lines[..TextRun(lines)])
  }

  function Parse(lines: seq<string>): seq<Piece> {
    if lines == [] then []
    else var p := FirstPiece(lines); [p] + Parse(lines[|LinesOf(p)|..])
  }

  // ---------------------------------------------------------------- the grammar is lossless and unambiguous

  /** Every line, in order, belongs to exactly one piece. */
  lemma {:induction false} EveryLineInOnePiece(lines: seq<string>)
    ensures Flatten(Parse(lines)) == lines
  {
    hide FirstPiece, LinesOf;
    if lines != [] {
      var p := FirstPiece(lines);
      EveryLineInOnePiece(lines[|LinesOf(p)|..]);
      assert Parse(lines)[0] == p && Parse(lines)[1..] == Parse(lines[|LinesOf(p)|..]);
      assert lines == lines[..|LinesOf(p)|] + lines[|LinesOf(p)|..];
    }
  }

  lemma FirstPieceFits(lines: seq<string>)
    requires lines != []
    ensures WellFormed(FirstPiece(lines))
    ensures var rest := lines[|LinesOf(FirstPiece(lines))|..]; rest != [] ==> Apart(FirstPiece(lines), FirstPiece(rest))
  {
    var p := FirstPiece(lines);
    var rest := lines[|LinesOf(p)|..];
    if rest != [] { assert rest[0] == lines[|LinesOf(p)|]; }
    match KindOf(lines[0]) {
      case Fence =>
        var n := BodyRun(lines[1..]);
        assert forall i :: 0 <= i < n ==> lines[1..n + 1][i] == lines[1..][i];
        assert n + 1 < |lines| ==> lines[1..][n] == lines[n + 1];
      case Item(ordered, _) =>
      case Prose =>
      case _ =>
    }
  }

  lemma CanonicalFrom(p: Piece, ps: seq<Piece>)
    requires WellFormed(p) && Canonical(ps) && (ps != [] ==> Apart(p, ps[0]))
    ensures Canonical([p] + ps)
  {
  }

  /** The pieces are well formed and none could be merged with its neighbour; only the last
      fence can be unclosed. */
  lemma {:induction false} ParseIsCanonical(lines: seq<string>)
    ensures Canonical(Parse(lines))
  {
    if lines != [] {
      var p := FirstPiece(lines);
      var rest := lines[|LinesOf(p)|..];
      FirstPieceFits(lines);
      ParseIsCanonical(rest);
      hide KindOf, WellFormed, Apart, LinesOf, FirstPiece;
      assert rest != [] ==> Parse(rest)[0] == FirstPiece(rest);
      assert Parse(lines) == [p] + Parse(rest);
      hide Parse;
      CanonicalFrom(p, Parse(rest));
    }
  }

  lemma FirstLineTells(p: Piece)
    requires WellFormed(p)
    ensures LinesOf(p) != []
    ensures KindOf(LinesOf(p)[0]) == Prose <==> p.ParagraphPiece?
    ensures KindOf(LinesOf(p)[0]).Item? <==> p.ListPiece?
    ensures p.ListPiece? ==> KindOf(LinesOf(p)[0]).ordered == p.ordered
  {
    if p.ParagraphPiece? { assert p.lines[0] in p.lines; }
    if p.ListPiece? { assert p.lines[0] in p.lines; }
  }

  lemma FenceForced(open: string, body: seq<string>, close: Option<string>, rest: seq<string>)
    requires WellFormed(FencePiece(open, body, close)) && (close.None? ==> rest == [])
    ensures FirstPiece(LinesOf(FencePiece(open, body, close)) + rest) == FencePiece(open, body, close)
  {
    var lines := LinesOf(FencePiece(open, body, close)) + rest;
    hide KindOf;
    FenceBody(lines, open, body, close, rest);
    hide BodyRun, LinesOf;
    assert lines[0] == open;
  }

  lemma FenceBody(lines: seq<string>, open: string, body: seq<string>, close: Option<string>, rest: seq<string>)
    requires WellFormed(FencePiece(open, body, close)) && (close.None? ==> rest == [])
    requires lines == LinesOf(FencePiece(open, body, close)) + rest
    ensures |lines| >= |body| + 1 && BodyRun(lines[1..]) == |body| && lines[1..|body| + 1] == body
    ensures if close.Some? then |lines| > |body| + 1 && lines[|body| + 1] == close.value else |lines| == |body| + 1
  {
    hide KindOf;
    assert forall i :: 0 <= i < |body| ==> lines[1..][i] == body[i] && body[i] in body;
    assert close.Some? ==> lines[1..][|body|] == close.value;
    assert BodyRun(lines[1..]) == |body|;
    assert lines[1..|body| + 1] == body;
  }

  lemma ListForced(ordered: bool, ls: seq<string>, rest: seq<string>)
    requires WellFormed(ListPiece(ordered, ls)) && (rest != [] ==> !IsItem(rest[0], ordered))
    ensures FirstPiece(ls + rest) == ListPiece(ordered, ls)
  {
    var lines := ls + rest;
    hide KindOf;
    assert forall i :: 0 <= i < |ls| ==> lines[i] == ls[i] && ls[i] in ls;
    assert rest != [] ==> lines[|ls|] == rest[0];
    assert ItemRun(lines, ordered) == |ls|;
    assert lines[..|ls|] == ls;
  }

  lemma ParagraphForced(ls: seq<string>, rest: seq<string>)
    requires WellFormed(ParagraphPiece(ls)) && (rest != [] ==> KindOf(rest[0]) != Prose)
    ensures FirstPiece(ls + rest) == ParagraphPiece(ls)
  {
    var lines := ls + rest;
    hide KindOf;
    assert forall i :: 0 <= i < |ls| ==> lines[i] == ls[i] && ls[i] in ls;
    assert rest != [] ==> lines[|ls|] == rest[0];
    assert TextRun(lines) == |ls|;
    assert lines[..|ls|] == ls;
  }

  lemma FirstPieceForced(p: Piece, rest: seq<string>)
    requires WellFormed(p)
    requires p.FencePiece? && p.close.None? ==> rest == []
    requires p.ParagraphPiece? && rest != [] ==> KindOf(rest[0]) != Prose
    requires p.ListPiece? && rest != [] ==> !IsItem(rest[0], p.ordered)
    ensures FirstPiece(LinesOf(p) + rest) == p
  {
    hide KindOf;
    match p {
      case FencePiece(open, body, close) => FenceForced(open, body, close, rest); hide FirstPiece, WellFormed;
      case ListPiece(ordered, ls) => ListForced(ordered, ls, rest); hide FirstPiece, WellFormed;
      case ParagraphPiece(ls) => ParagraphForced(ls, rest); hide FirstPiece, WellFormed;
      case _ =>
    }
  }

  lemma TailIsCanonical(ps: seq<Piece>)
    requires Canonical(ps) && ps != []
    ensures WellFormed(ps[0]) && Canonical(ps[1..]) && (|ps| > 1 ==> Apart(ps[0], ps[1]) && WellFormed(ps[1]))
  {
  }

  /** The grammar is unambiguous: any canonical way to cut the lines into pieces is the
      parser's. */
  lemma {:induction false} OnlyOneCanonicalCut(ps: seq<Piece>)
    requires Canonical(ps)
    ensures Parse(Flatten(ps)) == ps
  {
    if ps != [] {
      var p, qs := ps[0], ps[1..];
      var rest := Flatten(qs);
      TailIsCanonical(ps);
      OnlyOneCanonicalCut(qs);
      FirstLineTells(p);
      if qs != [] { FirstLineTells(qs[0]); }
      hide KindOf, WellFormed, Canonical;
      FirstPieceForced(p, rest);
      hide FirstPiece;
      assert (LinesOf(p) + rest)[|LinesOf(p)|..] == rest;
      assert ps == [p] + qs;
    }
  }

  // ---------------------------------------------------------------- blocks

  function ItemTokens(lines: seq<string>): seq<seq<Inline.Token>> {
    seq(|lines|, i requires 0 <= i < |lines| =>
      if KindOf(lines[i]).Item? then Inline.Tokens(KindOf(lines[i]).text) else [])
  }

  /** The block a piece becomes; blank lines become none. */
  function BlocksOf(p: Piece): seq<Block> {
    match p
    case FencePiece(_, body, _) => [Code(Join(body, "\n"))]
    case HeadingPiece(line) =>
      if KindOf(line).HeadingLine? then [Heading(KindOf(line).level, Inline.Tokens(KindOf(line).text))] else []
    case QuotePiece(line) => if KindOf(line).QuoteLine? then [Quote(Inline.Tokens(KindOf(line).text))] else []
    case ListPiece(ordered, lines) => [List(ordered, ItemTokens(lines))]
    case BlankPiece(_) => []
    case ParagraphPiece(lines) => [Paragraph(Inline.Tokens(Join(lines, " ")))]
  }

  function Blocks(ps: seq<Piece>): seq<Block> {
    if ps == [] then [] else BlocksOf(ps[0]) + Blocks(ps[1..])
  }

  function Flushed(pending: seq<string>): seq<Block> {
    if pending == [] then [] else [Paragraph(Inline.Tokens(Join(pending, " ")))]
  }

  /** What is still to come when `pending` lines of a paragraph are waiting. */
  function Resume(pending: seq<string>, lines: seq<string>): seq<Block> {
    Flushed(pending + lines[..TextRun(lines)]) + Blocks(Parse(lines[TextRun(lines)..]))
  }

  lemma TextIsOnePiece(lines: seq<string>)
    requires TextRun(lines) > 0
    ensures FirstPiece(lines) == ParagraphPiece(lines[..TextRun(lines)])
  {
    hide KindOf;
  }

  lemma ResumeAtStart(lines: seq<string>)
    ensures Resume([], lines) == Blocks(Parse(lines))
  {
    hide KindOf, TextRun, Parse, Blocks;
    var n := TextRun(lines);
    assert [] + lines[..n] == lines[..n];
    if n == 0 {
      assert lines[..0] == [] && lines[0..] == lines;
    } else {
      TextIsOnePiece(lines);
      ParseUnfolds(lines);
      hide FirstPiece;
    }
  }

  lemma ResumeText(pending: seq<string>, lines: seq<string>)
    requires lines != [] && KindOf(lines[0]) == Prose
    ensures Resume(pending, lines) == Resume(pending + [lines[0]], lines[1..])
  {
    hide KindOf, Parse, Blocks, Flushed;
    var n := TextRun(lines[1..]);
    assert TextRun(lines) == n + 1;
    assert pending + lines[..n + 1] == pending + [lines[0]] + lines[1..][..n];
    assert lines[n + 1..] == lines[1..][n..];
  }

  lemma ParseUnfolds(lines: seq<string>)
    requires lines != []
    ensures var p := FirstPiece(lines); Blocks(Parse(lines)) == BlocksOf(p) + Blocks(Parse(lines[|LinesOf(p)|..]))
  {
  }

  /** A line that is not text flushes the pending paragraph and starts a piece of its own. */
  lemma ResumeOther(pending: seq<string>, lines: seq<string>)
    requires lines != [] && KindOf(lines[0]) != Prose
    ensures var p := FirstPiece(lines);
            Resume(pending, lines) == Flushed(pending) + BlocksOf(p) + Resume([], lines[|LinesOf(p)|..])
  {
    hide KindOf, FirstPiece, Blocks, BlocksOf, Parse, LinesOf, Flushed;
    ParseUnfolds(lines);
    ResumeAtStart(lines[|LinesOf(FirstPiece(lines))|..]);
    assert TextRun(lines) == 0 && pending + lines[..0] == pending && lines[0..] == lines;
  }

  lemma ResumeEnd(pending: seq<string>)
    ensures Resume(pending, []) == Flushed(pending)
  {
    var none: seq<string> := [];
    assert pending + none[..0] == pending;
  }

  method FlushParagraph(blocks: seq<Block>, pending: seq<string>) returns (more: seq<Block>)
    ensures more == blocks + Flushed(pending)
  {
    if |pending| == 0 {
      return blocks;
    }
    var inline := Inline.ParseInline(Join(pending, " "));
    more := blocks + [Paragraph(inline)];
  }

  /** Collects the lines of a fence's body; returns the index behind its closing line. */
  method ReadFence(lines: seq<string>, start: nat) returns (content: string, next: nat)
    requires start < |lines| && KindOf(lines[start]) == Fence
    ensures [Code(content)] == BlocksOf(FirstPiece(lines[start..]))
    ensures Min(next, |lines|) == start + |LinesOf(FirstPiece(lines[start..]))| && start < next <= |lines| + 1
  {
    hide KindOf, IsFence;
    var code: seq<string> := [];
    var i := start + 1;
    while i < |lines| && !IsFence(lines[i])
      invariant start + 1 <= i <= |lines| && code == lines[start + 1..i]
      invariant forall k :: start + 1 <= k < i ==> KindOf(lines[k]) != Fence
    {
      FenceComesFirst(lines[i]);
      code := code + [lines[i]];
      i := i + 1;
    }
    if i < |lines| { FenceComesFirst(lines[i]); }
    FenceSpan(lines, start, i);
    content := Join(code, "\n");
    next := i + 1;
  }

  lemma FenceSpan(lines: seq<string>, start: nat, i: nat)
    requires start < i <= |lines| && KindOf(lines[start]) == Fence
    requires forall k :: start + 1 <= k < i ==> KindOf(lines[k]) != Fence
    requires i < |lines| ==> KindOf(lines[i]) == Fence
    ensures var p := FirstPiece(lines[start..]);
            BlocksOf(p) == [Code(Join(lines[start + 1..i], "\n"))] && start + |LinesOf(p)| == Min(i + 1, |lines|)
  {
    hide KindOf, Join;
    var tail := lines[start..][1..];
    var n := i - start - 1;
    assert forall k :: 0 <= k < n ==> tail[k] == lines[start + 1 + k];
    assert i < |lines| ==> tail[n] == lines[i];
    assert BodyRun(tail) == n;
    assert lines[start..][1..n + 1] == lines[start + 1..i];
  }

  /** The pattern a list of one sort tries on every line. */
  function ItemOf(line: string, ordered: bool): Option<string> {
    if ordered then OrderedOf(line) else UnorderedOf(line)
  }

  /** The list loop asks only its own pattern, the outer loop asks all patterns in order; both
      see the same items with the same text, because no line fits two patterns. */
  lemma ItemsNeedOnePattern(line: string, ordered: bool)
    ensures IsItem(line, ordered) <==> ItemOf(line, ordered).Some?
    ensures IsItem(line, ordered) ==> KindOf(line).text == ItemOf(line, ordered).value
  {
    hide AfterSpace, Inline.Trim;
    if ItemOf(line, ordered).Some? {
      assert line[0] == '-' || line[0] == '*' || '0' <= line[0] <= '9';
    }
  }

  lemma NoItems()
    ensures ItemTokens([]) == []
  {
  }

  lemma OneMoreItem(lines: seq<string>, line: string)
    requires KindOf(line).Item?
    ensures ItemTokens(lines + [line]) == ItemTokens(lines) + [Inline.Tokens(KindOf(line).text)]
  {
  }

  /** Collects the items of a list; returns the index of the first line that is none. */
  method ReadList(lines: seq<string>, start: nat, ordered: bool) returns (items: seq<seq<Inline.Token>>, next: nat)
    requires start < |lines| && IsItem(lines[start], ordered)
    ensures [List(ordered, items)] == BlocksOf(FirstPiece(lines[start..]))
    ensures next == start + |LinesOf(FirstPiece(lines[start..]))| && start < next <= |lines|
  {
    hide KindOf, BlocksOf, FirstPiece, LinesOf, ItemTokens, ItemOf;
    items := [];
    NoItems();
    assert lines[start..start] == [];
    next := start;
    while next < |lines|
      invariant start <= next <= |lines|
      invariant forall k :: start <= k < next ==> IsItem(lines[k], ordered)
      invariant items == ItemTokens(lines[start..next])
      decreases |lines| - next
    {
      var item := ItemOf(lines[next], ordered);
      ItemsNeedOnePattern(lines[next], ordered);
      if item.None? {
        break;
      }
      var tokens := Inline.ParseInline(item.value);
      assert lines[start..next + 1] == lines[start..next] + [lines[next]];
      OneMoreItem(lines[start..next], lines[next]);
      items := items + [tokens];
      next := next + 1;
    }
    ListSpan(lines, start, next, ordered);
  }

  lemma ListSpan(lines: seq<string>, start: nat, next: nat, ordered: bool)
    requires start < next <= |lines| && forall k :: start <= k < next ==> IsItem(lines[k], ordered)
    requires next < |lines| ==> !IsItem(lines[next], ordered)
    ensures var p := FirstPiece(lines[start..]);
            BlocksOf(p) == [List(ordered, ItemTokens(lines[start..next]))] && start + |LinesOf(p)| == next
  {
    hide KindOf, ItemTokens;
    var n := next - start;
    assert forall k :: 0 <= k < n ==> lines[start..][k] == lines[start + k];
    assert next < |lines| ==> lines[start..][n] == lines[next];
    assert ItemRun(lines[start..], ordered) == n;
    assert lines[start..][..n] == lines[start..next];
  }

  lemma OneLine(lines: seq<string>)
    requires lines != [] && (KindOf(lines[0]).HeadingLine? || KindOf(lines[0]).QuoteLine? || KindOf(lines[0]) == Blank)
    ensures |LinesOf(FirstPiece(lines))| == 1
    ensures BlocksOf(FirstPiece(lines)) == match KindOf(lines[0])
      case HeadingLine(level, text) => [Heading(level, Inline.Tokens(text))]
      case QuoteLine(text) => [Quote(Inline.Tokens(text))]
      case _ => []
  {
  }

  /** One branch of the parser for each kind of line that is not text. */
  method ReadBlock(lines: seq<string>, start: nat) returns (more: seq<Block>, next: nat)
    requires start < |lines| && KindOf(lines[start]) != Prose
    ensures more == BlocksOf(FirstPiece(lines[start..]))
    ensures Min(next, |lines|) == start + |LinesOf(FirstPiece(lines[start..]))| && start < next
  {
    hide KindOf, FirstPiece, BlocksOf, LinesOf;
    assert lines[start..][0] == lines[start];
    match KindOf(lines[start]) {
      case Fence =>
        var content, behind := ReadFence(lines, start);
        return [Code(content)], behind;
      case HeadingLine(level, text) =>
        OneLine(lines[start..]);
        var inline := Inline.ParseInline(text);
        return [Heading(level, inline)], start + 1;
      case QuoteLine(text) =>
        OneLine(lines[start..]);
        var inline := Inline.ParseInline(text);
        return [Quote(inline)], start + 1;
      case Item(ordered, _) =>
        var items, behind := ReadList(lines, start, ordered);
        return [List(ordered, items)], behind;
      case Blank =>
        OneLine(lines[start..]);
        return [], start + 1;
    }
  }

  /** The parser: an index into the lines, the blocks so far and the paragraph that is pending. */
  method ParseMarkdown(source: string) returns (blocks: seq<Block>)
    ensures blocks == Blocks(Parse(SplitLines(source)))
  {
    hide KindOf, Parse, Blocks, Resume, FirstPiece, BlocksOf, LinesOf, Flushed, SplitLines;
    var lines := SplitLines(source);
    blocks := [];
    var i := 0;
    var pending: seq<string> := [];
    ResumeAtStart(lines);
    assert lines[0..] == lines;
    while i < |lines|
      invariant 0 <= i
      invariant Blocks(Parse(lines)) == blocks + Resume(pending, lines[Min(i, |lines|)..])
      decreases |lines| - i
    {
      ghost var rest := lines[i..];
      if KindOf(lines[i]) == Prose {
        ResumeText(pending, rest);
        assert rest[1..] == lines[i + 1..];
        pending := pending + [lines[i]];
        i := i + 1;
      } else {
        ResumeOther(pending, rest);
        assert rest[|LinesOf(FirstPiece(rest))|..] == lines[i + |LinesOf(FirstPiece(rest))|..];
        blocks := FlushParagraph(blocks, pending);
        var more, next := ReadBlock(lines, i);
        blocks, pending, i := blocks + more, [], next;
      }
    }
    ResumeEnd(pending);
    assert lines[|lines|..] == [];
    blocks := FlushParagraph(blocks, pending);
  }

  /** The parser's pieces are the only canonical ones whose lines, joined by line breaks, are
      the source. */
  lemma ParseIsTheGrammar(source: string, ps: seq<Piece>)
    ensures ps == Parse(SplitLines(source)) <==>
      Canonical(ps) && Flatten(ps) != [] && NoBreaks(Flatten(ps)) && Join(Flatten(ps), "\n") == source
  {
    hide Canonical, Parse, Join, SplitLines, Flatten, NoBreaks;
    var lines := SplitLines(source);
    LinesMakeSource(source);
    NoBreaksInLines(source);
    EveryLineInOnePiece(lines);
    ParseIsCanonical(lines);
    if Canonical(ps) && Flatten(ps) != [] && NoBreaks(Flatten(ps)) && Join(Flatten(ps), "\n") == source {
      LinesAreUnique(Flatten(ps));
      OnlyOneCanonicalCut(ps);
    }
  }
}
