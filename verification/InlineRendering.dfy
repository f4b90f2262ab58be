/** Writing inline tokens as markdown, and reading them back. */
module InlineRendering {
  import opened Common
  import opened Inline

  function Render(t: Token): string {
    match t
    case PlainText(s) => s
    case Bold(s) => "**" + s + "**"
    case Italic(s) => "*" + s + "*"
    case Code(s) => "`" + s + "`"
    case Link(s, href) => "[" + s + "](" + href + ")"
  }

  function RenderAll(ts: seq<Token>): string {
    if ts == [] then "" else Render(ts[0]) + RenderAll(ts[1..])
  }

  /** The token's text does not hold what would end it, nor plain text what would begin
      another token. */
  predicate Simple(t: Token) {
    match t
    case PlainText(s) => s != "" && '*' !in s && '`' !in s && '[' !in s
    case Bold(s) => s != "" && '*' !in s && Dots(s)
    case Italic(s) => s != "" && '*' !in s && Dots(s)
    case Code(s) => s != "" && '`' !in s && Dots(s)
    case Link(s, href) => ']' !in s && href != "" && ')' !in href && Trim(href) == href && SafeHref(href)
  }

  /** Simple tokens, and no two plain texts that would run together. */
  ghost predicate Separate(ts: seq<Token>) {
    && (forall i :: 0 <= i < |ts| ==> Simple(ts[i]))
    && (forall i, j :: 0 <= i && j == i + 1 && j < |ts| ==> !(ts[i].PlainText? && ts[j].PlainText?))
  }

  // ---------------------------------------------------------------- one token

  lemma FoundFirst(text: string, i: nat, m: nat, s: string)
    requires i <= m && HasAt(text, m, s) && forall k :: i <= k < m ==> !HasAt(text, k, s)
    ensures Find(text, i, s) == Some(m)
  {
    hide Find;
    var r := Find(text, i, s);
    assert r.Some?;
  }

  lemma SliceOfSlice(text: string, i: nat, j: nat, lo: nat, hi: nat)
    requires i <= j <= |text| && lo <= hi <= j - i
    ensures text[i..j][lo..hi] == text[i + lo..i + hi]
  {
    var inner, outer := text[i..j][lo..hi], text[i + lo..i + hi];
    forall k | 0 <= k < hi - lo
      ensures inner[k] == outer[k]
    {
      assert inner[k] == text[i..j][lo + k];
    }
    assert inner == outer;
  }

  /** What stands at `i` gives the pieces of the text there. */
  lemma PartsAt(text: string, i: nat, a: string, b: string, c: string)
    requires HasAt(text, i, a + b + c)
    ensures HasAt(text, i, a) && HasAt(text, i + |a|, b) && HasAt(text, i + |a| + |b|, c)
  {
    var n := |a| + |b| + |c|;
    var whole := text[i..i + n];
    assert whole[..|a|] == a && whole[|a|..|a| + |b|] == b && whole[|a| + |b|..n] == c;
    SliceOfSlice(text, i, i + n, 0, |a|);
    SliceOfSlice(text, i, i + n, |a|, |a| + |b|);
    SliceOfSlice(text, i, i + n, |a| + |b|, n);
  }

  lemma CharsAt(text: string, i: nat, s: string)
    requires HasAt(text, i, s)
    ensures forall k :: i <= k < i + |s| ==> text[k] == s[k - i]
  {
    forall k | i <= k < i + |s|
      ensures text[k] == s[k - i]
    {
      assert text[i..i + |s|][k - i] == text[k];
    }
  }

  lemma OneChar(text: string, i: nat, c: char)
    ensures HasAt(text, i, [c]) <==> i < |text| && text[i] == c
  {
  }

  lemma MarkedAt(text: string, i: nat, mark: string, s: string)
    requires mark != "" && HasAt(text, i, mark + s + mark) && s != "" && mark[0] !in s && Dots(s)
    ensures Marked(text, i, mark) == Some(i + |mark| + |s|)
  {
    PartsAt(text, i, mark, s, mark);
    var from, close := i + |mark|, i + |mark| + |s|;
    CharsAt(text, from, s);
    forall k | from + 1 <= k < close
      ensures !HasAt(text, k, mark)
    {
      NoMarkAt(text, k, mark);
    }
    FoundFirst(text, from + 1, close, mark);
    assert text[from..close] == s;
  }

  lemma NoMarkAt(text: string, i: nat, mark: string)
    requires mark != "" && i < |text| && text[i] != mark[0]
    ensures !HasAt(text, i, mark)
  {
    if i + |mark| <= |text| { assert text[i..i + |mark|][0] == text[i]; }
  }

  lemma NotMarked(text: string, i: nat, mark: string)
    requires mark != "" && i < |text| && text[i] != mark[0]
    ensures Marked(text, i, mark).None?
  {
    NoMarkAt(text, i, mark);
  }

  lemma LinkPieces(text: string, i: nat, s: string, href: string)
    requires HasAt(text, i, "[" + s + "](" + href + ")")
    ensures HasAt(text, i, "[") && HasAt(text, i + 1, s) && HasAt(text, i + 1 + |s|, "](")
    ensures HasAt(text, i + 3 + |s|, href) && HasAt(text, i + 3 + |s| + |href|, ")")
  {
    assert "[" + s + "](" + href + ")" == "[" + s + ("](" + href + ")");
    PartsAt(text, i, "[", s, "](" + href + ")");
    PartsAt(text, i + 1 + |s|, "](", href, ")");
  }

  lemma ClosesAt(text: string, i: nat, s: string, close: char)
    requires HasAt(text, i, s) && close !in s && i + |s| < |text| && text[i + |s|] == close
    ensures Find(text, i, [close]) == Some(i + |s|)
  {
    CharsAt(text, i, s);
    OneChar(text, i + |s|, close);
    forall k | i <= k < i + |s|
      ensures !HasAt(text, k, [close])
    {
      OneChar(text, k, close);
    }
    FoundFirst(text, i, i + |s|, [close]);
  }

  lemma LinkAt(text: string, i: nat, s: string, href: string)
    requires HasAt(text, i, "[" + s + "](" + href + ")") && ']' !in s && href != "" && ')' !in href
    ensures LinkParts(text, i) == Some((i + 1 + |s|, i + 3 + |s| + |href|))
    ensures i + 3 + |s| + |href| < |text|
    ensures text[i + 1..i + 1 + |s|] == s && text[i + 3 + |s|..i + 3 + |s| + |href|] == href
  {
    LinkPieces(text, i, s, href);
    var bracket, paren := i + 1 + |s|, i + 3 + |s| + |href|;
    CharsAt(text, bracket, "](");
    CharsAt(text, paren, ")");
    ClosesAt(text, i + 1, s, ']');
    ClosesAt(text, bracket + 2, href, ')');
    OneChar(text, bracket + 1, '(');
    hide HasAt, Find;
  }

  lemma BoldAt(text: string, i: nat, s: string)
    requires Simple(Bold(s)) && HasAt(text, i, "**" + s + "**")
    ensures MatchAt(text, i) == Some(Match(i + |s| + 4, Bold(s)))
  {
    MarkedAt(text, i, "**", s);
    PartsAt(text, i, "**", s, "**");
    hide Marked, LinkParts, SafeHref, Trim;
  }

  lemma ItalicAt(text: string, i: nat, s: string)
    requires Simple(Italic(s)) && HasAt(text, i, "*" + s + "*")
    ensures MatchAt(text, i) == Some(Match(i + |s| + 2, Italic(s)))
  {
    PartsAt(text, i, "*", s, "*");
    CharsAt(text, i + 1, s);
    assert text[i + 1] == s[0];
    DoubleMarkNeedsTwo(text, i);
    MarkedAt(text, i, "*", s);
    hide Marked, LinkParts, SafeHref, Trim;
  }

  lemma CodeAt(text: string, i: nat, s: string)
    requires Simple(Code(s)) && HasAt(text, i, "`" + s + "`")
    ensures MatchAt(text, i) == Some(Match(i + |s| + 2, Code(s)))
  {
    PartsAt(text, i, "`", s, "`");
    CharsAt(text, i, "`");
    NotMarked(text, i, "**");
    NotMarked(text, i, "*");
    MarkedAt(text, i, "`", s);
    hide Marked, LinkParts, SafeHref, Trim;
  }

  lemma NothingMarked(text: string, i: nat)
    requires HasAt(text, i, "[")
    ensures Marked(text, i, "**").None? && Marked(text, i, "*").None? && Marked(text, i, "`").None?
  {
    hide Marked;
    CharsAt(text, i, "[");
    NotMarked(text, i, "**");
    NotMarked(text, i, "*");
    NotMarked(text, i, "`");
  }

  lemma LinkMatch(text: string, i: nat, b: nat, p: nat, s: string, href: string)
    requires Marked(text, i, "**").None? && Marked(text, i, "*").None? && Marked(text, i, "`").None?
    requires LinkParts(text, i) == Some((b, p)) && i < b && b + 2 < p < |text|
    requires text[i + 1..b] == s && text[b + 2..p] == href && Trim(href) == href && SafeHref(href)
    ensures MatchAt(text, i) == Some(Match(p + 1, Link(s, href)))
  {
    hide Marked, LinkParts, SafeHref, Trim;
  }

  lemma LinkTokenAt(text: string, i: nat, s: string, href: string)
    requires Simple(Link(s, href)) && HasAt(text, i, "[" + s + "](" + href + ")")
    ensures MatchAt(text, i) == Some(Match(i + |s| + |href| + 4, Link(s, href)))
  {
    hide MatchAt, Marked, LinkParts, HasAt, SafeHref, Trim;
    LinkPieces(text, i, s, href);
    NothingMarked(text, i);
    LinkAt(text, i, s, href);
    LinkMatch(text, i, i + 1 + |s|, i + 3 + |s| + |href|, s, href);
  }

  /** A rendered token is matched where it stands, whatever follows it. */
  lemma TokenAt(text: string, i: nat, t: Token)
    requires Simple(t) && !t.PlainText? && HasAt(text, i, Render(t))
    ensures MatchAt(text, i) == Some(Match(i + |Render(t)|, t))
  {
    hide MatchAt, HasAt;
    match t {
      case Bold(s) => BoldAt(text, i, s);
      case Italic(s) => ItalicAt(text, i, s);
      case Code(s) => CodeAt(text, i, s);
      case Link(s, href) => LinkTokenAt(text, i, s, href);
    }
  }

  lemma DoubleMarkNeedsTwo(text: string, i: nat)
    requires i + 1 < |text| && text[i + 1] != '*'
    ensures Marked(text, i, "**").None?
  {
    assert text[i..i + 2][1] == text[i + 1];
  }

  lemma PlainHasNoMatch(text: string, i: nat)
    requires i < |text| && text[i] != '*' && text[i] != '`' && text[i] != '['
    ensures MatchAt(text, i).None?
  {
    hide Marked;
    NotMarked(text, i, "**");
    NotMarked(text, i, "*");
    NotMarked(text, i, "`");
    assert text[i..i + 1][0] == text[i];
  }

  lemma FirstMatch(text: string, from: nat, m: nat)
    requires from <= m < |text| && MatchAt(text, m).Some? && forall k :: from <= k < m ==> MatchAt(text, k).None?
    ensures NextMatch(text, from) == Some(m)
  {
    hide NextMatch, MatchAt;
    assert NextMatch(text, from).Some?;
  }

  lemma NoMatch(text: string, from: nat)
    requires forall k :: from <= k < |text| ==> MatchAt(text, k).None?
    ensures NextMatch(text, from).None?
  {
    hide NextMatch, MatchAt;
  }

  // ---------------------------------------------------------------- the round trip

  lemma StandsAt(text: string, from: nat, s: string, rest: string)
    requires from <= |text| && text[from..] == s + rest
    ensures HasAt(text, from, s) && text[from + |s|..] == rest
    ensures forall k :: 0 <= k < |s| ==> text[from + k] == s[k]
  {
    assert text[from..][..|s|] == s && text[from..][|s|..] == rest;
    forall k | 0 <= k < |s|
      ensures text[from + k] == s[k]
    {
      assert text[from + k] == text[from..][k];
    }
  }

  lemma TailIsSeparate(ts: seq<Token>)
    requires Separate(ts) && ts != []
    ensures Simple(ts[0]) && Separate(ts[1..])
    ensures |ts| > 1 ==> Simple(ts[1]) && !(ts[0].PlainText? && ts[1].PlainText?)
  {
    hide Simple;
    var rest := ts[1..];
    forall i, j | 0 <= i && j == i + 1 && j < |rest|
      ensures !(rest[i].PlainText? && rest[j].PlainText?)
    {
      assert rest[i] == ts[i + 1] && rest[j] == ts[j + 1];
    }
  }

  lemma MarkedTokenFirst(text: string, from: nat, t: Token, rest: string)
    requires from <= |text| && text[from..] == Render(t) + rest && Simple(t) && !t.PlainText?
    ensures NextMatch(text, from) == Some(from) && MatchAt(text, from) == Some(Match(from + |Render(t)|, t))
    ensures from + |Render(t)| <= |text| && text[from + |Render(t)|..] == rest
  {
    StandsAt(text, from, Render(t), rest);
    TokenAt(text, from, t);
    hide MatchAt, NextMatch;
    assert |Render(t)| > 0;
    FirstMatch(text, from, from);
  }

  lemma PlainTokenFirst(text: string, from: nat, s: string, rest: string)
    requires from <= |text| && text[from..] == s + rest && Simple(PlainText(s))
    ensures from + |s| <= |text| && text[from + |s|..] == rest && text[from..from + |s|] == s
    ensures forall k :: from <= k < from + |s| ==> MatchAt(text, k).None?
  {
    StandsAt(text, from, s, rest);
    hide MatchAt;
    forall k | from <= k < from + |s|
      ensures MatchAt(text, k).None?
    {
      assert text[k] == s[k - from];
      PlainHasNoMatch(text, k);
    }
  }

  lemma {:induction false} ParsesBackFrom(text: string, from: nat, ts: seq<Token>)
    requires from <= |text| && text[from..] == RenderAll(ts) && Separate(ts)
    ensures TokensOf(Spans(text, from)) == ts
    decreases |ts|
  {
    hide Spans, TokensOf, MatchAt, NextMatch, Render, Simple, Separate;
    if ts == [] {
      NoMatch(text, from);
      TokensEnd(text, from);
    } else {
      TailIsSeparate(ts);
      if !ts[0].PlainText? {
        MarkedTokenFirst(text, from, ts[0], RenderAll(ts[1..]));
        TokensUnfold(text, from);
        ParsesBackFrom(text, from + |Render(ts[0])|, ts[1..]);
      } else {
        PlainThenRest(text, from, ts);
        if |ts| > 1 {
          TailIsSeparate(ts[1..]);
          TokensUnfold(text, from);
          ParsesBackFrom(text, from + |ts[0].text| + |Render(ts[1])|, ts[2..]);
          assert ts == [ts[0], ts[1]] + ts[2..];
        } else {
          TokensEnd(text, from);
        }
      }
    }
  }

  lemma SimpleIsNotEmpty(t: Token)
    requires Simple(t)
    ensures Render(t) != ""
  {
  }

  /** Plain text runs up to the token behind it, or to the end. */
  lemma PlainThenRest(text: string, from: nat, ts: seq<Token>)
    requires from <= |text| && text[from..] == RenderAll(ts) && Separate(ts) && ts != [] && ts[0].PlainText?
    ensures ts[0].text != ""
    ensures |ts| == 1 ==> NextMatch(text, from).None? && text[from..] == ts[0].text
    ensures |ts| > 1 ==>
      var m := from + |ts[0].text|;
      m + |Render(ts[1])| <= |text|
      && NextMatch(text, from) == Some(m) && MatchAt(text, m) == Some(Match(m + |Render(ts[1])|, ts[1]))
      && text[from..m] == ts[0].text && text[m + |Render(ts[1])|..] == RenderAll(ts[2..])
  {
    hide MatchAt, NextMatch, Separate, HasAt, Simple;
    TailIsSeparate(ts);
    var s := ts[0].text;
    var m := from + |s|;
    SimpleIsNotEmpty(ts[0]);
    assert Render(ts[0]) == s;
    hide Render;
    PlainTokenFirst(text, from, s, RenderAll(ts[1..]));
    if |ts| == 1 {
      assert RenderAll(ts[1..]) == "";
      hide RenderAll;
      NoMatch(text, from);
    } else {
      assert ts[1..][1..] == ts[2..];
      assert RenderAll(ts[1..]) == Render(ts[1]) + RenderAll(ts[2..]);
      hide RenderAll;
      MarkedTokenFirst(text, m, ts[1], RenderAll(ts[2..]));
      SimpleIsNotEmpty(ts[1]);
      FirstMatch(text, from, m);
    }
  }

  /** Separate simple tokens survive being written and read: none is split, merged or taken
      for another sort. */
  lemma RenderedParsesBack(ts: seq<Token>)
    requires Separate(ts)
    ensures Tokens(RenderAll(ts)) == ts
  {
    var text := RenderAll(ts);
    assert text[0..] == text;
    ParsesBackFrom(text, 0, ts);
  }
}
