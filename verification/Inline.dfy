/** Inline markdown: a left-to-right scan for bold, italic, code and link spans. */
module Inline {
  import opened Common

  datatype Token =
    | PlainText(text: string)
    | Bold(text: string)
    | Italic(text: string)
    | Code(text: string)
    | Link(text: string, href: string)

  // ---------------------------------------------------------------- characters

  /** White space as JavaScript's regular expressions and trim understand it. */
  predicate IsSpace(c: char) {
    || c == '\t' || c == '\n' || c == '\U{0B}' || c == '\U{0C}' || c == '\r' || c == ' '
    || c == '\U{A0}' || c == '\U{1680}' || '\U{2000}' <= c <= '\U{200A}'
    || c == '\U{2028}' || c == '\U{2029}' || c == '\U{202F}' || c == '\U{205F}' || c == '\U{3000}' || c == '\U{FEFF}'
  }

  /** What the dot of a regular expression does not match. */
  predicate IsTerminator(c: char) {
    c == '\n' || c == '\r' || c == '\U{2028}' || c == '\U{2029}'
  }

  predicate Dots(s: string) {
    forall i :: 0 <= i < |s| ==> !IsTerminator(s[i])
  }

  function TrimStart(s: string): string {
    if s != "" && IsSpace(s[0]) then TrimStart(s[1..]) else s
  }

  function TrimEnd(s: string): string {
    if s != "" && IsSpace(s[|s| - 1]) then TrimEnd(s[..|s| - 1]) else s
  }

  function Trim(s: string): string {
    TrimEnd(TrimStart(s))
  }

  function Lower(c: char): char {
    if 'A' <= c <= 'Z' then c + 32 as char else c
  }

  predicate StartsWith(s: string, prefix: string) {
    |prefix| <= |s| && forall i :: 0 <= i < |prefix| ==> Lower(s[i]) == prefix[i]
  }

  /** The schemes a link may have: http, https, mailto, an absolute path or a fragment. */
  predicate SafeHref(href: string) {
    StartsWith(href, "http:") || StartsWith(href, "https:") || StartsWith(href, "mailto:")
    || StartsWith(href, "/") || StartsWith(href, "#")
  }

  // ---------------------------------------------------------------- one match

  predicate HasAt(text: string, i: nat, s: string) {
    i + |s| <= |text| && text[i..i + |s|] == s
  }

  /** The first position from `i` on where `s` stands. */
  function Find(text: string, i: nat, s: string): (r: Option<nat>)
    ensures r.Some? ==> i <= r.value && HasAt(text, r.value, s) && forall k :: i <= k < r.value ==> !HasAt(text, k, s)
    ensures r.None? ==> forall k: nat :: i <= k ==> !HasAt(text, k, s)
    decreases |text| + 1 - i
  {
    if i > |text| then None
    else if HasAt(text, i, s) then Some(i)
    else Find(text, i + 1, s)
  }

  datatype Match = Match(end: nat, token: Token)

  /** `mark`, at least one character and as few as possible, `mark`. */
  function Marked(text: string, i: nat, mark: string): Option<nat>
    requires mark != ""
  {
    if !HasAt(text, i, mark) then None
    else
      var close := Find(text, i + |mark| + 1, mark);
      if close.Some? && Dots(text[i + |mark|..close.value]) then close else None
  }

  /** The text and target of a link: up to the first bracket, then up to the first parenthesis. */
  function LinkParts(text: string, i: nat): Option<(nat, nat)> {
    if !HasAt(text, i, "[") then None
    else
      var bracket := Find(text, i + 1, "]");
      if bracket.None? || !HasAt(text, bracket.value + 1, "(") then None
      else
        var paren := Find(text, bracket.value + 2, ")");
        if paren.None? || paren.value == bracket.value + 2 then None else Some((bracket.value, paren.value))
  }

  /** The alternatives in their order: bold, italic, code, link. */
  function MatchAt(text: string, i: nat): (r: Option<Match>)
    ensures r.Some? ==> i < r.value.end <= |text|
  {
    var bold := Marked(text, i, "**");
    var italic := Marked(text, i, "*");
    var code := Marked(text, i, "`");
    var link := LinkParts(text, i);
    if bold.Some? then Some(Match(bold.value + 2, Bold(text[i + 2..bold.value])))
    else if italic.Some? then Some(Match(italic.value + 1, Italic(text[i + 1..italic.value])))
    else if code.Some? then Some(Match(code.value + 1, Code(text[i + 1..code.value])))
    else if link.Some? then
      var (bracket, paren) := link.value;
      var caption, target := text[i + 1..bracket], text[bracket + 2..paren];
      Some(Match(paren + 1, if SafeHref(Trim(target)) then Link(caption, Trim(target))
                 else PlainText(caption + " (" + target + ")")))
    else None
  }

  /** The leftmost match from `i` on. */
  function NextMatch(text: string, i: nat): (r: Option<nat>)
    ensures r.Some? ==> i <= r.value < |text| && MatchAt(text, r.value).Some?
    ensures r.Some? ==> forall k :: i <= k < r.value ==> MatchAt(text, k).None?
    ensures r.None? ==> forall k :: i <= k < |text| ==> MatchAt(text, k).None?
    decreases |text| - i
  {
    hide MatchAt;
    if i >= |text| then None
    else if MatchAt(text, i).Some? then Some(i)
    else NextMatch(text, i + 1)
  }

  // ---------------------------------------------------------------- the scan

  /** A stretch of the source and the token it becomes. */
  datatype Span = Span(source: string, token: Token)

  function Plain(s: string): seq<Span> {
    if s == "" then [] else [Span(s, PlainText(s))]
  }

  function Spans(text: string, from: nat): seq<Span>
    requires from <= |text|
    decreases |text| - from
  {
    var m := NextMatch(text, from);
    if m.None? then Plain(text[from..])
    else
      var found := MatchAt(text, m.value).value;
      Plain(text[from..m.value]) + [Span(text[m.value..found.end], found.token)] + Spans(text, found.end)
  }

  function TokensOf(spans: seq<Span>): seq<Token> {
    seq(|spans|, i requires 0 <= i < |spans| => spans[i].token)
  }

  function Tokens(text: string): seq<Token> {
    TokensOf(Spans(text, 0))
  }

  lemma SplitTokens(a: seq<Span>, b: seq<Span>)
    ensures TokensOf(a + b) == TokensOf(a) + TokensOf(b)
  {
  }

  /** The tokens up to the end of the next match, and from there on. */
  lemma TokensUnfold(text: string, from: nat)
    requires from <= |text| && NextMatch(text, from).Some?
    ensures var m := NextMatch(text, from).value;
            var found := MatchAt(text, m).value;
            from <= m <= |text| && found.end <= |text|
            && TokensOf(Spans(text, from))
               == (if m > from then [PlainText(text[from..m])] else []) + [found.token]
                 + TokensOf(Spans(text, found.end))
  {
    hide MatchAt;
    var m := NextMatch(text, from).value;
    var found := MatchAt(text, m).value;
    SplitTokens(Plain(text[from..m]) + [Span(text[m..found.end], found.token)], Spans(text, found.end));
    SplitTokens(Plain(text[from..m]), [Span(text[m..found.end], found.token)]);
  }

  lemma TokensEnd(text: string, from: nat)
    requires from <= |text| && NextMatch(text, from).None?
    ensures TokensOf(Spans(text, from)) == if from < |text| then [PlainText(text[from..])] else []
  {
  }

  method ParseInline(text: string) returns (tokens: seq<Token>)
    ensures tokens == Tokens(text)
  {
    hide MatchAt, NextMatch, Spans, TokensOf;
    tokens := [];
    var lastIndex := 0;
    var m := NextMatch(text, 0);
    while m.Some?
      invariant lastIndex <= |text| && m == NextMatch(text, lastIndex)
      invariant Tokens(text) == tokens + TokensOf(Spans(text, lastIndex))
      decreases |text| - lastIndex
    {
      TokensUnfold(text, lastIndex);
      var found := MatchAt(text, m.value).value;
      if m.value > lastIndex {
        tokens := tokens + [PlainText(text[lastIndex..m.value])];
      }
      tokens := tokens + [found.token];
      lastIndex := found.end;
      m := NextMatch(text, lastIndex);
    }
    TokensEnd(text, lastIndex);
    if lastIndex < |text| {
      tokens := tokens + [PlainText(text[lastIndex..])];
    }
  }

  // ---------------------------------------------------------------- what the scan keeps

  function SourceOf(spans: seq<Span>): string {
    if spans == [] then "" else spans[0].source + SourceOf(spans[1..])
  }

  lemma {:induction false} SplitSource(a: seq<Span>, b: seq<Span>)
    ensures SourceOf(a + b) == SourceOf(a) + SourceOf(b)
  {
    if a == [] {
      assert a + b == b;
    } else {
      assert (a + b)[1..] == a[1..] + b;
      SplitSource(a[1..], b);
    }
  }

  lemma OneSpan(s: Span)
    ensures SourceOf([s]) == s.source
  {
  }

  lemma PlainSource(s: string)
    ensures SourceOf(Plain(s)) == s
  {
  }

  lemma ThreeParts(text: string, i: nat, j: nat, k: nat)
    requires i <= j <= k <= |text|
    ensures text[i..] == text[i..j] + text[j..k] + text[k..]
  {
  }

  /** Matched and plain stretches partition the text: in order, nothing lost, nothing twice. */
  lemma {:induction false} SpansPartitionText(text: string, from: nat)
    requires from <= |text|
    ensures SourceOf(Spans(text, from)) == text[from..]
    decreases |text| - from
  {
    var m := NextMatch(text, from);
    if m.None? {
      PlainSource(text[from..]);
    } else {
      hide MatchAt;
      var found := MatchAt(text, m.value).value;
      var head, span := Plain(text[from..m.value]), Span(text[m.value..found.end], found.token);
      SpansPartitionText(text, found.end);
      SplitSource(head + [span], Spans(text, found.end));
      SplitSource(head, [span]);
      OneSpan(span);
      PlainSource(text[from..m.value]);
      ThreeParts(text, from, m.value, found.end);
      hide Plain, SourceOf, Spans;
    }
  }

  /** A token keeps the text of its stretch, with nothing but its markup taken off. */
  ghost predicate Keeps(s: Span) {
    match s.token
    case Bold(t) => t != "" && s.source == "**" + t + "**"
    case Italic(t) => t != "" && s.source == "*" + t + "*"
    case Code(t) => t != "" && s.source == "`" + t + "`"
    case Link(t, href) =>
      SafeHref(href) && exists target :: href == Trim(target) && s.source == "[" + t + "](" + target + ")"
    case PlainText(t) => s.source == t || exists caption, target ::
        !SafeHref(Trim(target)) && t == caption + " (" + target + ")" && s.source == "[" + caption + "](" + target + ")"
  }

  lemma MarkedKeeps(text: string, i: nat, mark: string)
    requires mark != "" && Marked(text, i, mark).Some?
    ensures var j := Marked(text, i, mark).value;
            i + |mark| < j && j + |mark| <= |text| && text[i..j + |mark|] == mark + text[i + |mark|..j] + mark
  {
  }

  lemma LinkKeeps(text: string, i: nat)
    requires LinkParts(text, i).Some?
    ensures var (b, p) := LinkParts(text, i).value;
            i < b && b + 2 < p < |text| && text[i..p + 1] == "[" + text[i + 1..b] + "](" + text[b + 2..p] + ")"
  {
    var (b, p) := LinkParts(text, i).value;
    assert text[i..i + 1] == "[" && text[b..b + 1] == "]" && text[b + 1..b + 2] == "(" && text[p..p + 1] == ")";
    assert text[i..p + 1]
      == text[i..i + 1] + text[i + 1..b] + text[b..b + 1] + text[b + 1..b + 2] + text[b + 2..p] + text[p..p + 1];
    assert "](" == "]" + "(";
  }

  lemma LinkMatchKeeps(text: string, i: nat)
    requires LinkParts(text, i).Some?
    ensures var (b, p) := LinkParts(text, i).value;
            i < b && b + 2 < p < |text|
            && var caption, target := text[i + 1..b], text[b + 2..p];
            Keeps(Span(text[i..p + 1],
                       if SafeHref(Trim(target)) then Link(caption, Trim(target))
                         else PlainText(caption + " (" + target + ")")))
  {
    LinkKeeps(text, i);
    hide LinkParts, SafeHref, Trim, HasAt;
  }

  lemma MatchKeeps(text: string, i: nat)
    requires MatchAt(text, i).Some?
    ensures var found := MatchAt(text, i).value; Keeps(Span(text[i..found.end], found.token))
  {
    hide SafeHref, Trim, HasAt;
    if Marked(text, i, "**").Some? {
      MarkedKeeps(text, i, "**");
      hide Marked, LinkParts;
    } else if Marked(text, i, "*").Some? {
      MarkedKeeps(text, i, "*");
      hide Marked, LinkParts;
    } else if Marked(text, i, "`").Some? {
      MarkedKeeps(text, i, "`");
      hide Marked, LinkParts;
    } else {
      LinkMatchKeeps(text, i);
      hide Marked, LinkParts, Keeps;
    }
  }

  /** Every token keeps its text; in particular a link is only ever made with a safe target,
      and any other target stays visible as text. */
  lemma {:induction false} TokensKeepText(text: string, from: nat)
    requires from <= |text|
    ensures forall s :: s in Spans(text, from) ==> Keeps(s)
    decreases |text| - from
  {
    var m := NextMatch(text, from);
    if m.Some? {
      var found := MatchAt(text, m.value).value;
      MatchKeeps(text, m.value);
      TokensKeepText(text, found.end);
      forall s | s in Spans(text, from)
        ensures Keeps(s)
      {
        assert s in Plain(text[from..m.value]) || s == Span(text[m.value..found.end], found.token)
          || s in Spans(text, found.end);
      }
    }
  }

  lemma KeptLinksAreSafe()
    ensures forall s {:trigger Keeps(s)} :: Keeps(s) && s.token.Link? ==> SafeHref(s.token.href)
  {
  }

  lemma LinksAreSafe(text: string, t: Token)
    requires t in Tokens(text) && t.Link?
    ensures SafeHref(t.href)
  {
    TokensKeepText(text, 0);
    hide Spans, SafeHref, Keeps;
    KeptLinksAreSafe();
    var i :| 0 <= i < |Tokens(text)| && Tokens(text)[i] == t;
    assert Spans(text, 0)[i] in Spans(text, 0);
  }
}
