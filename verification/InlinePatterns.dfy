/** The inline patterns as relations between positions, apart from how they are searched for, and the
    targets that a link may have. */
module InlinePatterns {
  import opened Common
  import opened Inline

  // ---------------------------------------------------------------- characters

  /** The code points of ECMA-262's WhiteSpace and LineTerminator. */
  lemma SpacesAre(c: char)
    ensures IsSpace(c) <==>
      c as int in {9, 10, 11, 12, 13, 32, 160, 5760, 8232, 8233, 8239, 8287, 12288, 65279} || 8192 <= c as int <= 8202
    ensures IsTerminator(c) <==> c as int in {10, 13, 8232, 8233}
  {
  }

  predicate AllSpace(s: string) {
    forall i :: 0 <= i < |s| ==> IsSpace(s[i])
  }

  lemma {:induction false} TrimStartIs(s: string) returns (l: string)
    ensures AllSpace(l) && s == l + TrimStart(s) && (TrimStart(s) != "" ==> !IsSpace(TrimStart(s)[0]))
  {
    if s != "" && IsSpace(s[0]) {
      var rest := TrimStartIs(s[1..]);
      l := [s[0]] + rest;
      assert s == [s[0]] + s[1..];
    } else {
      l := "";
    }
  }

  lemma {:induction false} TrimEndIs(s: string) returns (r: string)
    ensures AllSpace(r) && s == TrimEnd(s) + r && (TrimEnd(s) != "" ==> !IsSpace(TrimEnd(s)[|TrimEnd(s)| - 1]))
  {
    if s != "" && IsSpace(s[|s| - 1]) {
      var rest := TrimEndIs(s[..|s| - 1]);
      r := rest + [s[|s| - 1]];
      assert s == s[..|s| - 1] + [s[|s| - 1]];
    } else {
      r := "";
    }
  }

  /** Trimming takes all white space off both ends, and nothing else. */
  lemma TrimIs(s: string) returns (l: string, r: string)
    ensures AllSpace(l) && AllSpace(r) && s == l + Trim(s) + r
    ensures Trim(s) != "" ==> !IsSpace(Trim(s)[0]) && !IsSpace(Trim(s)[|Trim(s)| - 1])
  {
    l := TrimStartIs(s);
    r := TrimEndIs(TrimStart(s));
    if Trim(s) != "" { assert Trim(s)[0] == TrimStart(s)[0]; }
  }

  // ---------------------------------------------------------------- targets

  /** The text is the small-letter word in either case. */
  predicate Spells(text: string, word: string) {
    |text| == |word| && forall i :: 0 <= i < |word| ==> text[i] == word[i] || text[i] as int == word[i] as int - 32
  }

  /** What stands before the first colon. */
  predicate HasScheme(href: string, k: nat) {
    k < |href| && href[k] == ':' && ':' !in href[..k]
  }

  predicate GoodScheme(scheme: string) {
    Spells(scheme, "http") || Spells(scheme, "https") || Spells(scheme, "mailto")
  }

  predicate Letters(word: string) {
    forall i :: 0 <= i < |word| ==> 'a' <= word[i] <= 'z'
  }

  lemma StartsWithScheme(href: string, word: string)
    requires Letters(word)
    ensures StartsWith(href, word + ":") <==> HasScheme(href, |word|) && Spells(href[..|word|], word)
  {
    var prefix := word + ":";
    assert prefix[|word|] == ':' && forall i :: 0 <= i < |word| ==> prefix[i] == word[i];
    if |word| < |href| {
      forall i | 0 <= i < |word|
        ensures Lower(href[i]) == prefix[i] <==> (href[i] == word[i] || href[i] as int == word[i] as int - 32)
        ensures Lower(href[i]) == prefix[i] ==> href[i] != ':'
      {
        assert 'a' <= word[i] <= 'z';
      }
      assert Lower(href[|word|]) == ':' <==> href[|word|] == ':';
      if StartsWith(href, prefix) {
        forall i | 0 <= i < |word|
          ensures href[..|word|][i] != ':' && (href[i] == word[i] || href[i] as int == word[i] as int - 32)
        {
          assert Lower(href[i]) == prefix[i];
        }
        assert Lower(href[|word|]) == prefix[|word|];
      }
      if HasScheme(href, |word|) && Spells(href[..|word|], word) {
        forall i | 0 <= i < |prefix|
          ensures Lower(href[i]) == prefix[i]
        {
          if i < |word| { assert href[..|word|][i] == href[i]; }
        }
      }
    }
  }

  /** A target is safe if and only if it is an absolute path, a fragment, or has the scheme http, https
      or mailto, in either case. So javascript: and data: are not. */
  lemma SafeHrefIff(href: string)
    ensures SafeHref(href) <==>
      (href != "" && (href[0] == '/' || href[0] == '#'))
      || exists k :: 0 <= k && HasScheme(href, k) && GoodScheme(href[..k])
  {
    assert "http:" == "http" + ":" && "https:" == "https" + ":" && "mailto:" == "mailto" + ":";
    StartsWithScheme(href, "http");
    StartsWithScheme(href, "https");
    StartsWithScheme(href, "mailto");
    StartsWithOne(href, '/');
    StartsWithOne(href, '#');
    hide StartsWith, Spells;
    if k :| 0 <= k && HasScheme(href, k) && GoodScheme(href[..k]) { SpelledLength(href[..k]); }
  }

  lemma SpelledLength(scheme: string)
    requires GoodScheme(scheme)
    ensures Spells(scheme, "http") ==> |scheme| == 4
    ensures Spells(scheme, "https") ==> |scheme| == 5
    ensures Spells(scheme, "mailto") ==> |scheme| == 6
  {
  }

  lemma StartsWithOne(href: string, c: char)
    requires c == '/' || c == '#'
    ensures StartsWith(href, [c]) <==> href != "" && href[0] == c
  {
  }

  lemma ColonBefore(href: string, j: nat, k: nat)
    requires j < k <= |href| && href[j] == ':'
    ensures ':' in href[..k]
  {
    assert href[..k][j] == ':';
  }

  /** A scheme that none of the three is. */
  lemma OtherSchemesAreUnsafe(href: string, k: nat)
    requires HasScheme(href, k) && !GoodScheme(href[..k]) && href[0] != '/' && href[0] != '#'
    ensures !SafeHref(href)
  {
    SafeHrefIff(href);
    hide SafeHref, GoodScheme;
    forall j: nat | HasScheme(href, j)
      ensures j == k
    {
      if j < k { ColonBefore(href, j, k); }
      if k < j { ColonBefore(href, k, j); }
    }
  }

  // ---------------------------------------------------------------- what is matched

  /** From `i`: the mark, at least one character and no line terminator, and the next mark, at `j`. */
  predicate LazySpan(text: string, i: nat, mark: string, j: nat) {
    && HasAt(text, i, mark) && i + |mark| < j && HasAt(text, j, mark) && Dots(text[i + |mark|..j])
    && forall k :: i + |mark| < k < j ==> !HasAt(text, k, mark)
  }

  lemma MarkedIff(text: string, i: nat, mark: string, j: nat)
    requires mark != ""
    ensures Marked(text, i, mark) == Some(j) <==> LazySpan(text, i, mark, j)
  {
    hide HasAt, Dots;
    var close := Find(text, i + |mark| + 1, mark);
    if LazySpan(text, i, mark, j) && close.Some? {
      assert HasAt(text, close.value, mark) && HasAt(text, j, mark);
    }
  }

  /** From `i`: a caption in brackets up to the first one closing, at `b`, and at once a target in
      parentheses, not empty, up to the first one closing, at `p`. */
  predicate LinkSpan(text: string, i: nat, b: nat, p: nat) {
    && i < b && b + 2 < p < |text| && text[i] == '[' && text[b] == ']' && text[b + 1] == '(' && text[p] == ')'
    && (forall k :: i < k < b ==> text[k] != ']') && (forall k :: b + 2 <= k < p ==> text[k] != ')')
  }

  lemma OneCharAt(text: string, k: nat, c: char)
    ensures HasAt(text, k, [c]) <==> k < |text| && text[k] == c
  {
  }

  /** The first place of a character from `i` on. */
  predicate FirstAt(text: string, i: nat, c: char, k: nat) {
    i <= k < |text| && text[k] == c && forall j :: i <= j < k ==> text[j] != c
  }

  lemma FindIsFirst(text: string, i: nat, c: char, k: nat)
    ensures Find(text, i, [c]) == Some(k) <==> FirstAt(text, i, c, k)
  {
    forall j: nat
      ensures HasAt(text, j, [c]) <==> j < |text| && text[j] == c
    {
      OneCharAt(text, j, c);
    }
    hide HasAt;
    var found := Find(text, i, [c]);
    if FirstAt(text, i, c, k) {
      assert HasAt(text, k, [c]);
      assert found.Some? && found.value <= k;
      assert HasAt(text, found.value, [c]);
    }
    if found == Some(k) {
      forall j | i <= j < k
        ensures text[j] != c
      {
        assert !HasAt(text, j, [c]);
      }
    }
  }

  lemma LinkPartsIff(text: string, i: nat, b: nat, p: nat)
    ensures LinkParts(text, i) == Some((b, p)) <==> LinkSpan(text, i, b, p)
  {
    assert "[" == ['['] && "]" == [']'] && "(" == ['('] && ")" == [')'];
    OneCharAt(text, i, '[');
    OneCharAt(text, b + 1, '(');
    var bracket := Find(text, i + 1, "]");
    FindIsFirst(text, i + 1, ']', b);
    FindIsFirst(text, b + 2, ')', p);
    hide Find, HasAt;
  }

  ghost predicate NoBold(text: string, i: nat) {
    forall j: nat :: !LazySpan(text, i, "**", j)
  }

  /** What stands at `i`: a bold span, or failing that an italic one, a code span or a link; a link whose
      target is not safe is its text and its target in parentheses. */
  ghost predicate StandsAt(text: string, i: nat, m: Match) {
    || (exists j: nat :: LazySpan(text, i, "**", j) && m == Match(j + 2, Bold(text[i + 2..j])))
    || (NoBold(text, i) && exists j: nat :: LazySpan(text, i, "*", j) && m == Match(j + 1, Italic(text[i + 1..j])))
    || (exists j: nat :: LazySpan(text, i, "`", j) && m == Match(j + 1, Token.Code(text[i + 1..j])))
    || (exists b: nat, p: nat :: LinkSpan(text, i, b, p)
          && m == Match(p + 1, LinkToken(text[i + 1..b], text[b + 2..p])))
  }

  function LinkToken(caption: string, target: string): Token {
    if SafeHref(Trim(target)) then Link(caption, Trim(target)) else PlainText(caption + " (" + target + ")")
  }

  lemma NotMarked(text: string, i: nat, mark: string)
    requires mark != "" && i < |text| && text[i] != mark[0]
    ensures Marked(text, i, mark).None?
  {
    if i + |mark| <= |text| { assert text[i..i + |mark|][0] == text[i]; }
  }

  lemma MarkStandsFirst(text: string, i: nat, mark: string, j: nat)
    requires mark != "" && LazySpan(text, i, mark, j)
    ensures i + |mark| < j && j + |mark| <= |text| && text[i] == mark[0]
  {
    assert text[i..i + |mark|][0] == text[i];
  }

  lemma MarkedAre(text: string, i: nat, mark: string)
    requires mark != ""
    ensures forall j: nat :: Marked(text, i, mark) == Some(j) <==> LazySpan(text, i, mark, j)
  {
    forall j: nat
      ensures Marked(text, i, mark) == Some(j) <==> LazySpan(text, i, mark, j)
    {
      MarkedIff(text, i, mark, j);
    }
  }

  lemma MatchStands(text: string, i: nat)
    requires MatchAt(text, i).Some?
    ensures StandsAt(text, i, MatchAt(text, i).value)
  {
    MarkedAre(text, i, "**");
    MarkedAre(text, i, "*");
    MarkedAre(text, i, "`");
    var link := LinkParts(text, i);
    if link.Some? { LinkPartsIff(text, i, link.value.0, link.value.1); }
    hide Marked, LinkParts, LazySpan, LinkSpan, SafeHref, Trim;
  }

  lemma BoldIsMatched(text: string, i: nat, j: nat)
    requires LazySpan(text, i, "**", j)
    ensures MatchAt(text, i) == Some(Match(j + 2, Bold(text[i + 2..j])))
  {
    hide LazySpan, Marked, LinkParts;
    MarkedIff(text, i, "**", j);
    MarkStandsFirst(text, i, "**", j);
  }

  lemma ItalicIsMatched(text: string, i: nat, j: nat)
    requires NoBold(text, i) && LazySpan(text, i, "*", j)
    ensures MatchAt(text, i) == Some(Match(j + 1, Italic(text[i + 1..j])))
  {
    hide LazySpan, Marked, LinkParts;
    MarkedAre(text, i, "**");
    MarkedIff(text, i, "*", j);
    MarkStandsFirst(text, i, "*", j);
  }

  lemma CodeIsMatched(text: string, i: nat, j: nat)
    requires LazySpan(text, i, "`", j)
    ensures MatchAt(text, i) == Some(Match(j + 1, Token.Code(text[i + 1..j])))
  {
    hide LazySpan, Marked, LinkParts;
    MarkedIff(text, i, "`", j);
    MarkStandsFirst(text, i, "`", j);
    NotMarked(text, i, "**");
    NotMarked(text, i, "*");
  }

  lemma LinkIsMatched(text: string, i: nat, b: nat, p: nat)
    requires LinkSpan(text, i, b, p)
    ensures MatchAt(text, i) == Some(Match(p + 1, LinkToken(text[i + 1..b], text[b + 2..p])))
  {
    hide Marked, LinkParts, SafeHref, Trim;
    LinkPartsIff(text, i, b, p);
    NotMarked(text, i, "**");
    NotMarked(text, i, "*");
    NotMarked(text, i, "`");
  }

  lemma StandingIsMatched(text: string, i: nat, m: Match)
    requires StandsAt(text, i, m)
    ensures MatchAt(text, i) == Some(m)
  {
    hide MatchAt, Dots, NoBold, LinkToken;
    if j: nat :| LazySpan(text, i, "**", j) && m == Match(j + 2, Bold(text[i + 2..j])) {
      BoldIsMatched(text, i, j);
    } else if j: nat :| NoBold(text, i) && LazySpan(text, i, "*", j) && m == Match(j + 1, Italic(text[i + 1..j])) {
      ItalicIsMatched(text, i, j);
    } else if j: nat :| LazySpan(text, i, "`", j) && m == Match(j + 1, Token.Code(text[i + 1..j])) {
      CodeIsMatched(text, i, j);
    } else {
      var b: nat, p: nat :| LinkSpan(text, i, b, p) && m == Match(p + 1, LinkToken(text[i + 1..b], text[b + 2..p]));
      LinkIsMatched(text, i, b, p);
    }
  }

  /** The search finds exactly that. */
  lemma MatchAtIff(text: string, i: nat, m: Match)
    ensures MatchAt(text, i) == Some(m) <==> StandsAt(text, i, m)
  {
    hide MatchAt, StandsAt;
    if MatchAt(text, i) == Some(m) { MatchStands(text, i); }
    if StandsAt(text, i, m) { StandingIsMatched(text, i, m); }
  }
}
