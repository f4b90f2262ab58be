/** The line patterns as statements about the line, apart from how they are searched for. */
module LinePatterns {
  import opened Common
  import opened Inline
  import opened InlinePatterns
  import opened Markdown

  function Hashes(k: nat): string {
    seq(k, _ => '#')
  }

  /** White space, at least one. */
  predicate Gap(s: string) {
    s != "" && AllSpace(s)
  }

  /** The rest of a line behind a gap. */
  predicate Rest(t: string) {
    Dots(t) && (t != "" ==> !IsSpace(t[0]))
  }

  /** A run that ends where the test first fails. */
  lemma {:induction false} LeadingIs(run: string, rest: string, p: char -> bool)
    requires (forall i :: 0 <= i < |run| ==> p(run[i])) && (rest != "" ==> !p(rest[0]))
    ensures Leading(run + rest, p) == |run|
  {
    if run == "" {
      assert run + rest == rest;
    } else {
      assert (run + rest)[1..] == run[1..] + rest;
      LeadingIs(run[1..], rest, p);
    }
  }

  lemma AfterGap(gap: string, t: string)
    requires Gap(gap) && Rest(t)
    ensures AfterSpace(gap + t) == Some(t)
  {
    LeadingIs(gap, t, c => IsSpace(c));
    assert (gap + t)[|gap|..] == t;
    hide Dots, IsSpace;
  }

  lemma GapBefore(s: string, t: string) returns (gap: string)
    requires AfterSpace(s) == Some(t)
    ensures Gap(gap) && Rest(t) && s == gap + t
  {
    var n := Leading(s, c => IsSpace(c));
    gap := s[..n];
    hide IsSpace;
    assert s == s[..n] + s[n..];
  }

  // ---------------------------------------------------------------- headings, quotes, items

  ghost predicate IsHeading(line: string, k: nat, t: string) {
    1 <= k <= 6 && Rest(t) && exists gap :: Gap(gap) && line == Hashes(k) + gap + t
  }

  /** One to six hashes, a gap and the text. */
  lemma HeadingIff(line: string, k: nat, t: string)
    ensures HeadingOf(line) == Some((k, t)) <==> IsHeading(line, k, t)
  {
    hide AfterSpace, Dots;
    if HeadingOf(line) == Some((k, t)) {
      var gap := GapBefore(line[k..], t);
      assert line == line[..k] + line[k..] && line[..k] == Hashes(k);
      assert Hashes(k) + (gap + t) == Hashes(k) + gap + t;
    }
    if IsHeading(line, k, t) {
      var gap :| Gap(gap) && line == Hashes(k) + gap + t;
      assert line == Hashes(k) + (gap + t);
      assert gap[0] != '#' && (gap + t)[0] == gap[0];
      LeadingIs(Hashes(k), gap + t, c => c == '#');
      assert line[k..] == gap + t;
      AfterGap(gap, t);
    }
  }

  ghost predicate IsQuote(line: string, t: string) {
    Dots(t) && ((exists c :: IsSpace(c) && line == ['>', c] + t) || (line == ['>'] + t && (t != "" ==> !IsSpace(t[0]))))
  }

  /** A quote sign, a white space if there is one, and the text. */
  lemma QuoteIff(line: string, t: string)
    ensures QuoteOf(line) == Some(t) <==> IsQuote(line, t)
  {
    if QuoteOf(line) == Some(t) {
      var rest := line[1..];
      assert line == ['>'] + rest;
      if rest != "" && IsSpace(rest[0]) { assert line == ['>', rest[0]] + rest[1..]; }
    }
    hide Dots, IsSpace;
    if IsQuote(line, t) {
      if c :| IsSpace(c) && line == ['>', c] + t {
        assert line[1..] == [c] + t && line[1..][1..] == t;
      } else {
        assert line[1..] == t;
      }
    }
  }

  predicate Digits(s: string) {
    s != "" && forall i :: 0 <= i < |s| ==> '0' <= s[i] <= '9'
  }

  /** A list's mark: a dash or a star, or digits and a dot. */
  predicate IsMark(mark: string, ordered: bool) {
    if ordered then mark != "" && mark[|mark| - 1] == '.' && Digits(mark[..|mark| - 1]) else mark == "-" || mark == "*"
  }

  ghost predicate IsItemOf(line: string, ordered: bool, t: string) {
    Rest(t) && exists mark, gap :: IsMark(mark, ordered) && Gap(gap) && line == mark + gap + t
  }

  lemma UnorderedIff(line: string, t: string)
    ensures UnorderedOf(line) == Some(t) <==> IsItemOf(line, false, t)
  {
    hide AfterSpace, Dots, IsSpace;
    if UnorderedOf(line) == Some(t) {
      var gap := GapBefore(line[1..], t);
      assert line == [line[0]] + line[1..];
      assert IsMark([line[0]], false) && line == [line[0]] + gap + t;
    }
    if IsItemOf(line, false, t) {
      var mark, gap :| IsMark(mark, false) && Gap(gap) && line == mark + gap + t;
      assert line[1..] == gap + t;
      AfterGap(gap, t);
    }
  }

  lemma OrderedIff(line: string, t: string)
    ensures OrderedOf(line) == Some(t) <==> IsItemOf(line, true, t)
  {
    hide AfterSpace, Dots, IsSpace;
    if OrderedOf(line) == Some(t) {
      var n := Leading(line, c => '0' <= c <= '9');
      var gap := GapBefore(line[n + 1..], t);
      var mark := line[..n + 1];
      assert mark[..n] == line[..n];
      assert IsMark(mark, true) && line == mark + gap + t;
    }
    if IsItemOf(line, true, t) {
      var mark, gap :| IsMark(mark, true) && Gap(gap) && line == mark + gap + t;
      OrderedMark(line, mark, gap + t);
      AfterGap(gap, t);
    }
  }

  lemma OrderedMark(line: string, mark: string, behind: string)
    requires IsMark(mark, true) && line == mark + behind
    ensures OrderedOf(line) == AfterSpace(behind)
  {
    hide AfterSpace;
    var n := |mark| - 1;
    assert mark == mark[..n] + ['.'];
    assert line == mark[..n] + (['.'] + behind);
    LeadingIs(mark[..n], ['.'] + behind, c => '0' <= c <= '9');
    assert line[n + 1..] == behind;
  }

  lemma FenceIff(line: string)
    ensures IsFence(line) <==> |line| >= 3 && line[0] == '`' && line[1] == '`' && line[2] == '`'
  {
    if |line| >= 3 { assert line[0..3] == [line[0], line[1], line[2]]; }
  }

  // ---------------------------------------------------------------- the kind of a line

  lemma {:induction false} TrimsToNothing(s: string)
    ensures Trim(s) == "" <==> AllSpace(s)
  {
    var l, r := TrimIs(s);
    hide Trim, IsSpace;
    if Trim(s) != "" { assert Trim(s)[0] == s[|l|]; }
    if Trim(s) == "" { assert s == l + r; }
  }

  /** The first character decides between the patterns. */
  lemma FirstCharTells(line: string)
    ensures HeadingOf(line).Some? ==> line != "" && line[0] == '#'
    ensures QuoteOf(line).Some? ==> line != "" && line[0] == '>'
    ensures OrderedOf(line).Some? ==> line != "" && '0' <= line[0] <= '9'
    ensures UnorderedOf(line).Some? ==> line != "" && (line[0] == '-' || line[0] == '*')
    ensures IsFence(line) ==> line != "" && line[0] == '`'
    ensures AllSpace(line) ==>
      !IsFence(line) && HeadingOf(line).None? && QuoteOf(line).None? && OrderedOf(line).None? && UnorderedOf(line).None?
  {
    FenceIff(line);
    hide AfterSpace, Dots, IsFence;
    if AllSpace(line) && line != "" { assert IsSpace(line[0]); }
  }

  /** No two patterns fit one line, so the order of asking does not matter. */
  lemma KindIsThePattern(line: string)
    ensures KindOf(line) == Fence <==> IsFence(line)
    ensures forall k, t :: KindOf(line) == HeadingLine(k, t) <==> HeadingOf(line) == Some((k, t))
    ensures forall t :: KindOf(line) == QuoteLine(t) <==> QuoteOf(line) == Some(t)
    ensures forall t :: KindOf(line) == Item(true, t) <==> OrderedOf(line) == Some(t)
    ensures forall t :: KindOf(line) == Item(false, t) <==> UnorderedOf(line) == Some(t)
    ensures KindOf(line) == Blank <==> AllSpace(line)
  {
    FirstCharTells(line);
    TrimsToNothing(line);
    hide HeadingOf, QuoteOf, UnorderedOf, OrderedOf, IsFence, AllSpace, Trim;
  }

  /** What a line is. */
  lemma KindIff(line: string)
    ensures KindOf(line) == Fence <==> |line| >= 3 && line[0] == '`' && line[1] == '`' && line[2] == '`'
    ensures forall k, t :: KindOf(line) == HeadingLine(k, t) <==> IsHeading(line, k, t)
    ensures forall t :: KindOf(line) == QuoteLine(t) <==> IsQuote(line, t)
    ensures forall ordered, t :: KindOf(line) == Item(ordered, t) <==> IsItemOf(line, ordered, t)
    ensures KindOf(line) == Blank <==> AllSpace(line)
  {
    hide KindOf, HeadingOf, QuoteOf, UnorderedOf, OrderedOf, IsFence, IsHeading, IsQuote, IsItemOf, AllSpace;
    KindIsThePattern(line);
    FenceIff(line);
    forall k, t
      ensures HeadingOf(line) == Some((k, t)) <==> IsHeading(line, k, t)
    {
      HeadingIff(line, k, t);
    }
    forall t
      ensures QuoteOf(line) == Some(t) <==> IsQuote(line, t)
      ensures UnorderedOf(line) == Some(t) <==> IsItemOf(line, false, t)
      ensures OrderedOf(line) == Some(t) <==> IsItemOf(line, true, t)
    {
      QuoteIff(line, t);
      UnorderedIff(line, t);
      OrderedIff(line, t);
    }
  }
}
